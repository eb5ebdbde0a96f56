/**
 * The location manager of remindme: a registry of users, each with a
 * one-directional contact set and at most one point in the spatial index,
 * and the three operations the HTTP front end calls: addContacts,
 * updateLocation and nearContacts. Each operation is one atomic step (the
 * source serialises them with a single lock).
 */
module Remindme {
  import opened Quadtree

  /** The cap on the number of points a proximity query asks for. */
  const NearestContacts: nat := 5

  /** The distance handed to HalfPoint to build the query window. */
  const NearestDistance: real := 10.0

  /** A user record: its id, its one-directional contact set (a Go map
      whose values are always true) and its point in the index, if any. */
  datatype User = User(id: string, contacts: set<string>, location: Point?)

  /** newUser: no contacts and no location yet. */
  function NewUser(id: string): (u: User)
    ensures u.id == id && u.contacts == {} && u.location == null
  {
    User(id, {}, null)
  }

  /** newWorld: the index over the box given by the points (0, 0) and (85, 185). */
  method NewWorld() returns (w: World)
    ensures fresh(w)
    ensures w.boundary == FromPoints(Coord(0.0, 0.0), Coord(85.0, 185.0))
    ensures w.points == [] && w.log == []
  {
    w := new World(FromPoints(Coord(0.0, 0.0), Coord(85.0, 185.0)));
  }

  // ---------------------------------------------------------------------
  // The registry as a value, and the effect of each operation on it
  // ---------------------------------------------------------------------

  function Elems(cs: seq<string>): (r: set<string>) {
    set c | c in cs
  }

  /** The lookup both addContacts and updateLocation start with: the user
      registered under `id`, or a new one. */
  function UserOf(v: map<string, User>, id: string): (u: User)
    ensures id in v ==> u == v[id]
    ensures id !in v ==> u.contacts == {} && u.location == null
    ensures (forall k | k in v :: v[k].id == k) ==> u.id == id
  {
    if id in v then v[id] else NewUser(id)
  }

  /** addContacts on the registry: lazily create, then take the union. */
  function AddContactsTo(v: map<string, User>, id: string, cs: seq<string>): (r: map<string, User>) {
    var u := UserOf(v, id);
    v[id := u.(contacts := u.contacts + Elems(cs))]
  }

  /** updateLocation on the registry: only the first ping of a user changes
      it, by giving the user the point `p`; later pings leave the registry
      as it is and act on the index alone. */
  function PingedAt(v: map<string, User>, id: string, p: Point): (r: map<string, User>) {
    if id in v && v[id].location != null then v
    else v[id := UserOf(v, id).(location := p)]
  }

  /** addContacts registers the user (an unseen one with its own id, no
      location, and only the listed contacts), makes a contact of exactly
      the old contacts and the listed ids, and changes nothing else. */
  lemma AddContactsEffect(v: map<string, User>, id: string, cs: seq<string>, c: string)
    ensures AddContactsTo(v, id, cs).Keys == v.Keys + {id}
    ensures forall k | k in v && k != id :: AddContactsTo(v, id, cs)[k] == v[k]
    ensures c in AddContactsTo(v, id, cs)[id].contacts <==> c in UserOf(v, id).contacts || c in cs
    ensures AddContactsTo(v, id, cs)[id].location == UserOf(v, id).location
    ensures id !in v ==> AddContactsTo(v, id, cs)[id].id == id && AddContactsTo(v, id, cs)[id].location == null
  {
  }

  /** Adding the same contacts twice is the same as adding them once. */
  lemma AddContactsIdempotent(v: map<string, User>, id: string, cs: seq<string>)
    ensures AddContactsTo(AddContactsTo(v, id, cs), id, cs) == AddContactsTo(v, id, cs)
  {
  }

  lemma ElemsConcat(a: seq<string>, b: seq<string>)
    ensures Elems(a + b) == Elems(a) + Elems(b)
  {
    forall c ensures c in Elems(a + b) <==> c in Elems(a) || c in Elems(b) {
      if c in a + b {
        var i :| 0 <= i < |a + b| && (a + b)[i] == c;
        if i >= |a| { assert b[i - |a|] == c; }
      }
      if c in b {
        var j :| 0 <= j < |b| && b[j] == c;
        assert (a + b)[|a| + j] == c;
      }
    }
  }

  /** Two calls for one user add exactly the contacts of both lists. */
  lemma AddContactsTwice(v: map<string, User>, id: string, a: seq<string>, b: seq<string>)
    ensures AddContactsTo(AddContactsTo(v, id, a), id, b) == AddContactsTo(v, id, a + b)
  {
    ElemsConcat(a, b);
    var u := UserOf(v, id);
    var v1 := AddContactsTo(v, id, a);
    assert UserOf(v1, id) == u.(contacts := u.contacts + Elems(a));
    assert u.contacts + Elems(a) + Elems(b) == u.contacts + Elems(a + b);
    assert AddContactsTo(v1, id, b) == v1[id := u.(contacts := u.contacts + Elems(a + b))];
  }

  /** The order of two calls for one user does not matter. */
  lemma AddContactsCommute(v: map<string, User>, id: string, a: seq<string>, b: seq<string>)
    ensures AddContactsTo(AddContactsTo(v, id, a), id, b) == AddContactsTo(AddContactsTo(v, id, b), id, a)
  {
    AddContactsTwice(v, id, a, b);
    AddContactsTwice(v, id, b, a);
    ElemsConcat(a, b);
    ElemsConcat(b, a);
    assert Elems(a + b) == Elems(b + a);
  }

  /** A user's point is set by the first ping and never replaced. */
  lemma PingedOnce(v: map<string, User>, id: string, p: Point, q: Point)
    ensures PingedAt(PingedAt(v, id, p), id, q) == PingedAt(v, id, p)
    ensures id in PingedAt(v, id, p) && PingedAt(v, id, p)[id].location != null
  {
  }

  /** Pinging never changes anyone's contacts and never touches another user. */
  lemma PingedKeepsContacts(v: map<string, User>, id: string, p: Point)
    ensures PingedAt(v, id, p).Keys == v.Keys + {id}
    ensures forall k | k in v :: PingedAt(v, id, p)[k].contacts == v[k].contacts
    ensures forall k | k in v && k != id :: PingedAt(v, id, p)[k] == v[k]
  {
  }

  // ---------------------------------------------------------------------
  // Insertions recorded by the index
  // ---------------------------------------------------------------------

  /** Whether `c` is an Insert of a point carrying `k` as payload. */
  predicate IsInsertOf(c: Call, k: string) {
    c.Inserted? && c.data == UserId(k)
  }

  /** The number of Insert calls made with a point carrying `k` as payload. */
  function Inserts(log: seq<Call>, k: string): (n: nat) {
    if log == [] then 0
    else Inserts(log[..|log| - 1], k) + (if IsInsertOf(log[|log| - 1], k) then 1 else 0)
  }

  lemma InsertsAppend(log: seq<Call>, c: Call, k: string)
    ensures Inserts(log + [c], k) == Inserts(log, k) + (if IsInsertOf(c, k) then 1 else 0)
  {
    assert (log + [c])[..|log|] == log;
  }

  /** A count of zero means no Insert call in the log carries `k`. */
  lemma {:induction false} InsertsZero(log: seq<Call>, k: string)
    requires Inserts(log, k) == 0
    ensures forall i | 0 <= i < |log| :: !IsInsertOf(log[i], k)
  {
    if log != [] {
      var init := log[..|log| - 1];
      InsertsZero(init, k);
      forall i | 0 <= i < |log| ensures !IsInsertOf(log[i], k) {
        if i < |log| - 1 { assert log[i] == init[i]; }
      }
    }
  }

  // ---------------------------------------------------------------------
  // The answer of a proximity query
  // ---------------------------------------------------------------------

  /** Whether the filter of nearContacts lets a point with payload `d` through:
      the payload is a string and is one of `contacts`. */
  function IsContactPayload(contacts: set<string>, d: Payload): (ok: bool)
    ensures ok <==> exists s | s in contacts :: d == UserId(s)
  {
    d.UserId? && d.id in contacts
  }

  /** The payloads of `ps`, in order. */
  function Payloads(ps: seq<Point>): (ds: seq<Payload>)
    reads ps
    ensures |ds| == |ps|
    ensures forall i | 0 <= i < |ps| :: ds[i] == ps[i].data
  {
    if ps == [] then [] else Payloads(ps[..|ps| - 1]) + [ps[|ps| - 1].data]
  }

  /** The ids nearContacts reports for the payloads `ds` of the index's
      answer, in order: string payloads other than the caller's own id. */
  function Visible(ds: seq<Payload>, self: string): (r: seq<string>)
    ensures |r| <= |ds|
    ensures forall e | e in r :: e != self && UserId(e) in ds
  {
    if ds == [] then []
    else
      var rest := Visible(ds[..|ds| - 1], self);
      match ds[|ds| - 1]
      case NoPayload => rest
      case UserId(s) => if s == self then rest else rest + [s]
  }

  /** Every id other than the caller's that some payload carries is reported. */
  lemma {:induction false} VisibleComplete(ds: seq<Payload>, self: string, e: string)
    requires e != self && UserId(e) in ds
    ensures e in Visible(ds, self)
  {
    var init := ds[..|ds| - 1];
    if ds[|ds| - 1] != UserId(e) {
      var i :| 0 <= i < |ds| && ds[i] == UserId(e);
      assert init[i] == UserId(e);
      VisibleComplete(init, self, e);
    }
  }

  /** When every payload passes the filter of nearContacts, every reported
      id is a contact. */
  lemma VisibleWithin(ds: seq<Payload>, self: string, contacts: set<string>)
    requires forall i | 0 <= i < |ds| :: IsContactPayload(contacts, ds[i])
    ensures forall e | e in Visible(ds, self) :: e in contacts
  {
    forall e | e in Visible(ds, self) ensures e in contacts {
      var j :| 0 <= j < |ds| && ds[j] == UserId(e);
      assert IsContactPayload(contacts, ds[j]);
    }
  }

  /** The answer keeps the order of the payloads: the ids reported for a
      prefix come before those reported for what follows it. */
  lemma {:induction false} VisibleAppend(a: seq<Payload>, b: seq<Payload>, self: string)
    ensures Visible(a + b, self) == Visible(a, self) + Visible(b, self)
  {
    if b == [] {
      assert a + b == a;
    } else {
      var b' := b[..|b| - 1];
      assert (a + b)[..|a + b| - 1] == a + b';
      assert (a + b)[|a + b| - 1] == b[|b| - 1];
      VisibleAppend(a, b', self);
    }
  }

  // ---------------------------------------------------------------------
  // What the registry and the index's call log keep in step
  // ---------------------------------------------------------------------

  /** Every record is keyed by its own id; no two users share a point; the
      index has seen exactly one Insert for every user with a point and none
      for anyone else; each Insert was of that user's point; and every
      Update carried a point without payload. */
  ghost predicate Coherent(v: map<string, User>, log: seq<Call>) {
    && (forall k | k in v :: v[k].id == k)
    && (forall k, k' | k in v && k' in v && k != k' && v[k].location != null :: v[k].location != v[k'].location)
    && (forall k :: Inserts(log, k) == if k in v && v[k].location != null then 1 else 0)
    && (forall i | 0 <= i < |log| && log[i].Inserted? ::
          log[i].data.UserId? && log[i].data.id in v && v[log[i].data.id].location == log[i].p)
    && (forall i | 0 <= i < |log| && log[i].Updated? :: log[i].data == NoPayload)
  }

  /** Each user causes at most one Insert. */
  lemma InsertedAtMostOnce(v: map<string, User>, log: seq<Call>, k: string)
    requires Coherent(v, log)
    ensures Inserts(log, k) <= 1
    ensures Inserts(log, k) == 1 <==> k in v && v[k].location != null
  {
  }

  /** addContacts does not disturb the registry's agreement with the index. */
  lemma CoherentAfterAddContacts(v: map<string, User>, log: seq<Call>, id: string, cs: seq<string>)
    requires Coherent(v, log)
    ensures Coherent(AddContactsTo(v, id, cs), log)
  {
    var v' := AddContactsTo(v, id, cs);
    assert forall k | k in v' :: v'[k].location == UserOf(v, k).location;
  }

  /** A first ping that inserts a new point carrying the user's id keeps the
      registry and the index in agreement. */
  lemma CoherentAfterFirstPing(v: map<string, User>, log: seq<Call>, id: string, p: Point, at: Coord)
    requires Coherent(v, log)
    requires !(id in v && v[id].location != null)
    requires forall k | k in v :: v[k].location != p
    ensures Coherent(PingedAt(v, id, p), log + [Inserted(p, at, UserId(id))])
  {
    var v' := PingedAt(v, id, p);
    var c := Inserted(p, at, UserId(id));
    var log' := log + [c];
    forall k ensures Inserts(log', k) == if k in v' && v'[k].location != null then 1 else 0 {
      InsertsAppend(log, c, k);
    }
    InsertsZero(log, id);
    forall i | 0 <= i < |log'| && log'[i].Inserted?
      ensures log'[i].data.UserId? && log'[i].data.id in v' && v'[log'[i].data.id].location == log'[i].p
    {
      if i < |log| {
        assert log'[i] == log[i];
        assert !IsInsertOf(log[i], id);
      }
    }
  }

  /** A relocation request carrying no payload keeps the registry and the
      index in agreement. */
  lemma CoherentAfterMove(v: map<string, User>, log: seq<Call>, c: Call)
    requires Coherent(v, log)
    requires c.Updated? && c.data == NoPayload
    ensures Coherent(v, log + [c])
  {
    forall k ensures Inserts(log + [c], k) == Inserts(log, k) {
      InsertsAppend(log, c, k);
    }
  }

  // ---------------------------------------------------------------------
  // The manager
  // ---------------------------------------------------------------------

  class Manager {
    const world: World
    var users: map<string, User>

    /** The registry agrees with the index's call log. */
    ghost predicate Valid()
      reads this, world
    {
      Coherent(users, world.log)
    }

    /** newManager: an empty registry over a fresh index. */
    constructor ()
      ensures Valid() && fresh(world)
      ensures users == map[]
      ensures world.boundary == FromPoints(Coord(0.0, 0.0), Coord(85.0, 185.0))
      ensures world.points == [] && world.log == []
    {
      var w := NewWorld();
      world := w;
      users := map[];
    }

    /** addContacts: creates the user if absent, then adds every listed
        contact not yet present. No other user changes and the index is not
        touched. */
    method AddContacts(id: string, cs: seq<string>)
      requires Valid()
      modifies this
      ensures Valid()
      ensures users == AddContactsTo(old(users), id, cs)
      ensures unchanged(world)
    {
      var u: User;
      if id in users {
        u := users[id];
      } else {
        u := NewUser(id);
        users := users[id := u];
      }

      ghost var start := u.contacts;
      for i := 0 to |cs|
        invariant users == old(users)[id := u]
        invariant u == UserOf(old(users), id).(contacts := start + Elems(cs[..i]))
      {
        assert cs[..i + 1] == cs[..i] + [cs[i]];
        if cs[i] in u.contacts {
          continue;
        }
        u := u.(contacts := u.contacts + {cs[i]});
        users := users[id := u];
      }
      assert cs[..|cs|] == cs;
      CoherentAfterAddContacts(old(users), world.log, id, cs);
    }

    /** updateLocation: creates the user if absent. The first ping gives the
        user a new point at (lat, lon) carrying its id and inserts it into
        the index; a ping at the point's current coordinates changes
        nothing; any other ping asks the index to move the user's point to
        a new point at (lat, lon) without payload. */
    method UpdateLocation(id: string, lat: real, lon: real)
      requires Valid()
      modifies this, world, if id in users && users[id].location != null then {users[id].location} else {}
      ensures Valid()
      ensures id in users && users[id].location != null
      ensures users == PingedAt(old(users), id, users[id].location)
      ensures old(!(id in users && users[id].location != null)) ==>
        var p := users[id].location;
        && fresh(p)
        && p.x == lat && p.y == lon && p.data == UserId(id)
        && world.log == old(world.log) + [Inserted(p, Coord(lat, lon), UserId(id))]
        && (world.points == old(world.points) + [p] || world.points == old(world.points))
      ensures old(id in users && users[id].location != null && users[id].location.x == lat && users[id].location.y == lon) ==>
        && users == old(users)
        && unchanged(world)
        && unchanged(users[id].location)
      ensures old(id in users && users[id].location != null && !(users[id].location.x == lat && users[id].location.y == lon)) ==>
        && |world.log| == |old(world.log)| + 1
        && world.log[..|old(world.log)|] == old(world.log)
        && var c := world.log[|world.log| - 1];
           && c.Updated? && c.p == users[id].location && fresh(c.np)
           && c.to == Coord(lat, lon) && c.data == NoPayload
    {
      var u: User;
      if id in users {
        u := users[id];
      } else {
        u := NewUser(id);
        users := users[id := u];
      }

      if u.location == null {
        var p := new Point(lat, lon, UserId(id));
        u := u.(location := p);
        users := users[id := u];
        var _ := world.Insert(p);
        assert users == PingedAt(old(users), id, p);
        assert world.log == old(world.log) + [Inserted(p, Coord(lat, lon), UserId(id))];
        CoherentAfterFirstPing(old(users), old(world.log), id, p, Coord(lat, lon));
        return;
      }

      var x, y := u.location.x, u.location.y;
      if x == lat && y == lon {
        return;
      }

      var location := new Point(lat, lon, NoPayload);
      ghost var c := Updated(u.location, location, Coord(lat, lon), NoPayload);
      var _ := world.Update(u.location, location);
      assert world.log == old(world.log) + [c];
      CoherentAfterMove(users, old(world.log), c);
    }

    /** nearContacts: nothing for an unknown user or one without contacts;
        otherwise the ids of the user's contacts among the at most
        NearestContacts points the index returns for a window around
        (lat, lon), in the index's order, without the caller's own id. The
        registry and the index are only read. `hits` is the index's answer. */
    method NearContacts(id: string, lat: real, lon: real) returns (r: seq<string>, ghost hits: seq<Point>)
      requires Valid()
      ensures id !in users || users[id].contacts == {} ==> r == [] && hits == []
      ensures |hits| <= NearestContacts
      ensures forall i | 0 <= i < |hits| ::
        hits[i] in world.points && id in users && IsContactPayload(users[id].contacts, hits[i].data)
      ensures r == Visible(Payloads(hits), id)
      ensures |r| <= |hits|
      ensures forall e | e in r :: e != id && id in users && e in users[id].contacts
    {
      r, hits := [], [];
      if id !in users || |users[id].contacts| == 0 {
        return;
      }
      var u := users[id];
      var c := u.contacts;
      var filter := (d: Payload) => IsContactPayload(c, d);
      var window := AroundHalfPoint(Coord(lat, lon), NearestDistance);
      var points := world.KNearest(window, NearestContacts, filter);
      hits := points;

      ghost var ds := Payloads(points);
      for i := 0 to |points|
        invariant r == Visible(ds[..i], u.id)
      {
        assert ds[..i + 1][..i] == ds[..i];
        var d := points[i].data;
        if !d.UserId? {
          continue;
        }
        if d.id == u.id {
          continue;
        }
        r := r + [d.id];
      }
      assert ds[..|points|] == ds;
      VisibleWithin(ds, u.id, c);
    }
  }
}
