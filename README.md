# remindme location manager, in Dafny

remindme tracks where its users are and answers "which of my contacts are near
me". This project models the core of `remindme.go`: the location **manager**. The
manager keeps a registry of users. Each user has a one-directional contact set
and at most one point in a spatial index. The manager offers three operations:

- `addContacts` creates the user lazily and adds the listed contacts (set union).
- `updateLocation` creates the user lazily. The first ping inserts a new point
  that carries the user's id. A ping at unchanged coordinates does nothing. Any
  other ping asks the index to move the user's point to a new point that has no
  payload.
- `nearContacts` answers nothing for an unknown user or one without contacts.
  Otherwise it asks the index for at most 5 points near (lat, lon) that pass a
  "payload is one of my contacts" filter. It reports their ids in the index's
  order and skips the caller's own id.

Files:

- `quadtree.dfy` (module `Quadtree`) is the spatial index from the external
  package `github.com/asim/quadtree`. That package is not part of this model, so
  the index appears only as an abstract collaborator. `Point` is a
  pointer-identified point with coordinates and a payload. `World` is the index.
  Its contracts promise only what the manager relies on. Its bodies are the
  simplest stand-in that meets them: a flat list of stored point references. A
  ghost `log` records every `Insert` and `Update` call, with the argument values
  at the time of the call. This lets the model state how the manager drives the
  index.
- `remindme.dfy` (module `Remindme`) holds the user record, the manager class
  and its three operations. It also holds the specification functions they are
  proved against and the lemmas about those functions.

The central invariant is `Coherent(users, world.log)`, which `Manager.Valid`
states and every operation preserves:

- every record is keyed by its own id;
- no two users share a point;
- the index has seen exactly one `Insert` for each user with a point, and none
  for any other user;
- that `Insert` was of the user's own point;
- every `Update` call carried a point without payload.

## Model

| member | source | states |
|---|---|---|
| `Remindme.NewWorld` | remindme.go:45-50 | A fresh, empty index whose box is built from the points (0, 0) and (85, 185). |
| `Remindme.NewUser` | remindme.go:38-43 | newUser: a record with the given id, no contacts and no location. |
| `Remindme.UserOf` | remindme.go:56-61 | The lookup-or-create both updating operations start with (also remindme.go:125-130): a registered user is returned as stored; an unseen id gets a record with no contacts and no location; when every record is keyed by its own id, the result carries the id asked for. |
| `Remindme.Manager.constructor` | remindme.go:31-36 | newManager: an empty registry over a fresh, empty index; the invariant holds from the start. |
| `Remindme.Manager.AddContacts` | remindme.go:52-70 | The new registry is the old one with the user created if absent and its contacts extended by every listed id. The index is unchanged and the invariant is kept. |
| `Remindme.AddContactsEffect` | remindme.go:56-69 | After addContacts the registry has exactly the old keys plus `id`. Other users are unchanged and the user keeps its location. A contact is in the new set iff it was there before or is listed. An unseen id gets a record with its own id and no location. |
| `Remindme.AddContactsIdempotent` | remindme.go:64-69 | Repeating the same addContacts call changes nothing (duplicates are ignored). |
| `Remindme.AddContactsTwice` | remindme.go:64-69 | Two addContacts calls for one user equal one call with both lists concatenated. |
| `Remindme.AddContactsCommute` | remindme.go:64-69 | The order of two addContacts calls for one user does not matter. |
| `Remindme.CoherentAfterAddContacts` | remindme.go:52-70 | addContacts keeps the registry in agreement with the index's call log. |
| `Remindme.Manager.UpdateLocation` | remindme.go:121-147 | Creates the user if absent. If the user has no point, a fresh point at (lat, lon) carrying the user's id becomes its location and exactly one Insert of it is made. If the coordinates equal the current point's, the registry, the index and the point are untouched. Otherwise exactly one Update is made, of the user's point, with a fresh point at (lat, lon) and no payload, and the user record does not change. The invariant is kept. |
| `Remindme.PingedOnce` | remindme.go:132-136 | A user's point is set by its first ping and never replaced by a later one. |
| `Remindme.PingedKeepsContacts` | remindme.go:125-147 | updateLocation registers the user, never changes anyone's contacts, and leaves every other user as it was. |
| `Remindme.InsertedAtMostOnce` | remindme.go:132-146 | Under the invariant, each user id has caused at most one Insert, and exactly one exactly when the user has a point. |
| `Remindme.CoherentAfterFirstPing` | remindme.go:132-135 | Inserting a fresh point carrying the id of a user with no point keeps the registry in agreement with the index. |
| `Remindme.CoherentAfterMove` | remindme.go:144-146 | An Update carrying no payload keeps the registry in agreement with the index. |
| `Remindme.Manager.NearContacts` | remindme.go:72-119 | For an unknown user, or one with no contacts, the answer is empty and the index is not queried. Otherwise at most 5 index points come back, each stored and each passing the contact filter. The answer is exactly the string payloads of those points other than the caller's id, in the index's order. So it is no longer than the index's answer, never holds the caller's id, and holds only the caller's contacts. Registry and index are only read. |
| `Remindme.IsContactPayload` | remindme.go:86-97 | The nearContacts filter: a point passes exactly when its payload is a string that is one of the caller's contacts. |
| `Remindme.Visible` | remindme.go:105-116 | The ids reported for a list of payloads are no more than the payloads; each is carried by some payload and differs from the caller's id. |
| `Remindme.VisibleComplete` | remindme.go:105-116 | Conversely, every id other than the caller's that some payload carries is reported. |
| `Remindme.VisibleWithin` | remindme.go:86-116 | If every payload passed the contact filter, every reported id is a contact. |
| `Remindme.VisibleAppend` | remindme.go:105-116 | Reporting keeps order: the report for a concatenation is the report for the first part followed by the report for the second. |
| `Quadtree.Point.constructor` | remindme.go:133 | NewPoint: a point with the given coordinates and payload. |
| `Quadtree.World.constructor` | remindme.go:49 | A new index over the given box, storing nothing. |
| `Quadtree.World.Insert` | remindme.go:134 | Records the Insert call. On success the point joins the store; otherwise the store is unchanged. |
| `Quadtree.World.Update` | remindme.go:146 | Records the Update call with the new point's coordinates and payload; may change the store and the old point. |
| `Quadtree.World.KNearest` | remindme.go:103 | At most `k` points, each stored and each passing the filter. |

## Left out

- The HTTP handlers `allHandler`, `contactHandler`, `pingHandler` and `nearHandler`
  (remindme.go:149-392) are left out. That includes `allHandler`'s dump of every user. They do request reading, JSON parsing,
  marshalling and status codes, which are I/O.
- `main` and `ListenAndServe` (remindme.go:394-411) are left out: they are
  process start-up and networking.
- The `sync.RWMutex` and its `Lock`/`Unlock` pairs are left out. Each operation
  is one atomic method, so concurrency is not modelled.
- `log.Printf` calls, the `defaultManager` global and the commented-out `test()` (remindme.go:425-478)
  are left out.
- The internals of `github.com/asim/quadtree` are not part of this model. That
  covers `NewAABB`, `HalfPoint`, the partitioning and routing inside Insert and
  Update, the bounds check, and the distance ordering inside KNearest. The boxes
  the manager builds are recorded only as the arguments it passes (`Aabb`).
- float64 coordinates are modelled as reals, because the manager only compares
  them for equality. NaN and rounding are not modelled. `nearestDistance` (10.0)
  is only a value passed along, and its degree-versus-metre meaning is not
  modelled.
- A user record is a value in the manager's map instead of a heap object. The
  source holds each `*user` only in that map, so no aliasing is lost. The
  point, which the index identifies by pointer, stays a heap object.
- `Quadtree.World.KNearest` takes its filter as a function of the point's
  payload, not of the whole `*Point` as the library does. That is sound for the
  one filter the manager passes (remindme.go:86-97), because it reads only the
  payload, but filters that look at coordinates are not expressible.
- `Quadtree.World.KNearest` is weaker than the library: it does not promise that
  the points lie in the window or that they are ordered by distance. So the
  "a contact outside the window is never returned" property is not modelled.
- `Quadtree.World.Update` says nothing about the store or the old point after
  the call. The model does not decide whether the library moves the old point
  in place or swaps in the new point without a payload. So it does not decide
  whether a relocated user can still be found by a later query.
- `Quadtree.World.Insert` leaves open whether an insert succeeds (the library
  refuses points outside its box).
- The manager ignores the success results of Insert and Update, and the model
  follows the code. It does not report an out-of-bounds error to the caller.
- `Remindme.Manager.NearContacts`: "without querying the index" is shown by the
  early return, which leaves `hits` empty. It is not a separate contract,
  because a query changes no state.
