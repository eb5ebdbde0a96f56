/**
 * The spatial index the location manager builds on: the QuadTree of the
 * external package github.com/asim/quadtree. Its source is not part of this
 * model, so it appears here only as an abstract collaborator. The bodies are
 * the simplest stand-in that meets the contracts (a flat list of stored point
 * references); the manager is verified against the contracts alone, which
 * promise no more than what the manager relies on: no partitioning, no
 * bounds test, no distance ordering.
 */
module Quadtree {

  /** What a point carries besides its coordinates. The manager stores either
      a user id (a Go string) or nothing (nil). */
  datatype Payload = NoPayload | UserId(id: string)

  /** A coordinate pair. The manager only ever compares coordinates for
      equality, so the library's float64 pair is modelled by two reals. */
  datatype Coord = Coord(x: real, y: real)

  /** The two arguments handed to the library's box constructor NewAABB,
      kept uninterpreted: two points, or a centre point together with the
      distance given to its HalfPoint. */
  datatype Aabb = FromPoints(a: Coord, b: Coord) | AroundHalfPoint(center: Coord, distance: real)

  /** A call that changes the index, with the values its arguments had at
      the moment of the call. */
  datatype Call =
    | Inserted(p: Point, at: Coord, data: Payload)
    | Updated(p: Point, np: Point, to: Coord, data: Payload)

  /** A point handed out by NewPoint and referenced by pointer. */
  class Point {
    var x: real
    var y: real
    var data: Payload

    constructor (x: real, y: real, data: Payload)
      ensures this.x == x && this.y == y && this.data == data
    {
      this.x := x;
      this.y := y;
      this.data := data;
    }
  }

  /** The index. `points` is the abstract store of point references it
      holds; `log` records every Insert and Update made on it. */
  class World {
    const boundary: Aabb
    var points: seq<Point>
    ghost var log: seq<Call>

    constructor (boundary: Aabb)
      ensures this.boundary == boundary
      ensures points == [] && log == []
    {
      this.boundary := boundary;
      points := [];
      log := [];
    }

    /** Stores `p`. Whether it succeeds (the library refuses a point outside
        its boundary) is left open: on success `p` joins the store, otherwise
        the store is as before. */
    method Insert(p: Point) returns (ok: bool)
      modifies this
      ensures log == old(log) + [Inserted(p, Coord(p.x, p.y), p.data)]
      ensures points == if ok then old(points) + [p] else old(points)
    {
      points := points + [p];
      log := log + [Inserted(p, Coord(p.x, p.y), p.data)];
      ok := true;
    }

    /** Relocates the stored point `p` to the coordinates of `np`. Whether
        the library moves `p` in place or swaps `np` in for it is not
        known here, so the contract lets both the store and `p` change and
        records only that the call was made. */
    method Update(p: Point, np: Point) returns (ok: bool)
      modifies this, p
      ensures log == old(log) + [Updated(p, np, old(Coord(np.x, np.y)), old(np.data))]
    {
      ghost var call := Updated(p, np, Coord(np.x, np.y), np.data);
      var i := 0;
      while i < |points| && points[i] != p
        invariant 0 <= i <= |points|
        invariant forall j | 0 <= j < i :: points[j] != p
      {
        i := i + 1;
      }
      ok := i < |points|;
      assert !ok ==> p !in points;
      if ok {
        points := points[i := np];
      }
      log := log + [call];
    }

    /** At most `k` stored points whose payload passes `filter`. The window
        and the order by distance from its centre are the library's and are
        not modelled. */
    method KNearest(window: Aabb, k: nat, filter: Payload -> bool) returns (found: seq<Point>)
      ensures |found| <= k
      ensures forall i | 0 <= i < |found| :: found[i] in points && filter(found[i].data)
    {
      found := [];
      var i := 0;
      while i < |points| && |found| < k
        invariant 0 <= i <= |points|
        invariant |found| <= k
        invariant forall j | 0 <= j < |found| :: found[j] in points && filter(found[j].data)
      {
        if filter(points[i].data) {
          found := found + [points[i]];
        }
        i := i + 1;
      }
    }
  }
}
