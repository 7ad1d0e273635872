/**
 Rectangle geometry of a dungeon room (procgen.py, class RectangularRoom).

 A room is given by its two closed corners (x1, y1) and (x2, y2). The
 corner cells and the border between them are wall; the carved floor is the
 open interior. Grid cells are (x, y) pairs of unbounded integers.
 */
module Rooms {

  /** A grid cell, as (x, y). */
  type Pos = (int, int)

  datatype Room = Room(x1: int, y1: int, x2: int, y2: int)

  /** RectangularRoom(x, y, width, height): the far corner is the origin plus the size. */
  function MakeRoom(x: int, y: int, width: int, height: int): (r: Room)
    ensures r.x2 - r.x1 == width && r.y2 - r.y1 == height
    ensures r.x1 == x && r.y1 == y
  {
    Room(x, y, x + width, y + height)
  }

  /**
   Python's int(s / 2): the float quotient truncated toward zero. The
   ensures characterise truncation: the result is the half of s rounded
   toward zero, so it is s / 2 for non-negative s.
   */
  function HalfTowardZero(s: int): (h: int)
    ensures 0 <= s ==> 0 <= s - 2 * h <= 1
    ensures s < 0 ==> 0 <= 2 * h - s <= 1
    ensures 0 <= s ==> h == s / 2
  {
    if 0 <= s then s / 2 else -((-s) / 2)
  }

  /** The room's center, as the `center` property computes it. */
  function Center(r: Room): (c: Pos)
    ensures r.x1 <= r.x2 ==> r.x1 <= c.0 <= r.x2
    ensures r.y1 <= r.y2 ==> r.y1 <= c.1 <= r.y2
    ensures r.x1 + 2 <= r.x2 ==> r.x1 < c.0 < r.x2
    ensures r.y1 + 2 <= r.y2 ==> r.y1 < c.1 < r.y2
  {
    (HalfTowardZero(r.x1 + r.x2), HalfTowardZero(r.y1 + r.y2))
  }

  /** True of the cells in the `inner` slices: x in [x1+1, x2), y in [y1+1, y2). */
  predicate InInner(r: Room, p: Pos)
  {
    r.x1 + 1 <= p.0 < r.x2 && r.y1 + 1 <= p.1 < r.y2
  }

  /**
   The cells `inner` selects, which generation carves to floor. The ensures
   only unfolds membership for the prover; the property is
   InnerIsRoomWithoutWalls.
   */
  function Inner(r: Room): (cells: set<Pos>)
    ensures forall p :: p in cells <==> InInner(r, p)
  {
    set x: int, y: int | r.x1 + 1 <= x < r.x2 && r.y1 + 1 <= y < r.y2 :: (x, y)
  }

  /** True of the cells of the room's closed rectangle, walls included. */
  predicate InClosed(r: Room, p: Pos)
  {
    r.x1 <= p.0 <= r.x2 && r.y1 <= p.1 <= r.y2
  }

  /** The carved cells are the room's closed rectangle without its one-cell wall ring. */
  lemma InnerIsRoomWithoutWalls(r: Room, p: Pos)
    ensures p in Inner(r) <==>
              InClosed(r, p) && p.0 != r.x1 && p.0 != r.x2 && p.1 != r.y1 && p.1 != r.y2
  {
  }

  /** The overlap test of `intersects`, on closed intervals on both axes. */
  predicate Intersects(a: Room, b: Room)
  {
    a.x1 <= b.x2 && a.x2 >= b.x1 && a.y1 <= b.y2 && a.y2 >= b.y1
  }

  /** The overlap test does not depend on which room asks. */
  lemma IntersectsSymmetric(a: Room, b: Room)
    ensures Intersects(a, b) <==> Intersects(b, a)
  {
  }

  /**
   Rooms whose walls meet count as overlapping: the right wall of one lying
   on the left wall of the other, or the bottom wall of one on the top wall
   of the other, a shared corner included. Generation rejects such a room
   although the two interiors it would carve share no cell.
   */
  lemma TouchingRoomsIntersect(a: Room, b: Room)
    requires a.x1 <= a.x2 && a.y1 <= a.y2 && b.x1 <= b.x2 && b.y1 <= b.y2
    requires || (a.x2 == b.x1 && a.y1 <= b.y2 && b.y1 <= a.y2)
             || (a.y2 == b.y1 && a.x1 <= b.x2 && b.x1 <= a.x2)
    ensures Intersects(a, b)
    ensures forall p :: !(p in Inner(a) && p in Inner(b))
  {
  }

  /**
   For well-formed rooms the test is exactly "the closed rectangles share a
   cell": the witness is the larger of the two low corners.
   */
  lemma IntersectsIffSharedCell(a: Room, b: Room)
    requires a.x1 <= a.x2 && a.y1 <= a.y2 && b.x1 <= b.x2 && b.y1 <= b.y2
    ensures Intersects(a, b) <==> exists p: Pos :: InClosed(a, p) && InClosed(b, p)
  {
    if Intersects(a, b) {
      var p: Pos := (if a.x1 < b.x1 then b.x1 else a.x1, if a.y1 < b.y1 then b.y1 else a.y1);
      assert InClosed(a, p) && InClosed(b, p);
    }
  }

  /** Rooms that pass the test have disjoint closed rectangles, so their carved interiors never meet. */
  lemma NonIntersectingRoomsDisjoint(a: Room, b: Room, p: Pos)
    requires !Intersects(a, b)
    ensures !(InClosed(a, p) && InClosed(b, p))
    ensures p !in Inner(a) * Inner(b)
  {
  }
}
