/**
 The L-shaped tunnel between two points (procgen.py, tunnel_between).

 procgen.py rasterises each leg with Bresenham's line algorithm. Both legs
 are axis-aligned (the corner shares one coordinate with each end), and on
 an axis-aligned pair Bresenham enumerates every cell of the straight run,
 both ends included, in order from the first point. That enumeration is
 what Line computes.
 */
module Tunnels {
  import opened Rooms

  function Abs(n: int): nat
  {
    if n < 0 then -n else n
  }

  /** Number of unit steps between two points on a common row or column. */
  function Distance(a: Pos, b: Pos): nat
  {
    Abs(a.0 - b.0) + Abs(a.1 - b.1)
  }

  predicate AxisAligned(a: Pos, b: Pos)
  {
    a.0 == b.0 || a.1 == b.1
  }

  /** p lies in the closed bounding box of a and b. */
  predicate Between(a: Pos, b: Pos, p: Pos)
  {
    && (a.0 <= p.0 <= b.0 || b.0 <= p.0 <= a.0)
    && (a.1 <= p.1 <= b.1 || b.1 <= p.1 <= a.1)
  }

  /** Four-neighbours: cells one orthogonal step apart. */
  predicate Adjacent(p: Pos, q: Pos)
  {
    Distance(p, q) == 1
  }

  /** A walk through cells where each move is one orthogonal step or a repeat of the same cell. */
  predicate Connected(cells: seq<Pos>)
  {
    forall i :: 0 <= i < |cells| - 1 ==> Distance(cells[i], cells[i + 1]) <= 1
  }

  function Sign(n: int): int
  {
    if n < 0 then -1 else if n == 0 then 0 else 1
  }

  /** The cell one step from a toward b. */
  function StepToward(a: Pos, b: Pos): Pos
  {
    (a.0 + Sign(b.0 - a.0), a.1 + Sign(b.1 - a.1))
  }

  /**
   The straight run from a to b, both included, in order from a. Its cells
   are exactly the cells between the two points.
   */
  function Line(a: Pos, b: Pos): (cells: seq<Pos>)
    requires AxisAligned(a, b)
    ensures |cells| == Distance(a, b) + 1
    ensures cells[0] == a && cells[|cells| - 1] == b
    ensures forall i :: 0 <= i < |cells| - 1 ==> Adjacent(cells[i], cells[i + 1])
    ensures forall i :: 0 <= i < |cells| ==> Between(a, b, cells[i])
    ensures forall p :: Between(a, b, p) ==> p in cells
    decreases Distance(a, b)
  {
    if a == b then [a]
    else
      var rest := Line(StepToward(a, b), b);
      assert forall p :: Between(a, b, p) && p != a ==> Between(StepToward(a, b), b, p);
      [a] + rest
  }

  /** The corner of the L: (x2, y1) when going horizontally first, else (x1, y2). */
  function Corner(start: Pos, end: Pos, horizontalFirst: bool): (c: Pos)
    ensures AxisAligned(start, c) && AxisAligned(c, end)
    ensures horizontalFirst ==> c.1 == start.1 && c.0 == end.0
    ensures !horizontalFirst ==> c.0 == start.0 && c.1 == end.1
  {
    if horizontalFirst then (end.0, start.1) else (start.0, end.1)
  }

  /**
   The cells tunnel_between yields: the run from start to the corner, then
   the run from the corner to end (the corner appears twice).
   */
  function Tunnel(start: Pos, end: Pos, horizontalFirst: bool): (cells: seq<Pos>)
    ensures |cells| == Distance(start, end) + 2
    ensures cells[0] == start && cells[|cells| - 1] == end
    ensures Corner(start, end, horizontalFirst) in cells
    ensures Connected(cells)
  {
    var corner := Corner(start, end, horizontalFirst);
    var first := Line(start, corner);
    var second := Line(corner, end);
    ConcatConnected(first, second);
    assert (first + second)[|first|] == corner;
    first + second
  }

  /**
   The corner is yielded twice in a row: once as the last cell of the first
   leg, at the corner's distance from start, and once as the first cell of
   the second leg.
   */
  lemma TunnelListsCornerTwice(start: Pos, end: Pos, horizontalFirst: bool)
    ensures var cells, c := Tunnel(start, end, horizontalFirst), Corner(start, end, horizontalFirst);
            var k := Distance(start, c);
            k + 1 < |cells| && cells[k] == c && cells[k + 1] == c
  {
    var c := Corner(start, end, horizontalFirst);
    var first, second := Line(start, c), Line(c, end);
    assert Tunnel(start, end, horizontalFirst) == first + second;
    assert (first + second)[|first| - 1] == first[|first| - 1];
    assert (first + second)[|first|] == second[0];
  }

  /** Two walks where the second starts on the last cell of the first join into one walk. */
  lemma ConcatConnected(first: seq<Pos>, second: seq<Pos>)
    requires |first| > 0 && |second| > 0 && first[|first| - 1] == second[0]
    requires Connected(first) && Connected(second)
    ensures Connected(first + second)
  {
    var w := first + second;
    forall i | 0 <= i < |w| - 1
      ensures Distance(w[i], w[i + 1]) <= 1
    {
      if i < |first| - 1 {
        assert w[i] == first[i] && w[i + 1] == first[i + 1];
      } else if i == |first| - 1 {
        assert w[i] == first[i] && w[i + 1] == second[0];
      } else {
        assert w[i] == second[i - |first|] && w[i + 1] == second[i - |first| + 1];
      }
    }
  }

  /**
   Each tunnel cell lies on one of the two legs of the L, and so inside the
   bounding box of its two ends.
   */
  lemma TunnelOnLegs(start: Pos, end: Pos, horizontalFirst: bool, i: int)
    requires 0 <= i < |Tunnel(start, end, horizontalFirst)|
    ensures var p := Tunnel(start, end, horizontalFirst)[i];
            && (Between(start, Corner(start, end, horizontalFirst), p)
                || Between(Corner(start, end, horizontalFirst), end, p))
            && Between(start, end, p)
  {
    var corner := Corner(start, end, horizontalFirst);
    var first := Line(start, corner);
    var second := Line(corner, end);
    assert Tunnel(start, end, horizontalFirst) == first + second;
    if i < |first| {
      assert Between(start, corner, first[i]);
    } else {
      assert Between(corner, end, second[i - |first|]);
    }
  }

  /** Every cell of either leg of the L is carved: the tunnel leaves no gap. */
  lemma TunnelCoversBothLegs(start: Pos, end: Pos, horizontalFirst: bool, p: Pos)
    requires Between(start, Corner(start, end, horizontalFirst), p)
             || Between(Corner(start, end, horizontalFirst), end, p)
    ensures p in Tunnel(start, end, horizontalFirst)
  {
    var corner := Corner(start, end, horizontalFirst);
    assert Tunnel(start, end, horizontalFirst) == Line(start, corner) + Line(corner, end);
  }

  /** A tunnel between two points on one row or column is the straight run, whichever way the coin falls. */
  lemma StraightTunnel(start: Pos, end: Pos, horizontalFirst: bool, p: Pos)
    requires AxisAligned(start, end)
    ensures p in Tunnel(start, end, horizontalFirst) <==> Between(start, end, p)
  {
    if Between(start, end, p) {
      var corner := Corner(start, end, horizontalFirst);
      assert Between(start, corner, p) || Between(corner, end, p);
      TunnelCoversBothLegs(start, end, horizontalFirst, p);
    }
  }
}
