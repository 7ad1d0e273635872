/**
 The dungeon generator (procgen.py, generate_dungeon).

 Generation is a fold over max_rooms attempts. Each attempt consumes one
 Draw: the room width and height, the origin, and the coin that picks the
 corner of the tunnel to the previous room. The grid is the set of carved
 floor cells; every other cell of the width x height map stays wall.
 */
module Procgen {
  import opened Rooms
  import opened Tunnels

  datatype Params = Params(
    maxRooms: nat,
    roomMinSize: int,
    roomMaxSize: int,
    mapWidth: int,
    mapHeight: int)

  /** The random values one attempt draws. */
  datatype Draw = Draw(width: int, height: int, x: int, y: int, horizontalFirst: bool)

  /** What the randint calls of one attempt can return (both bounds inclusive). */
  predicate ValidDraw(p: Params, d: Draw)
  {
    && p.roomMinSize <= d.width <= p.roomMaxSize
    && p.roomMinSize <= d.height <= p.roomMaxSize
    && 0 <= d.x <= p.mapWidth - d.width - 1
    && 0 <= d.y <= p.mapHeight - d.height - 1
  }

  predicate ValidDraws(p: Params, draws: seq<Draw>)
  {
    forall i :: 0 <= i < |draws| ==> ValidDraw(p, draws[i])
  }

  /**
   The generated level: the map size, the carved floor, the accepted rooms in
   placement order, the tunnel carved for each room after the first
   (tunnels[k] joins rooms[k] to rooms[k + 1]), and the player's position.
   */
  datatype Dungeon = Dungeon(
    width: int,
    height: int,
    floor: set<Pos>,
    rooms: seq<Room>,
    tunnels: seq<seq<Pos>>,
    player: Pos)

  function Last<T>(s: seq<T>): T
    requires |s| > 0
  {
    s[|s| - 1]
  }

  function Cells(t: seq<Pos>): set<Pos>
  {
    set p | p in t
  }

  function RoomOf(d: Draw): Room
  {
    MakeRoom(d.x, d.y, d.width, d.height)
  }

  /** The `any(new_room.intersects(other) ...)` rejection test. */
  predicate OverlapsAny(room: Room, rooms: seq<Room>)
  {
    exists k :: 0 <= k < |rooms| && Intersects(room, rooms[k])
  }

  /**
   One iteration of the generation loop. A rejected attempt changes nothing;
   an accepted one appends its room, only ever adds floor, and places the
   player when it is the first room.
   */
  function Attempt(g: Dungeon, d: Draw): (g': Dungeon)
    ensures OverlapsAny(RoomOf(d), g.rooms) ==> g' == g
    ensures !OverlapsAny(RoomOf(d), g.rooms) ==> g'.rooms == g.rooms + [RoomOf(d)]
    ensures g.floor <= g'.floor
    ensures g'.player == (if !OverlapsAny(RoomOf(d), g.rooms) && |g.rooms| == 0 then Center(RoomOf(d)) else g.player)
    ensures g'.width == g.width && g'.height == g.height
  {
    var room := RoomOf(d);
    if OverlapsAny(room, g.rooms) then g
    else if |g.rooms| == 0 then
      g.(floor := g.floor + Inner(room), rooms := g.rooms + [room], player := Center(room))
    else
      var t := Tunnel(Center(Last(g.rooms)), Center(room), d.horizontalFirst);
      g.(floor := g.floor + Inner(room) + Cells(t),
         rooms := g.rooms + [room],
         tunnels := g.tunnels + [t])
  }

  /** The state after the given attempts, starting from an all-wall map. */
  function Generate(p: Params, player0: Pos, draws: seq<Draw>): (g: Dungeon)
    ensures |g.rooms| <= |draws|
    ensures g.width == p.mapWidth && g.height == p.mapHeight
    decreases |draws|
  {
    if |draws| == 0 then Dungeon(p.mapWidth, p.mapHeight, {}, [], [], player0)
    else Attempt(Generate(p, player0, draws[..|draws| - 1]), Last(draws))
  }

  // ---------------------------------------------------------------------
  // The generation invariant
  // ---------------------------------------------------------------------

  /** The room lies on the map with its walls inside [0, width-1] x [0, height-1], sized as drawn. */
  predicate RoomFits(p: Params, r: Room)
  {
    && 0 <= r.x1 && r.x2 <= p.mapWidth - 1
    && 0 <= r.y1 && r.y2 <= p.mapHeight - 1
    && p.roomMinSize <= r.x2 - r.x1 <= p.roomMaxSize
    && p.roomMinSize <= r.y2 - r.y1 <= p.roomMaxSize
  }

  predicate PairwiseDisjoint(rooms: seq<Room>)
  {
    forall i, j :: 0 <= i < j < |rooms| ==> !Intersects(rooms[i], rooms[j])
  }

  /** t is one of the two L-shaped tunnels from a to b. */
  predicate Links(t: seq<Pos>, a: Pos, b: Pos)
  {
    t == Tunnel(a, b, true) || t == Tunnel(a, b, false)
  }

  function RoomCells(rooms: seq<Room>): set<Pos>
    decreases |rooms|
  {
    if |rooms| == 0 then {} else RoomCells(rooms[..|rooms| - 1]) + Inner(Last(rooms))
  }

  function TunnelCells(tunnels: seq<seq<Pos>>): set<Pos>
    decreases |tunnels|
  {
    if |tunnels| == 0 then {} else TunnelCells(tunnels[..|tunnels| - 1]) + Cells(Last(tunnels))
  }

  predicate AllFit(p: Params, rooms: seq<Room>)
  {
    forall k :: 0 <= k < |rooms| ==> RoomFits(p, rooms[k])
  }

  /** One tunnel per room after the first, joining it to the room before. */
  predicate TunnelsLink(rooms: seq<Room>, tunnels: seq<seq<Pos>>)
  {
    && (if |rooms| == 0 then |tunnels| == 0 else |tunnels| == |rooms| - 1)
    && (forall k :: 0 <= k < |tunnels| ==> Links(tunnels[k], Center(rooms[k]), Center(rooms[k + 1])))
  }

  /** Exactly the room interiors and the tunnel cells are floor. */
  predicate Carved(g: Dungeon)
  {
    g.floor == RoomCells(g.rooms) + TunnelCells(g.tunnels)
  }

  predicate Valid(p: Params, player0: Pos, g: Dungeon)
  {
    && g.width == p.mapWidth && g.height == p.mapHeight
    && AllFit(p, g.rooms)
    && PairwiseDisjoint(g.rooms)
    && TunnelsLink(g.rooms, g.tunnels)
    && Carved(g)
    && g.player == (if |g.rooms| == 0 then player0 else Center(g.rooms[0]))
  }

  lemma RoomCellsAppend(rooms: seq<Room>, r: Room)
    ensures RoomCells(rooms + [r]) == RoomCells(rooms) + Inner(r)
  {
    assert (rooms + [r])[..|rooms|] == rooms;
  }

  lemma TunnelCellsAppend(tunnels: seq<seq<Pos>>, t: seq<Pos>)
    ensures TunnelCells(tunnels + [t]) == TunnelCells(tunnels) + Cells(t)
  {
    assert (tunnels + [t])[..|tunnels|] == tunnels;
  }

  lemma DisjointAppend(rooms: seq<Room>, room: Room)
    requires PairwiseDisjoint(rooms)
    requires !OverlapsAny(room, rooms)
    ensures PairwiseDisjoint(rooms + [room])
  {
    var rs := rooms + [room];
    forall i, j | 0 <= i < j < |rs|
      ensures !Intersects(rs[i], rs[j])
    {
      if j == |rooms| {
        assert !Intersects(room, rooms[i]);
      } else {
        assert rs[i] == rooms[i] && rs[j] == rooms[j];
      }
    }
  }

  lemma TunnelsLinkAppend(rooms: seq<Room>, tunnels: seq<seq<Pos>>, room: Room, t: seq<Pos>)
    requires TunnelsLink(rooms, tunnels)
    requires |rooms| > 0
    requires Links(t, Center(Last(rooms)), Center(room))
    ensures TunnelsLink(rooms + [room], tunnels + [t])
  {
    var rs, ts := rooms + [room], tunnels + [t];
    forall k | 0 <= k < |ts|
      ensures Links(ts[k], Center(rs[k]), Center(rs[k + 1]))
    {
      if k < |tunnels| {
        assert ts[k] == tunnels[k] && rs[k] == rooms[k] && rs[k + 1] == rooms[k + 1];
        assert Links(tunnels[k], Center(rooms[k]), Center(rooms[k + 1]));
      } else {
        assert ts[k] == t && rs[k] == Last(rooms) && rs[k + 1] == room;
      }
    }
  }

  lemma FirstRoomValid(p: Params, player0: Pos, g: Dungeon, d: Draw)
    requires Valid(p, player0, g)
    requires ValidDraw(p, d)
    requires |g.rooms| == 0
    ensures Valid(p, player0, Attempt(g, d))
  {
    var room := RoomOf(d);
    assert !OverlapsAny(room, g.rooms);
    var g' := Attempt(g, d);
    assert g'.rooms == [room] && g'.tunnels == g.tunnels == [];
    assert g'.floor == g.floor + Inner(room);
    assert RoomFits(p, room);
    RoomCellsAppend(g.rooms, room);
    assert [room] == g.rooms + [room];
  }

  lemma LaterRoomValid(p: Params, player0: Pos, g: Dungeon, d: Draw)
    requires Valid(p, player0, g)
    requires ValidDraw(p, d)
    requires |g.rooms| > 0 && !OverlapsAny(RoomOf(d), g.rooms)
    ensures Valid(p, player0, Attempt(g, d))
  {
    var room := RoomOf(d);
    var t := Tunnel(Center(Last(g.rooms)), Center(room), d.horizontalFirst);
    var g' := g.(floor := g.floor + Inner(room) + Cells(t),
                 rooms := g.rooms + [room],
                 tunnels := g.tunnels + [t]);
    assert Attempt(g, d) == g';
    assert RoomFits(p, room);
    assert AllFit(p, g'.rooms);
    DisjointAppend(g.rooms, room);
    assert Links(t, Center(Last(g.rooms)), Center(room));
    TunnelsLinkAppend(g.rooms, g.tunnels, room, t);
    RoomCellsAppend(g.rooms, room);
    TunnelCellsAppend(g.tunnels, t);
    assert g'.rooms[0] == g.rooms[0];
  }

  /** One accepted or rejected attempt keeps the invariant. */
  lemma AttemptPreservesValid(p: Params, player0: Pos, g: Dungeon, d: Draw)
    requires Valid(p, player0, g)
    requires ValidDraw(p, d)
    ensures Valid(p, player0, Attempt(g, d))
  {
    if OverlapsAny(RoomOf(d), g.rooms) {
    } else if |g.rooms| == 0 {
      FirstRoomValid(p, player0, g, d);
    } else {
      LaterRoomValid(p, player0, g, d);
    }
  }

  /** Generation from well-formed draws satisfies the invariant after every attempt. */
  lemma {:induction false} GenerateValid(p: Params, player0: Pos, draws: seq<Draw>)
    requires ValidDraws(p, draws)
    ensures Valid(p, player0, Generate(p, player0, draws))
    decreases |draws|
  {
    if |draws| > 0 {
      var prefix := draws[..|draws| - 1];
      GenerateValid(p, player0, prefix);
      AttemptPreservesValid(p, player0, Generate(p, player0, prefix), Last(draws));
    }
  }

  // ---------------------------------------------------------------------
  // Consequences of the invariant
  // ---------------------------------------------------------------------

  lemma {:induction false} InRoomCells(rooms: seq<Room>, c: Pos)
    requires c in RoomCells(rooms)
    ensures exists k :: 0 <= k < |rooms| && InInner(rooms[k], c)
    decreases |rooms|
  {
    var prefix := rooms[..|rooms| - 1];
    if c !in Inner(Last(rooms)) {
      InRoomCells(prefix, c);
      var k :| 0 <= k < |prefix| && InInner(prefix[k], c);
      assert rooms[k] == prefix[k];
    }
  }

  lemma {:induction false} InTunnelCells(tunnels: seq<seq<Pos>>, c: Pos)
    requires c in TunnelCells(tunnels)
    ensures exists k, i :: 0 <= k < |tunnels| && 0 <= i < |tunnels[k]| && tunnels[k][i] == c
    decreases |tunnels|
  {
    var prefix := tunnels[..|tunnels| - 1];
    if c !in Cells(Last(tunnels)) {
      InTunnelCells(prefix, c);
      var k, i :| 0 <= k < |prefix| && 0 <= i < |prefix[k]| && prefix[k][i] == c;
      assert tunnels[k] == prefix[k];
    } else {
      var i :| 0 <= i < |Last(tunnels)| && Last(tunnels)[i] == c;
    }
  }

  lemma {:induction false} TunnelCellInCells(tunnels: seq<seq<Pos>>, k: int, i: int)
    requires 0 <= k < |tunnels| && 0 <= i < |tunnels[k]|
    ensures tunnels[k][i] in TunnelCells(tunnels)
    decreases |tunnels|
  {
    if k < |tunnels| - 1 {
      var prefix := tunnels[..|tunnels| - 1];
      assert prefix[k] == tunnels[k];
      TunnelCellInCells(prefix, k, i);
    }
  }

  /** An inclusive coordinate range used to state where floor can lie. */
  predicate InBox(c: Pos, lo: int, hiX: int, hiY: int)
  {
    lo <= c.0 <= hiX && lo <= c.1 <= hiY
  }

  /**
   Carving stays on the map, so no tile index is out of range; when rooms
   are at least 2 cells wide and tall, every floor cell is strictly inside
   the map's outer wall.
   */
  lemma FloorInsideMap(p: Params, player0: Pos, g: Dungeon, c: Pos)
    requires Valid(p, player0, g)
    requires 0 <= p.roomMinSize
    requires c in g.floor
    ensures InBox(c, 0, p.mapWidth - 1, p.mapHeight - 1)
    ensures 2 <= p.roomMinSize ==> InBox(c, 1, p.mapWidth - 2, p.mapHeight - 2)
  {
    assert Carved(g);
    if c in RoomCells(g.rooms) {
      RoomCellInside(p, g.rooms, c);
    } else {
      TunnelCellInside(p, g.rooms, g.tunnels, c);
    }
  }

  lemma RoomCellInside(p: Params, rooms: seq<Room>, c: Pos)
    requires AllFit(p, rooms)
    requires c in RoomCells(rooms)
    ensures InBox(c, 1, p.mapWidth - 2, p.mapHeight - 2)
  {
    InRoomCells(rooms, c);
  }

  /** A tunnel cell lies in the bounding box of the two centers it joins. */
  lemma TunnelCellInside(p: Params, rooms: seq<Room>, tunnels: seq<seq<Pos>>, c: Pos)
    requires 0 <= p.roomMinSize
    requires AllFit(p, rooms) && TunnelsLink(rooms, tunnels)
    requires c in TunnelCells(tunnels)
    ensures InBox(c, 0, p.mapWidth - 1, p.mapHeight - 1)
    ensures 2 <= p.roomMinSize ==> InBox(c, 1, p.mapWidth - 2, p.mapHeight - 2)
  {
    InTunnelCells(tunnels, c);
    var k, i :| 0 <= k < |tunnels| && 0 <= i < |tunnels[k]| && tunnels[k][i] == c;
    assert RoomFits(p, rooms[k]) && RoomFits(p, rooms[k + 1]);
    assert Links(tunnels[k], Center(rooms[k]), Center(rooms[k + 1]));
    LinkedCellInside(p, rooms[k], rooms[k + 1], tunnels[k], i);
  }

  lemma CenterInside(p: Params, r: Room)
    requires 0 <= p.roomMinSize && RoomFits(p, r)
    ensures InBox(Center(r), 0, p.mapWidth - 1, p.mapHeight - 1)
    ensures 2 <= p.roomMinSize ==> InBox(Center(r), 1, p.mapWidth - 2, p.mapHeight - 2)
  {
  }

  lemma LinkedCellInside(p: Params, ra: Room, rb: Room, t: seq<Pos>, i: int)
    requires 0 <= p.roomMinSize && RoomFits(p, ra) && RoomFits(p, rb)
    requires Links(t, Center(ra), Center(rb))
    requires 0 <= i < |t|
    ensures InBox(t[i], 0, p.mapWidth - 1, p.mapHeight - 1)
    ensures 2 <= p.roomMinSize ==> InBox(t[i], 1, p.mapWidth - 2, p.mapHeight - 2)
  {
    var a, b := Center(ra), Center(rb);
    CenterInside(p, ra);
    CenterInside(p, rb);
    if t == Tunnel(a, b, true) {
      TunnelOnLegs(a, b, true, i);
    } else {
      TunnelOnLegs(a, b, false, i);
    }
    assert Between(a, b, t[i]);
  }

  /** The carved walk from the first room's center: the tunnels[0..k) laid end to end. */
  function Chain(tunnels: seq<seq<Pos>>): seq<Pos>
    decreases |tunnels|
  {
    if |tunnels| == 0 then [] else Chain(tunnels[..|tunnels| - 1]) + Last(tunnels)
  }

  /** What a tunnel between two room centers provides to walks. */
  lemma LinksWalk(t: seq<Pos>, a: Pos, b: Pos)
    requires Links(t, a, b)
    ensures |t| > 0 && t[0] == a && t[|t| - 1] == b && Connected(t)
  {
  }

  /** Every cell of the walk is floor. */
  predicate OnFloor(w: seq<Pos>, floor: set<Pos>)
  {
    forall i :: 0 <= i < |w| ==> w[i] in floor
  }

  lemma ConcatOnFloor(a: seq<Pos>, b: seq<Pos>, floor: set<Pos>)
    requires OnFloor(a, floor) && OnFloor(b, floor)
    ensures OnFloor(a + b, floor)
  {
    forall i | 0 <= i < |a + b|
      ensures (a + b)[i] in floor
    {
      if i >= |a| {
        assert (a + b)[i] == b[i - |a|];
      }
    }
  }

  lemma TunnelOnFloor(tunnels: seq<seq<Pos>>, floor: set<Pos>, k: int)
    requires TunnelCells(tunnels) <= floor
    requires 0 <= k < |tunnels|
    ensures OnFloor(tunnels[k], floor)
  {
    forall i | 0 <= i < |tunnels[k]|
      ensures tunnels[k][i] in floor
    {
      TunnelCellInCells(tunnels, k, i);
    }
  }

  lemma ChainStep(tunnels: seq<seq<Pos>>, k: int)
    requires 1 <= k <= |tunnels|
    ensures Chain(tunnels[..k]) == Chain(tunnels[..k - 1]) + tunnels[k - 1]
  {
    assert tunnels[..k][..k - 1] == tunnels[..k - 1];
  }

  /** What the walk argument needs of each tunnel: a walk from one room's center to the next one's. */
  predicate WalkLink(t: seq<Pos>, a: Pos, b: Pos)
  {
    |t| > 0 && t[0] == a && t[|t| - 1] == b && Connected(t)
  }

  predicate WalksLink(rooms: seq<Room>, tunnels: seq<seq<Pos>>)
  {
    && |tunnels| < |rooms|
    && forall k :: 0 <= k < |tunnels| ==> WalkLink(tunnels[k], Center(rooms[k]), Center(rooms[k + 1]))
  }

  lemma TunnelsAreWalks(rooms: seq<Room>, tunnels: seq<seq<Pos>>)
    requires |rooms| > 0
    requires TunnelsLink(rooms, tunnels)
    ensures WalksLink(rooms, tunnels)
  {
    forall k | 0 <= k < |tunnels|
      ensures WalkLink(tunnels[k], Center(rooms[k]), Center(rooms[k + 1]))
    {
      LinksWalk(tunnels[k], Center(rooms[k]), Center(rooms[k + 1]));
    }
  }

  lemma {:induction false} ChainWalk(rooms: seq<Room>, tunnels: seq<seq<Pos>>, floor: set<Pos>, k: int)
    requires WalksLink(rooms, tunnels)
    requires TunnelCells(tunnels) <= floor
    requires 1 <= k <= |tunnels|
    ensures var w := Chain(tunnels[..k]);
            && |w| > 0 && Connected(w)
            && w[0] == Center(rooms[0]) && w[|w| - 1] == Center(rooms[k])
            && OnFloor(w, floor)
    decreases k
  {
    var t := tunnels[k - 1];
    ChainStep(tunnels, k);
    assert WalkLink(t, Center(rooms[k - 1]), Center(rooms[k]));
    TunnelOnFloor(tunnels, floor, k - 1);
    if k == 1 {
      assert Chain(tunnels[..0]) == [];
      assert Chain(tunnels[..k]) == t;
    } else {
      ChainWalk(rooms, tunnels, floor, k - 1);
      var w0 := Chain(tunnels[..k - 1]);
      ConcatConnected(w0, t);
      ConcatOnFloor(w0, t, floor);
    }
  }

  /**
   The rooms form a path graph: for each later room there is a walk of
   floor cells, in orthogonal steps, from the first room's center to its center.
   */
  lemma RoomsReachable(p: Params, player0: Pos, g: Dungeon, k: int)
    requires Valid(p, player0, g)
    requires 1 <= k < |g.rooms|
    ensures var w := Chain(g.tunnels[..k]);
            && |w| > 0 && Connected(w)
            && w[0] == Center(g.rooms[0]) && w[|w| - 1] == Center(g.rooms[k])
            && forall i :: 0 <= i < |w| ==> w[i] in g.floor
  {
    assert Carved(g);
    TunnelsAreWalks(g.rooms, g.tunnels);
    ChainWalk(g.rooms, g.tunnels, g.floor, k);
  }

  lemma TunnelCorner(t: seq<Pos>, a: Pos, b: Pos) returns (i: int)
    requires Links(t, a, b)
    ensures 0 <= i < |t|
    ensures t[i] == Corner(a, b, true) || t[i] == Corner(a, b, false)
  {
    var c := if t == Tunnel(a, b, true) then Corner(a, b, true) else Corner(a, b, false);
    i :| 0 <= i < |t| && t[i] == c;
  }

  /**
   For each room after the first, the tunnel from the previous room's center
   is carved: both centers and one of the two corners are floor.
   */
  lemma TunnelCarved(p: Params, player0: Pos, g: Dungeon, k: int)
    requires Valid(p, player0, g)
    requires 1 <= k < |g.rooms|
    ensures Center(g.rooms[k - 1]) in g.floor && Center(g.rooms[k]) in g.floor
    ensures var a, b := Center(g.rooms[k - 1]), Center(g.rooms[k]);
            Corner(a, b, true) in g.floor || Corner(a, b, false) in g.floor
  {
    assert Carved(g);
    TunnelEndsCarved(g.rooms, g.tunnels, g.floor, k);
  }

  lemma TunnelEndsCarved(rooms: seq<Room>, tunnels: seq<seq<Pos>>, floor: set<Pos>, k: int)
    requires TunnelsLink(rooms, tunnels)
    requires TunnelCells(tunnels) <= floor
    requires 1 <= k < |rooms|
    ensures Center(rooms[k - 1]) in floor && Center(rooms[k]) in floor
    ensures var a, b := Center(rooms[k - 1]), Center(rooms[k]);
            Corner(a, b, true) in floor || Corner(a, b, false) in floor
  {
    var t := tunnels[k - 1];
    var a, b := Center(rooms[k - 1]), Center(rooms[k]);
    assert Links(t, a, b);
    LinksWalk(t, a, b);
    TunnelCellInCells(tunnels, k - 1, 0);
    TunnelCellInCells(tunnels, k - 1, |t| - 1);
    var i := TunnelCorner(t, a, b);
    TunnelCellInCells(tunnels, k - 1, i);
  }

  // ---------------------------------------------------------------------
  // Placement order
  // ---------------------------------------------------------------------

  /** The indices of the attempts that were accepted, in order. */
  function Accepted(p: Params, player0: Pos, draws: seq<Draw>): seq<nat>
    decreases |draws|
  {
    if |draws| == 0 then []
    else
      var prefix := draws[..|draws| - 1];
      if OverlapsAny(RoomOf(Last(draws)), Generate(p, player0, prefix).rooms)
      then Accepted(p, player0, prefix)
      else Accepted(p, player0, prefix) + [|draws| - 1]
  }

  /**
   The k-th room comes from attempt idx[k], the indices increase, and every
   attempt not listed overlaps a room accepted before it.
   */
  predicate Provenance(idx: seq<nat>, rooms: seq<Room>, draws: seq<Draw>)
  {
    && |idx| == |rooms|
    && (forall k :: 0 <= k < |idx| ==> idx[k] < |draws| && rooms[k] == RoomOf(draws[idx[k]]))
    && (forall i, j :: 0 <= i < j < |idx| ==> idx[i] < idx[j])
    && (forall i :: 0 <= i < |draws| && i !in idx ==>
          exists k :: 0 <= k < |idx| && idx[k] < i && Intersects(RoomOf(draws[i]), rooms[k]))
  }

  lemma ProvenanceReject(idx: seq<nat>, rooms: seq<Room>, draws: seq<Draw>, d: Draw)
    requires Provenance(idx, rooms, draws)
    requires OverlapsAny(RoomOf(d), rooms)
    ensures Provenance(idx, rooms, draws + [d])
  {
    var ds := draws + [d];
    forall k | 0 <= k < |idx|
      ensures idx[k] < |ds| && rooms[k] == RoomOf(ds[idx[k]])
    {
      assert ds[idx[k]] == draws[idx[k]];
    }
    forall i | 0 <= i < |ds| && i !in idx
      ensures exists k :: 0 <= k < |idx| && idx[k] < i && Intersects(RoomOf(ds[i]), rooms[k])
    {
      if i == |draws| {
        var k :| 0 <= k < |rooms| && Intersects(RoomOf(d), rooms[k]);
        assert idx[k] < i;
      } else {
        assert ds[i] == draws[i];
      }
    }
  }

  lemma ProvenanceAccept(idx: seq<nat>, rooms: seq<Room>, draws: seq<Draw>, d: Draw)
    requires Provenance(idx, rooms, draws)
    ensures Provenance(idx + [|draws|], rooms + [RoomOf(d)], draws + [d])
  {
    var ix, rs, ds := idx + [|draws|], rooms + [RoomOf(d)], draws + [d];
    forall k | 0 <= k < |ix|
      ensures ix[k] < |ds| && rs[k] == RoomOf(ds[ix[k]])
    {
      if k < |idx| {
        assert ds[idx[k]] == draws[idx[k]];
      }
    }
    forall i | 0 <= i < |ds| && i !in ix
      ensures exists k :: 0 <= k < |ix| && ix[k] < i && Intersects(RoomOf(ds[i]), rs[k])
    {
      assert i < |draws| && i !in idx && ds[i] == draws[i];
      var k :| 0 <= k < |idx| && idx[k] < i && Intersects(RoomOf(draws[i]), rooms[k]);
      assert ix[k] == idx[k] && rs[k] == rooms[k];
    }
  }

  /**
   Rooms are kept in placement order: the k-th room comes from the k-th
   accepted attempt, accepted attempts are in increasing order, and every
   attempt that was not accepted overlaps a room accepted before it.
   */
  lemma {:induction false} PlacementOrder(p: Params, player0: Pos, draws: seq<Draw>)
    ensures Provenance(Accepted(p, player0, draws), Generate(p, player0, draws).rooms, draws)
    decreases |draws|
  {
    if |draws| > 0 {
      var prefix := draws[..|draws| - 1];
      var d := Last(draws);
      assert draws == prefix + [d];
      PlacementOrder(p, player0, prefix);
      var g0 := Generate(p, player0, prefix);
      if OverlapsAny(RoomOf(d), g0.rooms) {
        ProvenanceReject(Accepted(p, player0, prefix), g0.rooms, prefix, d);
      } else {
        ProvenanceAccept(Accepted(p, player0, prefix), g0.rooms, prefix, d);
      }
    }
  }

  // ---------------------------------------------------------------------
  // generate_dungeon
  // ---------------------------------------------------------------------

  /**
   generate_dungeon with its draws supplied: at most max_rooms rooms,
   pairwise non-overlapping, each on the map and sized as drawn, the player
   at the first room's center (or where it was, if no room fit), the floor
   exactly the room interiors and the tunnels, one tunnel joining each room
   to the one placed before it, and, for rooms of at least one cell, every
   floor cell on the map.
   */
  function GenerateDungeon(p: Params, player0: Pos, draws: seq<Draw>): (g: Dungeon)
    requires |draws| == p.maxRooms && ValidDraws(p, draws)
    ensures |g.rooms| <= p.maxRooms
    ensures PairwiseDisjoint(g.rooms)
    ensures forall k :: 0 <= k < |g.rooms| ==> RoomFits(p, g.rooms[k])
    ensures g.player == (if |g.rooms| == 0 then player0 else Center(g.rooms[0]))
    ensures g.floor == RoomCells(g.rooms) + TunnelCells(g.tunnels)
    ensures TunnelsLink(g.rooms, g.tunnels)
    ensures 0 <= p.roomMinSize ==> forall c :: c in g.floor ==> InBox(c, 0, p.mapWidth - 1, p.mapHeight - 1)
  {
    var g := Generate(p, player0, draws);
    GenerateValid(p, player0, draws);
    assert 0 <= p.roomMinSize ==> forall c :: c in g.floor ==> InBox(c, 0, p.mapWidth - 1, p.mapHeight - 1) by {
      if 0 <= p.roomMinSize {
        forall c | c in g.floor
          ensures InBox(c, 0, p.mapWidth - 1, p.mapHeight - 1)
        {
          FloorInsideMap(p, player0, g, c);
        }
      }
    }
    g
  }

  /**
   A single attempt with 4x4 rooms on a 20x20 map always places exactly one
   room, puts the player at its center, digs no tunnel, and carves exactly
   the room's 3x3 interior.
   */
  lemma SingleRoom(player0: Pos, d: Draw)
    requires ValidDraw(Params(1, 4, 4, 20, 20), d)
    ensures var g := GenerateDungeon(Params(1, 4, 4, 20, 20), player0, [d]);
            && g.rooms == [RoomOf(d)]
            && RoomOf(d).x2 - RoomOf(d).x1 == 4 && RoomOf(d).y2 - RoomOf(d).y1 == 4
            && g.player == Center(RoomOf(d))
            && g.tunnels == []
            && g.floor == Inner(RoomOf(d))
  {
    var p := Params(1, 4, 4, 20, 20);
    assert [d][..0] == [];
    var g0 := Generate(p, player0, []);
    assert g0 == Dungeon(20, 20, {}, [], [], player0);
    assert !OverlapsAny(RoomOf(d), g0.rooms);
    assert Generate(p, player0, [d]) == Attempt(g0, d);
    assert Attempt(g0, d) == g0.(floor := {} + Inner(RoomOf(d)), rooms := [RoomOf(d)], player := Center(RoomOf(d)));
  }
}
