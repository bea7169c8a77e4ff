// The loot path field: an early-stopping 8-neighbour fill of the terrain grid
// whose distance buffer and queue are reused from call to call.
module PathField {
  import opened Geometry
  import opened Waves

  /** Largest axis whose cells pack as `row << 16 | column`. */
  const MAX_AXIS: nat := 0x1_0000

  // ---------------------------------------------------------------- the grid as a graph

  /** Two different cells of the grid that touch along a side or at a corner. */
  predicate Adjacent(axis: nat, a: nat, b: nat) {
    && a < axis * axis && b < axis * axis && a != b
    && -1 <= a % axis - b % axis <= 1
    && -1 <= a / axis - b / axis <= 1
  }

  /** Steps onto a passable neighbour; the cell left may be impassable, so the origin is exempt. */
  ghost function GridEdges(axis: nat, impassable: seq<bool>): Edges {
    (a: nat, b: nat) => Adjacent(axis, a, b) && b < |impassable| && !impassable[b]
  }

  // ---------------------------------------------------------------- packed queue entries

  function Pack(x: nat, y: nat): nat { y * 0x1_0000 + x }

  predicate Packed(axis: nat, entry: nat) {
    entry % 0x1_0000 < axis && entry / 0x1_0000 < axis
  }

  function Unpack(axis: nat, entry: nat): (cell: nat)
    requires Packed(axis, entry)
    ensures cell < axis * axis
  {
    CellIndex(axis, entry % 0x1_0000, entry / 0x1_0000)
  }

  lemma PackRoundTrip(axis: nat, x: nat, y: nat)
    requires axis <= MAX_AXIS && x < axis && y < axis
    ensures Packed(axis, Pack(x, y)) && Unpack(axis, Pack(x, y)) == CellIndex(axis, x, y)
  {
  }

  ghost predicate AllPacked(axis: nat, queue: seq<nat>) {
    forall i :: 0 <= i < |queue| ==> Packed(axis, queue[i])
  }

  ghost function Cells(axis: nat, queue: seq<nat>): (cells: seq<nat>)
    requires AllPacked(axis, queue)
    ensures |cells| == |queue|
    ensures forall i :: 0 <= i < |queue| ==> cells[i] == Unpack(axis, queue[i])
  {
    seq(|queue|, i requires 0 <= i < |queue| => Unpack(axis, queue[i]))
  }

  lemma CellsGrow(axis: nat, queue: seq<nat>, x: nat, y: nat)
    requires axis <= MAX_AXIS && AllPacked(axis, queue) && x < axis && y < axis
    ensures AllPacked(axis, queue + [Pack(x, y)])
    ensures Cells(axis, queue + [Pack(x, y)]) == Cells(axis, queue) + [CellIndex(axis, x, y)]
  {
    PackRoundTrip(axis, x, y);
  }

  // ---------------------------------------------------------------- the eight directions

  const DIRECTIONS: seq<(int, int)> :=
    [(1, 0), (1, 1), (0, 1), (-1, 1), (-1, 0), (-1, -1), (0, -1), (1, -1)]

  /** Row strides of the directions. */
  function Deltas(axis: nat): (deltas: seq<int>)
    ensures |deltas| == 8
  {
    var row: int := axis;
    [1, row + 1, row, row - 1, -1, -row - 1, -row, -row + 1]
  }

  predicate StaysInMap(axis: nat, x: nat, y: nat, m: nat)
    requires m < 8
  {
    0 <= x + DIRECTIONS[m].0 < axis && 0 <= y + DIRECTIONS[m].1 < axis
  }

  /** The stride reaches the neighbour the direction names, and that is an adjacent cell. */
  lemma StrideIsNeighbour(axis: nat, x: nat, y: nat, m: nat)
    requires x < axis && y < axis && m < 8 && StaysInMap(axis, x, y, m)
    ensures CellIndex(axis, x, y) + Deltas(axis)[m]
         == CellIndex(axis, x + DIRECTIONS[m].0, y + DIRECTIONS[m].1)
    ensures Adjacent(axis, CellIndex(axis, x, y), CellIndex(axis, x + DIRECTIONS[m].0, y + DIRECTIONS[m].1))
  {
    var dx, dy := DIRECTIONS[m].0, DIRECTIONS[m].1;
    CellParts(axis, x, y);
    CellParts(axis, x + dx, y + dy);
    assert Deltas(axis)[m] == dy * axis + dx;
    assert (y + dy) * axis == y * axis + dy * axis;
  }

  /** Every adjacent cell is a stride away in some direction. */
  lemma NeighbourIsStride(axis: nat, x: nat, y: nat, v: nat) returns (m: nat)
    requires x < axis && y < axis && Adjacent(axis, CellIndex(axis, x, y), v)
    ensures m < 8 && StaysInMap(axis, x, y, m)
    ensures v == CellIndex(axis, x + DIRECTIONS[m].0, y + DIRECTIONS[m].1)
  {
    CellParts(axis, x, y);
    var vx, vy := v % axis, v / axis;
    assert v == vy * axis + vx;
    MulMonotone(axis, vy, axis);
    var dx, dy := vx - x, vy - y;
    m := if dy == 0 then (if dx == 1 then 0 else 4)
         else if dy == 1 then (if dx == 1 then 1 else if dx == 0 then 2 else 3)
         else if dx == -1 then 5 else if dx == 0 then 6 else 7;
    assert DIRECTIONS[m] == (dx, dy);
  }

  // ---------------------------------------------------------------- the sentinel is never computed

  /** Cells (0,0), (1,0) and (0,1) touch each other, so a shortest walk misses one of them. */
  lemma ShortestWalkMissesCorner(axis: nat, impassable: seq<bool>, origin: nat, node: nat, walk: seq<nat>)
    requires 2 <= axis && |impassable| == axis * axis && origin < axis * axis
    requires Connects(GridEdges(axis, impassable), origin, node, walk)
    requires NoShorter(GridEdges(axis, impassable), origin, node, |walk|)
    ensures |walk| < axis * axis
  {
    var edges := GridEdges(axis, impassable);
    forall i, j | 0 <= i < j < |walk|
      ensures walk[i] != walk[j]
      ensures i + 1 < j ==> !Adjacent(axis, walk[i], walk[j])
      ensures walk[j] < axis * axis
    {
      ShortestHasNoChord(edges, origin, node, walk, i, j);
      assert edges(walk[j - 1], walk[j - 1 + 1]);
    }
    CornerTouches(axis);
    forall a: nat, b: nat, c: nat | a < |walk| && b < |walk| && c < |walk|
      ensures !(walk[a] == 0 && walk[b] == 1 && walk[c] == axis)
    {
      NotWholeCorner(axis, walk, a, b, c);
    }
    var missing := if 0 !in walk then 0 else if 1 !in walk then 1 else axis;
    DistinctBound(walk + [missing], axis * axis);
  }

  /** Neighbouring cells of a chordless walk stand next to each other on it. */
  lemma NearbyPlaces(axis: nat, walk: seq<nat>, a: nat, b: nat)
    requires a < |walk| && b < |walk|
    requires forall i, j :: 0 <= i && i + 1 < j < |walk| ==> !Adjacent(axis, walk[i], walk[j])
    ensures Adjacent(axis, walk[a], walk[b]) && Adjacent(axis, walk[b], walk[a]) ==> a == b || a == b + 1 || b == a + 1
  {
    hide Adjacent;
  }

  /** Three mutual neighbours cannot all stand on a chordless walk. */
  lemma NotWholeCorner(axis: nat, walk: seq<nat>, a: nat, b: nat, c: nat)
    requires 2 <= axis && a < |walk| && b < |walk| && c < |walk|
    requires forall i, j :: 0 <= i && i + 1 < j < |walk| ==> !Adjacent(axis, walk[i], walk[j])
    ensures !(walk[a] == 0 && walk[b] == 1 && walk[c] == axis)
  {
    CornerTouches(axis);
    NearbyPlaces(axis, walk, a, b);
    NearbyPlaces(axis, walk, b, c);
    NearbyPlaces(axis, walk, a, c);
    hide Adjacent;
  }

  lemma CornerTouches(axis: nat)
    requires 2 <= axis
    ensures axis < axis * axis
    ensures Adjacent(axis, 0, 1) && Adjacent(axis, 1, 0)
    ensures Adjacent(axis, 0, axis) && Adjacent(axis, axis, 0)
    ensures Adjacent(axis, 1, axis) && Adjacent(axis, axis, 1)
  {
    MulMonotone(2, axis, axis);
    CellParts(axis, 0, 0);
    CellParts(axis, 1, 0);
    CellParts(axis, 0, 1);
  }

  /** Below the largest axis a new cell's distance stays under the sentinel. */
  lemma NextDistanceFits(axis: nat, impassable: seq<bool>, origin: nat,
                         dist: seq<nat>, cells: seq<nat>, done: nat, v: nat)
    requires axis <= MAX_AXIS && |impassable| == |dist| == axis * axis
    requires Wave(GridEdges(axis, impassable), origin, dist, cells, done) && done < |cells|
    requires GridEdges(axis, impassable)(cells[done], v) && dist[v] == U32_MAX
    ensures dist[cells[done]] + 1 < U32_MAX
  {
    var walk := NewNodeIsShortest(GridEdges(axis, impassable), origin, dist, cells, done, v);
    TouchingNeedsTwo(axis, cells[done], v);
    ShortestWalkMissesCorner(axis, impassable, origin, v, walk);
    MulMonotone(axis, MAX_AXIS, axis);
    MulMonotone(axis, MAX_AXIS, MAX_AXIS);
  }

  lemma TouchingNeedsTwo(axis: nat, a: nat, b: nat)
    requires Adjacent(axis, a, b)
    ensures 2 <= axis
  {
    if axis <= 1 {
      MulMonotone(axis, 1, axis);
    }
  }

  // ---------------------------------------------------------------- the fill

  function SaturatingSuccessor(d: nat): nat { if d >= U32_MAX then U32_MAX else d + 1 }

  /** The neighbour in direction `m`, where it is in the map and passable, has been reached. */
  ghost predicate DirectionRelaxed(axis: nat, impassable: seq<bool>, dist: seq<nat>, x: nat, y: nat, m: nat)
    requires x < axis && y < axis && m < 8 && |impassable| == |dist| == axis * axis
  {
    StaysInMap(axis, x, y, m) ==>
      var v := CellIndex(axis, x + DIRECTIONS[m].0, y + DIRECTIONS[m].1);
      !impassable[v] ==> dist[v] != U32_MAX && dist[v] <= dist[CellIndex(axis, x, y)] + 1
  }

  lemma DirectionsCoverNeighbours(axis: nat, impassable: seq<bool>, dist: seq<nat>, x: nat, y: nat)
    requires x < axis && y < axis && |impassable| == |dist| == axis * axis
    requires DirectionsRelaxed(axis, impassable, dist, x, y, 8)
    ensures Relaxed(GridEdges(axis, impassable), dist, CellIndex(axis, x, y))
  {
    forall v: nat | GridEdges(axis, impassable)(CellIndex(axis, x, y), v)
      ensures v < |dist| && dist[v] != U32_MAX && dist[v] <= dist[CellIndex(axis, x, y)] + 1
    {
      var m := NeighbourIsStride(axis, x, y, v);
      assert DirectionRelaxed(axis, impassable, dist, x, y, m);
    }
  }

  ghost predicate DirectionsRelaxed(axis: nat, impassable: seq<bool>, dist: seq<nat>, x: nat, y: nat, upto: nat)
    requires x < axis && y < axis && upto <= 8 && |impassable| == |dist| == axis * axis
  {
    forall m :: 0 <= m < upto ==> DirectionRelaxed(axis, impassable, dist, x, y, m)
  }

  lemma DirectionsStayRelaxed(axis: nat, impassable: seq<bool>, dist: seq<nat>, x: nat, y: nat, upto: nat, v: nat, d: nat)
    requires x < axis && y < axis && upto <= 8 && |impassable| == |dist| == axis * axis
    requires DirectionsRelaxed(axis, impassable, dist, x, y, upto)
    requires v < |dist| && dist[v] == U32_MAX && v != CellIndex(axis, x, y) && d != U32_MAX
    ensures DirectionsRelaxed(axis, impassable, dist[v := d], x, y, upto)
  {
    var dist' := dist[v := d];
    forall m | 0 <= m < upto ensures DirectionRelaxed(axis, impassable, dist', x, y, m) {
      assert DirectionRelaxed(axis, impassable, dist, x, y, m);
    }
  }

  lemma NoDirectionYet(axis: nat, impassable: seq<bool>, dist: seq<nat>, x: nat, y: nat)
    requires x < axis && y < axis && |impassable| == |dist| == axis * axis
    ensures DirectionsRelaxed(axis, impassable, dist, x, y, 0)
  {
  }

  lemma NextDirectionRelaxed(axis: nat, impassable: seq<bool>, dist: seq<nat>, x: nat, y: nat, m: nat)
    requires x < axis && y < axis && m < 8 && |impassable| == |dist| == axis * axis
    requires DirectionsRelaxed(axis, impassable, dist, x, y, m)
    requires DirectionRelaxed(axis, impassable, dist, x, y, m)
    ensures DirectionsRelaxed(axis, impassable, dist, x, y, m + 1)
  {
  }

  /** Inner loop of the fill: reaches every passable neighbour of the queue cell at `cursor`. */
  method ExpandCell(axis: nat, impassable: seq<bool>, distances: array<nat>, before: seq<nat>, cursor: nat,
                    ghost origin: nat)
    returns (queue: seq<nat>)
    requires axis <= MAX_AXIS && |impassable| == distances.Length == axis * axis
    requires AllPacked(axis, before) && cursor < |before|
    requires Wave(GridEdges(axis, impassable), origin, distances[..], Cells(axis, before), cursor)
    modifies distances
    ensures before <= queue && AllPacked(axis, queue)
    ensures Wave(GridEdges(axis, impassable), origin, distances[..], Cells(axis, queue), cursor + 1)
  {
    hide Wave, DirectionsRelaxed;
    queue := before;
    ghost var edges := GridEdges(axis, impassable);
    var packed := before[cursor];
    var x, y := packed % 0x1_0000, packed / 0x1_0000;
    var cell := CellIndex(axis, x, y);
    var nextDistance := SaturatingSuccessor(distances[cell]);
    NoDirectionYet(axis, impassable, distances[..], x, y);
    for m := 0 to 8
      invariant before <= queue && AllPacked(axis, queue)
      invariant Wave(edges, origin, distances[..], Cells(axis, queue), cursor)
      invariant nextDistance == SaturatingSuccessor(distances[cell])
      invariant DirectionsRelaxed(axis, impassable, distances[..], x, y, m)
    {
      var nextX, nextY := x + DIRECTIONS[m].0, y + DIRECTIONS[m].1;
      if nextX < 0 || nextY < 0 || nextX >= axis || nextY >= axis {
        NextDirectionRelaxed(axis, impassable, distances[..], x, y, m);
        continue;
      }
      StrideIsNeighbour(axis, x, y, m);
      var next := cell + Deltas(axis)[m];
      if impassable[next] || distances[next] != U32_MAX {
        if !impassable[next] {
          SetNeighbourIsNear(edges, origin, distances[..], Cells(axis, queue), cursor, next);
        }
        NextDirectionRelaxed(axis, impassable, distances[..], x, y, m);
        continue;
      }
      ghost var dist, cells := distances[..], Cells(axis, queue);
      NextDistanceFits(axis, impassable, origin, dist, cells, cursor, next);
      WaveGrows(edges, origin, dist, cells, cursor, next);
      DirectionsStayRelaxed(axis, impassable, dist, x, y, m, next, nextDistance);
      CellsGrow(axis, queue, nextX, nextY);
      distances[next] := nextDistance;
      queue := queue + [Pack(nextX, nextY)];
      assert distances[..] == dist[next := nextDistance];
      NextDirectionRelaxed(axis, impassable, distances[..], x, y, m);
    }
    DirectionsCoverNeighbours(axis, impassable, distances[..], x, y);
    WaveAdvances(edges, origin, distances[..], Cells(axis, queue), cursor);
  }

  lemma SetNeighbourIsNear(edges: Edges, origin: nat, dist: seq<nat>, cells: seq<nat>, done: nat, v: nat)
    requires Wave(edges, origin, dist, cells, done) && done < |cells|
    requires v < |dist| && dist[v] != U32_MAX
    ensures dist[v] <= dist[cells[done]] + 1
  {
    WaveBound(edges, origin, dist, cells, done, done, v);
  }

  /** Targets the first `done` queue cells have not settled. */
  ghost function Unsettled(targets: seq<nat>, cells: seq<nat>, done: nat): set<nat>
    requires done <= |cells|
  {
    set t | t in targets && t !in cells[..done]
  }

  /** Fills from the queued origin until every target is settled or the component is exhausted. */
  method FloodFill(axis: nat, impassable: seq<bool>, targets: seq<nat>, distances: array<nat>, before: seq<nat>,
                   ghost origin: nat)
    returns (queue: seq<nat>, cursor: nat, pending: nat)
    requires axis <= MAX_AXIS && |impassable| == distances.Length == axis * axis
    requires AllPacked(axis, before)
    requires Wave(GridEdges(axis, impassable), origin, distances[..], Cells(axis, before), 0)
    requires Distinct(targets)
    modifies distances
    ensures AllPacked(axis, queue) && cursor <= |queue|
    ensures Wave(GridEdges(axis, impassable), origin, distances[..], Cells(axis, queue), cursor)
    ensures pending == |Unsettled(targets, Cells(axis, queue), cursor)|
    ensures cursor == |queue| || pending == 0
  {
    hide Wave, Unsettled;
    queue, cursor, pending := before, 0, |targets|;
    NothingSettled(targets, Cells(axis, queue));
    while cursor < |queue| && pending > 0
      invariant AllPacked(axis, queue) && cursor <= |queue|
      invariant Wave(GridEdges(axis, impassable), origin, distances[..], Cells(axis, queue), cursor)
      invariant pending == |Unsettled(targets, Cells(axis, queue), cursor)|
      decreases distances.Length - cursor
    {
      ghost var cells := Cells(axis, queue);
      QueueFits(GridEdges(axis, impassable), origin, distances[..], cells, cursor);
      var packed := queue[cursor];
      var cell := CellIndex(axis, packed % 0x1_0000, packed / 0x1_0000);
      SettleOne(targets, cells, cursor);
      if cell in targets {
        pending := pending - 1;
      }
      var grown := ExpandCell(axis, impassable, distances, queue, cursor, origin);
      SettledStay(axis, targets, queue, grown, cursor + 1);
      queue, cursor := grown, cursor + 1;
    }
  }

  lemma QueueFits(edges: Edges, origin: nat, dist: seq<nat>, cells: seq<nat>, done: nat)
    requires Wave(edges, origin, dist, cells, done)
    ensures |cells| <= |dist| && Distinct(cells)
  {
    DistinctBound(cells, |dist|);
  }

  lemma {:induction false} DistinctCount(s: seq<nat>)
    requires Distinct(s)
    ensures |set t: nat | t in s| == |s|
  {
    if s != [] {
      var rest := s[..|s| - 1];
      DistinctCount(rest);
      assert (set t: nat | t in s) == (set t: nat | t in rest) + {s[|s| - 1]};
    }
  }

  lemma SettledStay(axis: nat, targets: seq<nat>, queue: seq<nat>, grown: seq<nat>, done: nat)
    requires queue <= grown && AllPacked(axis, grown) && done <= |queue|
    ensures AllPacked(axis, queue)
    ensures Unsettled(targets, Cells(axis, grown), done) == Unsettled(targets, Cells(axis, queue), done)
  {
    assert forall i :: 0 <= i < |queue| ==> queue[i] == grown[i];
    assert Cells(axis, grown)[..done] == Cells(axis, queue)[..done];
  }

  lemma NothingSettled(targets: seq<nat>, cells: seq<nat>)
    requires Distinct(targets)
    ensures |Unsettled(targets, cells, 0)| == |targets|
  {
    DistinctCount(targets);
    assert Unsettled(targets, cells, 0) == set t: nat | t in targets;
  }

  lemma SettleOne(targets: seq<nat>, cells: seq<nat>, done: nat)
    requires Distinct(cells) && done < |cells|
    ensures |Unsettled(targets, cells, done + 1)|
         == |Unsettled(targets, cells, done)| - (if cells[done] in targets then 1 else 0)
  {
    assert cells[..done + 1] == cells[..done] + [cells[done]];
    assert Unsettled(targets, cells, done + 1) == Unsettled(targets, cells, done) - {cells[done]};
  }

  // ---------------------------------------------------------------- the reused field

  /** Strictly increasing, so binary search decides membership. */
  predicate Increasing(s: seq<nat>) {
    forall i, j :: 0 <= i < j < |s| ==> s[i] < s[j]
  }

  function Insert(s: seq<nat>, t: nat): (r: seq<nat>)
    requires Increasing(s)
    ensures Increasing(r)
    ensures forall v :: v in r <==> v == t || v in s
  {
    if s == [] || t < s[0] then [t] + s
    else if t == s[0] then s
    else
      var rest := Insert(s[1..], t);
      InsertedAfter(s, t, rest);
      [s[0]] + rest
  }

  lemma InsertedAfter(s: seq<nat>, t: nat, rest: seq<nat>)
    requires s != [] && Increasing(s) && s[0] < t && Increasing(rest)
    requires forall v :: v in rest <==> v == t || v in s[1..]
    ensures Increasing([s[0]] + rest)
    ensures forall v :: v in [s[0]] + rest <==> v == t || v in s
  {
    forall j | 0 <= j < |rest| ensures s[0] < rest[j] {
      assert rest[j] in rest;
    }
    assert s == [s[0]] + s[1..];
  }

  /** The targets sorted, without repetition. */
  function SortedDistinct(s: seq<nat>): (r: seq<nat>)
    ensures Increasing(r)
    ensures forall v :: v in r <==> v in s
  {
    if s == [] then [] else Insert(SortedDistinct(s[1..]), s[0])
  }

  /** Whether the distance stored for `cell` answers a shortest-path query from `origin`. */
  ghost predicate Answers(edges: Edges, origin: nat, dist: seq<nat>, cell: nat)
    requires cell < |dist|
  {
    if dist[cell] == U32_MAX then Unreachable(edges, origin, cell)
    else ShortestSteps(edges, origin, cell, dist[cell])
  }

  /** What a completed fill leaves for its origin. */
  ghost predicate Filled(edges: Edges, origin: nat, dist: seq<nat>, targets: seq<nat>, exhausted: bool) {
    && (forall c :: 0 <= c < |dist| && dist[c] != U32_MAX ==> Answers(edges, origin, dist, c))
    && (forall c :: 0 <= c < |dist| && (exhausted || c in targets) ==> Answers(edges, origin, dist, c))
  }

  lemma FillIsFilled(edges: Edges, origin: nat, dist: seq<nat>, cells: seq<nat>, done: nat, targets: seq<nat>)
    requires Wave(edges, origin, dist, cells, done)
    requires done == |cells| || Unsettled(targets, cells, done) == {}
    ensures Filled(edges, origin, dist, targets, done == |cells|)
  {
    forall c: nat | c < |dist| && (dist[c] != U32_MAX || done == |cells| || c in targets)
      ensures Answers(edges, origin, dist, c)
    {
      WaveIsExact(edges, origin, dist, cells, done, c);
      if done != |cells| && c in targets {
        assert c !in Unsettled(targets, cells, done);
        assert c in cells[..done];
      }
    }
  }

  lemma FilledWeaker(edges: Edges, origin: nat, dist: seq<nat>, targets: seq<nat>, all: bool, exhausted: bool)
    requires Filled(edges, origin, dist, targets, all) && (exhausted ==> all)
    ensures Filled(edges, origin, dist, targets, exhausted)
  {
  }

  lemma WaveIsVisited(edges: Edges, origin: nat, dist: seq<nat>, cells: seq<nat>, done: nat)
    requires Wave(edges, origin, dist, cells, done)
    ensures Visited(dist, cells)
  {
  }

  lemma FirstWave(edges: Edges, origin: nat, dist: seq<nat>)
    requires origin < |dist| && dist[origin] == 0
    requires forall c :: 0 <= c < |dist| && c != origin ==> dist[c] == U32_MAX
    ensures Wave(edges, origin, dist, [origin], 0)
  {
    assert Connects(edges, origin, origin, [origin]);
    assert Witnessed(edges, origin, origin, 0);
  }

  class DistanceField {
    const axis: nat
    /** Static terrain and tree table; fixed for the life of the field. */
    const impassable: seq<bool>
    const distances: array<nat>
    var queue: seq<nat>
    var origin: Option<nat>
    var targets: seq<nat>
    var exhausted: bool

    ghost function Edges(): Edges
      reads this
    {
      GridEdges(axis, impassable)
    }

    /** The grid is well formed and the queue lists exactly the cells whose distance is set. */
    ghost predicate Shaped()
      reads this, distances
    {
      && axis <= MAX_AXIS
      && |impassable| == distances.Length == axis * axis
      && AllPacked(axis, queue)
      && Visited(distances[..], Cells(axis, queue))
    }

    ghost predicate Valid()
      reads this, distances
    {
      && Shaped()
      && (origin.Some? ==> Filled(Edges(), origin.value, distances[..], targets, exhausted))
    }

    constructor (axis: nat, impassable: seq<bool>)
      requires axis <= MAX_AXIS && |impassable| == axis * axis
      ensures Valid() && origin == None && fresh(distances)
      ensures this.axis == axis && this.impassable == impassable
    {
      this.axis, this.impassable := axis, impassable;
      distances := new nat[axis * axis](_ => U32_MAX);
      queue, origin, targets, exhausted := [], None, [], false;
    }

    /** Cell index of a position inside the map. */
    function CellOf(position: Vec2): (r: Option<nat>)
      ensures r.Some? ==> r.value < axis * axis
      ensures r.Some? <==> CellXY(axis, position).Some?
    {
      match CellXY(axis, position)
      case None => None
      case Some((x, y)) => Some(CellIndex(axis, x, y))
    }

    predicate CachedPathsCover(newTargets: seq<nat>)
      reads this
    {
      exhausted || forall t :: t in newTargets ==> t in targets
    }

    /** Clears every distance the last fill set, by walking its queue. */
    method Reset()
      requires Shaped()
      modifies this`queue, distances
      ensures queue == []
      ensures forall c :: 0 <= c < distances.Length ==> distances[c] == U32_MAX
    {
      ghost var cells := Cells(axis, queue);
      for i := 0 to |queue|
        modifies distances
        invariant forall c :: 0 <= c < distances.Length && distances[c] != U32_MAX ==> c in cells[i..]
      {
        var cell := CellIndex(axis, queue[i] % 0x1_0000, queue[i] / 0x1_0000);
        distances[cell] := U32_MAX;
        assert cells[i..] == [cell] + cells[i + 1..];
      }
      queue := [];
    }

    /**
     * Makes the field answer every target from the cell of `position`: it
     * refills only when the stored fill has another origin or misses a target.
     */
    method PreparePathDistances(position: Vec2, newTargets: seq<nat>)
      requires Valid()
      requires forall t :: t in newTargets ==> t < axis * axis
      modifies this, distances
      ensures Valid() && origin == CellOf(position)
      ensures origin.Some? ==>
        forall t: nat :: t in newTargets ==> Answers(Edges(), origin.value, distances[..], t)
      ensures origin.None? ==> distances[..] == old(distances[..])
      ensures old(origin) == CellOf(position) && (old(exhausted) || forall t :: t in newTargets ==> t in old(targets)) ==>
        && distances[..] == old(distances[..]) && queue == old(queue)
        && (origin.Some? ==> targets == old(targets) && exhausted == old(exhausted))
      ensures origin.Some? && !(old(origin) == origin && (old(exhausted) || forall t :: t in newTargets ==> t in old(targets))) ==>
        forall t: nat :: t in targets <==> t in newTargets
    {
      var cell := CellOf(position);
      if cell.None? {
        origin := None;
        return;
      }
      var start := cell.value;
      if origin == Some(start) && CachedPathsCover(newTargets) {
        return;
      }
      Refill(start, newTargets);
    }

    /** A fresh fill from `start` until every target is settled. */
    method Refill(start: nat, newTargets: seq<nat>)
      requires Shaped() && start < axis * axis
      modifies this, distances
      ensures Valid() && origin == Some(start)
      ensures forall t: nat :: t in newTargets <==> t in targets
    {
      hide Wave, Filled, Unsettled;
      Reset();
      origin, targets, exhausted := Some(start), SortedDistinct(newTargets), false;
      StartParts(axis, start);
      distances[start] := 0;
      queue := [Pack(start % axis, start / axis)];
      PackRoundTrip(axis, start % axis, start / axis);
      FirstWave(Edges(), start, distances[..]);
      assert Cells(axis, queue) == [start];
      var filled, cursor, pending := FloodFill(axis, impassable, targets, distances, queue, start);
      queue := filled;
      ghost var cells := Cells(axis, queue);
      WaveIsVisited(Edges(), start, distances[..], cells, cursor);
      FillIsFilled(Edges(), start, distances[..], cells, cursor, targets);
      exhausted := pending == 0 && targets != [] && cursor == |queue|;
      FilledWeaker(Edges(), start, distances[..], targets, cursor == |queue|, exhausted);
    }

    /** Steps to a position, if the field knows a way there. */
    function PathSteps(position: Vec2): (r: Option<nat>)
      requires Shaped()
      reads this, distances
    {
      match CellOf(position)
      case None => None
      case Some(cell) => if distances[cell] == U32_MAX then None else Some(distances[cell])
    }
  }

  lemma StartParts(axis: nat, start: nat)
    requires start < axis * axis
    ensures start % axis < axis && start / axis < axis && (start / axis) * axis + start % axis == start
  {
    if start / axis >= axis {
      MulMonotone(axis, start / axis, axis);
    }
  }

  /**
   * After any sequence of calls, the steps reported to a prepared target are
   * the length of a shortest walk, and there are none exactly when there is no walk.
   */
  lemma PathStepsIsShortest(field: DistanceField, position: Vec2, target: nat)
    requires field.Valid() && field.origin.Some? && field.CellOf(position) == Some(target)
    requires field.exhausted || target in field.targets
    ensures field.PathSteps(position).None? <==> Unreachable(field.Edges(), field.origin.value, target)
    ensures field.PathSteps(position).Some? ==>
      ShortestSteps(field.Edges(), field.origin.value, target, field.PathSteps(position).value)
  {
    assert Answers(field.Edges(), field.origin.value, field.distances[..], target);
  }
}
