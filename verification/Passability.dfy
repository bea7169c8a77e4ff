// The static passability grid: terrain minus the discs around trees and
// structures, rasterised row by row with an incremental x coordinate.
module Passability {
  import opened Geometry

  const HALF_RAW: nat := 32 * ONE_RAW
  const STATIC_TREE_CLEARANCE: nat := 80 * ONE_RAW
  /** Terrain bit of walkable ground. */
  const WALKABLE_BIT: nat := 0x80

  // ---------------------------------------------------------------- discs

  function Square(n: int): nat
  {
    SquareNonNegative(n);
    n * n
  }

  lemma SquareNonNegative(n: int)
    ensures n * n >= 0
  {
  }

  /** Raw coordinate of a cell centre along one axis. */
  function CenterRaw(cell: nat): nat { cell * CELL_RAW + HALF_RAW }

  /** Whether the centre of a cell lies within the disc. */
  predicate Covers(center: Vec2, radius: nat, x: nat, y: nat) {
    Square(CenterRaw(x) - center.x) + Square(CenterRaw(y) - center.y) <= Square(radius)
  }

  /** Cells on each side of the centre's cell that a disc can reach. */
  function Span(radius: nat): nat { radius / ONE_RAW / TERRAIN_CELL_SIZE + 1 }

  lemma SpanExceedsRadius(radius: nat)
    ensures radius < Span(radius) * CELL_RAW
  {
  }

  lemma SquareBound(n: int, radius: nat)
    requires Square(n) <= Square(radius)
    ensures n <= radius && -n <= radius
  {
    if n > radius {
      MulMonotone(radius + 1, n, n);
      MulMonotone(radius, n, radius);
    } else if -n > radius {
      MulMonotone(radius + 1, -n, -n);
      MulMonotone(radius, -n, radius);
    }
  }

  lemma AxisWithinSpan(radius: nat, cell: nat, home: nat, position: int)
    requires home * CELL_RAW <= position < (home + 1) * CELL_RAW
    requires CenterRaw(cell) - position <= radius && position - CenterRaw(cell) <= radius
    ensures home - Span(radius) <= cell <= home + Span(radius)
  {
    SpanExceedsRadius(radius);
  }

  /** The window of the rasteriser misses no cell the disc covers. */
  lemma SpanMissesNone(axis: nat, center: Vec2, radius: nat, x: nat, y: nat)
    requires CellXY(axis, center).Some? && Covers(center, radius, x, y)
    ensures var (homeX, homeY) := CellXY(axis, center).value;
      && homeX - Span(radius) <= x <= homeX + Span(radius)
      && homeY - Span(radius) <= y <= homeY + Span(radius)
  {
    var (homeX, homeY) := CellXY(axis, center).value;
    SquareBound(CenterRaw(x) - center.x, radius);
    SquareBound(CenterRaw(y) - center.y, radius);
    AxisWithinSpan(radius, x, homeX, center.x);
    AxisWithinSpan(radius, y, homeY, center.y);
  }

  // ---------------------------------------------------------------- the whole-grid test

  datatype Blocker = Blocker(center: Vec2, radius: nat)

  /** A disc with its centre off the map closes nothing. */
  predicate Blocks(axis: nat, blocker: Blocker, x: nat, y: nat) {
    CellXY(axis, blocker.center).Some? && Covers(blocker.center, blocker.radius, x, y)
  }

  /** The grid after closing one disc, cell by cell over the whole map. */
  ghost predicate Closed(axis: nat, before: seq<bool>, after: seq<bool>, blocker: Blocker)
    requires |before| == |after| == axis * axis
  {
    forall x: nat, y: nat :: x < axis && y < axis ==>
      after[CellIndex(axis, x, y)] == (before[CellIndex(axis, x, y)] && !Blocks(axis, blocker, x, y))
  }

  function Max0(n: int): nat { if n < 0 then 0 else n }

  function Min(a: nat, b: nat): nat { if a < b then a else b }

  /** Rows before `rows` are final and so are the first `columns` cells of that row. */
  ghost predicate ClosedUpTo(axis: nat, before: seq<bool>, after: seq<bool>, blocker: Blocker, rows: nat, columns: nat)
    requires |before| == |after| == axis * axis
  {
    forall x: nat, y: nat :: x < axis && y < axis ==>
      after[CellIndex(axis, x, y)]
        == (before[CellIndex(axis, x, y)]
            && !((y < rows || (y == rows && x < columns)) && Blocks(axis, blocker, x, y)))
  }

  lemma CellIndexInjective(axis: nat, x: nat, y: nat, u: nat, v: nat)
    requires x < axis && y < axis && u < axis && v < axis && CellIndex(axis, x, y) == CellIndex(axis, u, v)
    ensures x == u && y == v
  {
    CellParts(axis, x, y);
    CellParts(axis, u, v);
  }

  lemma NextCell(axis: nat, before: seq<bool>, was: seq<bool>, blocker: Blocker, x: nat, y: nat)
    requires |before| == |was| == axis * axis && x < axis && y < axis
    requires ClosedUpTo(axis, before, was, blocker, y, x)
    ensures ClosedUpTo(axis, before,
                       if Blocks(axis, blocker, x, y) then was[CellIndex(axis, x, y) := false] else was,
                       blocker, y, x + 1)
  {
    hide Blocks;
    var now := if Blocks(axis, blocker, x, y) then was[CellIndex(axis, x, y) := false] else was;
    forall u: nat, v: nat | u < axis && v < axis
      ensures now[CellIndex(axis, u, v)]
        == (before[CellIndex(axis, u, v)]
            && !((v < y || (v == y && u < x + 1)) && Blocks(axis, blocker, u, v)))
    {
      if CellIndex(axis, u, v) == CellIndex(axis, x, y) {
        CellIndexInjective(axis, u, v, x, y);
      }
    }
  }

  /** Cells the scan passes over are cells the disc does not cover. */
  lemma SkipCells(axis: nat, before: seq<bool>, now: seq<bool>, blocker: Blocker, rows: nat, columns: nat, toRows: nat, toColumns: nat)
    requires |before| == |now| == axis * axis
    requires ClosedUpTo(axis, before, now, blocker, rows, columns)
    requires forall x: nat, y: nat :: x < axis && y < axis && Blocks(axis, blocker, x, y) ==>
      ((y < rows || (y == rows && x < columns)) <==> (y < toRows || (y == toRows && x < toColumns)))
    ensures ClosedUpTo(axis, before, now, blocker, toRows, toColumns)
  {
    hide Blocks;
  }

  // ---------------------------------------------------------------- the rasteriser

  /** Window of one disc along one axis: first and last cell scanned. */
  function WindowStart(home: nat, span: nat): nat { Max0(home - span) }

  function WindowEnd(home: nat, span: nat, axis: nat): nat
    requires axis > 0
  {
    Min(home + span, axis - 1)
  }

  /** The disc stays inside its window. */
  lemma WindowHolds(axis: nat, blocker: Blocker, x: nat, y: nat)
    requires x < axis && y < axis && Blocks(axis, blocker, x, y)
    ensures var (homeX, homeY) := CellXY(axis, blocker.center).value;
      var span := Span(blocker.radius);
      && WindowStart(homeX, span) <= x <= WindowEnd(homeX, span, axis)
      && WindowStart(homeY, span) <= y <= WindowEnd(homeY, span, axis)
  {
    SpanMissesNone(axis, blocker.center, blocker.radius, x, y);
  }

  /** A row whose squared offset alone exceeds the limit holds no covered cell. */
  lemma FarRow(axis: nat, blocker: Blocker, x: nat, y: nat)
    requires Square(CenterRaw(y) - blocker.center.y) > Square(blocker.radius)
    ensures !Blocks(axis, blocker, x, y)
  {
  }

  /** Scans one row of the window, stepping the raw x coordinate from cell to cell. */
  method CloseRow(axis: nat, open: array<bool>, blocker: Blocker, y: nat, startX: nat, endX: nat, remaining: nat,
                  ghost before: seq<bool>)
    requires open.Length == |before| == axis * axis && y < axis && startX <= endX < axis
    requires CellXY(axis, blocker.center).Some?
    requires remaining + Square(CenterRaw(y) - blocker.center.y) == Square(blocker.radius)
    requires ClosedUpTo(axis, before, open[..], blocker, y, startX)
    modifies open
    ensures ClosedUpTo(axis, before, open[..], blocker, y, endX + 1)
  {
    hide ClosedUpTo, Square;
    var rawX := CenterRaw(startX);
    for x := startX to endX + 1
      invariant rawX == CenterRaw(x)
      invariant ClosedUpTo(axis, before, open[..], blocker, y, x)
    {
      ghost var was := open[..];
      NextCell(axis, before, was, blocker, x, y);
      var deltaX := rawX - blocker.center.x;
      CellBound(axis, x, y);
      if Square(deltaX) <= remaining {
        open[y * axis + x] := false;
        assert open[..] == was[CellIndex(axis, x, y) := false];
      }
      rawX := rawX + CELL_RAW;
    }
  }

  /** Closes exactly the cells whose centres lie within the disc. */
  method BlockCircle(axis: nat, open: array<bool>, center: Vec2, radius: nat)
    requires open.Length == axis * axis
    modifies open
    ensures Closed(axis, old(open[..]), open[..], Blocker(center, radius))
  {
    hide ClosedUpTo, Square, Blocks;
    var blocker := Blocker(center, radius);
    ghost var before := open[..];
    var home := CellXY(axis, center);
    if home.None? {
      OffMap(axis, before, blocker);
      return;
    }
    var (homeX, homeY) := home.value;
    var span := Span(radius);
    var startX, endX := WindowStart(homeX, span), WindowEnd(homeX, span, axis);
    var startY, endY := WindowStart(homeY, span), WindowEnd(homeY, span, axis);
    NothingClosed(axis, before, blocker);
    SkipToRow(axis, before, before, blocker, 0, startY);
    var limit := Square(radius);
    for y := startY to endY + 1
      invariant ClosedUpTo(axis, before, open[..], blocker, y, 0)
    {
      var deltaY := Square(CenterRaw(y) - center.y);
      if deltaY > limit {
        SkipFarRow(axis, before, open[..], blocker, y);
        continue;
      }
      SkipToColumn(axis, before, open[..], blocker, y, startX);
      CloseRow(axis, open, blocker, y, startX, endX, limit - deltaY, before);
      SkipRestOfRow(axis, before, open[..], blocker, y, endX + 1);
    }
    SkipToRow(axis, before, open[..], blocker, endY + 1, axis);
    AllClosed(axis, before, open[..], blocker);
  }

  lemma OffMap(axis: nat, before: seq<bool>, blocker: Blocker)
    requires |before| == axis * axis && CellXY(axis, blocker.center).None?
    ensures Closed(axis, before, before, blocker)
  {
  }

  lemma NothingClosed(axis: nat, before: seq<bool>, blocker: Blocker)
    requires |before| == axis * axis
    ensures ClosedUpTo(axis, before, before, blocker, 0, 0)
  {
    hide Blocks;
  }

  lemma AllClosed(axis: nat, before: seq<bool>, after: seq<bool>, blocker: Blocker)
    requires |before| == |after| == axis * axis && ClosedUpTo(axis, before, after, blocker, axis, 0)
    ensures Closed(axis, before, after, blocker)
  {
    hide Blocks;
    forall x: nat, y: nat | x < axis && y < axis
      ensures after[CellIndex(axis, x, y)] == (before[CellIndex(axis, x, y)] && !Blocks(axis, blocker, x, y))
    {
    }
  }

  /** Rows outside the window are untouched by the disc. */
  lemma SkipToRow(axis: nat, before: seq<bool>, now: seq<bool>, blocker: Blocker, rows: nat, toRows: nat)
    requires |before| == |now| == axis * axis && ClosedUpTo(axis, before, now, blocker, rows, 0)
    requires CellXY(axis, blocker.center).Some?
    requires var (_, homeY) := CellXY(axis, blocker.center).value;
      var span := Span(blocker.radius);
      (rows == 0 && toRows == WindowStart(homeY, span)) || (rows == WindowEnd(homeY, span, axis) + 1 && toRows == axis)
    ensures ClosedUpTo(axis, before, now, blocker, toRows, 0)
  {
    hide Blocks, ClosedUpTo;
    forall x: nat, y: nat | x < axis && y < axis && Blocks(axis, blocker, x, y) ensures y < rows <==> y < toRows {
      WindowHolds(axis, blocker, x, y);
    }
    SkipCells(axis, before, now, blocker, rows, 0, toRows, 0);
  }

  lemma SkipToColumn(axis: nat, before: seq<bool>, now: seq<bool>, blocker: Blocker, y: nat, startX: nat)
    requires |before| == |now| == axis * axis && ClosedUpTo(axis, before, now, blocker, y, 0)
    requires CellXY(axis, blocker.center).Some?
    requires startX == WindowStart(CellXY(axis, blocker.center).value.0, Span(blocker.radius))
    ensures ClosedUpTo(axis, before, now, blocker, y, startX)
  {
    hide Blocks, ClosedUpTo;
    forall x: nat, v: nat | x < axis && v < axis && Blocks(axis, blocker, x, v) ensures startX <= x {
      WindowHolds(axis, blocker, x, v);
    }
    SkipCells(axis, before, now, blocker, y, 0, y, startX);
  }

  lemma SkipRestOfRow(axis: nat, before: seq<bool>, now: seq<bool>, blocker: Blocker, y: nat, columns: nat)
    requires |before| == |now| == axis * axis && ClosedUpTo(axis, before, now, blocker, y, columns)
    requires CellXY(axis, blocker.center).Some?
    requires columns == WindowEnd(CellXY(axis, blocker.center).value.0, Span(blocker.radius), axis) + 1
    ensures ClosedUpTo(axis, before, now, blocker, y + 1, 0)
  {
    hide Blocks, ClosedUpTo;
    forall x: nat, v: nat | x < axis && v < axis && Blocks(axis, blocker, x, v) ensures x < columns {
      WindowHolds(axis, blocker, x, v);
    }
    SkipCells(axis, before, now, blocker, y, columns, y + 1, 0);
  }

  lemma SkipFarRow(axis: nat, before: seq<bool>, now: seq<bool>, blocker: Blocker, y: nat)
    requires |before| == |now| == axis * axis && ClosedUpTo(axis, before, now, blocker, y, 0)
    requires Square(CenterRaw(y) - blocker.center.y) > Square(blocker.radius)
    ensures ClosedUpTo(axis, before, now, blocker, y + 1, 0)
  {
    hide Blocks, ClosedUpTo;
    forall x: nat, v: nat | x < axis && v < axis && Blocks(axis, blocker, x, v) ensures v != y {
      if v == y {
        FarRow(axis, blocker, x, y);
      }
    }
    SkipCells(axis, before, now, blocker, y, 0, y + 1, 0);
  }

  // ---------------------------------------------------------------- the built grid

  /** What a grid depends on besides terrain and static trees: felled tree indices, planted trees, structures. */
  datatype Key = Key(felled: seq<nat>, planted: seq<Vec2>, structures: seq<(Vec2, nat, bool)>)

  predicate WalkableTerrain(cell: nat) { cell / WALKABLE_BIT % 2 == 1 }

  /** A cell is open exactly when its terrain is and no blocker covers its centre. */
  ghost predicate IsGrid(axis: nat, terrain: seq<nat>, blockers: seq<Blocker>, grid: seq<bool>)
    requires |terrain| == axis * axis
  {
    && |grid| == axis * axis
    && forall x: nat, y: nat :: x < axis && y < axis ==>
      grid[CellIndex(axis, x, y)]
        == (WalkableTerrain(terrain[CellIndex(axis, x, y)]) && !AnyBlocks(axis, blockers, x, y))
  }

  ghost predicate AnyBlocks(axis: nat, blockers: seq<Blocker>, x: nat, y: nat) {
    exists b :: b in blockers && Blocks(axis, b, x, y)
  }

  /** Static trees of the first `count` that this seat has not seen felled. */
  function StandingTrees(trees: seq<Vec2>, felled: seq<nat>, count: nat): seq<Blocker>
    requires count <= |trees|
  {
    if count == 0 then []
    else StandingTrees(trees, felled, count - 1)
         + (if count - 1 in felled then [] else [Blocker(trees[count - 1], STATIC_TREE_CLEARANCE)])
  }

  function PlantedTrees(planted: seq<Vec2>, count: nat): seq<Blocker>
    requires count <= |planted|
  {
    if count == 0 then [] else PlantedTrees(planted, count - 1) + [Blocker(planted[count - 1], STATIC_TREE_CLEARANCE)]
  }

  function StructureDiscs(structures: seq<(Vec2, nat, bool)>, count: nat): seq<Blocker>
    requires count <= |structures|
  {
    if count == 0 then []
    else StructureDiscs(structures, count - 1) + [Blocker(structures[count - 1].0, structures[count - 1].1)]
  }

  function Blockers(trees: seq<Vec2>, key: Key): seq<Blocker> {
    StandingTrees(trees, key.felled, |trees|) + PlantedTrees(key.planted, |key.planted|)
    + StructureDiscs(key.structures, |key.structures|)
  }

  /** Closing one more disc adds it to the blockers of the grid. */
  lemma CloseOne(axis: nat, terrain: seq<nat>, blockers: seq<Blocker>, before: seq<bool>, after: seq<bool>, b: Blocker)
    requires |terrain| == |after| == axis * axis && IsGrid(axis, terrain, blockers, before)
    requires Closed(axis, before, after, b)
    ensures IsGrid(axis, terrain, blockers + [b], after)
  {
    hide Blocks;
    forall x: nat, y: nat | x < axis && y < axis
      ensures AnyBlocks(axis, blockers + [b], x, y) <==> AnyBlocks(axis, blockers, x, y) || Blocks(axis, b, x, y)
    {
      BlocksOneMore(axis, blockers, b, x, y);
    }
  }

  lemma BlocksOneMore(axis: nat, blockers: seq<Blocker>, b: Blocker, x: nat, y: nat)
    ensures AnyBlocks(axis, blockers + [b], x, y) <==> AnyBlocks(axis, blockers, x, y) || Blocks(axis, b, x, y)
  {
    hide Blocks;
    if AnyBlocks(axis, blockers, x, y) {
      var c :| c in blockers && Blocks(axis, c, x, y);
      assert c in blockers + [b];
    }
    if Blocks(axis, b, x, y) {
      assert b in blockers + [b];
    }
  }

  /** Only which discs there are matters, not their order or repetition. */
  lemma GridIgnoresOrder(axis: nat, terrain: seq<nat>, a: seq<Blocker>, b: seq<Blocker>, gridA: seq<bool>, gridB: seq<bool>)
    requires |terrain| == axis * axis
    requires IsGrid(axis, terrain, a, gridA) && IsGrid(axis, terrain, b, gridB)
    requires forall c :: c in a <==> c in b
    ensures gridA == gridB
  {
    hide Blocks, WalkableTerrain;
    forall i | 0 <= i < axis * axis ensures gridA[i] == gridB[i] {
      var x, y := GridCell(axis, i);
      assert AnyBlocks(axis, a, x, y) <==> AnyBlocks(axis, b, x, y);
    }
  }

  /** Every index is the index of a cell. */
  lemma GridCell(axis: nat, i: nat) returns (x: nat, y: nat)
    requires i < axis * axis
    ensures x < axis && y < axis && CellIndex(axis, x, y) == i
  {
    x, y := i % axis, i / axis;
    if y >= axis {
      MulMonotone(axis, y, axis);
    }
  }

  /** A disc on the map reaches a cell when the cell's centre is no further away than its radius. */
  ghost predicate Reaches(axis: nat, center: Vec2, radius: nat, x: nat, y: nat) {
    var dx, dy := x * 4194304 + 2097152 - center.x, y * 4194304 + 2097152 - center.y;
    && 0 <= center.x < axis * 4194304 && 0 <= center.y < axis * 4194304
    && dx * dx + dy * dy <= radius * radius
  }

  lemma ReachesExactly(axis: nat, center: Vec2, radius: nat, x: nat, y: nat)
    ensures Blocks(axis, Blocker(center, radius), x, y) <==> Reaches(axis, center, radius, x, y)
  {
  }

  lemma {:induction false} TreesStand(trees: seq<Vec2>, felled: seq<nat>, count: nat, b: Blocker)
    requires count <= |trees|
    ensures b in StandingTrees(trees, felled, count) <==>
      b.radius == STATIC_TREE_CLEARANCE && exists i :: 0 <= i < count && i !in felled && trees[i] == b.center
    decreases count
  {
    if count > 0 { TreesStand(trees, felled, count - 1, b); }
  }

  lemma {:induction false} TreesGrow(planted: seq<Vec2>, count: nat, b: Blocker)
    requires count <= |planted|
    ensures b in PlantedTrees(planted, count) <==>
      b.radius == STATIC_TREE_CLEARANCE && exists i :: 0 <= i < count && planted[i] == b.center
    decreases count
  {
    if count > 0 { TreesGrow(planted, count - 1, b); }
  }

  lemma {:induction false} StructuresStand(structures: seq<(Vec2, nat, bool)>, count: nat, b: Blocker)
    requires count <= |structures|
    ensures b in StructureDiscs(structures, count) <==>
      exists i :: 0 <= i < count && structures[i].0 == b.center && structures[i].1 == b.radius
    decreases count
  {
    if count > 0 { StructuresStand(structures, count - 1, b); }
  }

  /** What closes a cell: a tree not felled, a planted tree, or a structure that reaches it. */
  ghost predicate Obstructed(axis: nat, trees: seq<Vec2>, key: Key, x: nat, y: nat) {
    || (exists i :: 0 <= i < |trees| && i !in key.felled && Reaches(axis, trees[i], 80 * 65536, x, y))
    || (exists i :: 0 <= i < |key.planted| && Reaches(axis, key.planted[i], 80 * 65536, x, y))
    || (exists i :: 0 <= i < |key.structures| && Reaches(axis, key.structures[i].0, key.structures[i].1, x, y))
  }

  lemma ObstructedExactly(axis: nat, trees: seq<Vec2>, key: Key, x: nat, y: nat)
    ensures AnyBlocks(axis, Blockers(trees, key), x, y) <==> Obstructed(axis, trees, key, x, y)
  {
    hide Blocks, Reaches, StandingTrees, PlantedTrees, StructureDiscs;
    if AnyBlocks(axis, Blockers(trees, key), x, y) {
      var b :| b in Blockers(trees, key) && Blocks(axis, b, x, y);
      ReachesExactly(axis, b.center, b.radius, x, y);
      assert b == Blocker(b.center, b.radius);
      TreesStand(trees, key.felled, |trees|, b);
      TreesGrow(key.planted, |key.planted|, b);
      StructuresStand(key.structures, |key.structures|, b);
    }
    if i :| 0 <= i < |trees| && i !in key.felled && Reaches(axis, trees[i], STATIC_TREE_CLEARANCE, x, y) {
      TreesStand(trees, key.felled, |trees|, Blocker(trees[i], STATIC_TREE_CLEARANCE));
      ReachesExactly(axis, trees[i], STATIC_TREE_CLEARANCE, x, y);
    }
    if i :| 0 <= i < |key.planted| && Reaches(axis, key.planted[i], STATIC_TREE_CLEARANCE, x, y) {
      TreesGrow(key.planted, |key.planted|, Blocker(key.planted[i], STATIC_TREE_CLEARANCE));
      ReachesExactly(axis, key.planted[i], STATIC_TREE_CLEARANCE, x, y);
    }
    if i :| 0 <= i < |key.structures| && Reaches(axis, key.structures[i].0, key.structures[i].1, x, y) {
      StructuresStand(key.structures, |key.structures|, Blocker(key.structures[i].0, key.structures[i].1));
      ReachesExactly(axis, key.structures[i].0, key.structures[i].1, x, y);
    }
  }

  /** The built grid, cell by cell: the terrain's top bit is set, and nothing obstructs the cell. */
  lemma GridExactly(axis: nat, terrain: seq<nat>, trees: seq<Vec2>, key: Key, grid: seq<bool>, x: nat, y: nat)
    requires |terrain| == axis * axis && IsGrid(axis, terrain, Blockers(trees, key), grid) && x < axis && y < axis
    ensures y * axis + x < |grid|
    ensures grid[y * axis + x] <==> terrain[y * axis + x] % 256 >= 128 && !Obstructed(axis, trees, key, x, y)
  {
    hide Obstructed, AnyBlocks, Blockers;
    assert CellIndex(axis, x, y) == y * axis + x;
    ObstructedExactly(axis, trees, key, x, y);
  }

  method CloseDisc(axis: nat, terrain: seq<nat>, open: array<bool>, b: Blocker, ghost blockers: seq<Blocker>)
    requires |terrain| == open.Length == axis * axis && IsGrid(axis, terrain, blockers, open[..])
    modifies open
    ensures IsGrid(axis, terrain, blockers + [b], open[..])
  {
    hide IsGrid, Closed;
    ghost var before := open[..];
    BlockCircle(axis, open, b.center, b.radius);
    CloseOne(axis, terrain, blockers, before, open[..], b);
  }

  /** Builds the grid: terrain first, then standing trees, planted trees and structures. */
  method BuildStaticPassability(axis: nat, terrain: seq<nat>, trees: seq<Vec2>, key: Key) returns (grid: seq<bool>)
    requires |terrain| == axis * axis
    ensures IsGrid(axis, terrain, Blockers(trees, key), grid)
  {
    hide IsGrid;
    var open := new bool[axis * axis](i requires 0 <= i < axis * axis => WalkableTerrain(terrain[i]));
    ghost var blockers: seq<Blocker> := [];
    OpenTerrain(axis, terrain, open[..]);
    for i := 0 to |trees|
      invariant fresh(open) && IsGrid(axis, terrain, blockers, open[..])
      invariant blockers == StandingTrees(trees, key.felled, i)
    {
      if i !in key.felled {
        CloseDisc(axis, terrain, open, Blocker(trees[i], STATIC_TREE_CLEARANCE), blockers);
        blockers := blockers + [Blocker(trees[i], STATIC_TREE_CLEARANCE)];
      }
    }
    ghost var standing := blockers;
    for i := 0 to |key.planted|
      invariant fresh(open) && IsGrid(axis, terrain, blockers, open[..])
      invariant blockers == standing + PlantedTrees(key.planted, i)
    {
      CloseDisc(axis, terrain, open, Blocker(key.planted[i], STATIC_TREE_CLEARANCE), blockers);
      blockers := blockers + [Blocker(key.planted[i], STATIC_TREE_CLEARANCE)];
    }
    ghost var grown := blockers;
    for i := 0 to |key.structures|
      invariant fresh(open) && IsGrid(axis, terrain, blockers, open[..])
      invariant blockers == grown + StructureDiscs(key.structures, i)
    {
      var disc := Blocker(key.structures[i].0, key.structures[i].1);
      CloseDisc(axis, terrain, open, disc, blockers);
      blockers := blockers + [disc];
    }
    grid := open[..];
  }

  lemma OpenTerrain(axis: nat, terrain: seq<nat>, grid: seq<bool>)
    requires |terrain| == |grid| == axis * axis
    requires forall i :: 0 <= i < axis * axis ==> grid[i] == WalkableTerrain(terrain[i])
    ensures IsGrid(axis, terrain, [], grid)
  {
    hide Blocks, WalkableTerrain;
  }

  /** One tracker's last grid, rebuilt only when its key changes. */
  class PassabilityCache {
    const axis: nat
    const terrain: seq<nat>
    const trees: seq<Vec2>
    var stored: Option<(Key, seq<bool>)>

    ghost predicate Valid()
      reads this
    {
      && |terrain| == axis * axis
      && (stored.Some? ==> IsGrid(axis, terrain, Blockers(trees, stored.value.0), stored.value.1))
    }

    constructor (axis: nat, terrain: seq<nat>, trees: seq<Vec2>)
      requires |terrain| == axis * axis
      ensures Valid() && stored == None
      ensures this.axis == axis && this.terrain == terrain && this.trees == trees
    {
      this.axis, this.terrain, this.trees, stored := axis, terrain, trees, None;
    }

    /** Whether cached or rebuilt, the grid is the one the key describes. */
    method Reconstruct(key: Key) returns (grid: seq<bool>)
      requires Valid()
      modifies this
      ensures Valid() && stored == Some((key, grid))
      ensures IsGrid(axis, terrain, Blockers(trees, key), grid)
      ensures old(stored).Some? && old(stored).value.0 == key ==> stored == old(stored)
    {
      if stored.Some? && stored.value.0 == key {
        return stored.value.1;
      }
      grid := BuildStaticPassability(axis, terrain, trees, key);
      stored := Some((key, grid));
    }
  }
}
