// Fixed-point map coordinates and the square terrain grid shared by the path
// field and the passability grid.
module Geometry {

  /** Cell side in world units. */
  const TERRAIN_CELL_SIZE := 64
  /** Raw units per world unit: positions are Q16.16. */
  const ONE_RAW := 0x1_0000
  const CELL_RAW := TERRAIN_CELL_SIZE * ONE_RAW

  datatype Option<+T> = None | Some(value: T)

  /** A map position; both coordinates are raw Q16.16 values of 32 bits. */
  datatype Vec2 = Vec2(x: int, y: int)

  predicate FitsI32(n: int) { -0x8000_0000 <= n < 0x8000_0000 }

  /** Column and row of a position, or None outside the map. */
  function CellXY(axis: nat, position: Vec2): (r: Option<(nat, nat)>)
    ensures r.Some? ==> r.value.0 < axis && r.value.1 < axis
    ensures r.Some? <==> (0 <= position.x < axis * CELL_RAW && 0 <= position.y < axis * CELL_RAW)
    ensures r.Some? ==>
      && r.value.0 * CELL_RAW <= position.x < (r.value.0 + 1) * CELL_RAW
      && r.value.1 * CELL_RAW <= position.y < (r.value.1 + 1) * CELL_RAW
  {
    if position.x < 0 || position.y < 0 then None
    else
      var x := position.x / ONE_RAW / TERRAIN_CELL_SIZE;
      var y := position.y / ONE_RAW / TERRAIN_CELL_SIZE;
      if x < axis && y < axis then Some((x, y)) else None
  }

  /** Row-major cell index. */
  function CellIndex(axis: nat, x: nat, y: nat): (cell: nat)
    requires x < axis && y < axis
    ensures cell < axis * axis
  {
    CellBound(axis, x, y);
    y * axis + x
  }

  lemma CellBound(axis: nat, x: nat, y: nat)
    requires x < axis && y < axis
    ensures y * axis + x < axis * axis
  {
    MulMonotone(y + 1, axis, axis);
  }

  lemma MulMonotone(a: nat, b: nat, c: nat)
    ensures a <= b ==> a * c <= b * c
  {
  }

  /** Column and row recover from the index. */
  lemma CellParts(axis: nat, x: nat, y: nat)
    requires x < axis
    ensures (y * axis + x) % axis == x && (y * axis + x) / axis == y
  {
    var cell := y * axis + x;
    QuotientUnique(axis, cell / axis, cell % axis, y, x);
  }

  lemma QuotientUnique(axis: nat, q: nat, r: nat, y: nat, x: nat)
    requires r < axis && x < axis && q * axis + r == y * axis + x
    ensures q == y && r == x
  {
    if q < y {
      MulMonotone(q + 1, y, axis);
    } else if y < q {
      MulMonotone(y + 1, q, axis);
    }
  }
}
