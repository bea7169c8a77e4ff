// Gauss-Jordan inversion with partial pivoting, over the reals: whatever it
// returns is a two-sided inverse of the information matrix.
module GaussJordan {

  type Row = seq<real>
  type Matrix = seq<Row>

  datatype Inversion = Inverse(matrix: Matrix) | Singular

  const SINGULAR_BELOW: real := 0.000000000001

  predicate Shape(m: Matrix, rows: nat, columns: nat) {
    |m| == rows && forall i :: 0 <= i < |m| ==> |m[i]| == columns
  }

  function Unit(i: int, j: int): real { if i == j then 1.0 else 0.0 }

  function Abs(x: real): real { if x < 0.0 then -x else x }

  // ---------------------------------------------------------------- products

  /** First `count` terms of the product of a row, read from `offset`, with column `j` of `m`. */
  ghost function RowTimes(row: Row, offset: nat, m: Matrix, j: nat, count: nat): real
    requires offset + count <= |row| && count <= |m|
    requires forall i :: 0 <= i < |m| ==> j < |m[i]|
  {
    if count == 0 then 0.0
    else RowTimes(row, offset, m, j, count - 1) + row[offset + count - 1] * m[count - 1][j]
  }

  /** Entry of the product of two matrices. */
  ghost function Product(a: Matrix, b: Matrix, i: nat, j: nat): real
    requires i < |a| && |a[i]| == |b| && forall k :: 0 <= k < |b| ==> j < |b[k]|
  {
    RowTimes(a[i], 0, b, j, |b|)
  }

  ghost predicate IsIdentityProduct(a: Matrix, b: Matrix, n: nat)
    requires Shape(a, n, n) && Shape(b, n, n)
  {
    forall i, j :: 0 <= i < n && 0 <= j < n ==> Product(a, b, i, j) == Unit(i, j)
  }

  lemma {:induction false} RowTimesScaled(row: Row, scaled: Row, s: real, offset: nat, m: Matrix, j: nat, count: nat)
    requires s != 0.0 && |row| == |scaled| && forall k :: 0 <= k < |row| ==> scaled[k] == row[k] / s
    requires offset + count <= |row| && count <= |m| && forall i :: 0 <= i < |m| ==> j < |m[i]|
    ensures RowTimes(scaled, offset, m, j, count) == RowTimes(row, offset, m, j, count) / s
  {
    if count > 0 {
      RowTimesScaled(row, scaled, s, offset, m, j, count - 1);
      QuotientTimes(RowTimes(row, offset, m, j, count - 1), row[offset + count - 1], m[count - 1][j], s);
    }
  }

  lemma QuotientTimes(t: real, x: real, y: real, s: real)
    requires s != 0.0
    ensures t / s + (x / s) * y == (t + x * y) / s
  {
    assert (x / s) * y == (x * y) / s;
  }

  lemma {:induction false} RowTimesCombined(row: Row, other: Row, combined: Row, f: real, offset: nat, m: Matrix, j: nat, count: nat)
    requires |row| == |other| == |combined|
    requires forall k :: 0 <= k < |row| ==> combined[k] == row[k] - f * other[k]
    requires offset + count <= |row| && count <= |m| && forall i :: 0 <= i < |m| ==> j < |m[i]|
    ensures RowTimes(combined, offset, m, j, count)
         == RowTimes(row, offset, m, j, count) - f * RowTimes(other, offset, m, j, count)
  {
    if count > 0 {
      RowTimesCombined(row, other, combined, f, offset, m, j, count - 1);
      CombineTimes(RowTimes(row, offset, m, j, count - 1), RowTimes(other, offset, m, j, count - 1),
                   row[offset + count - 1], other[offset + count - 1], m[count - 1][j], f);
    }
  }

  lemma CombineTimes(t: real, u: real, x: real, z: real, y: real, f: real)
    ensures t - f * u + (x - f * z) * y == (t + x * y) - f * (u + z * y)
  {
    assert (f * z) * y == f * (z * y);
    assert f * (u + z * y) == f * u + f * (z * y);
  }

  lemma {:induction false} RowTimesUnit(i: nat, row: Row, offset: nat, m: Matrix, j: nat, count: nat)
    requires offset + count <= |row| && count <= |m| && forall k :: 0 <= k < |m| ==> j < |m[k]|
    requires forall k :: 0 <= k < count ==> row[offset + k] == Unit(i, k)
    ensures RowTimes(row, offset, m, j, count) == if i < count then m[i][j] else 0.0
  {
    if count > 0 {
      RowTimesUnit(i, row, offset, m, j, count - 1);
      assert row[offset + (count - 1)] == Unit(i, count - 1);
    }
  }

  lemma {:induction false} TimesUnitColumn(row: Row, m: Matrix, j: nat, count: nat)
    requires count <= |row| && count <= |m| && forall k :: 0 <= k < |m| ==> j < |m[k]|
    requires forall k :: 0 <= k < count ==> m[k][j] == Unit(k, j)
    ensures RowTimes(row, 0, m, j, count) == if j < count then row[j] else 0.0
  {
    if count > 0 {
      TimesUnitColumn(row, m, j, count - 1);
    }
  }

  // ---------------------------------------------------------------- row operations

  function SwapRows(a: Matrix, i: nat, j: nat): Matrix
    requires i < |a| && j < |a|
  {
    a[i := a[j]][j := a[i]]
  }

  function ScaleRow(a: Matrix, i: nat, s: real): Matrix
    requires i < |a| && s != 0.0
  {
    a[i := seq(|a[i]|, k requires 0 <= k < |a[i]| => a[i][k] / s)]
  }

  /** Subtracts `f` times row `c` from row `r`. */
  function SubtractRow(a: Matrix, r: nat, c: nat, f: real): Matrix
    requires r < |a| && c < |a| && |a[r]| == |a[c]|
  {
    a[r := seq(|a[r]|, k requires 0 <= k < |a[r]| => a[r][k] - f * a[c][k])]
  }

  // ---------------------------------------------------------------- left half = right half * matrix

  ghost predicate LeftIsRightTimes(a: Matrix, m: Matrix, n: nat)
    requires Shape(a, n, 2 * n) && Shape(m, n, n)
  {
    forall r, j :: 0 <= r < n && 0 <= j < n ==> a[r][j] == RowTimes(a[r], n, m, j, n)
  }

  lemma ScaleKeepsLeft(a: Matrix, m: Matrix, n: nat, i: nat, s: real)
    requires Shape(a, n, 2 * n) && Shape(m, n, n) && LeftIsRightTimes(a, m, n) && i < n && s != 0.0
    ensures LeftIsRightTimes(ScaleRow(a, i, s), m, n)
  {
    var b := ScaleRow(a, i, s);
    forall r, j | 0 <= r < n && 0 <= j < n ensures b[r][j] == RowTimes(b[r], n, m, j, n) {
      if r == i {
        RowTimesScaled(a[i], b[i], s, n, m, j, n);
      }
    }
  }

  lemma SubtractKeepsLeft(a: Matrix, m: Matrix, n: nat, r: nat, c: nat, f: real)
    requires Shape(a, n, 2 * n) && Shape(m, n, n) && LeftIsRightTimes(a, m, n) && r < n && c < n
    ensures LeftIsRightTimes(SubtractRow(a, r, c, f), m, n)
  {
    var b := SubtractRow(a, r, c, f);
    hide RowTimes;
    forall i, j | 0 <= i < n && 0 <= j < n ensures b[i][j] == RowTimes(b[i], n, m, j, n) {
      assert a[i][j] == RowTimes(a[i], n, m, j, n);
      if i == r {
        assert a[c][j] == RowTimes(a[c], n, m, j, n);
        RowTimesCombined(a[r], a[c], b[r], f, n, m, j, n);
      }
    }
  }

  // ---------------------------------------------------------------- undo * augmented = start

  /** Multiplying back by `undo` recovers the matrix the elimination started from. */
  ghost predicate Undoes(undo: Matrix, a: Matrix, start: Matrix, n: nat)
    requires Shape(undo, n, n) && Shape(a, n, 2 * n) && Shape(start, n, 2 * n)
  {
    forall i, j :: 0 <= i < n && 0 <= j < 2 * n ==> Product(undo, a, i, j) == start[i][j]
  }

  ghost function Term(x: Row, a: Matrix, j: nat, k: nat): real
    requires k < |x| && k < |a| && j < |a[k]|
  {
    x[k] * a[k][j]
  }

  lemma LastTerm(x: Row, a: Matrix, j: nat, count: nat)
    requires 0 < count <= |x| && count <= |a| && forall i :: 0 <= i < |a| ==> j < |a[i]|
    ensures RowTimes(x, 0, a, j, count) == RowTimes(x, 0, a, j, count - 1) + Term(x, a, j, count - 1)
  {
  }

  /** Two products whose terms differ only at `c` and `r`, and agree there in sum. */
  lemma {:induction false} SameButTwo(x: Row, a: Matrix, y: Row, b: Matrix, j: nat, c: nat, r: nat, count: nat)
    requires |x| == |a| == |y| == |b| && count <= |x| && c < |x| && r < |x|
    requires forall k :: 0 <= k < |a| ==> j < |a[k]| && j < |b[k]|
    requires forall k :: 0 <= k < |x| && k != c && k != r ==> Term(x, a, j, k) == Term(y, b, j, k)
    requires c != r ==> Term(x, a, j, c) + Term(x, a, j, r) == Term(y, b, j, c) + Term(y, b, j, r)
    requires c == r ==> Term(x, a, j, c) == Term(y, b, j, c)
    ensures RowTimes(x, 0, a, j, count) - RowTimes(y, 0, b, j, count)
         == (if c < count <= r then Term(x, a, j, c) - Term(y, b, j, c) else 0.0)
          + (if r < count <= c then Term(x, a, j, r) - Term(y, b, j, r) else 0.0)
  {
    hide Term;
    if count > 0 {
      SameButTwo(x, a, y, b, j, c, r, count - 1);
      LastTerm(x, a, j, count);
      LastTerm(y, b, j, count);
    }
  }

  /** The column operation on `undo` that cancels a row swap. */
  lemma SwapKeepsUndo(undo: Matrix, a: Matrix, start: Matrix, n: nat, p: nat, q: nat) returns (next: Matrix)
    requires Shape(undo, n, n) && Shape(a, n, 2 * n) && Shape(start, n, 2 * n)
    requires Undoes(undo, a, start, n) && p < n && q < n
    ensures Shape(next, n, n) && Undoes(next, SwapRows(a, p, q), start, n)
  {
    var b := SwapRows(a, p, q);
    next := seq(n, i requires 0 <= i < n => undo[i][p := undo[i][q]][q := undo[i][p]]);
    hide RowTimes, Term;
    forall i, j | 0 <= i < n && 0 <= j < 2 * n ensures Product(next, b, i, j) == start[i][j] {
      SwapTerms(undo[i], a, next[i], b, j, p, q);
      SameButTwo(undo[i], a, next[i], b, j, p, q, n);
      assert Product(undo, a, i, j) == start[i][j];
    }
  }

  /** Multiplies entry `c` by `s`. */
  ghost function ScaleEntry(x: Row, c: nat, s: real): Row
    requires c < |x|
  {
    x[c := x[c] * s]
  }

  /** Dividing row `c` and multiplying the factor of it cancel in the product. */
  lemma ScaleTerms(x: Row, a: Matrix, y: Row, b: Matrix, j: nat, c: nat, s: real)
    requires |x| == |a| == |y| == |b| && c < |x| && s != 0.0
    requires forall k :: 0 <= k < |a| ==> j < |a[k]| && j < |b[k]|
    requires y == ScaleEntry(x, c, s) && b == ScaleRow(a, c, s)
    ensures forall k :: 0 <= k < |x| ==> Term(x, a, j, k) == Term(y, b, j, k)
  {
    ScaleCancels(x[c], a[c][j], s);
  }

  lemma ScaleKeepsUndo(undo: Matrix, a: Matrix, start: Matrix, n: nat, c: nat, s: real) returns (next: Matrix)
    requires Shape(undo, n, n) && Shape(a, n, 2 * n) && Shape(start, n, 2 * n)
    requires Undoes(undo, a, start, n) && c < n && s != 0.0
    ensures Shape(next, n, n) && Undoes(next, ScaleRow(a, c, s), start, n)
  {
    var b := ScaleRow(a, c, s);
    next := seq(n, i requires 0 <= i < n => ScaleEntry(undo[i], c, s));
    hide RowTimes, Term, ScaleEntry;
    forall i, j | 0 <= i < n && 0 <= j < 2 * n ensures Product(next, b, i, j) == start[i][j] {
      ScaleTerms(undo[i], a, next[i], b, j, c, s);
      SameButTwo(undo[i], a, next[i], b, j, c, c, n);
      assert Product(undo, a, i, j) == start[i][j];
    }
  }

  lemma ScaleCancels(x: real, y: real, s: real)
    requires s != 0.0
    ensures (x * s) * (y / s) == x * y
  {
    assert (x * s) * (y / s) == x * (s * (y / s));
  }

  /** Adds `f` times entry `r` to entry `c`. */
  ghost function AddMultiple(x: Row, c: nat, r: nat, f: real): Row
    requires c < |x| && r < |x|
  {
    x[c := x[c] + f * x[r]]
  }

  /** Subtracting from row `r` and adding back to the factor of row `c` cancel in the product. */
  lemma SubtractTerms(x: Row, a: Matrix, y: Row, b: Matrix, j: nat, r: nat, c: nat, f: real)
    requires |x| == |a| == |y| == |b| && r < |x| && c < |x| && r != c && |a[r]| == |a[c]|
    requires forall k :: 0 <= k < |a| ==> j < |a[k]| && j < |b[k]|
    requires y == AddMultiple(x, c, r, f) && b == SubtractRow(a, r, c, f)
    ensures forall k :: 0 <= k < |x| && k != c && k != r ==> Term(x, a, j, k) == Term(y, b, j, k)
    ensures Term(x, a, j, c) + Term(x, a, j, r) == Term(y, b, j, c) + Term(y, b, j, r)
  {
    SubtractCancels(x[c], x[r], a[c][j], a[r][j], f);
  }

  lemma SwapTerms(x: Row, a: Matrix, y: Row, b: Matrix, j: nat, p: nat, q: nat)
    requires |x| == |a| == |y| == |b| && p < |x| && q < |x|
    requires forall k :: 0 <= k < |a| ==> j < |a[k]| && j < |b[k]|
    requires y == x[p := x[q]][q := x[p]] && b == SwapRows(a, p, q)
    ensures forall k :: 0 <= k < |x| && k != p && k != q ==> Term(x, a, j, k) == Term(y, b, j, k)
    ensures p != q ==> Term(x, a, j, p) + Term(x, a, j, q) == Term(y, b, j, p) + Term(y, b, j, q)
    ensures p == q ==> Term(x, a, j, p) == Term(y, b, j, p)
  {
  }

  lemma SubtractKeepsUndo(undo: Matrix, a: Matrix, start: Matrix, n: nat, r: nat, c: nat, f: real) returns (next: Matrix)
    requires Shape(undo, n, n) && Shape(a, n, 2 * n) && Shape(start, n, 2 * n)
    requires Undoes(undo, a, start, n) && r < n && c < n && r != c
    ensures Shape(next, n, n) && Undoes(next, SubtractRow(a, r, c, f), start, n)
  {
    var b := SubtractRow(a, r, c, f);
    next := seq(n, i requires 0 <= i < n => AddMultiple(undo[i], c, r, f));
    hide RowTimes, Term, AddMultiple;
    forall i, j | 0 <= i < n && 0 <= j < 2 * n ensures Product(next, b, i, j) == start[i][j] {
      SubtractTerms(undo[i], a, next[i], b, j, r, c, f);
      SameButTwo(undo[i], a, next[i], b, j, c, r, n);
      assert Product(undo, a, i, j) == start[i][j];
    }
  }

  lemma SubtractCancels(x: real, y: real, u: real, v: real, f: real)
    ensures (x + f * y) * u + y * (v - f * u) == x * u + y * v
  {
    assert (f * y) * u == y * (f * u);
  }

  // ---------------------------------------------------------------- the elimination

  /** The first `done` columns are unit columns. */
  ghost predicate UnitColumns(a: Matrix, n: nat, done: nat)
    requires Shape(a, n, 2 * n) && done <= n
  {
    forall r, j :: 0 <= r < n && 0 <= j < done ==> a[r][j] == Unit(r, j)
  }

  /** Loop invariant of the elimination of `m`. */
  ghost predicate Eliminated(a: Matrix, m: Matrix, undo: Matrix, n: nat, done: nat) {
    && Shape(m, n, n) && Shape(a, n, 2 * n) && Shape(undo, n, n) && done <= n
    && LeftIsRightTimes(a, m, n)
    && Undoes(undo, a, Augmented(m), n)
    && UnitColumns(a, n, done)
  }

  /** The matrix with the identity appended. */
  function Augmented(m: Matrix): (a: Matrix)
    requires Shape(m, |m|, |m|)
    ensures Shape(a, |m|, 2 * |m|)
  {
    seq(|m|, i requires 0 <= i < |m| => m[i] + seq(|m|, j => Unit(i, j)))
  }

  ghost function Identity(n: nat): (id: Matrix)
    ensures Shape(id, n, n)
  {
    seq(n, i => seq(n, j => Unit(i, j)))
  }

  lemma StartIsEliminated(m: Matrix)
    requires Shape(m, |m|, |m|)
    ensures Eliminated(Augmented(m), m, Identity(|m|), |m|, 0)
  {
    var a, n := Augmented(m), |m|;
    forall r, j | 0 <= r < n && 0 <= j < n ensures a[r][j] == RowTimes(a[r], n, m, j, n) {
      RowTimesUnit(r, a[r], n, m, j, n);
    }
    forall i, j | 0 <= i < n && 0 <= j < 2 * n ensures Product(Identity(n), a, i, j) == a[i][j] {
      RowTimesUnit(i, Identity(n)[i], 0, a, j, n);
    }
  }

  /** First row from `column` on whose entry in that column is largest in magnitude. */
  method PivotRow(a: Matrix, n: nat, column: nat) returns (pivot: nat)
    requires Shape(a, n, 2 * n) && column < n
    ensures column <= pivot < n
    ensures forall r :: column <= r < n ==> Abs(a[r][column]) <= Abs(a[pivot][column])
    ensures forall r :: column <= r < pivot ==> Abs(a[r][column]) < Abs(a[pivot][column])
  {
    pivot := column;
    for row := column + 1 to n
      invariant column <= pivot < row
      invariant forall r :: column <= r < row ==> Abs(a[r][column]) <= Abs(a[pivot][column])
      invariant forall r :: column <= r < pivot ==> Abs(a[r][column]) < Abs(a[pivot][column])
    {
      if Abs(a[row][column]) > Abs(a[pivot][column]) {
        pivot := row;
      }
    }
  }

  lemma SwapStep(a: Matrix, m: Matrix, undo: Matrix, n: nat, column: nat, pivot: nat) returns (next: Matrix)
    requires Eliminated(a, m, undo, n, column) && column <= pivot < n
    ensures Eliminated(SwapRows(a, column, pivot), m, next, n, column)
  {
    next := SwapKeepsUndo(undo, a, Augmented(m), n, column, pivot);
    hide Undoes;
  }

  lemma ScaleStep(a: Matrix, m: Matrix, undo: Matrix, n: nat, column: nat) returns (next: Matrix)
    requires Eliminated(a, m, undo, n, column) && column < n && a[column][column] != 0.0
    ensures var b := ScaleRow(a, column, a[column][column]);
      Eliminated(b, m, next, n, column) && b[column][column] == 1.0
  {
    ScaleKeepsLeft(a, m, n, column, a[column][column]);
    next := ScaleKeepsUndo(undo, a, Augmented(m), n, column, a[column][column]);
    hide Undoes, LeftIsRightTimes;
    var s := a[column][column];
    Quotients(s);
    assert ScaleRow(a, column, s)[column][column] == s / s;
    forall j | 0 <= j < column ensures a[column][j] / s == 0.0 {
      assert a[column][j] == Unit(column, j);
    }
  }

  lemma Quotients(s: real)
    requires s != 0.0
    ensures s / s == 1.0 && 0.0 / s == 0.0
  {
  }

  /** Clearing the column in one other row. */
  lemma ClearStep(a: Matrix, m: Matrix, undo: Matrix, n: nat, column: nat, row: nat) returns (next: Matrix)
    requires Eliminated(a, m, undo, n, column) && column < n && a[column][column] == 1.0
    requires row < n && row != column
    ensures Eliminated(SubtractRow(a, row, column, a[row][column]), m, next, n, column)
  {
    SubtractKeepsLeft(a, m, n, row, column, a[row][column]);
    next := SubtractKeepsUndo(undo, a, Augmented(m), n, row, column, a[row][column]);
    forall j | 0 <= j < column ensures a[row][j] - a[row][column] * a[column][j] == Unit(row, j) {
      assert a[column][j] == 0.0;
    }
  }

  /** Clears the column in every row but its own. */
  method ClearColumn(before: Matrix, m: Matrix, n: nat, column: nat, ghost undoBefore: Matrix)
    returns (a: Matrix, ghost undo: Matrix)
    requires Eliminated(before, m, undoBefore, n, column) && column < n && before[column][column] == 1.0
    ensures Eliminated(a, m, undo, n, column + 1)
  {
    hide LeftIsRightTimes, Undoes;
    a, undo := before, undoBefore;
    for row := 0 to n
      invariant Eliminated(a, m, undo, n, column) && a[column] == before[column]
      invariant forall r :: 0 <= r < row && r != column ==> a[r][column] == 0.0
    {
      if row != column && a[row][column] != 0.0 {
        undo := ClearStep(a, m, undo, n, column, row);
        a := SubtractRow(a, row, column, a[row][column]);
      }
    }
  }

  /** A fully eliminated matrix holds a two-sided inverse in its right half. */
  lemma EliminatedIsInverse(a: Matrix, m: Matrix, undo: Matrix, n: nat, inverse: Matrix)
    requires Eliminated(a, m, undo, n, n)
    requires Shape(inverse, n, n) && forall i :: 0 <= i < n ==> inverse[i] == a[i][n..]
    ensures IsIdentityProduct(inverse, m, n) && IsIdentityProduct(m, inverse, n)
  {
    forall i, j | 0 <= i < n && 0 <= j < n ensures Product(inverse, m, i, j) == Unit(i, j) {
      RowTimesShifted(inverse[i], a[i], n, m, j, n);
    }
    forall i, j | 0 <= i < n && 0 <= j < n ensures undo[i][j] == m[i][j] {
      TimesUnitColumn(undo[i], a, j, n);
      assert Product(undo, a, i, j) == Augmented(m)[i][j];
    }
    forall i, j | 0 <= i < n && 0 <= j < n ensures Product(m, inverse, i, j) == Unit(i, j) {
      ColumnShifted(m[i], undo[i], inverse, a, n, j, n);
      assert Product(undo, a, i, n + j) == Augmented(m)[i][n + j];
    }
  }

  lemma {:induction false} RowTimesShifted(short: Row, long: Row, n: nat, m: Matrix, j: nat, count: nat)
    requires |long| == 2 * n && short == long[n..] && count <= n && count <= |m|
    requires forall i :: 0 <= i < |m| ==> j < |m[i]|
    ensures RowTimes(short, 0, m, j, count) == RowTimes(long, n, m, j, count)
  {
    if count > 0 {
      RowTimesShifted(short, long, n, m, j, count - 1);
    }
  }

  lemma {:induction false} ColumnShifted(x: Row, y: Row, short: Matrix, long: Matrix, n: nat, j: nat, count: nat)
    requires |x| == |y| == n && forall k :: 0 <= k < n ==> x[k] == y[k]
    requires Shape(short, n, n) && Shape(long, n, 2 * n) && j < n && count <= n
    requires forall i :: 0 <= i < n ==> short[i] == long[i][n..]
    ensures RowTimes(x, 0, short, j, count) == RowTimes(y, 0, long, n + j, count)
  {
    if count > 0 {
      ColumnShifted(x, y, short, long, n, j, count - 1);
    }
  }

  /**
   * Row operations that can be undone turn the first columns into unit columns
   * and leave nothing of size in the next column where a pivot is needed.
   */
  ghost predicate LacksPivot(m: Matrix, n: nat) {
    exists a: Matrix, undo: Matrix, column: nat ::
      column < n && Eliminated(a, m, undo, n, column) && Shape(a, n, 2 * n)
      && forall r :: column <= r < n ==> Abs(a[r][column]) < 0.000000000001
  }

  /** Whatever is returned multiplies the input, from either side, to the identity; nothing is only for want of a pivot. */
  method Invert(matrix: Matrix) returns (result: Inversion)
    requires Shape(matrix, |matrix|, |matrix|)
    ensures result.Inverse? ==>
      && Shape(result.matrix, |matrix|, |matrix|)
      && IsIdentityProduct(result.matrix, matrix, |matrix|)
      && IsIdentityProduct(matrix, result.matrix, |matrix|)
    ensures result.Singular? ==> LacksPivot(matrix, |matrix|)
  {
    hide Eliminated, LacksPivot;
    var size := |matrix|;
    var augmented := Augmented(matrix);
    ghost var undo := Identity(size);
    StartIsEliminated(matrix);
    for column := 0 to size
      invariant Shape(augmented, size, 2 * size) && Eliminated(augmented, matrix, undo, size, column)
    {
      var pivot := PivotRow(augmented, size, column);
      if Abs(augmented[pivot][column]) < SINGULAR_BELOW {
        NoPivot(augmented, matrix, undo, size, column, pivot);
        return Singular;
      }
      undo := SwapStep(augmented, matrix, undo, size, column, pivot);
      augmented := SwapRows(augmented, column, pivot);
      undo := ScaleStep(augmented, matrix, undo, size, column);
      var scale := augmented[column][column];
      augmented := ScaleRow(augmented, column, scale);
      augmented, undo := ClearColumn(augmented, matrix, size, column, undo);
      EliminatedShape(augmented, matrix, undo, size, column + 1);
    }
    var inverse := seq(size, i requires 0 <= i < size => augmented[i][size..]);
    EliminatedIsInverse(augmented, matrix, undo, size, inverse);
    result := Inverse(inverse);
  }

  lemma NoPivot(a: Matrix, m: Matrix, undo: Matrix, n: nat, column: nat, pivot: nat)
    requires column <= pivot < n && Eliminated(a, m, undo, n, column) && Shape(a, n, 2 * n)
    requires Abs(a[pivot][column]) < SINGULAR_BELOW
    requires forall r :: column <= r < n ==> Abs(a[r][column]) <= Abs(a[pivot][column])
    ensures LacksPivot(m, n)
  {
    hide Eliminated;
  }

  lemma EliminatedShape(a: Matrix, m: Matrix, undo: Matrix, n: nat, done: nat)
    requires Eliminated(a, m, undo, n, done)
    ensures Shape(a, n, 2 * n)
  {
  }
}
