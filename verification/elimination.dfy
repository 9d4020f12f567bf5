/**
 * Gauss-Jordan elimination with partial pivoting on a square system with its right-hand sides: each
 * step keeps the set of solutions, and when no pivot is too small the last column is the one solution.
 */
module Elimination {
  import opened Products

  type Row = seq<real>

  /** Rows of one length. */
  type Matrix = seq<Row>

  const TINY: real := 0.000_000_000_001

  function Abs(x: real): (r: real)
    ensures r >= 0.0 && (r == x || r == -x)
  {
    if x < 0.0 then -x else x
  }

  ghost function Dot(a: Row, b: Row, n: nat): real
    requires n <= |a| && n <= |b|
  {
    if n == 0 then 0.0 else Dot(a, b, n - 1) + Times(a[n - 1], b[n - 1])
  }

  /** `p` rows of `p` coefficients and a right-hand side. */
  predicate IsSystem(aug: Matrix, p: nat) {
    |aug| == p && forall r :: 0 <= r < p ==> |aug[r]| == p + 1
  }

  /** By how much an equation is missed. */
  ghost function Miss(row: Row, x: Row, p: nat): real
    requires |row| == p + 1 && |x| == p
  {
    Dot(row, x, p) - row[p]
  }

  ghost predicate Solves(aug: Matrix, x: Row, p: nat)
    requires IsSystem(aug, p)
  {
    |x| == p && forall r {:trigger aug[r]} :: 0 <= r < p ==> Miss(aug[r], x, p) == 0.0
  }

  // ---- Row operations as functions -----------------------------------------

  /** The row from column `col` on, divided by the pivot. */
  ghost function Scaled(row: Row, col: nat, pivot: real): (r: Row)
    requires pivot != 0.0
    ensures |r| == |row|
  {
    seq(|row|, k requires 0 <= k < |row| => if k < col then row[k] else Quotient(row[k], pivot))
  }

  /** The row from column `col` on, less a multiple of the pivot row. */
  ghost function Reduced(row: Row, pivotRow: Row, col: nat, factor: real): (r: Row)
    requires |row| == |pivotRow|
    ensures |r| == |row|
  {
    seq(|row|, k requires 0 <= k < |row| => if k < col then row[k] else row[k] - Times(factor, pivotRow[k]))
  }

  /** First row at or below `col`, before `n`, with the largest entry in that column. */
  function PivotRow(aug: Matrix, p: nat, col: nat, n: nat): (r: nat)
    requires IsSystem(aug, p) && col < n <= p
    ensures col <= r < n
    ensures forall i :: col <= i < n ==> Abs(aug[i][col]) <= Abs(aug[r][col])
    ensures forall i :: col <= i < r ==> Abs(aug[i][col]) < Abs(aug[r][col])
    decreases n
  {
    if n == col + 1 then col
    else
      var r := PivotRow(aug, p, col, n - 1);
      if Abs(aug[n - 1][col]) > Abs(aug[r][col]) then n - 1 else r
  }

  function Swapped(aug: Matrix, i: nat, j: nat): Matrix
    requires i < |aug| && j < |aug|
  {
    aug[i := aug[j]][j := aug[i]]
  }

  /** What one column does to the system: nothing when its pivot is tiny. */
  ghost function ColumnStep(aug: Matrix, p: nat, col: nat): (r: Matrix)
    requires IsSystem(aug, p) && col < p
    ensures IsSystem(r, p)
  {
    var pr := PivotRow(aug, p, col, p);
    if Abs(aug[pr][col]) < TINY then aug
    else Cleared(Swapped(aug, col, pr), p, col, p)
  }

  /** The pivot row scaled and the first `n` rows reduced by it. */
  ghost function Cleared(aug: Matrix, p: nat, col: nat, n: nat): (r: Matrix)
    requires IsSystem(aug, p) && col < p && n <= p && aug[col][col] != 0.0
    ensures IsSystem(r, p)
  {
    var pivotRow := Scaled(aug[col], col, aug[col][col]);
    seq(p, r requires 0 <= r < p =>
      if r == col then pivotRow else if r < n then Reduced(aug[r], pivotRow, col, aug[r][col]) else aug[r])
  }

  /** Elimination from column `col` on. */
  ghost function Eliminated(aug: Matrix, p: nat, col: nat): (r: Matrix)
    requires IsSystem(aug, p) && col <= p
    ensures IsSystem(r, p)
    decreases p - col
  {
    if col == p then aug else Eliminated(ColumnStep(aug, p, col), p, col + 1)
  }

  /** Every pivot chosen from column `col` on is large enough. */
  ghost predicate Regular(aug: Matrix, p: nat, col: nat)
    requires IsSystem(aug, p) && col <= p
    decreases p - col
  {
    col < p ==> Abs(aug[PivotRow(aug, p, col, p)][col]) >= TINY && Regular(ColumnStep(aug, p, col), p, col + 1)
  }

  // ---- The loops -----------------------------------------------------------

  method FindPivot(aug: Matrix, p: nat, col: nat) returns (pivotRow: nat, maxVal: real)
    requires IsSystem(aug, p) && col < p
    ensures pivotRow == PivotRow(aug, p, col, p) && maxVal == Abs(aug[pivotRow][col])
  {
    pivotRow, maxVal := col, Abs(aug[col][col]);
    for r := col + 1 to p
      invariant pivotRow == PivotRow(aug, p, col, r) && maxVal == Abs(aug[pivotRow][col])
    {
      var v := Abs(aug[r][col]);
      if v > maxVal {
        maxVal, pivotRow := v, r;
      }
    }
  }

  method ScaleRow(row0: Row, p: nat, col: nat, pivot: real) returns (row: Row)
    requires |row0| == p + 1 && col <= p && pivot != 0.0
    ensures row == Scaled(row0, col, pivot)
  {
    row := row0;
    for k := col to p + 1
      invariant |row| == p + 1
      invariant forall i :: 0 <= i < p + 1 ==> row[i] == if col <= i < k then Quotient(row0[i], pivot) else row0[i]
    {
      var q := Divide(row[k], pivot);
      row := row[k := q];
    }
  }

  method ReduceRow(row0: Row, pivotRow: Row, p: nat, col: nat, factor: real) returns (row: Row)
    requires |row0| == p + 1 == |pivotRow| && col <= p
    ensures row == Reduced(row0, pivotRow, col, factor)
  {
    row := row0;
    for k := col to p + 1
      invariant |row| == p + 1
      invariant forall i :: 0 <= i < p + 1 ==>
                  row[i] == if col <= i < k then row0[i] - Times(factor, pivotRow[i]) else row0[i]
    {
      var t := Multiply(factor, pivotRow[k]);
      row := row[k := row[k] - t];
    }
  }

  method ClearColumn(aug0: Matrix, p: nat, col: nat) returns (aug: Matrix)
    requires IsSystem(aug0, p) && col < p && aug0[col][col] != 0.0
    ensures aug == Cleared(aug0, p, col, p)
  {
    var pivotRow := ScaleRow(aug0[col], p, col, aug0[col][col]);
    aug := aug0[col := pivotRow];
    for r := 0 to p
      invariant aug == Cleared(aug0, p, col, r)
    {
      if r == col {
        assert Cleared(aug0, p, col, r + 1) == Cleared(aug0, p, col, r);
        continue;
      }
      var reduced := ReduceRow(aug[r], aug[col], p, col, aug[r][col]);
      aug := aug[r := reduced];
    }
  }

  /** One column: find its pivot, and unless that is tiny bring it up and clear the rest. */
  method EliminateColumn(aug0: Matrix, p: nat, col: nat) returns (aug: Matrix)
    requires IsSystem(aug0, p) && col < p
    ensures aug == ColumnStep(aug0, p, col)
  {
    var pivotRow, maxVal := FindPivot(aug0, p, col);
    if maxVal < TINY {
      return aug0;
    }
    aug := ClearColumn(Swapped(aug0, col, pivotRow), p, col);
  }

  /** Eliminate column by column, skipping those whose pivot is tiny. */
  method GaussJordan(aug0: Matrix, p: nat) returns (aug: Matrix)
    requires IsSystem(aug0, p)
    ensures aug == Eliminated(aug0, p, 0)
  {
    aug := aug0;
    for col := 0 to p
      invariant IsSystem(aug, p) && Eliminated(aug, p, col) == Eliminated(aug0, p, 0)
    {
      aug := EliminateColumn(aug, p, col);
    }
  }
}
