/** Each elimination step keeps the solutions, and a regular system ends with its one solution in sight. */
module EliminationExact {
  import opened Products
  import opened Elimination

  // ---- Row operations and misses -------------------------------------------

  /** Entries from `col` on are those of `row`, and `row` is zero before. */
  ghost predicate ZeroBefore(row: Row, col: nat) { forall k :: 0 <= k < col && k < |row| ==> row[k] == 0.0 }

  lemma {:induction false} ReducedDot(row: Row, pivotRow: Row, col: nat, factor: real, x: Row, n: nat)
    requires |row| == |pivotRow| && n <= |row| && n <= |x| && ZeroBefore(pivotRow, col)
    ensures Dot(Reduced(row, pivotRow, col, factor), x, n) == Dot(row, x, n) - Times(factor, Dot(pivotRow, x, n))
  {
    if n == 0 {
      TimesUnits(factor);
    } else {
      ReducedDot(row, pivotRow, col, factor, x, n - 1);
      ReducedEntry(row, pivotRow, col, factor, n - 1);
      OneTerm(row[n - 1], factor, pivotRow[n - 1], x[n - 1], Dot(pivotRow, x, n - 1));
    }
  }

  /** The full row operation, although only the entries from `col` on are touched. */
  lemma ReducedEntry(row: Row, pivotRow: Row, col: nat, factor: real, k: nat)
    requires |row| == |pivotRow| && k < |row| && ZeroBefore(pivotRow, col)
    ensures Reduced(row, pivotRow, col, factor)[k] == row[k] - Times(factor, pivotRow[k])
  {
    TimesUnits(factor);
  }

  lemma OneTerm(a: real, f: real, b: real, x: real, rest: real)
    ensures Times(a - Times(f, b), x) == Times(a, x) - Times(f, Times(b, x))
    ensures Times(f, rest + Times(b, x)) == Times(f, rest) + Times(f, Times(b, x))
  {
    TimesAssociates(f, b, x);
    TimesAdds(x, a, -Times(f, b));
    TimesNegates(Times(f, b), x);
    TimesAdds(f, rest, Times(b, x));
  }

  lemma ReducedMiss(row: Row, pivotRow: Row, col: nat, factor: real, x: Row, p: nat)
    requires |row| == p + 1 == |pivotRow| && |x| == p && ZeroBefore(pivotRow, col)
    ensures Miss(Reduced(row, pivotRow, col, factor), x, p) == Miss(row, x, p) - Times(factor, Miss(pivotRow, x, p))
  {
    ReducedDot(row, pivotRow, col, factor, x, p);
    ReducedEntry(row, pivotRow, col, factor, p);
    TimesSubtracts(factor, Dot(pivotRow, x, p), pivotRow[p]);
  }

  lemma ScaledEntry(row: Row, col: nat, pivot: real, k: nat)
    requires k < |row| && ZeroBefore(row, col) && pivot != 0.0
    ensures Times(Scaled(row, col, pivot)[k], pivot) == row[k]
  {
    TimesUnits(pivot);
  }

  lemma {:induction false} ScaledDot(row: Row, col: nat, pivot: real, x: Row, n: nat)
    requires n <= |row| && n <= |x| && ZeroBefore(row, col) && pivot != 0.0
    ensures Dot(row, x, n) == Times(pivot, Dot(Scaled(row, col, pivot), x, n))
  {
    if n == 0 {
      TimesUnits(pivot);
    } else {
      var s := Scaled(row, col, pivot);
      ScaledDot(row, col, pivot, x, n - 1);
      ScaledEntry(row, col, pivot, n - 1);
      TimesAssociates(pivot, s[n - 1], x[n - 1]);
      TimesAssociates(s[n - 1], pivot, 0.0);
      TimesAdds(pivot, Dot(s, x, n - 1), Times(s[n - 1], x[n - 1]));
    }
  }

  lemma ScaledMiss(row: Row, col: nat, pivot: real, x: Row, p: nat)
    requires |row| == p + 1 && |x| == p && ZeroBefore(row, col) && pivot != 0.0
    ensures Miss(row, x, p) == 0.0 <==> Miss(Scaled(row, col, pivot), x, p) == 0.0
  {
    var s := Scaled(row, col, pivot);
    ScaledDot(row, col, pivot, x, p);
    ScaledEntry(row, col, pivot, p);
    TimesAssociates(s[p], pivot, 0.0);
    TimesSubtracts(pivot, Dot(s, x, p), s[p]);
    TimesUnits(pivot);
    if Miss(row, x, p) == 0.0 {
      TimesAssociates(pivot, Miss(s, x, p), 0.0);
      TimesZero(Miss(s, x, p), pivot);
    }
  }

  // ---- One column ----------------------------------------------------------

  /** Column `k` is that of the unit matrix. */
  ghost predicate UnitColumn(aug: Matrix, p: nat, k: nat)
    requires IsSystem(aug, p) && k < p
  {
    forall r {:trigger aug[r]} :: 0 <= r < p ==> aug[r][k] == if r == k then 1.0 else 0.0
  }

  ghost predicate UnitColumns(aug: Matrix, p: nat, col: nat)
    requires IsSystem(aug, p) && col <= p
  {
    forall k {:trigger UnitColumn(aug, p, k)} :: 0 <= k < col ==> UnitColumn(aug, p, k)
  }

  lemma UnitZeroBefore(aug: Matrix, p: nat, col: nat, r: nat)
    requires IsSystem(aug, p) && col <= r < p && UnitColumns(aug, p, col)
    ensures ZeroBefore(aug[r], col)
  {
    forall k | 0 <= k < col ensures aug[r][k] == 0.0 {
      assert UnitColumn(aug, p, k);
    }
  }

  lemma SwapKeeps(aug: Matrix, p: nat, col: nat, pr: nat)
    requires IsSystem(aug, p) && col <= pr < p && UnitColumns(aug, p, col)
    ensures UnitColumns(Swapped(aug, col, pr), p, col)
    ensures forall x: Row :: Solves(Swapped(aug, col, pr), x, p) <==> Solves(aug, x, p)
  {
    var s := Swapped(aug, col, pr);
    forall k | 0 <= k < col ensures UnitColumn(s, p, k) {
      assert UnitColumn(aug, p, k);
    }
    forall x: Row ensures Solves(s, x, p) <==> Solves(aug, x, p) {
      assert s[col] == aug[pr] && s[pr] == aug[col];
      assert forall r :: 0 <= r < p && r != col && r != pr ==> s[r] == aug[r];
      if Solves(s, x, p) {
        assert Miss(s[col], x, p) == 0.0 && Miss(s[pr], x, p) == 0.0;
        forall r | 0 <= r < p ensures Miss(aug[r], x, p) == 0.0 {
          assert r != col && r != pr ==> s[r] == aug[r] && Miss(s[r], x, p) == 0.0;
        }
      }
      if Solves(aug, x, p) {
        assert Miss(aug[col], x, p) == 0.0 && Miss(aug[pr], x, p) == 0.0;
        forall r | 0 <= r < p ensures Miss(s[r], x, p) == 0.0 {
          assert r != col && r != pr ==> s[r] == aug[r] && Miss(aug[r], x, p) == 0.0;
        }
      }
    }
  }

  lemma ClearedRow(aug: Matrix, p: nat, col: nat, r: nat, x: Row)
    requires IsSystem(aug, p) && col < p && r < p && |x| == p && ZeroBefore(aug[col], col) && aug[col][col] != 0.0
    ensures var c, pivotRow := Cleared(aug, p, col, p), Scaled(aug[col], col, aug[col][col]);
            Miss(c[r], x, p)
            == if r == col then Miss(pivotRow, x, p) else Miss(aug[r], x, p) - Times(aug[r][col], Miss(pivotRow, x, p))
  {
    var pivotRow := Scaled(aug[col], col, aug[col][col]);
    if r != col {
      assert ZeroBefore(pivotRow, col);
      ReducedMiss(aug[r], pivotRow, col, aug[r][col], x, p);
    }
  }

  lemma ClearKeepsSolutions(aug: Matrix, p: nat, col: nat, x: Row)
    requires IsSystem(aug, p) && col < p && ZeroBefore(aug[col], col) && aug[col][col] != 0.0
    ensures Solves(Cleared(aug, p, col, p), x, p) <==> Solves(aug, x, p)
  {
    if |x| == p {
      var c, pivotRow := Cleared(aug, p, col, p), Scaled(aug[col], col, aug[col][col]);
      ScaledMiss(aug[col], col, aug[col][col], x, p);
      ClearedRow(aug, p, col, col, x);
      if Miss(pivotRow, x, p) == 0.0 {
        forall r | 0 <= r < p && r != col ensures Miss(c[r], x, p) == Miss(aug[r], x, p) {
          ClearedRow(aug, p, col, r, x);
          TimesUnits(aug[r][col]);
        }
      }
      assert Solves(aug, x, p) ==> Miss(aug[col], x, p) == 0.0;
      assert Solves(c, x, p) ==> Miss(c[col], x, p) == 0.0;
    }
  }

  lemma ClearMakesUnit(aug: Matrix, p: nat, col: nat)
    requires IsSystem(aug, p) && col < p && UnitColumns(aug, p, col) && aug[col][col] != 0.0
    ensures UnitColumns(Cleared(aug, p, col, p), p, col + 1)
  {
    var c, pivot := Cleared(aug, p, col, p), aug[col][col];
    var pivotRow := Scaled(aug[col], col, pivot);
    TimesUnits(pivot);
    QuotientUnique(pivot, pivot, 1.0);
    forall k | 0 <= k < col + 1 ensures UnitColumn(c, p, k) {
      assert k < col ==> UnitColumn(aug, p, k);
      forall r | 0 <= r < p ensures c[r][k] == if r == k then 1.0 else 0.0 {
        TimesUnits(aug[r][col]);
        assert pivotRow[col] == 1.0;
      }
    }
  }

  /** A column whose pivot is large enough: solutions kept, one more unit column. */
  lemma ColumnKeeps(aug: Matrix, p: nat, col: nat)
    requires IsSystem(aug, p) && col < p && UnitColumns(aug, p, col)
    requires Abs(aug[PivotRow(aug, p, col, p)][col]) >= TINY
    ensures UnitColumns(ColumnStep(aug, p, col), p, col + 1)
    ensures forall x: Row :: Solves(ColumnStep(aug, p, col), x, p) <==> Solves(aug, x, p)
  {
    var pr := PivotRow(aug, p, col, p);
    var s := Swapped(aug, col, pr);
    assert s[col] == aug[pr];
    SwapKeeps(aug, p, col, pr);
    UnitZeroBefore(s, p, col, col);
    ClearMakesUnit(s, p, col);
    forall x: Row ensures Solves(ColumnStep(aug, p, col), x, p) <==> Solves(aug, x, p) {
      ClearKeepsSolutions(s, p, col, x);
    }
  }

  lemma {:induction false} EliminationKeeps(aug: Matrix, p: nat, col: nat)
    requires IsSystem(aug, p) && col <= p && UnitColumns(aug, p, col) && Regular(aug, p, col)
    ensures UnitColumns(Eliminated(aug, p, col), p, p)
    ensures forall x: Row :: Solves(Eliminated(aug, p, col), x, p) <==> Solves(aug, x, p)
    decreases p - col
  {
    if col < p {
      ColumnKeeps(aug, p, col);
      EliminationKeeps(ColumnStep(aug, p, col), p, col + 1);
    }
  }

  // ---- The solution --------------------------------------------------------

  lemma {:induction false} UnitDot(row: Row, x: Row, r: nat, n: nat)
    requires n <= |row| && n <= |x|
    requires forall k :: 0 <= k < n ==> row[k] == if k == r then 1.0 else 0.0
    ensures Dot(row, x, n) == if r < n then x[r] else 0.0
  {
    if n > 0 {
      UnitDot(row, x, r, n - 1);
      TimesUnits(x[n - 1]);
    }
  }

  function LastColumn(aug: Matrix, p: nat): Row
    requires IsSystem(aug, p)
  {
    seq(p, r requires 0 <= r < p => aug[r][p])
  }

  lemma UnitSolution(aug: Matrix, p: nat, x: Row)
    requires IsSystem(aug, p) && UnitColumns(aug, p, p)
    ensures Solves(aug, x, p) <==> x == LastColumn(aug, p)
  {
    if |x| == p {
      forall r | 0 <= r < p ensures Miss(aug[r], x, p) == x[r] - aug[r][p] {
        forall k | 0 <= k < p ensures aug[r][k] == if k == r then 1.0 else 0.0 {
          assert UnitColumn(aug, p, k);
        }
        UnitDot(aug[r], x, r, p);
      }
      if Solves(aug, x, p) {
        forall r | 0 <= r < p ensures x[r] == LastColumn(aug, p)[r] {
          assert Miss(aug[r], x, p) == 0.0;
        }
      }
    }
  }

  /** Whenever every chosen pivot is at least 1e-12, the last column is the one solution of the system. */
  lemma EliminationSolves(aug: Matrix, p: nat, x: Row)
    requires IsSystem(aug, p) && Regular(aug, p, 0)
    ensures Solves(aug, x, p) <==> x == LastColumn(Eliminated(aug, p, 0), p)
  {
    EliminationKeeps(aug, p, 0);
    UnitSolution(Eliminated(aug, p, 0), p, x);
  }
}
