/**
 * Ordinary least squares: the normal equations built from the observations, solved by elimination, and
 * the proof that the solution has the least residual sum of squares of all coefficient vectors.
 */
module Regression {
  import opened Products
  import opened Elimination
  import opened EliminationExact

  /** `n` observations of `p` regressors. */
  predicate IsDesign(xs: Matrix, y: Row, p: nat) {
    |xs| == |y| && forall i :: 0 <= i < |xs| ==> |xs[i]| == p
  }

  // ---- The normal equations ------------------------------------------------

  /** Sum over the first `n` observations of the product of two regressors. */
  ghost function Gram(xs: Matrix, j: nat, k: nat, n: nat): real
    requires n <= |xs| && forall i :: 0 <= i < n ==> j < |xs[i]| && k < |xs[i]|
  {
    if n == 0 then 0.0 else Gram(xs, j, k, n - 1) + Times(xs[n - 1][j], xs[n - 1][k])
  }

  ghost function Moment(xs: Matrix, y: Row, j: nat, n: nat): real
    requires n <= |xs| && n <= |y| && forall i :: 0 <= i < n ==> j < |xs[i]|
  {
    if n == 0 then 0.0 else Moment(xs, y, j, n - 1) + Times(xs[n - 1][j], y[n - 1])
  }

  ghost function NormalEntry(xs: Matrix, y: Row, p: nat, j: nat, k: nat, n: nat): real
    requires IsDesign(xs, y, p) && j < p && k <= p && n <= |xs|
  {
    if k < p then Gram(xs, j, k, n) else Moment(xs, y, j, n)
  }

  ghost function NormalRow(xs: Matrix, y: Row, p: nat, j: nat, n: nat): (row: Row)
    requires IsDesign(xs, y, p) && j < p && n <= |xs|
    ensures |row| == p + 1
  {
    seq(p + 1, k requires 0 <= k < p + 1 => NormalEntry(xs, y, p, j, k, n))
  }

  /** The system (A^T A | A^T b) of the first `n` observations. */
  ghost function NormalSystem(xs: Matrix, y: Row, p: nat, n: nat): (aug: Matrix)
    requires IsDesign(xs, y, p) && n <= |xs|
    ensures IsSystem(aug, p)
  {
    seq(p, j requires 0 <= j < p => NormalRow(xs, y, p, j, n))
  }

  method AddToRow(row0: Row, xs: Matrix, y: Row, p: nat, j: nat, i: nat) returns (row: Row)
    requires IsDesign(xs, y, p) && j < p && i < |xs| && row0 == NormalRow(xs, y, p, j, i)
    ensures row == NormalRow(xs, y, p, j, i + 1)
  {
    row := row0;
    for k := 0 to p
      invariant |row| == p + 1
      invariant forall h :: 0 <= h < p + 1 ==>
                  row[h] == NormalEntry(xs, y, p, j, h, if h < k then i + 1 else i)
    {
      var t := Multiply(xs[i][j], xs[i][k]);
      row := row[k := row[k] + t];
    }
    var t := Multiply(xs[i][j], y[i]);
    row := row[p := row[p] + t];
    forall h | 0 <= h < p + 1 ensures row[h] == NormalRow(xs, y, p, j, i + 1)[h] {}
  }

  method BuildNormalSystem(xs: Matrix, y: Row, p: nat) returns (aug: Matrix)
    requires IsDesign(xs, y, p)
    ensures aug == NormalSystem(xs, y, p, |xs|)
  {
    aug := seq(p, j requires 0 <= j < p => seq(p + 1, k requires 0 <= k < p + 1 => 0.0));
    forall j | 0 <= j < p ensures aug[j] == NormalRow(xs, y, p, j, 0) {
      forall k | 0 <= k < p + 1 ensures aug[j][k] == NormalRow(xs, y, p, j, 0)[k] {}
    }
    for i := 0 to |xs|
      invariant aug == NormalSystem(xs, y, p, i)
    {
      for j := 0 to p
        invariant |aug| == p
        invariant forall h :: 0 <= h < p ==> aug[h] == NormalRow(xs, y, p, h, if h < j then i + 1 else i)
      {
        var row := AddToRow(aug[j], xs, y, p, j, i);
        aug := aug[j := row];
      }
      assert aug == NormalSystem(xs, y, p, i + 1);
    }
  }

  /**
   * The coefficients of the regression: none for no data, zeros for fewer observations than
   * regressors, else the right-hand sides left by the elimination.
   */
  method OlsCoefficients(xs: Matrix, y: Row, p: nat) returns (beta: Row)
    requires IsDesign(xs, y, p)
    ensures xs == [] ==> beta == []
    ensures 0 < |xs| < p ==> beta == Zeros(p)
    ensures xs != [] && |xs| >= p ==> beta == LastColumn(Eliminated(NormalSystem(xs, y, p, |xs|), p, 0), p)
    ensures xs != [] && |xs| >= p && Regular(NormalSystem(xs, y, p, |xs|), p, 0) ==> LeastSquares(xs, y, p, beta)
  {
    if xs == [] {
      return [];
    }
    if |xs| < p {
      return Zeros(p);
    }
    var aug := BuildNormalSystem(xs, y, p);
    var solved := GaussJordan(aug, p);
    beta := LastColumn(solved, p);
    if Regular(aug, p, 0) {
      SolutionIsLeastSquares(xs, y, p, beta);
    }
  }

  function Zeros(p: nat): Row { seq(p, i => 0.0) }

  // ---- What the solution means ---------------------------------------------

  /** How far the fit misses the `i`-th observation. */
  ghost function Error(xs: Matrix, y: Row, p: nat, b: Row, i: nat): real
    requires IsDesign(xs, y, p) && |b| == p && i < |xs|
  {
    Dot(xs[i], b, p) - y[i]
  }

  /** Sum of regressor `j` times the error over the first `n` observations. */
  ghost function Cross(xs: Matrix, y: Row, p: nat, b: Row, j: nat, n: nat): real
    requires IsDesign(xs, y, p) && |b| == p && j < p && n <= |xs|
  {
    if n == 0 then 0.0 else Cross(xs, y, p, b, j, n - 1) + Times(xs[n - 1][j], Error(xs, y, p, b, n - 1))
  }

  /** Residual sum of squares of the first `n` observations. */
  ghost function Rss(xs: Matrix, y: Row, p: nat, b: Row, n: nat): real
    requires IsDesign(xs, y, p) && |b| == p && n <= |xs|
  {
    if n == 0 then 0.0
    else Rss(xs, y, p, b, n - 1) + Times(Error(xs, y, p, b, n - 1), Error(xs, y, p, b, n - 1))
  }

  /** No coefficient vector has a smaller residual sum of squares; the errors are orthogonal to every regressor. */
  ghost predicate LeastSquares(xs: Matrix, y: Row, p: nat, b: Row)
    requires IsDesign(xs, y, p)
  {
    && |b| == p
    && (forall j {:trigger Cross(xs, y, p, b, j, |xs|)} :: 0 <= j < p ==> Cross(xs, y, p, b, j, |xs|) == 0.0)
    && (forall c: Row {:trigger Rss(xs, y, p, c, |xs|)} :: |c| == p ==> Rss(xs, y, p, b, |xs|) <= Rss(xs, y, p, c, |xs|))
  }

  /** One observation adds its regressor's multiple to a row of the system. */
  lemma {:induction false} NormalDot(xs: Matrix, y: Row, p: nat, j: nat, n: nat, b: Row, k: nat)
    requires IsDesign(xs, y, p) && j < p && n < |xs| && |b| == p && k <= p
    ensures Dot(NormalRow(xs, y, p, j, n + 1), b, k)
         == Dot(NormalRow(xs, y, p, j, n), b, k) + Times(xs[n][j], Dot(xs[n], b, k))
  {
    if k == 0 {
      TimesUnits(xs[n][j]);
    } else {
      NormalDot(xs, y, p, j, n, b, k - 1);
      TimesAdds(b[k - 1], Gram(xs, j, k - 1, n), Times(xs[n][j], xs[n][k - 1]));
      TimesAssociates(xs[n][j], xs[n][k - 1], b[k - 1]);
      TimesAdds(xs[n][j], Dot(xs[n], b, k - 1), Times(xs[n][k - 1], b[k - 1]));
    }
  }

  /** Missing the `j`-th normal equation is having errors that regressor `j` still explains. */
  lemma {:induction false} MissIsCross(xs: Matrix, y: Row, p: nat, j: nat, n: nat, b: Row)
    requires IsDesign(xs, y, p) && j < p && n <= |xs| && |b| == p
    ensures Miss(NormalRow(xs, y, p, j, n), b, p) == Cross(xs, y, p, b, j, n)
    decreases n
  {
    if n == 0 {
      ZeroDot(NormalRow(xs, y, p, j, 0), b, p);
    } else {
      MissIsCross(xs, y, p, j, n - 1, b);
      NormalDot(xs, y, p, j, n - 1, b, p);
      assert NormalRow(xs, y, p, j, n)[p] == NormalRow(xs, y, p, j, n - 1)[p] + Times(xs[n - 1][j], y[n - 1]);
      TimesSubtracts(xs[n - 1][j], Dot(xs[n - 1], b, p), y[n - 1]);
    }
  }

  lemma {:induction false} ZeroDot(row: Row, b: Row, k: nat)
    requires k <= |row| && k <= |b| && forall i :: 0 <= i < k ==> row[i] == 0.0
    ensures Dot(row, b, k) == 0.0
  {
    if k > 0 {
      ZeroDot(row, b, k - 1);
      TimesUnits(b[k - 1]);
    }
  }

  function Difference(c: Row, b: Row): Row
    requires |c| == |b|
  {
    seq(|b|, i requires 0 <= i < |b| => c[i] - b[i])
  }

  lemma {:induction false} DotDifference(row: Row, c: Row, b: Row, k: nat)
    requires |c| == |b| && k <= |row| && k <= |b|
    ensures Dot(row, c, k) == Dot(row, b, k) + Dot(row, Difference(c, b), k)
  {
    if k > 0 {
      DotDifference(row, c, b, k - 1);
      TimesAdds(row[k - 1], b[k - 1], c[k - 1] - b[k - 1]);
    }
  }

  /** Sum of the errors times what the first `k` coefficients of `d` predict. */
  ghost function Explained(xs: Matrix, y: Row, p: nat, b: Row, d: Row, k: nat, n: nat): real
    requires IsDesign(xs, y, p) && |b| == p == |d| && k <= p && n <= |xs|
  {
    if n == 0 then 0.0
    else Explained(xs, y, p, b, d, k, n - 1) + Times(Error(xs, y, p, b, n - 1), Dot(xs[n - 1], d, k))
  }

  lemma {:induction false} ExplainedStep(xs: Matrix, y: Row, p: nat, b: Row, d: Row, k: nat, n: nat)
    requires IsDesign(xs, y, p) && |b| == p == |d| && k < p && n <= |xs|
    ensures Explained(xs, y, p, b, d, k + 1, n)
         == Explained(xs, y, p, b, d, k, n) + Times(Cross(xs, y, p, b, k, n), d[k])
    decreases n
  {
    if n == 0 {
      TimesUnits(d[k]);
    } else {
      ExplainedStep(xs, y, p, b, d, k, n - 1);
      var e, x := Error(xs, y, p, b, n - 1), xs[n - 1][k];
      TimesAdds(e, Dot(xs[n - 1], d, k), Times(x, d[k]));
      TimesAssociates(e, x, d[k]);
      TimesAssociates(x, e, 0.0);
      TimesAdds(d[k], Cross(xs, y, p, b, k, n - 1), Times(x, e));
    }
  }

  /** Errors orthogonal to every regressor are orthogonal to every prediction. */
  lemma {:induction false} NothingExplained(xs: Matrix, y: Row, p: nat, b: Row, d: Row, k: nat)
    requires IsDesign(xs, y, p) && |b| == p == |d| && k <= p
    requires forall j {:trigger Cross(xs, y, p, b, j, |xs|)} :: 0 <= j < p ==> Cross(xs, y, p, b, j, |xs|) == 0.0
    ensures Explained(xs, y, p, b, d, k, |xs|) == 0.0
  {
    if k == 0 {
      ExplainedNone(xs, y, p, b, d, |xs|);
    } else {
      NothingExplained(xs, y, p, b, d, k - 1);
      ExplainedStep(xs, y, p, b, d, k - 1, |xs|);
      TimesUnits(d[k - 1]);
    }
  }

  lemma {:induction false} ExplainedNone(xs: Matrix, y: Row, p: nat, b: Row, d: Row, n: nat)
    requires IsDesign(xs, y, p) && |b| == p == |d| && n <= |xs|
    ensures Explained(xs, y, p, b, d, 0, n) == 0.0
  {
    if n > 0 {
      ExplainedNone(xs, y, p, b, d, n - 1);
      TimesUnits(Error(xs, y, p, b, n - 1));
    }
  }

  lemma SquareGrows(e: real, d: real)
    ensures Times(e + d, e + d) >= Times(e, e) + Times(e, d) + Times(e, d)
  {
    TimesAdds(e + d, e, d);
    TimesAdds(e, e, d);
    TimesAdds(d, e, d);
    TimesAssociates(d, e, 0.0);
    TimesIs(d, d);
  }

  lemma {:induction false} RssGrows(xs: Matrix, y: Row, p: nat, b: Row, c: Row, n: nat)
    requires IsDesign(xs, y, p) && |b| == p == |c| && n <= |xs|
    ensures Rss(xs, y, p, c, n)
         >= Rss(xs, y, p, b, n) + 2.0 * Explained(xs, y, p, b, Difference(c, b), p, n)
    decreases n
  {
    if n > 0 {
      RssGrows(xs, y, p, b, c, n - 1);
      DotDifference(xs[n - 1], c, b, p);
      SquareGrows(Error(xs, y, p, b, n - 1), Dot(xs[n - 1], Difference(c, b), p));
    }
  }

  /** The solution of a regular normal system is the least-squares fit. */
  lemma SolutionIsLeastSquares(xs: Matrix, y: Row, p: nat, b: Row)
    requires IsDesign(xs, y, p) && Regular(NormalSystem(xs, y, p, |xs|), p, 0)
    requires b == LastColumn(Eliminated(NormalSystem(xs, y, p, |xs|), p, 0), p)
    ensures LeastSquares(xs, y, p, b)
  {
    var aug := NormalSystem(xs, y, p, |xs|);
    EliminationSolves(aug, p, b);
    forall j | 0 <= j < p ensures Cross(xs, y, p, b, j, |xs|) == 0.0 {
      assert Miss(aug[j], b, p) == 0.0;
      MissIsCross(xs, y, p, j, |xs|, b);
    }
    forall c: Row | |c| == p ensures Rss(xs, y, p, b, |xs|) <= Rss(xs, y, p, c, |xs|) {
      RssGrows(xs, y, p, b, c, |xs|);
      NothingExplained(xs, y, p, b, Difference(c, b), p);
    }
  }

  /** Sum of squared differences between observations and predictions. */
  method ResidualSumSquares(xs: Matrix, y: Row, p: nat, b: Row) returns (rss: real)
    requires IsDesign(xs, y, p) && |b| == p
    ensures rss == Rss(xs, y, p, b, |xs|)
  {
    rss := 0.0;
    for i := 0 to |xs|
      invariant rss == Rss(xs, y, p, b, i)
    {
      var predicted := 0.0;
      for j := 0 to p
        invariant predicted == Dot(xs[i], b, j)
      {
        var t := Multiply(xs[i][j], b[j]);
        predicted := predicted + t;
      }
      var residual := y[i] - predicted;
      var square := Multiply(residual, residual);
      TimesNegates(residual, residual);
      TimesNegates(residual, -residual);
      rss := rss + square;
    }
  }

  // ---- Nested models -------------------------------------------------------

  /** The wider design starts every row with the narrower one's. */
  ghost predicate Nests(narrow: Matrix, wide: Matrix, p: nat) {
    |narrow| == |wide| && forall i :: 0 <= i < |wide| ==> |narrow[i]| == p && narrow[i] <= wide[i]
  }

  lemma {:induction false} PaddedDot(row: Row, longer: Row, b: Row, zeros: nat, k: nat)
    requires row <= longer && |b| == |row| && |row| + zeros == |longer| && k <= |longer|
    ensures Dot(longer, b + Zeros(zeros), k) == Dot(row, b, if k <= |row| then k else |row|)
  {
    if k > 0 {
      PaddedDot(row, longer, b, zeros, k - 1);
      if k > |row| {
        TimesUnits(longer[k - 1]);
      }
    }
  }

  lemma {:induction false} PaddedRss(narrow: Matrix, wide: Matrix, y: Row, p: nat, q: nat, b: Row, n: nat)
    requires IsDesign(narrow, y, p) && IsDesign(wide, y, q) && Nests(narrow, wide, p) && p <= q && |b| == p && n <= |y|
    ensures Rss(wide, y, q, b + Zeros(q - p), n) == Rss(narrow, y, p, b, n)
    decreases n
  {
    if n > 0 {
      PaddedRss(narrow, wide, y, p, q, b, n - 1);
      PaddedDot(narrow[n - 1], wide[n - 1], b, q - p, q);
    }
  }

  /**
   * Adding regressors never worsens the fit: the unrestricted model's residual sum of squares is at most
   * that of any fit of the restricted one, so the F statistic's numerator is never negative.
   */
  lemma NestedModels(narrow: Matrix, wide: Matrix, y: Row, p: nat, q: nat, b: Row, c: Row)
    requires IsDesign(narrow, y, p) && IsDesign(wide, y, q) && Nests(narrow, wide, p) && p <= q
    requires |b| == p && LeastSquares(wide, y, q, c)
    ensures Rss(wide, y, q, c, |y|) <= Rss(narrow, y, p, b, |y|)
  {
    PaddedRss(narrow, wide, y, p, q, b, |y|);
    assert Rss(wide, y, q, c, |wide|) <= Rss(wide, y, q, b + Zeros(q - p), |wide|);
  }
}
