/** Constant folding: idempotent, with the exact condition on a comparison for leaving it what it was. */
module Folding {
  import opened Plans
  import opened Rules
  import opened Execution
  import opened Comparisons

  // ---- Idempotence ---------------------------------------------------------

  lemma {:induction false} FoldTwice(e: Expr)
    ensures FoldExpr(FoldExpr(e)) == FoldExpr(e)
    decreases e, 1
  {
    match e
    case Binary(op, l, r) =>
      FoldTwice(l);
      FoldTwice(r);
    case Unary(_, x) => FoldTwice(x);
    case Call(_, args) => FoldAllTwice(args);
    case _ =>
  }

  lemma {:induction false} FoldAllTwice(es: seq<Expr>)
    ensures FoldAll(FoldAll(es)) == FoldAll(es)
    decreases es, 0
  {
    if es != [] {
      FoldTwice(es[0]);
      FoldAllTwice(es[1..]);
    }
  }

  lemma {:induction false} FoldAllAt(es: seq<Expr>, i: nat)
    requires i < |es|
    ensures |FoldAll(es)| == |es| && FoldAll(es)[i] == FoldExpr(es[i])
  {
    if i > 0 {
      FoldAllAt(es[1..], i - 1);
    } else if |es| > 1 {
      FoldAllAt(es[1..], 0);
    }
  }

  lemma {:induction false} FoldAggsTwice(a: seq<AggExpr>)
    ensures FoldAggs(FoldAggs(a)) == FoldAggs(a)
  {
    if a != [] {
      FoldTwice(a[0].arg);
      FoldAggsTwice(a[1..]);
    }
  }

  lemma {:induction false} FoldOrderTwice(o: seq<SortExpr>)
    ensures FoldOrder(FoldOrder(o)) == FoldOrder(o)
  {
    if o != [] {
      FoldTwice(o[0].expr);
      FoldOrderTwice(o[1..]);
    }
  }

  // ---- Comparisons ---------------------------------------------------------

  /** Folding an operand to a literal does not change what the test of column `c` against it tells. */
  predicate SameOperand(c: string, op: BinaryOp, e: Expr) {
    var folded := FoldExpr(e);
    folded.Lit? && !e.Lit? ==> if UserColumn(c) then !Matches(op, folded) else ColumnNeverFails(c, op, folded)
  }

  /**
   * Folding the operands of a test does not change it: it makes no literal the tested column can
   * meet, and no new tested column unless the test cannot fail or stays as undecided.
   */
  predicate SameComparison(op: BinaryOp, l: Expr, r: Expr) {
    var left, right := FoldExpr(l), FoldExpr(r);
    if l.Column? then SameOperand(l.name, op, r)
    else if !r.Column? then NeverFails(op, left, right)
    else if left.Column? then UserColumn(left.name) == UserColumn(r.name)
    else SameOperand(r.name, FlipOp(op), l)
  }

  ghost predicate SameTest(a: Expr, b: Expr) {
    forall row :: Passes(a, row) == Passes(b, row)
  }

  /** A column test against what is no literal: met by undecoded payloads alone. */
  lemma NoLiteral(c: string, op: BinaryOp, e: Expr, row: Row)
    requires !e.Lit?
    ensures EvalColumn(c, op, e, row) <==> !UserColumn(c) || row.data.None?
  {
  }

  lemma SameOperandPasses(c: string, op: BinaryOp, e: Expr, row: Row)
    requires SameOperand(c, op, e)
    ensures EvalColumn(c, op, FoldExpr(e), row) == EvalColumn(c, op, e, row)
  {
    var folded := FoldExpr(e);
    if !e.Lit? {
      NoLiteral(c, op, e, row);
      if !folded.Lit? {
        NoLiteral(c, op, folded, row);
      } else if !UserColumn(c) {
        ColumnPasses(c, op, folded, row);
      } else if row.data.Some? {
        UnmatchedFails(c, op, folded, row);
      }
    }
  }

  lemma OtherOperandDiffers(c: string, op: BinaryOp, e: Expr) returns (row: Row)
    requires !SameOperand(c, op, e)
    ensures row.data.Some? && EvalColumn(c, op, FoldExpr(e), row) != EvalColumn(c, op, e, row)
  {
    var folded := FoldExpr(e);
    if UserColumn(c) {
      row := Meeting(c, op, folded);
      MeetingPasses(c, op, folded);
    } else {
      row := ColumnFails(c, op, folded);
    }
    NoLiteral(c, op, e, row);
  }

  lemma SwappedTest(op: BinaryOp, l: Expr, c: string, row: Row)
    requires !l.Column?
    ensures c != "_confidence" ==> EvalBinary(op, l, Column(c), row) == EvalColumn(c, FlipOp(op), l, row)
    ensures ExtractFloat(l).None? ==> EvalBinary(op, l, Column(c), row) == EvalColumn(c, FlipOp(op), l, row)
  {
  }

  lemma ComparisonKept(op: BinaryOp, l: Expr, r: Expr, row: Row)
    requires SameComparison(op, l, r)
    ensures EvalBinary(op, FoldExpr(l), FoldExpr(r), row) == EvalBinary(op, l, r, row)
  {
    var left, right := FoldExpr(l), FoldExpr(r);
    if l.Column? {
      SameOperandPasses(l.name, op, r, row);
    } else if !r.Column? {
      BinaryPasses(op, left, right, row);
    } else if left.Column? {
      NoLiteral(r.name, FlipOp(op), l, row);
      NoLiteral(left.name, op, right, row);
    } else if l.Lit? {
      assert left == l;
    } else {
      SwappedKept(op, l, r.name, row);
    }
  }

  lemma SwappedKept(op: BinaryOp, l: Expr, c: string, row: Row)
    requires !l.Lit? && !l.Column? && !FoldExpr(l).Column? && SameOperand(c, FlipOp(op), l)
    ensures EvalBinary(op, FoldExpr(l), Column(c), row) == EvalBinary(op, l, Column(c), row)
  {
    var left := FoldExpr(l);
    SwappedTest(op, l, c, row);
    SwappedTest(op, left, c, row);
    SameOperandPasses(c, FlipOp(op), l, row);
    if c == "_confidence" && ExtractFloat(left).Some? {
      assert !Ordering(op);
    }
  }

  lemma ComparisonDiffers(op: BinaryOp, l: Expr, r: Expr) returns (row: Row)
    requires !SameComparison(op, l, r)
    ensures row.data.Some? && EvalBinary(op, FoldExpr(l), FoldExpr(r), row) != EvalBinary(op, l, r, row)
  {
    var left, right := FoldExpr(l), FoldExpr(r);
    if l.Column? {
      row := OtherOperandDiffers(l.name, op, r);
    } else if !r.Column? {
      row := BinaryFails(op, left, right);
    } else if left.Column? {
      row := BaseRow();
      NoLiteral(r.name, FlipOp(op), l, row);
      NoLiteral(left.name, op, right, row);
    } else {
      row := SwappedDiffers(op, l, r.name);
    }
  }

  lemma SwappedDiffers(op: BinaryOp, l: Expr, c: string) returns (row: Row)
    requires !l.Column? && !FoldExpr(l).Column? && !SameOperand(c, FlipOp(op), l)
    ensures row.data.Some? && EvalBinary(op, FoldExpr(l), Column(c), row) != EvalBinary(op, l, Column(c), row)
  {
    var left := FoldExpr(l);
    if c == "_confidence" && ExtractFloat(left).Some? {
      row := SwappedConfidenceFails(op, ExtractFloat(left).value);
      NoLiteral(c, FlipOp(op), l, row);
    } else {
      row := OtherOperandDiffers(c, FlipOp(op), l);
      SwappedTest(op, left, c, row);
    }
    SwappedTest(op, l, c, row);
  }

  /**
   * Exactly when folding leaves a comparison what it was, for every operator and either operand
   * order: a check on the operator, the operands and their folded forms.
   */
  lemma ComparisonFoldExact(op: BinaryOp, l: Expr, r: Expr)
    requires op != And && op != Or
    ensures SameTest(FoldExpr(Binary(op, l, r)), Binary(op, l, r)) <==> SameComparison(op, l, r)
  {
    var test := Binary(op, l, r);
    if SameComparison(op, l, r) {
      forall row ensures Passes(FoldExpr(test), row) == Passes(test, row) {
        ComparisonKept(op, l, r, row);
      }
    } else {
      var row := ComparisonDiffers(op, l, r);
      assert Passes(FoldExpr(test), row) != Passes(test, row);
    }
  }

  /** Folding an equality test on a payload field is unsound when it makes a literal the field can equal. */
  lemma EqualityFoldExact(c: string, r: Expr)
    requires UserColumn(c)
    ensures var test := Binary(Eq, Column(c), r);
            SameTest(FoldExpr(test), test) <==> (Comparable(FoldExpr(r)) ==> Comparable(r))
  {
    ComparisonFoldExact(Eq, Column(c), r);
  }

  // ---- Predicates ----------------------------------------------------------

  /** Folding leaves every comparison of a predicate what it was. */
  predicate FoldSafe(e: Expr) {
    match e
    case Binary(And, l, r) => FoldSafe(l) && FoldSafe(r)
    case Binary(Or, l, r) => FoldSafe(l) && FoldSafe(r)
    case Unary(Not, x) => FoldSafe(x)
    case Binary(op, l, r) => SameComparison(op, l, r)
    case _ => true
  }

  /** The filter operator sees no difference between a safe predicate and its folded form. */
  lemma {:induction false} FoldKeepsPasses(e: Expr, row: Row)
    requires FoldSafe(e)
    ensures Passes(FoldExpr(e), row) == Passes(e, row)
  {
    match e
    case Binary(op, l, r) =>
      if op == And || op == Or {
        FoldKeepsPasses(l, row);
        FoldKeepsPasses(r, row);
      } else {
        ComparisonKept(op, l, r, row);
      }
    case Unary(op, x) =>
      if op == Not {
        FoldKeepsPasses(x, row);
      }
    case _ =>
  }

  /** A folded predicate is safe to fold again. */
  lemma {:induction false} FoldedIsSafe(e: Expr)
    ensures FoldSafe(FoldExpr(e))
  {
    match e
    case Binary(op, l, r) =>
      FoldedIsSafe(l);
      FoldedIsSafe(r);
      FoldTwice(l);
      FoldTwice(r);
    case Unary(_, x) => FoldedIsSafe(x);
    case _ =>
  }
}
