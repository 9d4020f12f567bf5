/**
 * The conditions for the executor as it stands and for one that really projects columns, as checks
 * on the plan's syntax, with the exact limits of each rewrite.
 */
module ExecutorResults {
  import opened Plans
  import opened Rules
  import opened Execution
  import opened Comparisons
  import opened Folding
  import opened Soundness

  // ---- When a filter above a vector scan may go ------------------------------

  lemma PassesAllExact(p: Expr)
    requires IsVectorDistPredicate(p)
    ensures PassesAll(p) <==> NeverFails(p.op, p.left, p.right)
  {
    NeverFailsExact(p.op, p.left, p.right);
    assert forall row :: Passes(p, row) == EvalBinary(p.op, p.left, p.right, row);
  }

  /** Over every stored collection and every distance, the scan alone gives what filter and scan give. */
  ghost predicate ElisionSound(vs: Plan, p: Expr) {
    forall scan: string -> Rows, distance: (seq<real>, seq<real>) -> real ::
      Execute(ExecutorEnv(scan, distance), Filter(vs, p)) == Execute(ExecutorEnv(scan, distance), vs)
  }

  /**
   * Exactly when the elision rule is right about a filter it removes: when no record can fail its
   * test. A test on a payload column is never among those.
   */
  lemma ElisionExact(vs: Plan, p: Expr)
    requires vs.VectorScan? && IsVectorDistPredicate(p)
    ensures VectorScanElideFilter(Filter(vs, p)) == vs
    ensures ElisionSound(vs, p) <==> NeverFails(p.op, p.left, p.right)
  {
    PassesAllExact(p);
    if PassesAll(p) {
      forall scan: string -> Rows, distance: (seq<real>, seq<real>) -> real
        ensures Execute(ExecutorEnv(scan, distance), Filter(vs, p)) == Execute(ExecutorEnv(scan, distance), vs)
      {
        FilterNothing(p, Execute(ExecutorEnv(scan, distance), vs));
      }
    } else {
      var bad: Row :| !Passes(p, bad);
      var row := bad.(vectors := map[vs.vectorField := []]);
      assert !Passes(p, row);
      var scan := (c: string) => [row];
      var distance := (a: seq<real>, b: seq<real>) => vs.threshold - 1.0;
      var env := ExecutorEnv(scan, distance);
      assert NearRows(env, vs.vectorField, vs.query, vs.threshold, []) == [];
      assert env.distance(vs.query, row.vectors[vs.vectorField]) < vs.threshold;
      assert [row][1..] == [];
      assert NearRows(env, vs.vectorField, vs.query, vs.threshold, [row]) == [row];
      assert Execute(env, vs) == [row];
      assert FilterRows(p, []) == [];
      assert Execute(env, Filter(vs, p)) == [];
    }
  }

  // ---- The executor as it stands ---------------------------------------------

  predicate FilterSafe(input: Plan, p: Expr) {
    && FoldSafe(p)
    && (OverVectorScan(input) && IsVectorDistPredicate(FoldExpr(p)) ==>
          var f := FoldExpr(p); NeverFails(f.op, f.left, f.right))
  }

  /** What the pass-through executor needs of a plan: a check on its syntax. */
  predicate ExecutorSafe(plan: Plan) {
    match plan
    case Scan(_, p, _) => p.Some? ==> FoldSafe(p.value)
    case Filter(input, p) => ExecutorSafe(input) && FilterSafe(input, p)
    case Project(input, _) => ExecutorSafe(input)
    case Join(l, r, _) => ExecutorSafe(l) && ExecutorSafe(r)
    case Aggregate(input, _, _) => ExecutorSafe(input)
    case Sort(input, o) => ExecutorSafe(input) && OrderSafe(o)
    case Limit(input, _) => ExecutorSafe(input)
    case ContextOptimize(input, _) => ExecutorSafe(input)
    case _ => true
  }

  lemma SafeFilterPasses(input: Plan, p: Expr)
    requires FilterSafe(input, p) && OverVectorScan(input) && IsVectorDistPredicate(FoldExpr(p))
    ensures PassesAll(p)
  {
    PassesAllExact(FoldExpr(p));
    forall row ensures Passes(p, row) {
      FoldKeepsPasses(p, row);
      assert Passes(FoldExpr(p), row);
    }
  }

  lemma SafeFilterOk(env: Env, input: Plan, p: Expr)
    requires FilterSafe(input, p)
    requires forall exprs :: exprs in ProjectsBelow(input) ==> PushSafe(env, p, exprs)
    ensures FilterOk(env, input, p)
  {
    if OverVectorScan(input) && IsVectorDistPredicate(FoldExpr(p)) {
      SafeFilterPasses(input, p);
    }
  }

  lemma {:induction false} ExecutorSafeWellFormed(scan: string -> Rows, distance: (seq<real>, seq<real>) -> real, plan: Plan)
    requires ExecutorSafe(plan)
    ensures WellFormed(ExecutorEnv(scan, distance), plan)
  {
    var env := ExecutorEnv(scan, distance);
    match plan
    case Filter(input, p) =>
      ExecutorSafeWellFormed(scan, distance, input);
      forall exprs ensures PushSafe(env, p, exprs) {}
      SafeFilterOk(env, input, p);
    case Project(input, exprs) => ExecutorSafeWellFormed(scan, distance, input);
    case Join(l, r, _) =>
      ExecutorSafeWellFormed(scan, distance, l);
      ExecutorSafeWellFormed(scan, distance, r);
    case Aggregate(input, _, _) => ExecutorSafeWellFormed(scan, distance, input);
    case Sort(input, _) => ExecutorSafeWellFormed(scan, distance, input);
    case Limit(input, _) => ExecutorSafeWellFormed(scan, distance, input);
    case ContextOptimize(input, _) => ExecutorSafeWellFormed(scan, distance, input);
    case _ =>
  }

  /** The executor returns the same rows for the optimized plan as for the plan. */
  lemma ExecutorUnchanged(scan: string -> Rows, distance: (seq<real>, seq<real>) -> real, plan: Plan)
    requires ExecutorSafe(plan)
    ensures var env := ExecutorEnv(scan, distance);
            Execute(env, OptimizeWithin(plan, MAX_PASSES)) == Execute(env, plan)
  {
    ExecutorSafeWellFormed(scan, distance, plan);
    OptimizeSound(ExecutorEnv(scan, distance), plan, MAX_PASSES);
  }

  // ---- An executor that projects columns -------------------------------------

  predicate Keeps(exprs: seq<Expr>, c: string) { Star in exprs || !UserColumn(c) || Column(c) in exprs }

  /** The column a comparison tests is kept, or no stored value meets the comparison. */
  predicate ReadKept(exprs: seq<Expr>, op: BinaryOp, l: Expr, r: Expr) {
    if l.Column? then Keeps(exprs, l.name) || !Matches(op, r)
    else if r.Column? then Keeps(exprs, r.name) || !Matches(FlipOp(op), l)
    else true
  }

  /** The projection keeps every payload column on which the predicate's comparisons depend. */
  predicate KeepsTested(exprs: seq<Expr>, p: Expr) {
    match p
    case Binary(And, l, r) => KeepsTested(exprs, l) && KeepsTested(exprs, r)
    case Binary(Or, l, r) => KeepsTested(exprs, l) && KeepsTested(exprs, r)
    case Unary(Not, x) => KeepsTested(exprs, x)
    case Binary(op, l, r) => ReadKept(exprs, op, l, r)
    case _ => true
  }

  lemma KeptColumn(exprs: seq<Expr>, c: string, op: BinaryOp, lit: Expr, row: Row)
    requires Keeps(exprs, c) || !Matches(op, lit)
    ensures EvalColumn(c, op, lit, KeepColumns(exprs, row)) == EvalColumn(c, op, lit, row)
  {
    if UserColumn(c) && row.data.Some? && !Matches(op, lit) {
      UnmatchedFails(c, op, lit, row);
      UnmatchedFails(c, op, lit, KeepColumns(exprs, row));
    }
  }

  lemma KeptComparison(exprs: seq<Expr>, op: BinaryOp, l: Expr, r: Expr, row: Row)
    requires ReadKept(exprs, op, l, r)
    ensures EvalBinary(op, l, r, KeepColumns(exprs, row)) == EvalBinary(op, l, r, row)
  {
    if l.Column? {
      KeptColumn(exprs, l.name, op, r, row);
    } else if r.Column? {
      KeptColumn(exprs, r.name, FlipOp(op), l, row);
    }
  }

  lemma {:induction false} KeptPasses(exprs: seq<Expr>, p: Expr, row: Row)
    requires KeepsTested(exprs, p)
    ensures Passes(p, KeepColumns(exprs, row)) == Passes(p, row)
  {
    match p
    case Binary(op, l, r) =>
      if op == And || op == Or {
        KeptPasses(exprs, l, row);
        KeptPasses(exprs, r, row);
      } else {
        KeptComparison(exprs, op, l, r, row);
      }
    case Unary(op, x) => if op == Not { KeptPasses(exprs, x, row); }
    case _ =>
  }

  /** Folding makes no projection expression a column or a wildcard. */
  predicate ListSafe(exprs: seq<Expr>) {
    forall i :: 0 <= i < |exprs| ==>
      FoldExpr(exprs[i]).Column? || FoldExpr(exprs[i]).Star? ==> exprs[i].Column? || exprs[i].Star?
  }

  lemma FoldedList(exprs: seq<Expr>, e: Expr)
    requires ListSafe(exprs) && (e.Column? || e.Star?)
    ensures e in FoldAll(exprs) <==> e in exprs
  {
    if e in exprs {
      var i :| 0 <= i < |exprs| && exprs[i] == e;
      FoldAllAt(exprs, i);
    }
    if e in FoldAll(exprs) {
      FoldAllLength(exprs);
      var i :| 0 <= i < |exprs| && FoldAll(exprs)[i] == e;
      FoldAllAt(exprs, i);
    }
  }

  lemma {:induction false} FoldAllLength(exprs: seq<Expr>)
    ensures |FoldAll(exprs)| == |exprs|
  {
    if exprs != [] {
      FoldAllLength(exprs[1..]);
    }
  }

  lemma ListFolds(exprs: seq<Expr>, row: Row)
    requires ListSafe(exprs)
    ensures KeepColumns(FoldAll(exprs), row) == KeepColumns(exprs, row)
  {
    FoldedList(exprs, Star);
    if Star !in exprs && row.data.Some? {
      forall c ensures Column(c) in FoldAll(exprs) <==> Column(c) in exprs {
        FoldedList(exprs, Column(c));
      }
      assert (map c | c in row.data.value && Column(c) in exprs :: row.data.value[c])
          == (map c | c in row.data.value && Column(c) in FoldAll(exprs) :: row.data.value[c]);
    }
  }

  /** What a column-projecting executor needs of a plan besides. */
  predicate ColumnSafe(plan: Plan) {
    match plan
    case Scan(_, p, projections) => (p.Some? ==> FoldSafe(p.value)) && ListSafe(projections)
    case Filter(input, p) =>
      ColumnSafe(input) && FilterSafe(input, p)
      && forall exprs :: exprs in ProjectsBelow(input) ==> KeepsTested(exprs, p)
    case Project(input, exprs) => ColumnSafe(input) && ListSafe(exprs)
    case Join(l, r, _) => ColumnSafe(l) && ColumnSafe(r)
    case Aggregate(input, _, _) => ColumnSafe(input)
    case Sort(input, o) => ColumnSafe(input) && OrderSafe(o)
    case Limit(input, _) => ColumnSafe(input)
    case ContextOptimize(input, _) => ColumnSafe(input)
    case _ => true
  }

  lemma ColumnProjectFolds(env: Env, exprs: seq<Expr>)
    requires env.project == KeepColumns && ListSafe(exprs)
    ensures ProjectFolds(env, exprs)
  {
    forall row ensures env.project(FoldAll(exprs), row) == env.project(exprs, row) {
      ListFolds(exprs, row);
    }
  }

  lemma {:induction false} ColumnSafeWellFormed(scan: string -> Rows, distance: (seq<real>, seq<real>) -> real, plan: Plan)
    requires ColumnSafe(plan)
    ensures WellFormed(ColumnEnv(scan, distance), plan)
  {
    var env := ColumnEnv(scan, distance);
    match plan
    case Scan(_, _, projections) => ColumnProjectFolds(env, projections);
    case Filter(input, p) =>
      ColumnSafeWellFormed(scan, distance, input);
      forall exprs | exprs in ProjectsBelow(input) ensures PushSafe(env, p, exprs) {
        forall row ensures Passes(p, env.project(exprs, row)) == Passes(p, row) {
          KeptPasses(exprs, p, row);
        }
      }
      SafeFilterOk(env, input, p);
    case Project(input, exprs) =>
      ColumnSafeWellFormed(scan, distance, input);
      ColumnProjectFolds(env, exprs);
    case Join(l, r, _) =>
      ColumnSafeWellFormed(scan, distance, l);
      ColumnSafeWellFormed(scan, distance, r);
    case Aggregate(input, _, _) => ColumnSafeWellFormed(scan, distance, input);
    case Sort(input, _) => ColumnSafeWellFormed(scan, distance, input);
    case Limit(input, _) => ColumnSafeWellFormed(scan, distance, input);
    case ContextOptimize(input, _) => ColumnSafeWellFormed(scan, distance, input);
    case _ =>
  }

  /** Real column projection leaves the optimizer sound for the plans it may push through. */
  lemma ColumnExecutorUnchanged(scan: string -> Rows, distance: (seq<real>, seq<real>) -> real, plan: Plan)
    requires ColumnSafe(plan)
    ensures var env := ColumnEnv(scan, distance);
            Execute(env, OptimizeWithin(plan, MAX_PASSES)) == Execute(env, plan)
  {
    var env := ColumnEnv(scan, distance);
    ColumnSafeWellFormed(scan, distance, plan);
    assert StarIsIdentity(env) by {
      assert Star in [Star];
    }
    OptimizeSound(env, plan, MAX_PASSES);
  }

  /** A record that tells a dropped column: it meets the comparison, and without the column fails. */
  lemma DroppedDiffers(exprs: seq<Expr>, op: BinaryOp, l: Expr, r: Expr) returns (row: Row)
    requires !ReadKept(exprs, op, l, r)
    ensures row.data.Some? && EvalBinary(op, l, r, KeepColumns(exprs, row)) != EvalBinary(op, l, r, row)
  {
    if l.Column? {
      row := Meeting(l.name, op, r);
      MeetingPasses(l.name, op, r);
    } else {
      row := Meeting(r.name, FlipOp(op), l);
      MeetingPasses(r.name, FlipOp(op), l);
    }
  }

  /**
   * Exactly when a comparison may be pushed below a projection, for every operator and either
   * operand order: when the projection keeps the column it tests, or nothing stored can meet it.
   */
  lemma PushExact(scan: string -> Rows, distance: (seq<real>, seq<real>) -> real, op: BinaryOp, l: Expr, r: Expr, exprs: seq<Expr>)
    requires op != And && op != Or
    ensures PushSafe(ColumnEnv(scan, distance), Binary(op, l, r), exprs) <==> ReadKept(exprs, op, l, r)
  {
    var env, p := ColumnEnv(scan, distance), Binary(op, l, r);
    if ReadKept(exprs, op, l, r) {
      forall row ensures Passes(p, env.project(exprs, row)) == Passes(p, row) {
        KeptPasses(exprs, p, row);
      }
    } else {
      var row := DroppedDiffers(exprs, op, l, r);
      assert Passes(p, env.project(exprs, row)) != Passes(p, row);
    }
  }
}
