/**
 * Rewriting preserves the rows a plan denotes, under conditions the rules themselves keep.
 */
module Soundness {
  import opened Plans
  import opened Rules
  import opened Execution
  import opened Folding

  // ---- The conditions ------------------------------------------------------

  /** A predicate cannot tell a row from its projection. */
  ghost predicate PushSafe(env: Env, p: Expr, exprs: seq<Expr>) {
    forall row :: Passes(p, env.project(exprs, row)) == Passes(p, row)
  }

  ghost predicate PassesAll(p: Expr) { forall row :: Passes(p, row) }

  ghost predicate ProjectFolds(env: Env, exprs: seq<Expr>) {
    forall row :: env.project(FoldAll(exprs), row) == env.project(exprs, row)
  }

  ghost predicate JoinFolds(env: Env, c: Expr) {
    forall l, r :: env.join(l, r, FoldExpr(c)) == env.join(l, r, c)
  }

  ghost predicate AggregateFolds(env: Env, g: seq<Expr>, a: seq<AggExpr>) {
    forall rows :: env.aggregate(rows, FoldAll(g), FoldAggs(a)) == env.aggregate(rows, g, a)
  }

  /** Folding does not turn a skipped sort key into a column. */
  predicate OrderSafe(o: seq<SortExpr>) {
    forall i :: 0 <= i < |o| ==> FoldExpr(o[i].expr).Column? ==> o[i].expr.Column?
  }

  /** The projections a filter may be pushed below: those reached through filters, limits, projections. */
  function ProjectsBelow(plan: Plan): set<seq<Expr>> {
    match plan
    case Filter(input, _) => ProjectsBelow(input)
    case Limit(input, _) => ProjectsBelow(input)
    case Project(input, exprs) => {exprs} + ProjectsBelow(input)
    case _ => {}
  }

  /** Whether pushing and eliding can bring a filter down onto a vector scan. */
  predicate OverVectorScan(plan: Plan) {
    match plan
    case VectorScan(_, _, _, _) => true
    case Filter(input, _) => OverVectorScan(input)
    case Project(input, _) => OverVectorScan(input)
    case _ => false
  }

  ghost predicate FilterOk(env: Env, input: Plan, p: Expr) {
    && FoldSafe(p)
    && (forall exprs {:trigger PushSafe(env, p, exprs)} :: exprs in ProjectsBelow(input) ==> PushSafe(env, p, exprs))
    && (OverVectorScan(input) && IsVectorDistPredicate(FoldExpr(p)) ==> PassesAll(p))
  }

  ghost predicate WellFormed(env: Env, plan: Plan) {
    match plan
    case Scan(_, p, projections) =>
      (p.Some? ==> FoldSafe(p.value)) && ProjectFolds(env, projections)
    case Filter(input, p) => WellFormed(env, input) && FilterOk(env, input, p)
    case Project(input, exprs) => WellFormed(env, input) && ProjectFolds(env, exprs)
    case Join(l, r, c) => WellFormed(env, l) && WellFormed(env, r) && JoinFolds(env, c)
    case Aggregate(input, g, a) => WellFormed(env, input) && AggregateFolds(env, g, a)
    case Sort(input, o) => WellFormed(env, input) && OrderSafe(o)
    case Limit(input, _) => WellFormed(env, input)
    case ContextOptimize(input, _) => WellFormed(env, input)
    case _ => true
  }

  /** A projection to the bare wildcard returns its row. */
  ghost predicate StarIsIdentity(env: Env) { forall row :: env.project([Star], row) == row }

  /** `after` denotes the rows of `before` and is as good a plan for every filter above it. */
  ghost predicate Replaces(env: Env, before: Plan, after: Plan) {
    && WellFormed(env, after)
    && Execute(env, after) == Execute(env, before)
    && ProjectsBelow(after) <= ProjectsBelow(before)
    && (OverVectorScan(after) ==> OverVectorScan(before))
  }

  // ---- Rows ----------------------------------------------------------------

  lemma {:induction false} FilterThroughProject(env: Env, p: Expr, exprs: seq<Expr>, rows: Rows)
    requires PushSafe(env, p, exprs)
    ensures FilterRows(p, ProjectRows(env, exprs, rows)) == ProjectRows(env, exprs, FilterRows(p, rows))
  {
    if rows != [] {
      FilterThroughProject(env, p, exprs, rows[1..]);
      var row, rest := env.project(exprs, rows[0]), ProjectRows(env, exprs, rows[1..]);
      assert Passes(p, row) == Passes(p, rows[0]);
      assert FilterRows(p, [row] + rest) == (if Passes(p, row) then [row] else []) + FilterRows(p, rest) by {
        assert ([row] + rest)[1..] == rest;
      }
      if Passes(p, rows[0]) {
        assert ([rows[0]] + FilterRows(p, rows[1..]))[1..] == FilterRows(p, rows[1..]);
      } else {
        assert FilterRows(p, rows) == FilterRows(p, rows[1..]);
      }
    }
  }

  lemma {:induction false} TruncateThroughProject(env: Env, exprs: seq<Expr>, rows: Rows, n: nat)
    ensures |ProjectRows(env, exprs, rows)| == |rows|
    ensures Truncate(ProjectRows(env, exprs, rows), n) == ProjectRows(env, exprs, Truncate(rows, n))
  {
    if rows == [] {
    } else {
      TruncateThroughProject(env, exprs, rows[1..], if n == 0 then 0 else n - 1);
      if 0 < n <= |rows| {
        assert rows[..n][1..] == rows[1..][..n - 1];
      }
    }
  }

  lemma {:induction false} ProjectStar(env: Env, rows: Rows)
    requires StarIsIdentity(env)
    ensures ProjectRows(env, [Star], rows) == rows
  {
    if rows != [] {
      ProjectStar(env, rows[1..]);
    }
  }

  lemma {:induction false} ProjectFolded(env: Env, exprs: seq<Expr>, rows: Rows)
    requires ProjectFolds(env, exprs)
    ensures ProjectRows(env, FoldAll(exprs), rows) == ProjectRows(env, exprs, rows)
  {
    if rows != [] {
      ProjectFolded(env, exprs, rows[1..]);
    }
  }

  lemma {:induction false} FilterFolded(p: Expr, rows: Rows)
    requires FoldSafe(p)
    ensures FilterRows(FoldExpr(p), rows) == FilterRows(p, rows)
  {
    if rows != [] {
      FoldKeepsPasses(p, rows[0]);
      FilterFolded(p, rows[1..]);
    }
  }

  lemma {:induction false} FilterNothing(p: Expr, rows: Rows)
    requires PassesAll(p)
    ensures FilterRows(p, rows) == rows
  {
    if rows != [] {
      FilterNothing(p, rows[1..]);
    }
  }

  lemma {:induction false} CompareFolded(a: Row, b: Row, o: seq<SortExpr>)
    requires OrderSafe(o)
    ensures CompareRows(a, b, FoldOrder(o)) == CompareRows(a, b, o)
  {
    if o != [] {
      CompareFolded(a, b, o[1..]);
    }
  }

  lemma {:induction false} PlaceFolded(x: Row, rows: Rows, o: seq<SortExpr>)
    requires OrderSafe(o)
    ensures PlaceRow(x, rows, FoldOrder(o)) == PlaceRow(x, rows, o)
  {
    if rows != [] {
      CompareFolded(x, rows[0], o);
      PlaceFolded(x, rows[1..], o);
    }
  }

  lemma {:induction false} SortFolded(rows: Rows, o: seq<SortExpr>)
    requires OrderSafe(o)
    ensures SortRows(rows, FoldOrder(o)) == SortRows(rows, o)
  {
    if rows != [] {
      SortFolded(rows[1..], o);
      PlaceFolded(rows[0], SortRows(rows[1..], o), o);
    }
  }

  lemma {:induction false} OrderFoldedSafe(o: seq<SortExpr>)
    ensures OrderSafe(FoldOrder(o))
  {
    if o != [] {
      OrderFoldedSafe(o[1..]);
      FoldTwice(o[0].expr);
      var f := FoldOrder(o);
      forall i | 0 <= i < |f| ensures FoldExpr(f[i].expr).Column? ==> f[i].expr.Column? {
        assert i > 0 ==> f[i] == FoldOrder(o[1..])[i - 1];
      }
    }
  }

  // ---- Rule by rule --------------------------------------------------------

  lemma FilterKept(env: Env, before: Plan, after: Plan, p: Expr)
    requires FilterOk(env, before, p)
    requires ProjectsBelow(after) <= ProjectsBelow(before) && (OverVectorScan(after) ==> OverVectorScan(before))
    ensures FilterOk(env, after, p)
  {
    forall exprs | exprs in ProjectsBelow(after) ensures PushSafe(env, p, exprs) {
      assert exprs in ProjectsBelow(before);
    }
  }

  lemma FilterSwaps(env: Env, child: Plan, exprs: seq<Expr>, p: Expr, child': Plan)
    requires WellFormed(env, Filter(Project(child, exprs), p)) && Replaces(env, child, child')
    ensures Replaces(env, Filter(Project(child, exprs), p), Project(Filter(child', p), exprs))
  {
    var input := Project(child, exprs);
    assert PushSafe(env, p, exprs);
    FilterThroughProject(env, p, exprs, Execute(env, child));
    FilterKept(env, input, child', p);
    assert OverVectorScan(Project(Filter(child', p), exprs)) == OverVectorScan(Filter(child', p)) == OverVectorScan(child');
    assert OverVectorScan(Filter(input, p)) == OverVectorScan(input) == OverVectorScan(child);
  }

  lemma LimitSwaps(env: Env, child: Plan, exprs: seq<Expr>, n: nat, child': Plan)
    requires WellFormed(env, Limit(Project(child, exprs), n)) && Replaces(env, child, child')
    ensures Replaces(env, Limit(Project(child, exprs), n), Project(Limit(child', n), exprs))
  {
    TruncateThroughProject(env, exprs, Execute(env, child), n);
    assert !OverVectorScan(Limit(child', n));
  }

  lemma {:induction false} PushdownReplaces(env: Env, plan: Plan)
    requires WellFormed(env, plan)
    ensures Replaces(env, plan, PredicatePushdown(plan))
  {
    match plan
    case Filter(Project(child, exprs), p) =>
      PushdownReplaces(env, child);
      FilterSwaps(env, child, exprs, p, PredicatePushdown(child));
    case Filter(input, p) =>
      PushdownReplaces(env, input);
      FilterKept(env, input, PredicatePushdown(input), p);
    case Project(input, _) => PushdownReplaces(env, input);
    case Join(l, r, _) =>
      PushdownReplaces(env, l);
      PushdownReplaces(env, r);
    case Aggregate(input, _, _) => PushdownReplaces(env, input);
    case Sort(input, _) => PushdownReplaces(env, input);
    case Limit(input, _) => PushdownReplaces(env, input);
    case ContextOptimize(input, _) => PushdownReplaces(env, input);
    case _ =>
  }

  lemma {:induction false} LimitReplaces(env: Env, plan: Plan)
    requires WellFormed(env, plan)
    ensures Replaces(env, plan, LimitPushdown(plan))
  {
    match plan
    case Limit(Project(child, exprs), n) =>
      LimitReplaces(env, child);
      LimitSwaps(env, child, exprs, n, LimitPushdown(child));
    case Limit(input, _) => LimitReplaces(env, input);
    case Filter(input, p) =>
      LimitReplaces(env, input);
      FilterKept(env, input, LimitPushdown(input), p);
    case Project(input, _) => LimitReplaces(env, input);
    case Join(l, r, _) =>
      LimitReplaces(env, l);
      LimitReplaces(env, r);
    case Aggregate(input, _, _) => LimitReplaces(env, input);
    case Sort(input, _) => LimitReplaces(env, input);
    case ContextOptimize(input, _) => LimitReplaces(env, input);
    case _ =>
  }

  lemma {:induction false} EliminateReplaces(env: Env, plan: Plan)
    requires WellFormed(env, plan) && StarIsIdentity(env)
    ensures Replaces(env, plan, EliminateRedundantProject(plan))
  {
    match plan
    case Project(input, exprs) =>
      EliminateReplaces(env, input);
      if exprs == [Star] {
        ProjectStar(env, Execute(env, input));
      }
    case Filter(input, p) =>
      EliminateReplaces(env, input);
      FilterKept(env, input, EliminateRedundantProject(input), p);
    case Join(l, r, _) =>
      EliminateReplaces(env, l);
      EliminateReplaces(env, r);
    case Aggregate(input, _, _) => EliminateReplaces(env, input);
    case Sort(input, _) => EliminateReplaces(env, input);
    case Limit(input, _) => EliminateReplaces(env, input);
    case ContextOptimize(input, _) => EliminateReplaces(env, input);
    case _ =>
  }

  lemma {:induction false} ElideReplaces(env: Env, plan: Plan)
    requires WellFormed(env, plan)
    ensures Replaces(env, plan, VectorScanElideFilter(plan))
  {
    match plan
    case Filter(input, p) =>
      if input.VectorScan? && IsVectorDistPredicate(p) {
        assert IsVectorDistPredicate(FoldExpr(p));
        FilterNothing(p, Execute(env, input));
      } else {
        ElideReplaces(env, input);
        FilterKept(env, input, VectorScanElideFilter(input), p);
      }
    case Project(input, _) => ElideReplaces(env, input);
    case Join(l, r, _) =>
      ElideReplaces(env, l);
      ElideReplaces(env, r);
    case Aggregate(input, _, _) => ElideReplaces(env, input);
    case Sort(input, _) => ElideReplaces(env, input);
    case Limit(input, _) => ElideReplaces(env, input);
    case ContextOptimize(input, _) => ElideReplaces(env, input);
    case _ =>
  }

  // Folding renames projections, so it keeps filters safe in its own way.

  ghost predicate FoldReplaces(env: Env, before: Plan, after: Plan) {
    && WellFormed(env, after)
    && Execute(env, after) == Execute(env, before)
    && ProjectsBelow(after) == (set exprs | exprs in ProjectsBelow(before) :: FoldAll(exprs))
    && OverVectorScan(after) == OverVectorScan(before)
  }

  lemma {:induction false} BelowFolds(env: Env, plan: Plan, exprs: seq<Expr>)
    requires WellFormed(env, plan) && exprs in ProjectsBelow(plan)
    ensures ProjectFolds(env, exprs)
  {
    match plan
    case Filter(input, _) => BelowFolds(env, input, exprs);
    case Limit(input, _) => BelowFolds(env, input, exprs);
    case Project(input, own) => if exprs != own { BelowFolds(env, input, exprs); }
  }

  lemma FoldedPushSafe(env: Env, p: Expr, exprs: seq<Expr>)
    requires FoldSafe(p) && PushSafe(env, p, exprs) && ProjectFolds(env, exprs)
    ensures PushSafe(env, FoldExpr(p), FoldAll(exprs))
  {
    forall row ensures Passes(FoldExpr(p), env.project(FoldAll(exprs), row)) == Passes(FoldExpr(p), row) {
      FoldKeepsPasses(p, row);
      FoldKeepsPasses(p, env.project(exprs, row));
      assert env.project(FoldAll(exprs), row) == env.project(exprs, row);
      assert Passes(p, env.project(exprs, row)) == Passes(p, row);
    }
  }

  lemma FoldedFilterOk(env: Env, before: Plan, after: Plan, p: Expr)
    requires WellFormed(env, before) && FilterOk(env, before, p) && FoldReplaces(env, before, after)
    ensures FilterOk(env, after, FoldExpr(p))
  {
    FoldedIsSafe(p);
    FoldTwice(p);
    forall folded | folded in ProjectsBelow(after) ensures PushSafe(env, FoldExpr(p), folded) {
      var exprs :| exprs in ProjectsBelow(before) && folded == FoldAll(exprs);
      BelowFolds(env, before, exprs);
      FoldedPushSafe(env, p, exprs);
    }
    if PassesAll(p) {
      forall row ensures Passes(FoldExpr(p), row) {
        FoldKeepsPasses(p, row);
      }
    }
  }

  lemma ProjectFoldsTwice(env: Env, exprs: seq<Expr>)
    requires ProjectFolds(env, exprs)
    ensures ProjectFolds(env, FoldAll(exprs))
  {
    FoldAllTwice(exprs);
  }

  lemma {:induction false} ConstantFoldReplaces(env: Env, plan: Plan)
    requires WellFormed(env, plan)
    ensures FoldReplaces(env, plan, ConstantFold(plan))
  {
    match plan
    case Filter(input, p) =>
      ConstantFoldReplaces(env, input);
      FoldedFilterOk(env, input, ConstantFold(input), p);
      FilterFolded(p, Execute(env, input));
    case Project(input, exprs) =>
      ConstantFoldReplaces(env, input);
      ProjectFolded(env, exprs, Execute(env, input));
      ProjectFoldsTwice(env, exprs);
    case Join(l, r, c) =>
      ConstantFoldReplaces(env, l);
      ConstantFoldReplaces(env, r);
      FoldTwice(c);
    case Aggregate(input, g, a) =>
      ConstantFoldReplaces(env, input);
      FoldAllTwice(g);
      FoldAggsTwice(a);
    case Sort(input, o) =>
      ConstantFoldReplaces(env, input);
      SortFolded(Execute(env, input), o);
      OrderFoldedSafe(o);
    case Limit(input, _) => ConstantFoldReplaces(env, input);
    case ContextOptimize(input, _) => ConstantFoldReplaces(env, input);
    case Scan(c, p, projections) => ScanFolded(env, c, p, projections);
    case _ =>
  }

  lemma ScanFolded(env: Env, c: string, p: Option<Expr>, projections: seq<Expr>)
    requires WellFormed(env, Scan(c, p, projections))
    ensures FoldReplaces(env, Scan(c, p, projections), ConstantFold(Scan(c, p, projections)))
  {
    var kept := if p.Some? then FilterRows(p.value, env.scan(c)) else env.scan(c);
    if p.Some? {
      FilterFolded(p.value, env.scan(c));
      FoldedIsSafe(p.value);
    }
    ProjectFolded(env, projections, kept);
    ProjectFoldsTwice(env, projections);
  }

  // ---- The optimizer -------------------------------------------------------

  /** One pass keeps the rows and the conditions. */
  lemma PassSound(env: Env, plan: Plan)
    requires WellFormed(env, plan) && StarIsIdentity(env)
    ensures WellFormed(env, ApplyAllRules(plan)) && Execute(env, ApplyAllRules(plan)) == Execute(env, plan)
  {
    var p1 := PredicatePushdown(plan);
    PushdownReplaces(env, plan);
    var p2 := LimitPushdown(p1);
    LimitReplaces(env, p1);
    var p3 := EliminateRedundantProject(p2);
    EliminateReplaces(env, p2);
    var p4 := ConstantFold(p3);
    ConstantFoldReplaces(env, p3);
    ElideReplaces(env, p4);
  }

  /** Any number of passes keeps the rows of every well-formed plan. */
  lemma {:induction false} OptimizeSound(env: Env, plan: Plan, n: nat)
    requires WellFormed(env, plan) && StarIsIdentity(env)
    ensures WellFormed(env, OptimizeWithin(plan, n)) && Execute(env, OptimizeWithin(plan, n)) == Execute(env, plan)
    decreases n
  {
    if n > 0 && ApplyAllRules(plan) != plan {
      PassSound(env, plan);
      OptimizeSound(env, ApplyAllRules(plan), n - 1);
    }
  }
}
