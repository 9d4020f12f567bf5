/**
 * How many passes a plan needs: a filter or limit sinks one projection a pass, waiting for those
 * below it, so what must be crossed decides whether eight passes are enough.
 */
module PassCounts {
  import opened Plans
  import opened Rules
  import opened Convergence
  import opened Folding

  // ---- What stands above what ----------------------------------------------

  /** Projections in the run of filters, limits and projections at the top of a plan. */
  function Ahead(plan: Plan): nat {
    match plan
    case Project(input, _) => 1 + Ahead(input)
    case Filter(input, _) => Ahead(input)
    case Limit(input, _) => Ahead(input)
    case _ => 0
  }

  /**
   * Every projection under a filter or limit of its run has at most `b` of these above it and
   * projections below it, counted together; `h` filters and limits stand above the plan.
   */
  predicate Queued(plan: Plan, h: nat, b: int) {
    match plan
    case Project(input, _) => (h > 0 ==> h + Ahead(input) <= b) && Queued(input, h, b)
    case Filter(input, _) => Queued(input, h + 1, b)
    case Limit(input, _) => Queued(input, h + 1, b)
    case Join(l, r, _) => Queued(l, 0, b) && Queued(r, 0, b)
    case Aggregate(input, _, _) => Queued(input, 0, b)
    case Sort(input, _) => Queued(input, 0, b)
    case ContextOptimize(input, _) => Queued(input, 0, b)
    case _ => true
  }

  /** As `Queued`, with `b` reached only by projections right under a limit. */
  predicate HalfQueued(plan: Plan, h: nat, b: int, underLimit: bool) {
    match plan
    case Project(input, _) =>
      && (h > 0 ==> h + Ahead(input) < b || (h + Ahead(input) == b && underLimit))
      && HalfQueued(input, h, b, false)
    case Filter(input, _) => HalfQueued(input, h + 1, b, false)
    case Limit(input, _) => HalfQueued(input, h + 1, b, true)
    case Join(l, r, _) => HalfQueued(l, 0, b, false) && HalfQueued(r, 0, b, false)
    case Aggregate(input, _, _) => HalfQueued(input, 0, b, false)
    case Sort(input, _) => HalfQueued(input, 0, b, false)
    case ContextOptimize(input, _) => HalfQueued(input, 0, b, false)
    case _ => true
  }

  lemma PushdownAhead(plan: Plan)
    ensures Ahead(PredicatePushdown(plan)) == Ahead(plan)
  {
  }

  lemma LimitAhead(plan: Plan)
    ensures Ahead(LimitPushdown(plan)) == Ahead(plan)
  {
  }

  /** Sinking the filters leaves the longest waits to projections right under a limit. */
  lemma {:induction false} FiltersSink(plan: Plan, h: nat, b: int, underLimit: bool)
    requires Queued(plan, h, b)
    requires plan.Project? && h > 0 && !underLimit ==> h + Ahead(plan.input) < b
    ensures HalfQueued(PredicatePushdown(plan), h, b, underLimit)
  {
    match plan
    case Filter(Project(child, exprs), p) =>
      FiltersSink(child, h + 1, b, false);
      PushdownAhead(child);
    case Filter(input, _) => FiltersSink(input, h + 1, b, false);
    case Project(input, _) =>
      FiltersSink(input, h, b, false);
      PushdownAhead(input);
    case Limit(input, _) => FiltersSink(input, h + 1, b, true);
    case Join(l, r, _) =>
      FiltersSink(l, 0, b, false);
      FiltersSink(r, 0, b, false);
    case Aggregate(input, _, _) => FiltersSink(input, 0, b, false);
    case Sort(input, _) => FiltersSink(input, 0, b, false);
    case ContextOptimize(input, _) => FiltersSink(input, 0, b, false);
    case _ =>
  }

  /** Sinking the limits then shortens every wait. */
  lemma {:induction false} LimitsSink(plan: Plan, h: nat, b: int, underLimit: bool)
    requires HalfQueued(plan, h, b, underLimit) && !(underLimit && plan.Project?)
    ensures Queued(LimitPushdown(plan), h, b - 1)
  {
    match plan
    case Limit(Project(child, exprs), n) =>
      LimitsSink(child, h + 1, b, false);
      LimitAhead(child);
    case Limit(input, _) => LimitsSink(input, h + 1, b, true);
    case Filter(input, _) => LimitsSink(input, h + 1, b, false);
    case Project(input, _) =>
      LimitsSink(input, h, b, false);
      LimitAhead(input);
    case Join(l, r, _) =>
      LimitsSink(l, 0, b, false);
      LimitsSink(r, 0, b, false);
    case Aggregate(input, _, _) => LimitsSink(input, 0, b, false);
    case Sort(input, _) => LimitsSink(input, 0, b, false);
    case ContextOptimize(input, _) => LimitsSink(input, 0, b, false);
    case _ =>
  }

  lemma EliminateQueued(plan: Plan, h: nat, b: int)
    requires Queued(plan, h, b)
    ensures Queued(EliminateRedundantProject(plan), h, b)
  {
    match plan
    case Project(input, _) =>
      EliminateQueued(input, h, b);
      EliminateAhead(input);
    case Filter(input, _) => EliminateQueued(input, h + 1, b);
    case Limit(input, _) => EliminateQueued(input, h + 1, b);
    case Join(l, r, _) =>
      EliminateQueued(l, 0, b);
      EliminateQueued(r, 0, b);
    case Aggregate(input, _, _) => EliminateQueued(input, 0, b);
    case Sort(input, _) => EliminateQueued(input, 0, b);
    case ContextOptimize(input, _) => EliminateQueued(input, 0, b);
    case _ =>
  }

  lemma EliminateAhead(plan: Plan)
    ensures Ahead(EliminateRedundantProject(plan)) <= Ahead(plan)
  {
  }

  lemma FoldAhead(plan: Plan)
    ensures Ahead(ConstantFold(plan)) == Ahead(plan)
  {
  }

  lemma FoldQueued(plan: Plan, h: nat, b: int)
    ensures Queued(ConstantFold(plan), h, b) <==> Queued(plan, h, b)
  {
    if plan.Project? {
      FoldAhead(plan.input);
    }
  }

  lemma ElideAhead(plan: Plan)
    ensures Ahead(VectorScanElideFilter(plan)) == Ahead(plan)
  {
    if plan.Filter? && plan.input.VectorScan? {
      assert Ahead(plan) == Ahead(plan.input) == 0;
    }
  }

  lemma ElideQueued(plan: Plan, h: nat, b: int)
    ensures Queued(VectorScanElideFilter(plan), h, b) <==> Queued(plan, h, b)
  {
    if plan.Project? {
      ElideAhead(plan.input);
    }
  }

  /** A pass shortens every wait. */
  lemma PassQueued(plan: Plan, b: int)
    requires Queued(plan, 0, b)
    ensures Queued(ApplyAllRules(plan), 0, b - 1)
  {
    var p1 := PredicatePushdown(plan);
    FiltersSink(plan, 0, b, false);
    var p2 := LimitPushdown(p1);
    LimitsSink(p1, 0, b, false);
    var p3 := EliminateRedundantProject(p2);
    EliminateQueued(p2, 0, b - 1);
    FoldQueued(p3, 0, b - 1);
    ElideQueued(ConstantFold(p3), 0, b - 1);
  }

  lemma QueuedMore(plan: Plan, h: nat, b: int, c: int)
    requires Queued(plan, h, b) && b <= c
    ensures Queued(plan, h, c)
  {
  }

  /** Nothing waits: both sinking rules are idle. */
  lemma NoneQueued(plan: Plan, h: nat, b: int)
    requires Queued(plan, h, b) && b <= 0
    ensures PredicatePushdown(plan) == plan && LimitPushdown(plan) == plan
  {
  }

  lemma IdleNoneAhead(plan: Plan)
    requires PredicatePushdown(plan) == plan && LimitPushdown(plan) == plan && (plan.Filter? || plan.Limit?)
    ensures Ahead(plan) == 0
  {
  }

  lemma IdleNoneQueued(plan: Plan, h: nat)
    requires PredicatePushdown(plan) == plan && LimitPushdown(plan) == plan && (h > 0 ==> Ahead(plan) == 0)
    ensures Queued(plan, h, 0)
  {
    if plan.Filter? || plan.Limit? {
      IdleNoneAhead(plan);
    }
  }

  // ---- Folding and wildcards settle in two passes ---------------------------

  lemma {:induction false} FoldPlanTwice(plan: Plan)
    ensures ConstantFold(ConstantFold(plan)) == ConstantFold(plan)
  {
    match plan
    case Scan(_, p, projections) =>
      if p.Some? {
        FoldTwice(p.value);
      }
      FoldAllTwice(projections);
    case Filter(input, p) =>
      FoldPlanTwice(input);
      FoldTwice(p);
    case Project(input, exprs) =>
      FoldPlanTwice(input);
      FoldAllTwice(exprs);
    case Join(l, r, c) =>
      FoldPlanTwice(l);
      FoldPlanTwice(r);
      FoldTwice(c);
    case Aggregate(input, g, a) =>
      FoldPlanTwice(input);
      FoldAllTwice(g);
      FoldAggsTwice(a);
    case Sort(input, o) =>
      FoldPlanTwice(input);
      FoldOrderTwice(o);
    case Limit(input, _) => FoldPlanTwice(input);
    case ContextOptimize(input, _) => FoldPlanTwice(input);
    case _ =>
  }

  predicate Folded(plan: Plan) { ConstantFold(plan) == plan }
  predicate NoWildcards(plan: Plan) { EliminateRedundantProject(plan) == plan }

  lemma PushdownFolded(plan: Plan)
    requires Folded(plan)
    ensures Folded(PredicatePushdown(plan))
  {
    if plan.Filter? && plan.input.Project? {
      assert Folded(plan.input) && Folded(plan.input.input);
      PushdownFolded(plan.input.input);
    }
  }

  lemma LimitFolded(plan: Plan)
    requires Folded(plan)
    ensures Folded(LimitPushdown(plan))
  {
    if plan.Limit? && plan.input.Project? {
      assert Folded(plan.input) && Folded(plan.input.input);
      LimitFolded(plan.input.input);
    }
  }

  lemma EliminateFolded(plan: Plan)
    requires Folded(plan)
    ensures Folded(EliminateRedundantProject(plan))
  {
  }

  lemma ElideFolded(plan: Plan)
    requires Folded(plan)
    ensures Folded(VectorScanElideFilter(plan))
  {
  }

  lemma EliminateTwice(plan: Plan)
    ensures NoWildcards(EliminateRedundantProject(plan))
  {
  }

  lemma ElideNoWildcards(plan: Plan)
    requires NoWildcards(plan)
    ensures NoWildcards(VectorScanElideFilter(plan))
  {
    if plan.Project? {
      EliminateSettles(plan.input);
    }
  }

  /** After one pass nothing is left to fold; after another no wildcard projection is left. */
  lemma PassFolds(plan: Plan)
    ensures Folded(ApplyAllRules(plan))
    ensures Folded(plan) ==> NoWildcards(ApplyAllRules(plan))
  {
    var p1 := PredicatePushdown(plan);
    var p2 := LimitPushdown(p1);
    var p3 := EliminateRedundantProject(p2);
    FoldPlanTwice(p3);
    ElideFolded(ConstantFold(p3));
    if Folded(plan) {
      PushdownFolded(plan);
      LimitFolded(p1);
      EliminateFolded(p2);
      EliminateTwice(p2);
      ElideNoWildcards(p3);
    }
  }

  // ---- Filters over a vector scan go one a pass ------------------------------

  /**
   * Filters between the top of a plan and a vector scan when nothing but projections stands among
   * them and each looks like a distance test; -1 for any other plan.
   */
  function Tests(plan: Plan): int {
    match plan
    case VectorScan(_, _, _, _) => 0
    case Filter(input, p) => if Tests(input) >= 0 && IsVectorDistPredicate(FoldExpr(p)) then 1 + Tests(input) else -1
    case Project(input, _) => Tests(input)
    case _ => -1
  }

  /** No vector scan has more than `r` such filters in a row above it. */
  predicate Elidable(plan: Plan, r: int) {
    && Tests(plan) <= r
    && match plan
       case Filter(input, _) => Elidable(input, r)
       case Project(input, _) => Elidable(input, r)
       case Limit(input, _) => Elidable(input, r)
       case Join(left, right, _) => Elidable(left, r) && Elidable(right, r)
       case Aggregate(input, _, _) => Elidable(input, r)
       case Sort(input, _) => Elidable(input, r)
       case ContextOptimize(input, _) => Elidable(input, r)
       case _ => true
  }

  lemma PushdownTests(plan: Plan)
    ensures Tests(PredicatePushdown(plan)) == Tests(plan)
  {
    if plan.Filter? && plan.input.Project? {
      assert Tests(plan.input) == Tests(plan.input.input);
    }
  }

  lemma PushdownElidable(plan: Plan, r: int)
    requires Elidable(plan, r)
    ensures Elidable(PredicatePushdown(plan), r)
  {
    PushdownTests(plan);
    if plan.Filter? && plan.input.Project? {
      PushdownTests(plan.input.input);
      PushdownElidable(plan.input.input, r);
    }
  }

  lemma LimitTests(plan: Plan)
    ensures Tests(LimitPushdown(plan)) == Tests(plan)
  {
  }

  lemma LimitElidable(plan: Plan, r: int)
    requires Elidable(plan, r)
    ensures Elidable(LimitPushdown(plan), r)
  {
    LimitTests(plan);
  }

  lemma EliminateTests(plan: Plan)
    ensures Tests(EliminateRedundantProject(plan)) == Tests(plan)
  {
  }

  lemma EliminateElidable(plan: Plan, r: int)
    requires Elidable(plan, r)
    ensures Elidable(EliminateRedundantProject(plan), r)
  {
    EliminateTests(plan);
  }

  lemma FoldTests(plan: Plan)
    ensures Tests(ConstantFold(plan)) == Tests(plan)
  {
    if plan.Filter? {
      FoldTwice(plan.filter);
    }
  }

  lemma FoldElidable(plan: Plan, r: int)
    requires Elidable(plan, r)
    ensures Elidable(ConstantFold(plan), r)
  {
    FoldTests(plan);
  }

  /** Elision takes one filter from each such row once no projection stands in it. */
  lemma ElideTests(plan: Plan, h: nat)
    requires Folded(plan) && Queued(plan, h, 0)
    ensures Tests(VectorScanElideFilter(plan)) == if Tests(plan) > 0 then Tests(plan) - 1 else Tests(plan)
  {
  }

  lemma ElideElidable(plan: Plan, h: nat, r: int)
    requires Folded(plan) && Queued(plan, h, 0) && Elidable(plan, r) && r > 0
    ensures Elidable(VectorScanElideFilter(plan), r - 1)
  {
    ElideTests(plan, h);
    match plan
    case Filter(input, _) => ElideElidable(input, h + 1, r);
    case Project(input, _) => ElideElidable(input, h, r);
    case Limit(input, _) => ElideElidable(input, h + 1, r);
    case Join(left, right, _) =>
      ElideElidable(left, 0, r);
      ElideElidable(right, 0, r);
    case Aggregate(input, _, _) => ElideElidable(input, 0, r);
    case Sort(input, _) => ElideElidable(input, 0, r);
    case ContextOptimize(input, _) => ElideElidable(input, 0, r);
    case _ =>
  }

  lemma ElideTestsFewer(plan: Plan)
    requires Folded(plan)
    ensures Tests(VectorScanElideFilter(plan)) <= Tests(plan)
  {
  }

  lemma ElideKeepsElidable(plan: Plan, r: int)
    requires Folded(plan) && Elidable(plan, r)
    ensures Elidable(VectorScanElideFilter(plan), r)
  {
    ElideTestsFewer(plan);
  }

  lemma NoneElidable(plan: Plan)
    requires Folded(plan) && Elidable(plan, 0)
    ensures VectorScanElideFilter(plan) == plan
  {
  }

  // ---- Enough passes ---------------------------------------------------------

  lemma PassElidable(plan: Plan, r: nat)
    requires Elidable(plan, r)
    ensures Elidable(ApplyAllRules(plan), r)
    ensures Queued(plan, 0, 1) && r > 0 ==> Elidable(ApplyAllRules(plan), r - 1)
  {
    var p1 := PredicatePushdown(plan);
    PushdownElidable(plan, r);
    var p2 := LimitPushdown(p1);
    LimitElidable(p1, r);
    var p3 := EliminateRedundantProject(p2);
    EliminateElidable(p2, r);
    FoldElidable(p3, r);
    FoldPlanTwice(p3);
    ElideKeepsElidable(ConstantFold(p3), r);
    if Queued(plan, 0, 1) && r > 0 {
      PassQueued(plan, 1);
      ElideQueued(ConstantFold(p3), 0, 0);
      ElideElidable(ConstantFold(p3), 0, r);
    }
  }

  lemma SettledIsNormal(plan: Plan)
    requires Queued(plan, 0, 0) && Folded(plan) && NoWildcards(plan) && Elidable(plan, 0)
    ensures NormalForm(plan)
  {
    NoneQueued(plan, 0, 0);
    NoneElidable(plan);
    NormalFormIsIdle(plan);
  }

  /** Passes still needed: `b` to sink, `s` to settle folding and wildcards, `r` to elide. */
  ghost predicate Needs(plan: Plan, b: nat, s: nat, r: nat) {
    && Queued(plan, 0, b) && Elidable(plan, r)
    && (s < 2 ==> Folded(plan)) && (s < 1 ==> NoWildcards(plan))
  }

  function Less(n: nat): nat { if n > 0 then n - 1 else 0 }

  lemma PassNeeds(plan: Plan, b: nat, s: nat, r: nat)
    requires Needs(plan, b, s, r) && s <= 2
    ensures Needs(ApplyAllRules(plan), Less(b), Less(s), if b <= 1 then Less(r) else r)
  {
    PassQueued(plan, b);
    PassFolds(plan);
    QueuedMore(ApplyAllRules(plan), 0, b - 1, Less(b));
    if b == 0 {
      QueuedMore(plan, 0, 0, 1);
    }
    PassElidable(plan, r);
  }

  lemma {:induction false} Suffices(plan: Plan, b: nat, s: nat, r: nat, n: nat)
    requires Needs(plan, b, s, r) && s <= 2 && n >= b + r && n >= s + r
    ensures NormalForm(OptimizeWithin(plan, n))
    decreases n
  {
    PassSettles(plan);
    if b == 0 && s == 0 && r == 0 {
      SettledIsNormal(plan);
    } else {
      PassNeeds(plan, b, s, r);
      Suffices(ApplyAllRules(plan), Less(b), Less(s), if b <= 1 then Less(r) else r, n - 1);
    }
  }

  /**
   * The passes a plan needs: as many as its longest wait, at least the two that settle folding and
   * wildcard projections, and one for each elidable filter in a row over a vector scan.
   */
  lemma PassesSuffice(plan: Plan, b: nat, r: nat, n: nat)
    requires Queued(plan, 0, b) && Elidable(plan, r) && n >= b + r && n >= 2 + r
    ensures NormalForm(OptimizeWithin(plan, n))
  {
    Suffices(plan, b, 2, r, n);
  }

  // ---- Too few passes --------------------------------------------------------

  /** As `Ahead`, without the projections that fold to the bare wildcard. */
  function Lasting(plan: Plan): nat {
    match plan
    case Project(input, exprs) => (if FoldAll(exprs) == [Star] then 0 else 1) + Lasting(input)
    case Filter(input, _) => Lasting(input)
    case Limit(input, _) => Lasting(input)
    case _ => 0
  }

  /** Some limit, or some filter, stands above `k` such projections. */
  predicate Crosses(plan: Plan, limit: bool, k: nat) {
    match plan
    case Filter(input, _) => (!limit && Lasting(input) >= k) || Crosses(input, limit, k)
    case Limit(input, _) => (limit && Lasting(input) >= k) || Crosses(input, limit, k)
    case Project(input, _) => Crosses(input, limit, k)
    case Join(l, r, _) => Crosses(l, limit, k) || Crosses(r, limit, k)
    case Aggregate(input, _, _) => Crosses(input, limit, k)
    case Sort(input, _) => Crosses(input, limit, k)
    case ContextOptimize(input, _) => Crosses(input, limit, k)
    case _ => false
  }

  lemma PushdownLasting(plan: Plan)
    ensures Lasting(PredicatePushdown(plan)) == Lasting(plan)
  {
  }

  lemma PushdownCrosses(plan: Plan, limit: bool, k: nat)
    requires Crosses(plan, limit, if limit then k else k + 1)
    ensures Crosses(PredicatePushdown(plan), limit, k)
  {
    if plan.Filter? || plan.Limit? {
      PushdownLasting(plan.input);
      if plan.input.Project? {
        PushdownLasting(plan.input.input);
      }
    }
  }

  lemma LimitLasting(plan: Plan)
    ensures Lasting(LimitPushdown(plan)) == Lasting(plan)
  {
  }

  lemma LimitCrosses(plan: Plan, limit: bool, k: nat)
    requires Crosses(plan, limit, if limit then k + 1 else k)
    ensures Crosses(LimitPushdown(plan), limit, k)
  {
    if plan.Filter? || plan.Limit? {
      LimitLasting(plan.input);
      if plan.input.Project? {
        LimitLasting(plan.input.input);
      }
    }
  }

  lemma EliminateLasting(plan: Plan)
    ensures Lasting(EliminateRedundantProject(plan)) == Lasting(plan)
  {
    WildcardFolds();
  }

  lemma WildcardFolds()
    ensures FoldAll([Star]) == [Star]
  {
    assert [Star][1..] == [];
  }

  lemma EliminateCrosses(plan: Plan, limit: bool, k: nat)
    requires Crosses(plan, limit, k)
    ensures Crosses(EliminateRedundantProject(plan), limit, k)
  {
    match plan
    case Filter(input, _) =>
      EliminateLasting(input);
      if Crosses(input, limit, k) {
        EliminateCrosses(input, limit, k);
      }
    case Limit(input, _) =>
      EliminateLasting(input);
      if Crosses(input, limit, k) {
        EliminateCrosses(input, limit, k);
      }
    case Project(input, _) => EliminateCrosses(input, limit, k);
    case Join(l, r, _) =>
      if Crosses(l, limit, k) {
        EliminateCrosses(l, limit, k);
      } else {
        EliminateCrosses(r, limit, k);
      }
    case Aggregate(input, _, _) => EliminateCrosses(input, limit, k);
    case Sort(input, _) => EliminateCrosses(input, limit, k);
    case ContextOptimize(input, _) => EliminateCrosses(input, limit, k);
  }

  lemma FoldLasting(plan: Plan)
    ensures Lasting(ConstantFold(plan)) == Lasting(plan)
  {
    if plan.Project? {
      FoldAllTwice(plan.exprs);
    }
  }

  lemma FoldCrosses(plan: Plan, limit: bool, k: nat)
    requires Crosses(plan, limit, k)
    ensures Crosses(ConstantFold(plan), limit, k)
  {
    if plan.Filter? || plan.Limit? {
      FoldLasting(plan.input);
    }
  }

  lemma ElideLasting(plan: Plan)
    ensures Lasting(VectorScanElideFilter(plan)) == Lasting(plan)
  {
    if plan.Filter? && plan.input.VectorScan? {
      assert Lasting(plan) == Lasting(plan.input) == 0;
    }
  }

  lemma ElideCrosses(plan: Plan, limit: bool, k: nat)
    requires Crosses(plan, limit, k) && k > 0
    ensures Crosses(VectorScanElideFilter(plan), limit, k)
  {
    if plan.Filter? || plan.Limit? {
      ElideLasting(plan.input);
    }
  }

  /** A pass takes each filter and each limit below one projection at most. */
  lemma PassCrosses(plan: Plan, limit: bool, k: nat)
    requires Crosses(plan, limit, k + 1) && k > 0
    ensures Crosses(ApplyAllRules(plan), limit, k)
  {
    var p1 := PredicatePushdown(plan);
    var p2 := LimitPushdown(p1);
    if limit {
      PushdownCrosses(plan, limit, k + 1);
      LimitCrosses(p1, limit, k);
    } else {
      PushdownCrosses(plan, limit, k);
      LimitCrosses(p1, limit, k);
    }
    var p3 := EliminateRedundantProject(p2);
    EliminateCrosses(p2, limit, k);
    FoldCrosses(p3, limit, k);
    ElideCrosses(ConstantFold(p3), limit, k);
  }

  lemma LastingAhead(plan: Plan)
    ensures Lasting(plan) <= Ahead(plan)
  {
  }

  lemma QueuedAhead(plan: Plan, h: nat, b: int)
    requires Queued(plan, h, b) && h > 0 && Ahead(plan) > 0
    ensures h + Ahead(plan) - 1 <= b
  {
  }

  lemma CrossesQueued(plan: Plan, limit: bool, h: nat)
    requires Crosses(plan, limit, 1)
    ensures !Queued(plan, h, 0)
  {
    if plan.Filter? || plan.Limit? {
      LastingAhead(plan.input);
      if Queued(plan.input, h + 1, 0) && Lasting(plan.input) > 0 {
        QueuedAhead(plan.input, h + 1, 0);
      }
    }
  }

  /**
   * A filter, or a limit, above more projections than there are passes is left above one of them,
   * whatever else the plan holds.
   */
  lemma {:induction false} TooFewPasses(plan: Plan, limit: bool, n: nat)
    requires Crosses(plan, limit, n + 1)
    ensures !NormalForm(OptimizeWithin(plan, n))
    decreases n
  {
    PassSettles(plan);
    if NormalForm(plan) {
      NormalFormIsIdle(plan);
      CrossesLess(plan, limit, n + 1);
      IdleNoneQueued(plan, 0);
      CrossesQueued(plan, limit, 0);
    } else if n > 0 {
      PassCrosses(plan, limit, n);
      TooFewPasses(ApplyAllRules(plan), limit, n - 1);
    }
  }

  lemma CrossesLess(plan: Plan, limit: bool, k: nat)
    requires Crosses(plan, limit, k) && k > 0
    ensures Crosses(plan, limit, 1)
  {
  }

  // ---- Exactly enough --------------------------------------------------------

  /** No projection folds to the bare wildcard. */
  predicate Plain(plan: Plan) {
    match plan
    case Project(input, exprs) => FoldAll(exprs) != [Star] && Plain(input)
    case Filter(input, _) => Plain(input)
    case Limit(input, _) => Plain(input)
    case Join(l, r, _) => Plain(l) && Plain(r)
    case Aggregate(input, _, _) => Plain(input)
    case Sort(input, _) => Plain(input)
    case ContextOptimize(input, _) => Plain(input)
    case _ => true
  }

  /** No limit, or no filter, stands above a projection of its run. */
  predicate Clear(plan: Plan, limit: bool) {
    match plan
    case Filter(input, _) => (limit || Ahead(input) == 0) && Clear(input, limit)
    case Limit(input, _) => (!limit || Ahead(input) == 0) && Clear(input, limit)
    case Project(input, _) => Clear(input, limit)
    case Join(l, r, _) => Clear(l, limit) && Clear(r, limit)
    case Aggregate(input, _, _) => Clear(input, limit)
    case Sort(input, _) => Clear(input, limit)
    case ContextOptimize(input, _) => Clear(input, limit)
    case _ => true
  }

  lemma ClearIdle(plan: Plan, limit: bool)
    requires Clear(plan, limit)
    ensures (if limit then LimitPushdown(plan) else PredicatePushdown(plan)) == plan
  {
  }

  lemma PushdownClear(plan: Plan)
    requires Clear(plan, true)
    ensures Clear(PredicatePushdown(plan), true)
  {
    if plan.Filter? || plan.Limit? {
      PushdownAhead(plan.input);
    }
  }

  lemma LimitClear(plan: Plan)
    requires Clear(plan, false)
    ensures Clear(LimitPushdown(plan), false)
  {
    if plan.Filter? || plan.Limit? {
      LimitAhead(plan.input);
    }
  }

  lemma FoldClear(plan: Plan, limit: bool)
    requires Clear(plan, limit)
    ensures Clear(ConstantFold(plan), limit)
  {
    if plan.Filter? || plan.Limit? {
      FoldAhead(plan.input);
    }
  }

  lemma ElideClear(plan: Plan, limit: bool)
    requires Clear(plan, limit)
    ensures Clear(VectorScanElideFilter(plan), limit)
  {
    if plan.Filter? || plan.Limit? {
      ElideAhead(plan.input);
    }
  }

  lemma PlainIdle(plan: Plan)
    requires Plain(plan)
    ensures NoWildcards(plan)
  {
    WildcardFolds();
  }

  lemma FoldPlain(plan: Plan)
    requires Plain(plan)
    ensures Plain(ConstantFold(plan))
  {
    if plan.Project? {
      FoldAllTwice(plan.exprs);
    }
  }

  lemma ElidePlain(plan: Plan)
    requires Plain(plan)
    ensures Plain(VectorScanElideFilter(plan))
  {
  }

  /** Sinking the filters shortens a wait by one at most. */
  lemma {:induction false} PushdownDelays(plan: Plan, h: nat, b: nat)
    requires Queued(PredicatePushdown(plan), h, b)
    ensures Queued(plan, h, b + 1)
  {
    match plan
    case Filter(Project(child, exprs), p) =>
      PushdownDelays(child, h + 1, b);
      PushdownAhead(child);
      if h == 0 && Ahead(child) > 0 {
        QueuedAhead(PredicatePushdown(child), 1, b);
      }
    case Filter(input, _) => PushdownDelays(input, h + 1, b);
    case Project(input, _) =>
      PushdownDelays(input, h, b);
      PushdownAhead(input);
    case Limit(input, _) => PushdownDelays(input, h + 1, b);
    case Join(l, r, _) =>
      PushdownDelays(l, 0, b);
      PushdownDelays(r, 0, b);
    case Aggregate(input, _, _) => PushdownDelays(input, 0, b);
    case Sort(input, _) => PushdownDelays(input, 0, b);
    case ContextOptimize(input, _) => PushdownDelays(input, 0, b);
    case _ =>
  }

  lemma {:induction false} LimitDelays(plan: Plan, h: nat, b: nat)
    requires Queued(LimitPushdown(plan), h, b)
    ensures Queued(plan, h, b + 1)
  {
    match plan
    case Limit(Project(child, exprs), n) =>
      LimitDelays(child, h + 1, b);
      LimitAhead(child);
      if h == 0 && Ahead(child) > 0 {
        QueuedAhead(LimitPushdown(child), 1, b);
      }
    case Limit(input, _) => LimitDelays(input, h + 1, b);
    case Project(input, _) =>
      LimitDelays(input, h, b);
      LimitAhead(input);
    case Filter(input, _) => LimitDelays(input, h + 1, b);
    case Join(l, r, _) =>
      LimitDelays(l, 0, b);
      LimitDelays(r, 0, b);
    case Aggregate(input, _, _) => LimitDelays(input, 0, b);
    case Sort(input, _) => LimitDelays(input, 0, b);
    case ContextOptimize(input, _) => LimitDelays(input, 0, b);
    case _ =>
  }

  lemma PushdownPlain(plan: Plan)
    requires Plain(plan)
    ensures Plain(PredicatePushdown(plan))
  {
  }

  lemma LimitPlain(plan: Plan)
    requires Plain(plan)
    ensures Plain(LimitPushdown(plan))
  {
  }

  /** What a pass does to a plan of one kind of sinking operator and no wildcard. */
  lemma PlainPass(plan: Plan, limit: bool)
    requires Plain(plan) && Clear(plan, limit)
    ensures var next := ApplyAllRules(plan); Plain(next) && Clear(next, limit) && Folded(next) && NoWildcards(next)
    ensures forall b: nat :: Queued(ApplyAllRules(plan), 0, b) ==> Queued(plan, 0, b + 1)
  {
    var p1 := PredicatePushdown(plan);
    var p2 := LimitPushdown(p1);
    PushdownPlain(plan);
    LimitPlain(p1);
    PlainIdle(p2);
    var p4 := ConstantFold(p2);
    FoldPlanTwice(p2);
    ElideFolded(p4);
    FoldPlain(p2);
    ElidePlain(p4);
    PlainIdle(VectorScanElideFilter(p4));
    ClearIdle(plan, limit);
    if limit {
      PushdownClear(plan);
      ClearIdle(p1, limit);
    } else {
      LimitClear(plan);
    }
    FoldClear(p2, limit);
    ElideClear(p4, limit);
    forall b: nat | Queued(VectorScanElideFilter(p4), 0, b) ensures Queued(plan, 0, b + 1) {
      ElideQueued(p4, 0, b);
      FoldQueued(p2, 0, b);
      if limit {
        PushdownDelays(plan, 0, b);
      } else {
        LimitDelays(plan, 0, b);
      }
    }
  }

  lemma {:induction false} WaitsOut(plan: Plan, limit: bool, n: nat)
    requires Plain(plan) && Clear(plan, limit) && NormalForm(OptimizeWithin(plan, n))
    ensures Queued(plan, 0, n)
    decreases n
  {
    PassSettles(plan);
    if NormalForm(plan) {
      NormalFormIsIdle(plan);
      IdleNoneQueued(plan, 0);
      QueuedMore(plan, 0, 0, n);
    } else if n > 0 {
      PlainPass(plan, limit);
      WaitsOut(ApplyAllRules(plan), limit, n - 1);
    }
  }

  /**
   * Where only filters, or only limits, stand above projections, none of which is a wildcard, and no
   * filter is elided, a plan settles in `n` passes exactly when no projection waits longer.
   */
  lemma PassesExact(plan: Plan, limit: bool, n: nat)
    requires Plain(plan) && Clear(plan, limit) && Elidable(plan, 0) && n > 0
    ensures NormalForm(OptimizeWithin(plan, n)) <==> Queued(plan, 0, n)
  {
    if Queued(plan, 0, n) {
      PlainPass(plan, limit);
      PassQueued(plan, n);
      PassElidable(plan, 0);
      PassSettles(plan);
      if NormalForm(plan) {
        assert OptimizeWithin(plan, n) == plan;
      } else {
        Suffices(ApplyAllRules(plan), n - 1, 0, 0, n - 1);
      }
    }
    if NormalForm(OptimizeWithin(plan, n)) {
      WaitsOut(plan, limit, n);
    }
  }

  // ---- One family ------------------------------------------------------------

  /** A scan of a collection under `k` projections to one column. */
  function Tower(c: string, k: nat): Plan {
    if k == 0 then Scan(c, None, []) else Project(Tower(c, k - 1), [Column(c)])
  }

  lemma {:induction false} TowerQueued(c: string, k: nat, b: int)
    ensures Ahead(Tower(c, k)) == k && Tests(Tower(c, k)) == -1 && Elidable(Tower(c, k), 0)
    ensures Plain(Tower(c, k)) && Clear(Tower(c, k), true)
    ensures Queued(Tower(c, k), 1, b) <==> k == 0 || k <= b
  {
    if k > 0 {
      TowerQueued(c, k - 1, b);
      assert FoldAll([Column(c)])[0] == Column(c);
    }
  }

  /** The optimizer reaches the normal form of a filter over k projections exactly when k is at most eight. */
  lemma CapExact(c: string, k: nat, test: Expr)
    ensures NormalForm(OptimizeWithin(Filter(Tower(c, k), test), MAX_PASSES)) <==> k <= MAX_PASSES
  {
    TowerQueued(c, k, MAX_PASSES);
    PassesExact(Filter(Tower(c, k), test), true, MAX_PASSES);
  }
}
