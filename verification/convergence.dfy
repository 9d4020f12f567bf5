/**
 * Every pass that changes a plan makes it lighter, so rewriting ends, and a plan no pass changes is
 * a normal form of each rule.
 */
module Convergence {
  import opened Plans
  import opened Rules

  function ExprSize(e: Expr): nat
    decreases e, 1
  {
    match e
    case Binary(_, l, r) => 1 + ExprSize(l) + ExprSize(r)
    case Unary(_, x) => 1 + ExprSize(x)
    case Call(_, args) => 1 + ExprsSize(args)
    case _ => 1
  }

  function ExprsSize(es: seq<Expr>): nat
    decreases es, 0
  {
    if es == [] then 0 else ExprSize(es[0]) + ExprsSize(es[1..])
  }

  function AggsSize(a: seq<AggExpr>): nat {
    if a == [] then 0 else ExprSize(a[0].arg) + AggsSize(a[1..])
  }

  function OrderSize(o: seq<SortExpr>): nat {
    if o == [] then 0 else ExprSize(o[0].expr) + OrderSize(o[1..])
  }

  function Projects(plan: Plan): nat {
    match plan
    case Project(input, _) => 1 + Projects(input)
    case Filter(input, _) => Projects(input)
    case Join(l, r, _) => Projects(l) + Projects(r)
    case Aggregate(input, _, _) => Projects(input)
    case Sort(input, _) => Projects(input)
    case Limit(input, _) => Projects(input)
    case ContextOptimize(input, _) => Projects(input)
    case _ => 0
  }

  /** Nodes and expression nodes, plus the filters and limits standing above a projection, pair by pair. */
  function Weight(plan: Plan): nat {
    match plan
    case Scan(_, p, projections) => 1 + (if p.Some? then ExprSize(p.value) else 0) + ExprsSize(projections)
    case Filter(input, p) => 1 + ExprSize(p) + Projects(input) + Weight(input)
    case Limit(input, _) => 1 + Projects(input) + Weight(input)
    case Project(input, exprs) => 1 + ExprsSize(exprs) + Weight(input)
    case Join(l, r, c) => 1 + ExprSize(c) + Weight(l) + Weight(r)
    case Aggregate(input, g, a) => 1 + ExprsSize(g) + AggsSize(a) + Weight(input)
    case Sort(input, o) => 1 + OrderSize(o) + Weight(input)
    case ContextOptimize(input, _) => 1 + Weight(input)
    case _ => 1
  }

  /** `after` is `before`, or strictly lighter with no more projections. */
  predicate Settles(before: Plan, after: Plan) {
    Projects(after) <= Projects(before) && (after == before || Weight(after) < Weight(before))
  }

  lemma {:induction false} FoldShrinks(e: Expr)
    ensures FoldExpr(e) == e || ExprSize(FoldExpr(e)) < ExprSize(e)
    decreases e, 1
  {
    match e
    case Binary(_, l, r) =>
      FoldShrinks(l);
      FoldShrinks(r);
    case Unary(_, x) => FoldShrinks(x);
    case Call(_, args) => FoldAllShrinks(args);
    case _ =>
  }

  lemma {:induction false} FoldAllShrinks(es: seq<Expr>)
    ensures FoldAll(es) == es || ExprsSize(FoldAll(es)) < ExprsSize(es)
    decreases es, 0
  {
    if es != [] {
      FoldShrinks(es[0]);
      FoldAllShrinks(es[1..]);
      assert FoldAll(es)[1..] == FoldAll(es[1..]);
    }
  }

  lemma {:induction false} FoldAggsShrinks(a: seq<AggExpr>)
    ensures FoldAggs(a) == a || AggsSize(FoldAggs(a)) < AggsSize(a)
  {
    if a != [] {
      FoldShrinks(a[0].arg);
      FoldAggsShrinks(a[1..]);
      assert FoldAggs(a)[1..] == FoldAggs(a[1..]);
      assert FoldExpr(a[0].arg) == a[0].arg ==> FoldAgg(a[0]) == a[0];
    }
  }

  lemma {:induction false} FoldOrderShrinks(o: seq<SortExpr>)
    ensures FoldOrder(o) == o || OrderSize(FoldOrder(o)) < OrderSize(o)
  {
    if o != [] {
      FoldShrinks(o[0].expr);
      FoldOrderShrinks(o[1..]);
      assert FoldOrder(o)[1..] == FoldOrder(o[1..]);
      assert FoldExpr(o[0].expr) == o[0].expr ==> FoldOrder(o)[0] == o[0];
    }
  }

  lemma FilterSwapSettles(child: Plan, exprs: seq<Expr>, p: Expr, child': Plan)
    requires Settles(child, child')
    ensures Settles(Filter(Project(child, exprs), p), Project(Filter(child', p), exprs))
  {
    assert Projects(Project(child, exprs)) == 1 + Projects(child);
    assert Weight(Project(child, exprs)) == 1 + ExprsSize(exprs) + Weight(child);
    assert Weight(Filter(child', p)) == 1 + ExprSize(p) + Projects(child') + Weight(child');
  }

  lemma LimitSwapSettles(child: Plan, exprs: seq<Expr>, n: nat, child': Plan)
    requires Settles(child, child')
    ensures Settles(Limit(Project(child, exprs), n), Project(Limit(child', n), exprs))
  {
    assert Projects(Project(child, exprs)) == 1 + Projects(child);
    assert Weight(Project(child, exprs)) == 1 + ExprsSize(exprs) + Weight(child);
    assert Weight(Limit(child', n)) == 1 + Projects(child') + Weight(child');
  }

  lemma {:induction false} PushdownSettles(plan: Plan)
    ensures Settles(plan, PredicatePushdown(plan))
  {
    match plan
    case Filter(Project(child, exprs), p) =>
      PushdownSettles(child);
      FilterSwapSettles(child, exprs, p, PredicatePushdown(child));
    case Filter(input, _) => PushdownSettles(input);
    case Project(input, _) => PushdownSettles(input);
    case Join(l, r, _) =>
      PushdownSettles(l);
      PushdownSettles(r);
    case Aggregate(input, _, _) => PushdownSettles(input);
    case Sort(input, _) => PushdownSettles(input);
    case Limit(input, _) => PushdownSettles(input);
    case ContextOptimize(input, _) => PushdownSettles(input);
    case _ =>
  }

  lemma {:induction false} LimitSettles(plan: Plan)
    ensures Settles(plan, LimitPushdown(plan))
  {
    match plan
    case Limit(Project(child, exprs), n) =>
      LimitSettles(child);
      LimitSwapSettles(child, exprs, n, LimitPushdown(child));
    case Limit(input, _) => LimitSettles(input);
    case Filter(input, _) => LimitSettles(input);
    case Project(input, _) => LimitSettles(input);
    case Join(l, r, _) =>
      LimitSettles(l);
      LimitSettles(r);
    case Aggregate(input, _, _) => LimitSettles(input);
    case Sort(input, _) => LimitSettles(input);
    case ContextOptimize(input, _) => LimitSettles(input);
    case _ =>
  }

  lemma {:induction false} EliminateSettles(plan: Plan)
    ensures Settles(plan, EliminateRedundantProject(plan))
  {
    match plan
    case Project(input, _) => EliminateSettles(input);
    case Filter(input, _) => EliminateSettles(input);
    case Join(l, r, _) =>
      EliminateSettles(l);
      EliminateSettles(r);
    case Aggregate(input, _, _) => EliminateSettles(input);
    case Sort(input, _) => EliminateSettles(input);
    case Limit(input, _) => EliminateSettles(input);
    case ContextOptimize(input, _) => EliminateSettles(input);
    case _ =>
  }

  lemma {:induction false} ConstantFoldSettles(plan: Plan)
    ensures Settles(plan, ConstantFold(plan))
  {
    match plan
    case Scan(_, p, projections) =>
      if p.Some? {
        FoldShrinks(p.value);
      }
      FoldAllShrinks(projections);
    case Filter(input, p) =>
      ConstantFoldSettles(input);
      FoldShrinks(p);
    case Project(input, exprs) =>
      ConstantFoldSettles(input);
      FoldAllShrinks(exprs);
    case Join(l, r, c) =>
      ConstantFoldSettles(l);
      ConstantFoldSettles(r);
      FoldShrinks(c);
    case Aggregate(input, g, a) =>
      ConstantFoldSettles(input);
      FoldAllShrinks(g);
      FoldAggsShrinks(a);
    case Sort(input, o) =>
      ConstantFoldSettles(input);
      FoldOrderShrinks(o);
    case Limit(input, _) => ConstantFoldSettles(input);
    case ContextOptimize(input, _) => ConstantFoldSettles(input);
    case _ =>
  }

  lemma {:induction false} ElideSettles(plan: Plan)
    ensures Settles(plan, VectorScanElideFilter(plan))
  {
    match plan
    case Filter(input, _) => ElideSettles(input);
    case Project(input, _) => ElideSettles(input);
    case Join(l, r, _) =>
      ElideSettles(l);
      ElideSettles(r);
    case Aggregate(input, _, _) => ElideSettles(input);
    case Sort(input, _) => ElideSettles(input);
    case Limit(input, _) => ElideSettles(input);
    case ContextOptimize(input, _) => ElideSettles(input);
    case _ =>
  }

  // ---- The normal form, read off the tree ------------------------------------

  /** An operand a conjunction or disjunction is better without. */
  predicate Neutral(op: BinaryOp, e: Expr) {
    (op == And && e == Lit(Bool(true))) || (op == Or && e == Lit(Bool(false)))
  }

  /** No neutral operand anywhere in the expression. */
  predicate Bare(e: Expr)
    decreases e, 1
  {
    match e
    case Binary(op, l, r) => !Neutral(op, l) && !Neutral(op, r) && Bare(l) && Bare(r)
    case Unary(_, x) => Bare(x)
    case Call(_, args) => AllBare(args)
    case _ => true
  }

  predicate AllBare(es: seq<Expr>)
    decreases es, 0
  {
    es == [] || (Bare(es[0]) && AllBare(es[1..]))
  }

  predicate BareAggs(a: seq<AggExpr>) { a == [] || (Bare(a[0].arg) && BareAggs(a[1..])) }

  predicate BareOrder(o: seq<SortExpr>) { o == [] || (Bare(o[0].expr) && BareOrder(o[1..])) }

  /**
   * No filter or limit right above a projection, no projection to the bare wildcard, no distance-like
   * filter right above a vector scan, no neutral operand in any expression.
   */
  predicate NormalForm(plan: Plan) {
    match plan
    case Scan(_, p, projections) => (p.Some? ==> Bare(p.value)) && AllBare(projections)
    case Filter(input, p) =>
      && !input.Project? && Bare(p) && NormalForm(input)
      && !(input.VectorScan? && p.Binary? && (p.op == VectorDist || p.op == Lt || p.op == Le))
    case Limit(input, _) => !input.Project? && NormalForm(input)
    case Project(input, exprs) => exprs != [Star] && AllBare(exprs) && NormalForm(input)
    case Join(l, r, c) => Bare(c) && NormalForm(l) && NormalForm(r)
    case Aggregate(input, g, a) => AllBare(g) && BareAggs(a) && NormalForm(input)
    case Sort(input, o) => BareOrder(o) && NormalForm(input)
    case ContextOptimize(input, _) => NormalForm(input)
    case _ => true
  }

  lemma {:induction false} FoldIdle(e: Expr)
    ensures FoldExpr(e) == e <==> Bare(e)
    decreases e, 1
  {
    match e
    case Binary(_, l, r) =>
      FoldIdle(l);
      FoldIdle(r);
      FoldShrinks(l);
      FoldShrinks(r);
    case Unary(_, x) => FoldIdle(x);
    case Call(_, args) => FoldAllIdle(args);
    case _ =>
  }

  lemma {:induction false} FoldAllIdle(es: seq<Expr>)
    ensures FoldAll(es) == es <==> AllBare(es)
    decreases es, 0
  {
    if es != [] {
      FoldIdle(es[0]);
      FoldAllIdle(es[1..]);
      assert FoldAll(es)[1..] == FoldAll(es[1..]);
    }
  }

  lemma {:induction false} FoldAggsIdle(a: seq<AggExpr>)
    ensures FoldAggs(a) == a <==> BareAggs(a)
  {
    if a != [] {
      FoldIdle(a[0].arg);
      FoldAggsIdle(a[1..]);
      assert FoldAggs(a)[1..] == FoldAggs(a[1..]) && FoldAggs(a)[0] == FoldAgg(a[0]);
      assert FoldAgg(a[0]) == a[0] <==> FoldExpr(a[0].arg) == a[0].arg;
    }
  }

  lemma {:induction false} FoldOrderIdle(o: seq<SortExpr>)
    ensures FoldOrder(o) == o <==> BareOrder(o)
  {
    if o != [] {
      FoldIdle(o[0].expr);
      FoldOrderIdle(o[1..]);
      assert FoldOrder(o)[1..] == FoldOrder(o[1..]);
      assert FoldOrder(o)[0] == o[0] <==> FoldExpr(o[0].expr) == o[0].expr;
    }
  }

  /** The plan is in normal form exactly when no rule changes it. */
  lemma {:induction false} NormalFormIsIdle(plan: Plan)
    ensures NormalForm(plan) <==> Idle(plan)
  {
    match plan
    case Scan(_, p, projections) =>
      if p.Some? {
        FoldIdle(p.value);
      }
      FoldAllIdle(projections);
    case Filter(input, p) =>
      NormalFormIsIdle(input);
      FoldIdle(p);
    case Limit(input, _) => NormalFormIsIdle(input);
    case Project(input, exprs) =>
      NormalFormIsIdle(input);
      FoldAllIdle(exprs);
      EliminateSettles(input);
    case Join(l, r, c) =>
      NormalFormIsIdle(l);
      NormalFormIsIdle(r);
      FoldIdle(c);
    case Aggregate(input, g, a) =>
      NormalFormIsIdle(input);
      FoldAllIdle(g);
      FoldAggsIdle(a);
    case Sort(input, o) =>
      NormalFormIsIdle(input);
      FoldOrderIdle(o);
    case ContextOptimize(input, _) => NormalFormIsIdle(input);
    case _ =>
  }

  // ---- Passes ----------------------------------------------------------------

  /** No rule changes the plan. */
  predicate Idle(plan: Plan) {
    && PredicatePushdown(plan) == plan
    && LimitPushdown(plan) == plan
    && EliminateRedundantProject(plan) == plan
    && ConstantFold(plan) == plan
    && VectorScanElideFilter(plan) == plan
  }

  /** A pass that changes the plan makes it strictly lighter; it changes nothing exactly in normal form. */
  lemma PassSettles(plan: Plan)
    ensures ApplyAllRules(plan) != plan ==> Weight(ApplyAllRules(plan)) < Weight(plan)
    ensures ApplyAllRules(plan) == plan <==> NormalForm(plan)
  {
    var p1 := PredicatePushdown(plan);
    PushdownSettles(plan);
    var p2 := LimitPushdown(p1);
    LimitSettles(p1);
    var p3 := EliminateRedundantProject(p2);
    EliminateSettles(p2);
    var p4 := ConstantFold(p3);
    ConstantFoldSettles(p3);
    ElideSettles(p4);
    NormalFormIsIdle(plan);
  }

  /** As many passes as the plan weighs always reach a normal form. */
  lemma {:induction false} EnoughPasses(plan: Plan, n: nat)
    requires n >= Weight(plan)
    ensures NormalForm(OptimizeWithin(plan, n))
    decreases n
  {
    PassSettles(plan);
    if n > 0 && ApplyAllRules(plan) != plan {
      EnoughPasses(ApplyAllRules(plan), n - 1);
    }
  }

  /** The result is a normal form exactly when the last pass allowed changed nothing. */
  lemma {:induction false} EarlyExit(plan: Plan, n: nat)
    ensures NormalForm(OptimizeWithin(plan, n)) <==> OptimizeWithin(plan, n) == OptimizeWithin(plan, n + 1)
    decreases n
  {
    PassSettles(plan);
    if ApplyAllRules(plan) != plan {
      assert OptimizeWithin(plan, n + 1) == OptimizeWithin(ApplyAllRules(plan), n);
      if n > 0 {
        EarlyExit(ApplyAllRules(plan), n - 1);
      }
    }
  }
}
