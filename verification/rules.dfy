/** The five rewrite rules and the bounded loop that applies them. */
module Rules {
  import opened Plans

  /** Filter above Project becomes Project above Filter. */
  function PredicatePushdown(plan: Plan): Plan {
    match plan
    case Filter(Project(child, exprs), p) => Project(Filter(PredicatePushdown(child), p), exprs)
    case Filter(input, p) => Filter(PredicatePushdown(input), p)
    case Project(input, exprs) => Project(PredicatePushdown(input), exprs)
    case Join(l, r, c) => Join(PredicatePushdown(l), PredicatePushdown(r), c)
    case Aggregate(input, g, a) => Aggregate(PredicatePushdown(input), g, a)
    case Sort(input, o) => Sort(PredicatePushdown(input), o)
    case Limit(input, n) => Limit(PredicatePushdown(input), n)
    case ContextOptimize(input, o) => ContextOptimize(PredicatePushdown(input), o)
    case _ => plan
  }

  /** Limit above Project becomes Project above Limit. */
  function LimitPushdown(plan: Plan): Plan {
    match plan
    case Limit(Project(child, exprs), n) => Project(Limit(LimitPushdown(child), n), exprs)
    case Limit(input, n) => Limit(LimitPushdown(input), n)
    case Filter(input, p) => Filter(LimitPushdown(input), p)
    case Project(input, exprs) => Project(LimitPushdown(input), exprs)
    case Join(l, r, c) => Join(LimitPushdown(l), LimitPushdown(r), c)
    case Aggregate(input, g, a) => Aggregate(LimitPushdown(input), g, a)
    case Sort(input, o) => Sort(LimitPushdown(input), o)
    case ContextOptimize(input, o) => ContextOptimize(LimitPushdown(input), o)
    case _ => plan
  }

  /** A projection to the bare wildcard is dropped. */
  function EliminateRedundantProject(plan: Plan): Plan {
    match plan
    case Project(input, exprs) =>
      if exprs == [Star] then EliminateRedundantProject(input)
      else Project(EliminateRedundantProject(input), exprs)
    case Filter(input, p) => Filter(EliminateRedundantProject(input), p)
    case Join(l, r, c) => Join(EliminateRedundantProject(l), EliminateRedundantProject(r), c)
    case Aggregate(input, g, a) => Aggregate(EliminateRedundantProject(input), g, a)
    case Sort(input, o) => Sort(EliminateRedundantProject(input), o)
    case Limit(input, n) => Limit(EliminateRedundantProject(input), n)
    case ContextOptimize(input, o) => ContextOptimize(EliminateRedundantProject(input), o)
    case _ => plan
  }

  const TRUE := Lit(Bool(true))
  const FALSE := Lit(Bool(false))

  /** Drop a neutral boolean operand, innermost first. */
  function FoldExpr(e: Expr): Expr
    decreases e, 1
  {
    match e
    case Binary(op, l, r) =>
      var left, right := FoldExpr(l), FoldExpr(r);
      if op == And then
        if left == TRUE then right else if right == TRUE then left else Binary(op, left, right)
      else if op == Or then
        if left == FALSE then right else if right == FALSE then left else Binary(op, left, right)
      else Binary(op, left, right)
    case Unary(op, x) => Unary(op, FoldExpr(x))
    case Call(f, args) => Call(f, FoldAll(args))
    case _ => e
  }

  function FoldAll(es: seq<Expr>): seq<Expr>
    decreases es, 0
  {
    if es == [] then [] else [FoldExpr(es[0])] + FoldAll(es[1..])
  }

  function FoldAgg(a: AggExpr): AggExpr { a.(arg := FoldExpr(a.arg)) }

  function FoldAggs(aggs: seq<AggExpr>): seq<AggExpr> {
    if aggs == [] then [] else [FoldAgg(aggs[0])] + FoldAggs(aggs[1..])
  }

  function FoldOrder(o: seq<SortExpr>): seq<SortExpr> {
    if o == [] then [] else [o[0].(expr := FoldExpr(o[0].expr))] + FoldOrder(o[1..])
  }

  function FoldOption(p: Option<Expr>): Option<Expr> {
    if p.None? then None else Some(FoldExpr(p.value))
  }

  /** Fold every expression of every node. */
  function ConstantFold(plan: Plan): Plan {
    match plan
    case Filter(input, p) => Filter(ConstantFold(input), FoldExpr(p))
    case Project(input, exprs) => Project(ConstantFold(input), FoldAll(exprs))
    case Join(l, r, c) => Join(ConstantFold(l), ConstantFold(r), FoldExpr(c))
    case Aggregate(input, g, a) => Aggregate(ConstantFold(input), FoldAll(g), FoldAggs(a))
    case Sort(input, o) => Sort(ConstantFold(input), FoldOrder(o))
    case Limit(input, n) => Limit(ConstantFold(input), n)
    case ContextOptimize(input, o) => ContextOptimize(ConstantFold(input), o)
    case Scan(c, p, projections) => Scan(c, FoldOption(p), FoldAll(projections))
    case _ => plan
  }

  predicate IsVectorDistPredicate(e: Expr) {
    e.Binary? && (e.op == VectorDist || e.op == Lt || e.op == Le)
  }

  /** A filter right above a vector scan goes when its operator looks like a distance test. */
  function VectorScanElideFilter(plan: Plan): Plan {
    match plan
    case Filter(input, p) =>
      if input.VectorScan? && IsVectorDistPredicate(p) then input
      else Filter(VectorScanElideFilter(input), p)
    case Project(input, exprs) => Project(VectorScanElideFilter(input), exprs)
    case Join(l, r, c) => Join(VectorScanElideFilter(l), VectorScanElideFilter(r), c)
    case Aggregate(input, g, a) => Aggregate(VectorScanElideFilter(input), g, a)
    case Sort(input, o) => Sort(VectorScanElideFilter(input), o)
    case Limit(input, n) => Limit(VectorScanElideFilter(input), n)
    case ContextOptimize(input, o) => ContextOptimize(VectorScanElideFilter(input), o)
    case _ => plan
  }

  function ApplyAllRules(plan: Plan): Plan {
    VectorScanElideFilter(ConstantFold(EliminateRedundantProject(LimitPushdown(PredicatePushdown(plan)))))
  }

  /** At most `n` passes, stopping at the first that changes nothing. */
  function Iterate(pass: Plan -> Plan, plan: Plan, n: nat): Plan
    decreases n
  {
    if n == 0 || pass(plan) == plan then plan else Iterate(pass, pass(plan), n - 1)
  }

  const MAX_PASSES: nat := 8

  function OptimizeWithin(plan: Plan, n: nat): Plan {
    Iterate(ApplyAllRules, plan, n)
  }

  /** The bounded loop, for whatever a pass does. */
  method RunPasses(pass: Plan -> Plan, plan: Plan, limit: nat) returns (current: Plan)
    ensures current == Iterate(pass, plan, limit)
  {
    current := plan;
    for i := 0 to limit
      invariant Iterate(pass, current, limit - i) == Iterate(pass, plan, limit)
    {
      var next := pass(current);
      if next == current {
        break;
      }
      current := next;
    }
  }

  method Optimize(plan: Plan) returns (current: Plan)
    ensures current == OptimizeWithin(plan, MAX_PASSES)
  {
    current := RunPasses(ApplyAllRules, plan, MAX_PASSES);
  }
}
