/** Scalar expressions and logical query plans. */
module Plans {

  datatype Option<+T> = None | Some(value: T)

  datatype Literal =
    | Int(i: int)
    | Float(f: real)
    | Str(s: string)
    | Bool(b: bool)
    | Null
    | Vector(v: seq<real>)

  datatype BinaryOp = Eq | Ne | Lt | Le | Gt | Ge | And | Or | Add | Sub | Mul | Div | VectorDist

  datatype UnaryOp = Not | Neg

  datatype Expr =
    | Column(name: string)
    | Lit(lit: Literal)
    | Binary(op: BinaryOp, left: Expr, right: Expr)
    | Unary(uop: UnaryOp, operand: Expr)
    | Call(fn: string, args: seq<Expr>)
    | Param(param: string)
    | VectorRef(field: string)
    | Star

  datatype SortExpr = SortExpr(expr: Expr, asc: bool)

  datatype AggFunc = Count | Sum | Avg | Min | Max

  datatype AggExpr = AggExpr(func: AggFunc, arg: Expr, alias: Option<string>)

  datatype ContextOptions = ContextOptions(
    maxTokens: Option<nat>, coherence: Option<real>, diversity: Option<real>, contradictions: Option<bool>)

  datatype UnderstandOptions = UnderstandOptions(
    minConfidence: Option<real>, withinDays: Option<nat>, depth: Option<nat>,
    collection: Option<string>, vectorField: Option<string>, minSimilarity: Option<real>)

  datatype Plan =
    | Scan(collection: string, pred: Option<Expr>, projections: seq<Expr>)
    | VectorScan(collection: string, vectorField: string, query: seq<real>, threshold: real)
    | GraphTraverse(from: Expr, edge: string, minDepth: nat, maxDepth: nat)
    | CausalTrace(from: Expr, to: Expr, maxDepth: nat, minStrength: real, minStability: Option<real>)
    | Filter(input: Plan, filter: Expr)
    | Project(input: Plan, exprs: seq<Expr>)
    | Join(leftPlan: Plan, rightPlan: Plan, condition: Expr)
    | Aggregate(input: Plan, groupBy: seq<Expr>, aggregates: seq<AggExpr>)
    | Sort(input: Plan, orderBy: seq<SortExpr>)
    | Limit(input: Plan, n: nat)
    | ContextOptimize(input: Plan, options: ContextOptions)
    | Understand(intent: string, understand: UnderstandOptions)
    | EstimateEffect(model: string, setVars: map<string, real>, predict: string)
    | Counterfactual(model: string, observed: map<string, real>, had: map<string, real>, predict: string)
    | Insert(collection: string, columns: seq<string>, values: seq<seq<Expr>>)
    | Empty
}
