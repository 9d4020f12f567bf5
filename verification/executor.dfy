/**
 * What a plan denotes: the rows the executor returns for it. Row-level filtering follows the
 * filter operator exactly; floats are reals.
 */
module Execution {
  import opened Plans
  import opened Rules
  import opened StringOrder

  datatype DataValue = DBool(b: bool) | DInt(i: int) | DFloat(f: real) | DStr(s: string) | DNull

  /** A stored record; `data` is None when its payload does not decode. */
  datatype Row = Row(key: string, collection: string, tenant: nat, confidence: real,
                     data: Option<map<string, DataValue>>, vectors: map<string, seq<real>>)

  type Rows = seq<Row>

  const F32_EPSILON: real := 1.0 / 8388608.0
  const F64_EPSILON: real := 1.0 / 4503599627370496.0

  // ---- Comparisons ---------------------------------------------------------

  function Abs(x: real): (r: real)
    ensures r >= 0.0 && (r == x || r == -x)
  {
    if x < 0.0 then -x else x
  }

  function CompareReal(l: real, op: BinaryOp, r: real, eps: real): bool {
    match op
    case Eq => Abs(l - r) < eps
    case Ne => Abs(l - r) >= eps
    case Lt => l < r
    case Le => l <= r
    case Gt => l > r
    case Ge => l >= r
    case _ => true
  }

  function CompareStr(l: string, op: BinaryOp, r: string): bool {
    var c := CompareStrings(l, r);
    match op
    case Eq => c == 0
    case Ne => c != 0
    case Lt => c < 0
    case Le => c <= 0
    case Gt => c > 0
    case Ge => c >= 0
    case _ => true
  }

  function FlipOp(op: BinaryOp): BinaryOp {
    match op
    case Lt => Gt
    case Le => Ge
    case Gt => Lt
    case Ge => Le
    case _ => op
  }

  function ExtractFloat(e: Expr): Option<real> {
    match e
    case Lit(Float(f)) => Some(f)
    case Lit(Int(i)) => Some(i as real)
    case _ => None
  }

  // ---- The filter operator -------------------------------------------------

  function EvalColumn(col: string, op: BinaryOp, lit: Expr, row: Row): bool {
    if col == "_collection" then
      if lit.Lit? && lit.lit.Str? then CompareStr(row.collection, op, lit.lit.s) else true
    else if col == "_tenant" then
      if ExtractFloat(lit).Some? then CompareReal(row.tenant as real, op, ExtractFloat(lit).value, F64_EPSILON) else true
    else if col == "_confidence" then
      if ExtractFloat(lit).Some? then CompareReal(row.confidence, op, ExtractFloat(lit).value, F32_EPSILON) else true
    else if row.data.None? then true
    else if col !in row.data.value then false
    else
      var v := row.data.value[col];
      if v.DInt? && ExtractFloat(lit).Some? then CompareReal(v.i as real, op, ExtractFloat(lit).value, F64_EPSILON)
      else if v.DFloat? && ExtractFloat(lit).Some? then CompareReal(v.f, op, ExtractFloat(lit).value, F64_EPSILON)
      else if v.DStr? && lit.Lit? && lit.lit.Str? then CompareStr(v.s, op, lit.lit.s)
      else if v.DBool? && lit.Lit? && lit.lit.Bool? then
        (if op == Eq then v.b == lit.lit.b else if op == Ne then v.b != lit.lit.b else true)
      else false
  }

  function EvalBinary(op: BinaryOp, l: Expr, r: Expr, row: Row): bool {
    if l.Column? && ExtractFloat(r).Some? && l.name == "_confidence" then
      CompareReal(row.confidence, op, ExtractFloat(r).value, F32_EPSILON)
    else if r.Column? && ExtractFloat(l).Some? && r.name == "_confidence" then
      CompareReal(ExtractFloat(l).value, FlipOp(op), row.confidence, F32_EPSILON)
    else if l.Column? then EvalColumn(l.name, op, r, row)
    else if r.Column? then EvalColumn(r.name, FlipOp(op), l, row)
    else true
  }

  /** Whether a row passes a predicate; unsupported forms pass. */
  function Passes(e: Expr, row: Row): bool {
    match e
    case Lit(Bool(b)) => b
    case Lit(Null) => false
    case Binary(And, l, r) => Passes(l, row) && Passes(r, row)
    case Binary(Or, l, r) => Passes(l, row) || Passes(r, row)
    case Unary(Not, x) => !Passes(x, row)
    case Binary(op, l, r) => EvalBinary(op, l, r, row)
    case _ => true
  }

  function FilterRows(p: Expr, rows: Rows): Rows {
    if rows == [] then []
    else (if Passes(p, rows[0]) then [rows[0]] else []) + FilterRows(p, rows[1..])
  }

  // ---- The sort operator ---------------------------------------------------

  datatype SortValue = SFloat(f: real) | SStr(s: string) | SNull

  function SortKey(row: Row, col: string): SortValue {
    if col == "_confidence" then SFloat(row.confidence)
    else if col == "_collection" then SStr(row.collection)
    else if col == "_tenant" then SFloat(row.tenant as real)
    else if row.data.None? || col !in row.data.value then SNull
    else match row.data.value[col]
      case DInt(i) => SFloat(i as real)
      case DFloat(f) => SFloat(f)
      case DStr(s) => SStr(s)
      case DBool(b) => SFloat(if b then 1.0 else 0.0)
      case DNull => SNull
  }

  function CompareKeys(a: SortValue, b: SortValue): int {
    match (a, b)
    case (SNull, SNull) => 0
    case (SNull, _) => 1
    case (_, SNull) => -1
    case (SFloat(x), SFloat(y)) => if x < y then -1 else if x > y then 1 else 0
    case (SStr(x), SStr(y)) => CompareStrings(x, y)
    case (SFloat(_), SStr(_)) => -1
    case (SStr(_), SFloat(_)) => 1
  }

  /** Compare two rows by the sort keys in turn; keys that are not columns are skipped. */
  function CompareRows(a: Row, b: Row, order: seq<SortExpr>): int {
    if order == [] then 0
    else if !order[0].expr.Column? then CompareRows(a, b, order[1..])
    else
      var c := CompareKeys(SortKey(a, order[0].expr.name), SortKey(b, order[0].expr.name));
      if c != 0 then (if order[0].asc then c else -c) else CompareRows(a, b, order[1..])
  }

  function PlaceRow(x: Row, rows: Rows, order: seq<SortExpr>): Rows {
    if rows == [] || CompareRows(x, rows[0], order) <= 0 then [x] + rows
    else [rows[0]] + PlaceRow(x, rows[1..], order)
  }

  /** Stable sort. */
  function SortRows(rows: Rows, order: seq<SortExpr>): Rows {
    if rows == [] then [] else PlaceRow(rows[0], SortRows(rows[1..], order), order)
  }

  // ---- Plans ---------------------------------------------------------------

  /**
   * What the plan nodes are run against: the stored collections, the distance of two vectors, and
   * the meaning of the nodes whose operators may still change.
   */
  datatype Env = Env(
    scan: string -> Rows,
    distance: (seq<real>, seq<real>) -> real,
    project: (seq<Expr>, Row) -> Row,
    join: (Rows, Rows, Expr) -> Rows,
    aggregate: (Rows, seq<Expr>, seq<AggExpr>) -> Rows,
    context: (Rows, ContextOptions) -> Rows)

  function ProjectRows(env: Env, exprs: seq<Expr>, rows: Rows): Rows {
    if rows == [] then [] else [env.project(exprs, rows[0])] + ProjectRows(env, exprs, rows[1..])
  }

  function NearRows(env: Env, field: string, query: seq<real>, threshold: real, rows: Rows): Rows {
    if rows == [] then []
    else (if field in rows[0].vectors && env.distance(query, rows[0].vectors[field]) < threshold
          then [rows[0]] else [])
         + NearRows(env, field, query, threshold, rows[1..])
  }

  function Truncate(rows: Rows, n: nat): Rows {
    if n <= |rows| then rows[..n] else rows
  }

  function Execute(env: Env, plan: Plan): Rows {
    match plan
    case Scan(c, p, projections) =>
      var kept := if p.Some? then FilterRows(p.value, env.scan(c)) else env.scan(c);
      if projections == [] then kept else ProjectRows(env, projections, kept)
    case VectorScan(c, field, query, threshold) => NearRows(env, field, query, threshold, env.scan(c))
    case Filter(input, p) => FilterRows(p, Execute(env, input))
    case Project(input, exprs) => ProjectRows(env, exprs, Execute(env, input))
    case Limit(input, n) => Truncate(Execute(env, input), n)
    case Sort(input, o) => SortRows(Execute(env, input), o)
    case Join(l, r, c) => env.join(Execute(env, l), Execute(env, r), c)
    case Aggregate(input, g, a) => env.aggregate(Execute(env, input), g, a)
    case ContextOptimize(input, o) => env.context(Execute(env, input), o)
    case _ => []
  }

  /** The executor as it stands: projections pass rows through, unfinished operators return nothing. */
  function ExecutorEnv(scan: string -> Rows, distance: (seq<real>, seq<real>) -> real): Env {
    Env(scan, distance, (exprs, row) => row, (l, r, c) => [], (rows, g, a) => [], (rows, o) => [])
  }

  /** A projection that keeps the named payload columns and everything else of a record. */
  function KeepColumns(exprs: seq<Expr>, row: Row): Row {
    if Star in exprs || row.data.None? then row
    else row.(data := Some(map c | c in row.data.value && Column(c) in exprs :: row.data.value[c]))
  }

  function ColumnEnv(scan: string -> Rows, distance: (seq<real>, seq<real>) -> real): Env {
    ExecutorEnv(scan, distance).(project := KeepColumns)
  }
}
