/**
 * What single operators return: the comparisons of the filter, row by row the filter, the vector scan and
 * the projection, and the sort, which keeps all rows, in order, equal ones as they came.
 */
module Operators {
  import opened Plans
  import opened Execution
  import opened StringOrder

  // ---- Comparisons -----------------------------------------------------------

  /** Numbers compare by size, equality within a tolerance; each operator has its opposite and its mirror. */
  lemma NumbersCompare(a: real, b: real, op: BinaryOp, eps: real)
    requires eps > 0.0
    ensures CompareReal(a, Lt, b, eps) <==> a < b
    ensures CompareReal(a, Eq, b, eps) <==> b - eps < a < b + eps
    ensures CompareReal(a, Ge, b, eps) <==> !CompareReal(a, Lt, b, eps)
    ensures CompareReal(a, Le, b, eps) <==> !CompareReal(a, Gt, b, eps)
    ensures CompareReal(a, Ne, b, eps) <==> !CompareReal(a, Eq, b, eps)
    ensures CompareReal(a, FlipOp(op), b, eps) <==> CompareReal(b, op, a, eps)
  {
  }

  /** Strings compare lexicographically, with the same opposites and mirrors. */
  lemma StringsCompare(a: string, b: string, op: BinaryOp)
    ensures CompareStr(a, Lt, b) <==> Precedes(a, b)
    ensures CompareStr(a, Eq, b) <==> a == b
    ensures CompareStr(a, Ge, b) <==> !CompareStr(a, Lt, b)
    ensures CompareStr(a, Le, b) <==> !CompareStr(a, Gt, b)
    ensures CompareStr(a, Ne, b) <==> !CompareStr(a, Eq, b)
    ensures CompareStr(a, FlipOp(op), b) <==> CompareStr(b, op, a)
  {
    CompareStringsMeans(a, b);
    CompareStringsMeans(b, a);
  }

  /** Connectives mean what they say; literals decide by themselves. */
  lemma Connectives(l: Expr, r: Expr, row: Row)
    ensures Passes(Unary(Not, l), row) <==> !Passes(l, row)
    ensures Passes(Binary(And, l, r), row) <==> !Passes(Unary(Not, l), row) && !Passes(Unary(Not, r), row)
    ensures Passes(Binary(Or, l, r), row) <==> !(Passes(Unary(Not, l), row) && Passes(Unary(Not, r), row))
    ensures Passes(Lit(Bool(true)), row) && !Passes(Lit(Bool(false)), row) && !Passes(Lit(Null), row)
  {
  }

  function WithField(row: Row, c: string, v: DataValue): Row
    requires row.data.Some?
  {
    row.(data := Some(row.data.value[c := v]))
  }

  /** A missing or null field fails every test; a payload that does not decode passes every one. */
  lemma AbsentFields(c: string, op: BinaryOp, e: Expr, row: Row)
    requires c != "_collection" && c != "_tenant" && c != "_confidence"
    ensures row.data.None? ==> EvalColumn(c, op, e, row)
    ensures row.data.Some? && c !in row.data.value ==> !EvalColumn(c, op, e, row)
    ensures row.data.Some? ==> !EvalColumn(c, op, e, WithField(row, c, DNull))
  {
  }

  /** Stored and literal integers compare as the equal floats. */
  lemma IntegersCompare(c: string, op: BinaryOp, e: Expr, row: Row, i: int)
    requires row.data.Some? && c != "_collection" && c != "_tenant" && c != "_confidence"
    ensures EvalColumn(c, op, e, WithField(row, c, DInt(i))) == EvalColumn(c, op, e, WithField(row, c, DFloat(i as real)))
    ensures EvalColumn(c, op, Lit(Int(i)), row) == EvalColumn(c, op, Lit(Float(i as real)), row)
  {
  }

  /** A boolean field can only be told equal or different; every other test passes. */
  lemma BooleansCompare(c: string, op: BinaryOp, row: Row, stored: bool, given: bool)
    requires row.data.Some? && c != "_collection" && c != "_tenant" && c != "_confidence"
    ensures EvalColumn(c, op, Lit(Bool(given)), WithField(row, c, DBool(stored)))
       <==> (stored == given && op == Eq) || (stored != given && op == Ne) || (op != Eq && op != Ne)
  {
  }

  /** Text and number fields compare with literals of their kind, and fail every test against another kind. */
  lemma KindsCompare(c: string, op: BinaryOp, row: Row, text: string, number: real, s: string, f: real)
    requires row.data.Some? && c != "_collection" && c != "_tenant" && c != "_confidence"
    ensures EvalColumn(c, op, Lit(Str(s)), WithField(row, c, DStr(text))) == CompareStr(text, op, s)
    ensures EvalColumn(c, op, Lit(Float(f)), WithField(row, c, DFloat(number))) == CompareReal(number, op, f, F64_EPSILON)
    ensures !EvalColumn(c, op, Lit(Float(f)), WithField(row, c, DStr(text)))
    ensures !EvalColumn(c, op, Lit(Str(s)), WithField(row, c, DFloat(number)))
  {
  }

  /** The columns every record has compare likewise, and pass every test against another kind. */
  lemma RecordColumnsCompare(op: BinaryOp, row: Row, s: string, f: real)
    ensures EvalColumn("_collection", op, Lit(Str(s)), row) == CompareStr(row.collection, op, s)
    ensures EvalColumn("_tenant", op, Lit(Float(f)), row) == CompareReal(row.tenant as real, op, f, F64_EPSILON)
    ensures EvalColumn("_confidence", op, Lit(Float(f)), row) == CompareReal(row.confidence, op, f, F32_EPSILON)
    ensures EvalColumn("_collection", op, Lit(Float(f)), row)
    ensures EvalColumn("_tenant", op, Lit(Str(s)), row) && EvalColumn("_confidence", op, Lit(Str(s)), row)
  {
  }

  // ---- Row by row ------------------------------------------------------------

  lemma {:induction false} FilterJoins(p: Expr, a: Rows, b: Rows)
    ensures FilterRows(p, a + b) == FilterRows(p, a) + FilterRows(p, b)
  {
    if a == [] {
      assert a + b == b;
    } else {
      assert (a + b)[1..] == a[1..] + b && (a + b)[0] == a[0];
      FilterJoins(p, a[1..], b);
      var first := if Passes(p, a[0]) then [a[0]] else [];
      assert FilterRows(p, a) == first + FilterRows(p, a[1..]);
      assert FilterRows(p, a + b) == first + FilterRows(p, a[1..] + b);
    }
  }

  /** A record stays exactly when it passes, and records are filtered one by one. */
  lemma FilterLaws(p: Expr, x: Row, a: Rows, b: Rows)
    ensures FilterRows(p, []) == [] && FilterRows(p, [x]) == (if Passes(p, x) then [x] else [])
    ensures FilterRows(p, a + b) == FilterRows(p, a) + FilterRows(p, b)
  {
    assert [x][1..] == [];
    FilterJoins(p, a, b);
  }

  lemma {:induction false} NearJoins(env: Env, field: string, query: seq<real>, threshold: real, a: Rows, b: Rows)
    ensures NearRows(env, field, query, threshold, a + b)
         == NearRows(env, field, query, threshold, a) + NearRows(env, field, query, threshold, b)
  {
    if a == [] {
      assert a + b == b;
    } else {
      assert (a + b)[1..] == a[1..] + b;
      NearJoins(env, field, query, threshold, a[1..], b);
    }
  }

  /** A record is scanned exactly when it has the vector and that lies nearer than the threshold. */
  lemma ScanLaws(env: Env, field: string, query: seq<real>, threshold: real, x: Row, a: Rows, b: Rows)
    ensures NearRows(env, field, query, threshold, []) == []
    ensures field !in x.vectors ==> NearRows(env, field, query, threshold, [x]) == []
    ensures field in x.vectors ==>
              NearRows(env, field, query, threshold, [x])
              == if env.distance(query, x.vectors[field]) >= threshold then [] else [x]
    ensures NearRows(env, field, query, threshold, a + b)
         == NearRows(env, field, query, threshold, a) + NearRows(env, field, query, threshold, b)
  {
    assert [x][1..] == [];
    NearJoins(env, field, query, threshold, a, b);
  }

  /** Projection returns each row's projection in its place. */
  lemma {:induction false} ProjectLaws(env: Env, exprs: seq<Expr>, rows: Rows)
    ensures |ProjectRows(env, exprs, rows)| == |rows|
    ensures forall i :: 0 <= i < |rows| ==> ProjectRows(env, exprs, rows)[i] == env.project(exprs, rows[i])
  {
    if rows != [] {
      ProjectLaws(env, exprs, rows[1..]);
    }
  }

  /** A limit keeps the first rows, as many as allowed and there are. */
  lemma LimitLaws(env: Env, input: Plan, n: nat)
    ensures var rows, kept := Execute(env, input), Execute(env, Limit(input, n));
            kept <= rows && |kept| <= n && (|kept| < n ==> kept == rows)
  {
  }

  /** A scan with a predicate and a projection list is the bare scan, filtered, then projected when the list is not empty. */
  lemma ScanMeans(env: Env, c: string, p: Expr, projections: seq<Expr>)
    ensures Execute(env, Scan(c, None, [])) == env.scan(c)
    ensures Execute(env, Scan(c, Some(p), [])) == Execute(env, Filter(Scan(c, None, []), p))
    ensures projections != [] ==>
              && Execute(env, Scan(c, None, projections)) == Execute(env, Project(Scan(c, None, []), projections))
              && Execute(env, Scan(c, Some(p), projections)) == Execute(env, Project(Scan(c, Some(p), []), projections))
  {
  }

  // ---- The order -------------------------------------------------------------

  /** Numbers before strings before nothing; numbers by size, strings lexicographically. */
  ghost predicate KeyBefore(a: SortValue, b: SortValue) {
    || (a.SFloat? && b.SFloat? && a.f < b.f)
    || (a.SStr? && b.SStr? && Precedes(a.s, b.s))
    || (a.SFloat? && b.SStr?)
    || (!a.SNull? && b.SNull?)
  }

  lemma KeysMean(a: SortValue, b: SortValue)
    ensures CompareKeys(a, b) < 0 <==> KeyBefore(a, b)
    ensures CompareKeys(a, b) > 0 <==> KeyBefore(b, a)
    ensures CompareKeys(a, b) == 0 <==> a == b
  {
    if a.SStr? && b.SStr? {
      CompareStringsMeans(a.s, b.s);
      CompareStringsMeans(b.s, a.s);
    }
  }

  lemma KeysTransitive(a: SortValue, b: SortValue, c: SortValue)
    requires CompareKeys(a, b) <= 0 && CompareKeys(b, c) <= 0
    ensures CompareKeys(a, c) <= 0
    ensures CompareKeys(a, b) < 0 || CompareKeys(b, c) < 0 ==> CompareKeys(a, c) < 0
  {
    if a.SStr? && b.SStr? && c.SStr? {
      CompareStringsTransitive(a.s, b.s, c.s);
    }
  }

  /** The columns every record has sort by their own values. */
  lemma RecordKeys(row: Row)
    ensures SortKey(row, "_confidence") == SFloat(row.confidence)
    ensures SortKey(row, "_tenant") == SFloat(row.tenant as real)
    ensures SortKey(row, "_collection") == SStr(row.collection)
  {
  }

  /** Payload fields: integers and floats by size, false before true before what is above 1, text as text, the rest last. */
  lemma FieldKeys(row: Row, c: string, i: int, f: real, s: string)
    requires c != "_collection" && c != "_tenant" && c != "_confidence"
    ensures row.data.None? || c !in row.data.value ==> SortKey(row, c) == SNull
    ensures row.data.Some? ==>
              && SortKey(WithField(row, c, DNull), c) == SNull
              && SortKey(WithField(row, c, DInt(i)), c) == SortKey(WithField(row, c, DFloat(i as real)), c)
              && SortKey(WithField(row, c, DFloat(f)), c) == SFloat(f)
              && SortKey(WithField(row, c, DStr(s)), c) == SStr(s)
              && SortKey(WithField(row, c, DBool(false)), c) == SFloat(0.0)
              && SortKey(WithField(row, c, DBool(true)), c) == SFloat(1.0)
  {
  }

  ghost predicate Ties(a: Row, b: Row, key: SortExpr) {
    key.expr.Column? ==> SortKey(a, key.expr.name) == SortKey(b, key.expr.name)
  }

  /** The first key on which the rows differ puts `a` first: the smaller value, or the greater when descending. */
  ghost predicate Decides(a: Row, b: Row, order: seq<SortExpr>, i: nat) {
    && i < |order| && order[i].expr.Column?
    && (forall j {:trigger order[j]} :: 0 <= j < i ==> Ties(a, b, order[j]))
    && var x, y := SortKey(a, order[i].expr.name), SortKey(b, order[i].expr.name);
       if order[i].asc then KeyBefore(x, y) else KeyBefore(y, x)
  }

  ghost predicate RowBefore(a: Row, b: Row, order: seq<SortExpr>) {
    exists i: nat :: Decides(a, b, order, i)
  }

  ghost predicate AllTie(a: Row, b: Row, order: seq<SortExpr>) {
    forall j {:trigger order[j]} :: 0 <= j < |order| ==> Ties(a, b, order[j])
  }

  lemma DecidesLater(a: Row, b: Row, order: seq<SortExpr>, i: nat)
    requires order != [] && Ties(a, b, order[0])
    ensures Decides(a, b, order, i + 1) <==> Decides(a, b, order[1..], i)
  {
    if i + 1 < |order| {
      assert order[1..][i] == order[i + 1];
      assert forall j :: 0 <= j < i ==> order[1..][j] == order[j + 1];
      assert forall j :: 0 < j < i + 1 ==> order[j] == order[1..][j - 1];
    }
  }

  /** The comparison decides by the first key that tells the rows apart. */
  lemma {:induction false} RowsMean(a: Row, b: Row, order: seq<SortExpr>)
    ensures CompareRows(a, b, order) < 0 <==> RowBefore(a, b, order)
    ensures CompareRows(a, b, order) == 0 <==> AllTie(a, b, order)
    ensures CompareRows(a, b, order) == 0 || RowBefore(a, b, order) || CompareRows(a, b, order) > 0
  {
    if order != [] {
      RowsMean(a, b, order[1..]);
      if order[0].expr.Column? {
        var x, y := SortKey(a, order[0].expr.name), SortKey(b, order[0].expr.name);
        KeysMean(x, y);
        KeysMean(y, x);
      }
      if Ties(a, b, order[0]) {
        assert AllTie(a, b, order) <==> AllTie(a, b, order[1..]) by {
          assert forall j :: 0 < j < |order| ==> order[j] == order[1..][j - 1];
          assert forall j :: 0 <= j < |order[1..]| ==> order[1..][j] == order[j + 1];
        }
        LaterKeys(a, b, order);
      } else {
        FirstKey(a, b, order);
      }
    }
  }

  lemma LaterKeys(a: Row, b: Row, order: seq<SortExpr>)
    requires order != [] && Ties(a, b, order[0])
    ensures RowBefore(a, b, order) <==> RowBefore(a, b, order[1..])
  {
    if order[0].expr.Column? {
      KeysMean(SortKey(a, order[0].expr.name), SortKey(b, order[0].expr.name));
    }
    if i: nat :| Decides(a, b, order, i) {
      assert i > 0;
      DecidesLater(a, b, order, i - 1);
    }
    if i: nat :| Decides(a, b, order[1..], i) {
      DecidesLater(a, b, order, i);
    }
  }

  lemma DecidesBehind(a: Row, b: Row, order: seq<SortExpr>, i: nat)
    requires order != [] && Decides(a, b, order, i)
    ensures i == 0 || Ties(a, b, order[0])
  {
  }

  lemma FirstKey(a: Row, b: Row, order: seq<SortExpr>)
    requires order != [] && !Ties(a, b, order[0])
    ensures RowBefore(a, b, order) <==> Decides(a, b, order, 0)
  {
    forall i: nat | Decides(a, b, order, i) ensures i == 0 {
      DecidesBehind(a, b, order, i);
    }
  }

  lemma {:induction false} RowsOpposite(a: Row, b: Row, order: seq<SortExpr>)
    ensures CompareRows(a, b, order) <= 0 <==> CompareRows(b, a, order) >= 0
    ensures CompareRows(a, b, order) == 0 <==> CompareRows(b, a, order) == 0
  {
    if order != [] {
      RowsOpposite(a, b, order[1..]);
      if order[0].expr.Column? {
        var x, y := SortKey(a, order[0].expr.name), SortKey(b, order[0].expr.name);
        KeysMean(x, y);
        KeysMean(y, x);
      }
    }
  }

  lemma {:induction false} RowsTransitive(a: Row, b: Row, c: Row, order: seq<SortExpr>)
    requires CompareRows(a, b, order) <= 0 && CompareRows(b, c, order) <= 0
    ensures CompareRows(a, c, order) <= 0
  {
    if order != [] {
      if order[0].expr.Column? {
        var x, y, z := SortKey(a, order[0].expr.name), SortKey(b, order[0].expr.name), SortKey(c, order[0].expr.name);
        KeysMean(x, y);
        KeysMean(y, z);
        KeysMean(x, z);
        KeysMean(y, x);
        KeysMean(z, y);
        KeysMean(z, x);
        if order[0].asc {
          KeysTransitive(x, y, z);
        } else {
          KeysTransitive(z, y, x);
        }
        if x == y == z {
          RowsTransitive(a, b, c, order[1..]);
        }
      } else {
        RowsTransitive(a, b, c, order[1..]);
      }
    }
  }

  // ---- The operator ----------------------------------------------------------

  /** No row stands behind one it belongs before. */
  ghost predicate Ordered(rows: Rows, order: seq<SortExpr>) {
    forall i, j :: 0 <= i < j < |rows| ==> CompareRows(rows[i], rows[j], order) <= 0
  }

  /** The rows no key tells from `x`, as they come. */
  ghost function Alike(rows: Rows, x: Row, order: seq<SortExpr>): Rows {
    if rows == [] then [] else (if AllTie(rows[0], x, order) then [rows[0]] else []) + Alike(rows[1..], x, order)
  }

  lemma {:induction false} PlaceMembers(x: Row, rows: Rows, order: seq<SortExpr>)
    ensures multiset(PlaceRow(x, rows, order)) == multiset(rows) + multiset{x}
  {
    if !(rows == [] || CompareRows(x, rows[0], order) <= 0) {
      PlaceMembers(x, rows[1..], order);
      assert rows == [rows[0]] + rows[1..];
    }
  }

  lemma {:induction false} PlaceOrdered(x: Row, rows: Rows, order: seq<SortExpr>)
    requires Ordered(rows, order)
    ensures Ordered(PlaceRow(x, rows, order), order)
  {
    if rows == [] {
    } else if CompareRows(x, rows[0], order) <= 0 {
      forall j | 0 <= j < |rows| ensures CompareRows(x, rows[j], order) <= 0 {
        if j > 0 {
          RowsTransitive(x, rows[0], rows[j], order);
        }
      }
    } else {
      PlaceOrdered(x, rows[1..], order);
      PlaceMembers(x, rows[1..], order);
      RowsOpposite(x, rows[0], order);
      var rest := PlaceRow(x, rows[1..], order);
      forall j | 0 <= j < |rest| ensures CompareRows(rows[0], rest[j], order) <= 0 {
        assert rest[j] in multiset(rest);
        assert rest[j] == x || rest[j] in rows[1..];
      }
    }
  }

  lemma AlikeFirst(x: Row, rest: Rows, z: Row, order: seq<SortExpr>)
    ensures Alike([x] + rest, z, order) == (if AllTie(x, z, order) then [x] else []) + Alike(rest, z, order)
  {
    assert ([x] + rest)[1..] == rest;
  }

  lemma {:induction false} PlaceStable(x: Row, rows: Rows, z: Row, order: seq<SortExpr>)
    ensures Alike(PlaceRow(x, rows, order), z, order)
         == (if AllTie(x, z, order) then [x] else []) + Alike(rows, z, order)
  {
    if rows == [] || CompareRows(x, rows[0], order) <= 0 {
      AlikeFirst(x, rows, z, order);
    } else {
      PlaceStable(x, rows[1..], z, order);
      AlikeFirst(rows[0], PlaceRow(x, rows[1..], order), z, order);
      TiedTogether(x, rows[0], z, order);
    }
  }

  /** Two rows that tie with a third tie with each other. */
  lemma TiedTogether(x: Row, y: Row, z: Row, order: seq<SortExpr>)
    ensures AllTie(x, z, order) && AllTie(y, z, order) ==> CompareRows(x, y, order) == 0
  {
    RowsMean(x, y, order);
    if AllTie(x, z, order) && AllTie(y, z, order) {
      forall j | 0 <= j < |order| ensures Ties(x, y, order[j]) {
        assert Ties(x, z, order[j]) && Ties(y, z, order[j]);
      }
    }
  }

  lemma PlacedStep(x: Row, rows: Rows, sorted: Rows, z: Row, order: seq<SortExpr>)
    requires Ordered(sorted, order) && multiset(sorted) == multiset(rows) && Alike(sorted, z, order) == Alike(rows, z, order)
    ensures var r := PlaceRow(x, sorted, order);
            Ordered(r, order) && multiset(r) == multiset([x] + rows) && Alike(r, z, order) == Alike([x] + rows, z, order)
  {
    PlaceOrdered(x, sorted, order);
    PlaceMembers(x, sorted, order);
    PlaceStable(x, sorted, z, order);
    AlikeFirst(x, rows, z, order);
  }

  lemma {:induction false} SortedPlace(rows: Rows, order: seq<SortExpr>, z: Row)
    ensures var r := SortRows(rows, order);
            Ordered(r, order) && multiset(r) == multiset(rows) && Alike(r, z, order) == Alike(rows, z, order)
  {
    if rows != [] {
      SortedPlace(rows[1..], order, z);
      PlacedStep(rows[0], rows[1..], SortRows(rows[1..], order), z, order);
      assert rows == [rows[0]] + rows[1..];
    }
  }

  /**
   * The operator returns exactly the rows it was given, none behind one that the first differing key
   * puts after it, and rows that tie on every key in the order they came.
   */
  lemma SortExact(rows: Rows, order: seq<SortExpr>, z: Row)
    ensures var r := SortRows(rows, order);
            && multiset(r) == multiset(rows)
            && (forall i, j :: 0 <= i < j < |r| ==> !RowBefore(r[j], r[i], order))
            && Alike(r, z, order) == Alike(rows, z, order)
  {
    SortedPlace(rows, order, z);
    var r := SortRows(rows, order);
    forall i, j | 0 <= i < j < |r| ensures !RowBefore(r[j], r[i], order) {
      RowsMean(r[j], r[i], order);
      RowsOpposite(r[i], r[j], order);
    }
  }
}
