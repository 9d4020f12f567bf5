/**
 * The exact conditions of folding and pushing for whole predicates: conjunctions, disjunctions and
 * negations of comparisons whose parts test different columns and none of which is constant.
 */
module PredicateExactness {
  import opened Plans
  import opened Rules
  import opened Execution
  import opened Comparisons
  import opened Folding
  import opened Soundness
  import opened ExecutorResults

  // ---- What a predicate reads ------------------------------------------------

  function Name(e: Expr): set<string> { if e.Column? then {e.name} else {} }

  /** The columns a predicate tests. */
  function Tested(e: Expr): set<string> {
    match e
    case Binary(And, l, r) => Tested(l) + Tested(r)
    case Binary(Or, l, r) => Tested(l) + Tested(r)
    case Unary(Not, x) => Tested(x)
    case Binary(_, l, r) => Name(l) + Name(r)
    case _ => {}
  }

  ghost predicate SameField(a: map<string, DataValue>, b: map<string, DataValue>, c: string) {
    (c in a <==> c in b) && (c in a && c in b ==> a[c] == b[c])
  }

  /** Two decoded records alike in the given columns. */
  ghost predicate Agree(a: Row, b: Row, cols: set<string>) {
    && a.data.Some? && b.data.Some?
    && ("_collection" in cols ==> a.collection == b.collection)
    && ("_tenant" in cols ==> a.tenant == b.tenant)
    && ("_confidence" in cols ==> a.confidence == b.confidence)
    && forall c {:trigger SameField(a.data.value, b.data.value, c)} :: c in cols ==> SameField(a.data.value, b.data.value, c)
  }

  lemma ColumnReads(c: string, op: BinaryOp, lit: Expr, a: Row, b: Row, cols: set<string>)
    requires Agree(a, b, cols) && c in cols
    ensures EvalColumn(c, op, lit, a) == EvalColumn(c, op, lit, b)
  {
    assert SameField(a.data.value, b.data.value, c);
  }

  lemma ComparisonReads(op: BinaryOp, l: Expr, r: Expr, a: Row, b: Row, cols: set<string>)
    requires Agree(a, b, cols) && Name(l) + Name(r) <= cols
    ensures EvalBinary(op, l, r, a) == EvalBinary(op, l, r, b)
  {
    assert l.Column? ==> l.name in Name(l);
    assert r.Column? ==> r.name in Name(r);
    if l.Column? {
      ColumnReads(l.name, op, r, a, b, cols);
    } else if r.Column? {
      ColumnReads(r.name, FlipOp(op), l, a, b, cols);
    }
  }

  /** A predicate depends on a decoded record's tested columns alone. */
  lemma {:induction false} PassesReads(e: Expr, a: Row, b: Row, cols: set<string>)
    requires Agree(a, b, cols) && Tested(e) <= cols
    ensures Passes(e, a) == Passes(e, b)
  {
    match e
    case Binary(op, l, r) =>
      if op == And || op == Or {
        PassesReads(l, a, b, cols);
        PassesReads(r, a, b, cols);
      } else {
        ComparisonReads(op, l, r, a, b, cols);
      }
    case Unary(op, x) =>
      if op == Not {
        PassesReads(x, a, b, cols);
      }
    case _ =>
  }

  lemma KeptAgree(exprs: seq<Expr>, a: Row, b: Row, cols: set<string>)
    requires Agree(a, b, cols)
    ensures Agree(KeepColumns(exprs, a), KeepColumns(exprs, b), cols)
  {
    var a', b' := KeepColumns(exprs, a), KeepColumns(exprs, b);
    forall c | c in cols ensures SameField(a'.data.value, b'.data.value, c) {
      assert SameField(a.data.value, b.data.value, c);
    }
  }

  // ---- Independent parts -----------------------------------------------------

  /** A record like `a` in the given columns and like `b` in all others. */
  function Mix(a: Row, b: Row, cols: set<string>): Row
    requires a.data.Some? && b.data.Some?
  {
    var x, y := a.data.value, b.data.value;
    Row(b.key,
        if "_collection" in cols then a.collection else b.collection,
        if "_tenant" in cols then a.tenant else b.tenant,
        if "_confidence" in cols then a.confidence else b.confidence,
        Some(map c | c in x.Keys + y.Keys && (if c in cols then c in x else c in y) :: if c in cols then x[c] else y[c]),
        b.vectors)
  }

  lemma MixAgrees(a: Row, b: Row, cols: set<string>, others: set<string>)
    requires a.data.Some? && b.data.Some? && cols !! others
    ensures Agree(Mix(a, b, cols), a, cols) && Agree(Mix(a, b, cols), b, others)
  {
    var m := Mix(a, b, cols).data.value;
    forall c | c in cols ensures SameField(m, a.data.value, c) {}
    forall c | c in others ensures SameField(m, b.data.value, c) {}
  }

  /** What a predicate, or what becomes of it, says of each record. */
  type Check = Row -> bool

  ghost predicate Reads(f: Check, cols: set<string>) {
    forall a, b {:trigger Agree(a, b, cols)} :: Agree(a, b, cols) ==> f(a) == f(b)
  }

  ghost predicate Alike(f: Check, g: Check) {
    forall row: Row {:trigger f(row)} :: row.data.Some? ==> f(row) == g(row)
  }

  ghost predicate Can(f: Check) { exists row: Row :: row.data.Some? && f(row) }

  function Both(f: Check, g: Check): Check { row => f(row) && g(row) }
  function Either(f: Check, g: Check): Check { row => f(row) || g(row) }
  function Inverse(f: Check): Check { row => !f(row) }

  /** Changing the parts of a conjunction changes it, when they read different columns and each can hold. */
  lemma BothAlike(f: Check, f': Check, g: Check, g': Check, cols: set<string>, others: set<string>)
    requires cols !! others && Reads(f, cols) && Reads(f', cols) && Reads(g, others) && Reads(g', others)
    requires Can(f) && Can(g) && Alike(Both(f', g'), Both(f, g))
    ensures Alike(f', f) && Alike(g', g)
  {
    var p: Row :| p.data.Some? && f(p);
    var q: Row :| q.data.Some? && g(q);
    var m := Mix(p, q, cols);
    MixAgrees(p, q, cols, others);
    assert Both(f, g)(m) && Both(f', g')(m);
    forall row: Row | row.data.Some? ensures f'(row) == f(row) && g'(row) == g(row) {
      MixAgrees(row, m, cols, others);
      var left := Mix(row, m, cols);
      assert Both(f', g')(left) == Both(f, g)(left);
      MixAgrees(m, row, cols, others);
      var right := Mix(m, row, cols);
      assert Both(f', g')(right) == Both(f, g)(right);
    }
  }

  lemma EitherAlike(f: Check, f': Check, g: Check, g': Check, cols: set<string>, others: set<string>)
    requires cols !! others && Reads(f, cols) && Reads(f', cols) && Reads(g, others) && Reads(g', others)
    requires Can(Inverse(f)) && Can(Inverse(g)) && Alike(Either(f', g'), Either(f, g))
    ensures Alike(f', f) && Alike(g', g)
  {
    var nf, nf', ng, ng' := Inverse(f), Inverse(f'), Inverse(g), Inverse(g');
    forall row: Row | row.data.Some? ensures Both(nf', ng')(row) == Both(nf, ng)(row) {
      assert Either(f', g')(row) == Either(f, g)(row);
    }
    BothAlike(nf, nf', ng, ng', cols, others);
    forall row: Row | row.data.Some? ensures f'(row) == f(row) && g'(row) == g(row) {
      assert nf'(row) == nf(row) && ng'(row) == ng(row);
    }
  }

  /** `whole` is the conjunction or the disjunction of `f` and `g`. */
  ghost predicate Joins(op: BinaryOp, whole: Check, f: Check, g: Check) {
    forall row: Row {:trigger whole(row)} :: row.data.Some? ==>
      whole(row) == if op == And then f(row) && g(row) else f(row) || g(row)
  }

  lemma JoinAlike(op: BinaryOp, whole: Check, whole': Check, f: Check, f': Check, g: Check, g': Check,
                  cols: set<string>, others: set<string>)
    requires cols !! others && Reads(f, cols) && Reads(f', cols) && Reads(g, others) && Reads(g', others)
    requires if op == And then Can(f) && Can(g) else Can(Inverse(f)) && Can(Inverse(g))
    requires Joins(op, whole, f, g) && Joins(op, whole', f', g') && Alike(whole', whole)
    ensures Alike(f', f) && Alike(g', g)
  {
    if op == And {
      forall row: Row | row.data.Some? ensures Both(f', g')(row) == Both(f, g)(row) {
        assert whole'(row) == whole(row);
      }
      BothAlike(f, f', g, g', cols, others);
    } else {
      forall row: Row | row.data.Some? ensures Either(f', g')(row) == Either(f, g)(row) {
        assert whole'(row) == whole(row);
      }
      EitherAlike(f, f', g, g', cols, others);
    }
  }

  // ---- Predicates ------------------------------------------------------------

  function Test(e: Expr): Check { row => Passes(e, row) }

  /** The columns the predicate tests, before and after folding. */
  function Columns(e: Expr): set<string> { Tested(e) + Tested(FoldExpr(e)) }

  /**
   * The two sides of every conjunction and disjunction test different columns, and none decides it
   * alone: each side of a conjunction passes some record, each side of a disjunction fails one.
   */
  ghost predicate Independent(e: Expr) {
    match e
    case Binary(And, l, r) =>
      Columns(l) !! Columns(r) && Can(Test(l)) && Can(Test(r)) && Independent(l) && Independent(r)
    case Binary(Or, l, r) =>
      Columns(l) !! Columns(r) && Can(Inverse(Test(l))) && Can(Inverse(Test(r))) && Independent(l) && Independent(r)
    case Unary(Not, x) => Independent(x)
    case _ => true
  }

  lemma TestReads(e: Expr, cols: set<string>)
    requires Tested(e) <= cols
    ensures Reads(Test(e), cols)
  {
    forall a, b | Agree(a, b, cols) ensures Passes(e, a) == Passes(e, b) {
      PassesReads(e, a, b, cols);
    }
  }

  lemma ComparisonNotAlike(op: BinaryOp, l: Expr, r: Expr)
    requires op != And && op != Or && !SameComparison(op, l, r)
    ensures var e := Binary(op, l, r); !Alike(Test(FoldExpr(e)), Test(e))
  {
    var row := ComparisonDiffers(op, l, r);
    assert Test(FoldExpr(Binary(op, l, r)))(row) != Test(Binary(op, l, r))(row);
  }

  lemma {:induction false} AlikeFoldSafe(e: Expr)
    requires Independent(e) && Alike(Test(FoldExpr(e)), Test(e))
    ensures FoldSafe(e)
  {
    match e
    case Binary(op, l, r) =>
      if op == And || op == Or {
        SidesFoldAlike(op, l, r);
        AlikeFoldSafe(l);
        AlikeFoldSafe(r);
      } else if !SameComparison(op, l, r) {
        ComparisonNotAlike(op, l, r);
      }
    case Unary(op, x) =>
      if op == Not {
        forall row: Row | row.data.Some? ensures Test(FoldExpr(x))(row) == Test(x)(row) {
          assert Test(FoldExpr(e))(row) == Test(e)(row);
        }
        AlikeFoldSafe(x);
      }
    case _ =>
  }

  lemma FoldedSides(op: BinaryOp, l: Expr, r: Expr, row: Row)
    requires op == And || op == Or
    ensures Passes(FoldExpr(Binary(op, l, r)), row)
         == if op == And then Passes(FoldExpr(l), row) && Passes(FoldExpr(r), row)
            else Passes(FoldExpr(l), row) || Passes(FoldExpr(r), row)
  {
  }

  lemma FoldJoins(op: BinaryOp, l: Expr, r: Expr)
    requires op == And || op == Or
    ensures Joins(op, Test(Binary(op, l, r)), Test(l), Test(r))
    ensures Joins(op, Test(FoldExpr(Binary(op, l, r))), Test(FoldExpr(l)), Test(FoldExpr(r)))
  {
    var folded := Test(FoldExpr(Binary(op, l, r)));
    forall row: Row | row.data.Some?
      ensures folded(row) == if op == And then Test(FoldExpr(l))(row) && Test(FoldExpr(r))(row)
                             else Test(FoldExpr(l))(row) || Test(FoldExpr(r))(row)
    {
      FoldedSides(op, l, r, row);
    }
  }

  lemma SidesFoldAlike(op: BinaryOp, l: Expr, r: Expr)
    requires (op == And || op == Or) && Independent(Binary(op, l, r))
    requires Alike(Test(FoldExpr(Binary(op, l, r))), Test(Binary(op, l, r)))
    ensures Alike(Test(FoldExpr(l)), Test(l)) && Alike(Test(FoldExpr(r)), Test(r))
  {
    var e := Binary(op, l, r);
    var f, f', g, g' := Test(l), Test(FoldExpr(l)), Test(r), Test(FoldExpr(r));
    TestReads(l, Columns(l));
    TestReads(FoldExpr(l), Columns(l));
    TestReads(r, Columns(r));
    TestReads(FoldExpr(r), Columns(r));
    FoldJoins(op, l, r);
    JoinAlike(op, Test(e), Test(FoldExpr(e)), f, f', g, g', Columns(l), Columns(r));
  }

  /**
   * Exactly when folding leaves a predicate of independent parts what it was: when it leaves every
   * comparison in it what it was.
   */
  lemma FoldExact(e: Expr)
    requires Independent(e)
    ensures SameTest(FoldExpr(e), e) <==> FoldSafe(e)
  {
    if FoldSafe(e) {
      forall row ensures Passes(FoldExpr(e), row) == Passes(e, row) {
        FoldKeepsPasses(e, row);
      }
    }
    if SameTest(FoldExpr(e), e) {
      assert Alike(Test(FoldExpr(e)), Test(e));
      AlikeFoldSafe(e);
    }
  }

  // ---- Pushing ---------------------------------------------------------------

  /** What the predicate says once the projection is applied. */
  function Pushed(exprs: seq<Expr>, e: Expr): Check { row => Passes(e, KeepColumns(exprs, row)) }

  lemma PushedReads(exprs: seq<Expr>, e: Expr, cols: set<string>)
    requires Tested(e) <= cols
    ensures Reads(Pushed(exprs, e), cols)
  {
    forall a, b | Agree(a, b, cols) ensures Passes(e, KeepColumns(exprs, a)) == Passes(e, KeepColumns(exprs, b)) {
      KeptAgree(exprs, a, b, cols);
      PassesReads(e, KeepColumns(exprs, a), KeepColumns(exprs, b), cols);
    }
  }

  lemma DroppedNotAlike(exprs: seq<Expr>, op: BinaryOp, l: Expr, r: Expr)
    requires op != And && op != Or && !ReadKept(exprs, op, l, r)
    ensures var e := Binary(op, l, r); !Alike(Pushed(exprs, e), Test(e))
  {
    var row := DroppedDiffers(exprs, op, l, r);
    assert Pushed(exprs, Binary(op, l, r))(row) != Test(Binary(op, l, r))(row);
  }

  lemma {:induction false} AlikeKeepsTested(exprs: seq<Expr>, e: Expr)
    requires Independent(e) && Alike(Pushed(exprs, e), Test(e))
    ensures KeepsTested(exprs, e)
  {
    match e
    case Binary(op, l, r) =>
      if op == And || op == Or {
        SidesPushAlike(exprs, op, l, r);
        AlikeKeepsTested(exprs, l);
        AlikeKeepsTested(exprs, r);
      } else if !ReadKept(exprs, op, l, r) {
        DroppedNotAlike(exprs, op, l, r);
      }
    case Unary(op, x) =>
      if op == Not {
        forall row: Row | row.data.Some? ensures Pushed(exprs, x)(row) == Test(x)(row) {
          assert Pushed(exprs, e)(row) == Test(e)(row);
        }
        AlikeKeepsTested(exprs, x);
      }
    case _ =>
  }

  lemma SidesPushAlike(exprs: seq<Expr>, op: BinaryOp, l: Expr, r: Expr)
    requires (op == And || op == Or) && Independent(Binary(op, l, r))
    requires Alike(Pushed(exprs, Binary(op, l, r)), Test(Binary(op, l, r)))
    ensures Alike(Pushed(exprs, l), Test(l)) && Alike(Pushed(exprs, r), Test(r))
  {
    var e := Binary(op, l, r);
    var f, f', g, g' := Test(l), Pushed(exprs, l), Test(r), Pushed(exprs, r);
    TestReads(l, Columns(l));
    PushedReads(exprs, l, Columns(l));
    TestReads(r, Columns(r));
    PushedReads(exprs, r, Columns(r));
    assert Joins(op, Test(e), f, g) && Joins(op, Pushed(exprs, e), f', g');
    JoinAlike(op, Test(e), Pushed(exprs, e), f, f', g, g', Columns(l), Columns(r));
  }

  /**
   * Exactly when a predicate of independent parts may be pushed below a projection: when each of its
   * comparisons may.
   */
  lemma PushPredicateExact(scan: string -> Rows, distance: (seq<real>, seq<real>) -> real, e: Expr, exprs: seq<Expr>)
    requires Independent(e)
    ensures PushSafe(ColumnEnv(scan, distance), e, exprs) <==> KeepsTested(exprs, e)
  {
    var env := ColumnEnv(scan, distance);
    if KeepsTested(exprs, e) {
      forall row ensures Passes(e, env.project(exprs, row)) == Passes(e, row) {
        KeptPasses(exprs, e, row);
      }
    }
    if PushSafe(env, e, exprs) {
      forall row: Row | row.data.Some? ensures Pushed(exprs, e)(row) == Test(e)(row) {
        assert Passes(e, env.project(exprs, row)) == Passes(e, row);
      }
      AlikeKeepsTested(exprs, e);
    }
  }
}
