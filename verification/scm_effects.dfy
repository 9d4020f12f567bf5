/**
 * What interventions and counterfactuals change: the sum, over the directed paths from the changed
 * variable, of the products of their coefficients.
 */
module ScmEffects {
  import opened Products
  import opened Scm

  /** One edge of a path: into `child` from its parent at position `index`. */
  datatype Step = Step(child: Var, index: nat)

  type Path = seq<Step>

  /** A directed path from `x` to `y` that enters no fixed variable. */
  ghost predicate IsPath(e: Equations, fixed: set<Var>, x: Var, path: Path, y: Var) {
    if path == [] then x == y
    else
      var n := |path| - 1;
      var s := path[n];
      && s.child == y && y in e && y !in fixed && s.index < |e[y].parents|
      && IsPath(e, fixed, x, path[..n], e[y].parents[s.index])
  }

  function Extend(paths: seq<Path>, s: Step): seq<Path> {
    if paths == [] then [] else [paths[0] + [s]] + Extend(paths[1..], s)
  }

  /** All directed paths from `x` to `y` that enter no fixed variable. */
  ghost function Paths(m: ScmModel, fixed: set<Var>, x: Var, y: Var): seq<Path>
    requires Valid(m)
    decreases Rank(m.order, y), 1, 0
  {
    if y == x then [[]]
    else if y in fixed || y !in m.equations then []
    else PathsInto(m, fixed, x, y, |m.equations[y].parents|)
  }

  /** Those whose last edge comes from one of the first `n` parents. */
  ghost function PathsInto(m: ScmModel, fixed: set<Var>, x: Var, y: Var, n: nat): seq<Path>
    requires Valid(m) && y in m.equations && n <= |m.equations[y].parents|
    decreases Rank(m.order, y), 0, n
  {
    if n == 0 then []
    else
      var p := m.equations[y].parents[n - 1];
      ParentRank(m.equations, m.order, y, p);
      PathsInto(m, fixed, x, y, n - 1) + Extend(Paths(m, fixed, x, p), Step(y, n - 1))
  }

  function Coefficient(e: Equations, s: Step): real {
    if s.child in e && s.index < |e[s.child].coefficients| then e[s.child].coefficients[s.index] else 0.0
  }

  ghost function Weight(e: Equations, path: Path): real {
    if path == [] then 1.0 else Times(Weight(e, path[..|path| - 1]), Coefficient(e, path[|path| - 1]))
  }

  ghost function TotalWeight(e: Equations, paths: seq<Path>): real {
    if paths == [] then 0.0 else Weight(e, paths[0]) + TotalWeight(e, paths[1..])
  }

  // ---- The enumeration is exact --------------------------------------------

  lemma {:induction false} ExtendAt(paths: seq<Path>, s: Step)
    ensures |Extend(paths, s)| == |paths|
    ensures forall i :: 0 <= i < |paths| ==> Extend(paths, s)[i] == paths[i] + [s]
  {
    if paths != [] {
      ExtendAt(paths[1..], s);
      forall i | 0 <= i < |paths| ensures Extend(paths, s)[i] == paths[i] + [s] {
        assert i > 0 ==> Extend(paths, s)[i] == Extend(paths[1..], s)[i - 1];
      }
    }
  }

  ghost predicate Distinct(paths: seq<Path>) {
    forall i, j :: 0 <= i < j < |paths| ==> paths[i] != paths[j]
  }

  lemma ExtendMember(paths: seq<Path>, s: Step, path: Path)
    ensures path in Extend(paths, s) <==> path != [] && path[|path| - 1] == s && path[..|path| - 1] in paths
  {
    ExtendAt(paths, s);
    if path != [] && path[|path| - 1] == s && path[..|path| - 1] in paths {
      var i :| 0 <= i < |paths| && paths[i] == path[..|path| - 1];
      assert path == paths[i] + [s] == Extend(paths, s)[i];
    }
    if path in Extend(paths, s) {
      var i :| 0 <= i < |paths| && Extend(paths, s)[i] == path;
      assert path[..|path| - 1] == paths[i];
    }
  }

  lemma ExtendDistinct(paths: seq<Path>, s: Step)
    requires Distinct(paths)
    ensures Distinct(Extend(paths, s))
  {
    ExtendAt(paths, s);
    forall i, j | 0 <= i < j < |paths| ensures paths[i] + [s] != paths[j] + [s] {
      assert (paths[i] + [s])[..|paths[i]|] == paths[i];
      assert (paths[j] + [s])[..|paths[j]|] == paths[j];
    }
  }

  /** The list holds every directed path that avoids the fixed variables, each once, and nothing else. */
  lemma {:induction false} PathsExact(m: ScmModel, fixed: set<Var>, x: Var, y: Var)
    requires Valid(m) && x in fixed
    ensures forall path: Path :: path in Paths(m, fixed, x, y) <==> IsPath(m.equations, fixed, x, path, y)
    ensures Distinct(Paths(m, fixed, x, y))
    decreases Rank(m.order, y), 1, 0
  {
    if y == x {
    } else if y in fixed || y !in m.equations {
    } else {
      var n := |m.equations[y].parents|;
      PathsIntoExact(m, fixed, x, y, n);
      forall path: Path ensures path in Paths(m, fixed, x, y) <==> IsPath(m.equations, fixed, x, path, y) {
        assert path in PathsInto(m, fixed, x, y, n) <==> IsPathInto(m, fixed, x, path, y, n);
      }
    }
  }

  ghost predicate IsPathInto(m: ScmModel, fixed: set<Var>, x: Var, path: Path, y: Var, n: nat) {
    path != [] && path[|path| - 1].index < n && IsPath(m.equations, fixed, x, path, y)
  }

  ghost predicate ListsInto(m: ScmModel, fixed: set<Var>, x: Var, y: Var, n: nat, paths: seq<Path>) {
    && Distinct(paths)
    && forall path: Path {:trigger IsPathInto(m, fixed, x, path, y, n)} ::
         path in paths <==> IsPathInto(m, fixed, x, path, y, n)
  }

  lemma {:induction false} PathsIntoExact(m: ScmModel, fixed: set<Var>, x: Var, y: Var, n: nat)
    requires Valid(m) && x in fixed && y in m.equations && y !in fixed && n <= |m.equations[y].parents|
    ensures ListsInto(m, fixed, x, y, n, PathsInto(m, fixed, x, y, n))
    decreases Rank(m.order, y), 0, n
  {
    if n > 0 {
      var p, s := m.equations[y].parents[n - 1], Step(y, n - 1);
      ParentRank(m.equations, m.order, y, p);
      PathsIntoExact(m, fixed, x, y, n - 1);
      PathsExact(m, fixed, x, p);
      OneMoreParent(m, fixed, x, y, n, PathsInto(m, fixed, x, y, n - 1), Paths(m, fixed, x, p));
    }
  }

  lemma OneMoreParent(m: ScmModel, fixed: set<Var>, x: Var, y: Var, n: nat, before: seq<Path>, last: seq<Path>)
    requires y in m.equations && y !in fixed && 0 < n <= |m.equations[y].parents|
    requires ListsInto(m, fixed, x, y, n - 1, before) && Distinct(last)
    requires forall path: Path :: path in last <==> IsPath(m.equations, fixed, x, path, m.equations[y].parents[n - 1])
    ensures ListsInto(m, fixed, x, y, n, before + Extend(last, Step(y, n - 1)))
  {
    var s := Step(y, n - 1);
    var longer := Extend(last, s);
    forall path: Path ensures path in before + longer <==> IsPathInto(m, fixed, x, path, y, n) {
      ExtendMember(last, s, path);
      assert path in before <==> IsPathInto(m, fixed, x, path, y, n - 1);
    }
    ExtendDistinct(last, s);
    forall i | 0 <= i < |longer| ensures longer[i] !in before {
      ExtendMember(last, s, longer[i]);
      assert longer[i] in before <==> IsPathInto(m, fixed, x, longer[i], y, n - 1);
    }
    forall path: Path | path in before ensures path != [] && path[|path| - 1].index < n - 1 {
      assert path in before <==> IsPathInto(m, fixed, x, path, y, n - 1);
    }
    JoinDistinct(before, longer, n - 1);
  }

  lemma JoinDistinct(before: seq<Path>, last: seq<Path>, n: nat)
    requires Distinct(before) && Distinct(last)
    requires forall path: Path :: path in before ==> path != [] && path[|path| - 1].index < n
    requires forall i :: 0 <= i < |last| ==> last[i] !in before
    ensures Distinct(before + last)
  {
    var all := before + last;
    forall i, j | 0 <= i < j < |all| ensures all[i] != all[j] {
      if i < |before| <= j {
        assert all[i] in before;
        assert all[j] == last[j - |before|];
      }
    }
  }

  // ---- Differences of solutions --------------------------------------------

  lemma {:induction false} TotalWeightJoin(e: Equations, a: seq<Path>, b: seq<Path>)
    ensures TotalWeight(e, a + b) == TotalWeight(e, a) + TotalWeight(e, b)
  {
    if a == [] {
      assert a + b == b;
    } else {
      assert (a + b)[1..] == a[1..] + b;
      TotalWeightJoin(e, a[1..], b);
    }
  }

  lemma {:induction false} TotalWeightExtend(e: Equations, paths: seq<Path>, s: Step)
    ensures TotalWeight(e, Extend(paths, s)) == Times(TotalWeight(e, paths), Coefficient(e, s))
  {
    if paths == [] {
      TimesUnits(Coefficient(e, s));
    } else {
      TotalWeightExtend(e, paths[1..], s);
      var longer := paths[0] + [s];
      assert longer[..|longer| - 1] == paths[0];
      TimesAdds(Coefficient(e, s), Weight(e, paths[0]), TotalWeight(e, paths[1..]));
    }
  }

  /** The sum a variable's equation makes of its first `n` parents. */
  ghost function PartialSum(eq: Equation, n: nat, s: Values): real
    requires |eq.parents| == |eq.coefficients| && n <= |eq.parents|
  {
    WeightedSum(eq.parents[..n], eq.coefficients[..n], s)
  }

  lemma LastParent(eq: Equation, n: nat, s: Values)
    requires |eq.parents| == |eq.coefficients| && 0 < n <= |eq.parents|
    ensures PartialSum(eq, n, s)
         == PartialSum(eq, n - 1, s) + Times(eq.coefficients[n - 1], ValueOf(s, eq.parents[n - 1]))
  {
    assert eq.parents[..n][..n - 1] == eq.parents[..n - 1];
    assert eq.coefficients[..n][..n - 1] == eq.coefficients[..n - 1];
  }

  /** At `v` two solutions differ by the move of `x`, not at all, or as the parents' sums do. */
  ghost predicate DiffersAt(m: ScmModel, fixed: set<Var>, x: Var, d: real, a: Values, b: Values, v: Var)
    requires Valid(m)
  {
    if v == x then ValueOf(b, v) - ValueOf(a, v) == d
    else if v !in m.equations || v in fixed then ValueOf(b, v) == ValueOf(a, v)
    else
      var eq := m.equations[v];
      ValueOf(b, v) - ValueOf(a, v) == PartialSum(eq, |eq.parents|, b) - PartialSum(eq, |eq.parents|, a)
  }

  /** Two solutions differing only in what they fix `x` to. */
  ghost predicate Differ(m: ScmModel, fixed: set<Var>, x: Var, d: real, a: Values, b: Values)
    requires Valid(m)
  {
    forall v {:trigger DiffersAt(m, fixed, x, d, a, b, v)} :: DiffersAt(m, fixed, x, d, a, b, v)
  }

  lemma PathToItself(m: ScmModel, fixed: set<Var>, x: Var)
    requires Valid(m)
    ensures TotalWeight(m.equations, Paths(m, fixed, x, x)) == 1.0
  {
    var only: seq<Path> := [[]];
    assert only[1..] == [];
    assert TotalWeight(m.equations, only) == Weight(m.equations, []) + TotalWeight(m.equations, only[1..]);
  }

  lemma {:induction false} PathEffect(m: ScmModel, fixed: set<Var>, x: Var, d: real, a: Values, b: Values, y: Var)
    requires Valid(m) && Differ(m, fixed, x, d, a, b)
    ensures ValueOf(b, y) - ValueOf(a, y) == Times(d, TotalWeight(m.equations, Paths(m, fixed, x, y)))
    decreases Rank(m.order, y), 1, 0
  {
    assert DiffersAt(m, fixed, x, d, a, b, y);
    if y == x {
      PathToItself(m, fixed, x);
      TimesUnits(d);
    } else if y in fixed || y !in m.equations {
      TimesUnits(d);
    } else {
      ParentsEffect(m, fixed, x, d, a, b, y, |m.equations[y].parents|);
    }
  }

  lemma {:induction false} ParentsEffect(m: ScmModel, fixed: set<Var>, x: Var, d: real, a: Values, b: Values, y: Var, n: nat)
    requires Valid(m) && Differ(m, fixed, x, d, a, b)
    requires y in m.equations && n <= |m.equations[y].parents|
    ensures PartialSum(m.equations[y], n, b) - PartialSum(m.equations[y], n, a)
         == Times(d, TotalWeight(m.equations, PathsInto(m, fixed, x, y, n)))
    decreases Rank(m.order, y), 0, n
  {
    if n == 0 {
      TimesUnits(d);
    } else {
      var eq := m.equations[y];
      var p := eq.parents[n - 1];
      ParentRank(m.equations, m.order, y, p);
      ParentsEffect(m, fixed, x, d, a, b, y, n - 1);
      PathEffect(m, fixed, x, d, a, b, p);
      LastParent(eq, n, a);
      LastParent(eq, n, b);
      IntoWeight(m, fixed, x, y, n);
      Combine(PartialSum(eq, n, a), PartialSum(eq, n, b), PartialSum(eq, n - 1, a), PartialSum(eq, n - 1, b),
              TotalWeight(m.equations, PathsInto(m, fixed, x, y, n)),
              TotalWeight(m.equations, PathsInto(m, fixed, x, y, n - 1)),
              TotalWeight(m.equations, Paths(m, fixed, x, p)),
              eq.coefficients[n - 1], ValueOf(a, p), ValueOf(b, p), d);
    }
  }

  lemma IntoWeight(m: ScmModel, fixed: set<Var>, x: Var, y: Var, n: nat)
    requires Valid(m) && y in m.equations && 0 < n <= |m.equations[y].parents|
    ensures TotalWeight(m.equations, PathsInto(m, fixed, x, y, n))
         == TotalWeight(m.equations, PathsInto(m, fixed, x, y, n - 1))
          + Times(TotalWeight(m.equations, Paths(m, fixed, x, m.equations[y].parents[n - 1])),
                  m.equations[y].coefficients[n - 1])
  {
    var p, s := m.equations[y].parents[n - 1], Step(y, n - 1);
    ParentRank(m.equations, m.order, y, p);
    var before, last := PathsInto(m, fixed, x, y, n - 1), Paths(m, fixed, x, p);
    TotalWeightJoin(m.equations, before, Extend(last, s));
    TotalWeightExtend(m.equations, last, s);
  }

  lemma Combine(sa: real, sb: real, sa0: real, sb0: real, w: real, w0: real, wp: real, c: real, va: real, vb: real, d: real)
    requires sa == sa0 + Times(c, va) && sb == sb0 + Times(c, vb)
    requires sb0 - sa0 == Times(d, w0) && vb - va == Times(d, wp) && w == w0 + Times(wp, c)
    ensures sb - sa == Times(d, w)
  {
    TimesSubtracts(c, vb, va);
    TimesAssociates(d, wp, c);
    TimesAssociates(c, Times(d, wp), 0.0);
    TimesAdds(d, w0, Times(wp, c));
  }

  // ---- Interventions -------------------------------------------------------

  lemma SolutionsDiffer(m: ScmModel, fa: Values, fb: Values, noise: Values, x: Var, a: Values, b: Values)
    requires Valid(m) && Solves(m.equations, fa, noise, a) && Solves(m.equations, fb, noise, b)
    requires fa.Keys == fb.Keys && x in fa && (forall v :: v in fa && v != x ==> fa[v] == fb[v])
    ensures Differ(m, fa.Keys, x, fb[x] - fa[x], a, b)
  {
    forall v: Var {:trigger DiffersAt(m, fa.Keys, x, fb[x] - fa[x], a, b, v)}
      ensures DiffersAt(m, fa.Keys, x, fb[x] - fa[x], a, b, v)
    {
      if v in m.equations && v !in fa.Keys {
        var eq := m.equations[v];
        assert eq.parents[..|eq.parents|] == eq.parents && eq.coefficients[..|eq.parents|] == eq.coefficients;
        assert a[v] == Compute(eq, a) + ValueOf(noise, v) && b[v] == Compute(eq, b) + ValueOf(noise, v);
      }
    }
  }

  /**
   * Total effect: moving the intervened value from `a` to `b` moves every variable by the move times
   * the summed path products, over the directed paths that avoid the other observed variables.
   */
  lemma TotalEffect(m: ScmModel, x: Var, a: real, b: real, y: Var, observations: Values)
    requires Valid(m)
    ensures ValueOf(Mutilated(m, x, b, observations), y) - ValueOf(Mutilated(m, x, a, observations), y)
         == Times(b - a, TotalWeight(m.equations, Paths(m, observations.Keys + {x}, x, y)))
  {
    var fa, fb := observations[x := a], observations[x := b];
    EvalSolves(m, fa, map[]);
    EvalSolves(m, fb, map[]);
    assert fa.Keys == observations.Keys + {x};
    SolutionsDiffer(m, fa, fb, map[], x, Mutilated(m, x, a, observations), Mutilated(m, x, b, observations));
    PathEffect(m, fa.Keys, x, b - a, Mutilated(m, x, a, observations), Mutilated(m, x, b, observations), y);
  }

  lemma FirstMember(paths: seq<Path>)
    requires paths != []
    ensures paths[0] in paths
  {
  }

  /** A variable no unobserved path leads to from the intervened one never changes. */
  lemma NonDescendantsUnmoved(m: ScmModel, x: Var, a: real, b: real, y: Var, observations: Values)
    requires Valid(m)
    requires forall path: Path :: !IsPath(m.equations, observations.Keys + {x}, x, path, y)
    ensures Lookup(Mutilated(m, x, b, observations), y) == Lookup(Mutilated(m, x, a, observations), y)
  {
    var paths := Paths(m, observations.Keys + {x}, x, y);
    PathsExact(m, observations.Keys + {x}, x, y);
    if paths != [] {
      FirstMember(paths);
    }
    TotalEffect(m, x, a, b, y, observations);
    TimesUnits(b - a);
    EvalSolves(m, observations[x := a], map[]);
    EvalSolves(m, observations[x := b], map[]);
  }

  // ---- Counterfactuals -----------------------------------------------------

  /** The factual world solves the counterfactual problem for the antecedent's factual value. */
  lemma FactualSolves(m: ScmModel, x: Var, observations: Values)
    requires Valid(m) && Known(m, observations, x)
    ensures var f := Factual(m, observations);
            x in f && Solves(m.equations, Exogenous(m, x, f[x], observations), Noise(m, f), f)
  {
    EvalSolves(m, observations, map[]);
    var f := Factual(m, observations);
    var ex := Exogenous(m, x, f[x], observations);
    assert f.Keys == ex.Keys + m.equations.Keys;
  }

  lemma CounterfactualDiffers(m: ScmModel, x: Var, value: real, observations: Values)
    requires Valid(m) && Known(m, observations, x)
    ensures var f, imagined := Factual(m, observations), Imagined(m, x, value, observations);
            && x in f && imagined.Keys == f.Keys
            && Differ(m, Exogenous(m, x, value, observations).Keys, x, value - f[x], f, imagined)
  {
    FactualSolves(m, x, observations);
    var f := Factual(m, observations);
    var fa, fb := Exogenous(m, x, f[x], observations), Exogenous(m, x, value, observations);
    EvalSolves(m, fb, Noise(m, f));
    ExogenousVary(m, x, f[x], value, observations);
    SolutionsDiffer(m, fa, fb, Noise(m, f), x, f, Imagined(m, x, value, observations));
  }

  lemma ExogenousVary(m: ScmModel, x: Var, a: real, b: real, observations: Values)
    ensures var fa, fb := Exogenous(m, x, a, observations), Exogenous(m, x, b, observations);
            && fa.Keys == fb.Keys && x in fa && fa[x] == a && fb[x] == b
            && (forall v :: v in fa && v != x ==> fa[v] == fb[v])
  {
    assert Exogenous(m, x, a, observations).Keys == Exogenous(m, x, b, observations).Keys;
  }

  /**
   * A counterfactual is the factual world moved by the antecedent's change along every directed path:
   * observed variables that have an equation do not block.
   */
  lemma CounterfactualEffect(m: ScmModel, x: Var, value: real, y: Var, observations: Values)
    requires Valid(m) && Known(m, observations, x)
    ensures var f := Factual(m, observations);
            && x in f
            && Imagined(m, x, value, observations).Keys == f.Keys
            && ValueOf(Imagined(m, x, value, observations), y)
               == ValueOf(f, y)
                + Times(value - f[x],
                        TotalWeight(m.equations, Paths(m, Exogenous(m, x, value, observations).Keys, x, y)))
  {
    CounterfactualDiffers(m, x, value, observations);
    var f := Factual(m, observations);
    PathEffect(m, Exogenous(m, x, value, observations).Keys, x, value - f[x], f, Imagined(m, x, value, observations), y);
  }

  /** Had the antecedent been what it was, the target would have been what it was. */
  lemma CounterfactualConsistency(m: ScmModel, x: Var, y: Var, observations: Values)
    requires Valid(m) && Known(m, observations, x)
    ensures x in Factual(m, observations)
    ensures Lookup(Imagined(m, x, Factual(m, observations)[x], observations), y) == Lookup(Factual(m, observations), y)
  {
    FactualSolves(m, x, observations);
    var f := Factual(m, observations);
    CounterfactualEffect(m, x, f[x], y, observations);
    TimesUnits(TotalWeight(m.equations, Paths(m, Exogenous(m, x, f[x], observations).Keys, x, y)));
  }

  lemma NothingAbducted(m: ScmModel, observations: Values, v: Var)
    requires Valid(m) && observations.Keys !! m.equations.Keys
    ensures ValueOf(Noise(m, Factual(m, observations)), v) == 0.0
  {
    var f := Factual(m, observations);
    EvalSolves(m, observations, map[]);
    if v in m.equations {
      assert f[v] == Compute(m.equations[v], f) + ValueOf(map[], v);
    }
  }

  lemma SameNoiseSameSolution(m: ScmModel, fixed: Values, noise: Values, noise': Values)
    requires Valid(m) && forall v :: ValueOf(noise, v) == ValueOf(noise', v)
    ensures EvalFrom(m.equations, m.order, fixed, noise) == EvalFrom(m.equations, m.order, fixed, noise')
  {
    var a, b := EvalFrom(m.equations, m.order, fixed, noise), EvalFrom(m.equations, m.order, fixed, noise');
    EvalSolves(m, fixed, noise);
    EvalSolves(m, fixed, noise');
    assert Solves(m.equations, fixed, noise', a);
    forall v | v in a ensures a[v] == b[v] {
      SameSolutionAt(m, fixed, noise', a, b, v);
    }
    assert a.Keys == b.Keys;
  }

  /** With no equation's variable observed, nothing is left to abduct: imagining is intervening. */
  lemma CounterfactualIsIntervention(m: ScmModel, x: Var, value: real, observations: Values)
    requires Valid(m) && observations.Keys !! m.equations.Keys
    ensures Imagined(m, x, value, observations) == Mutilated(m, x, value, observations)
  {
    var noise := Noise(m, Factual(m, observations));
    forall v ensures ValueOf(noise, v) == ValueOf(map[], v) {
      NothingAbducted(m, observations, v);
    }
    assert Exogenous(m, x, value, observations) == observations[x := value];
    SameNoiseSameSolution(m, observations[x := value], noise, map[]);
  }
}
