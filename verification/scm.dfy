/**
 * Linear structural causal models: evaluation along a topological order, interventions and
 * counterfactuals, and the unique solution they compute.
 */
module Scm {
  import opened Products

  type Var = string

  datatype Result<+T, +E> = Ok(value: T) | Err(error: E)

  datatype ScmError =
    | CycleDetected(v: Var)
    | UnknownVariable(v: Var)
    | DimensionMismatch(expected: nat, got: nat)

  datatype Equation = Equation(variable: Var, parents: seq<Var>, coefficients: seq<real>, intercept: real, noiseStd: real)

  type Equations = map<Var, Equation>

  datatype ScmModel = ScmModel(equations: Equations, order: seq<Var>)

  type Values = map<Var, real>

  // ---- Graph vocabulary ----------------------------------------------------

  predicate Matched(e: Equations) {
    forall v :: v in e ==> |e[v].coefficients| == |e[v].parents|
  }

  function Parents(e: Equations, v: Var): seq<Var> {
    if v in e then e[v].parents else []
  }

  /** Everything the equations of `built` define or mention. */
  ghost function Mentioned(e: Equations, built: set<Var>): set<Var>
    requires built <= e.Keys
  {
    built + set v, p | v in built && p in e[v].parents :: p
  }

  ghost function AllVars(e: Equations): set<Var> { Mentioned(e, e.Keys) }

  ghost predicate NoDuplicates(s: seq<Var>) {
    forall i, j :: 0 <= i < j < |s| ==> s[i] != s[j]
  }

  ghost predicate ListedRightly(e: Equations, order: seq<Var>, v: Var) {
    v in order <==> v in AllVars(e)
  }

  ghost predicate ParentsFirst(e: Equations, order: seq<Var>, k: nat)
    requires k < |order|
  {
    forall p :: p in Parents(e, order[k]) ==> p in order[..k]
  }

  /** Every variable once, after all its parents. */
  ghost predicate Topological(e: Equations, order: seq<Var>) {
    && NoDuplicates(order)
    && (forall v {:trigger ListedRightly(e, order, v)} :: ListedRightly(e, order, v))
    && (forall k {:trigger ParentsFirst(e, order, k)} :: 0 <= k < |order| ==> ParentsFirst(e, order, k))
  }

  /** A constructed model. */
  ghost predicate Valid(m: ScmModel) {
    Matched(m.equations) && Topological(m.equations, m.order)
  }

  // ---- Evaluation ----------------------------------------------------------

  function ValueOf(values: Values, v: Var): real {
    if v in values then values[v] else 0.0
  }

  /** Sum of coefficient times parent value; an absent parent counts as zero. */
  ghost function WeightedSum(parents: seq<Var>, coefficients: seq<real>, values: Values): real
    requires |parents| == |coefficients|
  {
    if parents == [] then 0.0
    else WeightedSum(parents[..|parents| - 1], coefficients[..|parents| - 1], values)
         + Times(coefficients[|parents| - 1], ValueOf(values, parents[|parents| - 1]))
  }

  ghost function Compute(eq: Equation, values: Values): real
    requires |eq.coefficients| == |eq.parents|
  {
    eq.intercept + WeightedSum(eq.parents, eq.coefficients, values)
  }

  ghost function Learn(e: Equations, values: Values, noise: Values, v: Var): Values
    requires Matched(e)
  {
    if v in values || v !in e then values else values[v := Compute(e[v], values) + ValueOf(noise, v)]
  }

  /** One pass over the order, computing what is not yet known and adding its noise. */
  ghost function EvalFrom(e: Equations, order: seq<Var>, values: Values, noise: Values): Values
    requires Matched(e)
    decreases |order|
  {
    if order == [] then values
    else
      EvalFrom(e, order[1..], Learn(e, values, noise, order[0]), noise)
  }

  method ComputeEquation(eq: Equation, values: Values) returns (result: real)
    requires |eq.coefficients| == |eq.parents|
    ensures result == Compute(eq, values)
  {
    result := eq.intercept;
    for i := 0 to |eq.parents|
      invariant result == eq.intercept + WeightedSum(eq.parents[..i], eq.coefficients[..i], values)
    {
      assert eq.parents[..i + 1][..i] == eq.parents[..i] && eq.coefficients[..i + 1][..i] == eq.coefficients[..i];
      var parentVal := if eq.parents[i] in values then values[eq.parents[i]] else 0.0;
      TimesIs(eq.coefficients[i], parentVal);
      result := result + eq.coefficients[i] * parentVal;
    }
    assert eq.parents[..|eq.parents|] == eq.parents && eq.coefficients[..|eq.parents|] == eq.coefficients;
  }

  method Evaluate(m: ScmModel, observations: Values) returns (values: Values)
    requires Matched(m.equations)
    ensures values == EvalFrom(m.equations, m.order, observations, map[])
  {
    values := observations;
    for i := 0 to |m.order|
      invariant EvalFrom(m.equations, m.order[i..], values, map[]) == EvalFrom(m.equations, m.order, observations, map[])
    {
      var v := m.order[i];
      assert m.order[i..][1..] == m.order[i + 1..];
      if v !in values && v in m.equations {
        var computed := ComputeEquation(m.equations[v], values);
        values := values[v := computed];
      }
    }
  }

  /** The same pass with the abducted noise added back to every computed variable but the antecedent. */
  method EvaluateWithNoise(m: ScmModel, antecedent: Var, observations: Values, noise: Values) returns (values: Values)
    requires Matched(m.equations) && antecedent in observations
    ensures values == EvalFrom(m.equations, m.order, observations, noise)
  {
    values := observations;
    for i := 0 to |m.order|
      invariant antecedent in values
      invariant EvalFrom(m.equations, m.order[i..], values, noise) == EvalFrom(m.equations, m.order, observations, noise)
    {
      var v := m.order[i];
      assert m.order[i..][1..] == m.order[i + 1..];
      if v !in values && v in m.equations {
        var computed := ComputeEquation(m.equations[v], values);
        if v != antecedent && v in noise {
          computed := computed + noise[v];
        }
        values := values[v := computed];
      }
    }
  }

  predicate Known(m: ScmModel, observations: Values, v: Var) {
    v in m.equations || v in observations
  }

  function Lookup(values: Values, v: Var): Result<real, ScmError> {
    if v in values then Ok(values[v]) else Err(UnknownVariable(v))
  }

  /** The mutilated model: the intervened variable is given, its equation unused. */
  ghost function Mutilated(m: ScmModel, x: Var, value: real, observations: Values): Values
    requires Matched(m.equations)
  {
    EvalFrom(m.equations, m.order, observations[x := value], map[])
  }

  method Intervene(m: ScmModel, x: Var, value: real, target: Var, observations: Values)
    returns (r: Result<real, ScmError>)
    requires Matched(m.equations)
    ensures r == if x !in m.equations && x !in observations then Err(UnknownVariable(x))
                 else if target !in m.equations && target !in observations then Err(UnknownVariable(target))
                 else Lookup(Mutilated(m, x, value, observations), target)
  {
    if !Known(m, observations, x) {
      return Err(UnknownVariable(x));
    }
    if !Known(m, observations, target) {
      return Err(UnknownVariable(target));
    }
    var result := Evaluate(m, observations[x := value]);
    r := if target in result then Ok(result[target]) else Err(UnknownVariable(target));
  }

  ghost function Factual(m: ScmModel, observations: Values): Values
    requires Matched(m.equations)
  {
    EvalFrom(m.equations, m.order, observations, map[])
  }

  /** What each equation leaves unexplained in the factual world. */
  ghost function Noise(m: ScmModel, factual: Values): Values
    requires Matched(m.equations)
  {
    map v | v in m.equations && v in factual :: factual[v] - Compute(m.equations[v], factual)
  }

  /** Observations of variables without an equation, and the antecedent. */
  function Exogenous(m: ScmModel, x: Var, value: real, observations: Values): Values {
    (map v | v in observations && v !in m.equations :: observations[v])[x := value]
  }

  ghost function Imagined(m: ScmModel, x: Var, value: real, observations: Values): Values
    requires Matched(m.equations)
  {
    EvalFrom(m.equations, m.order, Exogenous(m, x, value, observations), Noise(m, Factual(m, observations)))
  }

  method AbductNoise(m: ScmModel, factual: Values) returns (noise: Values)
    requires Matched(m.equations)
    ensures noise == Noise(m, factual)
  {
    noise := map[];
    var todo := m.equations.Keys;
    while todo != {}
      invariant todo <= m.equations.Keys
      invariant forall v :: v in noise <==> v in m.equations.Keys - todo && v in factual
      invariant forall v :: v in noise ==> noise[v] == factual[v] - Compute(m.equations[v], factual)
      decreases |todo|
    {
      var v :| v in todo;
      todo := todo - {v};
      if v in factual {
        var structural := ComputeEquation(m.equations[v], factual);
        noise := noise[v := factual[v] - structural];
      }
    }
  }

  method ExogenousObservations(m: ScmModel, observations: Values) returns (kept: Values)
    ensures kept == map v | v in observations && v !in m.equations :: observations[v]
  {
    kept := map[];
    var todo := observations.Keys;
    while todo != {}
      invariant todo <= observations.Keys
      invariant forall v :: v in kept <==> v in observations.Keys - todo && v !in m.equations
      invariant forall v :: v in kept ==> kept[v] == observations[v]
      decreases |todo|
    {
      var v :| v in todo;
      todo := todo - {v};
      if v !in m.equations {
        kept := kept[v := observations[v]];
      }
    }
  }

  method CounterfactualOf(m: ScmModel, x: Var, value: real, target: Var, observations: Values)
    returns (r: Result<real, ScmError>)
    requires Matched(m.equations)
    ensures r == if x !in m.equations && x !in observations then Err(UnknownVariable(x))
                 else if target !in m.equations && target !in observations then Err(UnknownVariable(target))
                 else Lookup(Imagined(m, x, value, observations), target)
  {
    if !Known(m, observations, x) {
      return Err(UnknownVariable(x));
    }
    if !Known(m, observations, target) {
      return Err(UnknownVariable(target));
    }
    var factual := Evaluate(m, observations);
    var noise := AbductNoise(m, factual);
    var cf := ExogenousObservations(m, observations);
    cf := cf[x := value];
    var result := EvaluateWithNoise(m, x, cf, noise);
    r := if target in result then Ok(result[target]) else Err(UnknownVariable(target));
  }

  // ---- The solution --------------------------------------------------------

  /** `s` extends the fixed values by one value per equation, each as its equation and noise demand. */
  ghost predicate Solves(e: Equations, fixed: Values, noise: Values, s: Values)
    requires Matched(e)
  {
    && s.Keys == fixed.Keys + e.Keys
    && (forall v :: v in fixed ==> s[v] == fixed[v])
    && (forall v :: v in e && v !in fixed ==> s[v] == Compute(e[v], s) + ValueOf(noise, v))
  }

  /** A weighted sum sees only the parents' values. */
  lemma {:induction false} SameSum(parents: seq<Var>, coefficients: seq<real>, a: Values, b: Values)
    requires |parents| == |coefficients|
    requires forall p :: p in parents ==> ValueOf(a, p) == ValueOf(b, p)
    ensures WeightedSum(parents, coefficients, a) == WeightedSum(parents, coefficients, b)
  {
    if parents != [] {
      var n := |parents| - 1;
      assert parents[n] in parents;
      assert forall p :: p in parents[..n] ==> p in parents;
      SameSum(parents[..n], coefficients[..n], a, b);
    }
  }

  ghost predicate Settled(e: Equations, noise: Values, s: Values, v: Var)
    requires Matched(e) && v in e
  {
    v in s && s[v] == Compute(e[v], s) + ValueOf(noise, v)
  }

  /** What the pass knows after the first `k` variables. */
  ghost predicate SolvedUpTo(e: Equations, order: seq<Var>, k: nat, fixed: Values, noise: Values, s: Values)
    requires Matched(e) && k <= |order|
  {
    && (forall v :: v in s <==> v in fixed || (v in e && v in order[..k]))
    && (forall v :: v in fixed ==> v in s && s[v] == fixed[v])
    && (forall v {:trigger Settled(e, noise, s, v)} ::
          v in e && v in order[..k] && v !in fixed ==> Settled(e, noise, s, v))
  }

  lemma StaysSettled(e: Equations, order: seq<Var>, k: nat, noise: Values, s: Values, s': Values, u: Var)
    requires Matched(e) && Topological(e, order) && k < |order|
    requires u in e && u in order[..k] && Settled(e, noise, s, u)
    requires s' == Learn(e, s, noise, order[k])
    ensures Settled(e, noise, s', u)
  {
    var i :| 0 <= i < k && order[i] == u;
    assert ParentsFirst(e, order, i);
    forall p | p in e[u].parents ensures ValueOf(s', p) == ValueOf(s, p) {
      assert p in Parents(e, order[i]);
      assert p in order[..i];
    }
    SameSum(e[u].parents, e[u].coefficients, s', s);
  }

  lemma NewlySettled(e: Equations, order: seq<Var>, k: nat, noise: Values, s: Values)
    requires Matched(e) && Topological(e, order) && k < |order|
    requires order[k] in e && order[k] !in s
    ensures Settled(e, noise, Learn(e, s, noise, order[k]), order[k])
  {
    var v := order[k];
    var s' := Learn(e, s, noise, v);
    assert ParentsFirst(e, order, k);
    forall p | p in e[v].parents ensures ValueOf(s', p) == ValueOf(s, p) {
      assert p in Parents(e, order[k]);
      assert p in order[..k];
    }
    SameSum(e[v].parents, e[v].coefficients, s', s);
  }

  lemma OneMoreSolved(e: Equations, order: seq<Var>, k: nat, fixed: Values, noise: Values, s: Values)
    requires Matched(e) && Topological(e, order) && k < |order|
    requires SolvedUpTo(e, order, k, fixed, noise, s)
    ensures SolvedUpTo(e, order, k + 1, fixed, noise, Learn(e, s, noise, order[k]))
  {
    var v := order[k];
    var s' := Learn(e, s, noise, v);
    assert order[..k + 1] == order[..k] + [v];
    assert v !in order[..k];
    forall u | u in e && u in order[..k + 1] && u !in fixed ensures Settled(e, noise, s', u) {
      if u == v {
        NewlySettled(e, order, k, noise, s);
      } else {
        StaysSettled(e, order, k, noise, s, s', u);
      }
    }
  }

  lemma {:induction false} EvalSolvesFrom(e: Equations, order: seq<Var>, k: nat, fixed: Values, noise: Values, s: Values)
    requires Matched(e) && Topological(e, order) && k <= |order|
    requires SolvedUpTo(e, order, k, fixed, noise, s)
    ensures SolvedUpTo(e, order, |order|, fixed, noise, EvalFrom(e, order[k..], s, noise))
    decreases |order| - k
  {
    if k < |order| {
      OneMoreSolved(e, order, k, fixed, noise, s);
      var s' := Learn(e, s, noise, order[k]);
      assert order[k..][1..] == order[k + 1..] && order[k..][0] == order[k];
      EvalSolvesFrom(e, order, k + 1, fixed, noise, s');
    }
  }

  /** Evaluation yields a solution: observations kept, every other equation met by the final values. */
  lemma EvalSolves(m: ScmModel, fixed: Values, noise: Values)
    requires Valid(m)
    ensures Solves(m.equations, fixed, noise, EvalFrom(m.equations, m.order, fixed, noise))
  {
    assert m.order[0..] == m.order && m.order[..0] == [];
    EvalSolvesFrom(m.equations, m.order, 0, fixed, noise, fixed);
    assert m.order[..|m.order|] == m.order;
    forall v | v in m.equations ensures v in m.order {
      assert ListedRightly(m.equations, m.order, v);
    }
    var e, s := m.equations, EvalFrom(m.equations, m.order, fixed, noise);
    assert s.Keys == fixed.Keys + e.Keys;
    forall v | v in e && v !in fixed ensures s[v] == Compute(e[v], s) + ValueOf(noise, v) {
      assert Settled(e, noise, s, v);
    }
  }

  function Rank(order: seq<Var>, v: Var): nat {
    if order == [] then 0 else if order[|order| - 1] == v then |order| else Rank(order[..|order| - 1], v)
  }

  lemma {:induction false} RankAt(order: seq<Var>, k: nat)
    requires NoDuplicates(order) && k < |order|
    ensures Rank(order, order[k]) == k + 1
  {
    if k < |order| - 1 {
      assert order[..|order| - 1][k] == order[k];
      RankAt(order[..|order| - 1], k);
    }
  }

  lemma {:induction false} RankOfMember(order: seq<Var>, v: Var, bound: nat)
    requires bound <= |order| && v in order[..bound] && NoDuplicates(order)
    ensures 1 <= Rank(order, v) <= bound
  {
    var i :| 0 <= i < bound && order[i] == v;
    RankAt(order, i);
  }

  /** Parents come strictly earlier. */
  lemma ParentRank(e: Equations, order: seq<Var>, v: Var, p: Var)
    requires Topological(e, order) && v in e && p in e[v].parents
    ensures Rank(order, p) < Rank(order, v)
  {
    assert ListedRightly(e, order, v);
    var k :| 0 <= k < |order| && order[k] == v;
    RankAt(order, k);
    assert ParentsFirst(e, order, k);
    assert p in Parents(e, order[k]);
    RankOfMember(order, p, k);
  }

  lemma {:induction false} SameSolutionAt(m: ScmModel, fixed: Values, noise: Values, a: Values, b: Values, v: Var)
    requires Valid(m) && Solves(m.equations, fixed, noise, a) && Solves(m.equations, fixed, noise, b)
    ensures ValueOf(a, v) == ValueOf(b, v)
    decreases Rank(m.order, v)
  {
    var e := m.equations;
    if v in e && v !in fixed {
      forall p | p in e[v].parents ensures ValueOf(a, p) == ValueOf(b, p) {
        ParentRank(e, m.order, v, p);
        SameSolutionAt(m, fixed, noise, a, b, p);
      }
      SameSum(e[v].parents, e[v].coefficients, a, b);
    }
  }

  /**
   * The values `evaluate` computes are the one assignment that agrees with the observations and
   * satisfies the equation of every variable not observed.
   */
  lemma EvaluateIsTheSolution(m: ScmModel, observations: Values, s: Values)
    requires Valid(m)
    ensures Solves(m.equations, observations, map[], s) <==> s == Factual(m, observations)
  {
    EvalSolves(m, observations, map[]);
    var f := Factual(m, observations);
    if Solves(m.equations, observations, map[], s) {
      forall v | v in s ensures s[v] == f[v] {
        SameSolutionAt(m, observations, map[], s, f, v);
      }
      assert s.Keys == f.Keys;
    }
  }
}
