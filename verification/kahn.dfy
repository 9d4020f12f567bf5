/**
 * Building a model: Kahn's sort of the variables, which succeeds exactly when no variable is its
 * own ancestor.
 */
module ScmBuild {
  import opened Scm
  import opened StringOrder

  // ---- Cycles --------------------------------------------------------------

  /** Each variable of the walk is a parent of the next. */
  ghost predicate IsWalk(e: Equations, w: seq<Var>) {
    forall i :: 0 <= i < |w| - 1 ==> w[i] in Parents(e, w[i + 1])
  }

  ghost predicate IsCycle(e: Equations, w: seq<Var>) {
    |w| >= 2 && w[0] == w[|w| - 1] && IsWalk(e, w)
  }

  ghost predicate Acyclic(e: Equations) {
    forall w: seq<Var> :: !IsCycle(e, w)
  }

  /** Along a walk the place in a topological order rises. */
  lemma {:induction false} WalkRises(e: Equations, order: seq<Var>, w: seq<Var>, i: nat)
    requires Topological(e, order) && IsWalk(e, w) && 1 <= i < |w|
    ensures Rank(order, w[0]) < Rank(order, w[i])
  {
    assert w[i - 1] in Parents(e, w[i]);
    ParentRank(e, order, w[i], w[i - 1]);
    if i > 1 {
      WalkRises(e, order, w, i - 1);
    }
  }

  lemma TopologicalIsAcyclic(e: Equations, order: seq<Var>)
    requires Topological(e, order)
    ensures Acyclic(e)
  {
    forall w: seq<Var> ensures !IsCycle(e, w) {
      if IsCycle(e, w) {
        WalkRises(e, order, w, |w| - 1);
      }
    }
  }

  ghost predicate HasParentIn(e: Equations, u: set<Var>, v: Var) {
    exists p :: p in u && p in Parents(e, v)
  }

  ghost predicate Sourceless(e: Equations, u: set<Var>) {
    forall v {:trigger HasParentIn(e, u, v)} :: v in u ==> HasParentIn(e, u, v)
  }

  /** Walk backwards from `v` for `n` steps inside a set where everybody has a parent. */
  lemma {:induction false} BackwardWalk(e: Equations, u: set<Var>, v: Var, n: nat) returns (w: seq<Var>)
    requires v in u && Sourceless(e, u)
    ensures |w| == n + 1 && IsWalk(e, w) && w[n] == v && forall i :: 0 <= i < |w| ==> w[i] in u
  {
    if n == 0 {
      w := [v];
    } else {
      var t := BackwardWalk(e, u, v, n - 1);
      assert HasParentIn(e, u, t[0]);
      var p :| p in u && p in Parents(e, t[0]);
      w := [p] + t;
    }
  }

  lemma {:induction false} Pigeonhole(w: seq<Var>, u: set<Var>) returns (i: nat, j: nat)
    requires |w| > |u| && forall k :: 0 <= k < |w| ==> w[k] in u
    ensures i < j < |w| && w[i] == w[j]
  {
    var last := w[|w| - 1];
    if k :| 0 <= k < |w| - 1 && w[k] == last {
      i, j := k, |w| - 1;
    } else {
      i, j := Pigeonhole(w[..|w| - 1], u - {last});
    }
  }

  ghost predicate LeadsTo(e: Equations, c: seq<Var>, w: seq<Var>, v: Var) {
    IsCycle(e, c) && w != [] && IsWalk(e, w) && w[0] == c[0] && w[|w| - 1] == v
  }

  /** A walk leads from a cycle to the variable, which may or may not be on it. */
  ghost predicate BelowCycle(e: Equations, v: Var) {
    exists c: seq<Var>, w: seq<Var> :: LeadsTo(e, c, w, v)
  }

  /** In a set in which everybody has a parent, everybody is on or below a cycle. */
  lemma SourcelessBelowCycle(e: Equations, u: set<Var>, v: Var)
    requires v in u && Sourceless(e, u)
    ensures BelowCycle(e, v) && !Acyclic(e)
  {
    var w := BackwardWalk(e, u, v, |u|);
    var i, j := Pigeonhole(w, u);
    assert LeadsTo(e, w[i..j + 1], w[i..], v);
  }

  // ---- Counting parents ----------------------------------------------------

  /** Positions whose parent is not done yet. */
  function Pending(parents: seq<Var>, done: set<Var>): nat {
    if parents == [] then 0 else (if parents[0] in done then 0 else 1) + Pending(parents[1..], done)
  }

  /** How often `p` occurs. */
  function Occurrences(s: seq<Var>, p: Var): nat {
    if s == [] then 0 else (if s[0] == p then 1 else 0) + Occurrences(s[1..], p)
  }

  lemma {:induction false} PendingLater(parents: seq<Var>, done: set<Var>, p: Var)
    requires p !in done
    ensures Pending(parents, done) == Pending(parents, done + {p}) + Occurrences(parents, p)
  {
    if parents != [] {
      PendingLater(parents[1..], done, p);
    }
  }

  lemma {:induction false} PendingNone(parents: seq<Var>, done: set<Var>)
    ensures Pending(parents, done) == 0 <==> forall p :: p in parents ==> p in done
  {
    if parents != [] {
      PendingNone(parents[1..], done);
      assert forall p :: p in parents <==> p == parents[0] || p in parents[1..];
    }
  }

  lemma {:induction false} PendingAll(parents: seq<Var>)
    ensures Pending(parents, {}) == |parents|
  {
    if parents != [] {
      PendingAll(parents[1..]);
    }
  }

  lemma {:induction false} OccurrencesAppend(s: seq<Var>, x: Var, p: Var)
    ensures Occurrences(s + [x], p) == Occurrences(s, p) + (if x == p then 1 else 0)
  {
    if s == [] {
      assert s + [x] == [x];
    } else {
      assert (s + [x])[1..] == s[1..] + [x];
      OccurrencesAppend(s[1..], x, p);
    }
  }

  lemma {:induction false} OccurrencesMember(s: seq<Var>, p: Var)
    ensures p in s <==> Occurrences(s, p) > 0
  {
    if s != [] {
      OccurrencesMember(s[1..], p);
    }
  }

  // ---- Building the graph --------------------------------------------------

  type Degrees = map<Var, nat>
  type Children = map<Var, seq<Var>>

  function ChildrenOf(c: Children, p: Var): seq<Var> { if p in c then c[p] else [] }

  function DegreeOf(d: Degrees, v: Var): nat { if v in d then d[v] else 0 }

  ghost function Elements(s: seq<Var>): set<Var> { set v | v in s }

  /** In-degrees once the variables in `built` and the first `i` parents of `v` are counted. */
  ghost predicate DegreesOk(e: Equations, built: set<Var>, v: Var, i: nat, d: Degrees)
    requires built <= e.Keys && v in e && i <= |e[v].parents|
  {
    && d.Keys == Mentioned(e, built) + {v} + Elements(e[v].parents[..i])
    && forall u {:trigger DegreeOf(d, u)} ::
         DegreeOf(d, u) == if u in built then |e[u].parents| else if u == v then i else 0
  }

  ghost predicate ChildrenOk(e: Equations, built: set<Var>, v: Var, i: nat, c: Children)
    requires built <= e.Keys && v in e && i <= |e[v].parents|
  {
    forall p, u {:trigger Occurrences(ChildrenOf(c, p), u)} ::
      Occurrences(ChildrenOf(c, p), u)
      == if u in built then Occurrences(e[u].parents, p)
         else if u == v then Occurrences(e[v].parents[..i], p) else 0
  }

  /** The graph of the variables in `built`. */
  ghost predicate Graph(e: Equations, built: set<Var>, d: Degrees, c: Children)
    requires built <= e.Keys
  {
    && d.Keys == Mentioned(e, built)
    && (forall u {:trigger DegreeOf(d, u)} :: DegreeOf(d, u) == if u in built then |e[u].parents| else 0)
    && (forall p, u {:trigger Occurrences(ChildrenOf(c, p), u)} ::
          Occurrences(ChildrenOf(c, p), u) == if u in built then Occurrences(e[u].parents, p) else 0)
  }

  lemma DegreeAdded(e: Equations, built: set<Var>, v: Var, i: nat, d: Degrees, d': Degrees)
    requires built <= e.Keys && v in e && v !in built && i < |e[v].parents| && DegreesOk(e, built, v, i, d)
    requires d' == (if e[v].parents[i] in d then d else d[e[v].parents[i] := 0])[v := DegreeOf(d, v) + 1]
    ensures DegreesOk(e, built, v, i + 1, d')
  {
    assert e[v].parents[..i + 1] == e[v].parents[..i] + [e[v].parents[i]];
    forall u ensures DegreeOf(d', u) == if u in built then |e[u].parents| else if u == v then i + 1 else 0 {
      assert DegreeOf(d, u) >= 0;
    }
  }

  lemma ChildAdded(e: Equations, built: set<Var>, v: Var, i: nat, c: Children, c': Children)
    requires built <= e.Keys && v in e && v !in built && i < |e[v].parents| && ChildrenOk(e, built, v, i, c)
    requires c' == c[e[v].parents[i] := ChildrenOf(c, e[v].parents[i]) + [v]]
    ensures ChildrenOk(e, built, v, i + 1, c')
  {
    var p := e[v].parents[i];
    assert e[v].parents[..i + 1] == e[v].parents[..i] + [p];
    forall q, u ensures Occurrences(ChildrenOf(c', q), u)
          == if u in built then Occurrences(e[u].parents, q)
             else if u == v then Occurrences(e[v].parents[..i + 1], q) else 0
    {
      OccurrencesAppend(ChildrenOf(c, p), v, u);
      OccurrencesAppend(e[v].parents[..i], p, q);
      assert Occurrences(ChildrenOf(c, q), u) >= 0;
    }
  }

  /** Count the parents of one variable. */
  method AddParents(e: Equations, ghost built: set<Var>, v: Var, d0: Degrees, c0: Children)
    returns (d: Degrees, c: Children)
    requires built <= e.Keys && v in e && v !in built && Graph(e, built, d0, c0)
    ensures Graph(e, built + {v}, d, c)
  {
    d := if v in d0 then d0 else d0[v := 0];
    c := c0;
    var parents := e[v].parents;
    StartsWith(e, built, v, d0, c0, d);
    for i := 0 to |parents|
      invariant DegreesOk(e, built, v, i, d) && ChildrenOk(e, built, v, i, c)
    {
      var p := parents[i];
      ghost var dOld, cOld := d, c;
      if p !in d {
        d := d[p := 0];
      }
      c := c[p := ChildrenOf(c, p) + [v]];
      d := d[v := d[v] + 1];
      DegreeAdded(e, built, v, i, dOld, d);
      ChildAdded(e, built, v, i, cOld, c);
    }
    EndsWith(e, built, v, d, c);
  }

  lemma StartsWith(e: Equations, built: set<Var>, v: Var, d0: Degrees, c: Children, d: Degrees)
    requires built <= e.Keys && v in e && v !in built && Graph(e, built, d0, c)
    requires d == if v in d0 then d0 else d0[v := 0]
    ensures DegreesOk(e, built, v, 0, d) && ChildrenOk(e, built, v, 0, c)
  {
    forall u ensures DegreeOf(d, u) == if u in built then |e[u].parents| else if u == v then 0 else 0 {
      assert DegreeOf(d0, u) >= 0;
    }
  }

  lemma EndsWith(e: Equations, built: set<Var>, v: Var, d: Degrees, c: Children)
    requires built <= e.Keys && v in e && v !in built
    requires DegreesOk(e, built, v, |e[v].parents|, d) && ChildrenOk(e, built, v, |e[v].parents|, c)
    ensures Graph(e, built + {v}, d, c)
  {
    assert e[v].parents[..|e[v].parents|] == e[v].parents;
    assert Mentioned(e, built + {v}) == Mentioned(e, built) + {v} + Elements(e[v].parents);
  }

  lemma NothingBuilt(e: Equations)
    ensures Graph(e, {}, map[], map[])
  {
    assert Mentioned(e, {}) == {};
  }

  /** In-degree of every variable and, for every parent, its children once per occurrence. */
  method BuildGraph(e: Equations) returns (d: Degrees, c: Children)
    ensures Graph(e, e.Keys, d, c)
  {
    d, c := map[], map[];
    var todo := e.Keys;
    ghost var built: set<Var> := {};
    NothingBuilt(e);
    while todo != {}
      invariant built <= e.Keys && todo == e.Keys - built
      invariant Graph(e, built, d, c)
      decreases |todo|
    {
      var v :| v in todo;
      d, c := AddParents(e, built, v, d, c);
      todo := todo - {v};
      built := built + {v};
    }
    assert built == e.Keys;
  }

  // ---- Kahn's sort ---------------------------------------------------------

  function InsertVar(x: Var, s: seq<Var>): seq<Var> {
    if s == [] || CompareStrings(x, s[0]) <= 0 then [x] + s else [s[0]] + InsertVar(x, s[1..])
  }

  function SortVars(s: seq<Var>): seq<Var> {
    if s == [] then [] else InsertVar(s[0], SortVars(s[1..]))
  }

  lemma {:induction false} InsertVarMultiset(x: Var, s: seq<Var>)
    ensures multiset(InsertVar(x, s)) == multiset(s) + multiset{x}
  {
    if s == [] || CompareStrings(x, s[0]) <= 0 {
    } else {
      InsertVarMultiset(x, s[1..]);
      assert s == [s[0]] + s[1..];
    }
  }

  lemma {:induction false} SortVarsMultiset(s: seq<Var>)
    ensures multiset(SortVars(s)) == multiset(s)
  {
    if s != [] {
      SortVarsMultiset(s[1..]);
      InsertVarMultiset(s[0], SortVars(s[1..]));
      assert s == [s[0]] + s[1..];
    }
  }

  lemma {:induction false} DuplicateFree(s: seq<Var>)
    ensures NoDuplicates(s) <==> forall v :: v in s ==> multiset(s)[v] == 1
  {
    if s != [] {
      var n := |s| - 1;
      DuplicateFree(s[..n]);
      assert s == s[..n] + [s[n]];
      assert multiset(s) == multiset(s[..n]) + multiset{s[n]};
      if NoDuplicates(s) {
        assert s[n] !in s[..n];
      }
      if forall v :: v in s ==> multiset(s)[v] == 1 {
        assert multiset(s)[s[n]] == 1;
        assert s[n] !in multiset(s[..n]);
        forall v | v in s[..n] ensures multiset(s[..n])[v] == 1 {
          assert v in s && multiset(s)[v] == 1;
        }
      }
    }
  }

  lemma SortVarsOk(s: seq<Var>)
    ensures forall v :: v in SortVars(s) <==> v in s
    ensures NoDuplicates(s) ==> NoDuplicates(SortVars(s))
  {
    SortVarsMultiset(s);
    DuplicateFree(s);
    DuplicateFree(SortVars(s));
    forall v ensures v in SortVars(s) <==> v in s {
      assert v in SortVars(s) <==> v in multiset(SortVars(s));
      assert v in s <==> v in multiset(s);
    }
  }

  // ---- The order is determined -----------------------------------------------

  ghost predicate StrictlyAscending(s: seq<Var>) {
    forall i, j :: 0 <= i < j < |s| ==> CompareStrings(s[i], s[j]) < 0
  }

  /** The variables listed alphabetically, each once. */
  ghost predicate Lists(s: seq<Var>, vs: set<Var>) { StrictlyAscending(s) && Elements(s) == vs }

  lemma {:induction false} InsertVarAscends(x: Var, s: seq<Var>)
    requires StrictlyAscending(s) && x !in s
    ensures StrictlyAscending(InsertVar(x, s)) && forall v :: v in InsertVar(x, s) <==> v == x || v in s
  {
    if s == [] {
    } else if CompareStrings(x, s[0]) <= 0 {
      CompareStringsMeans(x, s[0]);
      forall j | 0 < j < |s| ensures CompareStrings(x, s[j]) < 0 {
        CompareStringsTransitive(x, s[0], s[j]);
      }
    } else {
      assert s == [s[0]] + s[1..];
      InsertVarAscends(x, s[1..]);
      CompareStringsMeans(x, s[0]);
      var rest := InsertVar(x, s[1..]);
      forall j | 0 <= j < |rest| ensures CompareStrings(s[0], rest[j]) < 0 {
        assert rest[j] in rest;
      }
    }
  }

  lemma {:induction false} SortVarsLists(s: seq<Var>)
    requires NoDuplicates(s)
    ensures Lists(SortVars(s), Elements(s))
  {
    if s != [] {
      SortVarsLists(s[1..]);
      assert s == [s[0]] + s[1..];
      assert s[0] !in SortVars(s[1..]) by {
        assert s[0] in SortVars(s[1..]) <==> s[0] in Elements(SortVars(s[1..]));
      }
      InsertVarAscends(s[0], SortVars(s[1..]));
      assert forall v :: v in SortVars(s[1..]) <==> v in Elements(SortVars(s[1..]));
    }
  }

  lemma HasElements(s: seq<Var>)
    requires s != []
    ensures Elements(s) != {}
  {
    assert s[0] in Elements(s);
  }

  lemma {:induction false} ListsUnique(a: seq<Var>, b: seq<Var>)
    requires StrictlyAscending(a) && StrictlyAscending(b) && Elements(a) == Elements(b)
    ensures a == b
  {
    if a == [] {
      assert Elements(a) == {};
      if b != [] {
        HasElements(b);
      }
    } else {
      assert a[0] in Elements(a) && a[0] in b && b != [];
      assert b[0] in Elements(b) && b[0] in a;
      SameFirst(a, b);
      assert a == [a[0]] + a[1..] && b == [b[0]] + b[1..];
      CompareSelfNot(a);
      CompareSelfNot(b);
      assert Elements(a[1..]) == Elements(a) - {a[0]} && Elements(b[1..]) == Elements(b) - {b[0]};
      ListsUnique(a[1..], b[1..]);
    }
  }

  lemma CompareSelfNot(a: seq<Var>)
    requires StrictlyAscending(a) && a != []
    ensures a[0] !in a[1..]
  {
    CompareStringsMeans(a[0], a[0]);
  }

  lemma SameFirst(a: seq<Var>, b: seq<Var>)
    requires StrictlyAscending(a) && StrictlyAscending(b) && a != [] && b != [] && a[0] in b && b[0] in a
    ensures a[0] == b[0]
  {
    var i :| 0 <= i < |b| && b[i] == a[0];
    var j :| 0 <= j < |a| && a[j] == b[0];
    CompareStringsMeans(a[0], b[0]);
    CompareStringsMeans(b[0], a[0]);
  }

  lemma {:induction false} ListingExists(vs: set<Var>) returns (s: seq<Var>)
    ensures Lists(s, vs)
  {
    s := [];
    if vs != {} {
      var v :| v in vs;
      var rest := ListingExists(vs - {v});
      assert v !in rest by {
        assert v in rest <==> v in Elements(rest);
      }
      InsertVarAscends(v, rest);
      s := InsertVar(v, rest);
      assert forall u :: u in rest <==> u in Elements(rest);
    }
  }

  ghost function Listing(vs: set<Var>): (s: seq<Var>)
    ensures Lists(s, vs)
  {
    assert exists s :: Lists(s, vs) by {
      var s := ListingExists(vs);
    }
    var s :| Lists(s, vs);
    s
  }

  /** All parents are done. */
  ghost predicate Free(e: Equations, done: set<Var>, u: Var) { forall p :: p in Parents(e, u) ==> p in done }

  ghost function NewlyFree(e: Equations, done: set<Var>, v: Var): set<Var> {
    set u | u in AllVars(e) && !Free(e, done, u) && Free(e, done + {v}, u)
  }

  /** Take the front of the queue, and queue, alphabetically, what that sets free. */
  ghost function OrderFrom(e: Equations, order: seq<Var>, queue: seq<Var>): seq<Var>
    decreases AllVars(e) - Elements(order)
  {
    if queue == [] || queue[0] !in AllVars(e) || queue[0] in order then order
    else
      assert Elements(order + [queue[0]]) == Elements(order) + {queue[0]};
      OrderFrom(e, order + [queue[0]], queue[1..] + Listing(NewlyFree(e, Elements(order), queue[0])))
  }

  /** The order the equations determine: first, alphabetically, the variables without parents. */
  ghost function OrderOf(e: Equations): seq<Var> {
    OrderFrom(e, [], Listing(set u | u in AllVars(e) && Free(e, {}, u)))
  }

  /** Count down the in-degree of each listed child and collect those that reach zero. */
  method Relax(d0: Degrees, list: seq<Var>) returns (d: Degrees, newZero: seq<Var>)
    requires forall v {:trigger DegreeOf(d0, v)} :: Occurrences(list, v) <= DegreeOf(d0, v)
    ensures d.Keys == d0.Keys && NoDuplicates(newZero)
    ensures forall v {:trigger DegreeOf(d, v)} :: DegreeOf(d, v) == DegreeOf(d0, v) - Occurrences(list, v)
    ensures forall v :: v in newZero <==> DegreeOf(d0, v) > 0 && DegreeOf(d, v) == 0
  {
    d, newZero := d0, [];
    assert forall v :: Occurrences(list[..0], v) == 0;
    for j := 0 to |list|
      invariant d.Keys == d0.Keys && NoDuplicates(newZero)
      invariant forall v {:trigger DegreeOf(d, v)} :: DegreeOf(d, v) == DegreeOf(d0, v) - Occurrences(list[..j], v)
      invariant forall v :: v in newZero <==> DegreeOf(d0, v) > 0 && DegreeOf(d, v) == 0
    {
      var child := list[j];
      CountSplits(list, j, child);
      assert DegreeOf(d, child) > 0 by {
        assert DegreeOf(d0, child) >= Occurrences(list, child);
      }
      ghost var before := d;
      d := d[child := d[child] - 1];
      if d[child] == 0 {
        newZero := newZero + [child];
      }
      forall v ensures DegreeOf(d, v) == DegreeOf(d0, v) - Occurrences(list[..j + 1], v) {
        assert list[..j + 1] == list[..j] + [child];
        OccurrencesAppend(list[..j], child, v);
        assert DegreeOf(before, v) >= 0;
      }
    }
    assert list[..|list|] == list;
  }

  lemma {:induction false} CountSplits(list: seq<Var>, j: nat, v: Var)
    requires j < |list| && list[j] == v
    ensures Occurrences(list[..j], v) < Occurrences(list, v)
  {
    if j > 0 {
      assert list[..j][1..] == list[1..][..j - 1];
      CountSplits(list[1..], j - 1, v);
    }
  }

  ghost predicate DegreesLeft(e: Equations, done: set<Var>, d: Degrees) {
    d.Keys == AllVars(e) && forall v {:trigger DegreeOf(d, v)} :: DegreeOf(d, v) == Pending(Parents(e, v), done)
  }

  /** Listed are exactly the variables with no parent left. */
  ghost predicate FreeListed(all: seq<Var>, d: Degrees) {
    forall v {:trigger DegreeOf(d, v)} :: v in all <==> v in d && DegreeOf(d, v) == 0
  }

  /** The sorted part, the queue behind it and the remaining in-degrees fit together. */
  ghost predicate Sorting(e: Equations, order: seq<Var>, queue: seq<Var>, d: Degrees) {
    && NoDuplicates(order + queue)
    && DegreesLeft(e, Elements(order), d)
    && FreeListed(order + queue, d)
    && (forall k {:trigger ParentsFirst(e, order, k)} :: 0 <= k < |order| ==> ParentsFirst(e, order, k))
  }

  lemma NextParentsFirst(e: Equations, order: seq<Var>, queue: seq<Var>, d: Degrees)
    requires Sorting(e, order, queue, d) && queue != []
    ensures queue[0] !in order && queue[0] in AllVars(e)
    ensures forall k {:trigger ParentsFirst(e, order + [queue[0]], k)} ::
              0 <= k < |order| + 1 ==> ParentsFirst(e, order + [queue[0]], k)
  {
    var v, longer := queue[0], order + [queue[0]];
    assert (order + queue)[|order|] == v;
    assert forall i :: 0 <= i < |order| ==> (order + queue)[i] == order[i];
    assert v in order + queue && DegreeOf(d, v) == 0;
    PendingNone(Parents(e, v), Elements(order));
    forall k | 0 <= k < |longer| ensures ParentsFirst(e, longer, k) {
      assert longer[..k] == order[..k];
      assert k < |order| ==> ParentsFirst(e, order, k);
      assert order[..|order|] == order;
    }
  }

  lemma NextDegrees(e: Equations, done: set<Var>, v: Var, d: Degrees, c: Children)
    requires DegreesLeft(e, done, d) && v !in done && ChildrenRight(e, c)
    ensures forall u {:trigger DegreeOf(d, u)} :: Occurrences(ChildrenOf(c, v), u) <= DegreeOf(d, u)
    ensures forall u {:trigger DegreeOf(d, u)} ::
              DegreeOf(d, u) - Occurrences(ChildrenOf(c, v), u) == Pending(Parents(e, u), done + {v})
  {
    forall u ensures DegreeOf(d, u) == Occurrences(ChildrenOf(c, v), u) + Pending(Parents(e, u), done + {v}) {
      PendingLater(Parents(e, u), done, v);
      assert Occurrences(ChildrenOf(c, v), u) == Occurrences(Parents(e, u), v);
    }
  }

  ghost predicate ChildrenRight(e: Equations, c: Children) {
    forall p, u {:trigger Occurrences(ChildrenOf(c, p), u)} ::
      Occurrences(ChildrenOf(c, p), u) == Occurrences(Parents(e, u), p)
  }

  /** One round: take the front variable, count down its children, queue those now free. */
  method NextVariable(e: Equations, c: Children, order: seq<Var>, queue: seq<Var>, d: Degrees)
    returns (order': seq<Var>, queue': seq<Var>, d': Degrees)
    requires Sorting(e, order, queue, d) && queue != [] && ChildrenRight(e, c)
    ensures order' == order + [queue[0]] && queue[0] !in order && queue[0] in AllVars(e)
    ensures Sorting(e, order', queue', d')
    ensures queue' == queue[1..] + Listing(NewlyFree(e, Elements(order), queue[0]))
  {
    var v := queue[0];
    NextParentsFirst(e, order, queue, d);
    NextDegrees(e, Elements(order), v, d, c);
    order' := order + [v];
    var newZero;
    d', newZero := Relax(d, ChildrenOf(c, v));
    SortVarsOk(newZero);
    queue' := queue[1..] + SortVars(newZero);
    NextQueue(order, queue, newZero, SortVars(newZero), d, d');
    assert FreeListed(order' + queue', d');
    NewZeroListed(e, Elements(order), v, d, d', c, newZero);
    assert DegreesLeft(e, Elements(order'), d') by {
      assert Elements(order') == Elements(order) + {v};
      RelaxedLeft(e, Elements(order), v, d, d', c);
    }
  }

  /** What the round queues is the alphabetical list of the variables it set free. */
  lemma NewZeroListed(e: Equations, done: set<Var>, v: Var, d: Degrees, d': Degrees, c: Children, newZero: seq<Var>)
    requires DegreesLeft(e, done, d) && d'.Keys == d.Keys && NoDuplicates(newZero)
    requires forall u {:trigger DegreeOf(d', u)} :: DegreeOf(d', u) == DegreeOf(d, u) - Occurrences(ChildrenOf(c, v), u)
    requires forall u {:trigger DegreeOf(d, u)} ::
               DegreeOf(d, u) - Occurrences(ChildrenOf(c, v), u) == Pending(Parents(e, u), done + {v})
    requires forall u :: u in newZero <==> DegreeOf(d, u) > 0 && DegreeOf(d', u) == 0
    ensures SortVars(newZero) == Listing(NewlyFree(e, done, v))
  {
    forall u ensures u in Elements(newZero) <==> u in NewlyFree(e, done, v) {
      assert DegreeOf(d, u) == Pending(Parents(e, u), done);
      assert DegreeOf(d', u) == Pending(Parents(e, u), done + {v});
      PendingNone(Parents(e, u), done);
      PendingNone(Parents(e, u), done + {v});
      assert u !in d ==> DegreeOf(d, u) == 0;
    }
    assert Elements(newZero) == NewlyFree(e, done, v);
    SortVarsLists(newZero);
    ListsUnique(SortVars(newZero), Listing(NewlyFree(e, done, v)));
  }

  lemma RelaxedLeft(e: Equations, done: set<Var>, v: Var, d: Degrees, d': Degrees, c: Children)
    requires d'.Keys == d.Keys == AllVars(e)
    requires forall u {:trigger DegreeOf(d', u)} :: DegreeOf(d', u) == DegreeOf(d, u) - Occurrences(ChildrenOf(c, v), u)
    requires forall u {:trigger DegreeOf(d, u)} ::
               DegreeOf(d, u) - Occurrences(ChildrenOf(c, v), u) == Pending(Parents(e, u), done + {v})
    ensures DegreesLeft(e, done + {v}, d')
  {
    forall u ensures DegreeOf(d', u) == Pending(Parents(e, u), done + {v}) {
      assert DegreeOf(d, u) >= 0;
    }
  }

  lemma NextQueue(order: seq<Var>, queue: seq<Var>, newZero: seq<Var>, sorted: seq<Var>, d: Degrees, d': Degrees)
    requires queue != [] && NoDuplicates(order + queue) && NoDuplicates(sorted) && d'.Keys == d.Keys
    requires FreeListed(order + queue, d)
    requires forall v {:trigger DegreeOf(d', v)} :: DegreeOf(d', v) <= DegreeOf(d, v)
    requires forall v :: v in sorted <==> v in newZero
    requires forall v :: v in newZero <==> DegreeOf(d, v) > 0 && DegreeOf(d', v) == 0
    ensures var all := order + [queue[0]] + (queue[1..] + sorted);
            NoDuplicates(all) && FreeListed(all, d')
  {
    var known := order + queue;
    assert order + [queue[0]] + (queue[1..] + sorted) == known + sorted;
    forall v ensures v in known + sorted <==> v in d' && DegreeOf(d', v) == 0 {
      assert DegreeOf(d', v) <= DegreeOf(d, v);
      assert v in known + sorted <==> v in known || v in sorted;
    }
    forall v | v in known ensures v !in sorted {
      assert DegreeOf(d, v) == 0;
    }
    ApartNoDuplicates(known, sorted);
  }

  lemma ApartNoDuplicates(a: seq<Var>, b: seq<Var>)
    requires NoDuplicates(a) && NoDuplicates(b) && forall v :: v in a ==> v !in b
    ensures NoDuplicates(a + b)
  {
    var all := a + b;
    forall i, j | 0 <= i < j < |all| ensures all[i] != all[j] {
      if i < |a| <= j {
        assert all[i] in a && all[j] in b;
      }
    }
  }

  /** Variables without parents, in order. */
  method Sources(d: Degrees) returns (queue: seq<Var>)
    ensures NoDuplicates(queue) && forall v :: v in queue <==> v in d && d[v] == 0
    ensures StrictlyAscending(queue)
  {
    var found: seq<Var> := [];
    var todo := d.Keys;
    while todo != {}
      invariant todo <= d.Keys && NoDuplicates(found)
      invariant forall v :: v in found <==> v in d.Keys - todo && d[v] == 0
      decreases |todo|
    {
      var v :| v in todo;
      todo := todo - {v};
      if d[v] == 0 {
        found := found + [v];
      }
    }
    SortVarsOk(found);
    SortVarsLists(found);
    queue := SortVars(found);
  }

  method KahnSort(e: Equations, d0: Degrees, c: Children) returns (order: seq<Var>)
    requires Graph(e, e.Keys, d0, c)
    ensures exists d: Degrees :: Sorting(e, order, [], d)
    ensures order == OrderOf(e)
  {
    var queue := Sources(d0);
    var d := d0;
    order := [];
    SortingStarts(e, queue, d, c);
    assert Elements(order) == {};
    SourcesListed(e, queue, d);
    while queue != []
      invariant Sorting(e, order, queue, d) && ChildrenRight(e, c)
      invariant OrderFrom(e, order, queue) == OrderOf(e)
      invariant Elements(order) <= AllVars(e)
      decreases AllVars(e) - Elements(order)
    {
      ghost var before := order;
      order, queue, d := NextVariable(e, c, order, queue, d);
      assert Elements(order) == Elements(before) + {order[|before|]};
    }
  }

  lemma SourcesListed(e: Equations, queue: seq<Var>, d: Degrees)
    requires DegreesLeft(e, {}, d) && StrictlyAscending(queue) && forall v :: v in queue <==> v in d && d[v] == 0
    ensures queue == Listing(set u | u in AllVars(e) && Free(e, {}, u))
  {
    var sources := set u | u in AllVars(e) && Free(e, {}, u);
    forall u ensures u in Elements(queue) <==> u in sources {
      assert DegreeOf(d, u) == Pending(Parents(e, u), {});
      PendingNone(Parents(e, u), {});
    }
    assert Elements(queue) == sources;
    ListsUnique(queue, Listing(sources));
  }

  lemma SortingStarts(e: Equations, queue: seq<Var>, d: Degrees, c: Children)
    requires Graph(e, e.Keys, d, c) && NoDuplicates(queue)
    requires forall v :: v in queue <==> v in d && d[v] == 0
    ensures Sorting(e, [], queue, d) && ChildrenRight(e, c)
  {
    assert [] + queue == queue && Elements([]) == {};
    forall v ensures DegreeOf(d, v) == Pending(Parents(e, v), {}) {
      PendingAll(Parents(e, v));
    }
    forall p, u ensures Occurrences(ChildrenOf(c, p), u) == Occurrences(Parents(e, u), p) {
      assert Occurrences(ChildrenOf(c, p), u) >= 0;
    }
  }

  lemma SortedInside(e: Equations, order: seq<Var>, d: Degrees)
    requires Sorting(e, order, [], d)
    ensures Elements(order) <= AllVars(e) && |Elements(order)| == |order|
  {
    assert order + [] == order;
    forall v | v in Elements(order) ensures v in AllVars(e) {
      assert v in order && DegreeOf(d, v) == 0;
    }
    SizeOfOrder(order);
  }

  lemma SortedAll(e: Equations, order: seq<Var>, d: Degrees)
    requires Sorting(e, order, [], d) && |order| == |AllVars(e)|
    ensures Topological(e, order)
  {
    assert order + [] == order;
    SortedInside(e, order, d);
    SubsetOfSameSize(Elements(order), AllVars(e));
    forall v ensures ListedRightly(e, order, v) {
      assert v in Elements(order) <==> v in order;
    }
  }

  lemma SortedPart(e: Equations, order: seq<Var>, d: Degrees)
    requires Sorting(e, order, [], d) && |order| != |AllVars(e)|
    ensures !Acyclic(e) && AllVars(e) - Elements(order) != {}
    ensures forall v {:trigger BelowCycle(e, v)} :: v in AllVars(e) - Elements(order) ==> BelowCycle(e, v)
  {
    SortedInside(e, order, d);
    var done, all := Elements(order), AllVars(e);
    assert all == done + (all - done);
    LeftoverSourceless(e, order, d);
    forall v | v in all - done ensures BelowCycle(e, v) && !Acyclic(e) {
      SourcelessBelowCycle(e, all - done, v);
    }
  }

  /**
   * With an empty queue, the order is complete exactly when the graph has no cycle, and what it lacks
   * is on or below one.
   */
  lemma SortedOrCyclic(e: Equations, order: seq<Var>, d: Degrees)
    requires Sorting(e, order, [], d)
    ensures Elements(order) <= AllVars(e) && |Elements(order)| == |order|
    ensures |order| == |AllVars(e)| ==> Topological(e, order) && Acyclic(e)
    ensures |order| != |AllVars(e)| ==> !Acyclic(e) && AllVars(e) - Elements(order) != {}
    ensures |order| != |AllVars(e)| ==>
              forall v {:trigger BelowCycle(e, v)} :: v in AllVars(e) - Elements(order) ==> BelowCycle(e, v)
  {
    SortedInside(e, order, d);
    if |order| == |AllVars(e)| {
      SortedAll(e, order, d);
      TopologicalIsAcyclic(e, order);
    } else {
      SortedPart(e, order, d);
    }
  }

  lemma LeftoverSourceless(e: Equations, order: seq<Var>, d: Degrees)
    requires Sorting(e, order, [], d)
    ensures Sourceless(e, AllVars(e) - Elements(order))
  {
    var done, rest := Elements(order), AllVars(e) - Elements(order);
    assert order + [] == order;
    forall v | v in rest ensures HasParentIn(e, rest, v) {
      assert v !in order && DegreeOf(d, v) > 0;
      PendingNone(Parents(e, v), done);
      var p :| p in Parents(e, v) && p !in done;
      assert p in AllVars(e);
    }
  }

  lemma {:induction false} SizeOfOrder(s: seq<Var>)
    requires NoDuplicates(s)
    ensures |Elements(s)| == |s|
  {
    if s != [] {
      var n := |s| - 1;
      SizeOfOrder(s[..n]);
      assert s == s[..n] + [s[n]];
      assert Elements(s) == Elements(s[..n]) + {s[n]};
    } else {
      assert Elements(s) == {};
    }
  }

  lemma {:induction false} SubsetOfSameSize(a: set<Var>, b: set<Var>)
    requires a <= b && |a| == |b|
    ensures a == b
  {
    if a != {} {
      var x :| x in a;
      SubsetOfSameSize(a - {x}, b - {x});
    }
  }

  // ---- The constructor -----------------------------------------------------

  predicate Mismatched(eq: Equation) { |eq.coefficients| != |eq.parents| }

  /** The last equation given for each variable. */
  function FromList(equations: seq<Equation>): Equations {
    if equations == [] then map[]
    else var last := equations[|equations| - 1]; FromList(equations[..|equations| - 1])[last.variable := last]
  }

  /** Nothing after position `i` gives the variable of the equation there again. */
  ghost predicate GivenLast(equations: seq<Equation>, i: nat) {
    i < |equations| && forall j :: i < j < |equations| ==> equations[j].variable != equations[i].variable
  }

  /** A variable has an equation exactly when one is given for it, and then the last one. */
  lemma {:induction false} FromListLast(equations: seq<Equation>, v: Var)
    ensures v in FromList(equations) <==> exists i :: 0 <= i < |equations| && equations[i].variable == v
    ensures forall i: nat {:trigger GivenLast(equations, i)} :: GivenLast(equations, i) && equations[i].variable == v ==>
              v in FromList(equations) && FromList(equations)[v] == equations[i]
  {
    if equations != [] {
      var n := |equations| - 1;
      FromListLast(equations[..n], v);
      assert equations == equations[..n] + [equations[n]];
      forall i: nat | GivenLast(equations, i) && equations[i].variable == v
        ensures v in FromList(equations) && FromList(equations)[v] == equations[i]
      {
        assert i < n ==> GivenLast(equations[..n], i) && equations[n].variable != v;
      }
    }
  }

  lemma {:induction false} FromListMatched(equations: seq<Equation>)
    requires forall i :: 0 <= i < |equations| ==> !Mismatched(equations[i])
    ensures Matched(FromList(equations))
  {
    if equations != [] {
      FromListMatched(equations[..|equations| - 1]);
    }
  }

  /**
   * Build a model. The first equation whose coefficients do not fit its parents is refused; otherwise
   * the model is built exactly when no variable is its own ancestor, and its order lists every variable
   * once with parents first; nothing but the equations determines it. The variable named in a cycle error is on a cycle or below one.
   */
  method New(equations: seq<Equation>) returns (r: Result<ScmModel, ScmError>)
    ensures (exists i :: 0 <= i < |equations| && Mismatched(equations[i])) ==>
              exists i :: 0 <= i < |equations| && Mismatched(equations[i])
                && (forall j :: 0 <= j < i ==> !Mismatched(equations[j]))
                && r == Err(DimensionMismatch(|equations[i].parents|, |equations[i].coefficients|))
    ensures (forall i :: 0 <= i < |equations| ==> !Mismatched(equations[i])) ==>
              (r.Ok? <==> Acyclic(FromList(equations)))
    ensures r.Ok? ==> r.value.equations == FromList(equations) && Valid(r.value)
    ensures r.Ok? ==> r.value.order == OrderOf(FromList(equations))
    ensures r.Err? ==>
              || r.error.DimensionMismatch?
              || (r.error.CycleDetected? && r.error.v in AllVars(FromList(equations)) && BelowCycle(FromList(equations), r.error.v))
  {
    for i := 0 to |equations|
      invariant forall j :: 0 <= j < i ==> !Mismatched(equations[j])
    {
      var eq := equations[i];
      if |eq.coefficients| != |eq.parents| {
        return Err(DimensionMismatch(|eq.parents|, |eq.coefficients|));
      }
    }
    var e: Equations := map[];
    for i := 0 to |equations|
      invariant e == FromList(equations[..i])
    {
      assert equations[..i + 1][..i] == equations[..i];
      e := e[equations[i].variable := equations[i]];
    }
    assert equations[..|equations|] == equations;
    FromListMatched(equations);
    var d, c := BuildGraph(e);
    var allVars := d.Keys;
    var order := KahnSort(e, d, c);
    ghost var left: Degrees :| Sorting(e, order, [], left);
    SortedOrCyclic(e, order, left);
    if |order| != |allVars| {
      var visited := set v | v in order;
      var v :| v in allVars - visited;
      return Err(CycleDetected(v));
    }
    return Ok(ScmModel(e, order));
  }
}
