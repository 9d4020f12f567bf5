/**
 * Depth-first enumeration of simple paths, with a test deciding which edge may extend a path. The list
 * it produces is exact, and for strengths in [0, 1] pruning on the way equals filtering at the end.
 */
module PathSearch {
  import opened Products
  import opened CausalGraph

  function Nodes(a: Node, p: Path): seq<Node> { seq(|p| + 1, i requires 0 <= i <= |p| => Stop(a, p, i)) }

  ghost predicate Apart(a: Node, p: Path, i: nat, j: nat)
    requires i <= |p| && j <= |p|
  {
    Stop(a, p, i) != Stop(a, p, j)
  }

  /** A path that meets no node twice. */
  ghost predicate Simple(a: Node, p: Path) {
    forall i, j {:trigger Apart(a, p, i, j)} :: 0 <= i < j <= |p| ==> Apart(a, p, i, j)
  }

  ghost predicate AllAllowed(test: Test, p: Path) {
    forall i {:trigger Allowed(test, p, i)} :: 0 <= i < |p| ==> Allowed(test, p, i)
  }

  /** Whether an edge may extend a path. */
  type Test = (Path, Edge) -> bool

  ghost predicate Allowed(test: Test, p: Path, i: nat)
    requires i < |p|
  {
    test(p[..i], p[i])
  }

  /** A simple path of one to `depth` edges from `a` to `b`, each edge of which the test allowed. */
  ghost predicate IsTraced(es: seq<Edge>, test: Test, a: Node, p: Path, b: Node, depth: nat) {
    1 <= |p| <= depth && IsPath(es, a, p, b) && Simple(a, p) && AllAllowed(test, p)
  }

  /** Without cycles every path is simple. */
  lemma AcyclicPathsSimple(es: seq<Edge>, a: Node, p: Path, b: Node)
    requires Acyclic(es) && IsPath(es, a, p, b)
    ensures Simple(a, p)
  {
    forall i, j | 0 <= i < j <= |p| ensures Apart(a, p, i, j) {
      var n, m := Stop(a, p, i), Stop(a, p, j);
      var q := p[i..j];
      assert forall k {:trigger q[k]} :: 0 <= k < |q| ==> q[k] == p[i + k];
      assert IsPath(es, n, q, m);
    }
  }

  // ---- The search as a function --------------------------------------------

  /** The paths found below `p`, in the order of the search. */
  ghost function Found(adj: Adjacency, test: Test, a: Node, p: Path, b: Node, rest: nat): seq<Path>
    decreases rest, 1, 0
  {
    if End(a, p) == b && p != [] then [p]
    else if rest == 0 then []
    else FoundVia(adj, test, a, p, b, rest, At(adj, End(a, p)))
  }

  /** Those whose next edge is one of `edges`. */
  ghost function FoundVia(adj: Adjacency, test: Test, a: Node, p: Path, b: Node, rest: nat, edges: seq<Edge>): seq<Path>
    requires rest > 0
    decreases rest, 0, |edges|
  {
    if edges == [] then []
    else
      var n := |edges| - 1;
      FoundVia(adj, test, a, p, b, rest, edges[..n]) + Below(adj, test, a, p, b, rest, edges[n])
  }

  /** What one edge contributes. */
  ghost function Below(adj: Adjacency, test: Test, a: Node, p: Path, b: Node, rest: nat, e: Edge): seq<Path>
    requires rest > 0
    decreases rest, 0, 0
  {
    if Takes(test, a, p, e) then Found(adj, test, a, p + [e], b, rest - 1) else []
  }

  ghost predicate Takes(test: Test, a: Node, p: Path, e: Edge) { test(p, e) && e.target !in Nodes(a, p) }

  ghost predicate EachAt<R(!new)>(report: Path -> R, paths: seq<Path>, r: seq<R>, i: nat)
    requires i < |paths| && i < |r|
  {
    r[i] == report(paths[i])
  }

  ghost predicate IsEach<R(!new)>(report: Path -> R, paths: seq<Path>, r: seq<R>) {
    && |r| == |paths|
    && forall i {:trigger EachAt(report, paths, r, i)} :: 0 <= i < |paths| ==> EachAt(report, paths, r, i)
  }

  lemma EachExists<R(!new)>(report: Path -> R, paths: seq<Path>)
    ensures exists r: seq<R> :: IsEach(report, paths, r)
  {
    assert IsEach(report, paths, seq(|paths|, i requires 0 <= i < |paths| => report(paths[i])));
  }

  /** A report for each path. */
  ghost function Each<R(!new)>(report: Path -> R, paths: seq<Path>): (r: seq<R>)
    ensures IsEach(report, paths, r)
  {
    EachExists(report, paths);
    var r: seq<R> :| IsEach(report, paths, r);
    r
  }

  lemma EachUnique<R(!new)>(report: Path -> R, paths: seq<Path>, r: seq<R>)
    requires IsEach(report, paths, r)
    ensures r == Each(report, paths)
  {
    forall i | 0 <= i < |r| ensures r[i] == Each(report, paths)[i] {
      assert EachAt(report, paths, r, i) && EachAt(report, paths, Each(report, paths), i);
    }
  }

  lemma EachJoin<R(!new)>(report: Path -> R, x: seq<Path>, y: seq<Path>)
    ensures Each(report, x + y) == Each(report, x) + Each(report, y)
  {
    var r := Each(report, x) + Each(report, y);
    forall i | 0 <= i < |x + y| ensures EachAt(report, x + y, r, i) {
      if i < |x| {
        assert EachAt(report, x, Each(report, x), i);
      } else {
        assert EachAt(report, y, Each(report, y), i - |x|);
      }
    }
    EachUnique(report, x + y, r);
  }

  lemma EachMore<R(!new)>(report: Path -> R, results0: seq<R>, before: seq<Path>, last: seq<Path>)
    ensures results0 + Each(report, before + last) == (results0 + Each(report, before)) + Each(report, last)
  {
    EachJoin(report, before, last);
  }

  lemma EachOne<R(!new)>(report: Path -> R, p: Path)
    ensures Each(report, [p]) == [report(p)]
  {
    assert EachAt(report, [p], Each(report, [p]), 0);
  }

  // ---- The list is exact ---------------------------------------------------

  lemma NodesMember(a: Node, p: Path, n: Node)
    ensures n in Nodes(a, p) <==> exists i :: 0 <= i <= |p| && Stop(a, p, i) == n
  {
    var ns := Nodes(a, p);
    if i :| 0 <= i <= |p| && Stop(a, p, i) == n {
      assert ns[i] == n;
    }
    if n in ns {
      var i :| 0 <= i < |ns| && ns[i] == n;
      assert Stop(a, p, i) == n;
    }
  }

  /** A path so far: simple, allowed and in the graph. */
  ghost predicate Open(es: seq<Edge>, test: Test, a: Node, p: Path) {
    IsPath(es, a, p, End(a, p)) && Simple(a, p) && AllAllowed(test, p)
  }

  lemma SimpleAppend(a: Node, p: Path, e: Edge)
    ensures Simple(a, p + [e]) <==> Simple(a, p) && e.target !in Nodes(a, p)
  {
    var q := p + [e];
    NodesMember(a, p, e.target);
    forall i: nat | i <= |p| ensures Stop(a, q, i) == Stop(a, p, i) {}
    if Simple(a, p) && e.target !in Nodes(a, p) {
      forall i, j | 0 <= i < j <= |q| ensures Apart(a, q, i, j) {
        assert j <= |p| ==> Apart(a, p, i, j);
      }
    }
    if Simple(a, q) {
      forall i, j | 0 <= i < j <= |p| ensures Apart(a, p, i, j) {
        assert Apart(a, q, i, j);
      }
      forall i: nat | i <= |p| ensures Stop(a, p, i) != e.target {
        assert Apart(a, q, i, |q|);
      }
    }
  }

  lemma AllowedAppend(test: Test, p: Path, e: Edge)
    ensures AllAllowed(test, p + [e]) <==> AllAllowed(test, p) && test(p, e)
  {
    var q := p + [e];
    assert q[..|p|] == p;
    forall i | 0 <= i < |p| ensures Allowed(test, q, i) <==> Allowed(test, p, i) {
      assert q[..i] == p[..i];
    }
    assert Allowed(test, q, |p|) <==> test(p, e);
  }

  lemma PathAppend(es: seq<Edge>, a: Node, p: Path, e: Edge)
    ensures IsPath(es, a, p + [e], e.target) <==> IsPath(es, a, p, End(a, p)) && e in es && e.source == End(a, p)
  {
    var q := p + [e];
    forall i: nat | i <= |p| ensures Stop(a, q, i) == Stop(a, p, i) {}
    if IsPath(es, a, q, e.target) {
      assert q[|p|] == e;
      forall i | 0 <= i < |p| ensures p[i] in es && p[i].source == Stop(a, p, i) {
        assert q[i] == p[i];
      }
    }
  }

  /** Extending a path keeps it open exactly when the edge starts at its end and is taken. */
  lemma OpenAppend(es: seq<Edge>, test: Test, a: Node, p: Path, e: Edge)
    ensures Open(es, test, a, p + [e]) <==>
              Open(es, test, a, p) && e in es && e.source == End(a, p) && Takes(test, a, p, e)
  {
    SimpleAppend(a, p, e);
    AllowedAppend(test, p, e);
    PathAppend(es, a, p, e);
  }

  lemma {:induction false} OpenPrefix(es: seq<Edge>, test: Test, a: Node, p: Path, n: nat)
    requires Open(es, test, a, p) && n <= |p|
    ensures Open(es, test, a, p[..n])
    decreases |p|
  {
    if n == |p| {
      assert p[..n] == p;
    } else {
      var m := |p| - 1;
      assert p == p[..m] + [p[m]];
      OpenAppend(es, test, a, p[..m], p[m]);
      OpenPrefix(es, test, a, p[..m], n);
      assert p[..m][..n] == p[..n];
    }
  }

  /** `q` runs through `p` and ends at `b` within `rest` more edges. */
  ghost predicate Completes(es: seq<Edge>, test: Test, a: Node, p: Path, q: Path, b: Node, rest: nat) {
    p <= q && |q| <= |p| + rest && q != [] && End(a, q) == b && Open(es, test, a, q)
  }

  ghost predicate CompletesVia(es: seq<Edge>, test: Test, a: Node, p: Path, q: Path, b: Node, rest: nat, edges: seq<Edge>) {
    Completes(es, test, a, p, q, b, rest) && |q| > |p| && q[|p|] in edges
  }

  /** A simple path is at its end only once. */
  lemma EndsOnce(a: Node, p: Path, q: Path)
    requires p <= q && Simple(a, q) && End(a, p) == End(a, q)
    ensures q == p
  {
    assert Stop(a, q, |p|) == Stop(a, p, |p|);
    assert |p| < |q| ==> Apart(a, q, |p|, |q|);
  }

  lemma {:induction false} FoundExact(adj: Adjacency, es: seq<Edge>, test: Test, a: Node, p: Path, b: Node, rest: nat, q: Path)
    requires Indexes(adj, es, true) && Open(es, test, a, p)
    ensures q in Found(adj, test, a, p, b, rest) <==> Completes(es, test, a, p, q, b, rest)
    decreases rest, 1, 0
  {
    if End(a, p) == b && p != [] {
      if Completes(es, test, a, p, q, b, rest) {
        EndsOnce(a, p, q);
      }
    } else if rest > 0 {
      FoundViaExact(adj, es, test, a, p, b, rest, At(adj, End(a, p)), q);
      if Completes(es, test, a, p, q, b, rest) {
        GoesOn(adj, es, test, a, p, q, b, rest);
      }
    }
  }

  lemma GoesOn(adj: Adjacency, es: seq<Edge>, test: Test, a: Node, p: Path, q: Path, b: Node, rest: nat)
    requires Indexes(adj, es, true) && Completes(es, test, a, p, q, b, rest)
    requires End(a, p) != b || p == []
    ensures CompletesVia(es, test, a, p, q, b, rest, At(adj, End(a, p)))
  {
    assert |q| > |p|;
    assert q[|p|].source == Stop(a, q, |p|) == End(a, p);
    AtMember(adj, es, End(a, p), true, q[|p|]);
  }

  lemma {:induction false} FoundViaExact(adj: Adjacency, es: seq<Edge>, test: Test, a: Node, p: Path, b: Node, rest: nat, edges: seq<Edge>, q: Path)
    requires Indexes(adj, es, true) && Open(es, test, a, p) && rest > 0
    requires forall e :: e in edges ==> e in At(adj, End(a, p))
    ensures q in FoundVia(adj, test, a, p, b, rest, edges) <==> CompletesVia(es, test, a, p, q, b, rest, edges)
    decreases rest, 0, |edges|
  {
    if edges != [] {
      var n := |edges| - 1;
      FoundViaExact(adj, es, test, a, p, b, rest, edges[..n], q);
      BelowExact(adj, es, test, a, p, b, rest, edges[n], q);
      ViaLast(es, test, a, p, q, b, rest, edges);
    }
  }

  lemma TakenOpens(adj: Adjacency, es: seq<Edge>, test: Test, a: Node, p: Path, e: Edge)
    requires Indexes(adj, es, true) && Open(es, test, a, p) && e in At(adj, End(a, p)) && Takes(test, a, p, e)
    ensures Open(es, test, a, p + [e])
  {
    AtMember(adj, es, End(a, p), true, e);
    OpenAppend(es, test, a, p, e);
  }

  lemma {:induction false} BelowExact(adj: Adjacency, es: seq<Edge>, test: Test, a: Node, p: Path, b: Node, rest: nat, e: Edge, q: Path)
    requires Indexes(adj, es, true) && Open(es, test, a, p) && rest > 0 && e in At(adj, End(a, p))
    ensures q in Below(adj, test, a, p, b, rest, e) <==> CompletesVia(es, test, a, p, q, b, rest, [e])
    decreases rest, 0, 0
  {
    var via, listed := CompletesVia(es, test, a, p, q, b, rest, [e]), q in Below(adj, test, a, p, b, rest, e);
    assert via ==> Takes(test, a, p, e) by {
      NextEdge(es, test, a, p, q, b, rest, e);
    }
    if Takes(test, a, p, e) {
      assert listed <==> Completes(es, test, a, p + [e], q, b, rest - 1) by {
        TakenOpens(adj, es, test, a, p, e);
        FoundExact(adj, es, test, a, p + [e], b, rest - 1, q);
      }
      assert via <==> Completes(es, test, a, p + [e], q, b, rest - 1) by {
        NextEdge(es, test, a, p, q, b, rest, e);
      }
    }
  }

  lemma ViaLast(es: seq<Edge>, test: Test, a: Node, p: Path, q: Path, b: Node, rest: nat, edges: seq<Edge>)
    requires edges != []
    ensures var n := |edges| - 1;
            CompletesVia(es, test, a, p, q, b, rest, edges)
            <==> CompletesVia(es, test, a, p, q, b, rest, edges[..n]) || CompletesVia(es, test, a, p, q, b, rest, [edges[n]])
  {
    var n := |edges| - 1;
    assert edges == edges[..n] + [edges[n]];
  }

  lemma TakenInside(es: seq<Edge>, test: Test, a: Node, p: Path, q: Path, e: Edge)
    requires Open(es, test, a, q) && p + [e] <= q
    ensures Takes(test, a, p, e)
  {
    assert q[..|p| + 1] == p + [e];
    OpenPrefix(es, test, a, q, |p| + 1);
    OpenAppend(es, test, a, p, e);
  }

  lemma LongerPrefix(p: Path, q: Path, e: Edge)
    ensures p + [e] <= q <==> p <= q && |q| > |p| && q[|p|] == e
  {
    if p + [e] <= q {
      assert q[|p|] == (p + [e])[|p|];
    }
  }

  /** A completion goes through the next edge exactly when it completes the longer path, and only if it is taken. */
  lemma NextEdge(es: seq<Edge>, test: Test, a: Node, p: Path, q: Path, b: Node, rest: nat, e: Edge)
    requires rest > 0
    ensures CompletesVia(es, test, a, p, q, b, rest, [e]) <==> Completes(es, test, a, p + [e], q, b, rest - 1)
    ensures CompletesVia(es, test, a, p, q, b, rest, [e]) ==> Takes(test, a, p, e)
  {
    LongerPrefix(p, q, e);
    if Completes(es, test, a, p + [e], q, b, rest - 1) {
      TakenInside(es, test, a, p, q, e);
    }
  }

  /** The search lists exactly the simple allowed paths within the depth. */
  lemma TraceExact(adj: Adjacency, es: seq<Edge>, test: Test, a: Node, b: Node, depth: nat, p: Path)
    requires Indexes(adj, es, true)
    ensures p in Found(adj, test, a, [], b, depth) <==> IsTraced(es, test, a, p, b, depth)
  {
    assert Open(es, test, a, []);
    FoundExact(adj, es, test, a, [], b, depth, p);
  }

  // ---- Each path once ------------------------------------------------------

  ghost predicate Distinct<T>(s: seq<T>) { forall i, j :: 0 <= i < j < |s| ==> s[i] != s[j] }

  ghost predicate DistinctEdges(adj: Adjacency) { forall n {:trigger At(adj, n)} :: Distinct(At(adj, n)) }

  lemma {:induction false} FoundExtends(adj: Adjacency, test: Test, a: Node, p: Path, b: Node, rest: nat, q: Path)
    requires q in Found(adj, test, a, p, b, rest)
    ensures p <= q
    decreases rest, 1, 0
  {
    if !(End(a, p) == b && p != []) {
      FoundViaExtends(adj, test, a, p, b, rest, At(adj, End(a, p)), q);
    }
  }

  lemma {:induction false} FoundViaExtends(adj: Adjacency, test: Test, a: Node, p: Path, b: Node, rest: nat, edges: seq<Edge>, q: Path)
    requires rest > 0 && q in FoundVia(adj, test, a, p, b, rest, edges)
    ensures p <= q && |q| > |p| && q[|p|] in edges
    decreases rest, 0, |edges|
  {
    var n := |edges| - 1;
    if q in FoundVia(adj, test, a, p, b, rest, edges[..n]) {
      FoundViaExtends(adj, test, a, p, b, rest, edges[..n], q);
    } else {
      FoundExtends(adj, test, a, p + [edges[n]], b, rest - 1, q);
      LongerPrefix(p, q, edges[n]);
    }
  }

  lemma {:induction false} FoundOnce(adj: Adjacency, test: Test, a: Node, p: Path, b: Node, rest: nat)
    requires DistinctEdges(adj)
    ensures Distinct(Found(adj, test, a, p, b, rest))
    decreases rest, 1, 0
  {
    if !(End(a, p) == b && p != []) && rest > 0 {
      assert Distinct(At(adj, End(a, p)));
      FoundViaOnce(adj, test, a, p, b, rest, At(adj, End(a, p)));
    }
  }

  lemma {:induction false} FoundViaOnce(adj: Adjacency, test: Test, a: Node, p: Path, b: Node, rest: nat, edges: seq<Edge>)
    requires DistinctEdges(adj) && rest > 0 && Distinct(edges)
    ensures Distinct(FoundVia(adj, test, a, p, b, rest, edges))
    decreases rest, 0, |edges|
  {
    if edges != [] {
      var n := |edges| - 1;
      var e := edges[n];
      FoundViaOnce(adj, test, a, p, b, rest, edges[..n]);
      FoundOnce(adj, test, a, p + [e], b, rest - 1);
      var before, last := FoundVia(adj, test, a, p, b, rest, edges[..n]), Below(adj, test, a, p, b, rest, e);
      forall q | q in before ensures |q| > |p| && q[|p|] != e {
        FoundViaExtends(adj, test, a, p, b, rest, edges[..n], q);
      }
      forall q | q in last ensures p + [e] <= q {
        FoundExtends(adj, test, a, p + [e], b, rest - 1, q);
      }
      DistinctJoin(before, last, p, e);
    }
  }

  lemma DistinctJoin(before: seq<Path>, last: seq<Path>, p: Path, e: Edge)
    requires Distinct(before) && Distinct(last)
    requires forall q :: q in before ==> |q| > |p| && q[|p|] != e
    requires forall q :: q in last ==> p + [e] <= q
    ensures Distinct(before + last)
  {
    var all := before + last;
    forall i, j | 0 <= i < j < |all| ensures all[i] != all[j] {
      if i < |before| <= j {
        assert all[i] in before && all[j] in last;
        assert all[j][|p|] == (p + [e])[|p|];
      }
    }
  }

  // ---- Pruning is filtering ------------------------------------------------

  ghost function AtLeast(min: real): Test { (p: Path, e: Edge) => Times(Strength(p), e.strength) >= min }

  ghost function Strong(min: real, paths: seq<Path>): seq<Path> {
    if paths == [] then []
    else Strong(min, paths[..|paths| - 1])
         + if Strength(paths[|paths| - 1]) >= min then [paths[|paths| - 1]] else []
  }

  /** Strengths as the index admits them. */
  ghost predicate UnitStrengths(adj: Adjacency) {
    forall n, e {:trigger e in At(adj, n)} :: e in At(adj, n) ==> 0.0 <= e.strength <= 1.0
  }

  lemma TimesShrinks(a: real, b: real)
    requires a >= 0.0 && 0.0 <= b <= 1.0
    ensures 0.0 <= Times(a, b) <= a
  {
    TimesIs(a, b);
  }

  /** Along the search strengths only fall. */
  lemma {:induction false} FoundWeaker(adj: Adjacency, test: Test, a: Node, p: Path, b: Node, rest: nat)
    requires UnitStrengths(adj) && Strength(p) >= 0.0
    ensures forall q :: q in Found(adj, test, a, p, b, rest) ==> Strength(q) <= Strength(p)
    decreases rest, 1, 0
  {
    if !(End(a, p) == b && p != []) && rest > 0 {
      FoundViaWeaker(adj, test, a, p, b, rest, At(adj, End(a, p)));
    }
  }

  lemma {:induction false} FoundViaWeaker(adj: Adjacency, test: Test, a: Node, p: Path, b: Node, rest: nat, edges: seq<Edge>)
    requires UnitStrengths(adj) && Strength(p) >= 0.0 && rest > 0
    requires forall e :: e in edges ==> e in At(adj, End(a, p))
    ensures forall q :: q in FoundVia(adj, test, a, p, b, rest, edges) ==> Strength(q) <= Strength(p)
    decreases rest, 0, |edges|
  {
    if edges != [] {
      var n := |edges| - 1;
      FoundViaWeaker(adj, test, a, p, b, rest, edges[..n]);
      assert edges[n] in At(adj, End(a, p));
      StrengthAppend(p, edges[n]);
      TimesShrinks(Strength(p), edges[n].strength);
      FoundWeaker(adj, test, a, p + [edges[n]], b, rest - 1);
    }
  }

  lemma {:induction false} StrongJoin(min: real, x: seq<Path>, y: seq<Path>)
    ensures Strong(min, x + y) == Strong(min, x) + Strong(min, y)
    decreases |y|
  {
    if y == [] {
      assert x + y == x;
    } else {
      var n := |y| - 1;
      assert (x + y)[..|x| + n] == x + y[..n];
      StrongJoin(min, x, y[..n]);
    }
  }

  lemma {:induction false} StrongNone(min: real, paths: seq<Path>)
    requires forall q :: q in paths ==> Strength(q) < min
    ensures Strong(min, paths) == []
    decreases |paths|
  {
    if paths != [] {
      var n := |paths| - 1;
      assert paths[n] in paths && forall q :: q in paths[..n] ==> q in paths;
      StrongNone(min, paths[..n]);
    }
  }

  lemma {:induction false} PruneIsFilter(adj: Adjacency, min: real, a: Node, p: Path, b: Node, rest: nat)
    requires UnitStrengths(adj) && Strength(p) >= 0.0 && (p == [] || Strength(p) >= min)
    ensures Found(adj, AtLeast(min), a, p, b, rest) == Strong(min, Found(adj, AtLeast(0.0), a, p, b, rest))
    decreases rest, 1, 0
  {
    if End(a, p) == b && p != [] {
      assert [p][..0] == [];
    } else if rest > 0 {
      PruneIsFilterVia(adj, min, a, p, b, rest, At(adj, End(a, p)));
    }
  }

  lemma {:induction false} PruneIsFilterVia(adj: Adjacency, min: real, a: Node, p: Path, b: Node, rest: nat, edges: seq<Edge>)
    requires UnitStrengths(adj) && Strength(p) >= 0.0 && rest > 0
    requires forall e :: e in edges ==> e in At(adj, End(a, p))
    ensures FoundVia(adj, AtLeast(min), a, p, b, rest, edges)
         == Strong(min, FoundVia(adj, AtLeast(0.0), a, p, b, rest, edges))
    decreases rest, 0, |edges|
  {
    if edges != [] {
      var n := |edges| - 1;
      PruneIsFilterVia(adj, min, a, p, b, rest, edges[..n]);
      assert edges[n] in At(adj, End(a, p));
      PruneOneEdge(adj, min, a, p, b, rest, edges[n]);
      StrongJoin(min, FoundVia(adj, AtLeast(0.0), a, p, b, rest, edges[..n]), Below(adj, AtLeast(0.0), a, p, b, rest, edges[n]));
    }
  }

  lemma {:induction false} PruneOneEdge(adj: Adjacency, min: real, a: Node, p: Path, b: Node, rest: nat, e: Edge)
    requires UnitStrengths(adj) && Strength(p) >= 0.0 && rest > 0 && e in At(adj, End(a, p))
    ensures Below(adj, AtLeast(min), a, p, b, rest, e) == Strong(min, Below(adj, AtLeast(0.0), a, p, b, rest, e))
    decreases rest, 0, 0
  {
    StrengthAppend(p, e);
    TimesShrinks(Strength(p), e.strength);
    if Takes(AtLeast(min), a, p, e) {
      PruneIsFilter(adj, min, a, p + [e], b, rest - 1);
    } else if Takes(AtLeast(0.0), a, p, e) {
      FoundWeaker(adj, AtLeast(0.0), a, p + [e], b, rest - 1);
      StrongNone(min, Found(adj, AtLeast(0.0), a, p + [e], b, rest - 1));
    }
  }
}
