/** The causal DAG index: validated insertion, path search pruned by strength, and the path cache. */
module CausalDag {
  import opened Products
  import opened CausalGraph
  import opened PathSearch

  datatype Outcome = Inserted | InvalidStrength | Cycle(detectedAt: Node)

  datatype CausalPath = CausalPath(nodes: seq<Node>, edges: seq<Edge>, totalStrength: real)

  const CACHE_DEPTH: nat := 10

  ghost function Record(a: Node, p: Path): CausalPath { CausalPath(Nodes(a, p), p, Strength(p)) }

  ghost function Recorder(a: Node): Path -> CausalPath { (p: Path) => Record(a, p) }

  ghost function Records(a: Node, paths: seq<Path>): seq<CausalPath> { Each(Recorder(a), paths) }

  /** What the search of a graph answers. */
  ghost function Search(adj: Adjacency, a: Node, b: Node, depth: nat, min: real): seq<CausalPath> {
    Records(a, Found(adj, AtLeast(min), a, [], b, depth))
  }

  function Kept(min: real, cached: seq<CausalPath>): seq<CausalPath> {
    if cached == [] then []
    else Kept(min, cached[..|cached| - 1])
         + if cached[|cached| - 1].totalStrength >= min then [cached[|cached| - 1]] else []
  }

  lemma RecordAppend(a: Node, p: Path, e: Edge, r: CausalPath)
    requires r == Record(a, p)
    ensures Record(a, p + [e]) == CausalPath(r.nodes + [e.target], p + [e], Times(r.totalStrength, e.strength))
  {
    StrengthAppend(p, e);
    assert Nodes(a, p + [e]) == Nodes(a, p) + [e.target];
  }

  lemma {:induction false} KeptRecords(min: real, a: Node, paths: seq<Path>)
    ensures Kept(min, Records(a, paths)) == Records(a, Strong(min, paths))
    decreases |paths|
  {
    if paths != [] {
      var n := |paths| - 1;
      KeptRecords(min, a, paths[..n]);
      assert paths == paths[..n] + [paths[n]];
      EachJoin(Recorder(a), paths[..n], [paths[n]]);
      EachOne(Recorder(a), paths[n]);
      var r := Records(a, paths);
      assert r[..|r| - 1] == Records(a, paths[..n]);
      EachJoin(Recorder(a), Strong(min, paths[..n]), if Strength(paths[n]) >= min then [paths[n]] else []);
    }
  }

  /** Filtering the unfiltered search is the search pruned on the way, record by record and in order. */
  lemma FilterIsPrune(adj: Adjacency, a: Node, b: Node, depth: nat, min: real)
    requires UnitStrengths(adj)
    ensures Kept(min, Search(adj, a, b, depth, 0.0)) == Search(adj, a, b, depth, min)
  {
    PruneIsFilter(adj, min, a, [], b, depth);
    KeptRecords(min, a, Found(adj, AtLeast(0.0), a, [], b, depth));
  }

  /** The record lists a path, its nodes and the product of its strengths, which is strong enough. */
  ghost predicate Tells(r: CausalPath, a: Node, min: real) {
    && |r.nodes| == |r.edges| + 1 && r.nodes[0] == a
    && (forall i {:trigger r.edges[i]} :: 0 <= i < |r.edges| ==> r.nodes[i + 1] == r.edges[i].target)
    && IsProduct(r.edges, r.totalStrength) && r.totalStrength >= min
  }

  /** The records are those of the strong enough paths of the graph, and tell them. */
  ghost predicate Answers(es: seq<Edge>, a: Node, b: Node, depth: nat, min: real, rs: seq<CausalPath>) {
    && (forall r :: r in rs ==> Tells(r, a, min) && StrongPath(es, a, r.edges, b, depth, min))
    && (forall p: Path {:trigger StrongPath(es, a, p, b, depth, min)} :: StrongPath(es, a, p, b, depth, min) ==>
          exists r :: r in rs && r.edges == p)
  }

  lemma SearchAnswers(adj: Adjacency, es: seq<Edge>, a: Node, b: Node, depth: nat, min: real)
    requires Indexes(adj, es, true) && Acyclic(es) && InUnit(es)
    ensures Answers(es, a, b, depth, min, Search(adj, a, b, depth, min))
  {
    var paths, rs := Found(adj, AtLeast(min), a, [], b, depth), Search(adj, a, b, depth, min);
    forall r | r in rs ensures Tells(r, a, min) && StrongPath(es, a, r.edges, b, depth, min) {
      var i :| 0 <= i < |rs| && rs[i] == r;
      assert EachAt(Recorder(a), paths, rs, i);
      ListedPath(adj, es, a, b, depth, min, paths[i]);
      StrengthIsProduct(paths[i]);
    }
    forall p: Path | StrongPath(es, a, p, b, depth, min) ensures exists r :: r in rs && r.edges == p {
      ListedPath(adj, es, a, b, depth, min, p);
      var i :| 0 <= i < |paths| && paths[i] == p;
      assert EachAt(Recorder(a), paths, rs, i);
      assert rs[i] in rs;
    }
  }

  lemma ListedPath(adj: Adjacency, es: seq<Edge>, a: Node, b: Node, depth: nat, min: real, p: Path)
    requires Indexes(adj, es, true) && Acyclic(es) && InUnit(es)
    ensures p in Found(adj, AtLeast(min), a, [], b, depth) <==> StrongPath(es, a, p, b, depth, min)
  {
    TraceExact(adj, es, AtLeast(min), a, b, depth, p);
    TracedIsStrong(es, a, p, b, depth, min);
  }

  // ---- The search step by step ---------------------------------------------

  ghost function Reported(adj: Adjacency, min: real, depth: nat, a: Node, p: Path, b: Node): seq<CausalPath>
    requires |p| <= depth
  {
    Records(a, Found(adj, AtLeast(min), a, p, b, depth - |p|))
  }

  /** What the search reports for the first `i` edges out of the path's end. */
  ghost function Collected(adj: Adjacency, min: real, depth: nat, a: Node, p: Path, b: Node, i: nat): seq<CausalPath>
    requires |p| < depth && i <= |At(adj, End(a, p))|
  {
    Records(a, FoundVia(adj, AtLeast(min), a, p, b, depth - |p|, At(adj, End(a, p))[..i]))
  }

  lemma CollectedStep(adj: Adjacency, min: real, depth: nat, a: Node, p: Path, b: Node, i: nat, e: Edge, results0: seq<CausalPath>)
    requires |p| < depth && i < |At(adj, End(a, p))| && e == At(adj, End(a, p))[i]
    ensures results0 + Collected(adj, min, depth, a, p, b, i + 1)
         == (results0 + Collected(adj, min, depth, a, p, b, i))
            + if Takes(AtLeast(min), a, p, e) then Reported(adj, min, depth, a, p + [e], b) else []
  {
    var edges, rest, test := At(adj, End(a, p)), depth - |p|, AtLeast(min);
    var before, last := FoundVia(adj, test, a, p, b, rest, edges[..i]), Below(adj, test, a, p, b, rest, e);
    assert FoundVia(adj, test, a, p, b, rest, edges[..i + 1]) == before + last by {
      assert edges[..i + 1][..i] == edges[..i];
    }
    EachMore(Recorder(a), results0, before, last);
  }

  lemma CollectedEnds(adj: Adjacency, min: real, depth: nat, a: Node, p: Path, b: Node, results0: seq<CausalPath>)
    requires |p| < depth
    ensures results0 + Collected(adj, min, depth, a, p, b, 0) == results0
    ensures End(a, p) != b || p == [] ==>
              Collected(adj, min, depth, a, p, b, |At(adj, End(a, p))|) == Reported(adj, min, depth, a, p, b)
  {
    var edges := At(adj, End(a, p));
    assert edges[..0] == [] && edges[..|edges|] == edges;
  }

  /** One level of the search: the path so far is pushed to, searched below and popped again. */
  method DfsPaths(adj: Adjacency, ghost a: Node, current: Node, target: Node, nodes0: seq<Node>, edges0: seq<Edge>, strength: real,
                  maxDepth: nat, depth: nat, min: real, results0: seq<CausalPath>)
    returns (results: seq<CausalPath>)
    requires depth == |edges0| <= maxDepth && current == End(a, edges0)
    requires CausalPath(nodes0, edges0, strength) == Record(a, edges0)
    ensures results == results0 + Reported(adj, min, maxDepth, a, edges0, target)
    decreases maxDepth - depth
  {
    results := results0;
    if current == target && depth > 0 {
      EachOne(Recorder(a), edges0);
      return results + [CausalPath(nodes0, edges0, strength)];
    }
    if depth >= maxDepth {
      return;
    }
    var pathNodes, pathEdges := nodes0, edges0;
    var edges := At(adj, current);
    CollectedEnds(adj, min, maxDepth, a, edges0, target, results0);
    for i := 0 to |edges|
      invariant pathNodes == nodes0 && pathEdges == edges0
      invariant results == results0 + Collected(adj, min, maxDepth, a, edges0, target, i)
    {
      var edge := edges[i];
      CollectedStep(adj, min, maxDepth, a, edges0, target, i, edge, results0);
      var newStrength := Multiply(strength, edge.strength);
      if newStrength >= min && edge.target !in pathNodes {
        RecordAppend(a, edges0, edge, CausalPath(nodes0, edges0, strength));
        pathNodes, pathEdges := pathNodes + [edge.target], pathEdges + [edge];
        results := DfsPaths(adj, a, edge.target, target, pathNodes, pathEdges, newStrength, maxDepth, depth + 1, min, results);
        pathNodes, pathEdges := pathNodes[..|pathNodes| - 1], pathEdges[..|pathEdges| - 1];
      }
    }
  }

  // ---- The index -----------------------------------------------------------

  ghost predicate InUnit(es: seq<Edge>) { forall e :: e in es ==> 0.0 <= e.strength <= 1.0 }

  lemma UnitIndex(adj: Adjacency, es: seq<Edge>)
    requires Indexes(adj, es, true) && InUnit(es)
    ensures UnitStrengths(adj)
  {
    forall n, e | e in At(adj, n) ensures 0.0 <= e.strength <= 1.0 {
      AtMember(adj, es, n, true, e);
    }
  }

  type Cache = map<(Node, Node), seq<CausalPath>>

  class CausalDagIndex {
    var adjacency: Adjacency
    var reverse: Adjacency
    var closureCache: Cache
    ghost var inserted: seq<Edge>

    ghost predicate Valid()
      reads this
    {
      && Indexes(adjacency, inserted, true) && Indexes(reverse, inserted, false)
      && Acyclic(inserted) && InUnit(inserted)
    }

    /** The cached answer for a pair is that of the graph as it is now. */
    ghost predicate Current(a: Node, b: Node)
      reads this
    {
      (a, b) in closureCache && closureCache[(a, b)] == Search(adjacency, a, b, CACHE_DEPTH, 0.0)
    }

    constructor ()
      ensures Valid() && inserted == [] && closureCache == map[]
    {
      adjacency, reverse, closureCache, inserted := map[], map[], map[], [];
    }

    method InsertEdge(edge: Edge) returns (r: Outcome)
      requires Valid()
      modifies this
      ensures Valid() && closureCache == old(closureCache)
      ensures r == if !(0.0 <= edge.strength <= 1.0) then InvalidStrength
                   else if Acyclic(old(inserted) + [edge]) then Inserted else Cycle(edge.target)
      ensures inserted == if r.Inserted? then old(inserted) + [edge] else old(inserted)
      ensures !r.Inserted? ==> adjacency == old(adjacency) && reverse == old(reverse)
    {
      if !(0.0 <= edge.strength <= 1.0) {
        return InvalidStrength;
      }
      var closes := CanReach(adjacency, inserted, edge.target, edge.source);
      ClosesCycle(inserted, edge);
      if closes {
        return Cycle(edge.target);
      }
      PushIndexes(adjacency, inserted, true, edge);
      PushIndexes(reverse, inserted, false, edge);
      adjacency := Pushed(adjacency, edge.source, edge);
      reverse := Pushed(reverse, edge.target, edge);
      inserted := inserted + [edge];
      return Inserted;
    }

    /** Cache the answer for one pair; nothing else changes. */
    method MaterializeClosure(from: Node, to: Node)
      requires Valid()
      modifies `closureCache
      ensures Valid() && Current(from, to)
      ensures closureCache == old(closureCache)[(from, to) := closureCache[(from, to)]]
    {
      var results := DfsPaths(adjacency, from, from, to, [from], [], 1.0, CACHE_DEPTH, 0, 0.0, []);
      closureCache := closureCache[(from, to) := results];
    }

    /**
     * The answer for a pair. An uncached pair is searched within `maxDepth`; a cached one is answered
     * from its entry, whatever depth is asked for: as the search within ten edges would when the
     * entry is current.
     */
    method Paths(from: Node, to: Node, maxDepth: nat, min: real) returns (r: seq<CausalPath>)
      requires Valid()
      ensures (from, to) !in closureCache ==> r == Search(adjacency, from, to, maxDepth, min)
      ensures (from, to) in closureCache ==> r == Kept(min, closureCache[(from, to)])
      ensures Current(from, to) ==> r == Search(adjacency, from, to, CACHE_DEPTH, min)
      ensures (from, to) !in closureCache ==> Answers(inserted, from, to, maxDepth, min, r)
      ensures Current(from, to) ==> Answers(inserted, from, to, CACHE_DEPTH, min, r)
    {
      SearchAnswers(adjacency, inserted, from, to, CACHE_DEPTH, min);
      SearchAnswers(adjacency, inserted, from, to, maxDepth, min);
      if (from, to) in closureCache {
        r := FilterCached(closureCache[(from, to)], min);
        if Current(from, to) {
          UnitIndex(adjacency, inserted);
          FilterIsPrune(adjacency, from, to, CACHE_DEPTH, min);
        }
      } else {
        r := DfsPaths(adjacency, from, from, to, [from], [], 1.0, maxDepth, 0, min, []);
      }
    }
  }

  method FilterCached(cached: seq<CausalPath>, min: real) returns (r: seq<CausalPath>)
    ensures r == Kept(min, cached)
  {
    r := [];
    for i := 0 to |cached|
      invariant r == Kept(min, cached[..i])
    {
      assert cached[..i + 1][..i] == cached[..i];
      if cached[i].totalStrength >= min {
        r := r + [cached[i]];
      }
    }
    assert cached[..|cached|] == cached;
  }

  // ---- Where the cache misleads --------------------------------------------

  ghost predicate SamePaths(x: seq<Path>, y: seq<Path>) { forall p: Path :: p in x <==> p in y }

  /** Answers within two depths agree exactly when no path of the deeper one is longer than the other allows. */
  lemma DepthsAgreeExact(adj: Adjacency, es: seq<Edge>, a: Node, b: Node, shallow: nat, deep: nat, min: real)
    requires Indexes(adj, es, true) && shallow <= deep
    ensures SamePaths(Found(adj, AtLeast(min), a, [], b, shallow), Found(adj, AtLeast(min), a, [], b, deep))
       <==> forall p: Path :: p in Found(adj, AtLeast(min), a, [], b, deep) ==> |p| <= shallow
  {
    forall p: Path
      ensures p in Found(adj, AtLeast(min), a, [], b, shallow)
         <==> p in Found(adj, AtLeast(min), a, [], b, deep) && |p| <= shallow
    {
      TraceExact(adj, es, AtLeast(min), a, b, shallow, p);
      TraceExact(adj, es, AtLeast(min), a, b, deep, p);
    }
  }

  /** An insertion leaves a cached answer right exactly when no path of the new answer uses the new edge. */
  lemma StaleExact(adj: Adjacency, adj': Adjacency, es: seq<Edge>, e: Edge, a: Node, b: Node)
    requires Indexes(adj, es, true) && Indexes(adj', es + [e], true) && e !in es
    ensures SamePaths(Found(adj, AtLeast(0.0), a, [], b, CACHE_DEPTH), Found(adj', AtLeast(0.0), a, [], b, CACHE_DEPTH))
       <==> forall p: Path :: p in Found(adj', AtLeast(0.0), a, [], b, CACHE_DEPTH) ==> e !in p
  {
    forall p: Path
      ensures p in Found(adj, AtLeast(0.0), a, [], b, CACHE_DEPTH)
         <==> p in Found(adj', AtLeast(0.0), a, [], b, CACHE_DEPTH) && e !in p
    {
      TraceExact(adj, es, AtLeast(0.0), a, b, CACHE_DEPTH, p);
      TraceExact(adj', es + [e], AtLeast(0.0), a, b, CACHE_DEPTH, p);
      assert IsPath(es, a, p, b) <==> IsPath(es + [e], a, p, b) && e !in p by {
        OldPath(es, e, a, p, b);
      }
    }
  }

  lemma OldPath(es: seq<Edge>, e: Edge, a: Node, p: Path, b: Node)
    requires e !in es
    ensures IsPath(es, a, p, b) <==> IsPath(es + [e], a, p, b) && e !in p
  {
  }

  // ---- The same, told from the graph ---------------------------------------

  /** A path of one to `depth` edges whose strengths multiply to at least `min`. */
  ghost predicate StrongPath(es: seq<Edge>, a: Node, p: Path, b: Node, depth: nat, min: real) {
    1 <= |p| <= depth && IsPath(es, a, p, b) && Strength(p) >= min
  }

  lemma {:induction false} StrengthFalls(es: seq<Edge>, p: Path, n: nat)
    requires InUnit(es) && n <= |p| && forall e :: e in p ==> e in es
    ensures 0.0 <= Strength(p) <= Strength(p[..n])
    decreases |p|
  {
    if n == |p| {
      assert p[..n] == p;
    }
    if p != [] {
      var m := |p| - 1;
      assert p[m] in p && forall e :: e in p[..m] ==> e in p;
      StrengthFalls(es, p[..m], if n <= m then n else m);
      TimesShrinks(Strength(p[..m]), p[m].strength);
      assert n <= m ==> p[..m][..n] == p[..n];
    }
  }

  lemma AllowedAt(p: Path, min: real, i: nat)
    requires i < |p|
    ensures Allowed(AtLeast(min), p, i) <==> Strength(p[..i + 1]) >= min
  {
    StrengthAppend(p[..i], p[i]);
    assert p[..i] + [p[i]] == p[..i + 1];
  }

  /** No edge of a path is pruned when the path as a whole is strong enough. */
  lemma AllowedIsStrong(es: seq<Edge>, p: Path, min: real)
    requires InUnit(es) && p != [] && forall e :: e in p ==> e in es
    ensures AllAllowed(AtLeast(min), p) <==> Strength(p) >= min
  {
    AllowedAt(p, min, |p| - 1);
    assert p[..|p| - 1 + 1] == p;
    if Strength(p) >= min {
      forall i | 0 <= i < |p| ensures Allowed(AtLeast(min), p, i) {
        AllowedAt(p, min, i);
        StrengthFalls(es, p, i + 1);
      }
    }
  }

  /** In an index the search lists the paths strong enough as a whole. */
  lemma TracedIsStrong(es: seq<Edge>, a: Node, p: Path, b: Node, depth: nat, min: real)
    requires Acyclic(es) && InUnit(es)
    ensures IsTraced(es, AtLeast(min), a, p, b, depth) <==> StrongPath(es, a, p, b, depth, min)
  {
    if 1 <= |p| <= depth && IsPath(es, a, p, b) {
      AcyclicPathsSimple(es, a, p, b);
      assert forall e :: e in p ==> e in es;
      AllowedIsStrong(es, p, min);
    }
  }

  /**
   * Answers within two depths agree exactly when the graph has no path that is strong enough and
   * longer than the one depth but not than the other.
   */
  lemma DepthsAgree(adj: Adjacency, es: seq<Edge>, a: Node, b: Node, shallow: nat, deep: nat, min: real)
    requires Indexes(adj, es, true) && Acyclic(es) && InUnit(es) && shallow <= deep
    ensures SamePaths(Found(adj, AtLeast(min), a, [], b, shallow), Found(adj, AtLeast(min), a, [], b, deep))
       <==> forall p: Path :: StrongPath(es, a, p, b, deep, min) ==> |p| <= shallow
  {
    DepthsAgreeExact(adj, es, a, b, shallow, deep, min);
    forall p: Path ensures p in Found(adj, AtLeast(min), a, [], b, deep) <==> StrongPath(es, a, p, b, deep, min) {
      ListedPath(adj, es, a, b, deep, min, p);
    }
  }

  /** Paths up to and from an edge that it joins to one short enough to be cached. */
  ghost predicate Bridges(es: seq<Edge>, e: Edge, a: Node, p: Path, q: Path, b: Node) {
    IsPath(es, a, p, e.source) && IsPath(es, e.target, q, b) && |p| + 1 + |q| <= CACHE_DEPTH
  }

  lemma BridgeTraced(es: seq<Edge>, e: Edge, a: Node, p: Path, q: Path, b: Node)
    requires Acyclic(es + [e]) && InUnit(es + [e]) && Bridges(es, e, a, p, q, b)
    ensures IsTraced(es + [e], AtLeast(0.0), a, p + [e] + q, b, CACHE_DEPTH)
  {
    var all := es + [e];
    assert IsPath(all, a, p, e.source) && IsPath(all, e.source, [e], e.target) && IsPath(all, e.target, q, b);
    PathsJoin(all, a, p, e.source, [e], e.target);
    PathsJoin(all, a, p + [e], e.target, q, b);
    StrengthFalls(all, p + [e] + q, 0);
    TracedIsStrong(all, a, p + [e] + q, b, CACHE_DEPTH, 0.0);
  }

  /** A path is cut at any of its edges into two. */
  lemma CutAround(es: seq<Edge>, a: Node, r: Path, b: Node, i: nat)
    requires IsPath(es, a, r, b) && i < |r|
    ensures IsPath(es, a, r[..i], r[i].source) && IsPath(es, r[i].target, r[i + 1..], b)
  {
    var p, q := r[..i], r[i + 1..];
    assert forall k {:trigger p[k]} :: 0 <= k < |p| ==> p[k] == r[k];
    assert forall k {:trigger q[k]} :: 0 <= k < |q| ==> q[k] == r[i + 1 + k];
  }

  /** A simple path uses an edge once. */
  lemma UsedOnce(es: seq<Edge>, a: Node, r: Path, b: Node, i: nat)
    requires IsPath(es, a, r, b) && Simple(a, r) && i < |r|
    ensures r[i] !in r[..i] && r[i] !in r[i + 1..]
  {
    forall j | 0 <= j < |r| && j != i ensures r[j] != r[i] {
      assert if i < j then Apart(a, r, i, j) else Apart(a, r, j, i);
    }
  }

  lemma UsedBridges(es: seq<Edge>, e: Edge, a: Node, r: Path, b: Node, i: nat)
    requires e !in es && i < |r| && r[i] == e
    requires IsPath(es + [e], a, r, b) && Simple(a, r) && |r| <= CACHE_DEPTH
    ensures Bridges(es, e, a, r[..i], r[i + 1..], b)
  {
    CutAround(es + [e], a, r, b, i);
    UsedOnce(es + [e], a, r, b, i);
    OldPath(es, e, a, r[..i], e.source);
    OldPath(es, e, e.target, r[i + 1..], b);
  }

  /**
   * An insertion makes a cached answer stale exactly when the graph before it had a path to the new
   * edge and a path from it that together with it are short enough to be cached.
   */
  lemma Stale(adj: Adjacency, adj': Adjacency, es: seq<Edge>, e: Edge, a: Node, b: Node)
    requires Indexes(adj, es, true) && Indexes(adj', es + [e], true) && e !in es
    requires Acyclic(es + [e]) && InUnit(es + [e])
    ensures SamePaths(Found(adj, AtLeast(0.0), a, [], b, CACHE_DEPTH), Found(adj', AtLeast(0.0), a, [], b, CACHE_DEPTH))
       <==> !exists p: Path, q: Path :: Bridges(es, e, a, p, q, b)
  {
    StaleExact(adj, adj', es, e, a, b);
    var found := Found(adj', AtLeast(0.0), a, [], b, CACHE_DEPTH);
    if p: Path :| p in found && e in p {
      FoundBridges(adj', es, e, a, p, b);
    }
    if p: Path, q: Path :| Bridges(es, e, a, p, q, b) {
      BridgeFound(adj', es, e, a, p, q, b);
    }
  }

  lemma FoundBridges(adj': Adjacency, es: seq<Edge>, e: Edge, a: Node, r: Path, b: Node)
    requires Indexes(adj', es + [e], true) && e !in es && e in r
    requires r in Found(adj', AtLeast(0.0), a, [], b, CACHE_DEPTH)
    ensures exists p: Path, q: Path :: Bridges(es, e, a, p, q, b)
  {
    TraceExact(adj', es + [e], AtLeast(0.0), a, b, CACHE_DEPTH, r);
    var i :| 0 <= i < |r| && r[i] == e;
    UsedBridges(es, e, a, r, b, i);
  }

  lemma BridgeFound(adj': Adjacency, es: seq<Edge>, e: Edge, a: Node, p: Path, q: Path, b: Node)
    requires Indexes(adj', es + [e], true) && Acyclic(es + [e]) && InUnit(es + [e]) && Bridges(es, e, a, p, q, b)
    ensures p + [e] + q in Found(adj', AtLeast(0.0), a, [], b, CACHE_DEPTH) && e in p + [e] + q
  {
    BridgeTraced(es, e, a, p, q, b);
    TraceExact(adj', es + [e], AtLeast(0.0), a, b, CACHE_DEPTH, p + [e] + q);
  }
}
