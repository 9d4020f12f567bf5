/** The causal engine: cycle-safe insertion, path tracing and strongest-path queries. */
module CausalEngines {
  import opened Products
  import opened CausalGraph
  import opened PathSearch
  import opened StrongestPaths

  datatype Outcome = Inserted | Cycle(from: Node, to: Node)

  datatype TraceOptions = TraceOptions(maxDepth: nat, minStrength: real, minStability: Option<real>)

  datatype CausalPath = CausalPath(nodes: seq<Node>, edges: seq<Edge>, totalStrength: real, minStability: real)

  function Score(e: Edge): real { if e.stability.Some? then e.stability.value else 1.0 }

  function Min(a: real, b: real): real { if a <= b then a else b }

  /** Least stability score along a path; 1 when no edge carries one. */
  function Stability(p: Path): real {
    if p == [] then 1.0 else Min(Stability(p[..|p| - 1]), Score(p[|p| - 1]))
  }

  predicate EdgePasses(opts: TraceOptions, e: Edge) {
    e.strength >= opts.minStrength && (opts.minStability.Some? ==> Score(e) >= opts.minStability.value)
  }

  /** The trace filters look at each edge alone. */
  ghost function Filters(opts: TraceOptions): Test { (p: Path, e: Edge) => EdgePasses(opts, e) }

  ghost function Record(a: Node, p: Path): CausalPath { CausalPath(Nodes(a, p), p, Strength(p), Stability(p)) }

  ghost function Recorder(a: Node): Path -> CausalPath { (p: Path) => Record(a, p) }

  ghost function Records(a: Node, paths: seq<Path>): seq<CausalPath> { Each(Recorder(a), paths) }

  lemma RecordAppend(a: Node, p: Path, e: Edge, r: CausalPath)
    requires r == Record(a, p)
    ensures Record(a, p + [e])
         == CausalPath(r.nodes + [e.target], p + [e], Times(r.totalStrength, e.strength), Min(r.minStability, Score(e)))
  {
    assert (p + [e])[..|p|] == p;
    StrengthAppend(p, e);
    assert Nodes(a, p + [e]) == Nodes(a, p) + [e.target];
  }

  /** What the search reports for the first `i` edges out of the path's end. */
  ghost function Collected(adj: Adjacency, opts: TraceOptions, a: Node, p: Path, b: Node, i: nat): seq<CausalPath>
    requires |p| < opts.maxDepth && i <= |At(adj, End(a, p))|
  {
    Records(a, FoundVia(adj, Filters(opts), a, p, b, opts.maxDepth - |p|, At(adj, End(a, p))[..i]))
  }

  ghost function Reported(adj: Adjacency, opts: TraceOptions, a: Node, p: Path, b: Node): seq<CausalPath>
    requires |p| <= opts.maxDepth
  {
    Records(a, Found(adj, Filters(opts), a, p, b, opts.maxDepth - |p|))
  }

  lemma CollectedStep(adj: Adjacency, opts: TraceOptions, a: Node, p: Path, b: Node, i: nat, e: Edge, results0: seq<CausalPath>)
    requires |p| < opts.maxDepth && i < |At(adj, End(a, p))| && e == At(adj, End(a, p))[i]
    ensures results0 + Collected(adj, opts, a, p, b, i + 1)
         == (results0 + Collected(adj, opts, a, p, b, i))
            + if Takes(Filters(opts), a, p, e) then Reported(adj, opts, a, p + [e], b) else []
  {
    var edges, rest, test := At(adj, End(a, p)), opts.maxDepth - |p|, Filters(opts);
    var before, last := FoundVia(adj, test, a, p, b, rest, edges[..i]), Below(adj, test, a, p, b, rest, e);
    assert FoundVia(adj, test, a, p, b, rest, edges[..i + 1]) == before + last by {
      assert edges[..i + 1][..i] == edges[..i];
    }
    EachMore(Recorder(a), results0, before, last);
  }

  lemma CollectedEnds(adj: Adjacency, opts: TraceOptions, a: Node, p: Path, b: Node, results0: seq<CausalPath>)
    requires |p| < opts.maxDepth
    ensures results0 + Collected(adj, opts, a, p, b, 0) == results0
    ensures End(a, p) != b || p == [] ==>
              Collected(adj, opts, a, p, b, |At(adj, End(a, p))|) == Reported(adj, opts, a, p, b)
  {
    var edges := At(adj, End(a, p));
    assert edges[..0] == [] && edges[..|edges|] == edges;
  }

  /** The edge is strong enough and, when stability is asked for, stable enough; no score counts as 1. */
  ghost predicate MeetsFilters(opts: TraceOptions, e: Edge) {
    && e.strength >= opts.minStrength
    && (opts.minStability.Some? && e.stability.Some? ==> e.stability.value >= opts.minStability.value)
    && (opts.minStability.Some? && e.stability.None? ==> 1.0 >= opts.minStability.value)
  }

  /** A path of one to `maxDepth` edges whose edges all pass the filters. */
  ghost predicate PassingPath(es: seq<Edge>, opts: TraceOptions, a: Node, p: Path, b: Node) {
    1 <= |p| <= opts.maxDepth && IsPath(es, a, p, b) && forall e :: e in p ==> MeetsFilters(opts, e)
  }

  ghost predicate ListsPassing(es: seq<Edge>, opts: TraceOptions, a: Node, b: Node, paths: seq<Path>) {
    && (forall p: Path {:trigger PassingPath(es, opts, a, p, b)} :: p in paths <==> PassingPath(es, opts, a, p, b))
    && (Distinct(es) ==> Distinct(paths))
  }

  // ---- What a record says ----------------------------------------------------

  /** No edge of the path is less stable than `x`, and if `x` is not 1 some edge is exactly that stable. */
  ghost predicate LeastStability(p: Path, x: real) {
    && x <= 1.0
    && (forall e :: e in p && e.stability.Some? ==> x <= e.stability.value)
    && (x == 1.0 || exists e :: e in p && e.stability == Some(x))
  }

  /** The record lists the path and its nodes, with its strength product and its least stability. */
  ghost predicate Tells(r: CausalPath, a: Node) {
    && |r.nodes| == |r.edges| + 1 && r.nodes[0] == a
    && (forall i {:trigger r.edges[i]} :: 0 <= i < |r.edges| ==> r.nodes[i + 1] == r.edges[i].target)
    && IsProduct(r.edges, r.totalStrength)
    && LeastStability(r.edges, r.minStability)
  }

  lemma {:induction false} StabilityIsLeast(p: Path)
    ensures LeastStability(p, Stability(p))
    decreases |p|
  {
    if p != [] {
      var n := |p| - 1;
      StabilityIsLeast(p[..n]);
      assert p == p[..n] + [p[n]];
      var before := Stability(p[..n]);
      if Stability(p) == before && before != 1.0 {
        var e :| e in p[..n] && e.stability == Some(before);
        assert e in p;
      } else if Stability(p) != 1.0 {
        assert p[n] in p && p[n].stability == Some(Stability(p));
      }
    }
  }

  lemma {:induction false} RecordsTell(a: Node, paths: seq<Path>)
    ensures forall r :: r in Records(a, paths) ==> Tells(r, a)
  {
    var rs := Records(a, paths);
    forall r | r in rs ensures Tells(r, a) {
      var i :| 0 <= i < |rs| && rs[i] == r;
      assert EachAt(Recorder(a), paths, rs, i);
      StabilityIsLeast(paths[i]);
      StrengthIsProduct(paths[i]);
    }
  }

  class CausalEngine {
    var adjacency: Adjacency
    var reverse: Adjacency
    ghost var inserted: seq<Edge>

    /** Both maps index the edges inserted so far, and these form no cycle. */
    ghost predicate Valid()
      reads this
    {
      Indexes(adjacency, inserted, true) && Indexes(reverse, inserted, false) && Acyclic(inserted)
    }

    constructor ()
      ensures Valid() && inserted == []
    {
      adjacency, reverse, inserted := map[], map[], [];
    }

    /** An edge is refused exactly when it would close a cycle. */
    method InsertEdge(edge: Edge) returns (r: Outcome)
      requires Valid()
      modifies this
      ensures Valid()
      ensures r == if Acyclic(old(inserted) + [edge]) then Inserted else Cycle(edge.source, edge.target)
      ensures inserted == if r.Inserted? then old(inserted) + [edge] else old(inserted)
      ensures r.Cycle? ==> adjacency == old(adjacency) && reverse == old(reverse)
    {
      var closes := CanReach(adjacency, inserted, edge.target, edge.source);
      ClosesCycle(inserted, edge);
      if closes {
        return Cycle(edge.source, edge.target);
      }
      PushIndexes(adjacency, inserted, true, edge);
      PushIndexes(reverse, inserted, false, edge);
      adjacency := Pushed(adjacency, edge.source, edge);
      reverse := Pushed(reverse, edge.target, edge);
      inserted := inserted + [edge];
      return Inserted;
    }

    /** One level of the search: the path so far is pushed to, searched below and popped again. */
    method DfsTrace(ghost a: Node, current: Node, target: Node, opts: TraceOptions, depth: nat,
                    pathStrength: real, pathMinStability: real, nodes0: seq<Node>, edges0: seq<Edge>, results0: seq<CausalPath>)
      returns (results: seq<CausalPath>)
      requires depth == |edges0| <= opts.maxDepth && current == End(a, edges0)
      requires CausalPath(nodes0, edges0, pathStrength, pathMinStability) == Record(a, edges0)
      ensures results == results0 + Reported(adjacency, opts, a, edges0, target)
      decreases opts.maxDepth - depth
    {
      results := results0;
      if current == target && depth > 0 {
        EachOne(Recorder(a), edges0);
        return results + [CausalPath(nodes0, edges0, pathStrength, pathMinStability)];
      }
      if depth >= opts.maxDepth {
        return;
      }
      var pathNodes, pathEdges := nodes0, edges0;
      var edges := At(adjacency, current);
      CollectedEnds(adjacency, opts, a, edges0, target, results0);
      for i := 0 to |edges|
        invariant pathNodes == nodes0 && pathEdges == edges0
        invariant results == results0 + Collected(adjacency, opts, a, edges0, target, i)
      {
        var edge := edges[i];
        CollectedStep(adjacency, opts, a, edges0, target, i, edge, results0);
        if !EdgePasses(opts, edge) || edge.target in pathNodes {
          continue;
        }
        RecordAppend(a, edges0, edge, CausalPath(nodes0, edges0, pathStrength, pathMinStability));
        var newStrength := Multiply(pathStrength, edge.strength);
        pathNodes, pathEdges := pathNodes + [edge.target], pathEdges + [edge];
        results := DfsTrace(a, edge.target, target, opts, depth + 1, newStrength,
                            Min(pathMinStability, Score(edge)), pathNodes, pathEdges, results);
        pathNodes, pathEdges := pathNodes[..|pathNodes| - 1], pathEdges[..|pathEdges| - 1];
      }
    }

    /**
     * All paths of one to `maxDepth` edges whose edges pass the filters, each with its nodes, its
     * strength product and its least stability.
     */
    method Trace(from: Node, to: Node, opts: TraceOptions) returns (results: seq<CausalPath>)
      requires Valid()
      ensures var paths := Found(adjacency, Filters(opts), from, [], to, opts.maxDepth);
              results == Records(from, paths) && ListsPassing(inserted, opts, from, to, paths)
      ensures forall r :: r in results ==> Tells(r, from)
    {
      results := DfsTrace(from, from, to, opts, 0, 1.0, 1.0, [from], [], []);
      TraceLists(adjacency, inserted, opts, from, to);
      RecordsTell(from, Found(adjacency, Filters(opts), from, [], to, opts.maxDepth));
    }

    /** Every node within `maxDepth` edges, with the greatest strength product of the paths to it. */
    method EffectsOf(event: Node, maxDepth: nat) returns (best: map<Node, real>)
      requires Valid()
      ensures NonNegative(inserted) ==> Strongest(inserted, true, event, maxDepth, best)
    {
      best := BfsReachable(event, maxDepth, adjacency, inserted, true);
    }

    method CausesOf(event: Node, maxDepth: nat) returns (best: map<Node, real>)
      requires Valid()
      ensures NonNegative(inserted) ==> Strongest(inserted, false, event, maxDepth, best)
    {
      best := BfsReachable(event, maxDepth, reverse, inserted, false);
    }
  }

  lemma {:induction false} KeyedDistinct(es: seq<Edge>, n: Node, forward: bool)
    requires Distinct(es)
    ensures Distinct(Keyed(es, n, forward))
  {
    if es != [] {
      var m := |es| - 1;
      KeyedDistinct(es[..m], n, forward);
      KeyedMember(es[..m], n, forward, es[m]);
    }
  }

  lemma TraceLists(adj: Adjacency, es: seq<Edge>, opts: TraceOptions, a: Node, b: Node)
    requires Indexes(adj, es, true) && Acyclic(es)
    ensures ListsPassing(es, opts, a, b, Found(adj, Filters(opts), a, [], b, opts.maxDepth))
  {
    var test := Filters(opts);
    forall p: Path
      ensures p in Found(adj, test, a, [], b, opts.maxDepth) <==> PassingPath(es, opts, a, p, b)
    {
      TraceExact(adj, es, test, a, b, opts.maxDepth, p);
      if IsPath(es, a, p, b) {
        AcyclicPathsSimple(es, a, p, b);
      }
      FiltersAll(opts, p);
    }
    if Distinct(es) {
      forall n ensures Distinct(At(adj, n)) {
        assert At(adj, n) == Keyed(es, n, true);
        KeyedDistinct(es, n, true);
      }
      FoundOnce(adj, test, a, [], b, opts.maxDepth);
    }
  }

  lemma FiltersAll(opts: TraceOptions, p: Path)
    ensures AllAllowed(Filters(opts), p) <==> forall e :: e in p ==> MeetsFilters(opts, e)
  {
    assert forall e :: EdgePasses(opts, e) <==> MeetsFilters(opts, e);
    if AllAllowed(Filters(opts), p) {
      forall e | e in p ensures MeetsFilters(opts, e) {
        var i :| 0 <= i < |p| && p[i] == e;
        assert Allowed(Filters(opts), p, i);
      }
    }
  }
}
