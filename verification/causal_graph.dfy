/**
 * Directed causal edges, the paths they form, and the reachability search that decides whether an
 * edge would close a cycle.
 */
module CausalGraph {
  import opened Products

  type Node = nat

  datatype Option<+T> = None | Some(value: T)

  datatype Edge = Edge(source: Node, target: Node, strength: real, stability: Option<real>)

  type Path = seq<Edge>

  /** Edges listed under one of their ends. */
  type Adjacency = map<Node, seq<Edge>>

  function At(adj: Adjacency, n: Node): seq<Edge> { if n in adj then adj[n] else [] }

  function Pushed(adj: Adjacency, n: Node, e: Edge): Adjacency { adj[n := At(adj, n) + [e]] }

  // ---- Paths ---------------------------------------------------------------

  /** The node a path from `a` has reached after `i` edges. */
  function Stop(a: Node, p: Path, i: nat): Node
    requires i <= |p|
  {
    if i == 0 then a else p[i - 1].target
  }

  function End(a: Node, p: Path): Node { Stop(a, p, |p|) }

  /** Edges of `es` joined head to tail, from `a` to `b`. */
  ghost predicate IsPath(es: seq<Edge>, a: Node, p: Path, b: Node) {
    && (forall i {:trigger p[i]} :: 0 <= i < |p| ==> p[i] in es && p[i].source == Stop(a, p, i))
    && b == Stop(a, p, |p|)
  }

  ghost predicate Reaches(es: seq<Edge>, a: Node, b: Node) {
    exists p: Path :: IsPath(es, a, p, b)
  }

  /** No path but the empty one returns to its start. */
  ghost predicate Acyclic(es: seq<Edge>) {
    forall a: Node, p: Path :: IsPath(es, a, p, a) ==> p == []
  }

  lemma PathsJoin(es: seq<Edge>, a: Node, p: Path, b: Node, q: Path, c: Node)
    requires IsPath(es, a, p, b) && IsPath(es, b, q, c)
    ensures IsPath(es, a, p + q, c)
  {
  }

  /** The part of a path before its first use of an edge outside `es`. */
  lemma {:induction false} CutBefore(es: seq<Edge>, e: Edge, a: Node, p: Path, b: Node) returns (q: Path)
    requires IsPath(es + [e], a, p, b)
    ensures IsPath(es, a, q, e.source) || (q == p && IsPath(es, a, p, b))
    decreases |p|
  {
    if p == [] {
      q := p;
    } else {
      var n := |p| - 1;
      q := CutBefore(es, e, a, p[..n], End(a, p[..n]));
      if q == p[..n] && IsPath(es, a, q, End(a, q)) && p[n] in es {
        q := p;
      }
    }
  }

  /** The part of a path after its last use of an edge outside `es`. */
  lemma {:induction false} CutAfter(es: seq<Edge>, e: Edge, a: Node, p: Path, b: Node) returns (q: Path)
    requires IsPath(es + [e], a, p, b)
    ensures IsPath(es, e.target, q, b) || (q == p && IsPath(es, a, p, b))
    decreases |p|
  {
    if p == [] {
      q := p;
    } else {
      var rest := p[1..];
      q := CutAfter(es, e, p[0].target, rest, b);
      if q == rest && IsPath(es, p[0].target, rest, b) && p[0] in es {
        q := p;
      }
    }
  }

  /** Adding an edge keeps the graph acyclic exactly when its target does not already reach its source. */
  lemma ClosesCycle(es: seq<Edge>, e: Edge)
    requires Acyclic(es)
    ensures Acyclic(es + [e]) <==> !Reaches(es, e.target, e.source)
  {
    if Reaches(es, e.target, e.source) {
      var p: Path :| IsPath(es, e.target, p, e.source);
      assert IsPath(es + [e], e.source, [e] + p, e.source);
    } else {
      forall a: Node, p: Path | IsPath(es + [e], a, p, a) ensures p == [] {
        var q := CutBefore(es, e, a, p, a);
        var r := CutAfter(es, e, a, p, a);
        if !IsPath(es, a, p, a) {
          PathsJoin(es, e.target, r, a, q, e.source);
        }
      }
    }
  }

  // ---- Indexes -------------------------------------------------------------

  function Near(e: Edge, forward: bool): Node { if forward then e.source else e.target }

  function Far(e: Edge, forward: bool): Node { if forward then e.target else e.source }

  /** The edges with the given near end, in the order of their insertion. */
  function Keyed(es: seq<Edge>, n: Node, forward: bool): seq<Edge> {
    if es == [] then []
    else Keyed(es[..|es| - 1], n, forward) + if Near(es[|es| - 1], forward) == n then [es[|es| - 1]] else []
  }

  ghost predicate Indexes(adj: Adjacency, es: seq<Edge>, forward: bool) {
    forall n {:trigger At(adj, n)} :: At(adj, n) == Keyed(es, n, forward)
  }

  lemma PushIndexes(adj: Adjacency, es: seq<Edge>, forward: bool, e: Edge)
    requires Indexes(adj, es, forward)
    ensures Indexes(Pushed(adj, Near(e, forward), e), es + [e], forward)
  {
    forall n ensures At(Pushed(adj, Near(e, forward), e), n) == Keyed(es + [e], n, forward) {
      assert (es + [e])[..|es|] == es;
      assert At(adj, n) == Keyed(es, n, forward);
    }
  }

  lemma {:induction false} KeyedCount(es: seq<Edge>, n: Node, forward: bool, e: Edge)
    ensures multiset(Keyed(es, n, forward))[e] == if Near(e, forward) == n then multiset(es)[e] else 0
  {
    if es != [] {
      KeyedCount(es[..|es| - 1], n, forward, e);
      assert es == es[..|es| - 1] + [es[|es| - 1]];
    }
  }

  lemma KeyedMember(es: seq<Edge>, n: Node, forward: bool, e: Edge)
    ensures e in Keyed(es, n, forward) <==> e in es && Near(e, forward) == n
  {
    KeyedCount(es, n, forward, e);
    assert e in Keyed(es, n, forward) <==> e in multiset(Keyed(es, n, forward));
    assert e in es <==> e in multiset(es);
  }

  lemma AtMember(adj: Adjacency, es: seq<Edge>, n: Node, forward: bool, e: Edge)
    requires Indexes(adj, es, forward)
    ensures e in At(adj, n) <==> e in es && Near(e, forward) == n
  {
    assert At(adj, n) == Keyed(es, n, forward);
    KeyedMember(es, n, forward, e);
  }

  /** Two indexes of the same edges hold each edge equally often: one is the transpose of the other. */
  lemma IndexesTransposed(adjacency: Adjacency, reverse: Adjacency, es: seq<Edge>, e: Edge, n: Node)
    requires Indexes(adjacency, es, true) && Indexes(reverse, es, false)
    ensures multiset(At(adjacency, e.source))[e] == multiset(At(reverse, e.target))[e]
    ensures n != e.source ==> e !in At(adjacency, n)
    ensures n != e.target ==> e !in At(reverse, n)
  {
    assert At(adjacency, e.source) == Keyed(es, e.source, true);
    assert At(reverse, e.target) == Keyed(es, e.target, false);
    KeyedCount(es, e.source, true, e);
    KeyedCount(es, e.target, false, e);
    assert At(adjacency, n) == Keyed(es, n, true) && At(reverse, n) == Keyed(es, n, false);
    KeyedMember(es, n, true, e);
    KeyedMember(es, n, false, e);
  }

  // ---- Reachability --------------------------------------------------------

  /** The edges of every node added since `visited` lead to nodes seen. */
  ghost predicate Explored(es: seq<Edge>, visited: set<Node>, seen: set<Node>) {
    forall e {:trigger e in es} :: e in es && e.source in seen && e.source !in visited ==> e.target in seen
  }

  lemma ExploredJoin(es: seq<Edge>, visited: set<Node>, before: set<Node>, seen: set<Node>)
    requires Explored(es, visited, before) && Explored(es, before, seen) && before <= seen
    ensures Explored(es, visited, seen)
  {
  }

  /** All edges of the last node opened have been followed. */
  lemma ExploredClose(adj: Adjacency, es: seq<Edge>, visited: set<Node>, from: Node, seen: set<Node>)
    requires Indexes(adj, es, true) && Explored(es, visited + {from}, seen)
    requires forall e :: e in At(adj, from) ==> e.target in seen
    ensures Explored(es, visited, seen)
  {
    forall e | e in es && e.source in seen && e.source !in visited ensures e.target in seen {
      if e.source == from {
        KeyedMember(es, from, true, e);
        assert e in At(adj, from);
      }
    }
  }

  lemma ReachesThrough(adj: Adjacency, es: seq<Edge>, e: Edge, target: Node)
    requires Indexes(adj, es, true) && e in At(adj, e.source) && Reaches(es, e.target, target)
    ensures Reaches(es, e.source, target)
  {
    KeyedMember(es, e.source, true, e);
    assert At(adj, e.source) == Keyed(es, e.source, true);
    var p: Path :| IsPath(es, e.target, p, target);
    assert IsPath(es, e.source, [e], e.target);
    PathsJoin(es, e.source, [e], e.target, p, target);
  }

  ghost function Ends(es: seq<Edge>): set<Node> { set e | e in es :: e.target }

  /** Depth-first search below `from`, never entering a node twice. */
  method CanReachInner(adj: Adjacency, ghost es: seq<Edge>, from: Node, target: Node, visited: set<Node>, ghost all: set<Node>)
    returns (found: bool, seen: set<Node>)
    requires Indexes(adj, es, true) && from in all && Ends(es) <= all
    ensures visited <= seen
    ensures found ==> Reaches(es, from, target)
    ensures !found ==> from in seen && (target in seen ==> target in visited) && Explored(es, visited, seen)
    decreases all - visited
  {
    if from == target {
      assert IsPath(es, from, [], target);
      return true, visited;
    }
    if from in visited {
      return false, visited;
    }
    seen := visited + {from};
    var edges := At(adj, from);
    for i := 0 to |edges|
      invariant visited + {from} <= seen && (target in seen ==> target in visited)
      invariant forall j :: 0 <= j < i ==> edges[j].target in seen
      invariant Explored(es, visited + {from}, seen)
    {
      KeyedMember(es, from, true, edges[i]);
      ghost var before := seen;
      found, seen := CanReachInner(adj, es, edges[i].target, target, seen, all);
      if found {
        ReachesThrough(adj, es, edges[i], target);
        return;
      }
      ExploredJoin(es, visited + {from}, before, seen);
    }
    ExploredClose(adj, es, visited, from, seen);
    found := false;
  }

  /** A path cannot leave a set that its nodes' edges lead back into. */
  lemma {:induction false} Confined(es: seq<Edge>, seen: set<Node>, a: Node, p: Path, b: Node)
    requires IsPath(es, a, p, b) && a in seen
    requires forall e :: e in es && e.source in seen ==> e.target in seen
    ensures b in seen
    decreases |p|
  {
    if p != [] {
      Confined(es, seen, p[0].target, p[1..], b);
    }
  }

  method CanReach(adj: Adjacency, ghost es: seq<Edge>, from: Node, target: Node) returns (found: bool)
    requires Indexes(adj, es, true)
    ensures found <==> Reaches(es, from, target)
  {
    var seen;
    found, seen := CanReachInner(adj, es, from, target, {}, Ends(es) + {from});
    if !found {
      forall p: Path ensures !IsPath(es, from, p, target) {
        if IsPath(es, from, p, target) {
          Confined(es, seen, from, p, target);
        }
      }
    }
  }

  // ---- Strength ------------------------------------------------------------

  /** Product of the strengths along a path. */
  ghost function Strength(p: Path): real {
    if p == [] then 1.0 else Times(Strength(p[..|p| - 1]), p[|p| - 1].strength)
  }

  lemma StrengthAppend(p: Path, e: Edge)
    ensures Strength(p + [e]) == Times(Strength(p), e.strength)
  {
    assert (p + [e])[..|p|] == p;
  }

  /** The value arises from 1 by multiplying in the strengths of the path one after the other. */
  ghost predicate IsProduct(p: Path, x: real) {
    exists partial: seq<real> :: Partials(p, partial) && partial[|p|] == x
  }

  ghost predicate PartialAt(p: Path, partial: seq<real>, i: nat)
    requires i < |p| && |partial| == |p| + 1
  {
    partial[i + 1] == partial[i] * p[i].strength
  }

  ghost predicate Partials(p: Path, partial: seq<real>) {
    && |partial| == |p| + 1 && partial[0] == 1.0
    && forall i {:trigger PartialAt(p, partial, i)} :: 0 <= i < |p| ==> PartialAt(p, partial, i)
  }

  lemma {:induction false} StrengthIsProduct(p: Path)
    ensures IsProduct(p, Strength(p))
    decreases |p|
  {
    if p == [] {
      assert Partials(p, [1.0]) && [1.0][|p|] == Strength(p);
    } else {
      var n := |p| - 1;
      StrengthIsProduct(p[..n]);
      var before: seq<real> :| Partials(p[..n], before) && before[n] == Strength(p[..n]);
      var partial := before + [Strength(p)];
      TimesIs(Strength(p[..n]), p[n].strength);
      forall i | 0 <= i < |p| ensures PartialAt(p, partial, i) {
        assert i < n ==> PartialAt(p[..n], before, i);
      }
      assert Partials(p, partial);
    }
  }
}
