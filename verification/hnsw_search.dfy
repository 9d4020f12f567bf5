/**
 * The two searches of one layer: greedy descent, and the beam search. With a beam at least as wide as
 * the layer, the beam search returns exactly the nodes reachable from its entries, nearest first.
 */
module HnswSearch {
  import opened Heaps

  type Vec = seq<real>

  type Layer = map<Id, seq<Id>>

  /** Stored vectors and the distance between two of them. */
  datatype Space = Space(vectors: map<Id, Vec>, metric: (Vec, Vec) -> real)

  function Distance(sp: Space, query: Vec, x: Id): real
    requires x in sp.vectors
  {
    sp.metric(query, sp.vectors[x])
  }

  function Neighbours(graph: Layer, x: Id): seq<Id> { if x in graph then graph[x] else [] }

  /** Every neighbour has a stored vector and is itself in the layer. */
  ghost predicate Known(sp: Space, graph: Layer) {
    && graph.Keys <= sp.vectors.Keys
    && forall x, y {:trigger y in Neighbours(graph, x)} :: y in Neighbours(graph, x) ==> y in graph
  }

  /** An item carrying its node's distance from the query. */
  ghost predicate Measured(sp: Space, query: Vec, item: Item) {
    item.id in sp.vectors && item.dist == Distance(sp, query, item.id)
  }

  ghost predicate AllMeasured(sp: Space, query: Vec, s: seq<Item>) {
    forall x {:trigger Measured(sp, query, x)} :: x in s ==> Measured(sp, query, x)
  }

  lemma MeasuredOnce(sp: Space, query: Vec, s: seq<Item>)
    requires AllMeasured(sp, query, s)
    ensures OneEach(s)
  {
    forall x, y | x in s && y in s && x.id == y.id ensures x == y {
      assert Measured(sp, query, x) && Measured(sp, query, y);
    }
  }

  // ---- Reachability --------------------------------------------------------

  ghost predicate IsChain(graph: Layer, p: seq<Id>) {
    forall i :: 0 <= i < |p| - 1 ==> p[i + 1] in Neighbours(graph, p[i])
  }

  ghost predicate ChainTo(graph: Layer, starts: set<Id>, p: seq<Id>, x: Id) {
    p != [] && p[0] in starts && p[|p| - 1] == x && IsChain(graph, p)
  }

  ghost predicate Reached(graph: Layer, starts: set<Id>, x: Id) {
    exists p: seq<Id> :: ChainTo(graph, starts, p, x)
  }

  lemma ReachedStart(graph: Layer, starts: set<Id>, x: Id)
    requires x in starts
    ensures Reached(graph, starts, x)
  {
    assert ChainTo(graph, starts, [x], x);
  }

  lemma ReachedNext(graph: Layer, starts: set<Id>, x: Id, y: Id)
    requires Reached(graph, starts, x) && y in Neighbours(graph, x)
    ensures Reached(graph, starts, y)
  {
    var p: seq<Id> :| ChainTo(graph, starts, p, x);
    assert ChainTo(graph, starts, p + [y], y);
  }

  ghost predicate ClosedAt(graph: Layer, s: set<Id>, x: Id) { forall y :: y in Neighbours(graph, x) ==> y in s }

  lemma {:induction false} ChainStays(graph: Layer, s: set<Id>, p: seq<Id>)
    requires p != [] && p[0] in s && IsChain(graph, p)
    requires forall x {:trigger ClosedAt(graph, s, x)} :: x in s ==> ClosedAt(graph, s, x)
    ensures p[|p| - 1] in s
  {
    if |p| > 1 {
      assert ClosedAt(graph, s, p[0]) && p[1] in Neighbours(graph, p[0]);
      assert IsChain(graph, p[1..]) by {
        forall i | 0 <= i < |p| - 2 ensures p[1..][i + 1] in Neighbours(graph, p[1..][i]) {
          assert p[i + 2] in Neighbours(graph, p[i + 1]);
        }
      }
      ChainStays(graph, s, p[1..]);
    }
  }

  // ---- Greedy descent ------------------------------------------------------

  ghost function Nearer(sp: Space, query: Vec, d: real): set<Id> {
    set x | x in sp.vectors && Distance(sp, query, x) < d
  }

  lemma FewerNearer(sp: Space, query: Vec, x: Id, d: real)
    requires x in sp.vectors && Distance(sp, query, x) < d
    ensures Nearer(sp, query, Distance(sp, query, x)) < Nearer(sp, query, d)
  {
    assert x in Nearer(sp, query, d) && x !in Nearer(sp, query, Distance(sp, query, x));
  }

  /** The nearest of `x` and the live nodes listed, the first of them when several are. */
  ghost function Improved(sp: Space, tombstones: set<Id>, query: Vec, nodes: seq<Id>, x: Id): (y: Id)
    requires x in sp.vectors
    ensures y in sp.vectors && Distance(sp, query, y) <= Distance(sp, query, x)
    ensures y != x ==> Distance(sp, query, y) < Distance(sp, query, x)
  {
    if nodes == [] then x
    else
      var n := |nodes| - 1;
      var best, last := Improved(sp, tombstones, query, nodes[..n], x), nodes[n];
      if last !in tombstones && last in sp.vectors && Distance(sp, query, last) < Distance(sp, query, best) then last else best
  }

  /** Where moving to the nearest live neighbour again and again ends. */
  ghost function Greedy(sp: Space, graph: Layer, tombstones: set<Id>, query: Vec, x: Id): Id
    requires x in sp.vectors
    decreases Nearer(sp, query, Distance(sp, query, x))
  {
    var y := Improved(sp, tombstones, query, Neighbours(graph, x), x);
    if y == x then x
    else
      FewerNearer(sp, query, y, Distance(sp, query, x));
      Greedy(sp, graph, tombstones, query, y)
  }

  /** Move to a nearer live neighbour while there is one. */
  method GreedySearchLayer(sp: Space, graph: Layer, tombstones: set<Id>, query: Vec, entry: Id) returns (current: Id)
    requires Known(sp, graph) && entry in graph
    ensures current == Greedy(sp, graph, tombstones, query, entry)
    ensures current in graph && Distance(sp, query, current) <= Distance(sp, query, entry)
    ensures forall nb :: nb in Neighbours(graph, current) && nb !in tombstones ==>
              nb in sp.vectors && Distance(sp, query, nb) >= Distance(sp, query, current)
  {
    current := entry;
    var currentDist := Distance(sp, query, current);
    var improved := true;
    while improved
      invariant current in graph && currentDist == Distance(sp, query, current) <= Distance(sp, query, entry)
      invariant Greedy(sp, graph, tombstones, query, current) == Greedy(sp, graph, tombstones, query, entry)
      invariant !improved ==> Greedy(sp, graph, tombstones, query, current) == current
      invariant !improved ==> forall nb :: nb in Neighbours(graph, current) && nb !in tombstones ==>
                  nb in sp.vectors && Distance(sp, query, nb) >= currentDist
      decreases Nearer(sp, query, currentDist), if improved then 1 else 0
    {
      improved := false;
      var neighbours := Neighbours(graph, current);
      ghost var before, beforeDist := current, currentDist;
      for i := 0 to |neighbours|
        invariant current in graph && currentDist == Distance(sp, query, current) <= beforeDist
        invariant before in sp.vectors && current == Improved(sp, tombstones, query, neighbours[..i], before)
        invariant improved <==> current != before
        invariant improved ==> Nearer(sp, query, currentDist) < Nearer(sp, query, beforeDist)
        invariant !improved ==> current == before && forall j :: 0 <= j < i && neighbours[j] !in tombstones ==>
                    neighbours[j] in sp.vectors && Distance(sp, query, neighbours[j]) >= currentDist
      {
        var nb := neighbours[i];
        assert neighbours[..i + 1][..i] == neighbours[..i];
        assert nb in Neighbours(graph, before);
        if nb in tombstones {
          continue;
        }
        if nb in sp.vectors {
          var d := Distance(sp, query, nb);
          if d < currentDist {
            FewerNearer(sp, query, nb, currentDist);
            current, currentDist, improved := nb, d, true;
          }
        }
      }
      assert neighbours[..|neighbours|] == neighbours;
    }
  }

  // ---- Beam search ---------------------------------------------------------

  /** The fixed surroundings of one beam search. */
  datatype Beam = Beam(sp: Space, graph: Layer, query: Vec, starts: set<Id>, ef: nat)

  ghost function Everything(b: Beam): set<Id> { b.graph.Keys + b.starts }

  /** The beam can hold every node there is. */
  ghost predicate Wide(b: Beam) { b.ef >= |Everything(b)| }

  ghost predicate Ready(b: Beam) {
    Known(b.sp, b.graph) && b.starts <= b.sp.vectors.Keys
  }

  /** Both queues hold measured items of visited nodes; every visited node is reachable. */
  ghost predicate Searching(b: Beam, visited: set<Id>, candidates: seq<Item>, result: seq<Item>) {
    && Ascending(candidates) && AllMeasured(b.sp, b.query, candidates) && Ids(candidates) <= visited
    && Ascending(result) && AllMeasured(b.sp, b.query, result) && Ids(result) <= visited
    && visited <= Everything(b)
    && forall x {:trigger Reached(b.graph, b.starts, x)} :: x in visited ==> Reached(b.graph, b.starts, x)
  }

  /** With a wide beam nothing visited is dropped, and all but the queued nodes are expanded. */
  ghost predicate Complete(b: Beam, visited: set<Id>, open: set<Id>, result: seq<Item>) {
    && visited <= Ids(result)
    && forall x {:trigger ClosedAt(b.graph, visited, x)} :: x in visited && x !in open ==> ClosedAt(b.graph, visited, x)
  }

  /** The beam is full of nodes at least as near. */
  ghost predicate LeftOut(b: Beam, result: seq<Item>, v: Id) {
    && |result| >= b.ef && v in b.sp.vectors
    && (result != [] ==> Distance(b.sp, b.query, v) >= result[|result| - 1].dist)
  }

  ghost predicate Weighed(b: Beam, visited: set<Id>, result: seq<Item>) {
    forall v {:trigger LeftOut(b, result, v)} :: v in visited ==> v in Ids(result) || LeftOut(b, result, v)
  }

  /** Every visited node is in the beam or left out of it; every node in it is still open or expanded. */
  ghost predicate Steady(b: Beam, visited: set<Id>, open: set<Id>, result: seq<Item>) {
    && Weighed(b, visited, result)
    && forall x {:trigger ClosedAt(b.graph, visited, x)} :: x in Ids(result) ==> x in open || ClosedAt(b.graph, visited, x)
  }

  /** The beam cannot be improved by one step: a neighbour of a node in it is in it, or it is full and the neighbour no nearer. */
  ghost predicate NoBetterNext(sp: Space, graph: Layer, query: Vec, ef: nat, out: seq<Item>) {
    forall x, y {:trigger x in out, y in Neighbours(graph, x.id)} :: x in out && y in Neighbours(graph, x.id) ==>
      y in Ids(out) || (|out| >= ef && y in sp.vectors && Distance(sp, query, y) >= out[|out| - 1].dist)
  }

  lemma Sizes(b: Beam, visited: set<Id>, candidates: seq<Item>, result: seq<Item>)
    requires Searching(b, visited, candidates, result)
    ensures |result| <= |visited| <= |Everything(b)|
    ensures |visited| == |Everything(b)| ==> visited == Everything(b)
  {
    MeasuredOnce(b.sp, b.query, result);
    IdsSize(result);
    SubsetSize(Ids(result), visited);
    SubsetSize(visited, Everything(b));
  }

  lemma PushMeasured(sp: Space, query: Vec, s: seq<Item>, x: Item)
    requires Ascending(s) && AllMeasured(sp, query, s) && x !in s && Measured(sp, query, x)
    ensures Ascending(Push(s, x)) && AllMeasured(sp, query, Push(s, x)) && Ids(Push(s, x)) == Ids(s) + {x.id}
    ensures |Push(s, x)| == |s| + 1
  {
    PushOk(s, x);
    PushIds(s, x);
  }

  lemma DropLast(sp: Space, query: Vec, s: seq<Item>)
    requires s != [] && Ascending(s) && AllMeasured(sp, query, s)
    ensures Ascending(s[..|s| - 1]) && AllMeasured(sp, query, s[..|s| - 1]) && Ids(s[..|s| - 1]) <= Ids(s)
  {
    assert forall x :: x in s[..|s| - 1] ==> x in s;
  }

  lemma DropFirst(sp: Space, query: Vec, s: seq<Item>)
    requires s != [] && Ascending(s) && AllMeasured(sp, query, s)
    ensures Ascending(s[1..]) && AllMeasured(sp, query, s[1..])
    ensures Ids(s[1..]) <= Ids(s) <= Ids(s[1..]) + {s[0].id}
    ensures Measured(sp, query, s[0]) && s[0].id in Ids(s)
  {
    assert s == [s[0]] + s[1..];
    assert s[0] in s;
  }

  /** Queue one newly visited node unless the beam is full of nearer ones. */
  method Offer(ghost b: Beam, ghost visited: set<Id>, candidates0: seq<Item>, result0: seq<Item>, item: Item, ef: nat)
    returns (candidates: seq<Item>, result: seq<Item>)
    requires Searching(b, visited, candidates0, result0) && item.id !in visited && ef == b.ef
    requires Measured(b.sp, b.query, item) && item.id in Everything(b) && Reached(b.graph, b.starts, item.id)
    ensures Searching(b, visited + {item.id}, candidates, result)
    ensures Wide(b) ==> Ids(candidates) == Ids(candidates0) + {item.id} && Ids(result) == Ids(result0) + {item.id}
    ensures Ids(candidates) <= Ids(candidates0) + {item.id}
    ensures Ids(candidates0) <= Ids(candidates) && (item.id in Ids(result) ==> item.id in Ids(candidates))
    ensures Ids(result) <= Ids(result0) + {item.id}
    ensures Weighed(b, visited, result0) ==> Weighed(b, visited + {item.id}, result)
    ensures |result| <= (if |result0| <= ef then ef else |result0|) && (result0 != [] ==> result != [])
  {
    candidates, result := candidates0, result0;
    assert item !in candidates && item !in result;
    assert Wide(b) ==> |result| < ef by {
      Sizes(b, visited, candidates0, result0);
      assert visited <= Everything(b) - {item.id};
      SubsetSize(visited, Everything(b) - {item.id});
    }
    if result == [] || item.dist < result[|result| - 1].dist || |result| < ef {
      PushMeasured(b.sp, b.query, candidates, item);
      PushMeasured(b.sp, b.query, result, item);
      candidates, result := Push(candidates, item), Push(result, item);
      if |result| > ef {
        DropLast(b.sp, b.query, result);
        result := result[..|result| - 1];
      }
      if Weighed(b, visited, result0) {
        PushWeighed(b, visited, result0, item, result);
      }
    } else {
      assert LeftOut(b, result, item.id);
    }
  }

  /** Taking in a node that is near enough leaves out only nodes no nearer than those kept. */
  lemma PushWeighed(b: Beam, visited: set<Id>, result0: seq<Item>, item: Item, result: seq<Item>)
    requires Ascending(result0) && AllMeasured(b.sp, b.query, result0) && item !in result0 && Measured(b.sp, b.query, item)
    requires Weighed(b, visited, result0)
    requires result0 == [] || item.dist < result0[|result0| - 1].dist || |result0| < b.ef
    requires var all := Push(result0, item); result == if |all| > b.ef then all[..|all| - 1] else all
    ensures Weighed(b, visited + {item.id}, result)
  {
    PushMeasured(b.sp, b.query, result0, item);
    var all := Push(result0, item);
    PushOk(result0, item);
    forall v | v in visited + {item.id} ensures v in Ids(result) || LeftOut(b, result, v) {
      if v in Ids(all) {
        DroppedIsOut(b, all, result, v);
      } else {
        assert LeftOut(b, result0, v);
        StillOut(b, result0, item, all, result, v);
      }
    }
  }

  /** The node dropped from a full beam is no nearer than the rest. */
  lemma DroppedIsOut(b: Beam, all: seq<Item>, result: seq<Item>, v: Id)
    requires Ascending(all) && AllMeasured(b.sp, b.query, all) && v in Ids(all)
    requires result == if |all| > b.ef then all[..|all| - 1] else all
    ensures v in Ids(result) || LeftOut(b, result, v)
  {
    var z :| z in all && z.id == v;
    assert Measured(b.sp, b.query, z);
    if z !in result {
      DroppedLast(all, z);
    }
  }

  /** A node left out before is left out still: the beam's last node is no farther now. */
  lemma StillOut(b: Beam, result0: seq<Item>, item: Item, all: seq<Item>, result: seq<Item>, v: Id)
    requires Ascending(result0) && Ascending(all) && |all| == |result0| + 1 && forall y :: y in all <==> y in result0 || y == item
    requires result0 == [] || item.dist < result0[|result0| - 1].dist || |result0| < b.ef
    requires result == if |all| > b.ef then all[..|all| - 1] else all
    requires LeftOut(b, result0, v)
    ensures LeftOut(b, result, v)
  {
    if result0 != [] {
      LastNoFarther(result0, item, all);
    }
  }

  lemma DroppedLast(s: seq<Item>, z: Item)
    requires Ascending(s) && z in s && z !in s[..|s| - 1]
    ensures z == s[|s| - 1] && (|s| > 1 ==> s[|s| - 2].dist <= z.dist)
  {
    assert s == s[..|s| - 1] + [s[|s| - 1]];
  }

  lemma LastNoFarther(s: seq<Item>, item: Item, all: seq<Item>)
    requires s != [] && Ascending(s) && Ascending(all) && |all| == |s| + 1 && item.dist < s[|s| - 1].dist
    requires forall y :: y in all <==> y in s || y == item
    ensures all[|all| - 2].dist <= s[|s| - 1].dist
  {
    assert all[|all| - 2] in all;
  }

  /** Visit every unvisited neighbour of the node just popped. */
  method Expand(ghost b: Beam, sp: Space, query: Vec, neighbours: seq<Id>, ef: nat, ghost current: Id,
                visited0: set<Id>, candidates0: seq<Item>, result0: seq<Item>)
    returns (visited: set<Id>, candidates: seq<Item>, result: seq<Item>)
    requires Ready(b) && sp == b.sp && query == b.query && ef == b.ef && current in visited0
    requires neighbours == Neighbours(b.graph, current) && Searching(b, visited0, candidates0, result0)
    requires Wide(b) ==> Complete(b, visited0, Ids(candidates0) + {current}, result0)
    requires Steady(b, visited0, Ids(candidates0) + {current}, result0)
    ensures visited0 <= visited && Searching(b, visited, candidates, result)
    ensures Wide(b) ==> Complete(b, visited, Ids(candidates), result)
    ensures Steady(b, visited, Ids(candidates), result)
    ensures visited == visited0 ==> candidates == candidates0
    ensures |result| <= (if |result0| <= ef then ef else |result0|) && (result0 != [] ==> result != [])
  {
    visited, candidates, result := visited0, candidates0, result0;
    for i := 0 to |neighbours|
      invariant visited0 <= visited && Searching(b, visited, candidates, result)
      invariant forall j :: 0 <= j < i ==> neighbours[j] in visited
      invariant Wide(b) ==> Complete(b, visited, Ids(candidates) + {current}, result)
      invariant Steady(b, visited, Ids(candidates) + {current}, result)
      invariant visited == visited0 ==> candidates == candidates0
      invariant |result| <= (if |result0| <= ef then ef else |result0|) && (result0 != [] ==> result != [])
    {
      var nb := neighbours[i];
      if nb in visited {
        continue;
      }
      assert nb in Neighbours(b.graph, current) && nb in b.graph;
      ReachedNext(b.graph, b.starts, current, nb);
      ghost var before, open, kept := visited, Ids(candidates), result;
      visited := visited + {nb};
      if nb in sp.vectors {
        candidates, result := Offer(b, before, candidates, result, Item(Distance(sp, query, nb), nb), ef);
        if Wide(b) {
          OfferComplete(b, before, open, kept, nb, current, Ids(candidates), result);
        }
        OfferSteady(b, before, open, kept, nb, current, Ids(candidates), result);
      }
    }
    assert ClosedAt(b.graph, visited, current);
  }

  lemma OfferComplete(b: Beam, before: set<Id>, open: set<Id>, kept: seq<Item>, nb: Id, current: Id, open': set<Id>, result: seq<Item>)
    requires Complete(b, before, open + {current}, kept)
    requires open' == open + {nb} && Ids(result) == Ids(kept) + {nb}
    ensures Complete(b, before + {nb}, open' + {current}, result)
  {
    forall x | x in before + {nb} && x !in open' + {current} ensures ClosedAt(b.graph, before + {nb}, x) {
      assert ClosedAt(b.graph, before, x);
    }
  }

  lemma OfferSteady(b: Beam, before: set<Id>, open: set<Id>, kept: seq<Item>, nb: Id, current: Id, open': set<Id>, result: seq<Item>)
    requires Steady(b, before, open + {current}, kept) && Weighed(b, before + {nb}, result)
    requires open <= open' && Ids(result) <= Ids(kept) + {nb} && (nb in Ids(result) ==> nb in open')
    ensures Steady(b, before + {nb}, open' + {current}, result)
  {
    forall x | x in Ids(result) && x !in open' + {current} ensures ClosedAt(b.graph, before + {nb}, x) {
      assert ClosedAt(b.graph, before, x);
    }
  }

  /** Put the entry candidates into both queues. */
  method Enter(ghost b: Beam, entries: seq<Item>)
    returns (visited: set<Id>, candidates: seq<Item>, result: seq<Item>)
    requires Ready(b) && AllMeasured(b.sp, b.query, entries) && Ids(entries) == b.starts
    ensures Searching(b, visited, candidates, result) && Complete(b, visited, Ids(candidates), result)
    ensures Steady(b, visited, Ids(candidates), result)
    ensures visited == b.starts && |result| <= |entries| && (entries != [] ==> result != [])
  {
    visited, candidates, result := {}, [], [];
    for i := 0 to |entries|
      invariant Searching(b, visited, candidates, result)
      invariant Ids(candidates) == visited == Ids(result) && |result| <= i && (i > 0 ==> result != [])
      invariant visited == Ids(entries[..i])
    {
      var item := entries[i];
      assert entries[..i + 1] == entries[..i] + [item];
      assert Ids(entries[..i + 1]) == Ids(entries[..i]) + {item.id};
      assert item in entries && Measured(b.sp, b.query, item);
      if item.id !in visited {
        visited := visited + {item.id};
        PushMeasured(b.sp, b.query, candidates, item);
        PushMeasured(b.sp, b.query, result, item);
        candidates, result := Push(candidates, item), Push(result, item);
        ReachedStart(b.graph, b.starts, item.id);
      }
    }
    assert entries[..|entries|] == entries;
  }

  /** What the search leaves: measured items of reachable nodes, nearest first. */
  ghost predicate Found(b: Beam, out: seq<Item>) {
    && Ascending(out) && AllMeasured(b.sp, b.query, out)
    && forall x {:trigger Reached(b.graph, b.starts, x)} :: x in Ids(out) ==> Reached(b.graph, b.starts, x)
  }

  /** Every reachable node is in the result. */
  ghost predicate FoundAll(b: Beam, out: seq<Item>) {
    forall x {:trigger Reached(b.graph, b.starts, x)} :: Reached(b.graph, b.starts, x) ==> x in Ids(out)
  }

  lemma CompleteFindsAll(b: Beam, visited: set<Id>, result: seq<Item>)
    requires b.starts <= visited && Complete(b, visited, {}, result)
    ensures FoundAll(b, result)
  {
    forall x | Reached(b.graph, b.starts, x) ensures x in Ids(result) {
      var p: seq<Id> :| ChainTo(b.graph, b.starts, p, x);
      ChainStays(b.graph, visited, p);
    }
  }

  /** A full wide beam has visited everything. */
  lemma FullFindsAll(b: Beam, visited: set<Id>, candidates: seq<Item>, result: seq<Item>)
    requires Ready(b) && Searching(b, visited, candidates, result) && Wide(b) && |result| >= b.ef && visited <= Ids(result)
    ensures FoundAll(b, result)
  {
    Sizes(b, visited, candidates, result);
    forall x | Reached(b.graph, b.starts, x) ensures x in Everything(b) {
      var p: seq<Id> :| ChainTo(b.graph, b.starts, p, x);
      ReachedKnown(b, p, x);
    }
  }

  lemma LastStep(graph: Layer, starts: set<Id>, p: seq<Id>, x: Id)
    requires ChainTo(graph, starts, p, x)
    ensures |p| > 1 ==> x in Neighbours(graph, p[|p| - 2])
  {
    var i := |p| - 2;
    assert i >= 0 ==> p[i + 1] in Neighbours(graph, p[i]);
  }

  lemma ReachedKnown(b: Beam, p: seq<Id>, x: Id)
    requires Ready(b) && ChainTo(b.graph, b.starts, p, x)
    ensures x in Everything(b)
  {
    LastStep(b.graph, b.starts, p, x);
  }

  lemma Pop(b: Beam, visited: set<Id>, candidates: seq<Item>, result: seq<Item>)
    requires candidates != [] && Searching(b, visited, candidates, result)
    requires Wide(b) ==> Complete(b, visited, Ids(candidates), result)
    requires Steady(b, visited, Ids(candidates), result)
    ensures Steady(b, visited, Ids(candidates[1..]) + {candidates[0].id}, result)
    ensures Searching(b, visited, candidates[1..], result) && candidates[0].id in visited
    ensures Wide(b) ==> Complete(b, visited, Ids(candidates[1..]) + {candidates[0].id}, result)
  {
    DropFirst(b.sp, b.query, candidates);
  }

  ghost predicate Running(b: Beam, visited: set<Id>, candidates: seq<Item>, result: seq<Item>) {
    && b.starts <= visited && Searching(b, visited, candidates, result)
    && (Wide(b) ==> Complete(b, visited, Ids(candidates), result))
    && Steady(b, visited, Ids(candidates), result)
  }

  /** Once nothing in the beam is open, it cannot be improved by one step. */
  lemma SteadyEnds(b: Beam, visited: set<Id>, open: set<Id>, result: seq<Item>)
    requires Steady(b, visited, open, result) && forall x :: x in result ==> x.id !in open
    ensures NoBetterNext(b.sp, b.graph, b.query, b.ef, result)
  {
    forall x, y | x in result && y in Neighbours(b.graph, x.id)
      ensures y in Ids(result) || LeftOut(b, result, y)
    {
      assert x.id in Ids(result) && ClosedAt(b.graph, visited, x.id);
    }
  }

  /** Candidates behind the first are no nearer than it. */
  lemma NoneOpen(b: Beam, visited: set<Id>, candidates: seq<Item>, result: seq<Item>)
    requires Searching(b, visited, candidates, result) && candidates != [] && result != []
    requires candidates[0].dist > result[|result| - 1].dist
    ensures forall x :: x in result ==> x.id !in Ids(candidates)
  {
    forall x, c | x in result && c in candidates ensures x.id != c.id {
      assert Measured(b.sp, b.query, c) && Measured(b.sp, b.query, x);
      assert c.dist >= candidates[0].dist && x.dist <= result[|result| - 1].dist;
    }
  }

  /** Pop the nearest candidate: stop when it cannot improve a full beam, else expand it. */
  method Round(ghost b: Beam, sp: Space, graph: Layer, query: Vec, ef: nat, visited0: set<Id>, candidates0: seq<Item>, result0: seq<Item>)
    returns (done: bool, visited: set<Id>, candidates: seq<Item>, result: seq<Item>)
    requires Ready(b) && sp == b.sp && graph == b.graph && query == b.query && ef == b.ef
    requires candidates0 != [] && Running(b, visited0, candidates0, result0)
    ensures Running(b, visited, candidates, result)
    ensures done && Wide(b) ==> FoundAll(b, result)
    ensures done ==> NoBetterNext(sp, graph, query, ef, result)
    ensures |result| <= (if |result0| <= ef then ef else |result0|) && (result0 != [] ==> result != [])
    ensures visited0 <= visited && (!done && visited == visited0 ==> |candidates| < |candidates0|)
  {
    var current := candidates0[0];
    if result0 != [] && current.dist > result0[|result0| - 1].dist && |result0| >= ef {
      if Wide(b) {
        FullFindsAll(b, visited0, candidates0, result0);
      }
      NoneOpen(b, visited0, candidates0, result0);
      SteadyEnds(b, visited0, Ids(candidates0), result0);
      return true, visited0, candidates0, result0;
    }
    Pop(b, visited0, candidates0, result0);
    done := false;
    visited, candidates, result :=
      Expand(b, sp, query, Neighbours(graph, current.id), ef, current.id, visited0, candidates0[1..], result0);
  }

  /**
   * Beam search from the entries. It returns reachable nodes with their distances, nearest first and
   * each once. For every width the result cannot be improved by one step; with a beam as wide as the
   * layer it holds all reachable nodes.
   */
  method SearchLayer(sp: Space, graph: Layer, query: Vec, entries: seq<Item>, ef: nat, ghost b: Beam) returns (out: seq<Item>)
    requires b == Beam(sp, graph, query, Ids(entries), ef)
    requires Known(sp, graph) && AllMeasured(sp, query, entries)
    ensures Found(b, out) && (Wide(b) ==> FoundAll(b, out))
    ensures NoBetterNext(sp, graph, query, ef, out)
    ensures |out| <= (if |entries| <= ef then ef else |entries|) && (entries != [] ==> out != [])
  {
    assert Ready(b) by {
      forall x | x in entries ensures x.id in sp.vectors {
        assert Measured(sp, query, x);
      }
    }
    var visited, candidates, result := Enter(b, entries);
    var done := false;
    while candidates != [] && !done
      invariant Running(b, visited, candidates, result)
      invariant |result| <= (if |entries| <= ef then ef else |entries|) && (entries != [] ==> result != [])
      invariant done && Wide(b) ==> FoundAll(b, result)
      invariant done ==> NoBetterNext(sp, graph, query, ef, result)
      decreases !done, Everything(b) - visited, |candidates|
    {
      done, visited, candidates, result := Round(b, sp, graph, query, ef, visited, candidates, result);
    }
    if !done {
      SteadyEnds(b, visited, {}, result);
      if Wide(b) {
        CompleteFindsAll(b, visited, result);
      }
    }
    return result;
  }
}
