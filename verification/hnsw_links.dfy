/** Linking a new node into one layer: edges both ways, and the neighbour's list cut back when too long. */
module HnswLinks {
  import opened Heaps
  import opened HnswSearch

  // ---- Selection -----------------------------------------------------------

  ghost predicate ByDistance(sp: Space, v: Vec, s: seq<Id>) {
    && (forall i {:trigger s[i]} :: 0 <= i < |s| ==> s[i] in sp.vectors)
    && forall i, j :: 0 <= i < j < |s| ==> Distance(sp, v, s[i]) <= Distance(sp, v, s[j])
  }

  /** Insert after everything at most as far. */
  function Place(sp: Space, v: Vec, s: seq<Id>, x: Id): (r: seq<Id>)
    requires x in sp.vectors && forall i :: 0 <= i < |s| ==> s[i] in sp.vectors
    ensures |r| == |s| + 1 && forall y :: y in r <==> y in s || y == x
  {
    if s == [] then [x]
    else if Distance(sp, v, x) < Distance(sp, v, s[|s| - 1]) then Place(sp, v, s[..|s| - 1], x) + [s[|s| - 1]]
    else s + [x]
  }

  lemma {:induction false} PlaceSorted(sp: Space, v: Vec, s: seq<Id>, x: Id)
    requires ByDistance(sp, v, s) && x in sp.vectors
    ensures ByDistance(sp, v, Place(sp, v, s, x))
    decreases |s|
  {
    if s != [] && Distance(sp, v, x) < Distance(sp, v, s[|s| - 1]) {
      var n := |s| - 1;
      PlaceSorted(sp, v, s[..n], x);
      var r := Place(sp, v, s[..n], x);
      forall i | 0 <= i < |r| ensures r[i] in sp.vectors && Distance(sp, v, r[i]) <= Distance(sp, v, s[n]) {
        assert r[i] in r;
      }
    }
  }

  /** The `m` nearest of the candidates, nearest first. */
  method SelectNeighbours(sp: Space, v: Vec, candidates: seq<Id>, m: nat) returns (kept: seq<Id>)
    requires forall i :: 0 <= i < |candidates| ==> candidates[i] in sp.vectors
    ensures |kept| == if |candidates| <= m then |candidates| else m
    ensures forall x :: x in kept ==> x in candidates
    ensures forall x, y :: x in kept && y in candidates && y !in kept ==>
              x in sp.vectors && y in sp.vectors && Distance(sp, v, x) <= Distance(sp, v, y)
  {
    var scored: seq<Id> := [];
    for i := 0 to |candidates|
      invariant |scored| == i && ByDistance(sp, v, scored)
      invariant forall x :: x in scored <==> x in candidates[..i]
    {
      PlaceSorted(sp, v, scored, candidates[i]);
      scored := Place(sp, v, scored, candidates[i]);
    }
    assert candidates[..|candidates|] == candidates;
    kept := if |scored| <= m then scored else scored[..m];
  }

  // ---- Layers --------------------------------------------------------------

  ghost predicate ListOk(graph: Layer, cap: nat, x: Id)
    requires x in graph
  {
    |graph[x]| <= cap && forall y :: y in graph[x] ==> y in graph && y != x
  }

  /** Lists no longer than the cap, of other nodes of the layer. */
  ghost predicate LayerOk(graph: Layer, cap: nat) {
    forall x {:trigger ListOk(graph, cap, x)} :: x in graph ==> ListOk(graph, cap, x)
  }

  ghost predicate Unlinked(graph: Layer, id: Id) {
    forall x {:trigger Neighbours(graph, x)} :: id !in Neighbours(graph, x)
  }

  ghost predicate NoFarther(sp: Space, x: Id, y: Id, id: Id)
    requires x in sp.vectors && id in sp.vectors
  {
    y in sp.vectors && Distance(sp, sp.vectors[x], y) <= Distance(sp, sp.vectors[x], id)
  }

  /** `x` lists `id`, or its list is full of nodes no farther than `id`. */
  ghost predicate LinksTo(sp: Space, graph: Layer, cap: nat, x: Id, id: Id) {
    && x in graph && id in sp.vectors && x in sp.vectors
    && (id in graph[x]
        || (|graph[x]| == cap && forall y :: y in graph[x] ==> NoFarther(sp, x, y, id)))
  }

  lemma LayerKnown(sp: Space, graph: Layer, cap: nat)
    requires LayerOk(graph, cap) && graph.Keys <= sp.vectors.Keys
    ensures Known(sp, graph)
  {
    forall x, y | y in Neighbours(graph, x) ensures y in graph {
      assert ListOk(graph, cap, x);
    }
  }

  /** The list of `x` once `id` was added: cut back to the `cap` nearest when longer. */
  ghost predicate CutBack(sp: Space, x: Id, before: seq<Id>, after: seq<Id>, cap: nat, id: Id) {
    && |after| == (if |before| + 1 <= cap then |before| + 1 else cap)
    && (forall y :: y in after ==> y in before || y == id)
    && forall y, z {:trigger y in after, z in after} :: y in after && (z in before || z == id) && z !in after ==>
         x in sp.vectors && y in sp.vectors && z in sp.vectors
         && Distance(sp, sp.vectors[x], y) <= Distance(sp, sp.vectors[x], z)
  }

  /** Only the chosen nodes' lists and the new node's own changed. */
  ghost predicate Relinked(sp: Space, graph0: Layer, graph: Layer, cap: nat, id: Id, chosen: set<Id>) {
    forall x {:trigger Neighbours(graph, x)} :: x != id ==>
      if x in chosen then CutBack(sp, x, Neighbours(graph0, x), Neighbours(graph, x), cap, id)
      else Neighbours(graph, x) == Neighbours(graph0, x)
  }

  /** Edges between the new node and one neighbour. */
  method Connect(sp: Space, graph0: Layer, cap: nat, id: Id, nb: Id) returns (graph: Layer)
    requires LayerOk(graph0, cap) && graph0.Keys <= sp.vectors.Keys && id in graph0
    requires nb in sp.vectors && nb != id && |graph0[id]| < cap
    ensures LayerOk(graph, cap) && graph.Keys == graph0.Keys + {nb}
    ensures graph[id] == graph0[id] + [nb] && LinksTo(sp, graph, cap, nb, id)
    ensures forall x :: x in graph0 && x != id && x != nb ==> graph[x] == graph0[x]
    ensures Relinked(sp, graph0, graph, cap, id, {nb})
  {
    graph := graph0[id := graph0[id] + [nb]];
    var list := Neighbours(graph0, nb) + [id];
    assert ListOk(graph0, cap, id) && (nb in graph0 ==> ListOk(graph0, cap, nb));
    if |list| > cap {
      list := SelectNeighbours(sp, sp.vectors[nb], list, cap);
    }
    graph := graph[nb := list];
    forall x | x in graph ensures ListOk(graph, cap, x) {
      assert x in graph0 ==> ListOk(graph0, cap, x);
    }
  }

  /** The new node's list is the nearest of those found, and each of them links back. */
  ghost predicate Joined(sp: Space, graph: Layer, cap: nat, id: Id, chosen: seq<Item>) {
    && id in graph && |graph[id]| == |chosen|
    && forall i {:trigger chosen[i]} :: 0 <= i < |chosen| ==>
         graph[id][i] == chosen[i].id && LinksTo(sp, graph, cap, chosen[i].id, id)
  }

  lemma JoinedStep(sp: Space, graph: Layer, graph': Layer, cap: nat, id: Id, chosen: seq<Item>, nb: Item)
    requires Joined(sp, graph, cap, id, chosen) && nb.id != id
    requires forall i :: 0 <= i < |chosen| ==> chosen[i].id != nb.id && chosen[i].id != id
    requires id in graph' && graph'[id] == graph[id] + [nb.id] && LinksTo(sp, graph', cap, nb.id, id)
    requires graph.Keys <= graph'.Keys && forall x :: x in graph && x != id && x != nb.id ==> graph'[x] == graph[x]
    ensures Joined(sp, graph', cap, id, chosen + [nb])
  {
    forall i | 0 <= i < |chosen| ensures LinksTo(sp, graph', cap, chosen[i].id, id) {
      assert LinksTo(sp, graph, cap, chosen[i].id, id);
      assert graph'[chosen[i].id] == graph[chosen[i].id];
    }
  }

  lemma OneMoreFound(found: seq<Item>, i: nat)
    requires i < |found| && forall j, k :: 0 <= j < k < |found| ==> found[j].id != found[k].id
    ensures found[..i + 1] == found[..i] + [found[i]]
    ensures Ids(found[..i + 1]) == Ids(found[..i]) + {found[i].id} && found[i].id !in Ids(found[..i])
  {
    assert found[..i + 1] == found[..i] + [found[i]];
  }

  lemma RelinkedStep(sp: Space, graph0: Layer, before: Layer, graph: Layer, cap: nat, id: Id, chosen: set<Id>, nb: Id)
    requires Relinked(sp, graph0, before, cap, id, chosen) && Relinked(sp, before, graph, cap, id, {nb}) && nb !in chosen
    ensures Relinked(sp, graph0, graph, cap, id, chosen + {nb})
  {
    forall x | x != id
      ensures if x in chosen + {nb} then CutBack(sp, x, Neighbours(graph0, x), Neighbours(graph, x), cap, id)
              else Neighbours(graph, x) == Neighbours(graph0, x)
    {
      assert Neighbours(before, x) == Neighbours(before, x);
    }
  }

  /** Join the new node to the first `count` of the nodes found. */
  method ConnectAll(sp: Space, graph0: Layer, cap: nat, id: Id, found: seq<Item>, count: nat) returns (graph: Layer)
    requires LayerOk(graph0, cap) && graph0.Keys <= sp.vectors.Keys && id in graph0 && graph0[id] == []
    requires count <= |found| && count <= cap && id in sp.vectors
    requires forall i :: 0 <= i < |found| ==> found[i].id in sp.vectors && found[i].id != id
    requires forall i, j :: 0 <= i < j < |found| ==> found[i].id != found[j].id
    ensures LayerOk(graph, cap) && graph.Keys == graph0.Keys + Ids(found[..count])
    ensures Joined(sp, graph, cap, id, found[..count]) && Relinked(sp, graph0, graph, cap, id, Ids(found[..count]))
  {
    graph := graph0;
    for i := 0 to count
      invariant LayerOk(graph, cap) && graph.Keys == graph0.Keys + Ids(found[..i]) <= sp.vectors.Keys
      invariant Joined(sp, graph, cap, id, found[..i]) && Relinked(sp, graph0, graph, cap, id, Ids(found[..i]))
    {
      var nb := found[i];
      ghost var before := graph;
      graph := Connect(sp, graph, cap, id, nb.id);
      JoinedStep(sp, before, graph, cap, id, found[..i], nb);
      OneMoreFound(found, i);
      RelinkedStep(sp, graph0, before, graph, cap, id, Ids(found[..i]), nb.id);
    }
  }
}
