/**
 * Breadth-first search that re-queues a node whenever it is reached more strongly, and the proof that
 * it finds, for every node within the depth bound, the greatest strength product of any path to it.
 */
module StrongestPaths {
  import opened Products
  import opened CausalGraph

  // ---- What the search is for ----------------------------------------------

  /** The node a walk from `a` has reached after `i` edges, each followed from its near to its far end. */
  function Turn(forward: bool, a: Node, p: Path, i: nat): Node
    requires i <= |p|
  {
    if i == 0 then a else Far(p[i - 1], forward)
  }

  /** Edges of `es` followed one after another from `a` to `b`, forwards or backwards. */
  ghost predicate IsWalk(es: seq<Edge>, forward: bool, a: Node, p: Path, b: Node) {
    && (forall i {:trigger p[i]} :: 0 <= i < |p| ==> p[i] in es && Near(p[i], forward) == Turn(forward, a, p, i))
    && b == Turn(forward, a, p, |p|)
  }

  ghost predicate WalkWithin(es: seq<Edge>, forward: bool, a: Node, p: Path, b: Node, depth: nat) {
    1 <= |p| <= depth && IsWalk(es, forward, a, p, b)
  }

  /** The nodes one to `depth` edges away, each with the greatest strength product of the walks to it. */
  ghost predicate Strongest(es: seq<Edge>, forward: bool, a: Node, depth: nat, best: map<Node, real>) {
    && (forall b, p: Path {:trigger WalkWithin(es, forward, a, p, b, depth)} ::
          WalkWithin(es, forward, a, p, b, depth) ==> b in best && Strength(p) <= best[b])
    && (forall b {:trigger best[b]} :: b in best ==>
          exists p: Path :: WalkWithin(es, forward, a, p, b, depth) && Strength(p) == best[b])
  }

  ghost predicate NonNegative(es: seq<Edge>) {
    forall e :: e in es ==> e.strength >= 0.0
  }

  // ---- The search's items --------------------------------------------------

  datatype Item = Item(node: Node, strength: real, depth: nat)

  /** The item one edge beyond another. */
  ghost function Beyond(forward: bool, item: Item, e: Edge): Item {
    Item(Far(e, forward), Times(item.strength, e.strength), item.depth + 1)
  }

  ghost predicate ByWalk(es: seq<Edge>, forward: bool, a: Node, p: Path, item: Item) {
    IsWalk(es, forward, a, p, item.node) && |p| == item.depth && Strength(p) == item.strength
  }

  ghost predicate Sound(es: seq<Edge>, forward: bool, a: Node, item: Item) {
    exists p: Path :: ByWalk(es, forward, a, p, item)
  }

  /** The item `c` reaches the node of `item` at least as strongly and as early. */
  predicate Covers(c: Item, item: Item) {
    c.node == item.node && c.strength >= item.strength && c.depth <= item.depth
  }

  /** Some item after the first covers `item`. */
  ghost predicate Covered(items: seq<Item>, item: Item) {
    exists j :: 1 <= j < |items| && Covers(items[j], item)
  }

  /** Every edge out of an item's node leads to an item that covers it. */
  ghost predicate Expanded(adj: Adjacency, forward: bool, items: seq<Item>, item: Item) {
    forall e {:trigger Beyond(forward, item, e)} :: e in At(adj, item.node) ==> Covered(items, Beyond(forward, item, e))
  }

  /** The best strength of a node is that of its strongest item, the first item apart. */
  ghost predicate BestOf(items: seq<Item>, best: map<Node, real>) {
    && (forall i {:trigger items[i]} :: 1 <= i < |items| ==>
          items[i].node in best && items[i].strength <= best[items[i].node])
    && (forall v {:trigger best[v]} :: v in best ==>
          exists i :: 1 <= i < |items| && items[i].node == v && items[i].strength == best[v])
  }

  ghost predicate InOrder(items: seq<Item>, i: nat, j: nat)
    requires i < |items| && j < |items|
  {
    items[i].depth <= items[j].depth
  }

  /** Items are found in order of depth; none is deeper than one below the item at `k`. */
  ghost predicate Layered(items: seq<Item>, k: nat, depth: nat) {
    && (forall i, j {:trigger InOrder(items, i, j)} :: 0 <= i <= j < |items| ==> InOrder(items, i, j))
    && (forall i {:trigger items[i]} :: 0 <= i < |items| ==> items[i].depth <= depth && (i > 0 ==> items[i].depth >= 1))
    && (k < |items| ==> forall i {:trigger items[i]} :: 0 <= i < |items| ==> items[i].depth <= items[k].depth + 1)
  }

  /** The search after `k` items: all are sound, and the first `k` expanded as far as the depth allows. */
  ghost predicate Searching(es: seq<Edge>, adj: Adjacency, forward: bool, a: Node, depth: nat, items: seq<Item>, k: nat, best: map<Node, real>) {
    && k <= |items| && |items| >= 1 && items[0] == Item(a, 1.0, 0)
    && (forall i {:trigger Sound(es, forward, a, items[i])} :: 0 <= i < |items| ==> Sound(es, forward, a, items[i]))
    && (forall i {:trigger Expanded(adj, forward, items, items[i])} ::
          0 <= i < k ==> items[i].depth < depth ==> Expanded(adj, forward, items, items[i]))
    && BestOf(items, best)
    && Layered(items, k, depth)
  }

  lemma CoveredMore(items: seq<Item>, more: seq<Item>, item: Item)
    requires Covered(items, item)
    ensures Covered(items + more, item)
  {
    var j :| 1 <= j < |items| && Covers(items[j], item);
    assert (items + more)[j] == items[j];
  }

  lemma ExpandedMore(adj: Adjacency, forward: bool, items: seq<Item>, more: seq<Item>, item: Item)
    requires Expanded(adj, forward, items, item)
    ensures Expanded(adj, forward, items + more, item)
  {
    forall e | e in At(adj, item.node) ensures Covered(items + more, Beyond(forward, item, e)) {
      CoveredMore(items, more, Beyond(forward, item, e));
    }
  }

  lemma WalkAppend(es: seq<Edge>, forward: bool, a: Node, p: Path, b: Node, e: Edge)
    requires IsWalk(es, forward, a, p, b) && e in es && Near(e, forward) == b
    ensures IsWalk(es, forward, a, p + [e], Far(e, forward))
  {
  }

  lemma ExtendsWalk(es: seq<Edge>, forward: bool, a: Node, item: Item, e: Edge)
    requires Sound(es, forward, a, item) && e in es && Near(e, forward) == item.node
    ensures Sound(es, forward, a, Beyond(forward, item, e))
  {
    var p: Path :| ByWalk(es, forward, a, p, item);
    StrengthAppend(p, e);
    WalkAppend(es, forward, a, p, item.node, e);
    assert ByWalk(es, forward, a, p + [e], Beyond(forward, item, e));
  }

  // ---- Termination ---------------------------------------------------------

  /** Steps needed to follow everything below a node for `rest` more edges. */
  function Work(adj: Adjacency, forward: bool, n: Node, rest: nat): nat
    decreases rest, 1, 0
  {
    1 + if rest == 0 then 0 else WorkAll(adj, forward, At(adj, n), rest)
  }

  function WorkAll(adj: Adjacency, forward: bool, edges: seq<Edge>, rest: nat): nat
    requires rest > 0
    decreases rest, 0, |edges|
  {
    if edges == [] then 0
    else WorkAll(adj, forward, edges[..|edges| - 1], rest) + Work(adj, forward, Far(edges[|edges| - 1], forward), rest - 1)
  }

  function QueueWork(adj: Adjacency, forward: bool, depth: nat, queue: seq<Item>): nat {
    if queue == [] then 0
    else Work(adj, forward, queue[0].node, if queue[0].depth <= depth then depth - queue[0].depth else 0)
         + QueueWork(adj, forward, depth, queue[1..])
  }

  lemma {:induction false} QueueWorkJoin(adj: Adjacency, forward: bool, depth: nat, a: seq<Item>, b: seq<Item>)
    ensures QueueWork(adj, forward, depth, a + b) == QueueWork(adj, forward, depth, a) + QueueWork(adj, forward, depth, b)
  {
    if a == [] {
      assert a + b == b;
    } else {
      assert (a + b)[1..] == a[1..] + b;
      QueueWorkJoin(adj, forward, depth, a[1..], b);
    }
  }

  // ---- The search ----------------------------------------------------------

  ghost predicate FromEdges(forward: bool, item: Item, edges: seq<Edge>, next: Item) {
    exists i :: 0 <= i < |edges| && next == Beyond(forward, item, edges[i])
  }

  /** What following the first `i` edges of an item has added. */
  ghost predicate Expanding(forward: bool, items: seq<Item>, item: Item, edges: seq<Edge>, i: nat, pushed: seq<Item>, best: map<Node, real>)
    requires i <= |edges|
  {
    && BestOf(items + pushed, best)
    && (forall j {:trigger pushed[j]} :: 0 <= j < |pushed| ==>
          pushed[j].depth == item.depth + 1 && FromEdges(forward, item, edges, pushed[j]))
    && (forall j {:trigger edges[j]} :: 0 <= j < i ==> Covered(items + pushed, Beyond(forward, item, edges[j])))
  }

  /** An edge that improves nothing leads to a node already reached as strongly and as early. */
  lemma ExpandingIdle(forward: bool, items: seq<Item>, item: Item, edges: seq<Edge>, i: nat, pushed: seq<Item>, best: map<Node, real>)
    requires i < |edges| && |items| >= 1 && Expanding(forward, items, item, edges, i, pushed, best)
    requires forall j {:trigger items[j]} :: 0 <= j < |items| ==> items[j].depth <= item.depth + 1
    requires var next := Beyond(forward, item, edges[i]); next.node in best && next.strength <= best[next.node]
    ensures Expanding(forward, items, item, edges, i + 1, pushed, best)
  {
    var all, next := items + pushed, Beyond(forward, item, edges[i]);
    var k :| 1 <= k < |all| && all[k].node == next.node && all[k].strength == best[next.node];
    assert all[k] == if k < |items| then items[k] else pushed[k - |items|];
    assert Covers(all[k], next);
  }

  lemma ExpandingPush(forward: bool, items: seq<Item>, item: Item, edges: seq<Edge>, i: nat, pushed: seq<Item>, best: map<Node, real>)
    requires i < |edges| && |items| >= 1 && Expanding(forward, items, item, edges, i, pushed, best)
    requires var next := Beyond(forward, item, edges[i]); next.node in best ==> next.strength > best[next.node]
    ensures var next := Beyond(forward, item, edges[i]);
            Expanding(forward, items, item, edges, i + 1, pushed + [next], best[next.node := next.strength])
  {
    var all, next := items + pushed, Beyond(forward, item, edges[i]);
    assert items + (pushed + [next]) == all + [next];
    BestAdded(all, best, next);
    forall j | 0 <= j < i + 1 ensures Covered(all + [next], Beyond(forward, item, edges[j])) {
      if j < i {
        CoveredMore(all, [next], Beyond(forward, item, edges[j]));
      } else {
        assert (all + [next])[|all|] == next && Covers(next, next);
      }
    }
  }

  lemma BestAdded(all: seq<Item>, best: map<Node, real>, next: Item)
    requires |all| >= 1 && BestOf(all, best) && (next.node in best ==> next.strength > best[next.node])
    ensures BestOf(all + [next], best[next.node := next.strength])
  {
    var more, best' := all + [next], best[next.node := next.strength];
    forall v | v in best' ensures exists i :: 1 <= i < |more| && more[i].node == v && more[i].strength == best'[v] {
      if v == next.node {
        assert more[|all|] == next;
      } else {
        var i :| 1 <= i < |all| && all[i].node == v && all[i].strength == best[v];
        assert more[i] == all[i];
      }
    }
    forall i | 1 <= i < |more| ensures more[i].node in best' && more[i].strength <= best'[more[i].node] {
      assert i < |all| ==> more[i] == all[i];
    }
  }

  method NextItem(forward: bool, item: Item, e: Edge) returns (next: Item)
    ensures next == Beyond(forward, item, e)
  {
    var strength := Multiply(item.strength, e.strength);
    next := Item(Far(e, forward), strength, item.depth + 1);
  }

  lemma WorkPush(adj: Adjacency, forward: bool, depth: nat, item: Item, edges: seq<Edge>, i: nat, pushed: seq<Item>)
    requires item.depth < depth && i < |edges|
    requires QueueWork(adj, forward, depth, pushed) <= WorkAll(adj, forward, edges[..i], depth - item.depth)
    ensures QueueWork(adj, forward, depth, pushed) <= WorkAll(adj, forward, edges[..i + 1], depth - item.depth)
    ensures QueueWork(adj, forward, depth, pushed + [Beyond(forward, item, edges[i])])
         <= WorkAll(adj, forward, edges[..i + 1], depth - item.depth)
  {
    var next := Beyond(forward, item, edges[i]);
    QueueWorkJoin(adj, forward, depth, pushed, [next]);
    assert [next][1..] == [] && edges[..i + 1][..i] == edges[..i];
  }

  /** Follow every edge of one item, queueing each far end reached more strongly than before. */
  method ExpandItem(adj: Adjacency, forward: bool, depth: nat, ghost items: seq<Item>, item: Item, best0: map<Node, real>)
    returns (best: map<Node, real>, pushed: seq<Item>)
    requires |items| >= 1 && BestOf(items, best0) && item.depth < depth
    requires forall j {:trigger items[j]} :: 0 <= j < |items| ==> items[j].depth <= item.depth + 1
    ensures Expanding(forward, items, item, At(adj, item.node), |At(adj, item.node)|, pushed, best)
    ensures QueueWork(adj, forward, depth, pushed) < Work(adj, forward, item.node, depth - item.depth)
  {
    best, pushed := best0, [];
    var edges := At(adj, item.node);
    assert items + [] == items;
    for i := 0 to |edges|
      invariant Expanding(forward, items, item, edges, i, pushed, best)
      invariant QueueWork(adj, forward, depth, pushed) <= WorkAll(adj, forward, edges[..i], depth - item.depth)
    {
      var next := NextItem(forward, item, edges[i]);
      WorkPush(adj, forward, depth, item, edges, i, pushed);
      if next.node !in best || next.strength > best[next.node] {
        ExpandingPush(forward, items, item, edges, i, pushed, best);
        best := best[next.node := next.strength];
        pushed := pushed + [next];
      } else {
        ExpandingIdle(forward, items, item, edges, i, pushed, best);
      }
    }
    assert edges[..|edges|] == edges;
  }

  lemma SearchStarts(es: seq<Edge>, adj: Adjacency, forward: bool, a: Node, depth: nat)
    ensures Searching(es, adj, forward, a, depth, [Item(a, 1.0, 0)], 0, map[])
  {
    assert ByWalk(es, forward, a, [], Item(a, 1.0, 0));
  }

  /** Popping an item at the depth bound. */
  lemma SearchSkips(es: seq<Edge>, adj: Adjacency, forward: bool, a: Node, depth: nat, items: seq<Item>, k: nat, best: map<Node, real>)
    requires Searching(es, adj, forward, a, depth, items, k, best) && k < |items| && items[k].depth >= depth
    ensures Searching(es, adj, forward, a, depth, items, k + 1, best)
  {
    assert k + 1 < |items| ==> InOrder(items, k, k + 1);
  }

  lemma SearchLayers(items: seq<Item>, k: nat, depth: nat, pushed: seq<Item>)
    requires Layered(items, k, depth) && k < |items| && items[k].depth < depth
    requires forall j {:trigger pushed[j]} :: 0 <= j < |pushed| ==> pushed[j].depth == items[k].depth + 1
    ensures Layered(items + pushed, k + 1, depth)
  {
    var all := items + pushed;
    forall i | 0 <= i < |all| ensures all[i].depth <= items[k].depth + 1 && all[i].depth <= depth && (i > 0 ==> all[i].depth >= 1) {
      assert i >= |items| ==> all[i] == pushed[i - |items|];
    }
    forall i, j | 0 <= i <= j < |all| ensures InOrder(all, i, j) {
      assert j < |items| ==> InOrder(items, i, j);
      assert j >= |items| ==> all[j] == pushed[j - |items|];
    }
    assert k + 1 < |all| ==> InOrder(all, k, k + 1);
  }

  /** What an item's edges pushed is sound when the item is. */
  lemma PushedSound(es: seq<Edge>, adj: Adjacency, forward: bool, a: Node, item: Item, next: Item)
    requires Indexes(adj, es, forward) && Sound(es, forward, a, item)
    requires FromEdges(forward, item, At(adj, item.node), next)
    ensures Sound(es, forward, a, next)
  {
    var edges := At(adj, item.node);
    var j :| 0 <= j < |edges| && next == Beyond(forward, item, edges[j]);
    KeyedMember(es, item.node, forward, edges[j]);
    ExtendsWalk(es, forward, a, item, edges[j]);
  }

  lemma JustExpanded(adj: Adjacency, forward: bool, items: seq<Item>, item: Item)
    requires var edges := At(adj, item.node);
             forall j {:trigger edges[j]} :: 0 <= j < |edges| ==> Covered(items, Beyond(forward, item, edges[j]))
    ensures Expanded(adj, forward, items, item)
  {
    var edges := At(adj, item.node);
    forall e | e in edges ensures Covered(items, Beyond(forward, item, e)) {
      var j :| 0 <= j < |edges| && edges[j] == e;
    }
  }

  lemma SearchExpands(es: seq<Edge>, adj: Adjacency, forward: bool, a: Node, depth: nat, items: seq<Item>, k: nat, best: map<Node, real>,
                      pushed: seq<Item>, best': map<Node, real>)
    requires Indexes(adj, es, forward)
    requires Searching(es, adj, forward, a, depth, items, k, best) && k < |items| && items[k].depth < depth
    requires var edges := At(adj, items[k].node); Expanding(forward, items, items[k], edges, |edges|, pushed, best')
    ensures Searching(es, adj, forward, a, depth, items + pushed, k + 1, best')
  {
    var all, item := items + pushed, items[k];
    SearchLayers(items, k, depth, pushed);
    JustExpanded(adj, forward, all, item);
    forall i | 0 <= i < |all| ensures Sound(es, forward, a, all[i]) {
      assert Sound(es, forward, a, items[if i < |items| then i else k]);
      if i >= |items| {
        assert all[i] == pushed[i - |items|];
        PushedSound(es, adj, forward, a, item, all[i]);
      }
    }
    forall i | 0 <= i < k + 1 && all[i].depth < depth ensures Expanded(adj, forward, all, all[i]) {
      assert all[i] == items[i];
      if i < k {
        assert Expanded(adj, forward, items, items[i]);
        ExpandedMore(adj, forward, items, pushed, items[i]);
      }
    }
  }

  // ---- The search is exact -------------------------------------------------

  lemma TimesGrows(a: real, b: real, c: real)
    requires a >= b && c >= 0.0
    ensures Times(a, c) >= Times(b, c)
  {
    TimesIs(a, c);
    TimesIs(b, c);
  }

  lemma {:induction false} EveryWalkCovered(es: seq<Edge>, adj: Adjacency, forward: bool, a: Node, depth: nat, items: seq<Item>, p: Path, b: Node)
    requires Indexes(adj, es, forward) && NonNegative(es)
    requires |items| >= 1 && items[0] == Item(a, 1.0, 0)
    requires forall i {:trigger Expanded(adj, forward, items, items[i])} ::
               0 <= i < |items| ==> items[i].depth < depth ==> Expanded(adj, forward, items, items[i])
    requires WalkWithin(es, forward, a, p, b, depth)
    ensures Covered(items, Item(b, Strength(p), |p|))
    decreases |p|
  {
    var n, e := |p| - 1, p[|p| - 1];
    var q, u := p[..n], Turn(forward, a, p, n);
    var j := 0;
    if n > 0 {
      assert WalkWithin(es, forward, a, q, u, depth);
      EveryWalkCovered(es, adj, forward, a, depth, items, q, u);
      j :| 1 <= j < |items| && Covers(items[j], Item(u, Strength(q), n));
    }
    OneEdgeCovered(es, adj, forward, items, items[j], Item(u, Strength(q), n), e);
  }

  lemma OneEdgeCovered(es: seq<Edge>, adj: Adjacency, forward: bool, items: seq<Item>, c: Item, item: Item, e: Edge)
    requires Indexes(adj, es, forward) && NonNegative(es) && e in es && Near(e, forward) == item.node
    requires Covers(c, item) && Expanded(adj, forward, items, c)
    ensures Covered(items, Beyond(forward, item, e))
  {
    KeyedMember(es, item.node, forward, e);
    assert At(adj, item.node) == Keyed(es, item.node, forward);
    assert Covered(items, Beyond(forward, c, e));
    TimesGrows(c.strength, item.strength, e.strength);
    var i :| 1 <= i < |items| && Covers(items[i], Beyond(forward, c, e));
    assert Covers(items[i], Beyond(forward, item, e));
  }

  lemma SearchIsExact(es: seq<Edge>, adj: Adjacency, forward: bool, a: Node, depth: nat, items: seq<Item>, best: map<Node, real>)
    requires Indexes(adj, es, forward) && NonNegative(es)
    requires Searching(es, adj, forward, a, depth, items, |items|, best)
    ensures Strongest(es, forward, a, depth, best)
  {
    forall b, p: Path | WalkWithin(es, forward, a, p, b, depth) ensures b in best && Strength(p) <= best[b] {
      EveryWalkCovered(es, adj, forward, a, depth, items, p, b);
      var j :| 1 <= j < |items| && Covers(items[j], Item(b, Strength(p), |p|));
    }
    forall b | b in best ensures exists p: Path :: WalkWithin(es, forward, a, p, b, depth) && Strength(p) == best[b] {
      var i :| 1 <= i < |items| && items[i].node == b && items[i].strength == best[b];
      assert Sound(es, forward, a, items[i]);
      var p: Path :| ByWalk(es, forward, a, p, items[i]);
      assert WalkWithin(es, forward, a, p, b, depth);
    }
  }

  /** The items pushed for one item are together less work than it was. */
  ghost predicate Lighter(adj: Adjacency, forward: bool, depth: nat, item: Item, pushed: seq<Item>) {
    && item.depth <= depth
    && (pushed == [] || QueueWork(adj, forward, depth, pushed) < Work(adj, forward, item.node, depth - item.depth))
  }

  lemma PopWork(adj: Adjacency, forward: bool, depth: nat, queue: seq<Item>, item: Item, pushed: seq<Item>, queue': seq<Item>)
    requires queue != [] && item == queue[0] && Lighter(adj, forward, depth, item, pushed)
    requires queue' == queue[1..] + pushed
    ensures QueueWork(adj, forward, depth, queue') < QueueWork(adj, forward, depth, queue)
  {
    QueueWorkJoin(adj, forward, depth, queue[1..], pushed);
  }

  /** What one item adds: nothing at the depth bound, else the far ends it improves. */
  method Visit(adj: Adjacency, ghost es: seq<Edge>, forward: bool, ghost start: Node, maxDepth: nat,
               ghost items: seq<Item>, ghost k: nat, item: Item, best0: map<Node, real>)
    returns (best: map<Node, real>, pushed: seq<Item>)
    requires Indexes(adj, es, forward) && Searching(es, adj, forward, start, maxDepth, items, k, best0)
    requires k < |items| && items[k] == item
    ensures Searching(es, adj, forward, start, maxDepth, items + pushed, k + 1, best)
    ensures Lighter(adj, forward, maxDepth, item, pushed)
  {
    if item.depth >= maxDepth {
      best, pushed := best0, [];
      SearchSkips(es, adj, forward, start, maxDepth, items, k, best);
      assert items + [] == items;
    } else {
      best, pushed := ExpandItem(adj, forward, maxDepth, items, item, best0);
      SearchExpands(es, adj, forward, start, maxDepth, items, k, best0, pushed, best);
    }
  }

  /** A search whose queue holds what follows the first `k` of its items. */
  datatype Search = Search(es: seq<Edge>, adj: Adjacency, forward: bool, start: Node, depth: nat, items: seq<Item>, k: nat)

  ghost predicate Holds(s: Search, queue: seq<Item>, best: map<Node, real>) {
    s.k <= |s.items| && queue == s.items[s.k..]
    && Searching(s.es, s.adj, s.forward, s.start, s.depth, s.items, s.k, best)
  }

  lemma PopSlice(items: seq<Item>, k: nat, queue: seq<Item>, pushed: seq<Item>)
    requires k < |items| && queue == items[k..]
    ensures queue[1..] + pushed == (items + pushed)[k + 1..]
  {
  }

  /** Take one item off the queue. */
  method Round(adj: Adjacency, forward: bool, maxDepth: nat, ghost s: Search, queue0: seq<Item>, best0: map<Node, real>)
    returns (best: map<Node, real>, queue: seq<Item>, ghost items: seq<Item>)
    requires s.adj == adj && s.forward == forward && s.depth == maxDepth && Indexes(adj, s.es, forward)
    requires Holds(s, queue0, best0) && queue0 != []
    ensures Holds(s.(items := items, k := s.k + 1), queue, best)
    ensures QueueWork(adj, forward, maxDepth, queue) < QueueWork(adj, forward, maxDepth, queue0)
  {
    var item, pushed := queue0[0], [];
    best, pushed := Visit(adj, s.es, forward, s.start, maxDepth, s.items, s.k, item, best0);
    queue := queue0[1..] + pushed;
    items := s.items + pushed;
    PopWork(adj, forward, maxDepth, queue0, item, pushed, queue);
    PopSlice(s.items, s.k, queue0, pushed);
  }

  method BfsReachable(start: Node, maxDepth: nat, adj: Adjacency, ghost es: seq<Edge>, forward: bool) returns (best: map<Node, real>)
    requires Indexes(adj, es, forward)
    ensures NonNegative(es) ==> Strongest(es, forward, start, maxDepth, best)
  {
    best := map[];
    var queue := [Item(start, 1.0, 0)];
    ghost var s := Search(es, adj, forward, start, maxDepth, queue, 0);
    SearchStarts(es, adj, forward, start, maxDepth);
    while queue != []
      invariant s == Search(es, adj, forward, start, maxDepth, s.items, s.k) && Holds(s, queue, best)
      decreases QueueWork(adj, forward, maxDepth, queue)
    {
      ghost var items;
      best, queue, items := Round(adj, forward, maxDepth, s, queue, best);
      s := s.(items := items, k := s.k + 1);
    }
    if NonNegative(es) {
      SearchIsExact(es, adj, forward, start, maxDepth, s.items, best);
    }
  }

  // ---- Duality -------------------------------------------------------------

  function Reversed(p: Path): Path { if p == [] then [] else Reversed(p[1..]) + [p[0]] }

  lemma {:induction false} ReversedAt(p: Path)
    ensures |Reversed(p)| == |p|
    ensures forall i :: 0 <= i < |p| ==> Reversed(p)[i] == p[|p| - 1 - i]
  {
    if p != [] {
      ReversedAt(p[1..]);
    }
  }

  lemma {:induction false} ReversedStrength(p: Path)
    ensures Strength(Reversed(p)) == Strength(p)
    decreases |p|
  {
    if p != [] {
      ReversedStrength(p[1..]);
      StrengthAppend(Reversed(p[1..]), p[0]);
      StrengthFromFront(p);
    }
  }

  lemma {:induction false} StrengthFromFront(p: Path)
    requires p != []
    ensures Strength(p) == Times(Strength(p[1..]), p[0].strength)
    decreases |p|
  {
    var n := |p| - 1;
    if n == 0 {
      assert p[..0] == [] && p[1..] == [];
    } else {
      var s := Strength(p[1..n]);
      StrengthFromFront(p[..n]);
      assert p[..n][1..] == p[1..n];
      assert p[1..][..n - 1] == p[1..n];
      TimesAssociates(s, p[0].strength, p[n].strength);
      TimesAssociates(s, p[n].strength, p[0].strength);
      TimesAssociates(p[0].strength, p[n].strength, 0.0);
    }
  }

  lemma ReversedEdge(es: seq<Edge>, forward: bool, a: Node, p: Path, b: Node, i: nat)
    requires IsWalk(es, forward, a, p, b) && i < |p| && |Reversed(p)| == |p|
    requires forall j :: 0 <= j < |p| ==> Reversed(p)[j] == p[|p| - 1 - j]
    ensures var r := Reversed(p); r[i] in es && Near(r[i], !forward) == Turn(!forward, b, r, i)
  {
    var r, k := Reversed(p), |p| - 1 - i;
    assert r[i] == p[k] && p[k] in es;
    if i > 0 {
      assert r[i - 1] == p[k + 1];
      assert Near(p[k + 1], forward) == Turn(forward, a, p, k + 1);
    }
  }

  lemma WalkReversed(es: seq<Edge>, forward: bool, a: Node, p: Path, b: Node, depth: nat)
    requires WalkWithin(es, forward, a, p, b, depth)
    ensures WalkWithin(es, !forward, b, Reversed(p), a, depth) && Strength(Reversed(p)) == Strength(p)
  {
    ReversedAt(p);
    ReversedStrength(p);
    var r := Reversed(p);
    forall i | 0 <= i < |r| ensures r[i] in es && Near(r[i], !forward) == Turn(!forward, b, r, i) {
      ReversedEdge(es, forward, a, p, b, i);
    }
    assert r[|r| - 1] == p[0] && Near(p[0], forward) == Turn(forward, a, p, 0);
  }

  /** Turning the walks round, each direction bounds the other. */
  lemma DualHalf(es: seq<Edge>, forward: bool, back: bool, a: Node, b: Node, depth: nat, here: map<Node, real>, there: map<Node, real>)
    requires back != forward && Strongest(es, forward, a, depth, here) && b in here
    requires forall p: Path {:trigger WalkWithin(es, back, b, p, a, depth)} ::
               WalkWithin(es, back, b, p, a, depth) ==> a in there && Strength(p) <= there[a]
    ensures a in there && here[b] <= there[a]
  {
    var p: Path :| WalkWithin(es, forward, a, p, b, depth) && Strength(p) == here[b];
    WalkReversed(es, forward, a, p, b, depth);
    assert WalkWithin(es, back, b, Reversed(p), a, depth);
  }

  /** `causes_of` is the exact dual of `effects_of`. */
  lemma Dual(es: seq<Edge>, a: Node, b: Node, depth: nat, effects: map<Node, real>, causes: map<Node, real>)
    requires Strongest(es, true, a, depth, effects) && Strongest(es, false, b, depth, causes)
    ensures b in effects <==> a in causes
    ensures b in effects && a in causes ==> effects[b] == causes[a]
  {
    if b in effects {
      DualHalf(es, true, false, a, b, depth, effects, causes);
    }
    if a in causes {
      DualHalf(es, false, true, b, a, depth, causes, effects);
    }
  }
}
