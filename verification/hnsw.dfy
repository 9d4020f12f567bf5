/** The layered index: insertion, lazy deletion, compaction and nearest-neighbour queries. */
module Hnsw {
  import opened Heaps
  import opened HnswSearch
  import opened HnswLinks

  datatype Option<+T> = None | Some(value: T)

  datatype EntryPoint = EntryPoint(id: Id, layer: nat)

  type Layers = seq<Layer>

  // ---- The structural invariant ----------------------------------------------

  function Cap(m: nat, layer: nat): nat { if layer == 0 then 2 * m else m }

  ghost predicate LevelOk(layers: Layers, stored: set<Id>, m: nat, l: nat)
    requires l < |layers|
  {
    LayerOk(layers[l], if l == 0 then 2 * m else m) && layers[l].Keys <= stored
  }

  ghost predicate Levels(layers: Layers, stored: set<Id>, m: nat) {
    forall l {:trigger LevelOk(layers, stored, m, l)} :: 0 <= l < |layers| ==> LevelOk(layers, stored, m, l)
  }

  ghost predicate NestedAt(layers: Layers, l: nat)
    requires 0 < l < |layers|
  {
    layers[l].Keys <= layers[l - 1].Keys
  }

  /** Every layer's nodes are also in the layer below. */
  ghost predicate Nested(layers: Layers) {
    forall l {:trigger NestedAt(layers, l)} :: 0 < l < |layers| ==> NestedAt(layers, l)
  }

  /** Layer 0 holds every stored node. */
  ghost predicate Rooted(layers: Layers, stored: set<Id>) {
    stored == if layers == [] then {} else layers[0].Keys
  }

  /** The entry point is in the topmost nonempty layer; there is none exactly when nothing is stored. */
  ghost predicate EntryOk(layers: Layers, stored: set<Id>, entry: Option<EntryPoint>) {
    match entry
    case None => stored == {}
    case Some(ep) =>
      && ep.layer < |layers| && ep.id in layers[ep.layer]
      && forall l {:trigger EmptyAt(layers, l)} :: ep.layer < l < |layers| ==> EmptyAt(layers, l)
  }

  ghost predicate EmptyAt(layers: Layers, l: nat)
    requires l < |layers|
  {
    layers[l] == map[]
  }

  ghost predicate WellFormed(layers: Layers, stored: set<Id>, m: nat, entry: Option<EntryPoint>) {
    Levels(layers, stored, m) && Nested(layers) && Rooted(layers, stored) && EntryOk(layers, stored, entry)
  }

  lemma {:induction false} NestedDown(layers: Layers, hi: nat, lo: nat)
    requires Nested(layers) && lo <= hi < |layers|
    ensures layers[hi].Keys <= layers[lo].Keys
  {
    if lo < hi {
      assert NestedAt(layers, hi);
      NestedDown(layers, hi - 1, lo);
    }
  }

  // ---- Compaction ------------------------------------------------------------

  function Survivors(list: seq<Id>, dead: set<Id>): (r: seq<Id>)
    ensures |r| <= |list| && forall x :: x in r <==> x in list && x !in dead
  {
    if list == [] then []
    else Survivors(list[..|list| - 1], dead) + if list[|list| - 1] in dead then [] else [list[|list| - 1]]
  }

  function Purged(layer: Layer, dead: set<Id>): Layer {
    map x | x in layer && x !in dead :: Survivors(layer[x], dead)
  }

  lemma PurgedOk(layer: Layer, cap: nat, dead: set<Id>)
    requires LayerOk(layer, cap)
    ensures LayerOk(Purged(layer, dead), cap) && Purged(layer, dead).Keys == layer.Keys - dead
  {
    forall x | x in Purged(layer, dead) ensures ListOk(Purged(layer, dead), cap, x) {
      assert ListOk(layer, cap, x);
    }
  }

  ghost predicate PurgedAt(before: Layers, after: Layers, dead: set<Id>, l: nat)
    requires l < |before| && l < |after|
  {
    after[l] == Purged(before[l], dead)
  }

  ghost predicate AllPurged(before: Layers, after: Layers, dead: set<Id>) {
    && |after| == |before|
    && forall l {:trigger PurgedAt(before, after, dead, l)} :: 0 <= l < |after| ==> PurgedAt(before, after, dead, l)
  }

  lemma PurgedWellFormed(before: Layers, after: Layers, stored: set<Id>, dead: set<Id>, m: nat)
    requires Levels(before, stored, m) && Nested(before) && Rooted(before, stored) && AllPurged(before, after, dead)
    ensures Levels(after, stored - dead, m) && Nested(after) && Rooted(after, stored - dead)
  {
    forall l | 0 <= l < |after| ensures LevelOk(after, stored - dead, m, l) {
      assert LevelOk(before, stored, m, l) && PurgedAt(before, after, dead, l);
      PurgedOk(before[l], Cap(m, l), dead);
    }
    forall l | 0 < l < |after| ensures NestedAt(after, l) {
      assert NestedAt(before, l) && PurgedAt(before, after, dead, l) && PurgedAt(before, after, dead, l - 1);
    }
    assert after != [] ==> PurgedAt(before, after, dead, 0);
  }

  lemma HasKey(layer: Layer)
    requires layer != map[]
    ensures layer.Keys != {}
  {
    assert layer.Keys == {} ==> layer == map[];
  }

  /** A node of the topmost nonempty layer. */
  method HighestSurvivor(layers: Layers, ghost stored: set<Id>) returns (entry: Option<EntryPoint>)
    requires Nested(layers) && Rooted(layers, stored)
    ensures EntryOk(layers, stored, entry)
  {
    var l := |layers|;
    while l > 0
      invariant 0 <= l <= |layers|
      invariant forall k {:trigger EmptyAt(layers, k)} :: l <= k < |layers| ==> EmptyAt(layers, k)
    {
      l := l - 1;
      if layers[l] != map[] {
        HasKey(layers[l]);
        var id :| id in layers[l].Keys;
        return Some(EntryPoint(id, l));
      }
    }
    assert layers != [] ==> EmptyAt(layers, 0);
    return None;
  }

  // ---- Queries ---------------------------------------------------------------

  const USIZE_MAX: nat := 0xFFFF_FFFF_FFFF_FFFF

  /** k / (1 - recall) rounded up, as the float conversion gives it: saturated, and 0 for NaN. */
  function Adaptive(k: nat, recall: real): nat {
    if recall < 1.0 then Min(Ceil(k as real / (1.0 - recall)), USIZE_MAX)
    else if recall == 1.0 && k > 0 then USIZE_MAX
    else 0
  }

  /** How wide to search for `k` results. */
  function Width(k: nat, recall: real): nat {
    if recall > 0.9 then Max(Max(Adaptive(k, recall), 4 * k), 64) else Max(2 * k, 16)
  }

  /** The width is the least that serves: for high recall at least 4k, 64 and k / (1 - recall), else 2k and 16. */
  lemma WidthIsLeast(k: nat, recall: real, w: nat)
    ensures recall <= 0.9 ==> (Width(k, recall) <= w <==> w >= 2 * k && w >= 16)
    ensures 0.9 < recall < 1.0 ==>
              (Width(k, recall) <= w <==>
                 w >= 4 * k && w >= 64 && (w >= USIZE_MAX || w as real >= k as real / (1.0 - recall)))
    ensures recall == 1.0 ==> (Width(k, recall) <= w <==> w >= 4 * k && w >= 64 && (k > 0 ==> w >= USIZE_MAX))
    ensures recall > 1.0 ==> (Width(k, recall) <= w <==> w >= 4 * k && w >= 64)
  {
  }

  function Min(a: nat, b: nat): nat { if a <= b then a else b }

  function Max(a: nat, b: nat): nat { if a >= b then a else b }

  function Ceil(x: real): nat {
    if x <= 0.0 then 0 else if x.Floor as real == x then x.Floor else x.Floor + 1
  }

  function LiveOf(s: seq<Item>, tombstones: set<Id>, k: nat): seq<Item> {
    if s == [] || k == 0 then []
    else if s[0].id in tombstones then LiveOf(s[1..], tombstones, k)
    else [s[0]] + LiveOf(s[1..], tombstones, k - 1)
  }

  /** `r` is made of live items of `s`, in order. */
  ghost predicate LivePart(s: seq<Item>, tombstones: set<Id>, r: seq<Item>) {
    Ascending(r) && forall x :: x in r ==> x in s && x.id !in tombstones
  }

  /** A live item left out comes after all `k` taken. */
  ghost predicate NothingMissed(s: seq<Item>, tombstones: set<Id>, k: nat, r: seq<Item>) {
    forall y :: y in s && y.id !in tombstones && y !in r ==> |r| == k && forall x :: x in r ==> Before(x, y)
  }

  lemma {:induction false} LiveOfOk(s: seq<Item>, tombstones: set<Id>, k: nat)
    requires Ascending(s)
    ensures var r := LiveOf(s, tombstones, k);
            |r| <= k && LivePart(s, tombstones, r) && NothingMissed(s, tombstones, k, r)
    decreases |s|
  {
    if s == [] || k == 0 {
    } else if s[0].id in tombstones {
      FirstOfAll(s);
      LiveOfOk(s[1..], tombstones, k);
    } else {
      FirstOfAll(s);
      LiveOfOk(s[1..], tombstones, k - 1);
      LiveOfTakes(s, tombstones, k, LiveOf(s[1..], tombstones, k - 1));
    }
  }

  lemma FirstOfAll(s: seq<Item>)
    requires s != [] && Ascending(s)
    ensures Ascending(s[1..])
    ensures forall x :: x in s <==> x == s[0] || x in s[1..]
    ensures forall x :: x in s[1..] ==> Before(s[0], x)
  {
    assert s == [s[0]] + s[1..];
  }

  lemma LiveOfTakes(s: seq<Item>, tombstones: set<Id>, k: nat, rest: seq<Item>)
    requires s != [] && Ascending(s) && s[0].id !in tombstones && k > 0
    requires LivePart(s[1..], tombstones, rest) && NothingMissed(s[1..], tombstones, k - 1, rest)
    ensures LivePart(s, tombstones, [s[0]] + rest) && NothingMissed(s, tombstones, k, [s[0]] + rest)
  {
    FirstOfAll(s);
    assert forall j :: 0 <= j < |rest| ==> rest[j] in rest;
  }

  // ---- Insertion -------------------------------------------------------------

  /** The layers with an unlinked node added to all up to its own. */
  ghost predicate StoredInto(before: Layers, after: Layers, id: Id, top: nat) {
    && |after| == (if |before| > top then |before| else top + 1)
    && forall l {:trigger after[l]} :: 0 <= l < |after| ==>
         after[l] == if l <= top && (l >= |before| || id !in before[l]) then LayerAt(before, l)[id := []] else LayerAt(before, l)
  }

  /** The layer holding the node, with an empty list if it is new to it. */
  function With(layer: Layer, id: Id): Layer { if id in layer then layer else layer[id := []] }

  function LayerAt(layers: Layers, l: nat): Layer { if l < |layers| then layers[l] else map[] }

  method AddToLayers(layers0: Layers, id: Id, top: nat) returns (layers: Layers)
    ensures StoredInto(layers0, layers, id, top)
  {
    layers := layers0;
    while |layers| <= top
      invariant |layers| >= |layers0| && (|layers| > |layers0| ==> |layers| <= top + 1)
      invariant forall l {:trigger layers[l]} :: 0 <= l < |layers| ==> layers[l] == LayerAt(layers0, l)
      decreases top + 1 - |layers|
    {
      layers := layers + [map[]];
    }
    for l := 0 to top + 1
      invariant |layers| == if |layers0| > top then |layers0| else top + 1
      invariant forall k {:trigger layers[k]} :: 0 <= k < |layers| ==>
                  layers[k] == if k < l then With(LayerAt(layers0, k), id) else LayerAt(layers0, k)
    {
      layers := layers[l := With(layers[l], id)];
    }
  }

  /** The layers with an unlinked node in all up to its own. */
  ghost function StoredLayers(layers: Layers, id: Id, top: nat): Layers {
    seq(if |layers| > top then |layers| else top + 1,
        l requires 0 <= l =>
          if l <= top && (l >= |layers| || id !in layers[l]) then LayerAt(layers, l)[id := []] else LayerAt(layers, l))
  }

  /** The entry point once a node of layer `top` is in: the first node, and then any that is higher. */
  function Raised(entry: Option<EntryPoint>, id: Id, top: nat): Option<EntryPoint> {
    match entry
    case None => Some(EntryPoint(id, top))
    case Some(ep) => if top > ep.layer then Some(EntryPoint(id, top)) else entry
  }

  /** A layer the new node is stored in but not linked into. */
  ghost predicate Waiting(layer: Layer, id: Id) {
    id in layer && layer[id] == [] && Unlinked(layer, id)
  }

  /** The layers just after a new node was stored. */
  ghost predicate LinkReady(before: Layers, after: Layers, stored: set<Id>, m: nat, entry: Option<EntryPoint>, id: Id, top: nat) {
    && WellFormed(before, stored, m, entry) && id !in stored && StoredInto(before, after, id, top)
    && Levels(after, stored + {id}, m) && Nested(after) && Rooted(after, stored + {id})
    && forall l {:trigger after[l]} :: 0 <= l <= top ==> Waiting(after[l], id)
  }

  lemma StoredWellFormed(before: Layers, after: Layers, stored: set<Id>, m: nat, entry: Option<EntryPoint>, id: Id, top: nat)
    requires WellFormed(before, stored, m, entry) && id !in stored && StoredInto(before, after, id, top)
    ensures LinkReady(before, after, stored, m, entry, id, top)
    ensures entry.None? ==> WellFormed(after, stored + {id}, m, Some(EntryPoint(id, top)))
  {
    forall l | 0 <= l < |after|
      ensures LevelOk(after, stored + {id}, m, l) && (l <= top ==> Waiting(after[l], id))
    {
      assert l < |before| ==> LevelOk(before, stored, m, l);
      StoredLayer(LayerAt(before, l), after[l], stored, id, Cap(m, l));
    }
    forall l | 0 < l < |after| ensures NestedAt(after, l) {
      assert l < |before| ==> NestedAt(before, l);
    }
    if entry.None? {
      forall l | top < l < |after| ensures EmptyAt(after, l) {
        assert LevelOk(before, stored, m, l);
        assert before[l].Keys == {};
      }
    }
  }

  lemma StoredLayer(layer: Layer, layer': Layer, stored: set<Id>, id: Id, cap: nat)
    requires LayerOk(layer, cap) && layer.Keys <= stored && id !in stored
    requires layer' == With(layer, id) || layer' == layer
    ensures LayerOk(layer', cap) && layer'.Keys <= stored + {id}
    ensures id in layer' ==> Waiting(layer', id)
  {
    forall x | x in layer' ensures ListOk(layer', cap, x) && id !in layer'[x] {
      assert x in layer ==> ListOk(layer, cap, x);
    }
  }

  /** Nothing found from other nodes is a node nobody lists. */
  lemma FoundOthers(b: Beam, out: seq<Item>, id: Id)
    requires Found(b, out) && Unlinked(b.graph, id) && id !in b.starts
    ensures id !in Ids(out)
  {
    if id in Ids(out) {
      assert Reached(b.graph, b.starts, id);
      var p: seq<Id> :| ChainTo(b.graph, b.starts, p, id);
      LastIsListed(b, p, id);
    }
  }

  lemma LastIsListed(b: Beam, p: seq<Id>, id: Id)
    requires ChainTo(b.graph, b.starts, p, id) && Unlinked(b.graph, id)
    ensures id in b.starts
  {
    LastStep(b.graph, b.starts, p, id);
  }

  lemma FoundInside(b: Beam, out: seq<Item>)
    requires Ready(b) && Found(b, out)
    ensures Ids(out) <= Everything(b)
    ensures (forall x :: x in b.starts ==> x !in b.graph) ==> Ids(out) <= b.starts
  {
    forall x | x in Ids(out)
      ensures x in Everything(b) && ((forall y :: y in b.starts ==> y !in b.graph) ==> x in b.starts)
    {
      assert Reached(b.graph, b.starts, x);
      var p: seq<Id> :| ChainTo(b.graph, b.starts, p, x);
      ReachedKnown(b, p, x);
      if |p| > 1 {
        assert p[0 + 1] in Neighbours(b.graph, p[0]);
      }
    }
  }

  lemma DistinctIds(sp: Space, query: Vec, s: seq<Item>)
    requires Ascending(s) && AllMeasured(sp, query, s)
    ensures forall i, j :: 0 <= i < j < |s| ==> s[i].id != s[j].id
  {
    MeasuredOnce(sp, query, s);
    forall i, j | 0 <= i < j < |s| ensures s[i].id != s[j].id {
      assert Before(s[i], s[j]) && s[i] in s && s[j] in s;
    }
  }

  /** Items usable as entry candidates for a new node. */
  ghost predicate Entries(sp: Space, query: Vec, id: Id, entries: seq<Item>) {
    entries != [] && AllMeasured(sp, query, entries) && id !in Ids(entries)
  }

  /** The new node's nearest found nodes, joined to it; no other list of the layer changed. */
  ghost predicate LayerLinked(sp: Space, graph0: Layer, graph: Layer, cap: nat, m: nat, id: Id, found: seq<Item>) {
    var chosen := found[..Min(|found|, m)];
    Joined(sp, graph, cap, id, chosen) && Relinked(sp, graph0, graph, cap, id, Ids(chosen))
  }

  /** What a search of the given width from the given nodes may find: reachable nodes, and none better next to them. */
  ghost predicate FoundFrom(sp: Space, graph: Layer, query: Vec, width: nat, starts: set<Id>, found: seq<Item>) {
    && Ascending(found) && AllMeasured(sp, query, found) && NoBetterNext(sp, graph, query, width, found)
    && forall x {:trigger Reached(graph, starts, x)} :: x in Ids(found) ==> Reached(graph, starts, x)
  }

  /** Search one layer for the new node's neighbours and join it to the nearest. */
  method LinkLayer(sp: Space, graph0: Layer, cap: nat, m: nat, width: nat, id: Id, vector: Vec, entries: seq<Item>)
    returns (graph: Layer, found: seq<Item>)
    requires LayerOk(graph0, cap) && graph0.Keys <= sp.vectors.Keys && Waiting(graph0, id) && m <= cap
    requires Entries(sp, vector, id, entries)
    ensures LayerOk(graph, cap) && graph.Keys == graph0.Keys + Ids(found[..Min(|found|, m)])
    ensures Entries(sp, vector, id, found) && FoundFrom(sp, graph0, vector, width, Ids(entries), found)
    ensures LayerLinked(sp, graph0, graph, cap, m, id, found)
    ensures Ids(found) <= graph0.Keys + Ids(entries)
    ensures (forall x :: x in Ids(entries) ==> x !in graph0) ==> Ids(found) <= Ids(entries)
  {
    LayerKnown(sp, graph0, cap);
    ghost var b := Beam(sp, graph0, vector, Ids(entries), width);
    found := SearchLayer(sp, graph0, vector, entries, width, b);
    assert Ready(b) by {
      forall x | x in entries ensures x.id in sp.vectors {
        assert Measured(sp, vector, x);
      }
    }
    FoundOthers(b, found, id);
    FoundInside(b, found);
    DistinctIds(sp, vector, found);
    forall i | 0 <= i < |found| ensures found[i].id in sp.vectors && found[i].id != id {
      assert found[i] in found && Measured(sp, vector, found[i]);
    }
    graph := ConnectAll(sp, graph0, cap, id, found, Min(|found|, m));
  }

  /**
   * A new node stored in the layers `before`, to be linked into those up to `top` by searches of the given
   * width, the first of them from `ep`; the entry point of the index is of layer `epLayer`.
   */
  datatype Task = Task(sp: Space, before: Layers, m: nat, width: nat, id: Id, top: nat, ep: Id, epLayer: nat)

  /** Where the search of layer `l` starts: the first one at the task's entry, the next at what was found above. */
  ghost function Starts(t: Task, founds: map<nat, seq<Item>>, l: nat): set<Id> {
    if l < t.top && l + 1 in founds then Ids(founds[l + 1]) else {t.ep}
  }

  /** The new node is joined to the nearest of the nodes found in the layer. */
  ghost predicate JoinedAt(t: Task, layers: Layers, founds: map<nat, seq<Item>>, l: nat) {
    && l in founds && l < |layers| && l < |t.before| && t.id in t.sp.vectors
    && Entries(t.sp, t.sp.vectors[t.id], t.id, founds[l])
    && FoundFrom(t.sp, t.before[l], t.sp.vectors[t.id], t.width, Starts(t, founds, l), founds[l])
    && LayerLinked(t.sp, t.before[l], layers[l], if l == 0 then 2 * t.m else t.m, t.m, t.id, founds[l])
  }

  ghost predicate JoinedBy(t: Task, layers: Layers, founds: map<nat, seq<Item>>) {
    forall l {:trigger JoinedAt(t, layers, founds, l)} :: 0 <= l <= t.top ==> JoinedAt(t, layers, founds, l)
  }

  /** The node is joined in every layer up to its own; the layers above are as they were. */
  ghost predicate JoinedUpTo(t: Task, layers: Layers) {
    && |layers| == |t.before|
    && (forall l {:trigger layers[l]} :: t.top < l < |layers| ==> layers[l] == t.before[l])
    && exists founds: map<nat, seq<Item>> :: JoinedBy(t, layers, founds)
  }

  /** What holds before any layer is linked. */
  ghost predicate TaskOk(t: Task) {
    && t.top < |t.before| && t.epLayer < |t.before| && t.id in t.sp.vectors && t.ep != t.id
    && Levels(t.before, t.sp.vectors.Keys, t.m) && Nested(t.before)
    && (forall l {:trigger t.before[l]} :: 0 <= l <= t.top ==> Waiting(t.before[l], t.id))
    && (forall l {:trigger t.before[l]} :: t.epLayer < l <= t.top ==> t.before[l].Keys == {t.id})
    && t.ep in t.before[if t.top < t.epLayer then t.top else t.epLayer]
  }

  /** Where the entry candidates for layer `l` lie. */
  ghost predicate EntriesFor(t: Task, l: nat, ids: set<Id>)
    requires l < |t.before|
  {
    if l > t.epLayer then ids == {t.ep} else ids <= t.before[l].Keys
  }

  /** The nodes a linked layer holds: at most the entry point is new to it. */
  ghost predicate KeysAfter(t: Task, layers: Layers, l: nat)
    requires l < |t.before| && l < |layers|
  {
    layers[l].Keys == if l > t.epLayer && t.m > 0 then {t.id, t.ep} else t.before[l].Keys
  }

  /** Layers from `next` up are linked, those below are untouched. */
  ghost predicate Linking(t: Task, layers: Layers, founds: map<nat, seq<Item>>, next: nat) {
    && |layers| == |t.before| > t.top && next <= t.top + 1 && t.id in t.sp.vectors
    && Levels(layers, t.sp.vectors.Keys, t.m)
    && (forall l {:trigger layers[l]} :: 0 <= l < next || t.top < l < |layers| ==> layers[l] == t.before[l])
    && (forall l {:trigger l in founds} :: l in founds <==> next <= l <= t.top)
    && (forall l {:trigger JoinedAt(t, layers, founds, l)} :: next <= l <= t.top ==> JoinedAt(t, layers, founds, l))
    && (forall l {:trigger KeysAfter(t, layers, l)} :: next <= l <= t.top ==> KeysAfter(t, layers, l))
  }

  lemma FoundKeys(t: Task, l: nat, entries: seq<Item>, found: seq<Item>, keys: set<Id>)
    requires TaskOk(t) && l <= t.top && EntriesFor(t, l, Ids(entries))
    requires Entries(t.sp, t.sp.vectors[t.id], t.id, found) && Ascending(found)
    requires Ids(found) <= t.before[l].Keys + Ids(entries)
    requires (forall x :: x in Ids(entries) ==> x !in t.before[l]) ==> Ids(found) <= Ids(entries)
    requires keys == t.before[l].Keys + Ids(found[..Min(|found|, t.m)])
    ensures keys == if l > t.epLayer && t.m > 0 then {t.id, t.ep} else t.before[l].Keys
    ensures l > 0 ==> EntriesFor(t, l - 1, Ids(found))
  {
    assert Waiting(t.before[l], t.id);
    var chosen := found[..Min(|found|, t.m)];
    assert Ids(chosen) <= Ids(found);
    if l > t.epLayer {
      assert t.before[l].Keys == {t.id};
      assert Ids(found) <= {t.ep};
      assert found[0] in found && found[0].id in Ids(found);
      assert t.m > 0 ==> chosen[0] == found[0] && chosen[0] in chosen;
      assert t.m == 0 ==> chosen == [];
      assert l - 1 == t.epLayer ==> t.ep in t.before[t.epLayer];
    } else if l > 0 {
      assert NestedAt(t.before, l);
    }
  }

  /** Link one more layer. */
  method LinkNext(t: Task, layers0: Layers, l: nat, entries: seq<Item>, ghost founds0: map<nat, seq<Item>>)
    returns (layers: Layers, found: seq<Item>, ghost founds: map<nat, seq<Item>>)
    requires TaskOk(t) && l <= t.top && Linking(t, layers0, founds0, l + 1)
    requires Entries(t.sp, t.sp.vectors[t.id], t.id, entries) && EntriesFor(t, l, Ids(entries))
    requires Ids(entries) == Starts(t, founds0, l)
    ensures Linking(t, layers, founds, l) && founds == founds0[l := found]
    ensures Entries(t.sp, t.sp.vectors[t.id], t.id, found) && (l > 0 ==> EntriesFor(t, l - 1, Ids(found)))
  {
    assert LevelOk(layers0, t.sp.vectors.Keys, t.m, l) && layers0[l] == t.before[l];
    assert Waiting(t.before[l], t.id);
    var graph;
    graph, found := LinkLayer(t.sp, layers0[l], Cap(t.m, l), t.m, t.width, t.id, t.sp.vectors[t.id], entries);
    FoundKeys(t, l, entries, found, graph.Keys);
    layers := layers0[l := graph];
    founds := founds0[l := found];
    LinkedOne(t, layers0, layers, founds0, l, found);
  }

  lemma LinkedOne(t: Task, layers0: Layers, layers: Layers, founds: map<nat, seq<Item>>, l: nat, found: seq<Item>)
    requires TaskOk(t) && l <= t.top && Linking(t, layers0, founds, l + 1) && l < |layers| && layers == layers0[l := layers[l]]
    requires LayerOk(layers[l], Cap(t.m, l)) && layers[l].Keys <= t.sp.vectors.Keys && KeysAfter(t, layers, l)
    requires Entries(t.sp, t.sp.vectors[t.id], t.id, found)
    requires FoundFrom(t.sp, t.before[l], t.sp.vectors[t.id], t.width, Starts(t, founds, l), found)
    requires LayerLinked(t.sp, t.before[l], layers[l], Cap(t.m, l), t.m, t.id, found)
    ensures Linking(t, layers, founds[l := found], l)
  {
    forall k | 0 <= k < |layers| ensures LevelOk(layers, t.sp.vectors.Keys, t.m, k) {
      assert LevelOk(layers0, t.sp.vectors.Keys, t.m, k);
    }
    var founds' := founds[l := found];
    forall k | l <= k <= t.top ensures JoinedAt(t, layers, founds', k) && KeysAfter(t, layers, k) {
      if k > l {
        assert JoinedAt(t, layers0, founds, k) && KeysAfter(t, layers0, k);
        assert Starts(t, founds', k) == Starts(t, founds, k);
      } else {
        assert Starts(t, founds', k) == Starts(t, founds, k);
      }
    }
  }

  lemma LinkedNested(t: Task, layers: Layers, founds: map<nat, seq<Item>>)
    requires TaskOk(t) && Linking(t, layers, founds, 0)
    ensures Nested(layers) && layers[0].Keys == t.before[0].Keys && JoinedUpTo(t, layers)
  {
    forall l | 0 < l < |layers| ensures NestedAt(layers, l) {
      assert NestedAt(t.before, l);
      assert l <= t.top ==> KeysAfter(t, layers, l) && Waiting(t.before[l - 1], t.id);
      assert l - 1 <= t.top ==> KeysAfter(t, layers, l - 1);
    }
    assert KeysAfter(t, layers, 0);
    assert JoinedBy(t, layers, founds);
  }

  /** Link a new node into all its layers, from the top down. */
  method LinkAll(t: Task) returns (layers: Layers, ghost founds: map<nat, seq<Item>>)
    requires TaskOk(t)
    ensures Linking(t, layers, founds, 0) && Nested(layers) && layers[0].Keys == t.before[0].Keys
    ensures JoinedUpTo(t, layers)
  {
    layers, founds := t.before, map[];
    var start := if t.top < t.epLayer then t.top else t.epLayer;
    assert LevelOk(t.before, t.sp.vectors.Keys, t.m, start);
    var first := Item(Distance(t.sp, t.sp.vectors[t.id], t.ep), t.ep);
    var entries := [first];
    assert Ids(entries) == {t.ep};
    for l := t.top + 1 downto 0
      invariant Linking(t, layers, founds, l)
      invariant Entries(t.sp, t.sp.vectors[t.id], t.id, entries) && (l > 0 ==> EntriesFor(t, l - 1, Ids(entries)))
      invariant l > 0 ==> Ids(entries) == Starts(t, founds, l - 1)
    {
      layers, entries, founds := LinkNext(t, layers, l, entries, founds);
    }
    LinkedNested(t, layers, founds);
  }

  // ---- The index -------------------------------------------------------------

  datatype Outcome = Done | DimensionMismatch(expected: nat, got: nat) | NotFound(id: Id)

  /** The index's fields. */
  datatype State = State(layers: Layers, vectors: map<Id, Vec>, tombstones: set<Id>, entry: Option<EntryPoint>, liveCount: nat)

  /** The live count is what is stored less what is deleted. */
  ghost predicate Counted(s: State) { s.liveCount == |s.vectors| - |s.tombstones| }

  ghost predicate Dimensioned(vectors: map<Id, Vec>, dims: nat) { forall x :: x in vectors ==> |vectors[x]| == dims }

  ghost predicate StateOk(s: State, m: nat, dims: nat) {
    && WellFormed(s.layers, s.vectors.Keys, m, s.entry)
    && s.tombstones <= s.vectors.Keys && Counted(s) && Dimensioned(s.vectors, dims)
  }

  function Without(vectors: map<Id, Vec>, dead: set<Id>): map<Id, Vec> { map x | x in vectors && x !in dead :: vectors[x] }

  /** `s'` is `s` less its deleted nodes and the edges to them; a live entry point stays. */
  ghost predicate IsCompacted(s: State, s': State) {
    && s'.tombstones == {} && s'.liveCount == s.liveCount
    && (s.tombstones == {} ==> s' == s)
    && (s.tombstones != {} ==> s'.vectors == Without(s.vectors, s.tombstones) && AllPurged(s.layers, s'.layers, s.tombstones))
    && (s.entry.Some? && s.entry.value.id !in s.tombstones ==> s'.entry == s.entry)
  }

  method CompactState(s: State, ghost m: nat, ghost dims: nat) returns (s': State)
    requires StateOk(s, m, dims) && s.tombstones != {}
    ensures StateOk(s', m, dims) && IsCompacted(s, s')
  {
    var dead := s.tombstones;
    var vectors := Without(s.vectors, dead);
    assert vectors.Keys == s.vectors.Keys - dead;
    CompactedCount(s.vectors.Keys, vectors.Keys, dead);
    var layers, entry := Purge(s.layers, s.vectors.Keys, m, s.entry, dead);
    s' := State(layers, vectors, {}, entry, s.liveCount);
  }

  lemma AddedOk(s: State, s': State, m: nat, dims: nat, id: Id, vector: Vec)
    requires StateOk(s, m, dims) && id !in s.vectors && |vector| == dims
    requires s'.vectors == s.vectors[id := vector] && s'.tombstones == s.tombstones && s'.liveCount == s.liveCount + 1
    requires WellFormed(s'.layers, s.vectors.Keys + {id}, m, s'.entry)
    ensures StateOk(s', m, dims)
  {
    assert s'.vectors.Keys == s.vectors.Keys + {id};
    StoredCount(s.vectors, id, vector);
  }

  /** Where the greedy descent from a node of `layer` ends, having searched every layer above `bottom`. */
  ghost function DescentEnd(sp: HnswSearch.Space, layers: Layers, tombstones: set<Id>, query: Vec, id: Id, layer: nat, bottom: nat): Id
    decreases layer
  {
    if layer <= bottom || layer >= |layers| || id !in sp.vectors then id
    else DescentEnd(sp, layers, tombstones, query, Greedy(sp, layers[layer], tombstones, query, id), layer - 1, bottom)
  }

  function SaturatingPrevious(n: nat): nat { if n > 0 then n - 1 else 0 }

  class HnswIndex {
    const dims: nat
    const m: nat
    const efConstruction: nat
    const metric: (Vec, Vec) -> real
    const layerOf: Id -> nat
    var layers: Layers
    var vectors: map<Id, Vec>
    var tombstones: set<Id>
    var entryPoint: Option<EntryPoint>
    var liveCount: nat

    function Value(): State
      reads this
    {
      State(layers, vectors, tombstones, entryPoint, liveCount)
    }

    ghost predicate Valid()
      reads this
    {
      StateOk(Value(), m, dims)
    }

    function Space(): Space
      reads this
    {
      HnswSearch.Space(vectors, metric)
    }

    constructor (dims: nat, m: nat, efConstruction: nat, metric: (Vec, Vec) -> real, layerOf: Id -> nat)
      ensures Valid() && vectors == map[]
      ensures this.dims == dims && this.m == m && this.efConstruction == efConstruction
      ensures this.metric == metric && this.layerOf == layerOf
    {
      this.dims, this.m, this.efConstruction, this.metric, this.layerOf := dims, m, efConstruction, metric, layerOf;
      layers, vectors, tombstones, entryPoint, liveCount := [], map[], {}, None, 0;
    }

    /** Descend greedily from the entry point to just above `bottom`. */
    method Descend(query: Vec, ep: EntryPoint, bottom: nat) returns (id: Id)
      requires Levels(layers, vectors.Keys, m) && Nested(layers) && bottom < |layers|
      requires ep.layer < |layers| && ep.id in layers[ep.layer]
      ensures if bottom < ep.layer then id in layers[bottom + 1] && id in layers[bottom] else id == ep.id
      ensures id == DescentEnd(Space(), layers, tombstones, query, ep.id, ep.layer, bottom)
    {
      id := ep.id;
      var layer := ep.layer;
      while layer > bottom
        invariant 0 <= layer <= ep.layer && id in layers[layer]
        invariant DescentEnd(Space(), layers, tombstones, query, id, layer, bottom)
               == DescentEnd(Space(), layers, tombstones, query, ep.id, ep.layer, bottom)
        invariant if layer < ep.layer then layer >= bottom && id in layers[layer + 1] else id == ep.id
      {
        assert LevelOk(layers, vectors.Keys, m, layer) && NestedAt(layers, layer);
        LayerKnown(Space(), layers[layer], Cap(m, layer));
        id := GreedySearchLayer(Space(), layers[layer], tombstones, query, id);
        layer := layer - 1;
      }
    }

    /**
     * Store a vector and give its node a list in each of its layers. The live count stays right exactly
     * when the identifier is new.
     */
    method Store(id: Id, vector: Vec, top: nat)
      requires Valid()
      modifies `vectors, `liveCount, `layers
      ensures vectors == old(vectors)[id := vector] && liveCount == old(liveCount) + 1
      ensures StoredInto(old(layers), layers, id, top)
      ensures Counted(Value()) <==> id !in old(vectors)
    {
      vectors := vectors[id := vector];
      liveCount := liveCount + 1;
      layers := AddToLayers(layers, id, top);
      StoredCount(old(vectors), id, vector);
    }

    /** Insert a vector under a new identifier. */
    method Insert(id: Id, vector: Vec) returns (r: Outcome)
      requires Valid() && id !in vectors
      modifies this
      ensures Valid() && tombstones == old(tombstones)
      ensures r == if |vector| == dims then Done else DimensionMismatch(dims, |vector|)
      ensures vectors == if r.Done? then old(vectors)[id := vector] else old(vectors)
      ensures !r.Done? ==> layers == old(layers) && entryPoint == old(entryPoint)
      ensures r.Done? ==>
                if old(entryPoint).None? || layerOf(id) > old(entryPoint).value.layer
                then entryPoint == Some(EntryPoint(id, layerOf(id))) else entryPoint == old(entryPoint)
      ensures r.Done? && old(entryPoint).None? ==> layers == StoredLayers(old(layers), id, layerOf(id))
      ensures r.Done? && old(entryPoint).Some? ==>
                JoinedUpTo(Linkage(StoredLayers(old(layers), id, layerOf(id)), vector, id, layerOf(id), old(entryPoint).value), layers)
    {
      if |vector| != dims {
        return DimensionMismatch(dims, |vector|);
      }
      Add(id, vector, layerOf(id));
      return Done;
    }

    /** The task of linking a node just stored in `before`: its first search starts where the greedy descent ends. */
    ghost function Linkage(before: Layers, vector: Vec, id: Id, top: nat, ep: EntryPoint): Task
      reads this
    {
      Task(Space(), before, m, efConstruction, id, top,
           DescentEnd(Space(), before, tombstones, vector, ep.id, ep.layer, top), ep.layer)
    }

    /** Store a new node and link it. */
    method Add(id: Id, vector: Vec, top: nat)
      requires Valid() && id !in vectors && |vector| == dims
      modifies `vectors, `liveCount, `layers, `entryPoint
      ensures Valid() && vectors == old(vectors)[id := vector]
      ensures tombstones == old(tombstones) && entryPoint == Raised(old(entryPoint), id, top)
      ensures old(entryPoint).None? ==> layers == StoredLayers(old(layers), id, top)
      ensures old(entryPoint).Some? ==>
                JoinedUpTo(Linkage(StoredLayers(old(layers), id, top), vector, id, top, old(entryPoint).value), layers)
    {
      ghost var before := Value();
      Store(id, vector, top);
      StoredWellFormed(before.layers, layers, before.vectors.Keys, m, entryPoint, id, top);
      assert layers == StoredLayers(before.layers, id, top);
      if entryPoint.None? {
        entryPoint := Some(EntryPoint(id, top));
      } else {
        Link(id, vector, top, entryPoint.value, before.layers, before.vectors.Keys);
      }
      AddedOk(before, Value(), m, dims, id, vector);
    }

    /** Link the node just stored, and make it the entry point if it is higher than the last. */
    method Link(id: Id, vector: Vec, top: nat, ep: EntryPoint, ghost before: Layers, ghost stored: set<Id>)
      requires entryPoint == Some(ep) && LinkReady(before, layers, stored, m, entryPoint, id, top)
      requires vectors.Keys == stored + {id} && vectors[id] == vector
      modifies `layers, `entryPoint
      ensures WellFormed(layers, stored + {id}, m, entryPoint) && entryPoint == Raised(Some(ep), id, top)
      ensures JoinedUpTo(Linkage(old(layers), vector, id, top, ep), layers)
    {
      var start := Descend(vector, ep, top);
      var t := Task(Space(), layers, m, efConstruction, id, top, start, ep.layer);
      TaskReady(t, before, stored, ep);
      ghost var founds;
      layers, founds := LinkAll(t);
      if top > ep.layer {
        entryPoint := Some(EntryPoint(id, top));
      }
      LinkedEntry(t, layers, founds, ep);
    }

    /** Mark a node as deleted; its edges stay. */
    method Delete(id: Id) returns (r: Outcome)
      requires Valid()
      modifies `tombstones, `liveCount
      ensures Valid()
      ensures r == if id in vectors then Done else NotFound(id)
      ensures tombstones == if r.Done? then old(tombstones) + {id} else old(tombstones)
    {
      if id !in vectors {
        return NotFound(id);
      }
      if id !in tombstones {
        SubsetSize(tombstones + {id}, vectors.Keys);
        tombstones := tombstones + {id};
        liveCount := SaturatingPrevious(liveCount);
      }
      return Done;
    }

    /** Drop every deleted node and every edge to one. */
    method Compact()
      requires Valid()
      modifies this
      ensures Valid() && IsCompacted(old(Value()), Value())
    {
      if tombstones == {} {
        return;
      }
      var s := CompactState(Value(), m, dims);
      layers, vectors, tombstones, entryPoint := s.layers, s.vectors, s.tombstones, s.entry;
      assert Value() == s;
    }

    /**
     * Live nodes reachable at layer 0 from the node the greedy descent ends at: at most `k`, each once,
     * nearest first. They are the first `k` live ones the search found, of which none has a live
     * neighbour nearer than those returned. When the search is as wide as the index, they are exactly the
     * `k` nearest of all reachable.
     */
    method Search(query: Vec, k: nat, recall: real) returns (r: seq<Item>, ghost ep: Id, ghost found: seq<Item>)
      requires Valid()
      ensures |r| <= k && Ascending(r) && AllMeasured(Space(), query, r)
      ensures forall i, j :: 0 <= i < j < |r| ==> r[i].id != r[j].id
      ensures forall x :: x in r ==> x.id !in tombstones
      ensures r != [] ==> layers != [] && forall x :: x in r ==> Reached(layers[0], {ep}, x.id)
      ensures liveCount > 0 ==>
                && entryPoint.Some?
                && ep == DescentEnd(Space(), layers, tombstones, query, entryPoint.value.id, entryPoint.value.layer, 0)
      ensures liveCount > 0 ==> layers != [] && FoundFrom(Space(), layers[0], query, Width(k, recall), {ep}, found)
      ensures liveCount > 0 ==> LivePart(found, tombstones, r) && NothingMissed(found, tombstones, k, r)
      ensures r != [] ==> layers != [] && NoLiveNearer(Space(), layers[0], tombstones, query, r)
      ensures liveCount > 0 && Width(k, recall) >= |vectors| ==>
                layers != [] && ep in layers[0] && NearestLive(Space(), layers[0], tombstones, query, ep, k, r)
    {
      if entryPoint.None? || liveCount == 0 {
        return [], 0, [];
      }
      var ef := Width(k, recall);
      var id := Descend(query, entryPoint.value, 0);
      ep := id;
      NestedDown(layers, entryPoint.value.layer, 0);
      assert LevelOk(layers, vectors.Keys, m, 0);
      LayerKnown(Space(), layers[0], Cap(m, 0));
      var first := Item(Distance(Space(), query, id), id);
      assert Ids([first]) == {id};
      ghost var b := Beam(Space(), layers[0], query, {id}, ef);
      var items := SearchLayer(Space(), layers[0], query, [first], ef, b);
      found := items;
      r := LiveOf(items, tombstones, k);
      LiveOfOk(found, tombstones, k);
      DistinctIds(Space(), query, r);
      NoneNearer(Space(), layers[0], query, ef, found, tombstones, k, r);
      assert Everything(b) == vectors.Keys;
      if ef >= |vectors| {
        FoundNearest(b, found, tombstones, id, k, r);
      }
    }
  }

  /** Every live node reachable from `ep` is in the result, or comes after all `k` nodes of it. */
  ghost predicate NearestLive(sp: HnswSearch.Space, graph: Layer, tombstones: set<Id>, query: Vec, ep: Id, k: nat, r: seq<Item>) {
    forall y {:trigger Reached(graph, {ep}, y)} :: Reached(graph, {ep}, y) && y !in tombstones && y in sp.vectors ==>
      var item := Item(Distance(sp, query, y), y);
      item in r || (|r| == k && forall x :: x in r ==> Before(x, item))
  }

  /** No live neighbour of a result is nearer than the results without being one itself. */
  ghost predicate NoLiveNearer(sp: HnswSearch.Space, graph: Layer, tombstones: set<Id>, query: Vec, r: seq<Item>) {
    forall x, y {:trigger x in r, y in Neighbours(graph, x.id)} :: x in r && y in Neighbours(graph, x.id) && y !in tombstones ==>
      y in Ids(r) || (y in sp.vectors && forall z :: z in r ==> Distance(sp, query, y) >= z.dist)
  }

  lemma NoneNearer(sp: HnswSearch.Space, graph: Layer, query: Vec, width: nat, found: seq<Item>, tombstones: set<Id>, k: nat, r: seq<Item>)
    requires Ascending(found) && AllMeasured(sp, query, found) && NoBetterNext(sp, graph, query, width, found)
    requires LivePart(found, tombstones, r) && NothingMissed(found, tombstones, k, r)
    ensures NoLiveNearer(sp, graph, tombstones, query, r)
  {
    forall x, y | x in r && y in Neighbours(graph, x.id) && y !in tombstones
      ensures y in Ids(r) || (y in sp.vectors && forall z :: z in r ==> Distance(sp, query, y) >= z.dist)
    {
      assert x in found;
      if y in Ids(found) {
        var item :| item in found && item.id == y;
        assert Measured(sp, query, item);
      } else {
        assert forall z :: z in found ==> z.dist <= found[|found| - 1].dist;
      }
    }
  }

  lemma FoundNearest(b: Beam, found: seq<Item>, tombstones: set<Id>, ep: Id, k: nat, r: seq<Item>)
    requires Found(b, found) && FoundAll(b, found) && b.starts == {ep}
    requires NothingMissed(found, tombstones, k, r)
    ensures NearestLive(b.sp, b.graph, tombstones, b.query, ep, k, r)
  {
    forall y | Reached(b.graph, {ep}, y) && y !in tombstones && y in b.sp.vectors
      ensures var item := Item(Distance(b.sp, b.query, y), y);
              item in r || (|r| == k && forall x :: x in r ==> Before(x, item))
    {
      assert y in Ids(found);
      var item :| item in found && item.id == y;
      assert Measured(b.sp, b.query, item);
    }
  }

  lemma StoredCount(vectors: map<Id, Vec>, id: Id, vector: Vec)
    ensures |vectors[id := vector]| == |vectors| + if id in vectors then 0 else 1
  {
    assert vectors[id := vector].Keys == vectors.Keys + {id};
    assert |vectors[id := vector].Keys| == |vectors[id := vector]| && |vectors.Keys| == |vectors|;
  }

  lemma CompactedCount(before: set<Id>, after: set<Id>, dead: set<Id>)
    requires dead <= before && after == before - dead
    ensures |after| == |before| - |dead|
  {
    assert before == after + dead;
  }

  /** The layers without the dead nodes, and an entry point that survives. */
  method Purge(layers0: Layers, ghost stored: set<Id>, ghost m: nat, entry0: Option<EntryPoint>, dead: set<Id>)
    returns (layers: Layers, entry: Option<EntryPoint>)
    requires WellFormed(layers0, stored, m, entry0)
    ensures AllPurged(layers0, layers, dead) && WellFormed(layers, stored - dead, m, entry)
    ensures entry0.Some? && entry0.value.id !in dead ==> entry == entry0
  {
    layers := PurgeAll(layers0, dead);
    PurgedWellFormed(layers0, layers, stored, dead, m);
    entry := entry0;
    if entry0.Some? {
      if entry0.value.id in dead {
        entry := HighestSurvivor(layers, stored - dead);
      } else {
        assert PurgedAt(layers0, layers, dead, entry0.value.layer);
        forall l | entry0.value.layer < l < |layers| ensures EmptyAt(layers, l) {
          assert EmptyAt(layers0, l) && PurgedAt(layers0, layers, dead, l);
        }
      }
    }
  }

  method PurgeAll(layers0: Layers, dead: set<Id>) returns (layers: Layers)
    ensures AllPurged(layers0, layers, dead)
  {
    layers := layers0;
    for l := 0 to |layers|
      invariant |layers| == |layers0|
      invariant forall k {:trigger layers[k]} :: 0 <= k < |layers| ==> layers[k] == if k < l then Purged(layers0[k], dead) else layers0[k]
    {
      layers := layers[l := Purged(layers[l], dead)];
    }
    forall l | 0 <= l < |layers| ensures PurgedAt(layers0, layers, dead, l) {}
  }

  lemma TaskReady(t: Task, before: Layers, stored: set<Id>, ep: EntryPoint)
    requires LinkReady(before, t.before, stored, t.m, Some(ep), t.id, t.top)
    requires t.sp.vectors.Keys == stored + {t.id} && t.epLayer == ep.layer
    requires if t.top < ep.layer then t.ep in t.before[t.top + 1] && t.ep in t.before[t.top] else t.ep == ep.id
    ensures TaskOk(t)
    ensures forall l {:trigger EmptyAt(t.before, l)} :: t.top < l < |t.before| && ep.layer < l ==> EmptyAt(t.before, l)
  {
    assert LevelOk(before, stored, t.m, ep.layer);
    assert t.top < ep.layer ==> LevelOk(before, stored, t.m, t.top + 1);
    forall l | t.epLayer < l <= t.top ensures t.before[l].Keys == {t.id} {
      assert l < |before| ==> EmptyAt(before, l);
      assert LayerAt(before, l) == map[];
    }
    forall l | t.top < l < |t.before| && ep.layer < l ensures EmptyAt(t.before, l) {
      assert EmptyAt(before, l);
    }
  }

  lemma LinkedEntry(t: Task, layers: Layers, founds: map<nat, seq<Item>>, ep: EntryPoint)
    requires TaskOk(t) && Linking(t, layers, founds, 0) && t.epLayer == ep.layer
    requires ep.id in t.before[ep.layer]
    requires forall l {:trigger EmptyAt(t.before, l)} :: t.top < l < |t.before| && ep.layer < l ==> EmptyAt(t.before, l)
    ensures EntryOk(layers, t.sp.vectors.Keys, Some(if t.top > ep.layer then EntryPoint(t.id, t.top) else ep))
  {
    assert KeysAfter(t, layers, t.top) && Waiting(t.before[t.top], t.id);
    assert ep.layer <= t.top ==> KeysAfter(t, layers, ep.layer);
    forall l | t.top < l < |layers| && ep.layer < l ensures EmptyAt(layers, l) {
      assert EmptyAt(t.before, l);
    }
  }
}
