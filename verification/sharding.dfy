/** The shard map: topology changes, key routing and replication groups over the hash ring. */
module Sharding {
  import opened Ring

  datatype Option<+T> = None | Some(value: T)

  type Addr = string

  type RecordId = nat

  datatype Migration = Migration(shard: ShardId, fromNode: NodeId, toNode: NodeId)

  datatype Group = Group(shard: ShardId, leader: NodeId, followers: seq<NodeId>, factor: nat)

  // ---- Ownership -------------------------------------------------------------

  /** Every ring entry's shard is owned by the entry's node; every owner is registered. */
  ghost predicate Owned(ring: seq<Entry>, owners: map<ShardId, NodeId>, nodes: set<NodeId>, next: ShardId) {
    && (forall e {:trigger e in ring} :: e in ring ==> e.shard in owners && owners[e.shard] == e.node)
    && (forall s {:trigger owners[s]} :: s in owners ==> owners[s] in nodes && s < next)
  }

  ghost predicate InRing(ring: seq<Entry>, s: ShardId) { exists e :: e in ring && e.shard == s }

  /** The owners once every ring entry has claimed its shard. */
  ghost predicate Claimed(ring: seq<Entry>, owners: map<ShardId, NodeId>, owners': map<ShardId, NodeId>) {
    && (forall e {:trigger e in ring} :: e in ring ==> e.shard in owners' && owners'[e.shard] == e.node)
    && (forall s {:trigger InRing(ring, s)} :: s in owners' <==> s in owners || InRing(ring, s))
    && (forall s {:trigger InRing(ring, s)} :: s in owners && !InRing(ring, s) ==> s in owners' && owners'[s] == owners[s])
  }

  /** A shard on the ring is on one node. */
  ghost predicate OneNodeEach(ring: seq<Entry>) {
    forall e, e' :: e in ring && e' in ring && e.shard == e'.shard ==> e.node == e'.node
  }

  /** No entry contradicts what its shard's owner is already. */
  ghost predicate Agrees(ring: seq<Entry>, owners: map<ShardId, NodeId>) {
    forall e :: e in ring && e.shard in owners ==> owners[e.shard] == e.node
  }

  /** One more entry claims its shard; if it is owned already and nothing contradicts, it is by the same node. */
  lemma ClaimOne(ring: seq<Entry>, e: Entry, owners0: map<ShardId, NodeId>, owners: map<ShardId, NodeId>)
    requires Claimed(ring, owners0, owners) && forall x :: x in ring && x.shard == e.shard ==> x.node == e.node
    ensures Claimed(ring + [e], owners0, owners[e.shard := e.node])
    ensures e.shard in owners && (e.shard in owners0 ==> owners0[e.shard] == e.node) ==> owners[e.shard] == e.node
  {
    assert e in ring + [e];
    forall s ensures InRing(ring + [e], s) <==> InRing(ring, s) || s == e.shard {
      if InRing(ring, s) {
        var x :| x in ring && x.shard == s;
        assert x in ring + [e];
      }
    }
    var owners' := owners[e.shard := e.node];
    forall s ensures s in owners' <==> s in owners0 || InRing(ring + [e], s) {
      assert InRing(ring, s) || !InRing(ring, s);
    }
    assert InRing(ring, e.shard) || !InRing(ring, e.shard);
  }

  /** The report that an entry of the new node takes its shard from another node. */
  ghost predicate Taken(ring: seq<Entry>, owners: map<ShardId, NodeId>, newNode: NodeId, m: Migration) {
    && m.toNode == newNode && m.shard in owners && owners[m.shard] == m.fromNode != newNode
    && exists e :: e in ring && e.shard == m.shard && e.node == newNode
  }

  ghost predicate ReportsTaken(ring: seq<Entry>, owners: map<ShardId, NodeId>, newNode: NodeId, migrations: seq<Migration>) {
    OneEach(migrations) && forall m {:trigger Taken(ring, owners, newNode, m)} :: m in migrations <==> Taken(ring, owners, newNode, m)
  }

  /** What one more entry adds to the reports. */
  lemma ReportOne(ring: seq<Entry>, e: Entry, owners0: map<ShardId, NodeId>, owners: map<ShardId, NodeId>, newNode: NodeId, migrations: seq<Migration>)
    requires Claimed(ring, owners0, owners) && ReportsTaken(ring, owners0, newNode, migrations)
    requires forall x :: x in ring && x.shard == e.shard ==> x.node == e.node
    ensures var reported := e.shard in owners && owners[e.shard] != e.node && e.node == newNode;
            ReportsTaken(ring + [e], owners0, newNode, migrations + if reported then [Migration(e.shard, owners[e.shard], e.node)] else [])
  {
    assert InRing(ring, e.shard) || !InRing(ring, e.shard);
    var reported := e.shard in owners && owners[e.shard] != e.node && e.node == newNode;
    var more := migrations + if reported then [Migration(e.shard, owners[e.shard], e.node)] else [];
    assert e in ring + [e];
    forall m ensures m in more <==> Taken(ring + [e], owners0, newNode, m) {
      assert m in migrations <==> Taken(ring, owners0, newNode, m);
      if x :| x in ring && x.shard == m.shard && x.node == newNode {
        assert x in ring + [e];
      }
    }
    if reported {
      forall m | m in migrations ensures m.shard != e.shard {
        assert Taken(ring, owners0, newNode, m);
      }
    }
  }

  /** Let every ring entry claim its shard; the new node's claims on other nodes' shards are reported. */
  method RecomputeOwnership(ring: seq<Entry>, owners0: map<ShardId, NodeId>, newNode: NodeId)
    returns (owners: map<ShardId, NodeId>, migrations: seq<Migration>)
    requires OneNodeEach(ring)
    ensures Claimed(ring, owners0, owners) && ReportsTaken(ring, owners0, newNode, migrations)
    ensures Agrees(ring, owners0) ==> migrations == []
  {
    owners, migrations := owners0, [];
    for i := 0 to |ring|
      invariant Claimed(ring[..i], owners0, owners) && ReportsTaken(ring[..i], owners0, newNode, migrations)
      invariant Agrees(ring, owners0) ==> migrations == []
    {
      var e := ring[i];
      assert ring[..i + 1] == ring[..i] + [e];
      ClaimOne(ring[..i], e, owners0, owners);
      ReportOne(ring[..i], e, owners0, owners, newNode, migrations);
      if e.shard in owners && owners[e.shard] != e.node {
        if e.node == newNode {
          migrations := migrations + [Migration(e.shard, owners[e.shard], e.node)];
        }
      }
      owners := owners[e.shard := e.node];
    }
    assert ring[..|ring|] == ring;
  }

  /** What a removal makes of the owners: the removed node's shards go to the successor of their own hash. */
  function Reassigned(owners: map<ShardId, NodeId>, ring: seq<Entry>, gone: NodeId, shardHash: ShardId -> nat): map<ShardId, NodeId>
    requires ring != []
  {
    map s | s in owners :: if owners[s] == gone then Successor(ring, shardHash(s)).node else owners[s]
  }

  // ---- Replication -----------------------------------------------------------

  /** The first `k` nodes of `s` that are new, each once, in order. */
  function FirstNew(s: seq<NodeId>, seen: set<NodeId>, k: nat): seq<NodeId> {
    if s == [] || k == 0 then []
    else if s[0] in seen then FirstNew(s[1..], seen, k)
    else [s[0]] + FirstNew(s[1..], seen + {s[0]}, k - 1)
  }

  ghost function Members(s: seq<NodeId>): set<NodeId> { set x | x in s }

  ghost predicate Distinct(s: seq<NodeId>) { forall i, j :: 0 <= i < j < |s| ==> s[i] != s[j] }

  lemma MembersSplit(s: seq<NodeId>, seen: set<NodeId>)
    requires s != []
    ensures s[0] in seen ==> Members(s) - seen == Members(s[1..]) - seen
    ensures s[0] !in seen ==> Members(s) - seen == (Members(s[1..]) - (seen + {s[0]})) + {s[0]}
  {
    assert s == [s[0]] + s[1..];
    assert forall x :: x in Members(s) <==> x == s[0] || x in Members(s[1..]);
  }

  lemma PrependDistinct(x: NodeId, rest: seq<NodeId>, seen: set<NodeId>, all: set<NodeId>)
    requires Distinct(rest) && Members(rest) <= all - (seen + {x})
    ensures Distinct([x] + rest) && Members([x] + rest) <= (all - (seen + {x})) + {x}
  {
    assert forall i :: 0 <= i < |rest| ==> rest[i] in Members(rest);
    assert Members([x] + rest) == Members(rest) + {x};
  }

  lemma {:induction false} FirstNewDistinct(s: seq<NodeId>, seen: set<NodeId>, k: nat)
    ensures var r := FirstNew(s, seen, k); Members(r) <= Members(s) - seen && Distinct(r)
    decreases |s|
  {
    if s != [] && k > 0 {
      MembersSplit(s, seen);
      if s[0] in seen {
        FirstNewDistinct(s[1..], seen, k);
      } else {
        FirstNewDistinct(s[1..], seen + {s[0]}, k - 1);
        PrependDistinct(s[0], FirstNew(s[1..], seen + {s[0]}, k - 1), seen, Members(s[1..]));
      }
    }
  }

  /** As many as there are, up to `k`. */
  lemma {:induction false} FirstNewCount(s: seq<NodeId>, seen: set<NodeId>, k: nat)
    ensures |FirstNew(s, seen, k)| == if |Members(s) - seen| <= k then |Members(s) - seen| else k
    decreases |s|
  {
    if s == [] {
      assert Members(s) - seen == {};
    } else if k > 0 {
      MembersSplit(s, seen);
      if s[0] in seen {
        FirstNewCount(s[1..], seen, k);
      } else {
        FirstNewCount(s[1..], seen + {s[0]}, k - 1);
      }
    }
  }

  /** Where a node is met first. */
  ghost function FirstMet(s: seq<NodeId>, x: NodeId): nat
    requires x in s
  {
    if s[0] == x then 0 else 1 + FirstMet(s[1..], x)
  }

  ghost predicate MetBefore(s: seq<NodeId>, x: NodeId, y: NodeId) {
    x in s && y in s && FirstMet(s, x) < FirstMet(s, y)
  }

  /** The nodes taken stand in the order they are met, and a new node left out is met after all `k` of them. */
  ghost predicate AsMet(s: seq<NodeId>, seen: set<NodeId>, k: nat, r: seq<NodeId>) {
    && (forall i, j :: 0 <= i < j < |r| ==> MetBefore(s, r[i], r[j]))
    && forall x :: x in s && x !in seen && x !in r ==> |r| == k && forall y :: y in r ==> MetBefore(s, y, x)
  }

  lemma {:induction false} FirstNewAsMet(s: seq<NodeId>, seen: set<NodeId>, k: nat)
    ensures AsMet(s, seen, k, FirstNew(s, seen, k))
    decreases |s|
  {
    if s != [] && k > 0 {
      var seen', k' := seen + {s[0]}, if s[0] in seen then k else k - 1;
      FirstNewAsMet(s[1..], seen', k');
      FirstNewDistinct(s[1..], seen', k');
      assert s[0] in seen ==> seen' == seen;
      var rest := FirstNew(s[1..], seen', k');
      assert s == [s[0]] + s[1..];
      forall y | y in rest ensures y in s[1..] && y != s[0] {
        assert y in Members(rest);
      }
      forall x, y | MetBefore(s[1..], x, y) && x != s[0] && y != s[0] ensures MetBefore(s, x, y) {}
    }
  }

  ghost function NodesOf(ring: seq<Entry>): seq<NodeId> {
    seq(|ring|, i requires 0 <= i < |ring| => ring[i].node)
  }

  /** The nodes met walking once round the ring from just after a position. */
  ghost function WalkFrom(ring: seq<Entry>, start: nat): seq<NodeId>
    requires start < |ring|
  {
    NodesOf(ring[start + 1..] + ring[..start])
  }

  lemma WalkMembers(ring: seq<Entry>, start: nat, n: NodeId)
    requires start < |ring|
    ensures n in Members(WalkFrom(ring, start)) + {ring[start].node} <==> exists e :: e in ring && e.node == n
  {
    var rest := ring[start + 1..] + ring[..start];
    if e :| e in ring && e.node == n {
      assert ring == ring[..start] + [ring[start]] + ring[start + 1..];
      if e != ring[start] {
        assert e in ring[..start] || e in ring[start + 1..];
        assert e in rest;
        var i :| 0 <= i < |rest| && rest[i] == e;
        assert WalkFrom(ring, start)[i] == n;
      }
    }
    if n in Members(WalkFrom(ring, start)) {
      var i :| 0 <= i < |rest| && rest[i].node == n;
      assert rest[i] in ring;
    }
  }

  /** First position of an entry of the node. */
  method PositionOf(ring: seq<Entry>, n: NodeId) returns (pos: nat)
    requires exists e :: e in ring && e.node == n
    ensures pos < |ring| && ring[pos].node == n && forall i :: 0 <= i < pos ==> ring[i].node != n
  {
    pos := 0;
    while pos < |ring| && ring[pos].node != n
      invariant pos <= |ring| && forall i :: 0 <= i < pos ==> ring[i].node != n
    {
      pos := pos + 1;
    }
  }

  /** Position `i` steps after the one following `start`. */
  function Ahead(n: nat, start: nat, i: nat): nat
    requires start < n && i < n
  {
    if start + 1 + i < n then start + 1 + i else start + 1 + i - n
  }

  method NextIndex(idx: nat, n: nat) returns (r: nat)
    requires idx < n
    ensures r == if idx + 1 == n then 0 else idx + 1
  {
    r := (idx + 1) % n;
  }

  lemma WalkAt(ring: seq<Entry>, start: nat, i: nat)
    requires start < |ring| && i < |ring| - 1
    ensures |WalkFrom(ring, start)| == |ring| - 1
    ensures WalkFrom(ring, start)[i] == ring[Ahead(|ring|, start, i)].node
  {
  }

  /** One step of the walk: the nodes still to come, behind those already taken. */
  lemma FirstNewFrom(w: seq<NodeId>, i: nat, seen: set<NodeId>, taken: seq<NodeId>, k: nat)
    requires i < |w| && |taken| < k
    ensures taken + FirstNew(w[i..], seen, k - |taken|)
         == if w[i] in seen then taken + FirstNew(w[i + 1..], seen, k - |taken|)
            else (taken + [w[i]]) + FirstNew(w[i + 1..], seen + {w[i]}, k - |taken| - 1)
  {
    assert w[i..][0] == w[i] && w[i..][1..] == w[i + 1..];
  }

  lemma FirstNewEnds(w: seq<NodeId>, i: nat, seen: set<NodeId>, taken: seq<NodeId>, k: nat)
    requires i <= |w| && |taken| <= k && (i == |w| || |taken| == k)
    ensures taken + FirstNew(w[i..], seen, k - |taken|) == taken
  {
  }

  /** Up to `k` further nodes, walking the ring from a position. */
  method Followers(ring: seq<Entry>, start: nat, k: nat) returns (followers: seq<NodeId>)
    requires start < |ring| && |ring| > 1
    ensures followers == FirstNew(WalkFrom(ring, start), {ring[start].node}, k)
  {
    followers := [];
    var seen := {ring[start].node};
    var idx := NextIndex(start, |ring|);
    ghost var w, i := WalkFrom(ring, start), 0;
    ghost var all := FirstNew(w, seen, k);
    assert w[0..] == w && [] + all == all;
    while |followers| < k && idx != start
      invariant 0 <= i <= |w| == |ring| - 1 && idx == Ahead(|ring|, start, i) && |followers| <= k
      invariant followers + FirstNew(w[i..], seen, k - |followers|) == all
      decreases |w| - i
    {
      WalkAt(ring, start, i);
      FirstNewFrom(w, i, seen, followers, k);
      var candidate := ring[idx].node;
      if candidate !in seen {
        seen := seen + {candidate};
        followers := followers + [candidate];
      }
      idx := NextIndex(idx, |ring|);
      i := i + 1;
      if idx == start {
        break;
      }
    }
    FirstNewEnds(w, i, seen, followers, k);
  }

  // ---- The map ---------------------------------------------------------------

  /** The `v` entries of a new node, with shards numbered from `next`. */
  ghost predicate NewEntries(added: seq<Entry>, node: NodeId, next: ShardId, h: Hashes) {
    forall r {:trigger added[r]} :: 0 <= r < |added| ==> added[r] == Entry(h(node, r), node, next + r)
  }

  class ShardMap {
    const virtualNodes: nat
    const nodeHash: Hashes
    const keyHash: (string, RecordId) -> nat
    const shardHash: ShardId -> nat
    var ring: seq<Entry>
    var nodeAddrs: map<NodeId, Addr>
    var shardOwners: map<ShardId, NodeId>
    var collectionShards: map<string, set<ShardId>>
    var replicationFactor: nat
    var nextShardId: ShardId

    ghost predicate Valid()
      reads this
    {
      && RingOf(ring, nodeAddrs.Keys, virtualNodes, nodeHash)
      && Owned(ring, shardOwners, nodeAddrs.Keys, nextShardId)
      && (ring == [] ==> shardOwners == map[])
    }

    constructor (virtualNodes: nat, nodeHash: Hashes, keyHash: (string, RecordId) -> nat, shardHash: ShardId -> nat)
      ensures Valid() && nodeAddrs == map[] && this.virtualNodes == virtualNodes
      ensures this.nodeHash == nodeHash && this.keyHash == keyHash && this.shardHash == shardHash
    {
      this.virtualNodes, this.nodeHash, this.keyHash, this.shardHash := virtualNodes, nodeHash, keyHash, shardHash;
      ring, nodeAddrs, shardOwners, collectionShards, replicationFactor, nextShardId := [], map[], map[], map[], 1, 0;
    }

    /** The shard of a record: that of the ring entry following the key's hash, whose owner is registered. */
    method ShardFor(collection: string, record: RecordId) returns (shard: ShardId)
      requires Valid()
      modifies `collectionShards
      ensures ring == [] ==> shard == 0 && collectionShards == old(collectionShards)
      ensures ring != [] ==>
                var e := Successor(ring, keyHash(collection, record));
                && shard == e.shard && shard in shardOwners && shardOwners[shard] == e.node && e.node in nodeAddrs
                && NextOnRing(ring, keyHash(collection, record), e)
                && Remembers(old(collectionShards), collectionShards, collection, shard)
    {
      if ring == [] {
        return 0;
      }
      shard := Successor(ring, keyHash(collection, record)).shard;
      SuccessorNext(ring, keyHash(collection, record));
      collectionShards := Noted(collectionShards, collection, shard);
    }

    /** Push the entries of a node's replicas. */
    method PushEntries(node: NodeId) returns (ghost added: seq<Entry>)
      modifies `ring, `nextShardId
      ensures ring == old(ring) + added && |added| == virtualNodes && nextShardId == old(nextShardId) + virtualNodes
      ensures NewEntries(added, node, old(nextShardId), nodeHash)
    {
      added := [];
      for replica := 0 to virtualNodes
        invariant ring == old(ring) + added && |added| == replica && nextShardId == old(nextShardId) + replica
        invariant NewEntries(added, node, old(nextShardId), nodeHash)
      {
        var e := Entry(nodeHash(node, replica), node, nextShardId);
        nextShardId := nextShardId + 1;
        ring := ring + [e];
        added := added + [e];
      }
    }

    /**
     * Add a node's entries to the ring; a known node is left alone. Its shards are all new, so existing
     * shards keep their owners and no migration is ever reported.
     */
    method AddNode(node: NodeId, addr: Addr) returns (migrations: seq<Migration>)
      requires Valid()
      modifies `ring, `nodeAddrs, `shardOwners, `nextShardId
      ensures Valid() && migrations == []
      ensures nodeAddrs == if node in old(nodeAddrs) then old(nodeAddrs) else old(nodeAddrs)[node := addr]
      ensures node in old(nodeAddrs) ==> ring == old(ring) && shardOwners == old(shardOwners)
      ensures forall s :: s in old(shardOwners) ==> s in shardOwners && shardOwners[s] == old(shardOwners)[s]
      ensures old(ring) != [] ==> ring != [] && (DistinctHashes(nodeHash) ==> MovesOnlyTo(old(ring), ring, node))
    {
      if node in nodeAddrs {
        return [];
      }
      ghost var before, owners, nodes, next := ring, shardOwners, nodeAddrs.Keys, nextShardId;
      nodeAddrs := nodeAddrs[node := addr];
      ghost var added := PushEntries(node);
      ring := SortByHash(ring);
      SortSorted(before + added);
      GrownRing(before, added, ring, nodes, node, virtualNodes, next, nodeHash);
      GrownAgrees(before, added, ring, owners, nodes, node, next, nodeHash);
      shardOwners, migrations := RecomputeOwnership(ring, shardOwners, node);
      GrownOwned(before, added, ring, owners, shardOwners, nodes, node, next, nodeHash);
      EmptyStays(before, added, ring);
      if before != [] && DistinctHashes(nodeHash) {
        AllKeysMove(before, nodes, ring, node, virtualNodes, nodeHash);
      }
      assert nodeAddrs.Keys == nodes + {node};
    }

    /**
     * Remove a node's entries; each shard it owned, wherever it got it, goes to the successor of the
     * shard's own hash, for no such shard is left on the ring. Each move is reported once.
     */
    method RemoveNode(node: NodeId) returns (migrations: seq<Migration>)
      requires Valid()
      modifies `ring, `nodeAddrs, `shardOwners
      ensures Valid()
      ensures node !in old(nodeAddrs) ==> migrations == [] && ring == old(ring) && shardOwners == old(shardOwners)
      ensures nodeAddrs == map n | n in old(nodeAddrs) && n != node :: old(nodeAddrs)[n]
      ensures node in old(nodeAddrs) ==> ring == Retain(old(ring), node)
      ensures node in old(nodeAddrs) ==>
                shardOwners == if ring == [] then map[] else Reassigned(old(shardOwners), ring, node, shardHash)
      ensures node in old(nodeAddrs) ==> forall s :: s in old(shardOwners) && old(shardOwners)[s] == node ==> !InRing(ring, s)
      ensures node in old(nodeAddrs) && ring != [] ==>
                && shardOwners.Keys == old(shardOwners).Keys
                && forall s :: s in old(shardOwners) ==>
                     if old(shardOwners)[s] == node then TakesOver(ring, shardHash(s), shardOwners[s])
                     else shardOwners[s] == old(shardOwners)[s]
      ensures node in old(nodeAddrs) ==> OneEach(migrations) && forall m :: m in migrations <==>
                m.shard in old(shardOwners) && old(shardOwners)[m.shard] == node
                && m.fromNode == node && m.toNode == if ring == [] then 0 else shardOwners[m.shard]
      ensures old(ring) != [] && ring != [] && DistinctHashes(nodeHash) ==> MovesOnlyTo(ring, old(ring), node)
    {
      if node !in nodeAddrs {
        assert nodeAddrs == map n | n in nodeAddrs && n != node :: nodeAddrs[n];
        assert ring != [] ==> MovesOnlyTo(ring, ring, node);
        return [];
      }
      ghost var before, nodes := ring, nodeAddrs.Keys;
      ring := Retain(ring, node);
      nodeAddrs := map n | n in nodeAddrs && n != node :: nodeAddrs[n];
      assert nodeAddrs.Keys == nodes - {node};
      ShrunkRing(before, ring, nodes, node, virtualNodes, nodeHash);
      GoneOffRing(before, shardOwners, nodes, nextShardId, node);
      if ring == [] {
        migrations := Reports(shardOwners, map s | s in shardOwners :: 0, node);
        shardOwners := map[];
        return;
      }
      if DistinctHashes(nodeHash) {
        assert nodes - {node} + {node} == nodes;
        AllKeysMove(ring, nodes - {node}, before, node, virtualNodes, nodeHash);
      }
      var owners := Reassign(shardOwners, ring, node);
      ShrunkOwned(before, ring, shardOwners, owners, nodes, node, nextShardId, virtualNodes, nodeHash, shardHash);
      forall s | s in shardOwners && shardOwners[s] == node ensures TakesOver(ring, shardHash(s), owners[s]) {
        SuccessorNext(ring, shardHash(s));
      }
      migrations := Reports(shardOwners, owners, node);
      shardOwners := owners;
    }

    /** Give each shard of the removed node to the successor of its own hash. */
    method Reassign(owners0: map<ShardId, NodeId>, ring: seq<Entry>, gone: NodeId) returns (owners: map<ShardId, NodeId>)
      requires ring != []
      ensures owners == Reassigned(owners0, ring, gone, shardHash)
    {
      owners := owners0;
      var todo := set s | s in owners0 && owners0[s] == gone;
      while todo != {}
        invariant todo <= set s | s in owners0 && owners0[s] == gone
        invariant owners.Keys == owners0.Keys
        invariant forall s :: s in owners0 ==>
                    owners[s] == if owners0[s] == gone && s !in todo then Successor(ring, shardHash(s)).node else owners0[s]
        decreases |todo|
      {
        var s :| s in todo;
        todo := todo - {s};
        owners := owners[s := Successor(ring, shardHash(s)).node];
      }
    }

    /**
     * The owner of a shard and the next distinct nodes round the ring: one member if the factor is at most
     * one, else as many as the factor asks for and the cluster has.
     */
    method ReplicationGroup(shard: ShardId) returns (g: Option<Group>)
      requires Valid()
      ensures g.None? <==> shard !in shardOwners
      ensures g.Some? ==>
                var group := [g.value.leader] + g.value.followers;
                && g.value.shard == shard && g.value.leader == shardOwners[shard] && g.value.factor == replicationFactor
                && Distinct(group) && Members(group) <= nodeAddrs.Keys
                && |group| == (if replicationFactor <= 1 then 1
                               else if |nodeAddrs| <= replicationFactor then |nodeAddrs| else replicationFactor)
      ensures g.Some? && replicationFactor > 1 && |ring| > 1 ==>
                AfterLeader(ring, g.value.leader, replicationFactor - 1, g.value.followers)
    {
      if shard !in shardOwners {
        return None;
      }
      var leader := shardOwners[shard];
      var followers: seq<NodeId> := [];
      EveryNodeOnRing(ring, nodeAddrs.Keys, virtualNodes, nodeHash, leader);
      if replicationFactor > 1 && |ring| > 1 {
        var start := PositionOf(ring, leader);
        followers := Followers(ring, start, replicationFactor - 1);
        FirstNewAsMet(WalkFrom(ring, start), {leader}, replicationFactor - 1);
        assert NextNodes(ring, start, leader, replicationFactor - 1, followers);
        GroupSize(ring, nodeAddrs.Keys, virtualNodes, nodeHash, start, replicationFactor - 1);
      } else if replicationFactor > 1 {
        LoneNode(ring, nodeAddrs.Keys, virtualNodes, nodeHash, leader);
      }
      return Some(Group(shard, leader, followers, replicationFactor));
    }
  }

  /** The `k` distinct nodes after the first ring entry of the leader. */
  ghost predicate NextNodes(ring: seq<Entry>, pos: nat, leader: NodeId, k: nat, followers: seq<NodeId>) {
    && pos < |ring| && ring[pos].node == leader && (forall i :: 0 <= i < pos ==> ring[i].node != leader)
    && followers == FirstNew(WalkFrom(ring, pos), {leader}, k) && AsMet(WalkFrom(ring, pos), {leader}, k, followers)
  }

  ghost predicate AfterLeader(ring: seq<Entry>, leader: NodeId, k: nat, followers: seq<NodeId>) {
    exists pos: nat :: NextNodes(ring, pos, leader, k, followers)
  }

  function Noted(seen: map<string, set<ShardId>>, collection: string, shard: ShardId): map<string, set<ShardId>> {
    seen[collection := (if collection in seen then seen[collection] else {}) + {shard}]
  }

  /** The shard is noted for the collection besides those noted before; no other collection is touched. */
  ghost predicate Remembers(before: map<string, set<ShardId>>, after: map<string, set<ShardId>>, collection: string, shard: ShardId) {
    && after.Keys == before.Keys + {collection}
    && (forall s :: s in after[collection] <==> s == shard || (collection in before && s in before[collection]))
    && forall c {:trigger after[c]} :: c in before && c != collection ==> after[c] == before[c]
  }

  /** The entry with the least hash at or after the given one, or with the least of all if there is none. */
  ghost predicate NextOnRing(ring: seq<Entry>, hash: nat, e: Entry) {
    && e in ring
    && forall x {:trigger x in ring} :: x in ring ==>
         if e.hash >= hash then x.hash >= hash ==> e.hash <= x.hash
         else x.hash < hash && e.hash <= x.hash
  }

  lemma SuccessorNext(ring: seq<Entry>, hash: nat)
    requires Sorted(ring) && ring != []
    ensures NextOnRing(ring, hash, Successor(ring, hash))
  {
    forall x | x in ring
      ensures var e := Successor(ring, hash);
              if e.hash >= hash then x.hash >= hash ==> e.hash <= x.hash else x.hash < hash && e.hash <= x.hash
    {
      SuccessorLeast(ring, hash, x);
    }
  }

  /** The node is that of the ring entry following the shard's hash. */
  ghost predicate TakesOver(ring: seq<Entry>, hash: nat, n: NodeId) {
    exists e :: NextOnRing(ring, hash, e) && e.node == n
  }

  /** No two reports are of one shard. */
  ghost predicate OneEach(migrations: seq<Migration>) {
    forall i, j :: 0 <= i < j < |migrations| ==> migrations[i].shard != migrations[j].shard
  }

  /** One report for each shard the removed node owned. */
  method Reports(before: map<ShardId, NodeId>, after: map<ShardId, NodeId>, gone: NodeId) returns (migrations: seq<Migration>)
    requires before.Keys <= after.Keys
    ensures OneEach(migrations) && forall m :: m in migrations <==>
              m.shard in before && before[m.shard] == gone && m.fromNode == gone && m.toNode == after[m.shard]
  {
    migrations := [];
    var todo := set s | s in before && before[s] == gone;
    while todo != {}
      invariant todo <= set s | s in before && before[s] == gone
      invariant OneEach(migrations)
      invariant forall m :: m in migrations <==>
                  m.shard in before && m.shard !in todo && before[m.shard] == gone && m.fromNode == gone && m.toNode == after[m.shard]
      decreases |todo|
    {
      var s :| s in todo;
      todo := todo - {s};
      migrations := migrations + [Migration(s, gone, after[s])];
    }
  }

  // ---- What the topology changes keep ------------------------------------------

  lemma GrownRing(before: seq<Entry>, added: seq<Entry>, ring: seq<Entry>, nodes: set<NodeId>, node: NodeId, v: nat, next: ShardId, h: Hashes)
    requires RingOf(before, nodes, v, h) && NewEntries(added, node, next, h) && |added| == v
    requires Sorted(ring) && forall e :: e in ring <==> e in before + added
    ensures RingOf(ring, nodes + {node}, v, h)
  {
    forall e | e in ring ensures Placed(e, nodes + {node}, v, h) {
      if e in before {
        assert Placed(e, nodes, v, h);
      } else {
        var r :| 0 <= r < |added| && added[r] == e;
      }
    }
    forall n, r | n in nodes + {node} && 0 <= r < v ensures Present(ring, n, h(n, r)) {
      if n in nodes {
        assert Present(before, n, h(n, r));
        var e :| e in before && e.node == n && e.hash == h(n, r);
        assert e in before + added;
      } else {
        assert added[r] in before + added;
      }
    }
  }

  lemma GrownAgrees(before: seq<Entry>, added: seq<Entry>, ring: seq<Entry>, owners: map<ShardId, NodeId>, nodes: set<NodeId>,
                    node: NodeId, next: ShardId, h: Hashes)
    requires Owned(before, owners, nodes, next) && NewEntries(added, node, next, h)
    requires forall e :: e in ring <==> e in before + added
    ensures OneNodeEach(ring) && Agrees(ring, owners)
  {
    forall e | e in ring ensures (e in before && e.shard < next) || (e.node == node && e.shard >= next) {
      if e !in before {
        var r :| 0 <= r < |added| && added[r] == e;
      }
    }
  }

  lemma EmptyStays(before: seq<Entry>, added: seq<Entry>, ring: seq<Entry>)
    requires forall e :: e in ring <==> e in before + added
    ensures ring == [] ==> before == []
  {
    if before != [] {
      assert before[0] in before + added;
    }
  }

  lemma GrownOwned(before: seq<Entry>, added: seq<Entry>, ring: seq<Entry>, owners: map<ShardId, NodeId>, owners': map<ShardId, NodeId>,
                   nodes: set<NodeId>, node: NodeId, next: ShardId, h: Hashes)
    requires Owned(before, owners, nodes, next) && NewEntries(added, node, next, h)
    requires (forall e :: e in ring <==> e in before + added) && Agrees(ring, owners) && Claimed(ring, owners, owners')
    requires before == [] ==> owners == map[]
    ensures Owned(ring, owners', nodes + {node}, next + |added|)
    ensures forall s :: s in owners ==> s in owners' && owners'[s] == owners[s]
    ensures ring == [] ==> owners' == map[]
  {
    forall s | s in owners' ensures owners'[s] in nodes + {node} && s < next + |added| {
      if InRing(ring, s) {
        var e :| e in ring && e.shard == s;
        if e !in before {
          var r :| 0 <= r < |added| && added[r] == e;
        }
      }
    }
    forall s | s in owners ensures s in owners' && owners'[s] == owners[s] {
      if InRing(ring, s) {
        var e :| e in ring && e.shard == s;
      }
    }
    EmptyStays(before, added, ring);
    if ring == [] {
      forall s ensures s !in owners' {
        assert !InRing(ring, s);
      }
    }
  }

  lemma ShrunkRing(before: seq<Entry>, ring: seq<Entry>, nodes: set<NodeId>, gone: NodeId, v: nat, h: Hashes)
    requires RingOf(before, nodes, v, h) && ring == Retain(before, gone)
    ensures RingOf(ring, nodes - {gone}, v, h)
  {
    RetainSorted(before, gone);
    forall e | e in ring ensures Placed(e, nodes - {gone}, v, h) {
      assert Placed(e, nodes, v, h);
    }
    forall n, r | n in nodes - {gone} && 0 <= r < v ensures Present(ring, n, h(n, r)) {
      assert Present(before, n, h(n, r));
    }
  }

  /** A shard the removed node owned has no ring entry once the node's are gone. */
  lemma GoneOffRing(before: seq<Entry>, owners: map<ShardId, NodeId>, nodes: set<NodeId>, next: ShardId, gone: NodeId)
    requires Owned(before, owners, nodes, next)
    ensures forall s :: s in owners && owners[s] == gone ==> !InRing(Retain(before, gone), s)
  {
  }

  lemma ShrunkOwned(before: seq<Entry>, ring: seq<Entry>, owners: map<ShardId, NodeId>, owners': map<ShardId, NodeId>, nodes: set<NodeId>,
                    gone: NodeId, next: ShardId, v: nat, h: Hashes, shardHash: ShardId -> nat)
    requires Owned(before, owners, nodes, next) && ring == Retain(before, gone) && ring != []
    requires RingOf(ring, nodes - {gone}, v, h) && owners' == Reassigned(owners, ring, gone, shardHash)
    ensures Owned(ring, owners', nodes - {gone}, next)
  {
    forall s | s in owners' ensures owners'[s] in nodes - {gone} && s < next {
      assert owners[s] in nodes;
      assert Placed(Successor(ring, shardHash(s)), nodes - {gone}, v, h);
    }
  }

  lemma EveryNodeOnRing(ring: seq<Entry>, nodes: set<NodeId>, v: nat, h: Hashes, n: NodeId)
    requires RingOf(ring, nodes, v, h) && ring != [] && n in nodes
    ensures exists e :: e in ring && e.node == n
  {
    assert Placed(ring[0], nodes, v, h);
    assert Present(ring, n, h(n, 0));
  }

  /** A walk round the ring meets every node. */
  lemma GroupSize(ring: seq<Entry>, nodes: set<NodeId>, v: nat, h: Hashes, start: nat, k: nat)
    requires RingOf(ring, nodes, v, h) && start < |ring|
    ensures var leader := ring[start].node; var followers := FirstNew(WalkFrom(ring, start), {leader}, k);
            && Distinct([leader] + followers) && Members([leader] + followers) <= nodes
            && |followers| == if |nodes| - 1 <= k then |nodes| - 1 else k
  {
    var leader, w := ring[start].node, WalkFrom(ring, start);
    forall n ensures n in Members(w) + {leader} <==> n in nodes {
      WalkMembers(ring, start, n);
      if n in nodes {
        EveryNodeOnRing(ring, nodes, v, h, n);
      }
      if e :| e in ring && e.node == n {
        assert Placed(e, nodes, v, h);
      }
    }
    assert leader in nodes;
    assert Members(w) - {leader} == nodes - {leader};
    FirstNewDistinct(w, {leader}, k);
    FirstNewCount(w, {leader}, k);
    PrependDistinct(leader, FirstNew(w, {leader}, k), {}, Members(w));
  }

  lemma LoneNode(ring: seq<Entry>, nodes: set<NodeId>, v: nat, h: Hashes, n: NodeId)
    requires RingOf(ring, nodes, v, h) && |ring| == 1 && n in nodes
    ensures nodes == {n}
  {
    forall m | m in nodes ensures m == n {
      EveryNodeOnRing(ring, nodes, v, h, m);
      EveryNodeOnRing(ring, nodes, v, h, n);
    }
  }
}
