/**
 * The consistent-hash ring: which node a key belongs to depends only on the set of nodes, and between
 * two sets that differ by one node only that node's keys move.
 */
module Ring {

  type NodeId = nat

  type ShardId = nat

  datatype Entry = Entry(hash: nat, node: NodeId, shard: ShardId)

  type Hashes = (NodeId, nat) -> nat

  ghost predicate Sorted(ring: seq<Entry>) {
    forall i, j :: 0 <= i <= j < |ring| ==> ring[i].hash <= ring[j].hash
  }

  /** How many entries lie below a hash. */
  function Below(ring: seq<Entry>, hash: nat): (n: nat)
    ensures n <= |ring|
    ensures forall i :: 0 <= i < n ==> ring[i].hash < hash
    ensures n < |ring| ==> ring[n].hash >= hash
  {
    if ring == [] || ring[0].hash >= hash then 0
    else
      var n := Below(ring[1..], hash);
      assert forall i :: 0 < i < n + 1 ==> ring[i] == ring[1..][i - 1];
      n + 1
  }

  /** The first entry at or after a hash, or the first of all. */
  function Successor(ring: seq<Entry>, hash: nat): (e: Entry)
    requires ring != []
    ensures e in ring
  {
    var n := Below(ring, hash);
    if n < |ring| then ring[n] else ring[0]
  }

  // ---- Rings of a set of nodes ---------------------------------------------

  /** `e` is one of the entries of its node. */
  ghost predicate Placed(e: Entry, nodes: set<NodeId>, v: nat, h: Hashes) {
    e.node in nodes && exists r :: 0 <= r < v && e.hash == h(e.node, r)
  }

  ghost predicate Present(ring: seq<Entry>, n: NodeId, hash: nat) {
    exists e :: e in ring && e.node == n && e.hash == hash
  }

  /** A sorted ring with the `v` entries of every node and nothing else. */
  ghost predicate RingOf(ring: seq<Entry>, nodes: set<NodeId>, v: nat, h: Hashes) {
    && Sorted(ring)
    && (forall e {:trigger Placed(e, nodes, v, h)} :: e in ring ==> Placed(e, nodes, v, h))
    && (forall n, r {:trigger Present(ring, n, h(n, r))} :: n in nodes && 0 <= r < v ==> Present(ring, n, h(n, r)))
  }

  /** No two virtual nodes share a hash. */
  ghost predicate DistinctHashes(h: Hashes) {
    forall n, r, n', r' :: h(n, r) == h(n', r') ==> n == n' && r == r'
  }

  /** The successor has the least hash at or after the key's, or the least of all if there is none. */
  lemma SuccessorLeast(ring: seq<Entry>, hash: nat, e: Entry)
    requires Sorted(ring) && e in ring
    ensures var s := Successor(ring, hash);
            if s.hash >= hash then e.hash >= hash ==> s.hash <= e.hash
            else e.hash < hash && s.hash <= e.hash
  {
    var i :| 0 <= i < |ring| && ring[i] == e;
    var n := Below(ring, hash);
  }

  lemma SameHashSameNode(ring: seq<Entry>, nodes: set<NodeId>, ring': seq<Entry>, nodes': set<NodeId>, v: nat, h: Hashes, e: Entry, e': Entry)
    requires RingOf(ring, nodes, v, h) && RingOf(ring', nodes', v, h) && DistinctHashes(h)
    requires e in ring && e' in ring' && e.hash == e'.hash
    ensures e.node == e'.node
  {
    assert Placed(e, nodes, v, h) && Placed(e', nodes', v, h);
  }

  /** The entry of another ring with the same node and hash. */
  lemma Counterpart(ring: seq<Entry>, nodes: set<NodeId>, other: seq<Entry>, others: set<NodeId>, v: nat, h: Hashes, e: Entry) returns (e': Entry)
    requires RingOf(ring, nodes, v, h) && RingOf(other, others, v, h) && e in ring && e.node in others
    ensures e' in other && e'.node == e.node && e'.hash == e.hash
  {
    assert Placed(e, nodes, v, h);
    var r :| 0 <= r < v && e.hash == h(e.node, r);
    assert Present(other, e.node, h(e.node, r));
    e' :| e' in other && e'.node == e.node && e'.hash == e.hash;
  }

  /** A key that does not belong to any of the added nodes belongs to the same node as before. */
  lemma OthersStay(ring: seq<Entry>, nodes: set<NodeId>, ring': seq<Entry>, nodes': set<NodeId>, v: nat, h: Hashes, key: nat)
    requires RingOf(ring, nodes, v, h) && RingOf(ring', nodes', v, h) && DistinctHashes(h)
    requires ring != [] && ring' != [] && nodes <= nodes'
    requires Successor(ring', key).node in nodes
    ensures Successor(ring', key).node == Successor(ring, key).node
  {
    var s, s' := Successor(ring, key), Successor(ring', key);
    assert Placed(s, nodes, v, h);
    var t' := Counterpart(ring, nodes, ring', nodes', v, h, s);
    var t := Counterpart(ring', nodes', ring, nodes, v, h, s');
    SuccessorLeast(ring', key, t');
    SuccessorLeast(ring, key, t);
    SameHashSameNode(ring, nodes, ring', nodes', v, h, s, s');
  }

  /** Where a key goes depends only on the set of nodes, not on how the ring came about. */
  lemma HistoryIndependent(ring: seq<Entry>, ring': seq<Entry>, nodes: set<NodeId>, v: nat, h: Hashes, key: nat)
    requires RingOf(ring, nodes, v, h) && RingOf(ring', nodes, v, h) && DistinctHashes(h) && ring != [] && ring' != []
    ensures Successor(ring', key).node == Successor(ring, key).node
  {
    assert Placed(Successor(ring', key), nodes, v, h);
    OthersStay(ring, nodes, ring', nodes, v, h, key);
  }

  /** Adding a node moves keys only to it; read the other way, removing one moves only its own keys. */
  lemma OneNodeMoves(ring: seq<Entry>, nodes: set<NodeId>, ring': seq<Entry>, n: NodeId, v: nat, h: Hashes, key: nat)
    requires RingOf(ring, nodes, v, h) && RingOf(ring', nodes + {n}, v, h) && DistinctHashes(h) && ring != [] && ring' != []
    ensures Successor(ring', key).node == n || Successor(ring', key).node == Successor(ring, key).node
  {
    if Successor(ring', key).node != n {
      assert Placed(Successor(ring', key), nodes + {n}, v, h);
      OthersStay(ring, nodes, ring', nodes + {n}, v, h, key);
    }
  }

  /** Every key stays on its node or moves to `n`. */
  ghost predicate MovesOnlyTo(ring: seq<Entry>, ring': seq<Entry>, n: NodeId)
    requires ring != [] && ring' != []
  {
    forall key {:trigger Successor(ring', key)} ::
      Successor(ring', key).node == n || Successor(ring', key).node == Successor(ring, key).node
  }

  lemma AllKeysMove(ring: seq<Entry>, nodes: set<NodeId>, ring': seq<Entry>, n: NodeId, v: nat, h: Hashes)
    requires RingOf(ring, nodes, v, h) && RingOf(ring', nodes + {n}, v, h) && DistinctHashes(h) && ring != [] && ring' != []
    ensures MovesOnlyTo(ring, ring', n)
  {
    forall key ensures Successor(ring', key).node == n || Successor(ring', key).node == Successor(ring, key).node {
      OneNodeMoves(ring, nodes, ring', n, v, h, key);
    }
  }

  // ---- Building and pruning ------------------------------------------------

  function Insert(e: Entry, ring: seq<Entry>): (r: seq<Entry>)
    ensures forall x :: x in r <==> x in ring || x == e
  {
    if ring == [] || e.hash <= ring[0].hash then [e] + ring
    else
      assert ring == [ring[0]] + ring[1..];
      [ring[0]] + Insert(e, ring[1..])
  }

  function SortByHash(entries: seq<Entry>): (r: seq<Entry>)
    ensures forall x :: x in r <==> x in entries
  {
    if entries == [] then []
    else
      assert entries == [entries[0]] + entries[1..];
      Insert(entries[0], SortByHash(entries[1..]))
  }

  lemma {:induction false} InsertSorted(e: Entry, ring: seq<Entry>)
    requires Sorted(ring)
    ensures Sorted(Insert(e, ring))
  {
    if ring == [] || e.hash <= ring[0].hash {
    } else {
      InsertSorted(e, ring[1..]);
      var rest := Insert(e, ring[1..]);
      forall j | 0 <= j < |rest| ensures ring[0].hash <= rest[j].hash {
        assert rest[j] in rest;
      }
    }
  }

  lemma {:induction false} SortSorted(entries: seq<Entry>)
    ensures Sorted(SortByHash(entries))
  {
    if entries != [] {
      SortSorted(entries[1..]);
      InsertSorted(entries[0], SortByHash(entries[1..]));
    }
  }

  /** The entries of all nodes but one, in order. */
  function Retain(ring: seq<Entry>, gone: NodeId): (r: seq<Entry>)
    ensures forall x :: x in r <==> x in ring && x.node != gone
  {
    if ring == [] then []
    else Retain(ring[..|ring| - 1], gone) + if ring[|ring| - 1].node == gone then [] else [ring[|ring| - 1]]
  }

  lemma {:induction false} RetainSorted(ring: seq<Entry>, gone: NodeId)
    requires Sorted(ring)
    ensures Sorted(Retain(ring, gone))
  {
    if ring != [] {
      var n := |ring| - 1;
      RetainSorted(ring[..n], gone);
      var kept := Retain(ring[..n], gone);
      forall i | 0 <= i < |kept| ensures kept[i].hash <= ring[n].hash {
        assert kept[i] in kept;
      }
    }
  }
}
