/**
 * The leader's commit rule: entry n/2 of the sorted match list is the greatest index that
 * at least half of the cluster holds, and such a half meets every election majority.
 */
module RaftQuorum {
  import opened RaftTypes
  import opened RaftHandlers
  import opened RaftCluster
  import opened RaftElection

  /** How many values reach `v`. */
  function CountAtLeast(s: seq<nat>, v: nat): nat {
    if s == [] then 0 else (if s[0] >= v then 1 else 0) + CountAtLeast(s[1..], v)
  }

  ghost predicate Ascending(s: seq<nat>) {
    forall i, j :: 0 <= i <= j < |s| ==> s[i] <= s[j]
  }

  lemma {:induction false} InsertOk(x: nat, s: seq<nat>, v: nat)
    requires Ascending(s)
    ensures Ascending(Insert(x, s)) && |Insert(x, s)| == |s| + 1
    ensures CountAtLeast(Insert(x, s), v) == CountAtLeast([x] + s, v)
    ensures s != [] && x > s[0] ==> Insert(x, s)[0] == s[0]
    ensures s == [] || x <= s[0] ==> Insert(x, s)[0] == x
  {
    if s == [] || x <= s[0] {
    } else {
      InsertOk(x, s[1..], v);
      var r := Insert(x, s[1..]);
      assert r[0] >= s[0];
      assert ([x] + s)[1..] == s && ([x] + s[1..])[1..] == s[1..];
      assert ([s[0]] + r)[1..] == r;
    }
  }

  lemma {:induction false} SortOk(s: seq<nat>, v: nat)
    ensures Ascending(Sort(s))
    ensures CountAtLeast(Sort(s), v) == CountAtLeast(s, v)
  {
    if s != [] {
      SortOk(s[1..], v);
      InsertOk(s[0], Sort(s[1..]), v);
      assert ([s[0]] + Sort(s[1..]))[1..] == Sort(s[1..]);
    }
  }

  lemma {:induction false} CountAscending(s: seq<nat>, i: nat, v: nat)
    requires Ascending(s) && i < |s|
    ensures v <= s[i] ==> CountAtLeast(s, v) >= |s| - i
    ensures v > s[i] ==> CountAtLeast(s, v) <= |s| - i - 1
  {
    if i == 0 {
      CountExtremes(s, v);
      if v > s[0] && |s| > 1 {
        CountExtremes(s[1..], v);
      }
    } else {
      CountAscending(s[1..], i - 1, v);
    }
  }

  lemma {:induction false} CountExtremes(s: seq<nat>, v: nat)
    ensures CountAtLeast(s, v) <= |s|
    ensures (forall i :: 0 <= i < |s| ==> s[i] >= v) ==> CountAtLeast(s, v) == |s|
  {
    if s != [] {
      CountExtremes(s[1..], v);
    }
  }

  /** `k` is the greatest index that at least half of the listed nodes have reached. */
  lemma MajorityMatchIsGreatest(st: NodeState, peers: seq<NodeId>, v: nat)
    ensures 2 * CountAtLeast(MatchList(st, peers), v) >= |peers| + 1 <==> v <= MajorityMatch(st, peers)
  {
    var ml := MatchList(st, peers);
    var sorted := Sort(ml);
    SortOk(ml, v);
    CountAscending(sorted, |sorted| / 2, v);
  }

  /** The index a node is known to hold, as the leader `n` sees it. */
  function Reach(st: NodeState, n: NodeId, p: NodeId): nat {
    if p == n then LastLogIndex(st.log) else MatchOf(st, p)
  }

  ghost function Reached(st: NodeState, n: NodeId, members: set<NodeId>, v: nat): set<NodeId> {
    set p | p in members && Reach(st, n, p) >= v
  }

  ghost predicate CommitQuorum(members: set<NodeId>, c: set<NodeId>) {
    c <= members && 2 * |c| >= |members|
  }

  ghost function ReachedAmong(st: NodeState, keys: seq<NodeId>, v: nat): set<NodeId> {
    set p | p in keys && MatchOf(st, p) >= v
  }

  lemma {:induction false} CountIsSetSize(st: NodeState, keys: seq<NodeId>, v: nat)
    requires forall i, j :: 0 <= i < j < |keys| ==> keys[i] != keys[j]
    ensures CountAtLeast(MatchList(st, keys), v)
         == |ReachedAmong(st, keys, v)| + (if LastLogIndex(st.log) >= v then 1 else 0)
  {
    if keys == [] {
      assert ReachedAmong(st, keys, v) == {};
    } else {
      CountIsSetSize(st, keys[1..], v);
      assert MatchList(st, keys)[1..] == MatchList(st, keys[1..]);
      ReachedStep(st, keys, v);
    }
  }

  lemma ReachedStep(st: NodeState, keys: seq<NodeId>, v: nat)
    requires keys != [] && keys[0] !in keys[1..]
    ensures |ReachedAmong(st, keys, v)|
         == |ReachedAmong(st, keys[1..], v)| + (if MatchOf(st, keys[0]) >= v then 1 else 0)
  {
    var all, sub := ReachedAmong(st, keys, v), ReachedAmong(st, keys[1..], v);
    assert keys == [keys[0]] + keys[1..];
    if MatchOf(st, keys[0]) >= v {
      assert all == sub + {keys[0]};
    } else {
      assert all == sub;
    }
  }

  /** The nodes that reached the leader's commit candidate form a commit quorum. */
  lemma MajorityMatchQuorum(st: NodeState, n: NodeId, members: set<NodeId>, keys: seq<NodeId>)
    requires n in members && st.nextIndex.Keys == members - {n} && Lists(keys, st.nextIndex)
    ensures CommitQuorum(members, Reached(st, n, members, MajorityMatch(st, keys)))
  {
    var k := MajorityMatch(st, keys);
    MajorityMatchIsGreatest(st, keys, k);
    CountIsSetSize(st, keys, k);
    ListedPeers(st, n, members, keys);
    ReachedSplit(st, n, members, keys, k);
  }

  lemma ListedPeers(st: NodeState, n: NodeId, members: set<NodeId>, keys: seq<NodeId>)
    requires n in members && st.nextIndex.Keys == members - {n} && Lists(keys, st.nextIndex)
    ensures Elements(keys) == members - {n} && |members| == |keys| + 1
  {
    assert forall p :: p in keys <==> p in st.nextIndex.Keys;
    ListedSize(keys);
    assert Elements(keys) == members - {n};
  }

  lemma ReachedSplit(st: NodeState, n: NodeId, members: set<NodeId>, keys: seq<NodeId>, k: nat)
    requires n in members && Elements(keys) == members - {n}
    ensures |Reached(st, n, members, k)|
         == |ReachedAmong(st, keys, k)| + (if LastLogIndex(st.log) >= k then 1 else 0)
  {
    assert forall p :: p in keys <==> p in Elements(keys);
    var peers := ReachedAmong(st, keys, k);
    assert n !in peers;
    assert Reached(st, n, members, k) == peers + (if LastLogIndex(st.log) >= k then {n} else {});
  }

  ghost function Elements(keys: seq<NodeId>): set<NodeId> {
    set p | p in keys
  }

  lemma {:induction false} ListedSize(keys: seq<NodeId>)
    requires forall i, j :: 0 <= i < j < |keys| ==> keys[i] != keys[j]
    ensures |Elements(keys)| == |keys|
  {
    if keys != [] {
      var rest := keys[1..];
      ListedSize(rest);
      assert keys == [keys[0]] + rest;
      assert Elements(keys) == Elements(rest) + {keys[0]};
    }
  }

  /** Half of a cluster of any size, even or odd, meets every majority of it. */
  lemma QuorumsMeet(members: set<NodeId>, c: set<NodeId>, votes: set<NodeId>) returns (x: NodeId)
    requires CommitQuorum(members, c) && Majority(members, votes)
    ensures x in c && x in votes
  {
    x := Overlap(members, c, votes);
  }
}
