/**
 * A cluster of nodes exchanging messages. Messages are never removed from the
 * network, so every step may act on an old, duplicated or reordered message and a
 * message that no step ever uses is lost.
 */
module RaftCluster {
  import opened RaftTypes
  import opened RaftHandlers

  datatype Message =
    | VoteRequest(req: RequestVoteRequest)
      // a granting RequestVote response, as the caller of the remote node sees it
    | VoteGranted(term: nat, voter: NodeId, candidate: NodeId)
    | AppendRequest(append: AppendEntriesRequest)
      // a successful AppendEntries response, paired with the last index its request covered
    | AppendAck(ackTerm: nat, follower: NodeId, upTo: nat)

  datatype World = World(hosts: map<NodeId, Host>, net: set<Message>)

  datatype Action =
    | StartElection(n: NodeId)
    | AnswerVote(n: NodeId, vote: RequestVoteRequest)
    | WinElection(n: NodeId, voters: set<NodeId>)
    | Propose(n: NodeId, data: seq<Byte>)
    | SendHeartbeat(n: NodeId)
    | SendEntries(n: NodeId, prev: nat, upTo: nat, commit: nat)
    | AnswerAppend(n: NodeId, append: AppendEntriesRequest)
    | RecordAck(n: NodeId, peer: NodeId, idx: nat, keys: seq<NodeId>)
    | Restart(n: NodeId)

  predicate Majority(members: set<NodeId>, votes: set<NodeId>) {
    votes <= members && |votes| >= |members| / 2 + 1
  }

  /** The keys of a map, listed once each in any order. */
  ghost predicate Lists(keys: seq<NodeId>, m: map<NodeId, nat>) {
    && (forall i :: 0 <= i < |keys| ==> keys[i] in m)
    && (forall k :: k in m ==> k in keys)
    && (forall i, j :: 0 <= i < j < |keys| ==> keys[i] != keys[j])
  }

  /** A request for the leader's entries after `prev` up to `upTo`, announcing `commit`. */
  function EntriesRequest(st: NodeState, me: NodeId, prev: nat, upTo: nat, commit: nat): AppendEntriesRequest
    requires prev <= upTo <= |st.log|
  {
    AppendEntriesRequest(st.currentTerm, me, prev, LogTermAt(st.log, prev), st.log[prev..upTo], commit)
  }

  ghost predicate Init(members: set<NodeId>, w: World) {
    && members != {}
    && w.hosts.Keys == members
    && w.net == {}
    && forall n :: n in members ==> w.hosts[n] == Host(NewState(), Disk([], HardState(0, None, 0)))
  }

  /** What a step demands of the state it is taken in. */
  ghost predicate Enabled(members: set<NodeId>, w: World, a: Action)
    requires w.hosts.Keys == members
  {
    a.n in members &&
    var st := w.hosts[a.n].st;
    match a
    case StartElection(n) => true
    case AnswerVote(n, vote) => VoteRequest(vote) in w.net
    case WinElection(n, voters) =>
      st.role.Candidate? && Majority(members, voters)
      && forall v :: v in voters ==> VoteGranted(st.currentTerm, v, n) in w.net
    case Propose(n, data) => st.role.Leader?
    case SendHeartbeat(n) => st.role.Leader?
    case SendEntries(n, prev, upTo, commit) =>
      st.role.Leader? && prev <= upTo <= |st.log| && commit <= st.commitIndex && commit <= upTo
    case AnswerAppend(n, append) => AppendRequest(append) in w.net && append.leaderId != n
    case RecordAck(n, peer, idx, keys) =>
      && peer in members && peer != n
      && AppendAck(st.currentTerm, peer, idx) in w.net
      && Lists(keys, st.nextIndex[peer := idx + 1])
    case Restart(n) => true
  }

  /** The host a step leaves on its node and the messages it sends. */
  ghost function Effect(members: set<NodeId>, w: World, a: Action): (Host, set<Message>)
    requires w.hosts.Keys == members && Enabled(members, w, a)
  {
    var h := w.hosts[a.n];
    match a
    case StartElection(n) =>
      var (h', req) := NodeStartElection(h, n);
      (h', {VoteRequest(req), VoteGranted(req.term, n, n)})
    case AnswerVote(n, vote) =>
      var (h', resp) := NodeRequestVote(h, vote);
      (h', if resp.voteGranted then {VoteGranted(resp.term, n, vote.candidateId)} else {})
    case WinElection(n, voters) => (h.(st := BecomeLeader(h.st, n, members - {n})), {})
    case Propose(n, data) => (NodePropose(h, data, members == {n}), {})
    case SendHeartbeat(n) => (h, {AppendRequest(Heartbeat(h.st, n))})
    case SendEntries(n, prev, upTo, commit) =>
      (h, {AppendRequest(EntriesRequest(h.st, n, prev, upTo, commit))})
    case AnswerAppend(n, append) =>
      var (h', resp) := NodeAppendEntries(h, append);
      (h', if resp.success
           then {AppendAck(resp.term, n, append.prevLogIndex + |append.entries|)} else {})
    case RecordAck(n, peer, idx, keys) => (NodeUpdateMatch(h, peer, idx, keys), {})
    case Restart(n) => (NodeRestart(h.disk), {})
  }

  ghost predicate Next(members: set<NodeId>, w: World, a: Action, w': World) {
    && w.hosts.Keys == members
    && Enabled(members, w, a)
    && var (h', sent) := Effect(members, w, a);
       w' == World(w.hosts[a.n := h'], w.net + sent)
  }

  /** A run: states joined by the actions that lead from each to the next. */
  ghost predicate Run(members: set<NodeId>, ws: seq<World>, acts: seq<Action>) {
    && |ws| == |acts| + 1
    && Init(members, ws[0])
    && forall i {:trigger acts[i]} :: 0 <= i < |acts| ==> Next(members, ws[i], acts[i], ws[i + 1])
  }

  /** A restart that finds stored the log the node had in memory. */
  ghost predicate SafeRestart(w: World, a: Action) {
    a.Restart? ==> a.n in w.hosts && w.hosts[a.n].disk.log == w.hosts[a.n].st.log
  }

  ghost predicate SafeRestarts(ws: seq<World>, acts: seq<Action>) {
    |acts| < |ws| && forall i {:trigger acts[i]} :: 0 <= i < |acts| ==> SafeRestart(ws[i], acts[i])
  }

  lemma RunExtends(members: set<NodeId>, ws: seq<World>, acts: seq<Action>, a: Action, w': World)
    requires Run(members, ws, acts) && Next(members, ws[|ws| - 1], a, w')
    ensures Run(members, ws + [w'], acts + [a])
  {
    var ws', acts' := ws + [w'], acts + [a];
    forall i | 0 <= i < |acts'| ensures Next(members, ws'[i], acts'[i], ws'[i + 1]) {
      if i < |acts| {
        assert Next(members, ws[i], acts[i], ws[i + 1]);
      }
    }
  }
}
