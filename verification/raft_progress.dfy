/**
 * What the cluster can always still do: whatever has happened, any majority can elect one of its
 * members by itself and have it commit a new entry.
 */
module RaftProgress {
  import opened RaftTypes
  import opened RaftHandlers
  import opened RaftLog
  import opened RaftCluster
  import opened RaftElection
  import opened RaftQuorum
  import opened RaftSafety
  import opened RaftTheorems

  // ---- When a vote is granted ------------------------------------------------

  /**
   * What asking for a vote does: it is granted exactly when the vote is free, the term not old and the
   * last entries compare; only a grant is saved; a newer term always makes a follower without a vote.
   */
  lemma VoteOutcome(st: NodeState, r: RequestVoteRequest)
    ensures var (st', resp, save) := HandleRequestVote(st, r);
            && save == resp.voteGranted
            && (resp.voteGranted <==>
                  && (r.term > st.currentTerm
                      || (r.term == st.currentTerm && (st.votedFor.None? || st.votedFor == Some(r.candidateId))))
                  && (st.log == []
                      || r.lastLogTerm > st.log[|st.log| - 1].term
                      || (r.lastLogTerm == st.log[|st.log| - 1].term && r.lastLogIndex >= st.log[|st.log| - 1].index)))
            && (r.term < st.currentTerm ==> st' == st && resp.term == st.currentTerm)
            && (r.term == st.currentTerm ==>
                  resp.term == r.term && st' == if resp.voteGranted then st.(votedFor := Some(r.candidateId)) else st)
            && (r.term > st.currentTerm ==>
                  && resp.term == r.term
                  && st' == st.(role := Follower, currentTerm := r.term, leaderId := None,
                                votedFor := if resp.voteGranted then Some(r.candidateId) else None))
  {
  }

  /**
   * What an append request does besides the log: an old term changes nothing; otherwise the sender is the
   * leader, the request succeeds exactly when the entry before its own is there, and all is saved.
   */
  lemma AppendOutcome(st: NodeState, r: AppendEntriesRequest)
    requires WellFormed(st.log)
    ensures var (st', resp, save) := HandleAppendEntries(st, r);
            && save == (r.term >= st.currentTerm)
            && (r.term < st.currentTerm ==> st' == st && resp == AppendEntriesResponse(st.currentTerm, false))
            && (r.term >= st.currentTerm ==>
                  && resp.term == r.term && st'.currentTerm == r.term && st'.leaderId == Some(r.leaderId)
                  && (resp.success <==>
                        || r.prevLogIndex == 0
                        || (r.prevLogIndex <= |st.log| && st.log[r.prevLogIndex - 1].term == r.prevLogTerm)
                        || (r.prevLogIndex > |st.log| && r.prevLogTerm == 0))
                  && (if r.term > st.currentTerm || st.role.Candidate? then st'.role.Follower? && st'.votedFor.None?
                      else st'.role == st.role && st'.votedFor == st.votedFor)
                  && (!resp.success ==> st'.log == st.log && st'.commitIndex == st.commitIndex)
                  && st'.nextIndex == st.nextIndex && st'.matchIndex == st.matchIndex && st'.lastApplied == st.lastApplied)
  {
    LogTermAtWellFormed(st.log, r.prevLogIndex);
  }

  /** The request of a candidate holding `log`. */
  function Asking(me: NodeId, t: nat, log: Log): RequestVoteRequest {
    RequestVoteRequest(t, me, LastLogIndex(log), LastLogTerm(log))
  }

  /** A node in an older term votes for a candidate holding `log`. */
  ghost predicate WouldElect(st: NodeState, log: Log) {
    forall me, t {:trigger Asking(me, t, log)} :: t > st.currentTerm ==> HandleRequestVote(st, Asking(me, t, log)).1.voteGranted
  }

  /** Of any two nodes one would elect the other: no two logs refuse each other. */
  lemma NoMutualRefusal(a: NodeState, b: NodeState)
    ensures WouldElect(a, b.log) || WouldElect(b, a.log)
  {
  }

  lemma ElectTransitive(a: NodeState, b: NodeState, log: Log)
    requires WouldElect(a, b.log) && WouldElect(b, log)
    ensures WouldElect(a, log)
  {
    assert HandleRequestVote(a, Asking(0, a.currentTerm + 1, b.log)).1.voteGranted;
    assert HandleRequestVote(b, Asking(0, b.currentTerm + 1, log)).1.voteGranted;
  }

  /** Among any nodes there is one that all of them would elect. */
  lemma {:induction false} SomeoneElectable(w: World, q: set<NodeId>) returns (x: NodeId)
    requires q != {} && q <= w.hosts.Keys
    ensures x in q && forall y :: y in q ==> WouldElect(w.hosts[y].st, w.hosts[x].st.log)
  {
    var z :| z in q;
    x := z;
    NoMutualRefusal(w.hosts[z].st, w.hosts[z].st);
    if q != {z} {
      var b := SomeoneElectable(w, q - {z});
      NoMutualRefusal(w.hosts[z].st, w.hosts[b].st);
      if WouldElect(w.hosts[z].st, w.hosts[b].st.log) {
        x := b;
      } else {
        forall y | y in q ensures WouldElect(w.hosts[y].st, w.hosts[z].st.log) {
          if y != z {
            ElectTransitive(w.hosts[y].st, w.hosts[b].st, w.hosts[z].st.log);
          }
        }
      }
    }
  }

  // ---- Continuing a run ------------------------------------------------------

  datatype History = History(ws: seq<World>, acts: seq<Action>)

  ghost predicate IsRun(members: set<NodeId>, r: History) { Run(members, r.ws, r.acts) }

  ghost function Now(members: set<NodeId>, r: History): World
    requires IsRun(members, r)
  {
    r.ws[|r.ws| - 1]
  }

  /** `r'` goes on from `r` by steps of nodes of `q` that neither crash nor restart. */
  ghost predicate Continues(members: set<NodeId>, q: set<NodeId>, r: History, r': History) {
    && IsRun(members, r) && IsRun(members, r') && r.ws <= r'.ws && r.acts <= r'.acts
    && forall i {:trigger r'.acts[i]} :: |r.acts| <= i < |r'.acts| ==> r'.acts[i].n in q && !r'.acts[i].Restart?
  }

  lemma ContinuesOn(members: set<NodeId>, q: set<NodeId>, a: History, b: History, c: History)
    requires Continues(members, q, a, b) && Continues(members, q, b, c)
    ensures Continues(members, q, a, c)
  {
    forall i | |a.acts| <= i < |c.acts| ensures c.acts[i].n in q && !c.acts[i].Restart? {
      if i < |b.acts| {
        assert b.acts[i] == c.acts[i];
      }
    }
  }

  lemma ContinuedSafely(members: set<NodeId>, q: set<NodeId>, r: History, r': History)
    requires Continues(members, q, r, r') && SafeRestarts(r.ws, r.acts)
    ensures SafeRestarts(r'.ws, r'.acts)
  {
    forall i | 0 <= i < |r'.acts| ensures SafeRestart(r'.ws[i], r'.acts[i]) {
      if i < |r.acts| {
        assert r.acts[i] == r'.acts[i] && r.ws[i] == r'.ws[i];
        assert SafeRestart(r.ws[i], r.acts[i]);
      }
    }
  }

  lemma StepOn(members: set<NodeId>, q: set<NodeId>, r: History, a: Action, w': World) returns (r': History)
    requires IsRun(members, r) && Next(members, Now(members, r), a, w') && a.n in q && !a.Restart?
    ensures Continues(members, q, r, r') && Now(members, r') == w'
  {
    r' := History(r.ws + [w'], r.acts + [a]);
    RunExtends(members, r.ws, r.acts, a, w');
  }

  lemma {:induction false} RunHosts(members: set<NodeId>, r: History)
    requires IsRun(members, r)
    ensures members != {} && Now(members, r).hosts.Keys == members
  {
    var n := |r.acts| - 1;
    if n >= 0 {
      assert Next(members, r.ws[n], r.acts[n], r.ws[n + 1]);
    }
  }

  // ---- Electing --------------------------------------------------------------

  /** Node `x` stands in term `t` with its log and has asked for votes. */
  ghost predicate Stands(w: World, x: NodeId, t: nat) {
    && x in w.hosts
    && w.hosts[x].st.role.Candidate? && w.hosts[x].st.currentTerm == t
    && VoteRequest(Asking(x, t, w.hosts[x].st.log)) in w.net
    && VoteGranted(t, x, x) in w.net
  }

  /** Nothing but node `x` changed, and its log did not. */
  ghost predicate OnlyMoved(w: World, w': World, x: NodeId) {
    && x in w.hosts && x in w'.hosts && w'.hosts == w.hosts[x := w'.hosts[x]]
    && w'.hosts[x].st.log == w.hosts[x].st.log && w.net <= w'.net
  }

  lemma Stand(members: set<NodeId>, q: set<NodeId>, r: History, x: NodeId) returns (r': History)
    requires IsRun(members, r) && x in q && x in members
    ensures Continues(members, q, r, r')
    ensures var w, w' := Now(members, r), Now(members, r');
            OnlyMoved(w, w', x) && Stands(w', x, w.hosts[x].st.currentTerm + 1)
  {
    RunHosts(members, r);
    var w := Now(members, r);
    var (h', sent) := Effect(members, w, StartElection(x));
    r' := StepOn(members, q, r, StartElection(x), World(w.hosts[x := h'], w.net + sent));
  }

  /** Standing again and again brings a node into any later term. */
  lemma {:induction false} StandIn(members: set<NodeId>, q: set<NodeId>, r: History, x: NodeId, more: nat) returns (r': History)
    requires IsRun(members, r) && x in q && x in members
    ensures Continues(members, q, r, r')
    ensures var w, w' := Now(members, r), Now(members, r');
            OnlyMoved(w, w', x) && Stands(w', x, w.hosts[x].st.currentTerm + 1 + more)
    decreases more
  {
    RunHosts(members, r);
    r' := Stand(members, q, r, x);
    if more > 0 {
      var r1 := r';
      r' := StandIn(members, q, r1, x, more - 1);
      ContinuesOn(members, q, r, r1, r');
    }
  }

  /** The nodes of `voters` are in older terms and would elect `x`. */
  ghost predicate Ready(w: World, x: NodeId, t: nat, voters: set<NodeId>) {
    && x in w.hosts
    && forall y {:trigger y in voters} :: y in voters ==>
         y in w.hosts && y != x && w.hosts[y].st.currentTerm < t && WouldElect(w.hosts[y].st, w.hosts[x].st.log)
  }

  /** The nodes of `voters` follow in term `t` and have voted for `x`. */
  ghost predicate Voted(w: World, x: NodeId, t: nat, voters: set<NodeId>) {
    forall y {:trigger y in voters} :: y in voters ==>
      && y in w.hosts && w.hosts[y].st.role.Follower? && w.hosts[y].st.currentTerm == t
      && VoteGranted(t, y, x) in w.net
  }

  ghost predicate OthersStay(w: World, w': World, changed: set<NodeId>) {
    && w'.hosts.Keys == w.hosts.Keys
    && forall z {:trigger w'.hosts[z]} :: z in w.hosts && z !in changed ==> w'.hosts[z] == w.hosts[z]
  }

  lemma AskOne(members: set<NodeId>, q: set<NodeId>, r: History, x: NodeId, t: nat, y: NodeId) returns (r': History)
    requires IsRun(members, r) && y in q && y in members && Stands(Now(members, r), x, t) && Ready(Now(members, r), x, t, {y})
    ensures Continues(members, q, r, r')
    ensures var w, w' := Now(members, r), Now(members, r');
            && w.net <= w'.net && OthersStay(w, w', {y})
            && Voted(w', x, t, {y})
  {
    RunHosts(members, r);
    var w := Now(members, r);
    var req := Asking(x, t, w.hosts[x].st.log);
    assert HandleRequestVote(w.hosts[y].st, req).1.voteGranted;
    var (h', sent) := Effect(members, w, AnswerVote(y, req));
    r' := StepOn(members, q, r, AnswerVote(y, req), World(w.hosts[y := h'], w.net + sent));
  }

  lemma StillReady(w: World, w': World, x: NodeId, t: nat, y: NodeId, voters: set<NodeId>)
    requires w.net <= w'.net && OthersStay(w, w', {y}) && y in voters
    requires Stands(w, x, t) && Ready(w, x, t, voters)
    ensures Stands(w', x, t) && Ready(w', x, t, voters - {y})
  {
    assert w'.hosts[x] == w.hosts[x];
    forall z | z in voters - {y}
      ensures z in w'.hosts && z != x && w'.hosts[z].st.currentTerm < t && WouldElect(w'.hosts[z].st, w'.hosts[x].st.log)
    {
      assert z in voters && w'.hosts[z] == w.hosts[z];
    }
  }

  lemma StillVoted(w: World, w': World, x: NodeId, t: nat, y: NodeId, voters: set<NodeId>)
    requires w.net <= w'.net && OthersStay(w, w', voters - {y}) && y in voters
    requires Voted(w, x, t, {y}) && Voted(w', x, t, voters - {y})
    ensures Voted(w', x, t, voters)
  {
    assert y in {y} && w'.hosts[y] == w.hosts[y];
    assert forall z :: z in voters ==> z == y || z in voters - {y};
  }

  lemma {:induction false} AskAll(members: set<NodeId>, q: set<NodeId>, r: History, x: NodeId, t: nat, voters: set<NodeId>) returns (r': History)
    requires IsRun(members, r) && voters <= q && voters <= members
    requires Stands(Now(members, r), x, t) && Ready(Now(members, r), x, t, voters)
    ensures Continues(members, q, r, r')
    ensures var w, w' := Now(members, r), Now(members, r');
            && w.net <= w'.net && OthersStay(w, w', voters) && Voted(w', x, t, voters)
    decreases voters
  {
    r' := r;
    if voters != {} {
      var y :| y in voters;
      var r1 := AskOne(members, q, r, x, t, y);
      StillReady(Now(members, r), Now(members, r1), x, t, y, voters);
      r' := AskAll(members, q, r1, x, t, voters - {y});
      ContinuesOn(members, q, r, r1, r');
      StillVoted(Now(members, r1), Now(members, r'), x, t, y, voters);
    }
  }

  lemma {:induction false} TermBound(w: World, q: set<NodeId>) returns (t: nat)
    requires q <= w.hosts.Keys
    ensures forall y :: y in q ==> w.hosts[y].st.currentTerm <= t
  {
    t := 0;
    if q != {} {
      var y :| y in q;
      t := TermBound(w, q - {y});
      if w.hosts[y].st.currentTerm > t {
        t := w.hosts[y].st.currentTerm;
      }
    }
  }

  /** Node `x` leads term `t`, newer than any of the majority's, as its peers that elected it know. */
  ghost predicate Elected(members: set<NodeId>, w: World, x: NodeId, t: nat, q: set<NodeId>, log: Log) {
    && x in w.hosts && x in q
    && w.hosts[x].st.role.Leader? && w.hosts[x].st.currentTerm == t && w.hosts[x].st.log == log
    && w.hosts[x].st.nextIndex.Keys == members - {x} && w.hosts[x].st.matchIndex.Keys == members - {x}
    && (forall p :: p in w.hosts[x].st.matchIndex ==> w.hosts[x].st.matchIndex[p] == 0)
    && Voted(w, x, t, q - {x})
  }

  lemma Win(members: set<NodeId>, q: set<NodeId>, r: History, x: NodeId, t: nat) returns (r': History)
    requires IsRun(members, r) && Majority(members, q) && x in q
    requires Stands(Now(members, r), x, t) && Voted(Now(members, r), x, t, q - {x})
    ensures Continues(members, q, r, r')
    ensures Elected(members, Now(members, r'), x, t, q, Now(members, r).hosts[x].st.log)
  {
    RunHosts(members, r);
    var w := Now(members, r);
    assert forall y :: y in q ==> VoteGranted(t, y, x) in w.net by {
      forall y | y in q ensures VoteGranted(t, y, x) in w.net {
        if y != x {
          assert y in q - {x} && y in w.hosts && w.hosts[y].st.currentTerm == t;
        }
      }
    }
    var (h', sent) := Effect(members, w, WinElection(x, q));
    r' := StepOn(members, q, r, WinElection(x, q), World(w.hosts[x := h'], w.net + sent));
  }

  /**
   * Whatever has happened so far, restarts of any kind included, any majority can make one of its
   * members the leader of a new term by itself, and nothing is lost from that member's log.
   */
  lemma MajorityElects(members: set<NodeId>, r: History, q: set<NodeId>) returns (r': History, x: NodeId, t: nat)
    requires IsRun(members, r) && q <= members && 2 * |q| > |members|
    ensures Continues(members, q, r, r') && x in q && x in Now(members, r).hosts
    ensures forall y :: y in q ==> y in Now(members, r).hosts && Now(members, r).hosts[y].st.currentTerm < t
    ensures Elected(members, Now(members, r'), x, t, q, Now(members, r).hosts[x].st.log)
  {
    RunHosts(members, r);
    var w := Now(members, r);
    x := SomeoneElectable(w, q);
    var bound := TermBound(w, q);
    var r1 := StandIn(members, q, r, x, bound);
    t := w.hosts[x].st.currentTerm + 1 + bound;
    var w1 := Now(members, r1);
    forall y | y in q - {x}
      ensures y in w1.hosts && w1.hosts[y].st.currentTerm < t && WouldElect(w1.hosts[y].st, w1.hosts[x].st.log)
    {
      assert w1.hosts[y] == w.hosts[y];
    }
    RunHosts(members, r1);
    var r2 := AskAll(members, q, r1, x, t, q - {x});
    ContinuesOn(members, q, r, r1, r2);
    assert Now(members, r2).hosts[x] == w1.hosts[x];
    r' := Win(members, q, r2, x, t);
    ContinuesOn(members, q, r, r2, r');
  }

  // ---- Committing ------------------------------------------------------------

  /** Node `x` leads term `t` with `log`, all of which it knows the peers in `known` to hold, and no other. */
  ghost predicate Leading(members: set<NodeId>, w: World, x: NodeId, t: nat, log: Log, known: set<NodeId>) {
    && x in w.hosts && w.hosts[x].st.role.Leader? && w.hosts[x].st.currentTerm == t && w.hosts[x].st.log == log
    && w.hosts[x].st.nextIndex.Keys == members - {x} && w.hosts[x].st.matchIndex.Keys == members - {x}
    && forall p {:trigger MatchOf(w.hosts[x].st, p)} :: MatchOf(w.hosts[x].st, p) == if p in known then |log| else 0
  }

  /** The nodes of `followers` follow in term `t`. */
  ghost predicate Following(w: World, t: nat, followers: set<NodeId>) {
    forall y {:trigger y in followers} :: y in followers ==>
      y in w.hosts && w.hosts[y].st.role.Follower? && w.hosts[y].st.currentTerm == t
  }

  /** The request for a leader's whole log. */
  function WholeLog(x: NodeId, t: nat, log: Log): AppendEntriesRequest {
    AppendEntriesRequest(t, x, 0, 0, log, 0)
  }

  function Proposed(log: Log, t: nat, data: seq<Byte>): Log {
    log + [LogEntry(LastLogIndex(log) + 1, t, data, Normal)]
  }

  lemma ProposeOn(members: set<NodeId>, q: set<NodeId>, r: History, x: NodeId, t: nat, log: Log, data: seq<Byte>) returns (r': History)
    requires IsRun(members, r) && Elected(members, Now(members, r), x, t, q, log) && x in members
    ensures Continues(members, q, r, r')
    ensures Leading(members, Now(members, r'), x, t, Proposed(log, t, data), {})
    ensures Following(Now(members, r'), t, q - {x})
    ensures members == {x} ==> Now(members, r').hosts[x].st.commitIndex == LastLogIndex(Proposed(log, t, data))
  {
    RunHosts(members, r);
    var w := Now(members, r);
    var (h', sent) := Effect(members, w, Propose(x, data));
    r' := StepOn(members, q, r, Propose(x, data), World(w.hosts[x := h'], w.net + sent));
    assert Following(Now(members, r'), t, q - {x}) by {
      forall y | y in q - {x} ensures y in w.hosts && w.hosts[y].st.role.Follower? && w.hosts[y].st.currentTerm == t {}
    }
  }

  lemma SendWhole(members: set<NodeId>, q: set<NodeId>, r: History, x: NodeId, t: nat, log: Log) returns (r': History)
    requires IsRun(members, r) && Leading(members, Now(members, r), x, t, log, {}) && x in q && x in members
    ensures Continues(members, q, r, r')
    ensures Now(members, r').hosts == Now(members, r).hosts
    ensures AppendRequest(WholeLog(x, t, log)) in Now(members, r').net
  {
    RunHosts(members, r);
    var w := Now(members, r);
    var a := SendEntries(x, 0, |log|, 0);
    var (h', sent) := Effect(members, w, a);
    assert log[0..|log|] == log;
    assert w.hosts[x := h'] == w.hosts;
    r' := StepOn(members, q, r, a, World(w.hosts[x := h'], w.net + sent));
  }

  ghost predicate Acks(w: World, t: nat, k: nat, followers: set<NodeId>) {
    forall y {:trigger AppendAck(t, y, k)} :: y in followers ==> AppendAck(t, y, k) in w.net
  }

  lemma AnswerOne(members: set<NodeId>, q: set<NodeId>, r: History, x: NodeId, t: nat, log: Log, y: NodeId) returns (r': History)
    requires IsRun(members, r) && AppendRequest(WholeLog(x, t, log)) in Now(members, r).net
    requires y in q && y in members && y != x && Following(Now(members, r), t, {y})
    ensures Continues(members, q, r, r')
    ensures var w, w' := Now(members, r), Now(members, r');
            w.net <= w'.net && OthersStay(w, w', {y}) && Acks(w', t, |log|, {y})
  {
    RunHosts(members, r);
    var w := Now(members, r);
    assert y in {y} && w.hosts[y].st.role.Follower?;
    var a := AnswerAppend(y, WholeLog(x, t, log));
    var (h', sent) := Effect(members, w, a);
    assert NodeAppendEntries(w.hosts[y], WholeLog(x, t, log)).1 == AppendEntriesResponse(t, true);
    r' := StepOn(members, q, r, a, World(w.hosts[y := h'], w.net + sent));
  }

  lemma {:induction false} AnswerAll(members: set<NodeId>, q: set<NodeId>, r: History, x: NodeId, t: nat, log: Log, followers: set<NodeId>)
    returns (r': History)
    requires IsRun(members, r) && AppendRequest(WholeLog(x, t, log)) in Now(members, r).net
    requires followers <= q && followers <= members && x !in followers && Following(Now(members, r), t, followers)
    ensures Continues(members, q, r, r')
    ensures var w, w' := Now(members, r), Now(members, r');
            w.net <= w'.net && OthersStay(w, w', followers) && Acks(w', t, |log|, followers)
    decreases followers
  {
    r' := r;
    if followers != {} {
      var y :| y in followers;
      var r1 := AnswerOne(members, q, r, x, t, log, y);
      r' := AnswerAll(members, q, r1, x, t, log, followers - {y});
      ContinuesOn(members, q, r, r1, r');
    }
  }

  lemma {:induction false} ListKeys(s: set<NodeId>) returns (keys: seq<NodeId>)
    ensures Elements(keys) == s && forall i, j :: 0 <= i < j < |keys| ==> keys[i] != keys[j]
  {
    keys := [];
    if s != {} {
      var y :| y in s;
      var rest := ListKeys(s - {y});
      keys := [y] + rest;
      forall i, j | 0 <= i < j < |keys| ensures keys[i] != keys[j] {
        if i == 0 {
          assert rest[j - 1] in Elements(rest);
        }
      }
      assert Elements(keys) == Elements(rest) + {y};
    }
  }

  /** What the commit rule picks when exactly the nodes in `known` and the leader hold its whole log. */
  lemma KnownMajority(members: set<NodeId>, q: set<NodeId>, x: NodeId, st: NodeState, keys: seq<NodeId>)
    requires Majority(members, q) && x in q && WellFormed(st.log)
    requires Elements(keys) == members - {x} && forall i, j :: 0 <= i < j < |keys| ==> keys[i] != keys[j]
    requires forall p {:trigger MatchOf(st, p)} :: MatchOf(st, p) == if p in q - {x} then |st.log| else 0
    ensures MajorityMatch(st, keys) == |st.log|
  {
    var n := |st.log|;
    ListedSize(keys);
    assert forall p :: p in keys <==> p in Elements(keys);
    assert LastLogIndex(st.log) == n;
    CountIsSetSize(st, keys, n + 1);
    assert ReachedAmong(st, keys, n + 1) == {};
    MajorityMatchIsGreatest(st, keys, n + 1);
    CountIsSetSize(st, keys, n);
    CardinalityMonotone(q - {x}, ReachedAmong(st, keys, n));
    MajorityMatchIsGreatest(st, keys, n);
    assert |members - {x}| == |members| - 1 && |q - {x}| == |q| - 1;
  }

  lemma RecordOne(members: set<NodeId>, q: set<NodeId>, r: History, x: NodeId, t: nat, log: Log, known: set<NodeId>, y: NodeId)
    returns (r': History)
    requires IsRun(members, r) && Leading(members, Now(members, r), x, t, log, known) && x in q && x in members
    requires y in members && y != x && Acks(Now(members, r), t, |log|, {y})
    ensures Continues(members, q, r, r')
    ensures Now(members, r').net == Now(members, r).net && Leading(members, Now(members, r'), x, t, log, known + {y})
    ensures Majority(members, q) && known + {y} == q - {x} && WellFormed(log) && log != [] && log[|log| - 1].term == t ==>
              Now(members, r').hosts[x].st.commitIndex >= |log|
  {
    RunHosts(members, r);
    var w := Now(members, r);
    var st := w.hosts[x].st;
    var keys := ListKeys(members - {x});
    assert st.nextIndex[y := |log| + 1].Keys == members - {x};
    assert forall p :: p in keys <==> p in Elements(keys);
    assert AppendAck(t, y, |log|) in w.net;
    var a := RecordAck(x, y, |log|, keys);
    var (h', sent) := Effect(members, w, a);
    var noted := st.(matchIndex := st.matchIndex[y := |log|], nextIndex := st.nextIndex[y := |log| + 1]);
    forall p ensures MatchOf(noted, p) == if p in known + {y} then |log| else 0 {
      assert MatchOf(st, p) == if p in known then |log| else 0;
    }
    assert h'.st == AdvanceCommit(noted, keys).0;
    if Majority(members, q) && known + {y} == q - {x} && WellFormed(log) && log != [] && log[|log| - 1].term == t {
      KnownMajority(members, q, x, noted, keys);
      LogTermAtWellFormed(log, |log|);
    }
    forall p ensures MatchOf(h'.st, p) == if p in known + {y} then |log| else 0 {
      assert MatchOf(noted, p) == MatchOf(h'.st, p);
    }
    r' := StepOn(members, q, r, a, World(w.hosts[x := h'], w.net + sent));
  }

  lemma {:induction false} RecordAll(members: set<NodeId>, q: set<NodeId>, r: History, x: NodeId, t: nat, log: Log, known: set<NodeId>, rest: set<NodeId>)
    returns (r': History)
    requires IsRun(members, r) && Leading(members, Now(members, r), x, t, log, known) && x in q && x in members
    requires rest <= members && x !in rest && Acks(Now(members, r), t, |log|, rest) && rest != {}
    requires Majority(members, q) && known + rest == q - {x} && WellFormed(log) && log != [] && log[|log| - 1].term == t
    ensures Continues(members, q, r, r')
    ensures Leading(members, Now(members, r'), x, t, log, q - {x}) && Now(members, r').hosts[x].st.commitIndex >= |log|
    decreases rest
  {
    var y :| y in rest;
    r' := RecordOne(members, q, r, x, t, log, known, y);
    if rest == {y} {
      assert known + {y} == q - {x};
    } else {
      var r1 := r';
      assert known + {y} + (rest - {y}) == q - {x};
      r' := RecordAll(members, q, r1, x, t, log, known + {y}, rest - {y});
      ContinuesOn(members, q, r, r1, r');
    }
  }

  /** In a run with safe restarts a log is contiguous and nothing is committed that it lacks. */
  lemma LogsSound(members: set<NodeId>, r: History, x: NodeId)
    requires IsRun(members, r) && SafeRestarts(r.ws, r.acts) && x in Now(members, r).hosts
    ensures var st := Now(members, r).hosts[x].st; WellFormed(st.log) && st.commitIndex <= |st.log|
  {
    var n := |r.ws| - 1;
    LogMatching(members, r.ws, r.acts, n, n, x, x, 0);
    StateMachineSafety(members, r.ws, r.acts, n, n, x, x);
  }

  /** The leader's log with an entry of its own term at the end, all of it committed. */
  ghost predicate Decided(w: World, x: NodeId, t: nat, log: Log) {
    && x in w.hosts && w.hosts[x].st.role.Leader? && w.hosts[x].st.currentTerm == t
    && w.hosts[x].st.log == log && w.hosts[x].st.commitIndex == |log|
  }

  lemma Replicate(members: set<NodeId>, q: set<NodeId>, r: History, x: NodeId, t: nat, log: Log) returns (r': History)
    requires IsRun(members, r) && SafeRestarts(r.ws, r.acts) && Majority(members, q) && x in q && x in members && q != {x}
    requires Leading(members, Now(members, r), x, t, log, {}) && Following(Now(members, r), t, q - {x})
    requires log != [] && log[|log| - 1].term == t
    ensures Continues(members, q, r, r') && Decided(Now(members, r'), x, t, log)
  {
    RunHosts(members, r);
    LogsSound(members, r, x);
    var r1 := SendWhole(members, q, r, x, t, log);
    var r2 := AnswerAll(members, q, r1, x, t, log, q - {x});
    ContinuesOn(members, q, r, r1, r2);
    assert Now(members, r2).hosts[x] == Now(members, r).hosts[x];
    assert q - {x} != {} by {
      assert q == (q - {x}) + {x};
    }
    r' := RecordAll(members, q, r2, x, t, log, {}, q - {x});
    ContinuesOn(members, q, r, r2, r');
    ContinuedSafely(members, q, r, r');
    LogsSound(members, r', x);
  }

  /**
   * Whatever has happened so far, any majority can by itself, each message reaching its node once,
   * elect one of its members and have it commit any proposal on top of all that member had.
   */
  lemma MajorityCommits(members: set<NodeId>, r: History, q: set<NodeId>, data: seq<Byte>)
    returns (r': History, x: NodeId, t: nat)
    requires IsRun(members, r) && SafeRestarts(r.ws, r.acts) && q <= members && 2 * |q| > |members|
    ensures Continues(members, q, r, r') && x in q && x in Now(members, r).hosts
    ensures Decided(Now(members, r'), x, t, Proposed(Now(members, r).hosts[x].st.log, t, data))
  {
    RunHosts(members, r);
    var r1;
    r1, x, t := MajorityElects(members, r, q);
    var log := Now(members, r).hosts[x].st.log;
    var r2 := ProposeOn(members, q, r1, x, t, log, data);
    ContinuesOn(members, q, r, r1, r2);
    ContinuedSafely(members, q, r, r2);
    LogsSound(members, r2, x);
    if members == {x} {
      r' := r2;
    } else {
      if q == {x} {
        LoneMajority(members, x);
      }
      r' := Replicate(members, q, r2, x, t, Proposed(log, t, data));
      ContinuesOn(members, q, r, r2, r');
    }
  }

  lemma LoneMajority(members: set<NodeId>, x: NodeId)
    requires Majority(members, {x})
    ensures members == {x}
  {
    assert |members - {x}| == |members| - 1;
    assert members - {x} == {};
  }
}
