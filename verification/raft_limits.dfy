/**
 * Where the guarantees stop: a run showing that the log results need their premise, and when
 * exactly a follower's commit rule is safe and its vote kept.
 */
module RaftLimits {
  import opened RaftTypes
  import opened RaftHandlers
  import opened RaftLog
  import opened RaftCluster
  import opened RaftSafety
  import opened RaftTheorems

  // ---- A restart can undo a commit -----------------------------------------

  const MEMBERS: set<NodeId> := {1, 2, 3}
  const ENTRY := LogEntry(1, 1, [], Normal)
  const SEND := AppendEntriesRequest(1, 1, 0, 0, [ENTRY], 0)

  function State(role: Role, term: nat, vote: Option<NodeId>, log: Log, leader: Option<NodeId>): NodeState {
    NodeState(role, term, vote, log, 0, 0, map[], map[], leader)
  }

  function Fresh(): Host { Host(NewState(), Disk([], HardState(0, None, 0))) }
  function Standing(n: NodeId, t: nat): Host { Host(State(Candidate, t, Some(n), [], None), Disk([], HardState(t, Some(n), 0))) }
  function Voted(t: nat, c: NodeId): Host { Host(State(Follower, t, Some(c), [], None), Disk([], HardState(t, Some(c), 0))) }

  /** Node 1: leader of term 1, then with the entry, then with the entry committed. */
  function Led(): Host {
    var h := Standing(1, 1);
    h.(st := h.st.(role := Leader, leaderId := Some(1), nextIndex := map[2 := 1, 3 := 1], matchIndex := map[2 := 0, 3 := 0]))
  }
  function Proposed(): Host { Led().(st := Led().st.(log := [ENTRY]), disk := Disk([ENTRY], HardState(1, Some(1), 0))) }
  function Decided(): Host {
    Proposed().(st := Proposed().st.(commitIndex := 1, nextIndex := map[2 := 2, 3 := 1], matchIndex := map[2 := 1, 3 := 0]),
                disk := Disk([ENTRY], HardState(1, Some(1), 1)))
  }

  /** Node 2 once it holds the entry: in memory only. */
  function Holding(): Host {
    Host(State(Follower, 1, Some(1), [ENTRY], Some(1)), Disk([], HardState(1, Some(1), 0)))
  }

  /** Node 3: leader of term 2 with an empty log. */
  function Usurper(): Host {
    var h := Standing(3, 2);
    h.(st := h.st.(role := Leader, leaderId := Some(3), nextIndex := map[1 := 1, 2 := 1], matchIndex := map[1 := 0, 2 := 0]))
  }

  function Of(a: Host, b: Host, c: Host, net: set<Message>): World { World(map[1 := a, 2 := b, 3 := c], net) }

  const N1: set<Message> := {VoteRequest(RequestVoteRequest(1, 1, 0, 0)), VoteGranted(1, 1, 1)}
  const N2: set<Message> := N1 + {VoteGranted(1, 2, 1)}
  const N3: set<Message> := N2 + {AppendRequest(SEND)}
  const N4: set<Message> := N3 + {AppendAck(1, 2, 1)}
  const N5: set<Message> := N4 + {VoteRequest(RequestVoteRequest(1, 3, 0, 0)), VoteGranted(1, 3, 3)}
  const N6: set<Message> := N5 + {VoteRequest(RequestVoteRequest(2, 3, 0, 0)), VoteGranted(2, 3, 3)}
  const N7: set<Message> := N6 + {VoteGranted(2, 2, 3)}

  function Restarts(acts: seq<Action>): nat {
    if acts == [] then 0
    else Restarts(acts[..|acts| - 1]) + (if acts[|acts| - 1].Restart? then 1 else 0)
  }

  /** A run with a given number of restarts that ends in `w`. */
  ghost predicate Reached(w: World, restarts: nat) {
    exists ws: seq<World>, acts: seq<Action> ::
      Run(MEMBERS, ws, acts) && ws[|ws| - 1] == w && Restarts(acts) == restarts
  }

  lemma Then(w: World, restarts: nat, a: Action, w': World)
    requires Reached(w, restarts) && Next(MEMBERS, w, a, w')
    ensures Reached(w', restarts + if a.Restart? then 1 else 0)
  {
    var ws: seq<World>, acts: seq<Action> :|
      Run(MEMBERS, ws, acts) && ws[|ws| - 1] == w && Restarts(acts) == restarts;
    var ws', acts' := ws + [w'], acts + [a];
    assert acts'[..|acts|] == acts && acts'[|acts|] == a;
    RunExtends(MEMBERS, ws, acts, a, w');
  }

  lemma Started()
    ensures Reached(W0(), 0)
  {
    assert Run(MEMBERS, [W0()], []);
  }

  // The run's states in order.
  function W0(): World { Of(Fresh(), Fresh(), Fresh(), {}) }
  function W1(): World { Of(Standing(1, 1), Fresh(), Fresh(), N1) }
  function W2(): World { Of(Standing(1, 1), Voted(1, 1), Fresh(), N2) }
  function W3(): World { Of(Led(), Voted(1, 1), Fresh(), N2) }
  function W4(): World { Of(Proposed(), Voted(1, 1), Fresh(), N2) }
  function W5(): World { Of(Proposed(), Voted(1, 1), Fresh(), N3) }
  function W6(): World { Of(Proposed(), Holding(), Fresh(), N4) }
  function W7(): World { Of(Decided(), Holding(), Fresh(), N4) }
  function W8(): World { Of(Decided(), Voted(1, 1), Fresh(), N4) }
  function W9(): World { Of(Decided(), Voted(1, 1), Standing(3, 1), N5) }
  function W10(): World { Of(Decided(), Voted(1, 1), Standing(3, 2), N6) }
  function W11(): World { Of(Decided(), Voted(2, 3), Standing(3, 2), N7) }
  function W12(): World { Of(Decided(), Voted(2, 3), Usurper(), N7) }

  lemma Quorums()
    ensures Majority(MEMBERS, {1, 2}) && Majority(MEMBERS, {2, 3})
    ensures MEMBERS - {1} == {2, 3} && MEMBERS - {3} == {1, 2}
  {
  }

  lemma Step0()
    ensures Next(MEMBERS, W0(), StartElection(1), W1())
  {
  }

  lemma Step1()
    ensures Next(MEMBERS, W1(), AnswerVote(2, RequestVoteRequest(1, 1, 0, 0)), W2())
  {
  }

  lemma FirstWin(net: set<Message>)
    requires VoteGranted(1, 1, 1) in net && VoteGranted(1, 2, 1) in net
    ensures Next(MEMBERS, Of(Standing(1, 1), Voted(1, 1), Fresh(), net), WinElection(1, {1, 2}),
                 Of(Led(), Voted(1, 1), Fresh(), net))
  {
    Quorums();
    assert BecomeLeader(Standing(1, 1).st, 1, {2, 3}) == Led().st;
    assert net + {} == net;
  }

  lemma SecondWin(net: set<Message>)
    requires VoteGranted(2, 2, 3) in net && VoteGranted(2, 3, 3) in net
    ensures Next(MEMBERS, Of(Decided(), Voted(2, 3), Standing(3, 2), net), WinElection(3, {2, 3}),
                 Of(Decided(), Voted(2, 3), Usurper(), net))
  {
    Quorums();
    assert BecomeLeader(Standing(3, 2).st, 3, {1, 2}) == Usurper().st;
    assert net + {} == net;
  }

  lemma Step2()
    ensures Next(MEMBERS, W2(), WinElection(1, {1, 2}), W3())
  {
    assert VoteGranted(1, 1, 1) in N2 && VoteGranted(1, 2, 1) in N2;
    FirstWin(N2);
  }

  lemma Step3()
    ensures Next(MEMBERS, W3(), Propose(1, []), W4())
  {
    assert 2 in MEMBERS && 2 !in {1};
    assert StoreEntry([], ENTRY) == [ENTRY];
    assert NodePropose(Led(), [], false) == Proposed();
  }

  lemma Step4()
    ensures Next(MEMBERS, W4(), SendEntries(1, 0, 1, 0), W5())
  {
    assert EntriesRequest(Proposed().st, 1, 0, 1, 0) == SEND;
  }

  lemma Step5()
    ensures Next(MEMBERS, W5(), AnswerAppend(2, SEND), W6())
  {
    HoldsEntry();
  }

  lemma Step6()
    ensures Next(MEMBERS, W6(), RecordAck(1, 2, 1, [2, 3]), W7())
  {
    Counts();
    assert Lists([2, 3], Proposed().st.nextIndex[2 := 2]);
  }

  lemma Step7()
    ensures Next(MEMBERS, W7(), Restart(2), W8())
  {
    assert NodeRestart(Holding().disk) == Voted(1, 1);
  }

  lemma Step8()
    ensures Next(MEMBERS, W8(), StartElection(3), W9())
  {
  }

  lemma Step9()
    ensures Next(MEMBERS, W9(), StartElection(3), W10())
  {
  }

  lemma Step10()
    ensures Next(MEMBERS, W10(), AnswerVote(2, RequestVoteRequest(2, 3, 0, 0)), W11())
  {
  }

  lemma Step11()
    ensures Next(MEMBERS, W11(), WinElection(3, {2, 3}), W12())
  {
    assert VoteGranted(2, 2, 3) in N7 && VoteGranted(2, 3, 3) in N7;
    SecondWin(N7);
  }

  lemma HoldsEntry()
    ensures NodeAppendEntries(Voted(1, 1), SEND) == (Holding(), AppendEntriesResponse(1, true))
  {
    assert Merge([], [ENTRY]) == [ENTRY] by {
      assert TruncateConflicts([], [ENTRY]) == [] && [ENTRY][1..] == [];
      assert AppendMissing([], [ENTRY]) == [ENTRY];
    }
  }

  lemma Counted()
    ensures MajorityMatch(Decided().st.(commitIndex := 0), [2, 3]) == 1
  {
    var st := Decided().st.(commitIndex := 0);
    assert MatchList(st, [2, 3]) == [1, 0, 1];
    assert [1, 0, 1][1..] == [0, 1] && [0, 1][1..] == [1];
    assert Sort([1]) == [1];
    assert Sort([0, 1]) == [0, 1];
    assert Insert(1, [0, 1]) == [0] + Insert(1, [0, 1][1..]);
    assert Sort([1, 0, 1]) == [0, 1, 1];
  }

  lemma Counts()
    ensures NodeUpdateMatch(Proposed(), 2, 1, [2, 3]) == Decided()
  {
    var st := Decided().st.(commitIndex := 0);
    assert Proposed().st.matchIndex[2 := 1] == st.matchIndex && Proposed().st.nextIndex[2 := 2] == st.nextIndex;
    Counted();
    assert LogTermAt([ENTRY], 1) == 1;
    assert AdvanceCommit(st, [2, 3]) == (Decided().st, true);
  }

  lemma Reach3()
    ensures Reached(W3(), 0)
  {
    Started();
    Step0();
    Then(W0(), 0, StartElection(1), W1());
    Step1();
    Then(W1(), 0, AnswerVote(2, RequestVoteRequest(1, 1, 0, 0)), W2());
    Step2();
    Then(W2(), 0, WinElection(1, {1, 2}), W3());
  }

  lemma Reach6()
    ensures Reached(W6(), 0)
  {
    Reach3();
    Step3();
    Then(W3(), 0, Propose(1, []), W4());
    Step4();
    Then(W4(), 0, SendEntries(1, 0, 1, 0), W5());
    Step5();
    Then(W5(), 0, AnswerAppend(2, SEND), W6());
  }

  lemma Reach7()
    ensures Reached(W7(), 0)
  {
    Reach6();
    Step6();
    Then(W6(), 0, RecordAck(1, 2, 1, [2, 3]), W7());
  }

  lemma Reach8()
    ensures Reached(W8(), 1)
  {
    Reach7();
    Step7();
    Then(W7(), 0, Restart(2), W8());
  }

  lemma Reach9()
    ensures Reached(W9(), 1)
  {
    Reach8();
    Step8();
    Then(W8(), 1, StartElection(3), W9());
  }

  lemma Reach12()
    ensures Reached(W12(), 1)
  {
    Reach9();
    Step9();
    Then(W9(), 1, StartElection(3), W10());
    Step10();
    Then(W10(), 1, AnswerVote(2, RequestVoteRequest(2, 3, 0, 0)), W11());
    Step11();
    Then(W11(), 1, WinElection(3, {2, 3}), W12());
  }

  /**
   * Followers do not store the entries they accept, so one restart is enough for a later leader to
   * lack a committed entry: leader completeness fails on a run with a single restart.
   */
  lemma RestartLosesCommit()
    ensures var w := W12();
            && Reached(w, 1)
            && w.hosts[3].st.role.Leader? && w.hosts[3].st.currentTerm > w.hosts[1].st.currentTerm
            && !(CommittedLog(w.hosts[1]) <= w.hosts[3].st.log)
  {
    Reach12();
  }

  // ---- A request may announce more than it vouches for ----------------------

  /** A follower with a stale tail commits it when told of an index past the request's entries. */
  lemma CommitPastRequest()
    ensures var lead := [LogEntry(1, 1, [], Normal), LogEntry(2, 2, [], Normal)];
            var stale := [LogEntry(1, 1, [], Normal), LogEntry(2, 1, [], Normal)];
            var st := NewState().(currentTerm := 1, log := stale);
            var r := AppendEntriesRequest(2, 7, 1, 1, [], 2);
            && r.leaderCommit > r.prevLogIndex + |r.entries|
            && HandleAppendEntries(st, r).1.success
            && HandleAppendEntries(st, r).0.commitIndex == 2
            && HandleAppendEntries(st, r).0.log[1] != lead[1]
  {
  }

  /** The request for the leader's entries after `prev` up to `upTo`, announcing `commit`. */
  ghost function Announcing(lead: Log, t: nat, me: NodeId, prev: nat, upTo: nat, commit: nat): AppendEntriesRequest
    requires prev <= upTo <= |lead|
  {
    AppendEntriesRequest(t, me, prev, if prev == 0 then 0 else lead[prev - 1].term, lead[prev..upTo], commit)
  }

  /** A node the leader of term `t` may meet: contiguous, matching its log, nothing else committed. */
  ghost predicate MayMeet(st: NodeState, lead: Log, t: nat) {
    && WellFormed(st.log) && TermsUpTo(st.log, st.currentTerm) && st.currentTerm <= t
    && LogsMatch(st.log, lead)
    && st.commitIndex <= |st.log| && st.log[..st.commitIndex] <= lead
  }

  /** Accepting the request commits nothing but a prefix of the leader's log. */
  ghost predicate CommitsLeaders(st: NodeState, lead: Log, r: AppendEntriesRequest) {
    var st' := HandleAppendEntries(st, r).0;
    st'.commitIndex <= |st'.log| && st'.log[..st'.commitIndex] <= lead
  }

  ghost predicate SafeToAll(lead: Log, t: nat, r: AppendEntriesRequest) {
    forall st {:trigger CommitsLeaders(st, lead, r)} ::
      MayMeet(st, lead, t) && HandleAppendEntries(st, r).1.success ==> CommitsLeaders(st, lead, r)
  }

  /** No entry but the leader's own can follow the entries up to `upTo`. */
  predicate NewestTerm(lead: Log, t: nat, upTo: nat)
    requires upTo <= |lead|
  {
    (if upTo == 0 then 1 else lead[upTo - 1].term) == t
  }

  /** The handler's outcome on an accepted request, in terms of the splice. */
  lemma AcceptedOutcome(st: NodeState, lead: Log, t: nat, me: NodeId, prev: nat, upTo: nat, commit: nat)
    requires WellFormed(lead) && prev <= upTo <= |lead| && MayMeet(st, lead, t)
    requires HandleAppendEntries(st, Announcing(lead, t, me, prev, upTo, commit)).1.success
    ensures prev <= |st.log| && (prev > 0 ==> st.log[prev - 1].term == lead[prev - 1].term)
    ensures var st', log' := HandleAppendEntries(st, Announcing(lead, t, me, prev, upTo, commit)).0, Splice(st.log, prev, lead[prev..upTo]);
            && st'.log == log' && lead[..upTo] <= log' && (log' == st.log || log' == lead[..upTo])
            && st'.commitIndex == if commit <= st.commitIndex then st.commitIndex
                                  else if commit <= |log'| then commit else |log'|
  {
    var r := Announcing(lead, t, me, prev, upTo, commit);
    SuccessEffect(st, r);
    MergedOntoLeader(st.log, lead, prev, upTo);
  }

  lemma MergedOntoLeader(log: Log, lead: Log, prev: nat, upTo: nat)
    requires WellFormed(log) && WellFormed(lead) && LogsMatch(log, lead) && prev <= upTo <= |lead|
    requires prev > 0 ==> LogTermAt(log, prev) == lead[prev - 1].term
    ensures prev <= |log| && (prev > 0 ==> log[prev - 1].term == lead[prev - 1].term)
    ensures var log' := Splice(log, prev, lead[prev..upTo]);
            && Merge(log, lead[prev..upTo]) == log' && LastLogIndex(log') == |log'|
            && lead[..upTo] <= log' && (log' == log || log' == lead[..upTo])
  {
    LogTermAtWellFormed(log, prev);
    MergeIsSplice(log, prev, lead[prev..upTo]);
    SpliceOntoLeader(log, lead, prev, upTo);
  }

  lemma SuccessEffect(st: NodeState, r: AppendEntriesRequest)
    requires HandleAppendEntries(st, r).1.success
    ensures r.prevLogIndex > 0 ==> LogTermAt(st.log, r.prevLogIndex) == r.prevLogTerm
    ensures var st', log' := HandleAppendEntries(st, r).0, Merge(st.log, r.entries);
            && st'.log == log'
            && st'.commitIndex == if r.leaderCommit <= st.commitIndex then st.commitIndex
                                  else if r.leaderCommit <= LastLogIndex(log') then r.leaderCommit else LastLogIndex(log')
  {
  }

  /** An index the request vouches for, or one only the leader's entries can reach, is safe. */
  lemma VouchedIsSafe(st: NodeState, lead: Log, t: nat, me: NodeId, prev: nat, upTo: nat, commit: nat)
    requires WellFormed(lead) && TermsUpTo(lead, t) && prev <= upTo <= |lead| && MayMeet(st, lead, t)
    requires HandleAppendEntries(st, Announcing(lead, t, me, prev, upTo, commit)).1.success
    requires commit <= upTo || (NewestTerm(lead, t, upTo) && commit <= |lead|)
    ensures CommitsLeaders(st, lead, Announcing(lead, t, me, prev, upTo, commit))
  {
    AcceptedOutcome(st, lead, t, me, prev, upTo, commit);
    SplicedIsSafe(st, lead, t, prev, upTo, commit);
  }

  lemma SplicedIsSafe(st: NodeState, lead: Log, t: nat, prev: nat, upTo: nat, commit: nat)
    requires WellFormed(lead) && TermsUpTo(lead, t) && prev <= upTo <= |lead| && MayMeet(st, lead, t)
    requires prev <= |st.log| && (prev > 0 ==> st.log[prev - 1].term == lead[prev - 1].term)
    requires commit <= upTo || (NewestTerm(lead, t, upTo) && commit <= |lead|)
    ensures var log' := Splice(st.log, prev, lead[prev..upTo]);
            var k := if commit <= st.commitIndex then st.commitIndex else if commit <= |log'| then commit else |log'|;
            k <= |log'| && log'[..k] <= lead
  {
    var log' := Splice(st.log, prev, lead[prev..upTo]);
    if commit <= st.commitIndex {
      SpliceKeeps(st.log, lead, prev, upTo, st.log[..st.commitIndex]);
    } else {
      SpliceOntoLeader(st.log, lead, prev, upTo);
      SplicedMatches(st.log, lead, upTo, t, log');
      TakenOverIsLeaders(log', lead, t, upTo, if commit <= |log'| then commit else |log'|);
    }
  }

  lemma SplicedMatches(log: Log, lead: Log, upTo: nat, t: nat, log': Log)
    requires WellFormed(log) && TermsUpTo(log, t) && WellFormed(lead) && TermsUpTo(lead, t) && LogsMatch(log, lead)
    requires upTo <= |lead| && (log' == log || log' == lead[..upTo])
    ensures WellFormed(log') && TermsUpTo(log', t) && LogsMatch(log', lead)
  {
  }

  lemma TakenOverIsLeaders(log: Log, lead: Log, t: nat, upTo: nat, k: nat)
    requires WellFormed(log) && TermsUpTo(log, t) && WellFormed(lead) && TermsUpTo(lead, t)
    requires LogsMatch(log, lead) && upTo <= |lead| && lead[..upTo] <= log
    requires k <= |log| && (k <= upTo || (NewestTerm(lead, t, upTo) && k <= |lead|))
    ensures log[..k] <= lead
  {
    if k <= upTo {
      assert log[..k] == lead[..upTo][..k];
    } else {
      assert upTo > 0 ==> log[upTo - 1] == lead[upTo - 1];
      assert log[k - 1].term == t && lead[k - 1].term == t;
      assert log[..k] == lead[..k];
    }
  }

  /** A node whose log leaves the leader's after `upTo` with one entry of term `s`. */
  function Stale(lead: Log, s: nat, upTo: nat): NodeState
    requires upTo <= |lead|
  {
    NewState().(currentTerm := s, log := lead[..upTo] + [LogEntry(upTo + 1, s, [], Normal)])
  }

  lemma StaleMet(lead: Log, t: nat, s: nat, at: nat)
    requires WellFormed(lead) && at <= |lead| && 1 <= s <= t
    requires at > 0 ==> lead[at - 1].term <= s
    requires at < |lead| ==> lead[at].term != s
    ensures MayMeet(Stale(lead, s, at), lead, t) && !(Stale(lead, s, at).log <= lead)
  {
    var log := Stale(lead, s, at).log;
    assert log[..at] == lead[..at];
    assert log[at].term == s;
    if at < |lead| {
      assert log[at] != lead[at];
    }
  }

  /** A log that holds the request's entries is left as it is. */
  lemma StaleKept(log: Log, lead: Log, prev: nat, upTo: nat)
    requires prev <= upTo <= |lead| && lead[..upTo] <= log
    ensures Splice(log, prev, lead[prev..upTo]) == log
  {
    assert forall i :: prev <= i < upTo ==> log[i] == lead[..upTo][i];
  }

  lemma StaleHolds(lead: Log, s: nat, upTo: nat, at: nat)
    requires upTo <= at <= |lead|
    ensures var st := Stale(lead, s, at); lead[..upTo] <= st.log && |st.log| == at + 1 && st.commitIndex == 0
  {
    assert lead[..at][..upTo] == lead[..upTo];
  }

  lemma StaleAccepts(st: NodeState, r: AppendEntriesRequest)
    requires st.currentTerm <= r.term && (r.prevLogIndex > 0 ==> LogTermAt(st.log, r.prevLogIndex) == r.prevLogTerm)
    ensures HandleAppendEntries(st, r).1.success
  {
  }

  lemma StaleCommits(lead: Log, t: nat, me: NodeId, prev: nat, upTo: nat, commit: nat, s: nat, at: nat)
    requires WellFormed(lead) && prev <= upTo <= at <= |lead| && at < commit && 1 <= s <= t
    requires at > 0 ==> lead[at - 1].term <= s
    requires at < |lead| ==> lead[at].term != s
    ensures var st, r := Stale(lead, s, at), Announcing(lead, t, me, prev, upTo, commit);
            MayMeet(st, lead, t) && HandleAppendEntries(st, r).1.success && !CommitsLeaders(st, lead, r)
  {
    StaleMet(lead, t, s, at);
    StaleHolds(lead, s, upTo, at);
    TailCommitted(Stale(lead, s, at), lead, t, me, prev, upTo, commit);
  }

  /** A node that holds the request's entries and a tail the leader lacks commits that tail. */
  lemma TailCommitted(st: NodeState, lead: Log, t: nat, me: NodeId, prev: nat, upTo: nat, commit: nat)
    requires WellFormed(lead) && prev <= upTo <= |lead| && MayMeet(st, lead, t)
    requires lead[..upTo] <= st.log && !(st.log <= lead) && st.commitIndex < commit && |st.log| <= commit
    ensures var r := Announcing(lead, t, me, prev, upTo, commit);
            HandleAppendEntries(st, r).1.success && !CommitsLeaders(st, lead, r)
  {
    var r := Announcing(lead, t, me, prev, upTo, commit);
    HeldStart(st.log, lead, prev, upTo);
    StaleAccepts(st, r);
    StaleKept(st.log, lead, prev, upTo);
    AcceptedOutcome(st, lead, t, me, prev, upTo, commit);
    assert st.log[..|st.log|] == st.log;
  }

  lemma HeldStart(log: Log, lead: Log, prev: nat, upTo: nat)
    requires WellFormed(log) && prev <= upTo <= |lead| && lead[..upTo] <= log
    ensures prev > 0 ==> LogTermAt(log, prev) == lead[prev - 1].term
  {
    LogTermAtWellFormed(log, prev);
    assert prev > 0 ==> log[prev - 1] == lead[..upTo][prev - 1];
  }

  /**
   * When the commit index a request announces is safe to take over: for every node the leader may
   * meet exactly when the request vouches for it, or no other term's entry could follow.
   */
  lemma CommitRuleExact(lead: Log, t: nat, me: NodeId, prev: nat, upTo: nat, commit: nat)
    requires WellFormed(lead) && TermsUpTo(lead, t) && t >= 1 && prev <= upTo <= |lead|
    ensures SafeToAll(lead, t, Announcing(lead, t, me, prev, upTo, commit))
        <==> commit <= upTo || (NewestTerm(lead, t, upTo) && commit <= |lead|)
  {
    var r := Announcing(lead, t, me, prev, upTo, commit);
    if commit <= upTo || (NewestTerm(lead, t, upTo) && commit <= |lead|) {
      forall st | MayMeet(st, lead, t) && HandleAppendEntries(st, r).1.success ensures CommitsLeaders(st, lead, r) {
        VouchedIsSafe(st, lead, t, me, prev, upTo, commit);
      }
    } else {
      var low := if upTo == 0 then 1 else lead[upTo - 1].term;
      var at := if low == t then |lead| else upTo;
      var s := if low < t && upTo < |lead| && lead[upTo].term == t then low else t;
      StaleCommits(lead, t, me, prev, upTo, commit, s, at);
      assert !CommitsLeaders(Stale(lead, s, at), lead, r);
    }
  }

  // ---- A node may vote twice in one term ------------------------------------

  /** Answering a leader of its own term makes a node forget its vote exactly when it is a candidate. */
  lemma VoteKeptExact(st: NodeState, heard: AppendEntriesRequest)
    requires heard.term == st.currentTerm
    ensures HandleAppendEntries(st, heard).0.votedFor == st.votedFor <==> !st.role.Candidate? || st.votedFor.None?
  {
  }

  /**
   * After answering a leader of its own term, a node that voted in it grants another candidate of
   * that term its vote exactly when it was itself a candidate and the other's log is up to date.
   */
  lemma VotesTwice(h: Host, voted: NodeId, heard: AppendEntriesRequest, asked: RequestVoteRequest)
    requires h.st.votedFor == Some(voted) && asked.candidateId != voted
    requires heard.term == h.st.currentTerm && asked.term == h.st.currentTerm
    ensures var h' := NodeAppendEntries(h, heard).0;
            var again := h.st.role.Candidate? && UpToDate(h'.st.log, asked.lastLogIndex, asked.lastLogTerm);
            NodeRequestVote(h', asked).1 == RequestVoteResponse(h.st.currentTerm, again)
  {
    VoteKeptExact(h.st, heard);
  }
}
