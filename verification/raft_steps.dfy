/** Each kind of step keeps the log invariant: a restart when it finds the log it left. */
module RaftSteps {
  import opened RaftTypes
  import opened RaftHandlers
  import opened RaftLog
  import opened RaftCluster
  import opened RaftElection
  import opened RaftQuorum
  import opened RaftSafety

  // ---- Shared arguments ----------------------------------------------------

  /** The structural invariant after a step of node `n`, from what is new in it. */
  lemma ShapeKept(v: View, v': View, n: NodeId)
    requires Shape(v) && Grows(v, v') && ElectionInv(v'.members, v'.w, v'.e)
    requires v'.l.term.Keys == v'.e.leader.Keys
    requires n in v.w.hosts && v'.w.hosts == v.w.hosts[n := v'.w.hosts[n]]
    requires forall t :: t in v.l.term && v'.l.term[t] != v.l.term[t] ==> v.e.leader[t] == n
    requires NodeOk(v', n)
    requires forall m :: m in v'.w.net && m !in v.w.net ==> MessageOk(v', m)
    requires forall t, c :: (t, c) in v'.l.cand && (t, c) !in v.l.cand ==> CandOk(v', t, c)
    requires forall t :: t in v'.l.term && (t !in v.l.term || v'.l.term[t] != v.l.term[t]) ==> TermOk(v', t)
    ensures Shape(v')
  {
    forall x | x in v'.w.hosts ensures NodeOk(v', x) {
      if x != n {
        assert NodeOk(v, x) && HostOk(v.w.hosts[x], v.e, x);
        NodeGrows(v, v', x);
      }
    }
    forall m | m in v'.w.net ensures MessageOk(v', m) {
      if m in v.w.net {
        MessageGrows(v, v', m);
      }
    }
    forall t, c | (t, c) in v'.l.cand ensures CandOk(v', t, c) {
      if (t, c) in v.l.cand {
        assert CandOk(v, t, c);
        CandGrows(v, v', t, c);
      }
    }
    forall t | t in v'.l.term ensures TermOk(v', t) {
      if t in v.l.term && v'.l.term[t] == v.l.term[t] {
        assert TermOk(v, t);
        BackedGrows(v.l.term[t], v.l.term, v'.l.term);
      }
    }
  }

  /** Nothing about logs, leaders or acknowledgements changed. */
  ghost predicate QuietLogs(v: View, v': View)
    requires v'.w.hosts.Keys == v.w.hosts.Keys
  {
    && v'.l.term == v.l.term && v'.e.leader == v.e.leader
    && (forall x :: x in v.w.hosts ==> LogOf(v', x) == LogOf(v, x))
    && (forall t, x, j :: AppendAck(t, x, j) in v'.w.net <==> AppendAck(t, x, j) in v.w.net)
  }

  lemma QuietAcked(v: View, v': View, x: NodeId, t: nat, k: nat)
    requires Grows(v, v') && QuietLogs(v, v')
    ensures Acked(v', x, t, k) <==> Acked(v, x, t, k)
  {
  }

  lemma QuietKept(v: View, v': View)
    requires LogInv(v) && Grows(v, v') && QuietLogs(v, v')
    ensures FreshAcks(v, v') && Keeps(v') && Later(v')
  {
    forall x: NodeId, t: nat, k: nat ensures Acked(v', x, t, k) <==> Acked(v, x, t, k) {
      QuietAcked(v, v', x, t, k);
    }
    forall x | x in v'.w.hosts ensures KeepsAt(v', x) {
      assert KeepsAt(v, x);
      forall t: nat, k: nat | Live(v', t, k) && Acked(v', x, t, k) ensures Head(v', t, k) <= LogOf(v', x) {
        LiveBack(v, v', t, k);
      }
    }
    forall t' | t' in v'.l.term ensures LaterAt(v', t') {
      assert LaterAt(v, t');
      forall t: nat, k: nat | t < t' && Live(v', t, k) ensures Head(v', t, k) <= v'.l.term[t'] {
        LiveBack(v, v', t, k);
      }
    }
  }

  /** Grants made before a step keep their meaning when no own entry is new. */
  lemma OldVoteKept(v: View, v': View, t': nat, x: NodeId, c: NodeId)
    requires LogInv(v) && Grows(v, v') && FreshAcks(v, v') && VoteGranted(t', x, c) in v.w.net
    requires MessageOk(v', VoteGranted(t', x, c))
    requires forall t: nat, k: nat :: t < t' && Own(v', t, k) && Acked(v', x, t, k) ==> Own(v, t, k)
    ensures VoteAt(v', t', x, c)
  {
    assert MessageOk(v, VoteGranted(t', x, c)) && VoteAt(v, t', x, c);
    forall t: nat, k: nat | t < t' && Live(v', t, k) && Acked(v', x, t, k)
      ensures Head(v', t, k) <= v'.l.cand[(t', c)]
    {
      LiveBack(v, v', t, k);
      assert Acked(v, x, t, k);
    }
  }

  /** Of two backed logs ending in one term the longer extends the shorter. */
  lemma SameLastTerm(mine: Log, d: Log, term: map<nat, Log>)
    requires Backed(mine, term) && Backed(d, term) && 0 < |mine| <= |d|
    requires LastLogTerm(mine) == LastLogTerm(d)
    ensures mine <= d
  {
    assert BackedAt(mine, |mine| - 1, term) && BackedAt(d, |d| - 1, term);
    assert mine[..|mine|] == mine && d[..|d|] == d;
  }

  /** A log ending in a later term holds the prefix that term's leader held. */
  lemma LaterLastTerm(p: Log, d: Log, u: nat, term: map<nat, Log>)
    requires Backed(d, term) && d != [] && LastLogTerm(d) == u
    requires u in term && WellFormed(term[u]) && p <= term[u]
    requires p != [] && p[|p| - 1].term < u
    ensures p <= d
  {
    assert BackedAt(d, |d| - 1, term);
    assert d[..|d|] == d;
    assert term[u][|p| - 1].term < term[u][|d| - 1].term;
  }

  /** A log at least as up to date as a voter's holds what the voter must keep. */
  lemma UpToDateCarries(mine: Log, d: Log, p: Log, term: map<nat, Log>)
    requires WellFormed(mine) && Backed(mine, term) && Backed(d, term)
    requires UpToDate(mine, |d|, LastLogTerm(d))
    requires p != [] && p <= mine
    requires var u := LastLogTerm(d);
             u > LastLogTerm(mine) ==> u in term && WellFormed(term[u]) && p <= term[u]
    ensures p <= d
  {
    var u := LastLogTerm(d);
    assert mine[|p| - 1].term <= LastLogTerm(mine);
    assert LastLogIndex(mine) == |mine|;
    if u == LastLogTerm(mine) {
      SameLastTerm(mine, d, term);
    } else {
      LaterLastTerm(p, d, u, term);
    }
  }

  /** A vote for an up-to-date candidate log carries the voter's prefixes. */
  lemma VoteCarries(v: View, x: NodeId, d: Log, t: nat, k: nat)
    requires TermsOk(v) && Later(v) && x in v.w.hosts && NodeOk(v, x)
    requires Backed(d, v.l.term) && UpToDate(LogOf(v, x), |d|, LastLogTerm(d))
    requires Live(v, t, k) && Head(v, t, k) <= LogOf(v, x)
    ensures Head(v, t, k) <= d
  {
    var mine, p, u := LogOf(v, x), Head(v, t, k), LastLogTerm(d);
    if u > LastLogTerm(mine) {
      assert BackedAt(d, |d| - 1, v.l.term);
      assert TermOk(v, u) && LaterAt(v, u);
      assert mine[k - 1] == p[k - 1] && p[k - 1].term == t;
    }
    UpToDateCarries(mine, d, p, v.l.term);
  }

  lemma CommittedByPrefix(v: View, p: Log, q: Log, bound: nat)
    requires CommittedBy(v, q, bound) && p <= q
    ensures CommittedBy(v, p, bound)
  {
    if p != [] {
      var t: nat, k: nat :| t <= bound && Committed(v, t, k) && q <= Head(v, t, k);
      assert p <= Head(v, t, k);
    }
  }

  lemma AckedTerm(v: View, x: NodeId, t: nat, k: nat)
    requires Shape(v) && x in v.w.hosts && Acked(v, x, t, k)
    ensures t <= DiskTerm(v, x)
  {
    if x == v.e.leader[t] {
      assert LeaderOk(v.members, v.w, v.e, t);
    } else {
      var j :| j >= k && AppendAck(t, x, j) in v.w.net;
      assert MessageOk(v, AppendAck(t, x, j));
    }
  }

  /** A node whose log and commit index stayed put, in a state the step allows. */
  lemma NodeSettled(v: View, v': View, n: NodeId)
    requires Grows(v, v') && n in v.w.hosts && NodeOk(v, n)
    requires var st, st' := v.w.hosts[n].st, v'.w.hosts[n].st;
             && st'.log == st.log && st'.commitIndex == st.commitIndex
             && (st'.role.Follower? || (st'.role == st.role && st'.currentTerm == st.currentTerm
                                        && st'.matchIndex == st.matchIndex && st'.nextIndex == st.nextIndex))
             && (st'.role.Leader? ==> v'.l.term[st.currentTerm] == v.l.term[st.currentTerm])
    requires DiskTerm(v', n) <= TermOf(v', n) && v'.w.hosts[n].disk.hard.commit == v.w.hosts[n].disk.hard.commit
    ensures NodeOk(v', n)
  {
    var st, st' := v.w.hosts[n].st, v'.w.hosts[n].st;
    BackedGrows(st.log, v.l.term, v'.l.term);
    CommittedByGrows(v, v', st.log[..st.commitIndex], DiskTerm(v, n), DiskTerm(v', n));
    if st'.role.Leader? {
      forall p | p in st.matchIndex && st.matchIndex[p] > 0 ensures Acked(v', p, st.currentTerm, st.matchIndex[p]) {
        AckedGrows(v, v', p, st.currentTerm, st.matchIndex[p]);
      }
    }
  }

  /** Old grants keep their meaning; the only new one carries its voter's prefixes. */
  lemma VotesKept(v: View, v': View, t0: nat, x0: NodeId, c0: NodeId)
    requires LogInv(v) && Grows(v, v') && FreshAcks(v, v') && MessagesOk(v')
    requires forall t: nat, k: nat :: Own(v', t, k) ==> Own(v, t, k)
    requires forall t, x, c :: VoteGranted(t, x, c) in v'.w.net ==>
               VoteGranted(t, x, c) in v.w.net || (t == t0 && x == x0 && c == c0 && (t0, c0) in v'.l.cand && VoteAt(v', t0, x0, c0))
    ensures Votes(v')
  {
    forall t, x, c | VoteGranted(t, x, c) in v'.w.net
      ensures MessageOk(v', VoteGranted(t, x, c)) && VoteAt(v', t, x, c)
    {
      assert MessageOk(v', VoteGranted(t, x, c));
      if VoteGranted(t, x, c) in v.w.net {
        OldVoteKept(v, v', t, x, c);
      }
    }
  }

  // ---- Standing for election -----------------------------------------------

  lemma StartKept(v: View, n: NodeId, v': View)
    requires LogInv(v) && n in v.w.hosts && ElectionInv(v'.members, v'.w, v'.e)
    requires var (h', req) := NodeStartElection(v.w.hosts[n], n);
             v' == View(v.members,
                        World(v.w.hosts[n := h'], v.w.net + {VoteRequest(req), VoteGranted(req.term, n, n)}),
                        v.e, v.l.(cand := v.l.cand[(req.term, n) := LogOf(v, n)]))
    ensures LogInv(v') && Grows(v, v')
  {
    var t' := TermOf(v, n) + 1;
    StartShape(v, n, v');
    QuietKept(v, v');
    assert KeepsAt(v', n);
    assert VoteAt(v', t', n, n);
    VotesKept(v, v', t', n, n);
  }

  lemma StartShape(v: View, n: NodeId, v': View)
    requires Shape(v) && n in v.w.hosts && ElectionInv(v'.members, v'.w, v'.e)
    requires var (h', req) := NodeStartElection(v.w.hosts[n], n);
             v' == View(v.members,
                        World(v.w.hosts[n := h'], v.w.net + {VoteRequest(req), VoteGranted(req.term, n, n)}),
                        v.e, v.l.(cand := v.l.cand[(req.term, n) := LogOf(v, n)]))
    ensures Grows(v, v') && QuietLogs(v, v') && Shape(v')
  {
    assert NodeOk(v, n);
    StartGrows(v, n, v');
    StartNodeOk(v, v', n);
    StartMessages(v, n, v');
    ShapeKept(v, v', n);
  }

  lemma StartGrows(v: View, n: NodeId, v': View)
    requires CandsOk(v) && n in v.w.hosts && n in v'.w.hosts && v'.e == v.e && v'.l.term == v.l.term
    requires v'.members == v.members && v'.w.hosts == v.w.hosts[n := v'.w.hosts[n]] && v.w.net <= v'.w.net
    requires DiskTerm(v, n) <= TermOf(v, n) && DiskTerm(v', n) == TermOf(v, n) + 1
    requires v'.l.cand == v.l.cand[(TermOf(v, n) + 1, n) := LogOf(v, n)]
    ensures Grows(v, v') && (TermOf(v, n) + 1, n) !in v.l.cand
  {
    var t' := TermOf(v, n) + 1;
    assert (t', n) in v.l.cand ==> CandOk(v, t', n);
  }

  lemma StartMessages(v: View, n: NodeId, v': View)
    requires Shape(v) && Grows(v, v') && n in v.w.hosts && NodeOk(v', n)
    requires var (h', req) := NodeStartElection(v.w.hosts[n], n);
             && v'.w.hosts[n] == h' && (req.term, n) in v'.l.cand && v'.l.cand[(req.term, n)] == LogOf(v, n)
    ensures var req := NodeStartElection(v.w.hosts[n], n).1;
            MessageOk(v', VoteRequest(req)) && MessageOk(v', VoteGranted(req.term, n, n)) && CandOk(v', req.term, n)
  {
    assert NodeOk(v, n);
  }

  lemma StartNodeOk(v: View, v': View, n: NodeId)
    requires Grows(v, v') && n in v.w.hosts && NodeOk(v, n)
    requires v'.w.hosts[n] == NodeStartElection(v.w.hosts[n], n).0
    requires (TermOf(v, n) + 1, n) in v'.l.cand && v'.l.cand[(TermOf(v, n) + 1, n)] == LogOf(v, n)
    ensures NodeOk(v', n)
  {
    var st, st' := v.w.hosts[n].st, v'.w.hosts[n].st;
    BackedGrows(st.log, v.l.term, v'.l.term);
    CommittedByGrows(v, v', st.log[..st.commitIndex], DiskTerm(v, n), st'.currentTerm);
  }

  // ---- Voting --------------------------------------------------------------

  /** A vote touches neither the log nor what a leader knows; it may only demote. */
  lemma VoteEffect(h: Host, r: RequestVoteRequest)
    requires h.disk.hard.commit == h.st.commitIndex && h.disk.hard.currentTerm <= h.st.currentTerm
    ensures var (h', resp) := NodeRequestVote(h, r);
            && OnlyDemoted(h, h')
            && (resp.voteGranted ==>
                  && resp.term == r.term && h'.disk.hard.currentTerm == r.term
                  && UpToDate(h.st.log, r.lastLogIndex, r.lastLogTerm))
  {
  }

  ghost predicate OnlyDemoted(h: Host, h': Host) {
    var st, st' := h.st, h'.st;
    && h'.disk.hard.commit == h.disk.hard.commit
    && h.disk.hard.currentTerm <= h'.disk.hard.currentTerm <= st'.currentTerm
    && st'.log == st.log && st'.commitIndex == st.commitIndex && st'.currentTerm >= st.currentTerm
    && st'.matchIndex == st.matchIndex && st'.nextIndex == st.nextIndex
    && (st'.role.Follower? || (st'.role == st.role && st'.currentTerm == st.currentTerm))
  }

  lemma VoteKept(v: View, n: NodeId, r: RequestVoteRequest, v': View)
    requires LogInv(v) && n in v.w.hosts && VoteRequest(r) in v.w.net && ElectionInv(v'.members, v'.w, v'.e)
    requires var (h', resp) := NodeRequestVote(v.w.hosts[n], r);
             v' == View(v.members,
                        World(v.w.hosts[n := h'],
                              v.w.net + if resp.voteGranted then {VoteGranted(resp.term, n, r.candidateId)} else {}),
                        v.e, v.l)
    ensures LogInv(v') && Grows(v, v')
  {
    assert NodeOk(v, n);
    VoteEffect(v.w.hosts[n], r);
    VoteShape(v, n, r, v');
    QuietKept(v, v');
    if NodeRequestVote(v.w.hosts[n], r).1.voteGranted {
      assert NodeOk(v', n);
      MessageGrows(v, v', VoteRequest(r));
      NewVoteCarries(v', n, r);
    }
    VotesKept(v, v', r.term, n, r.candidateId);
  }

  lemma VoteShape(v: View, n: NodeId, r: RequestVoteRequest, v': View)
    requires Shape(v) && n in v.w.hosts && n in v'.w.hosts && VoteRequest(r) in v.w.net
    requires ElectionInv(v'.members, v'.w, v'.e)
    requires v' == View(v.members, World(v.w.hosts[n := v'.w.hosts[n]], v'.w.net), v.e, v.l)
    requires OnlyDemoted(v.w.hosts[n], v'.w.hosts[n])
    requires v'.w.net == v.w.net
          || (v'.w.net == v.w.net + {VoteGranted(r.term, n, r.candidateId)} && DiskTerm(v', n) == r.term)
    ensures Grows(v, v') && QuietLogs(v, v') && Shape(v')
  {
    assert NodeOk(v, n) && MessageOk(v, VoteRequest(r));
    assert Grows(v, v');
    NodeSettled(v, v', n);
    ShapeKept(v, v', n);
  }

  lemma NewVoteCarries(v: View, n: NodeId, r: RequestVoteRequest)
    requires TermsOk(v) && CandsOk(v) && Later(v) && Keeps(v)
    requires n in v.w.hosts && NodeOk(v, n) && MessageOk(v, VoteRequest(r))
    requires UpToDate(LogOf(v, n), r.lastLogIndex, r.lastLogTerm)
    ensures VoteAt(v, r.term, n, r.candidateId)
  {
    var d := v.l.cand[(r.term, r.candidateId)];
    assert CandOk(v, r.term, r.candidateId);
    forall t: nat, k: nat | t < r.term && Live(v, t, k) && Acked(v, n, t, k) ensures Head(v, t, k) <= d {
      assert KeepsAt(v, n);
      VoteCarries(v, n, d, t, k);
    }
  }

  // ---- Winning an election -------------------------------------------------

  /** The node with the most votes becomes leader; its log opens the new term. */
  ghost predicate Wins(v: View, n: NodeId, voters: set<NodeId>, v': View) {
    && n in v.w.hosts && v.w.hosts[n].st.role.Candidate? && Majority(v.members, voters)
    && (forall x :: x in voters ==> VoteGranted(TermOf(v, n), x, n) in v.w.net)
    && TermOf(v, n) !in v.e.leader
    && var t', h := TermOf(v, n), v.w.hosts[n];
       v' == View(v.members,
                  World(v.w.hosts[n := h.(st := BecomeLeader(h.st, n, v.members - {n}))], v.w.net),
                  Elections(v.e.leader[t' := n], v.e.voters[t' := voters]),
                  v.l.(term := v.l.term[t' := h.st.log]))
  }

  lemma WinShape(v: View, n: NodeId, voters: set<NodeId>, v': View)
    requires Shape(v) && Wins(v, n, voters, v') && ElectionInv(v'.members, v'.w, v'.e)
    ensures Grows(v, v') && FreshAcks(v, v') && Shape(v')
  {
    var t', log := TermOf(v, n), LogOf(v, n);
    assert NodeOk(v, n);
    assert Grows(v, v');
    BackedGrows(log, v.l.term, v'.l.term);
    var st := v.w.hosts[n].st;
    CommittedByGrows(v, v', st.log[..st.commitIndex], DiskTerm(v, n), DiskTerm(v, n));
    assert NodeOk(v', n);
    assert TermOk(v', t');
    ShapeKept(v, v', n);
  }

  /** The new term has no entry of its own, and the others have no new one. */
  lemma WinOwn(v: View, n: NodeId, voters: set<NodeId>, v': View, t: nat, k: nat)
    requires Shape(v) && Wins(v, n, voters, v') && Own(v', t, k)
    ensures Own(v, t, k) && t != TermOf(v, n)
  {
    assert NodeOk(v, n) && CandOk(v, TermOf(v, n), n);
  }

  /** Whatever may be committed reached one of the voters, and with its vote the new leader. */
  lemma WinLater(v: View, n: NodeId, voters: set<NodeId>, v': View, t: nat, k: nat)
    requires LogInv(v) && Wins(v, n, voters, v') && Grows(v, v') && FreshAcks(v, v')
    requires t < TermOf(v, n) && Own(v, t, k) && Live(v', t, k)
    ensures Head(v, t, k) <= LogOf(v, n)
  {
    var t' := TermOf(v, n);
    LiveBack(v, v', t, k);
    var c :| Viable(v, c, t, k);
    var x := QuorumsMeet(v.members, c, voters);
    assert VoteGranted(t', x, n) in v.w.net;
    assert MessageOk(v, VoteGranted(t', x, n)) && VoteAt(v, t', x, n);
    assert NodeOk(v, n);
  }

  lemma WinKept(v: View, n: NodeId, voters: set<NodeId>, v': View)
    requires LogInv(v) && Wins(v, n, voters, v') && ElectionInv(v'.members, v'.w, v'.e)
    ensures LogInv(v') && Grows(v, v')
  {
    WinShape(v, n, voters, v');
    forall t: nat, k: nat | Own(v', t, k) ensures Own(v, t, k) && t != TermOf(v, n) {
      WinOwn(v, n, voters, v', t, k);
    }
    forall x | x in v'.w.hosts ensures KeepsAt(v', x) {
      assert KeepsAt(v, x);
      forall t: nat, k: nat | Live(v', t, k) && Acked(v', x, t, k) ensures Head(v', t, k) <= LogOf(v', x) {
        LiveBack(v, v', t, k);
      }
    }
    forall t' | t' in v'.l.term ensures LaterAt(v', t') {
      assert t' in v.l.term ==> LaterAt(v, t');
      forall t: nat, k: nat | t < t' && Live(v', t, k) ensures Head(v', t, k) <= v'.l.term[t'] {
        if t' == TermOf(v, n) {
          WinLater(v, n, voters, v', t, k);
        } else {
          LiveBack(v, v', t, k);
        }
      }
    }
    VotesKept(v, v', 0, 0, 0);
  }

  // ---- Proposing -----------------------------------------------------------

  /** A leader appends an entry of its own term; alone in its cluster it commits it. */
  ghost predicate Proposes(v: View, n: NodeId, data: seq<Byte>, v': View) {
    && n in v.w.hosts && v.w.hosts[n].st.role.Leader?
    && var h' := NodePropose(v.w.hosts[n], data, v.members == {n});
       v' == View(v.members, World(v.w.hosts[n := h'], v.w.net), v.e,
                  v.l.(term := v.l.term[TermOf(v, n) := h'.st.log]))
  }

  /** Appending an entry of the newest term, when the longer log becomes that term's log. */
  lemma ExtendedLog(log: Log, e: LogEntry, term: map<nat, Log>)
    requires WellFormed(log) && Backed(log, term) && TermsUpTo(log, e.term)
    requires e.term >= 1 && e.index == |log| + 1
    requires e.term in term && term[e.term] == log
    ensures WellFormed(log + [e]) && TermsUpTo(log + [e], e.term)
    ensures Backed(log + [e], term[e.term := log + [e]])
  {
    var log', term' := log + [e], term[e.term := log + [e]];
    BackedGrows(log, term, term');
    forall i | 0 <= i < |log'| ensures BackedAt(log', i, term') {
      if i < |log| {
        assert BackedAt(log, i, term');
        assert log'[..i + 1] == log[..i + 1];
      } else {
        assert log'[..i + 1] == log';
      }
    }
  }

  lemma ProposeLog(v: View, n: NodeId, data: seq<Byte>, v': View)
    requires Shape(v) && Proposes(v, n, data, v')
    ensures var t, log, log' := TermOf(v, n), LogOf(v, n), LogOf(v', n);
            && t in v.l.term && v.l.term[t] == log && v.e.leader[t] == n
            && |log'| == |log| + 1 && log <= log' && log'[|log|].term == t
            && WellFormed(log') && TermsUpTo(log', t) && DiskTerm(v, n) == t && DiskTerm(v', n) == t
            && Grows(v, v') && Backed(log', v'.l.term)
  {
    ProposeStart(v, n);
    var t, log := TermOf(v, n), LogOf(v, n);
    ExtendedLog(log, LogEntry(LastLogIndex(log) + 1, t, data, Normal), v.l.term);
  }

  /** What a leader may rely on when it proposes. */
  lemma ProposeStart(v: View, n: NodeId)
    requires Shape(v) && n in v.w.hosts && v.w.hosts[n].st.role.Leader?
    ensures var t, log := TermOf(v, n), LogOf(v, n);
            && t >= 1 && t in v.l.term && v.l.term[t] == log && v.e.leader[t] == n && DiskTerm(v, n) == t
            && WellFormed(log) && Backed(log, v.l.term) && TermsUpTo(log, t) && LastLogIndex(log) == |log|
  {
    assert NodeOk(v, n) && HostOk(v.w.hosts[n], v.e, n);
  }

  lemma ProposeCommit(v: View, n: NodeId, data: seq<Byte>, v': View)
    requires Shape(v) && Proposes(v, n, data, v')
    ensures var st' := v'.w.hosts[n].st;
            && st'.commitIndex <= |st'.log| && v'.w.hosts[n].disk.hard.commit == st'.commitIndex
            && CommittedBy(v', st'.log[..st'.commitIndex], DiskTerm(v', n))
  {
    ProposeLog(v, n, data, v');
    assert NodeOk(v, n);
    var st, st' := v.w.hosts[n].st, v'.w.hosts[n].st;
    if v.members == {n} {
      var t, k := st.currentTerm, |st'.log|;
      assert Own(v', t, k);
      assert AckedByAll(v', {n}, t, k);
      assert Committed(v', t, k);
      assert st'.log[..k] <= Head(v', t, k);
    } else {
      assert st'.log[..st.commitIndex] == st.log[..st.commitIndex];
      CommittedByGrows(v, v', st.log[..st.commitIndex], DiskTerm(v, n), DiskTerm(v', n));
    }
  }

  lemma ProposeShape(v: View, n: NodeId, data: seq<Byte>, v': View)
    requires Shape(v) && Proposes(v, n, data, v') && ElectionInv(v'.members, v'.w, v'.e)
    ensures FreshAcks(v, v') && Shape(v')
  {
    ProposeLog(v, n, data, v');
    ProposeCommit(v, n, data, v');
    assert NodeOk(v, n);
    var st, st' := v.w.hosts[n].st, v'.w.hosts[n].st;
    forall p | p in st.matchIndex && st.matchIndex[p] > 0
      ensures Acked(v', p, st.currentTerm, st.matchIndex[p])
    {
      AckedGrows(v, v', p, st.currentTerm, st.matchIndex[p]);
    }
    assert NodeOk(v', n);
    assert TermOk(v', TermOf(v, n));
    ShapeKept(v, v', n);
  }

  /** Only the leader itself acknowledges the entry it just created. */
  lemma ProposeAcked(v: View, n: NodeId, data: seq<Byte>, v': View, x: NodeId, t: nat, k: nat)
    requires Shape(v) && Proposes(v, n, data, v') && Grows(v, v')
    requires x in v.w.hosts && Own(v', t, k) && !Own(v, t, k)
    ensures t == TermOf(v, n)
    ensures Acked(v', x, t, k) ==> x == n
  {
    ProposeLog(v, n, data, v');
    var log, log' := LogOf(v, n), LogOf(v', n);
    assert t == TermOf(v, n) && k == |log'|;
    assert forall j: nat :: AppendAck(t, x, j) in v.w.net ==> MessageOk(v, AppendAck(t, x, j));
  }

  lemma ProposeKeeps(v: View, n: NodeId, data: seq<Byte>, v': View, x: NodeId)
    requires LogInv(v) && Proposes(v, n, data, v') && Grows(v, v') && FreshAcks(v, v') && x in v.w.hosts
    ensures KeepsAt(v', x)
  {
    ProposeLog(v, n, data, v');
    assert KeepsAt(v, x);
    forall t: nat, k: nat | Live(v', t, k) && Acked(v', x, t, k) ensures Head(v', t, k) <= LogOf(v', x) {
      if Own(v, t, k) {
        LiveBack(v, v', t, k);
        assert Acked(v, x, t, k);
        assert LogOf(v, x) <= LogOf(v', x);
      } else {
        ProposeAcked(v, n, data, v', x, t, k);
      }
    }
  }

  /** An entry created after a later term was won can no longer gather a quorum. */
  lemma ProposeNotLive(v: View, n: NodeId, data: seq<Byte>, v': View, t': nat, t: nat, k: nat)
    requires Shape(v) && Proposes(v, n, data, v') && Grows(v, v')
    requires t < t' && t' in v.e.leader && Own(v', t, k) && !Own(v, t, k)
    ensures !Live(v', t, k)
  {
    if Live(v', t, k) {
      var c :| Viable(v', c, t, k);
      assert LeaderOk(v.members, v.w, v.e, t');
      var x := QuorumsMeet(v.members, c, v.e.voters[t']);
      assert VoterOk(v.w, t', x, v.e.leader[t']);
      assert HostOk(v.w.hosts[x], v.e, x);
      ProposeAcked(v, n, data, v', x, t, k);
      assert false;
    }
  }

  lemma ProposeKept(v: View, n: NodeId, data: seq<Byte>, v': View)
    requires LogInv(v) && Proposes(v, n, data, v') && ElectionInv(v'.members, v'.w, v'.e)
    ensures LogInv(v') && Grows(v, v')
  {
    ProposeLog(v, n, data, v');
    ProposeShape(v, n, data, v');
    forall x | x in v'.w.hosts ensures KeepsAt(v', x) {
      ProposeKeeps(v, n, data, v', x);
    }
    forall t' | t' in v'.l.term ensures LaterAt(v', t') {
      assert LaterAt(v, t') && v.l.term[t'] <= v'.l.term[t'];
      forall t: nat, k: nat | t < t' && Live(v', t, k) ensures Head(v', t, k) <= v'.l.term[t'] {
        if Own(v, t, k) {
          LiveBack(v, v', t, k);
        } else {
          ProposeNotLive(v, n, data, v', t', t, k);
        }
      }
    }
    forall t', x, c | VoteGranted(t', x, c) in v'.w.net
      ensures MessageOk(v', VoteGranted(t', x, c)) && VoteAt(v', t', x, c)
    {
      assert MessageOk(v', VoteGranted(t', x, c)) && MessageOk(v, VoteGranted(t', x, c));
      forall t: nat, k: nat | t < t' && Own(v', t, k) && Acked(v', x, t, k) ensures Own(v, t, k) {
        if !Own(v, t, k) {
          ProposeAcked(v, n, data, v', x, t, k);
        }
      }
      OldVoteKept(v, v', t', x, c);
    }
  }

  // ---- Sending entries -----------------------------------------------------

  /** A request cut from the leader's log announces only what the leader committed. */
  lemma SentOk(v: View, v': View, n: NodeId, prev: nat, upTo: nat, commit: nat)
    requires Shape(v) && Grows(v, v') && n in v.w.hosts && v.w.hosts[n].st.role.Leader?
    requires v'.l == v.l
    requires prev <= upTo <= |LogOf(v, n)| && commit <= v.w.hosts[n].st.commitIndex && commit <= upTo
    ensures RequestOk(v', EntriesRequest(v.w.hosts[n].st, n, prev, upTo, commit))
  {
    assert NodeOk(v, n);
    var st := v.w.hosts[n].st;
    LogTermAtWellFormed(st.log, prev);
    CommittedByPrefix(v, st.log[..commit], st.log[..st.commitIndex], st.currentTerm);
    CommittedByGrows(v, v', st.log[..commit], st.currentTerm, st.currentTerm);
  }

  /** A heartbeat is the request for the empty slice at the end of the leader's log. */
  lemma HeartbeatIsEmptySlice(st: NodeState, me: NodeId)
    requires WellFormed(st.log)
    ensures Heartbeat(st, me) == EntriesRequest(st, me, |st.log|, |st.log|, st.commitIndex)
  {
    LogTermAtWellFormed(st.log, |st.log|);
    assert st.log[|st.log|..|st.log|] == [];
  }

  lemma SendKept(v: View, n: NodeId, prev: nat, upTo: nat, commit: nat, v': View)
    requires LogInv(v) && n in v.w.hosts && v.w.hosts[n].st.role.Leader? && ElectionInv(v'.members, v'.w, v'.e)
    requires prev <= upTo <= |LogOf(v, n)| && commit <= v.w.hosts[n].st.commitIndex && commit <= upTo
    requires var r := EntriesRequest(v.w.hosts[n].st, n, prev, upTo, commit);
             v' == View(v.members, World(v.w.hosts, v.w.net + {AppendRequest(r)}), v.e, v.l)
    ensures LogInv(v') && Grows(v, v')
  {
    assert NodeOk(v, n);
    assert v'.w.hosts == v.w.hosts[n := v'.w.hosts[n]];
    assert Grows(v, v');
    SentOk(v, v', n, prev, upTo, commit);
    NodeSettled(v, v', n);
    ShapeKept(v, v', n);
    QuietKept(v, v');
    VotesKept(v, v', 0, 0, 0);
  }

  // ---- Answering AppendEntries ---------------------------------------------

  /** The follower's state after a request of its own or a later term. */
  ghost predicate Answers(v: View, n: NodeId, r: AppendEntriesRequest, v': View) {
    && n in v.w.hosts && AppendRequest(r) in v.w.net && r.leaderId != n
    && var (h', resp) := NodeAppendEntries(v.w.hosts[n], r);
       v' == View(v.members,
                  World(v.w.hosts[n := h'],
                        v.w.net + if resp.success then {AppendAck(resp.term, n, r.prevLogIndex + |r.entries|)} else {}),
                  v.e, v.l)
  }

  ghost predicate Accepts(st: NodeState, r: AppendEntriesRequest) {
    r.term >= st.currentTerm
    && (r.prevLogIndex > 0 ==> LogTermAt(st.log, r.prevLogIndex) == r.prevLogTerm)
  }

  /** What the handler leaves behind, in terms of the log and the request. */
  lemma AnswerEffect(st: NodeState, r: AppendEntriesRequest)
    ensures var (st', resp, save) := HandleAppendEntries(st, r);
            && (r.term < st.currentTerm ==> st' == st && !resp.success)
            && (r.term >= st.currentTerm ==>
                  && st'.currentTerm == r.term
                  && (r.term > st.currentTerm || st.role.Candidate? ==> st'.role.Follower?)
                  && (r.term == st.currentTerm && !st.role.Candidate? ==> st'.role == st.role)
                  && resp == AppendEntriesResponse(r.term, Accepts(st, r))
                  && (!Accepts(st, r) ==> st'.log == st.log && st'.commitIndex == st.commitIndex)
                  && (Accepts(st, r) ==> st'.log == Merge(st.log, r.entries)))
            && (Accepts(st, r) && r.leaderCommit <= |st'.log| && WellFormed(st'.log) ==>
                  st'.commitIndex == if r.leaderCommit > st.commitIndex then r.leaderCommit else st.commitIndex)
  {
  }

  /** An accepted request starts at an entry the node shares with the leader. */
  lemma AcceptedStart(v: View, n: NodeId, r: AppendEntriesRequest)
    requires Shape(v) && n in v.w.hosts && RequestOk(v, r) && Accepts(v.w.hosts[n].st, r)
    ensures var lead, log := v.l.term[r.term], LogOf(v, n);
            && r.prevLogIndex + |r.entries| <= |lead| && r.prevLogIndex <= |log|
            && (r.prevLogIndex > 0 ==> log[r.prevLogIndex - 1].term == lead[r.prevLogIndex - 1].term)
            && WellFormed(log) && Backed(log, v.l.term) && TermsUpTo(log, r.term)
            && WellFormed(lead) && Backed(lead, v.l.term) && TermsUpTo(lead, r.term)
            && From(r.prevLogIndex, r.entries)
            && (forall i :: 0 <= i < |r.entries| ==> r.entries[i].term >= 1)
  {
    assert NodeOk(v, n) && TermOk(v, r.term);
    LogTermAtWellFormed(LogOf(v, n), r.prevLogIndex);
  }

  /** The log of a node that accepted a request. */
  lemma AcceptedLog(v: View, n: NodeId, r: AppendEntriesRequest)
    requires Shape(v) && n in v.w.hosts && RequestOk(v, r) && Accepts(v.w.hosts[n].st, r)
    ensures var lead, upTo, log, log' :=
              v.l.term[r.term], r.prevLogIndex + |r.entries|, LogOf(v, n), Merge(LogOf(v, n), r.entries);
            && lead[..upTo] <= log' && (log' == log || log' == lead[..upTo])
            && WellFormed(log') && Backed(log', v.l.term) && TermsUpTo(log', r.term)
  {
    AcceptedStart(v, n, r);
    MergedLog(LogOf(v, n), v.l.term[r.term], r.prevLogIndex, r.prevLogIndex + |r.entries|, v.l.term, r.term);
  }

  lemma MergedLog(log: Log, lead: Log, prev: nat, upTo: nat, term: map<nat, Log>, t: nat)
    requires WellFormed(log) && Backed(log, term) && TermsUpTo(log, t)
    requires WellFormed(lead) && Backed(lead, term) && TermsUpTo(lead, t)
    requires prev <= upTo <= |lead| && prev <= |log|
    requires prev > 0 ==> log[prev - 1].term == lead[prev - 1].term
    ensures var log' := Merge(log, lead[prev..upTo]);
            && log' == Splice(log, prev, lead[prev..upTo])
            && lead[..upTo] <= log' && (log' == log || log' == lead[..upTo])
            && WellFormed(log') && Backed(log', term) && TermsUpTo(log', t)
  {
    var entries := lead[prev..upTo];
    MergeIsSplice(log, prev, entries);
    BackedMatch(log, lead, term);
    SpliceOntoLeader(log, lead, prev, upTo);
    EitherLog(log, lead, upTo, term, t, Splice(log, prev, entries));
  }

  lemma EitherLog(log: Log, lead: Log, upTo: nat, term: map<nat, Log>, t: nat, log': Log)
    requires WellFormed(log) && Backed(log, term) && TermsUpTo(log, t)
    requires WellFormed(lead) && Backed(lead, term) && TermsUpTo(lead, t)
    requires upTo <= |lead| && (log' == log || log' == lead[..upTo])
    ensures WellFormed(log') && Backed(log', term) && TermsUpTo(log', t)
  {
    BackedPrefix(lead[..upTo], lead, term);
  }

  /** Nothing committed on the node and nothing it must keep is cut off. */
  lemma AcceptedKeeps(v: View, n: NodeId, r: AppendEntriesRequest, p: Log)
    requires Shape(v) && n in v.w.hosts && RequestOk(v, r) && Accepts(v.w.hosts[n].st, r)
    requires p <= LogOf(v, n) && p <= v.l.term[r.term]
    ensures p <= Merge(LogOf(v, n), r.entries)
  {
    AcceptedStart(v, n, r);
    var log, lead, prev, upTo := LogOf(v, n), v.l.term[r.term], r.prevLogIndex, r.prevLogIndex + |r.entries|;
    MergedLog(log, lead, prev, upTo, v.l.term, r.term);
    BackedMatch(log, lead, v.l.term);
    SpliceKeeps(log, lead, prev, upTo, p);
  }

  /** What some earlier or the same term committed is in a leader's log. */
  lemma CommittedInLeader(v: View, p: Log, bound: nat, t': nat)
    requires Later(v) && CommittedBy(v, p, bound) && bound <= t' && t' in v.l.term
    requires v.w.hosts.Keys == v.members
    ensures p <= v.l.term[t']
  {
    if p != [] {
      var t: nat, k: nat :| t <= bound && Committed(v, t, k) && p <= Head(v, t, k);
      CommittedLive(v, t, k);
      assert LaterAt(v, t');
    }
  }

  lemma AcceptedNodeOk(v: View, n: NodeId, r: AppendEntriesRequest, v': View)
    requires LogInv(v) && Answers(v, n, r, v') && Grows(v, v') && Accepts(v.w.hosts[n].st, r)
    requires v'.w.hosts[n].st.role.Follower?
    ensures NodeOk(v', n)
  {
    assert MessageOk(v, AppendRequest(r));
    var st, st' := v.w.hosts[n].st, v'.w.hosts[n].st;
    AnswerEffect(st, r);
    AcceptedLog(v, n, r);
    AcceptedCommit(v, n, r);
    var upTo := if r.leaderCommit > st.commitIndex then r.leaderCommit else st.commitIndex;
    CommittedByGrows(v, v', st'.log[..upTo], r.term, r.term);
    BackedGrows(st'.log, v.l.term, v'.l.term);
  }

  /** The commit index a follower takes over is covered by entries it shares with the leader. */
  lemma AcceptedCommit(v: View, n: NodeId, r: AppendEntriesRequest)
    requires LogInv(v) && n in v.w.hosts && RequestOk(v, r) && Accepts(v.w.hosts[n].st, r)
    ensures var st, log' := v.w.hosts[n].st, Merge(LogOf(v, n), r.entries);
            var commit := if r.leaderCommit > st.commitIndex then r.leaderCommit else st.commitIndex;
            r.leaderCommit <= |log'| && commit <= |log'| && CommittedBy(v, log'[..commit], r.term)
  {
    AcceptedLog(v, n, r);
    assert NodeOk(v, n);
    var st, lead, log' := v.w.hosts[n].st, v.l.term[r.term], Merge(LogOf(v, n), r.entries);
    assert lead[..r.prevLogIndex + |r.entries|] <= log';
    if r.leaderCommit > st.commitIndex {
      assert log'[..r.leaderCommit] == lead[..r.leaderCommit];
    } else {
      var p := st.log[..st.commitIndex];
      CommittedInLeader(v, p, st.currentTerm, r.term);
      AcceptedKeeps(v, n, r, p);
      assert log'[..st.commitIndex] == p;
      CommittedByGrows(v, v, p, st.currentTerm, r.term);
    }
  }

  /** Only a term's leader leads it, and it never hears from itself. */
  lemma AnswerDemotes(v: View, n: NodeId, r: AppendEntriesRequest, v': View)
    requires Shape(v) && Answers(v, n, r, v') && r.term >= TermOf(v, n)
    ensures v'.w.hosts[n].st.role.Follower?
  {
    assert HostOk(v.w.hosts[n], v.e, n);
    AnswerEffect(v.w.hosts[n].st, r);
  }

  lemma AnswerShape(v: View, n: NodeId, r: AppendEntriesRequest, v': View)
    requires LogInv(v) && Answers(v, n, r, v') && ElectionInv(v'.members, v'.w, v'.e)
    ensures Grows(v, v') && Shape(v')
  {
    assert MessageOk(v, AppendRequest(r));
    AnswerEffect(v.w.hosts[n].st, r);
    AnswerGrows(v, n, r, v');
    AnswerNodeOk(v, n, r, v');
    ShapeKept(v, v', n);
  }

  lemma AnswerGrows(v: View, n: NodeId, r: AppendEntriesRequest, v': View)
    requires LogInv(v) && Answers(v, n, r, v')
    ensures Grows(v, v')
  {
    assert NodeOk(v, n);
    AnswerEffect(v.w.hosts[n].st, r);
  }

  lemma AnswerNodeOk(v: View, n: NodeId, r: AppendEntriesRequest, v': View)
    requires LogInv(v) && Answers(v, n, r, v') && Grows(v, v')
    ensures NodeOk(v', n)
  {
    var st := v.w.hosts[n].st;
    assert NodeOk(v, n);
    AnswerEffect(st, r);
    if r.term >= st.currentTerm {
      AnswerDemotes(v, n, r, v');
    }
    if Accepts(st, r) {
      AcceptedNodeOk(v, n, r, v');
    } else {
      NodeSettled(v, v', n);
    }
  }

  /** The step's only new acknowledgements are the node's own, in the request's term. */
  lemma AnswerAcked(v: View, n: NodeId, r: AppendEntriesRequest, v': View, x: NodeId, t: nat, k: nat)
    requires Answers(v, n, r, v') && Acked(v', x, t, k)
    ensures Acked(v, x, t, k)
      || (x == n && t == r.term && Accepts(v.w.hosts[n].st, r) && k <= r.prevLogIndex + |r.entries|)
  {
    AnswerEffect(v.w.hosts[n].st, r);
  }

  lemma AnswerKeepsAt(v: View, n: NodeId, r: AppendEntriesRequest, v': View, t: nat, k: nat)
    requires LogInv(v) && Answers(v, n, r, v')
    requires Live(v, t, k) && Acked(v', n, t, k)
    ensures Head(v, t, k) <= LogOf(v', n)
  {
    assert MessageOk(v, AppendRequest(r));
    AnswerEffect(v.w.hosts[n].st, r);
    AnswerAcked(v, n, r, v', n, t, k);
    if Acked(v, n, t, k) {
      assert KeepsAt(v, n) && NodeOk(v, n);
      AckedTerm(v, n, t, k);
      if Accepts(v.w.hosts[n].st, r) {
        assert LaterAt(v, r.term);
        AcceptedKeeps(v, n, r, Head(v, t, k));
      }
    } else {
      AcceptedLog(v, n, r);
    }
  }

  lemma AnswerKept(v: View, n: NodeId, r: AppendEntriesRequest, v': View)
    requires LogInv(v) && Answers(v, n, r, v') && ElectionInv(v'.members, v'.w, v'.e)
    ensures LogInv(v') && Grows(v, v')
  {
    AnswerShape(v, n, r, v');
    forall x: NodeId, t: nat, k: nat | x in v.w.hosts && Acked(v', x, t, k)
      ensures Acked(v, x, t, k) || (x == n && TermOf(v, x) <= t)
    {
      AnswerAcked(v, n, r, v', x, t, k);
    }
    assert FreshAcks(v, v');
    forall x | x in v'.w.hosts ensures KeepsAt(v', x) {
      assert KeepsAt(v, x);
      forall t: nat, k: nat | Live(v', t, k) && Acked(v', x, t, k) ensures Head(v', t, k) <= LogOf(v', x) {
        LiveBack(v, v', t, k);
        if x == n {
          AnswerKeepsAt(v, n, r, v', t, k);
        }
      }
    }
    forall t' | t' in v'.l.term ensures LaterAt(v', t') {
      assert LaterAt(v, t');
      forall t: nat, k: nat | t < t' && Live(v', t, k) ensures Head(v', t, k) <= v'.l.term[t'] {
        LiveBack(v, v', t, k);
      }
    }
    VotesKept(v, v', 0, 0, 0);
  }

  // ---- Recording acknowledgements ------------------------------------------

  ghost predicate Records(v: View, n: NodeId, peer: NodeId, idx: nat, keys: seq<NodeId>, v': View) {
    && n in v.w.hosts && peer in v.members && peer != n
    && AppendAck(TermOf(v, n), peer, idx) in v.w.net
    && Lists(keys, v.w.hosts[n].st.nextIndex[peer := idx + 1])
    && v' == View(v.members, World(v.w.hosts[n := NodeUpdateMatch(v.w.hosts[n], peer, idx, keys)], v.w.net), v.e, v.l)
  }

  ghost function Noted(st: NodeState, peer: NodeId, idx: nat): NodeState {
    st.(matchIndex := st.matchIndex[peer := idx], nextIndex := st.nextIndex[peer := idx + 1])
  }

  lemma RecordEffect(h: Host, peer: NodeId, idx: nat, keys: seq<NodeId>)
    requires h.st.role.Leader?
    ensures var st, st' := Noted(h.st, peer, idx), NodeUpdateMatch(h, peer, idx, keys).st;
            var k := MajorityMatch(st, keys);
            st' == if k > st.commitIndex && LogTermAt(st.log, k) == st.currentTerm
                   then st.(commitIndex := k) else st
  {
  }

  lemma AckedLess(v: View, x: NodeId, t: nat, j: nat, k: nat)
    requires Acked(v, x, t, j) && k <= j
    ensures Acked(v, x, t, k)
  {
  }

  lemma RecordMatch(v: View, n: NodeId, peer: NodeId, idx: nat, v': View)
    requires Shape(v) && n in v.w.hosts && peer in v.members && peer != n && Grows(v, v')
    requires AppendAck(TermOf(v, n), peer, idx) in v.w.net && v.w.hosts[n].st.role.Leader?
    requires var st, st' := Noted(v.w.hosts[n].st, peer, idx), v'.w.hosts[n].st;
             st'.matchIndex == st.matchIndex && st'.nextIndex == st.nextIndex && st'.currentTerm == st.currentTerm
    ensures MatchOk(v', n)
  {
    assert NodeOk(v, n) && MessageOk(v, AppendAck(TermOf(v, n), peer, idx));
    var st, st' := v.w.hosts[n].st, v'.w.hosts[n].st;
    forall p | p in st'.matchIndex && st'.matchIndex[p] > 0 ensures Acked(v', p, st'.currentTerm, st'.matchIndex[p]) {
      if p == peer {
        assert Acked(v, p, st.currentTerm, idx);
      }
      AckedGrows(v, v', p, st.currentTerm, st'.matchIndex[p]);
    }
  }

  /** An index the commit rule selects is held by a commit quorum. */
  lemma RecordCommits(v: View, n: NodeId, peer: NodeId, idx: nat, keys: seq<NodeId>, v': View)
    requires Shape(v) && Records(v, n, peer, idx, keys, v') && v.w.hosts[n].st.role.Leader? && Grows(v, v')
    requires MatchOk(v', n)
    requires v'.w.hosts[n].st.commitIndex != v.w.hosts[n].st.commitIndex
    ensures var k := v'.w.hosts[n].st.commitIndex;
            k <= |LogOf(v', n)| && Committed(v', TermOf(v', n), k) && Head(v', TermOf(v', n), k) == LogOf(v', n)[..k]
  {
    RecordEffect(v.w.hosts[n], peer, idx, keys);
    assert NodeOk(v, n) && HostOk(v.w.hosts[n], v.e, n);
    var st := Noted(v.w.hosts[n].st, peer, idx);
    var k, t := MajorityMatch(st, keys), st.currentTerm;
    LogTermAtWellFormed(st.log, k);
    assert Own(v', t, k);
    MajorityMatchQuorum(st, n, v.members, keys);
    var c := Reached(st, n, v.members, k);
    forall x | x in c ensures Acked(v', x, t, k) {
      if x != n {
        assert x in v'.w.hosts[n].st.matchIndex;
        AckedLess(v', x, t, v'.w.hosts[n].st.matchIndex[x], k);
      }
    }
    assert AckedByAll(v', c, t, k);
  }

  lemma RecordNodeOk(v: View, n: NodeId, peer: NodeId, idx: nat, keys: seq<NodeId>, v': View)
    requires Shape(v) && Records(v, n, peer, idx, keys, v') && Grows(v, v')
    ensures NodeOk(v', n)
  {
    assert NodeOk(v, n);
    var st, st' := v.w.hosts[n].st, v'.w.hosts[n].st;
    if !st.role.Leader? {
      NodeSettled(v, v', n);
    } else {
      assert HostOk(v.w.hosts[n], v.e, n);
      RecordEffect(v.w.hosts[n], peer, idx, keys);
      RecordMatch(v, n, peer, idx, v');
      if st'.commitIndex == st.commitIndex {
        CommittedByGrows(v, v', st.log[..st.commitIndex], DiskTerm(v, n), DiskTerm(v', n));
      } else {
        RecordCommits(v, n, peer, idx, keys, v');
      }
    }
  }

  lemma RecordKept(v: View, n: NodeId, peer: NodeId, idx: nat, keys: seq<NodeId>, v': View)
    requires LogInv(v) && Records(v, n, peer, idx, keys, v') && ElectionInv(v'.members, v'.w, v'.e)
    ensures LogInv(v') && Grows(v, v')
  {
    assert NodeOk(v, n);
    assert Grows(v, v');
    RecordNodeOk(v, n, peer, idx, keys, v');
    ShapeKept(v, v', n);
    QuietKept(v, v');
    VotesKept(v, v', 0, 0, 0);
  }

  // ---- Restarting ----------------------------------------------------------

  /** A node restarts and finds stored the log it had in memory. */
  ghost predicate Restarts(v: View, n: NodeId, v': View) {
    && n in v.w.hosts && v.w.hosts[n].disk.log == v.w.hosts[n].st.log
    && v' == View(v.members, World(v.w.hosts[n := NodeRestart(v.w.hosts[n].disk)], v.w.net), v.e, v.l)
  }

  lemma RestartKept(v: View, n: NodeId, v': View)
    requires LogInv(v) && Restarts(v, n, v') && ElectionInv(v'.members, v'.w, v'.e)
    ensures LogInv(v') && Grows(v, v')
  {
    assert NodeOk(v, n);
    RestartReadsLog(v.w.hosts[n].disk);
    assert Grows(v, v');
    NodeSettled(v, v', n);
    ShapeKept(v, v', n);
    QuietKept(v, v');
    VotesKept(v, v', 0, 0, 0);
  }
}
