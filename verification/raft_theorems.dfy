/** The safety results, stated on runs of the cluster without any history. */
module RaftTheorems {
  import opened RaftTypes
  import opened RaftHandlers
  import opened RaftLog
  import opened RaftCluster
  import opened RaftElection
  import opened RaftSafety
  import opened RaftSteps

  /**
   * Every step keeps the log invariant under histories that only grow: a restart too, when the
   * node finds stored the log it had in memory.
   */
  lemma LogStep(v: View, a: Action, w': World) returns (v': View)
    requires LogInv(v) && Next(v.members, v.w, a, w') && SafeRestart(v.w, a)
    ensures LogInv(v') && Grows(v, v') && v'.w == w' && v'.members == v.members
  {
    var e' := ElectionStep(v.members, v.w, a, w', v.e);
    if a.StartElection? || a.AnswerVote? || a.WinElection? {
      v' := VotingStep(v, a, w', e');
    } else {
      v' := DataStep(v, a, w', e');
    }
  }

  lemma VotingStep(v: View, a: Action, w': World, e': Elections) returns (v': View)
    requires LogInv(v) && Next(v.members, v.w, a, w') && ElectionInv(v.members, w', e')
    requires a.StartElection? || a.AnswerVote? || a.WinElection?
    requires !a.WinElection? ==> e' == v.e
    requires a.WinElection? ==> var t := TermOf(v, a.n);
             t !in v.e.leader && e' == Elections(v.e.leader[t := a.n], v.e.voters[t := a.voters])
    ensures LogInv(v') && Grows(v, v') && v'.w == w' && v'.members == v.members
  {
    var n := a.n;
    v' := View(v.members, w', e', v.l);
    match a {
      case StartElection(_) =>
        v' := v'.(l := v.l.(cand := v.l.cand[(TermOf(v, n) + 1, n) := LogOf(v, n)]));
        StartKept(v, n, v');
      case AnswerVote(_, vote) =>
        VoteKept(v, n, vote, v');
      case WinElection(_, voters) =>
        v' := v'.(l := v.l.(term := v.l.term[TermOf(v, n) := LogOf(v, n)]));
        WinKept(v, n, voters, v');
    }
  }

  lemma DataStep(v: View, a: Action, w': World, e': Elections) returns (v': View)
    requires LogInv(v) && Next(v.members, v.w, a, w') && ElectionInv(v.members, w', e') && e' == v.e
    requires SafeRestart(v.w, a)
    requires a.Propose? || a.SendHeartbeat? || a.SendEntries? || a.AnswerAppend? || a.RecordAck? || a.Restart?
    ensures LogInv(v') && Grows(v, v') && v'.w == w' && v'.members == v.members
  {
    var n := a.n;
    v' := View(v.members, w', e', v.l);
    match a {
      case Propose(_, data) =>
        v' := v'.(l := v.l.(term := v.l.term[TermOf(v, n) := w'.hosts[n].st.log]));
        ProposeKept(v, n, data, v');
      case SendHeartbeat(_) =>
        assert NodeOk(v, n);
        var st := v.w.hosts[n].st;
        HeartbeatIsEmptySlice(st, n);
        assert w'.hosts == v.w.hosts;
        SendKept(v, n, |st.log|, |st.log|, st.commitIndex, v');
      case SendEntries(_, prev, upTo, commit) =>
        assert w'.hosts == v.w.hosts;
        SendKept(v, n, prev, upTo, commit, v');
      case AnswerAppend(_, append) =>
        AnswerKept(v, n, append, v');
      case RecordAck(_, peer, idx, keys) =>
        RecordKept(v, n, peer, idx, keys, v');
      case Restart(_) =>
        assert w'.net == v.w.net;
        RestartKept(v, n, v');
    }
  }

  lemma GrowsTransitive(a: View, b: View, c: View)
    requires Grows(a, b) && Grows(b, c)
    ensures Grows(a, c)
  {
    forall t | t in a.l.term ensures t in c.l.term && a.l.term[t] <= c.l.term[t] {
      assert a.l.term[t] <= b.l.term[t] <= c.l.term[t];
    }
    forall t, i | t in a.l.term && |a.l.term[t]| <= i < |c.l.term[t]| ensures c.l.term[t][i].term == t {
      if i < |b.l.term[t]| {
        assert c.l.term[t][i] == b.l.term[t][i];
      }
    }
  }

  lemma StartView(members: set<NodeId>, w: World) returns (v: View)
    requires Init(members, w)
    ensures LogInv(v) && v.w == w && v.members == members
  {
    v := View(members, w, Elections(map[], map[]), Logs(map[], map[]));
    forall n | n in w.hosts ensures NodeOk(v, n) && HostOk(w.hosts[n], v.e, n) {
      assert w.hosts[n].st.log[..w.hosts[n].st.commitIndex] == [];
    }
  }

  ghost predicate Chain(vs: seq<View>) {
    forall i, j {:trigger Grows(vs[i], vs[j])} :: 0 <= i <= j < |vs| ==> Grows(vs[i], vs[j])
  }

  ghost predicate Follows(vs: seq<View>, members: set<NodeId>, ws: seq<World>) {
    && |vs| == |ws|
    && forall i {:trigger LogInv(vs[i])} :: 0 <= i < |vs| ==> LogInv(vs[i]) && vs[i].w == ws[i] && vs[i].members == members
  }

  lemma ChainExtends(vs: seq<View>, v: View)
    requires Chain(vs) && vs != [] && Grows(vs[|vs| - 1], v)
    ensures Chain(vs + [v])
  {
    var us := vs + [v];
    forall i, j | 0 <= i <= j < |us| ensures Grows(us[i], us[j]) {
      if j < |vs| {
        assert Grows(vs[i], vs[j]);
      } else if i < |vs| {
        assert Grows(vs[i], vs[|vs| - 1]);
        GrowsTransitive(vs[i], vs[|vs| - 1], v);
      }
    }
  }

  lemma RunPrefix(members: set<NodeId>, ws: seq<World>, acts: seq<Action>)
    requires Run(members, ws, acts) && SafeRestarts(ws, acts) && acts != []
    ensures Run(members, ws[..|acts|], acts[..|acts| - 1]) && SafeRestarts(ws[..|acts|], acts[..|acts| - 1])
    ensures Next(members, ws[|acts| - 1], acts[|acts| - 1], ws[|acts|]) && SafeRestart(ws[|acts| - 1], acts[|acts| - 1])
  {
    var n := |acts| - 1;
    assert Next(members, ws[n], acts[n], ws[n + 1]) && SafeRestart(ws[n], acts[n]);
  }

  /** A run whose restarts are safe, seen with its histories. */
  lemma {:induction false} LogHistory(members: set<NodeId>, ws: seq<World>, acts: seq<Action>) returns (vs: seq<View>)
    requires Run(members, ws, acts) && SafeRestarts(ws, acts)
    ensures Follows(vs, members, ws) && Chain(vs)
    decreases |acts|
  {
    if acts == [] {
      var v := StartView(members, ws[0]);
      vs := [v];
      assert Grows(v, v);
    } else {
      var n := |acts| - 1;
      RunPrefix(members, ws, acts);
      var us := LogHistory(members, ws[..n + 1], acts[..n]);
      assert LogInv(us[n]);
      var v := LogStep(us[n], acts[n], ws[n + 1]);
      ChainExtends(us, v);
      vs := us + [v];
      forall i | 0 <= i < |vs| ensures LogInv(vs[i]) && vs[i].w == ws[i] && vs[i].members == members {
        assert i < |us| ==> LogInv(us[i]);
      }
    }
  }

  lemma HistoryAt(vs: seq<View>, members: set<NodeId>, ws: seq<World>, i: nat, j: nat)
    requires Follows(vs, members, ws) && Chain(vs) && i < |ws| && j < |ws|
    ensures LogInv(vs[i]) && LogInv(vs[j]) && vs[i].w == ws[i] && vs[j].w == ws[j]
    ensures vs[i].members == members && vs[j].members == members
    ensures var m := if i <= j then j else i; Grows(vs[i], vs[m]) && Grows(vs[j], vs[m])
  {
    assert LogInv(vs[i]) && LogInv(vs[j]);
  }

  // ---- The results ---------------------------------------------------------

  /**
   * Log Matching, at any two moments: two logs with the same term at one index agree up to it.
   * Every log is contiguous from index 1 with terms that never decrease.
   */
  lemma LogMatching(members: set<NodeId>, ws: seq<World>, acts: seq<Action>, i: nat, j: nat, a: NodeId, b: NodeId, k: nat)
    requires Run(members, ws, acts) && SafeRestarts(ws, acts) && i < |ws| && j < |ws|
    requires a in ws[i].hosts && b in ws[j].hosts
    ensures WellFormed(ws[i].hosts[a].st.log)
    ensures var p, q := ws[i].hosts[a].st.log, ws[j].hosts[b].st.log;
            k < |p| && k < |q| && p[k].term == q[k].term ==> p[..k + 1] == q[..k + 1]
  {
    var vs := LogHistory(members, ws, acts);
    var m := if i <= j then j else i;
    HistoryAt(vs, members, ws, i, j);
    assert NodeOk(vs[i], a) && NodeOk(vs[j], b);
    var p, q := ws[i].hosts[a].st.log, ws[j].hosts[b].st.log;
    BackedGrows(p, vs[i].l.term, vs[m].l.term);
    BackedGrows(q, vs[j].l.term, vs[m].l.term);
    if k < |p| && k < |q| && p[k].term == q[k].term {
      BackedMatch(p, q, vs[m].l.term);
    }
  }

  /** The entries a node regards as committed. */
  function CommittedLog(h: Host): Log {
    if h.st.commitIndex <= |h.st.log| then h.st.log[..h.st.commitIndex] else h.st.log
  }

  lemma CommittedLogBy(v: View, n: NodeId)
    requires LogInv(v) && n in v.w.hosts
    ensures v.w.hosts[n].st.commitIndex <= |LogOf(v, n)|
    ensures CommittedBy(v, CommittedLog(v.w.hosts[n]), TermOf(v, n))
  {
    assert NodeOk(v, n);
    CommittedByGrows(v, v, CommittedLog(v.w.hosts[n]), DiskTerm(v, n), TermOf(v, n));
  }

  /**
   * Leader Completeness, at any two moments: a leader of a term later than the one in which a node
   * stands has every entry that node has committed.
   */
  lemma LeaderCompleteness(members: set<NodeId>, ws: seq<World>, acts: seq<Action>, i: nat, j: nat, a: NodeId, b: NodeId)
    requires Run(members, ws, acts) && SafeRestarts(ws, acts) && i < |ws| && j < |ws|
    requires a in ws[i].hosts && b in ws[j].hosts && ws[j].hosts[b].st.role.Leader?
    requires ws[i].hosts[a].st.currentTerm < ws[j].hosts[b].st.currentTerm
    ensures CommittedLog(ws[i].hosts[a]) <= ws[j].hosts[b].st.log
  {
    var vs := LogHistory(members, ws, acts);
    var m := if i <= j then j else i;
    var p, bound, lead := CommittedLog(ws[i].hosts[a]), ws[i].hosts[a].st.currentTerm, ws[j].hosts[b].st.currentTerm;
    HistoryAt(vs, members, ws, i, j);
    CommittedLogBy(vs[i], a);
    assert NodeOk(vs[j], b) && vs[j].l.term[lead] == ws[j].hosts[b].st.log;
    CommittedByGrows(vs[i], vs[m], p, bound, bound);
    assert vs[j].l.term[lead] <= vs[m].l.term[lead];
    EarlyEntriesPredate(vs[j], vs[m], p, bound, lead);
  }

  /** What earlier terms committed was in a leader's log from its first day. */
  lemma EarlyEntriesPredate(v: View, v': View, p: Log, bound: nat, lead: nat)
    requires LogInv(v') && Grows(v, v') && lead in v.l.term
    requires CommittedBy(v', p, bound) && bound < lead
    ensures p <= v.l.term[lead]
  {
    if p != [] {
      var t: nat, k: nat :| t <= bound && Committed(v', t, k) && p <= Head(v', t, k);
      CommittedLive(v', t, k);
      assert LaterAt(v', lead);
      var whole := v'.l.term[lead];
      assert whole[k - 1] == Head(v', t, k)[k - 1] && whole[k - 1].term == t;
      assert k <= |v.l.term[lead]|;
      assert v.l.term[lead] <= whole;
    }
  }

  lemma CommittedAgree(v: View, p: Log, q: Log, b1: nat, b2: nat)
    requires LogInv(v) && CommittedBy(v, p, b1) && CommittedBy(v, q, b2)
    ensures p <= q || q <= p
  {
    if p != [] && q != [] {
      var t1: nat, k1: nat :| t1 <= b1 && Committed(v, t1, k1) && p <= Head(v, t1, k1);
      var t2: nat, k2: nat :| t2 <= b2 && Committed(v, t2, k2) && q <= Head(v, t2, k2);
      if t1 <= t2 {
        CommittedInLeader(v, p, t1, t2);
        assert q <= v.l.term[t2];
      } else {
        CommittedInLeader(v, q, t2, t1);
        assert p <= v.l.term[t1];
      }
    }
  }

  /**
   * State-machine safety, for clusters of every size: at any two moments, of two nodes' committed
   * entries one list extends the other, so no index is ever committed with two entries.
   */
  lemma StateMachineSafety(members: set<NodeId>, ws: seq<World>, acts: seq<Action>, i: nat, j: nat, a: NodeId, b: NodeId)
    requires Run(members, ws, acts) && SafeRestarts(ws, acts) && i < |ws| && j < |ws|
    requires a in ws[i].hosts && b in ws[j].hosts
    ensures ws[i].hosts[a].st.commitIndex <= |ws[i].hosts[a].st.log|
    ensures CommittedLog(ws[i].hosts[a]) <= CommittedLog(ws[j].hosts[b])
         || CommittedLog(ws[j].hosts[b]) <= CommittedLog(ws[i].hosts[a])
  {
    var vs := LogHistory(members, ws, acts);
    var m := if i <= j then j else i;
    var p, q := CommittedLog(ws[i].hosts[a]), CommittedLog(ws[j].hosts[b]);
    HistoryAt(vs, members, ws, i, j);
    CommittedLogBy(vs[i], a);
    CommittedLogBy(vs[j], b);
    var t1, t2 := ws[i].hosts[a].st.currentTerm, ws[j].hosts[b].st.currentTerm;
    CommittedByGrows(vs[i], vs[m], p, t1, t1);
    CommittedByGrows(vs[j], vs[m], q, t2, t2);
    CommittedAgree(vs[m], p, q, t1, t2);
  }

  /** Commit indexes never fall: a restart takes up the one it saved. */
  lemma CommitMonotone(v: View, a: Action, w': World, n: NodeId)
    requires LogInv(v) && Next(v.members, v.w, a, w') && n in v.w.hosts
    ensures v.w.hosts[n].st.commitIndex <= w'.hosts[n].st.commitIndex
  {
    if n == a.n {
      assert NodeOk(v, n);
      match a
      case AnswerAppend(_, r) =>
        assert MessageOk(v, AppendRequest(r));
        if Accepts(v.w.hosts[n].st, r) {
          AcceptedCommit(v, n, r);
          AcceptedLog(v, n, r);
          AnswerEffect(v.w.hosts[n].st, r);
        }
      case _ =>
    }
  }

  lemma StepClimbs(members: set<NodeId>, ws: seq<World>, acts: seq<Action>, vs: seq<View>, i: nat, a: NodeId)
    requires Run(members, ws, acts) && i < |acts| && Follows(vs, members, ws) && a in members
    ensures a in ws[i].hosts && a in ws[i + 1].hosts
    ensures ws[i].hosts[a].st.commitIndex <= ws[i + 1].hosts[a].st.commitIndex
  {
    assert LogInv(vs[i]) && Next(members, ws[i], acts[i], ws[i + 1]);
    CommitMonotone(vs[i], acts[i], ws[i + 1], a);
  }

  lemma {:induction false} CommitClimbs(members: set<NodeId>, ws: seq<World>, acts: seq<Action>, vs: seq<View>, i: nat, j: nat, a: NodeId)
    requires Run(members, ws, acts) && i <= j < |ws| && Follows(vs, members, ws) && a in members
    ensures a in ws[i].hosts && a in ws[j].hosts
    ensures ws[i].hosts[a].st.commitIndex <= ws[j].hosts[a].st.commitIndex
    decreases j - i
  {
    if i < j {
      StepClimbs(members, ws, acts, vs, i, a);
      CommitClimbs(members, ws, acts, vs, i + 1, j, a);
    } else {
      assert LogInv(vs[i]);
    }
  }

  /** No node's commit index ever falls. */
  lemma CommitNeverRetreats(members: set<NodeId>, ws: seq<World>, acts: seq<Action>, i: nat, j: nat, a: NodeId)
    requires Run(members, ws, acts) && SafeRestarts(ws, acts) && i <= j < |ws| && a in members
    ensures a in ws[i].hosts && a in ws[j].hosts
    ensures ws[i].hosts[a].st.commitIndex <= ws[j].hosts[a].st.commitIndex
  {
    var vs := LogHistory(members, ws, acts);
    CommitClimbs(members, ws, acts, vs, i, j, a);
  }

  /** What a node has committed it never truncates or changes. */
  lemma CommittedForever(members: set<NodeId>, ws: seq<World>, acts: seq<Action>, i: nat, j: nat, a: NodeId)
    requires Run(members, ws, acts) && SafeRestarts(ws, acts) && i <= j < |ws| && a in members
    ensures a in ws[i].hosts && a in ws[j].hosts
    ensures CommittedLog(ws[i].hosts[a]) <= CommittedLog(ws[j].hosts[a])
  {
    CommitNeverRetreats(members, ws, acts, i, j, a);
    StateMachineSafety(members, ws, acts, i, j, a, a);
    StateMachineSafety(members, ws, acts, j, i, a, a);
  }

  // ---- A cluster of one ------------------------------------------------------

  ghost predicate LoneOk(w: World, n: NodeId) {
    n in w.hosts && w.hosts[n].disk.log == w.hosts[n].st.log && WellFormed(w.hosts[n].st.log)
    && TermsUpTo(w.hosts[n].st.log, w.hosts[n].st.currentTerm)
    && TermsUpTo(w.hosts[n].st.log, w.hosts[n].disk.hard.currentTerm)
    && (!w.hosts[n].st.role.Follower? ==> w.hosts[n].st.currentTerm == w.hosts[n].disk.hard.currentTerm >= 1)
    && w.hosts[n].disk.hard.currentTerm <= w.hosts[n].st.currentTerm
  }

  lemma LoneProposes(h: Host, data: seq<Byte>)
    requires h.disk.log == h.st.log && WellFormed(h.st.log) && TermsUpTo(h.st.log, h.st.currentTerm) && h.st.currentTerm >= 1
    ensures var h' := NodePropose(h, data, true);
            h'.disk.log == h'.st.log && WellFormed(h'.st.log) && TermsUpTo(h'.st.log, h.st.currentTerm)
  {
    var e := LogEntry(LastLogIndex(h.st.log) + 1, h.st.currentTerm, data, Normal);
    StoreEntryExact(h.st.log, e);
  }

  /** Nobody else ever leads. */
  lemma LoneLeader(n: NodeId, w: World, e: Elections, r: AppendEntriesRequest)
    requires ElectionInv({n}, w, e) && AppendRequest(r) in w.net
    ensures r.leaderId == n
  {
    assert LeaderOk({n}, w, e, r.term);
  }

  lemma LoneStep(n: NodeId, w: World, a: Action, w': World, e: Elections)
    requires ElectionInv({n}, w, e) && Next({n}, w, a, w') && LoneOk(w, n)
    ensures LoneOk(w', n)
  {
    match a
    case AnswerAppend(_, append) =>
      LoneLeader(n, w, e, append);
    case Propose(_, data) => LoneProposes(w.hosts[n], data);
    case Restart(_) => RestartReadsLog(w.hosts[n].disk);
    case _ =>
  }

  lemma {:induction false} LoneAlways(n: NodeId, ws: seq<World>, acts: seq<Action>, es: seq<Elections>, i: nat)
    requires Run({n}, ws, acts) && i < |ws| == |es|
    requires forall j :: 0 <= j < |ws| ==> ElectionInv({n}, ws[j], es[j])
    ensures LoneOk(ws[i], n)
  {
    if i > 0 {
      LoneAlways(n, ws, acts, es, i - 1);
      assert Next({n}, ws[i - 1], acts[i - 1], ws[i]);
      LoneStep(n, ws[i - 1], acts[i - 1], ws[i], es[i - 1]);
    }
  }

  /** A node without peers has stored its whole log at every moment, so each of its restarts is safe. */
  lemma LoneRestartsSafe(n: NodeId, ws: seq<World>, acts: seq<Action>)
    requires Run({n}, ws, acts)
    ensures SafeRestarts(ws, acts)
  {
    var es := ElectionHistory({n}, ws, acts);
    forall i | 0 <= i < |acts| ensures SafeRestart(ws[i], acts[i]) {
      LoneAlways(n, ws, acts, es, i);
      assert Next({n}, ws[i], acts[i], ws[i + 1]);
    }
  }
}
