/**
 * Election safety over every run, restarts included: at most one node ever leads a term.
 *
 * A candidate that meets an AppendEntries of its own term forgets its vote, so a node can
 * vote twice in one term. The invariant allows that only once the term has its leader, whose
 * voters are by then bound: none of them is a candidate of that term, so none forgets.
 */
module RaftElection {
  import opened RaftTypes
  import opened RaftHandlers
  import opened RaftCluster

  /** Who won each term so far, and with whose votes. */
  datatype Elections = Elections(leader: map<nat, NodeId>, voters: map<nat, set<NodeId>>)

  ghost predicate HostOk(h: Host, e: Elections, n: NodeId) {
    var st, hard := h.st, h.disk.hard;
    && hard.currentTerm <= st.currentTerm
    && (hard.currentTerm == st.currentTerm ==> hard.votedFor == st.votedFor)
    && (hard.currentTerm < st.currentTerm ==> st.role.Follower? && st.votedFor.None?)
    && (!st.role.Follower? ==> st.votedFor == Some(n))
    && (st.role.Leader? ==> st.currentTerm in e.leader && e.leader[st.currentTerm] == n)
  }

  ghost predicate GrantOk(w: World, e: Elections, t: nat, x: NodeId, c: NodeId) {
    && x in w.hosts
    && t <= w.hosts[x].disk.hard.currentTerm
    && (t !in e.leader && w.hosts[x].disk.hard.currentTerm == t ==> w.hosts[x].disk.hard.votedFor == Some(c))
  }

  ghost predicate GrantsOk(w: World, e: Elections) {
    forall t, x, c {:trigger GrantOk(w, e, t, x, c)} :: VoteGranted(t, x, c) in w.net ==> GrantOk(w, e, t, x, c)
  }

  /** Before a term has a leader, a node's votes in it all go to one candidate. */
  ghost predicate SingleVote(w: World, e: Elections) {
    forall t, x, c, c' :: t !in e.leader ==>
      VoteGranted(t, x, c) in w.net && VoteGranted(t, x, c') in w.net ==> c == c'
  }

  ghost predicate VoterOk(w: World, t: nat, x: NodeId, leader: NodeId) {
    && x in w.hosts
    && VoteGranted(t, x, leader) in w.net
    && t <= w.hosts[x].disk.hard.currentTerm
    && (w.hosts[x].disk.hard.currentTerm == t ==> w.hosts[x].disk.hard.votedFor == Some(leader))
    && (forall c :: VoteGranted(t, x, c) in w.net ==> c == leader)
  }

  ghost predicate LeaderOk(members: set<NodeId>, w: World, e: Elections, t: nat)
    requires t in e.leader
  {
    var n := e.leader[t];
    && t in e.voters
    && Majority(members, e.voters[t])
    && n in w.hosts
    && t <= w.hosts[n].disk.hard.currentTerm
    && (w.hosts[n].st.currentTerm == t ==> !w.hosts[n].st.role.Candidate?)
    && (forall x :: x in e.voters[t] ==> VoterOk(w, t, x, n))
  }

  ghost predicate LeadersOk(members: set<NodeId>, w: World, e: Elections) {
    forall t {:trigger LeaderOk(members, w, e, t)} :: t in e.leader ==> LeaderOk(members, w, e, t)
  }

  ghost predicate RequestsOk(net: set<Message>, e: Elections) {
    forall r :: AppendRequest(r) in net ==> r.term in e.leader && e.leader[r.term] == r.leaderId
  }

  ghost predicate HostsOk(w: World, e: Elections) {
    forall n {:trigger HostOk(w.hosts[n], e, n)} :: n in w.hosts ==> HostOk(w.hosts[n], e, n)
  }

  ghost predicate ElectionInv(members: set<NodeId>, w: World, e: Elections) {
    && w.hosts.Keys == members
    && HostsOk(w, e)
    && GrantsOk(w, e)
    && SingleVote(w, e)
    && LeadersOk(members, w, e)
    && RequestsOk(w.net, e)
  }

  ghost predicate Extends(e: Elections, e': Elections) {
    forall t :: t in e.leader ==> t in e'.leader && e'.leader[t] == e.leader[t]
  }

  /** Two sets too large to be disjoint inside a third share an element. */
  lemma Overlap(all: set<NodeId>, a: set<NodeId>, b: set<NodeId>) returns (x: NodeId)
    requires a <= all && b <= all && |a| + |b| > |all|
    ensures x in a && x in b
  {
    if a * b == {} {
      assert |a + b| == |a| + |b|;
      CardinalityMonotone(a + b, all);
      assert false;
    }
    x :| x in a * b;
  }

  lemma {:induction false} CardinalityMonotone(a: set<NodeId>, b: set<NodeId>)
    requires a <= b
    ensures |a| <= |b|
  {
    if a != {} {
      var x :| x in a;
      CardinalityMonotone(a - {x}, b - {x});
    }
  }

  // ---- What one node may do to its votes -----------------------------------

  /**
   * The only ways a step changes what a node has saved about its votes. A saved vote changes
   * within a term only from none, or when a candidate steps down to the leader of its term.
   */
  ghost predicate VoteMove(h: Host, h': Host, n: NodeId, e: Elections) {
    var old', new' := h.disk.hard, h'.disk.hard;
    && HostOk(h', e, n)
    && old'.currentTerm <= new'.currentTerm
    && (old'.currentTerm == new'.currentTerm ==>
          || new'.votedFor == old'.votedFor
          || old'.votedFor.None?
          || (old'.currentTerm in e.leader && h.st.role.Candidate?))
    && (h'.st.role.Candidate? ==>
          || (h.st.role.Candidate? && h'.st.currentTerm == h.st.currentTerm)
          || h'.st.currentTerm > old'.currentTerm)
  }

  lemma StartMove(h: Host, n: NodeId, e: Elections)
    requires HostOk(h, e, n)
    ensures var (h', req) := NodeStartElection(h, n);
            VoteMove(h, h', n, e) && h'.disk.hard.currentTerm == req.term && h'.disk.hard.votedFor == Some(n)
  {
  }

  lemma AnswerVoteMove(h: Host, req: RequestVoteRequest, n: NodeId, e: Elections)
    requires HostOk(h, e, n)
    ensures var (h', resp) := NodeRequestVote(h, req);
            && VoteMove(h, h', n, e)
            && (resp.voteGranted ==>
                  h'.disk.hard.currentTerm == resp.term && h'.disk.hard.votedFor == Some(req.candidateId))
  {
  }

  lemma AnswerAppendMove(h: Host, req: AppendEntriesRequest, n: NodeId, e: Elections)
    requires HostOk(h, e, n) && req.term in e.leader
    ensures VoteMove(h, NodeAppendEntries(h, req).0, n, e)
  {
  }

  lemma QuietMove(members: set<NodeId>, w: World, a: Action, e: Elections)
    requires w.hosts.Keys == members && Enabled(members, w, a)
    requires a.Propose? || a.SendHeartbeat? || a.SendEntries? || a.RecordAck? || a.Restart?
    requires HostOk(w.hosts[a.n], e, a.n)
    ensures VoteMove(w.hosts[a.n], Effect(members, w, a).0, a.n, e)
    ensures RequestsOk(Effect(members, w, a).1, e)
    ensures forall t, x, c :: VoteGranted(t, x, c) !in Effect(members, w, a).1
  {
  }

  // ---- The invariant over the cluster --------------------------------------

  /** A vote move of one node, with at most the grant its saved vote backs, keeps the invariant. */
  lemma MoveKeepsInv(members: set<NodeId>, w: World, w': World, e: Elections, n: NodeId, sent: set<Message>)
    requires ElectionInv(members, w, e) && n in members
    requires n in w'.hosts && w'.hosts == w.hosts[n := w'.hosts[n]] && w'.net == w.net + sent
    requires VoteMove(w.hosts[n], w'.hosts[n], n, e)
    requires RequestsOk(sent, e)
    requires forall t: nat, x: NodeId, c: NodeId :: VoteGranted(t, x, c) in sent ==>
               x == n && t == w'.hosts[n].disk.hard.currentTerm && w'.hosts[n].disk.hard.votedFor == Some(c)
    ensures ElectionInv(members, w', e)
  {
    forall t | t in e.leader ensures LeaderOk(members, w', e, t) {
      LeaderKept(members, w, w', e, n, sent, t);
    }
    assert GrantsOk(w', e) by {
      forall t, x, c | VoteGranted(t, x, c) in w'.net ensures GrantOk(w', e, t, x, c) {
        if VoteGranted(t, x, c) in w.net {
          assert GrantOk(w, e, t, x, c);
        }
      }
    }
    forall t, x, c, c' | t !in e.leader && VoteGranted(t, x, c) in w'.net && VoteGranted(t, x, c') in w'.net
      ensures c == c'
    {
      if VoteGranted(t, x, c) in w.net && VoteGranted(t, x, c') in w.net {
      } else {
        assert GrantOk(w', e, t, x, c) && GrantOk(w', e, t, x, c');
      }
    }
    assert HostsOk(w', e);
  }

  lemma LeaderKept(members: set<NodeId>, w: World, w': World, e: Elections, n: NodeId, sent: set<Message>, t: nat)
    requires ElectionInv(members, w, e) && n in members
    requires n in w'.hosts && w'.hosts == w.hosts[n := w'.hosts[n]] && w'.net == w.net + sent
    requires VoteMove(w.hosts[n], w'.hosts[n], n, e)
    requires forall t: nat, x: NodeId, c: NodeId :: VoteGranted(t, x, c) in sent ==>
               x == n && t == w'.hosts[n].disk.hard.currentTerm && w'.hosts[n].disk.hard.votedFor == Some(c)
    requires t in e.leader
    ensures LeaderOk(members, w', e, t)
  {
    assert LeaderOk(members, w, e, t);
    assert HostOk(w.hosts[n], e, n);
    var lead := e.leader[t];
    forall x | x in e.voters[t] ensures VoterOk(w', t, x, lead) {
      assert VoterOk(w, t, x, lead);
      if x == n && w'.hosts[n].disk.hard.currentTerm == t {
        assert w'.hosts[n].disk.hard.votedFor == Some(lead);
      }
    }
  }

  lemma WinStep(members: set<NodeId>, w: World, a: Action, w': World, e: Elections) returns (e': Elections)
    requires ElectionInv(members, w, e) && Next(members, w, a, w') && a.WinElection?
    ensures ElectionInv(members, w', e') && Extends(e, e')
    ensures var t := w.hosts[a.n].st.currentTerm;
            t !in e.leader && e' == Elections(e.leader[t := a.n], e.voters[t := a.voters])
  {
    var n, t' := a.n, w.hosts[a.n].st.currentTerm;
    FreshTerm(members, w, a, e);
    e' := Elections(e.leader[t' := n], e.voters[t' := a.voters]);
    assert w'.net == w.net;
    forall t | t in e'.leader ensures LeaderOk(members, w', e', t) {
      if t == t' {
        NewLeaderOk(members, w, a, w', e, e');
      } else {
        assert LeaderOk(members, w, e, t);
        OldLeaderOk(members, w, w', e, e', n, t);
      }
    }
    forall t, x, c | VoteGranted(t, x, c) in w'.net ensures GrantOk(w', e', t, x, c) {
      assert GrantOk(w, e, t, x, c);
    }
    forall m | m in w'.hosts ensures HostOk(w'.hosts[m], e', m) {
      assert HostOk(w.hosts[m], e, m);
    }
  }

  lemma NewLeaderOk(members: set<NodeId>, w: World, a: Action, w': World, e: Elections, e': Elections)
    requires ElectionInv(members, w, e) && Next(members, w, a, w') && a.WinElection?
    requires var t := w.hosts[a.n].st.currentTerm;
             t !in e.leader && e' == Elections(e.leader[t := a.n], e.voters[t := a.voters])
    ensures LeaderOk(members, w', e', w.hosts[a.n].st.currentTerm)
  {
    var t := w.hosts[a.n].st.currentTerm;
    assert HostOk(w.hosts[a.n], e, a.n);
    forall x | x in a.voters ensures VoterOk(w', t, x, a.n) {
      assert VoteGranted(t, x, a.n) in w.net;
      assert GrantOk(w, e, t, x, a.n);
    }
  }

  lemma OldLeaderOk(members: set<NodeId>, w: World, w': World, e: Elections, e': Elections, n: NodeId, t: nat)
    requires ElectionInv(members, w, e) && n in members
    requires n in w'.hosts && w'.hosts == w.hosts[n := w'.hosts[n]] && w'.net == w.net
    requires w'.hosts[n].disk == w.hosts[n].disk && !w'.hosts[n].st.role.Candidate?
    requires t in e.leader && t in e'.leader && e'.leader[t] == e.leader[t]
    requires t in e.voters && t in e'.voters && e'.voters[t] == e.voters[t]
    ensures LeaderOk(members, w', e', t)
  {
    assert LeaderOk(members, w, e, t);
    forall x | x in e.voters[t] ensures VoterOk(w', t, x, e.leader[t]) {
      assert VoterOk(w, t, x, e.leader[t]);
    }
  }

  /** A candidate with a majority cannot be in a term somebody already won. */
  lemma FreshTerm(members: set<NodeId>, w: World, a: Action, e: Elections)
    requires ElectionInv(members, w, e) && a.WinElection? && Enabled(members, w, a)
    ensures w.hosts[a.n].st.currentTerm !in e.leader
  {
    var t := w.hosts[a.n].st.currentTerm;
    if t in e.leader {
      assert LeaderOk(members, w, e, t);
      var x := Overlap(members, a.voters, e.voters[t]);
    }
  }

  /** Every step of every kind keeps the election invariant and only adds elections. */
  lemma ElectionStep(members: set<NodeId>, w: World, a: Action, w': World, e: Elections) returns (e': Elections)
    requires ElectionInv(members, w, e) && Next(members, w, a, w')
    ensures ElectionInv(members, w', e') && Extends(e, e')
    ensures !a.WinElection? ==> e' == e
    ensures a.WinElection? ==> var t := w.hosts[a.n].st.currentTerm;
            t !in e.leader && e' == Elections(e.leader[t := a.n], e.voters[t := a.voters])
  {
    var n := a.n;
    var h := w.hosts[n];
    var (h', sent) := Effect(members, w, a);
    assert HostOk(h, e, n);
    e' := e;
    match a {
      case WinElection(_, _) =>
        e' := WinStep(members, w, a, w', e);
        return;
      case StartElection(_) =>
        StartMove(h, n, e);
      case AnswerVote(_, vote) =>
        AnswerVoteMove(h, vote, n, e);
      case AnswerAppend(_, append) =>
        assert AppendRequest(append) in w.net;
        AnswerAppendMove(h, append, n, e);
      case _ =>
        QuietMove(members, w, a, e);
    }
    MoveKeepsInv(members, w, w', e, n, sent);
  }

  lemma {:induction false} ElectionHistory(members: set<NodeId>, ws: seq<World>, acts: seq<Action>)
    returns (es: seq<Elections>)
    requires Run(members, ws, acts)
    ensures |es| == |ws|
    ensures forall i :: 0 <= i < |ws| ==> ElectionInv(members, ws[i], es[i])
    ensures forall i, j :: 0 <= i <= j < |es| ==> Extends(es[i], es[j])
    decreases |acts|
  {
    if acts == [] {
      es := [Elections(map[], map[])];
    } else {
      var n := |acts| - 1;
      es := ElectionHistory(members, ws[..n + 1], acts[..n]);
      assert Next(members, ws[n], acts[n], ws[n + 1]);
      var e := ElectionStep(members, ws[n], acts[n], ws[n + 1], es[n]);
      forall i | 0 <= i < |es| ensures Extends(es[i], e) {
        assert Extends(es[i], es[n]);
      }
      es := es + [e];
    }
  }

  /** No two nodes ever lead the same term, at any two moments of any run. */
  lemma ElectionSafety(members: set<NodeId>, ws: seq<World>, acts: seq<Action>, i: nat, j: nat, a: NodeId, b: NodeId)
    requires Run(members, ws, acts) && i < |ws| && j < |ws|
    requires a in ws[i].hosts && ws[i].hosts[a].st.role.Leader?
    requires b in ws[j].hosts && ws[j].hosts[b].st.role.Leader?
    requires ws[i].hosts[a].st.currentTerm == ws[j].hosts[b].st.currentTerm
    ensures a == b
  {
    var es := ElectionHistory(members, ws, acts);
    assert ElectionInv(members, ws[i], es[i]) && ElectionInv(members, ws[j], es[j]);
    assert HostOk(ws[i].hosts[a], es[i], a) && HostOk(ws[j].hosts[b], es[j], b);
    if i <= j {
      assert Extends(es[i], es[j]);
    } else {
      assert Extends(es[j], es[i]);
    }
  }
}
