/**
 * The log part of the safety argument, for runs whose restarts find the log they left.
 *
 * A restart takes a node back to the term it last saved, and every vote, candidacy and
 * acknowledgement is saved before it is sent. So the argument counts terms as saved.
 *
 * Two histories serve the proof. `term[t]` is the log of term t's leader, which only grows while
 * it leads; `cand[(t, c)]` is the log with which c stood in term t. An entry of term t anywhere
 * in the cluster is backed by `term[t]`: the whole log up to it is a prefix of `term[t]`.
 */
module RaftSafety {
  import opened RaftTypes
  import opened RaftHandlers
  import opened RaftLog
  import opened RaftCluster
  import opened RaftElection
  import opened RaftQuorum

  datatype Logs = Logs(term: map<nat, Log>, cand: map<(nat, NodeId), Log>)

  // ---- Backed logs and log matching ----------------------------------------

  ghost predicate BackedAt(log: Log, i: nat, term: map<nat, Log>)
    requires i < |log|
  {
    log[i].term in term && log[..i + 1] <= term[log[i].term]
  }

  ghost predicate Backed(log: Log, term: map<nat, Log>) {
    forall i :: 0 <= i < |log| ==> BackedAt(log, i, term)
  }

  ghost predicate TermsUpTo(log: Log, t: nat) {
    forall i :: 0 <= i < |log| ==> log[i].term <= t
  }

  ghost predicate TermsBelow(log: Log, t: nat) {
    forall i :: 0 <= i < |log| ==> log[i].term < t
  }

  /** Log matching: two logs with one term at one index agree up to there. */
  ghost predicate LogsMatch(a: Log, b: Log) {
    forall i {:trigger a[i], b[i]} :: 0 <= i < |a| && i < |b| && a[i].term == b[i].term ==> a[..i + 1] == b[..i + 1]
  }

  lemma BackedMatch(a: Log, b: Log, term: map<nat, Log>)
    requires Backed(a, term) && Backed(b, term)
    ensures LogsMatch(a, b)
  {
    forall i | 0 <= i < |a| && i < |b| && a[i].term == b[i].term ensures a[..i + 1] == b[..i + 1] {
      assert BackedAt(a, i, term) && BackedAt(b, i, term);
    }
  }

  lemma BackedPrefix(a: Log, b: Log, term: map<nat, Log>)
    requires a <= b && Backed(b, term)
    ensures Backed(a, term)
  {
    forall i | 0 <= i < |a| ensures BackedAt(a, i, term) {
      assert BackedAt(b, i, term);
      assert a[..i + 1] == b[..i + 1];
    }
  }

  ghost predicate TermsGrow(term: map<nat, Log>, term': map<nat, Log>) {
    forall t :: t in term ==> t in term' && term[t] <= term'[t]
  }

  lemma BackedGrows(log: Log, term: map<nat, Log>, term': map<nat, Log>)
    requires Backed(log, term) && TermsGrow(term, term')
    ensures Backed(log, term')
  {
    forall i | 0 <= i < |log| ensures BackedAt(log, i, term') {
      assert BackedAt(log, i, term);
    }
  }

  /** Where the request and the log agree, the log is the leader's. */
  lemma AgreementIsLeaders(log: Log, lead: Log, prev: nat, upTo: nat, k: nat)
    requires LogsMatch(log, lead)
    requires prev <= upTo <= |lead| && prev <= |log|
    requires prev > 0 ==> log[prev - 1].term == lead[prev - 1].term
    requires AgreesFor(log, prev, lead[prev..upTo], k)
    ensures log[..prev + k] == lead[..prev + k]
  {
    if prev + k > 0 {
      if k > 0 {
        assert log[prev + (k - 1)].term == lead[prev..upTo][k - 1].term;
      }
      assert log[prev + k - 1].term == lead[prev + k - 1].term;
    }
  }

  /** What an accepted AppendEntries leaves in the log, given the leader's log it was cut from. */
  lemma SpliceOntoLeader(log: Log, lead: Log, prev: nat, upTo: nat)
    requires LogsMatch(log, lead)
    requires prev <= upTo <= |lead| && prev <= |log|
    requires prev > 0 ==> log[prev - 1].term == lead[prev - 1].term
    ensures var log' := Splice(log, prev, lead[prev..upTo]);
            lead[..upTo] <= log' && (log' == log || log' == lead[..upTo])
  {
    var entries := lead[prev..upTo];
    var k := Agreement(log, prev, entries);
    AgreementIsLeaders(log, lead, prev, upTo, k);
    if k == |entries| {
      assert lead[..upTo] == log[..prev + k];
    } else {
      assert lead[..upTo] == lead[..prev + k] + entries[k..];
    }
  }

  /** A prefix the log shares with the leader survives the splice. */
  lemma SpliceKeeps(log: Log, lead: Log, prev: nat, upTo: nat, p: Log)
    requires LogsMatch(log, lead)
    requires prev <= upTo <= |lead| && prev <= |log|
    requires prev > 0 ==> log[prev - 1].term == lead[prev - 1].term
    requires p <= log && p <= lead
    ensures p <= Splice(log, prev, lead[prev..upTo])
  {
    SpliceOntoLeader(log, lead, prev, upTo);
    if Splice(log, prev, lead[prev..upTo]) == lead[..upTo] {
      assert |p| <= upTo;
    }
  }

  // ---- The cluster with its histories --------------------------------------

  datatype View = View(members: set<NodeId>, w: World, e: Elections, l: Logs)

  ghost function TermOf(v: View, x: NodeId): nat
    requires x in v.w.hosts
  {
    v.w.hosts[x].st.currentTerm
  }

  /** The term a node last saved, in which a restart would leave it. */
  ghost function DiskTerm(v: View, x: NodeId): nat
    requires x in v.w.hosts
  {
    v.w.hosts[x].disk.hard.currentTerm
  }

  ghost function LogOf(v: View, x: NodeId): Log
    requires x in v.w.hosts
  {
    v.w.hosts[x].st.log
  }

  /** Node `x` once held the first `k` entries of term `t`'s leader while in that term. */
  ghost predicate Acked(v: View, x: NodeId, t: nat, k: nat) {
    && t in v.e.leader && t in v.l.term && k <= |v.l.term[t]|
    && (x == v.e.leader[t] || exists j :: j >= k && AppendAck(t, x, j) in v.w.net)
  }

  /** Entry `k` of term `t`'s leader was created in that term. */
  ghost predicate Own(v: View, t: nat, k: nat) {
    t in v.l.term && 1 <= k <= |v.l.term[t]| && v.l.term[t][k - 1].term == t
  }

  ghost function Head(v: View, t: nat, k: nat): Log
    requires Own(v, t, k)
  {
    v.l.term[t][..k]
  }

  ghost predicate Viable(v: View, c: set<NodeId>, t: nat, k: nat) {
    && CommitQuorum(v.members, c)
    && forall x :: x in c ==> x in v.w.hosts && (Acked(v, x, t, k) || DiskTerm(v, x) <= t)
  }

  /** Entry `k` of term `t` is committed or may still become so. */
  ghost predicate Live(v: View, t: nat, k: nat) {
    Own(v, t, k) && exists c :: Viable(v, c, t, k)
  }

  ghost predicate AckedByAll(v: View, c: set<NodeId>, t: nat, k: nat) {
    CommitQuorum(v.members, c) && forall x :: x in c ==> Acked(v, x, t, k)
  }

  ghost predicate Committed(v: View, t: nat, k: nat) {
    Own(v, t, k) && exists c :: AckedByAll(v, c, t, k)
  }

  /** `p` is part of what some term up to `bound` committed. */
  ghost predicate CommittedBy(v: View, p: Log, bound: nat) {
    p == [] || exists t: nat, k: nat :: t <= bound && Committed(v, t, k) && p <= Head(v, t, k)
  }

  // ---- The invariant -------------------------------------------------------

  /** An acknowledged prefix that may be committed is still in the log. */
  ghost predicate KeepsAt(v: View, x: NodeId)
    requires x in v.w.hosts
  {
    forall t: nat, k: nat :: Live(v, t, k) && Acked(v, x, t, k) ==> Head(v, t, k) <= LogOf(v, x)
  }

  /** The leader of a later term holds every earlier prefix that may be committed. */
  ghost predicate LaterAt(v: View, t': nat)
    requires t' in v.l.term
  {
    forall t: nat, k: nat :: t < t' && Live(v, t, k) ==> Head(v, t, k) <= v.l.term[t']
  }

  /** A voter's acknowledged prefixes that may be committed are in its candidate's log. */
  ghost predicate VoteAt(v: View, t': nat, x: NodeId, c: NodeId)
    requires (t', c) in v.l.cand
  {
    forall t: nat, k: nat :: t < t' && Live(v, t, k) && Acked(v, x, t, k) ==> Head(v, t, k) <= v.l.cand[(t', c)]
  }

  ghost predicate MatchOk(v: View, n: NodeId)
    requires n in v.w.hosts
  {
    var st := v.w.hosts[n].st;
    && st.matchIndex.Keys == v.members - {n}
    && st.nextIndex.Keys == v.members - {n}
    && forall p :: p in st.matchIndex && st.matchIndex[p] > 0 ==> Acked(v, p, st.currentTerm, st.matchIndex[p])
  }

  ghost predicate NodeOk(v: View, n: NodeId)
    requires n in v.w.hosts
  {
    var st, hard := v.w.hosts[n].st, v.w.hosts[n].disk.hard;
    && WellFormed(st.log) && Backed(st.log, v.l.term) && TermsUpTo(st.log, hard.currentTerm)
    && hard.currentTerm <= st.currentTerm
    && (!st.role.Follower? ==> st.currentTerm >= 1)
    && (st.role.Candidate? ==> (st.currentTerm, n) in v.l.cand && v.l.cand[(st.currentTerm, n)] == st.log)
    && (st.role.Leader? ==> st.currentTerm in v.l.term && v.l.term[st.currentTerm] == st.log && MatchOk(v, n))
    && st.commitIndex <= |st.log| && hard.commit == st.commitIndex
    && CommittedBy(v, st.log[..st.commitIndex], hard.currentTerm)
  }

  ghost predicate CandOk(v: View, t: nat, c: NodeId)
    requires (t, c) in v.l.cand
  {
    var log := v.l.cand[(t, c)];
    && c in v.w.hosts && t <= DiskTerm(v, c)
    && WellFormed(log) && Backed(log, v.l.term) && TermsBelow(log, t)
  }

  ghost predicate TermOk(v: View, t: nat)
    requires t in v.l.term
  {
    WellFormed(v.l.term[t]) && Backed(v.l.term[t], v.l.term) && TermsUpTo(v.l.term[t], t)
  }

  ghost predicate RequestOk(v: View, r: AppendEntriesRequest) {
    && r.term in v.l.term
    && var lead, upTo := v.l.term[r.term], r.prevLogIndex + |r.entries|;
       && upTo <= |lead|
       && r.entries == lead[r.prevLogIndex..upTo]
       && r.prevLogTerm == (if r.prevLogIndex == 0 then 0 else lead[r.prevLogIndex - 1].term)
       && r.leaderCommit <= upTo
       && CommittedBy(v, lead[..r.leaderCommit], r.term)
  }

  ghost predicate MessageOk(v: View, m: Message) {
    match m
    case VoteRequest(r) =>
      && (r.term, r.candidateId) in v.l.cand
      && r.lastLogIndex == |v.l.cand[(r.term, r.candidateId)]|
      && r.lastLogTerm == LastLogTerm(v.l.cand[(r.term, r.candidateId)])
    case VoteGranted(t, x, c) => x in v.w.hosts && t <= DiskTerm(v, x) && (t, c) in v.l.cand
    case AppendRequest(r) => RequestOk(v, r)
    case AppendAck(t, x, j) => t in v.l.term && j <= |v.l.term[t]| && x in v.w.hosts && t <= DiskTerm(v, x)
  }

  ghost predicate NodesOk(v: View) { forall n {:trigger NodeOk(v, n)} :: n in v.w.hosts ==> NodeOk(v, n) }
  ghost predicate CandsOk(v: View) { forall t, c {:trigger CandOk(v, t, c)} :: (t, c) in v.l.cand ==> CandOk(v, t, c) }
  ghost predicate TermsOk(v: View) { forall t {:trigger TermOk(v, t)} :: t in v.l.term ==> TermOk(v, t) }
  ghost predicate MessagesOk(v: View) { forall m {:trigger MessageOk(v, m)} :: m in v.w.net ==> MessageOk(v, m) }
  ghost predicate Keeps(v: View) { forall x {:trigger KeepsAt(v, x)} :: x in v.w.hosts ==> KeepsAt(v, x) }
  ghost predicate Later(v: View) { forall t {:trigger LaterAt(v, t)} :: t in v.l.term ==> LaterAt(v, t) }
  ghost predicate Votes(v: View)
    requires MessagesOk(v)
  {
    forall t, x, c {:trigger VoteAt(v, t, x, c)} :: VoteGranted(t, x, c) in v.w.net ==>
      MessageOk(v, VoteGranted(t, x, c)) && VoteAt(v, t, x, c)
  }

  /** The structural part: every log and message is backed by the leaders' logs. */
  ghost predicate Shape(v: View) {
    && ElectionInv(v.members, v.w, v.e)
    && v.l.term.Keys == v.e.leader.Keys
    && NodesOk(v) && CandsOk(v) && TermsOk(v) && MessagesOk(v)
  }

  ghost predicate LogInv(v: View) {
    Shape(v) && Keeps(v) && Later(v) && Votes(v)
  }

  // ---- What every step leaves alone ----------------------------------------

  ghost predicate Grows(v: View, v': View) {
    && v'.members == v.members
    && v'.w.hosts.Keys == v.w.hosts.Keys
    && v.w.net <= v'.w.net
    && (forall x :: x in v.w.hosts ==> DiskTerm(v, x) <= DiskTerm(v', x))
    && (forall t :: t in v.e.leader ==> t in v'.e.leader && v'.e.leader[t] == v.e.leader[t])
    && TermsGrow(v.l.term, v'.l.term)
    && (forall t, i :: t in v.l.term && |v.l.term[t]| <= i < |v'.l.term[t]| ==> v'.l.term[t][i].term == t)
    && (forall key :: key in v.l.cand ==> key in v'.l.cand && v'.l.cand[key] == v.l.cand[key])
  }

  /** Only nodes with no later term saved acknowledge a term's entries. */
  ghost predicate FreshAcks(v: View, v': View)
    requires v'.w.hosts.Keys == v.w.hosts.Keys
  {
    forall x: NodeId, t: nat, k: nat :: t in v.l.term && k <= |v.l.term[t]| && x in v.w.hosts && Acked(v', x, t, k) ==>
      Acked(v, x, t, k) || DiskTerm(v, x) <= t
  }

  lemma AckedGrows(v: View, v': View, x: NodeId, t: nat, k: nat)
    requires Grows(v, v') && Acked(v, x, t, k)
    ensures Acked(v', x, t, k)
  {
  }

  lemma CommittedGrows(v: View, v': View, t: nat, k: nat)
    requires Grows(v, v') && Committed(v, t, k)
    ensures Committed(v', t, k) && Head(v', t, k) == Head(v, t, k)
  {
    var c :| AckedByAll(v, c, t, k);
    forall x | x in c ensures Acked(v', x, t, k) {
      AckedGrows(v, v', x, t, k);
    }
    assert AckedByAll(v', c, t, k);
  }

  lemma CommittedByGrows(v: View, v': View, p: Log, bound: nat, bound': nat)
    requires Grows(v, v') && CommittedBy(v, p, bound) && bound <= bound'
    ensures CommittedBy(v', p, bound')
  {
    if p != [] {
      var t: nat, k: nat :| t <= bound && Committed(v, t, k) && p <= Head(v, t, k);
      CommittedGrows(v, v', t, k);
    }
  }

  /** A prefix that may still be committed after a step could be committed before it. */
  lemma LiveBack(v: View, v': View, t: nat, k: nat)
    requires Grows(v, v') && FreshAcks(v, v') && Own(v, t, k) && Live(v', t, k)
    ensures Live(v, t, k) && Head(v, t, k) == Head(v', t, k)
  {
    var c :| Viable(v', c, t, k);
    forall x | x in c ensures x in v.w.hosts && (Acked(v, x, t, k) || DiskTerm(v, x) <= t) {
      assert x in v'.w.hosts && (Acked(v', x, t, k) || DiskTerm(v', x) <= t);
    }
    assert Viable(v, c, t, k);
  }

  lemma CommittedLive(v: View, t: nat, k: nat)
    requires Committed(v, t, k) && v.w.hosts.Keys == v.members
    ensures Live(v, t, k)
  {
    var c :| AckedByAll(v, c, t, k);
    assert Viable(v, c, t, k);
  }

  lemma MessageGrows(v: View, v': View, m: Message)
    requires Grows(v, v') && MessageOk(v, m)
    ensures MessageOk(v', m)
  {
    match m
    case AppendRequest(r) =>
      var lead, lead' := v.l.term[r.term], v'.l.term[r.term];
      assert lead <= lead';
      assert lead'[..r.leaderCommit] == lead[..r.leaderCommit];
      CommittedByGrows(v, v', lead[..r.leaderCommit], r.term, r.term);
      var upTo := r.prevLogIndex + |r.entries|;
      assert lead'[r.prevLogIndex..upTo] == lead[r.prevLogIndex..upTo];
    case _ =>
  }

  lemma CandGrows(v: View, v': View, t: nat, c: NodeId)
    requires Grows(v, v') && (t, c) in v.l.cand && CandOk(v, t, c)
    ensures (t, c) in v'.l.cand && CandOk(v', t, c)
  {
    BackedGrows(v.l.cand[(t, c)], v.l.term, v'.l.term);
  }

  /** A node that did not change, and whose term's log did not either, stays fine. */
  lemma NodeGrows(v: View, v': View, n: NodeId)
    requires Grows(v, v') && n in v.w.hosts && NodeOk(v, n)
    requires v'.w.hosts[n] == v.w.hosts[n]
    requires v.w.hosts[n].st.role.Leader? ==> v'.l.term[TermOf(v, n)] == v.l.term[TermOf(v, n)]
    ensures NodeOk(v', n)
  {
    var st := v.w.hosts[n].st;
    BackedGrows(st.log, v.l.term, v'.l.term);
    CommittedByGrows(v, v', st.log[..st.commitIndex], DiskTerm(v, n), DiskTerm(v, n));
    if st.role.Leader? {
      forall p | p in st.matchIndex && st.matchIndex[p] > 0 ensures Acked(v', p, st.currentTerm, st.matchIndex[p]) {
        AckedGrows(v, v', p, st.currentTerm, st.matchIndex[p]);
      }
    }
  }
}
