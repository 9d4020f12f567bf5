/**
 * The handlers of one node as functions on its state, and what they do to a log
 * whose indices are contiguous from 1.
 */
module RaftHandlers {
  import opened RaftTypes

  // ---- Log lookups ---------------------------------------------------------

  function LastLogIndex(log: Log): nat {
    if log == [] then 0 else log[|log| - 1].index
  }

  function LastLogTerm(log: Log): nat {
    if log == [] then 0 else log[|log| - 1].term
  }

  /** Term of the first entry carrying the given index, 0 when there is none. */
  function FindTerm(log: Log, index: nat): nat {
    if log == [] then 0
    else if log[0].index == index then log[0].term
    else FindTerm(log[1..], index)
  }

  /** Term stored at a 1-based index; 0 for index 0 and for a missing index. */
  function LogTermAt(log: Log, index: nat): nat {
    if index == 0 then 0 else FindTerm(log, index)
  }

  /** The entries whose index is below the given one. */
  function RetainBelow(log: Log, index: nat): Log {
    if log == [] then []
    else if log[0].index < index then [log[0]] + RetainBelow(log[1..], index)
    else RetainBelow(log[1..], index)
  }

  predicate UpToDate(log: Log, lastLogIndex: nat, lastLogTerm: nat) {
    if lastLogTerm != LastLogTerm(log) then lastLogTerm >= LastLogTerm(log)
    else lastLogIndex >= LastLogIndex(log)
  }

  // ---- Role changes --------------------------------------------------------

  function NewState(): NodeState {
    NodeState(Follower, 0, None, [], 0, 0, map[], map[], None)
  }

  function BecomeFollower(st: NodeState, term: nat, leader: Option<NodeId>): NodeState {
    st.(role := Follower, currentTerm := term, votedFor := None, leaderId := leader)
  }

  function BecomeCandidate(st: NodeState): NodeState {
    st.(role := Candidate, currentTerm := st.currentTerm + 1, votedFor := None, leaderId := None)
  }

  function BecomeLeader(st: NodeState, me: NodeId, peers: set<NodeId>): NodeState {
    st.(role := Leader, leaderId := Some(me),
        nextIndex := map p | p in peers :: LastLogIndex(st.log) + 1,
        matchIndex := map p | p in peers :: 0)
  }

  // ---- Commit rule ---------------------------------------------------------

  function MatchOf(st: NodeState, peer: NodeId): nat {
    if peer in st.matchIndex then st.matchIndex[peer] else 0
  }

  function MatchList(st: NodeState, peers: seq<NodeId>): seq<nat> {
    seq(|peers|, i requires 0 <= i < |peers| => MatchOf(st, peers[i])) + [LastLogIndex(st.log)]
  }

  function Insert(x: nat, s: seq<nat>): seq<nat> {
    if s == [] || x <= s[0] then [x] + s else [s[0]] + Insert(x, s[1..])
  }

  function Sort(s: seq<nat>): (r: seq<nat>)
    ensures |r| == |s|
  {
    if s == [] then [] else InsertLength(s[0], Sort(s[1..])); Insert(s[0], Sort(s[1..]))
  }

  lemma InsertLength(x: nat, s: seq<nat>)
    ensures |Insert(x, s)| == |s| + 1
  {
  }

  /** The index the leader considers replicated: entry n/2 of the sorted match list. */
  function MajorityMatch(st: NodeState, peers: seq<NodeId>): nat {
    var sorted := Sort(MatchList(st, peers));
    sorted[|sorted| / 2]
  }

  function AdvanceCommit(st: NodeState, peers: seq<NodeId>): (NodeState, bool) {
    var k := MajorityMatch(st, peers);
    if k > st.commitIndex && LogTermAt(st.log, k) == st.currentTerm
    then (st.(commitIndex := k), true)
    else (st, false)
  }

  // ---- Remote calls --------------------------------------------------------

  /** The conflict loop: each entry whose index holds another term cuts the log there. */
  function TruncateConflicts(log: Log, entries: seq<LogEntry>): Log
    decreases |entries|
  {
    if entries == [] then log
    else
      var t := LogTermAt(log, entries[0].index);
      TruncateConflicts(
        if t != 0 && t != entries[0].term then RetainBelow(log, entries[0].index) else log,
        entries[1..])
  }

  /** The append loop: each entry whose index is absent is pushed. */
  function AppendMissing(log: Log, entries: seq<LogEntry>): Log
    decreases |entries|
  {
    if entries == [] then log
    else AppendMissing(
           if LogTermAt(log, entries[0].index) == 0 then log + [entries[0]] else log,
           entries[1..])
  }

  function Merge(log: Log, entries: seq<LogEntry>): Log {
    AppendMissing(TruncateConflicts(log, entries), entries)
  }

  function Observe(st: NodeState, req: AppendEntriesRequest): NodeState {
    if req.term > st.currentTerm || st.role.Candidate?
    then BecomeFollower(st, req.term, Some(req.leaderId))
    else st.(leaderId := Some(req.leaderId))
  }

  function HandleAppendEntries(st: NodeState, req: AppendEntriesRequest)
    : (NodeState, AppendEntriesResponse, bool)
  {
    if req.term < st.currentTerm then
      (st, AppendEntriesResponse(st.currentTerm, false), false)
    else
      var s1 := Observe(st, req);
      if req.prevLogIndex > 0 && LogTermAt(s1.log, req.prevLogIndex) != req.prevLogTerm then
        (s1, AppendEntriesResponse(s1.currentTerm, false), true)
      else
        var log := Merge(s1.log, req.entries);
        var commit :=
          if req.leaderCommit > s1.commitIndex then
            (if req.leaderCommit <= LastLogIndex(log) then req.leaderCommit else LastLogIndex(log))
          else s1.commitIndex;
        (s1.(log := log, commitIndex := commit), AppendEntriesResponse(s1.currentTerm, true), true)
  }

  function HandleRequestVote(st: NodeState, req: RequestVoteRequest)
    : (NodeState, RequestVoteResponse, bool)
  {
    if req.term < st.currentTerm then
      (st, RequestVoteResponse(st.currentTerm, false), false)
    else
      var s1 := if req.term > st.currentTerm then BecomeFollower(st, req.term, None) else st;
      if (s1.votedFor.None? || s1.votedFor == Some(req.candidateId))
         && UpToDate(s1.log, req.lastLogIndex, req.lastLogTerm)
      then (s1.(votedFor := Some(req.candidateId)), RequestVoteResponse(s1.currentTerm, true), true)
      else (s1, RequestVoteResponse(s1.currentTerm, false), false)
  }

  // ---- Node level: handlers plus persistence -------------------------------

  function Hard(st: NodeState): HardState {
    HardState(st.currentTerm, st.votedFor, st.commitIndex)
  }

  function Persist(h: Host, save: bool): Host {
    if save then h.(disk := h.disk.(hard := Hard(h.st))) else h
  }

  /** Stored entries up to the first whose index is not below the given one. */
  function CutAt(log: Log, index: nat): Log {
    if log == [] || log[0].index >= index then [] else [log[0]] + CutAt(log[1..], index)
  }

  function StoreEntry(log: Log, e: LogEntry): Log {
    (if e.index > 0 then CutAt(log, e.index) else log) + [e]
  }

  function NodeAppendEntries(h: Host, req: AppendEntriesRequest): (Host, AppendEntriesResponse) {
    var (st, resp, save) := HandleAppendEntries(h.st, req);
    (Persist(h.(st := st), save), resp)
  }

  function NodeRequestVote(h: Host, req: RequestVoteRequest): (Host, RequestVoteResponse) {
    var (st, resp, save) := HandleRequestVote(h.st, req);
    (Persist(h.(st := st), save), resp)
  }

  /** The first critical section of start_election: new term, own vote, saved. */
  function NodeStartElection(h: Host, me: NodeId): (Host, RequestVoteRequest) {
    var st := BecomeCandidate(h.st).(votedFor := Some(me));
    (Persist(h.(st := st), true),
     RequestVoteRequest(st.currentTerm, me, LastLogIndex(st.log), LastLogTerm(st.log)))
  }

  /** Append of a proposal on the leader; a node without peers commits it at once. */
  function NodePropose(h: Host, data: seq<Byte>, alone: bool): Host {
    var e := LogEntry(LastLogIndex(h.st.log) + 1, h.st.currentTerm, data, Normal);
    var h1 := h.(st := h.st.(log := h.st.log + [e]), disk := h.disk.(log := StoreEntry(h.disk.log, e)));
    if alone then Persist(h1.(st := h1.st.(commitIndex := e.index)), true) else h1
  }

  function Heartbeat(st: NodeState, me: NodeId): AppendEntriesRequest {
    AppendEntriesRequest(st.currentTerm, me, LastLogIndex(st.log), LastLogTerm(st.log), [], st.commitIndex)
  }

  /** Record an acknowledgement on a leader and try to advance its commit index. */
  function NodeUpdateMatch(h: Host, peer: NodeId, idx: nat, keys: seq<NodeId>): Host {
    if !h.st.role.Leader? then h
    else
      var st := h.st.(matchIndex := h.st.matchIndex[peer := idx],
                      nextIndex := h.st.nextIndex[peer := idx + 1]);
      var (st', advanced) := AdvanceCommit(st, keys);
      Persist(h.(st := st'), advanced)
  }

  /** Stored entries with an index in 1..last stored index. */
  function GetEntries(log: Log, from: nat, to: nat): Log {
    if log == [] then []
    else (if from <= log[0].index <= to then [log[0]] else []) + GetEntries(log[1..], from, to)
  }

  /** A node built from its storage. */
  function NodeRestart(disk: Disk): Host {
    var log := if LastLogIndex(disk.log) > 0 then GetEntries(disk.log, 1, LastLogIndex(disk.log)) else [];
    Host(NewState().(currentTerm := disk.hard.currentTerm, votedFor := disk.hard.votedFor,
                     commitIndex := disk.hard.commit, log := log),
         disk)
  }
}
