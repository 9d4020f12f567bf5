/**
 * A node as the objects that make it up: its in-memory state, its storage, and the node that
 * ties them together. Every method is proved to compute the function of the same step.
 */
module RaftNodes {
  import opened RaftTypes
  import opened RaftHandlers

  class RaftState {
    var role: Role
    var currentTerm: nat
    var votedFor: Option<NodeId>
    var log: seq<LogEntry>
    var commitIndex: nat
    var lastApplied: nat
    var nextIndex: map<NodeId, nat>
    var matchIndex: map<NodeId, nat>
    var leaderId: Option<NodeId>

    function Value(): NodeState
      reads this
    {
      NodeState(role, currentTerm, votedFor, log, commitIndex, lastApplied, nextIndex, matchIndex, leaderId)
    }

    constructor ()
      ensures Value() == NewState()
    {
      role, currentTerm, votedFor, log := Follower, 0, None, [];
      commitIndex, lastApplied, nextIndex, matchIndex, leaderId := 0, 0, map[], map[], None;
    }

    method TermAt(index: nat) returns (t: nat)
      ensures t == LogTermAt(log, index)
    {
      if index == 0 {
        return 0;
      }
      var i := 0;
      while i < |log|
        invariant 0 <= i <= |log|
        invariant FindTerm(log, index) == FindTerm(log[i..], index)
      {
        if log[i].index == index {
          return log[i].term;
        }
        i := i + 1;
      }
      return 0;
    }

    /** Drop every entry from the given index on. */
    method Retain(index: nat)
      modifies `log
      ensures log == RetainBelow(old(log), index)
    {
      var kept: seq<LogEntry> := [];
      var i := 0;
      while i < |log|
        invariant 0 <= i <= |log| && log == old(log)
        invariant kept + RetainBelow(log[i..], index) == RetainBelow(log, index)
      {
        assert log[i..][1..] == log[i + 1..];
        if log[i].index < index {
          kept := kept + [log[i]];
        }
        i := i + 1;
      }
      log := kept;
    }

    method StepDown(term: nat, leader: Option<NodeId>)
      modifies this
      ensures Value() == BecomeFollower(old(Value()), term, leader)
    {
      role, currentTerm, votedFor, leaderId := Follower, term, None, leader;
    }

    method Stand()
      modifies this
      ensures Value() == BecomeCandidate(old(Value()))
    {
      currentTerm, role, votedFor, leaderId := currentTerm + 1, Candidate, None, None;
    }

    method Lead(me: NodeId, peers: seq<NodeId>)
      modifies this
      ensures Value() == BecomeLeader(old(Value()), me, set p | p in peers)
      ensures role.Leader? && leaderId == Some(me)
      ensures nextIndex == map p | p in peers :: if log == [] then 1 else log[|log| - 1].index + 1
      ensures matchIndex == map p | p in peers :: 0
    {
      role, leaderId := Leader, Some(me);
      TrackPeers(peers, LastLogIndex(log) + 1);
    }

    /** Forget what was known of the peers and start each at the given next index. */
    method TrackPeers(peers: seq<NodeId>, next: nat)
      modifies `nextIndex, `matchIndex
      ensures nextIndex == map p | p in peers :: next
      ensures matchIndex == map p | p in peers :: 0
    {
      nextIndex, matchIndex := map[], map[];
      var i := 0;
      while i < |peers|
        invariant 0 <= i <= |peers|
        invariant nextIndex == map p | p in peers[..i] :: next
        invariant matchIndex == map p | p in peers[..i] :: 0
      {
        nextIndex := nextIndex[peers[i] := next];
        matchIndex := matchIndex[peers[i] := 0];
        assert peers[..i + 1] == peers[..i] + [peers[i]];
        i := i + 1;
      }
      assert peers[..i] == peers;
    }

    method AdvanceCommitIndex(peers: seq<NodeId>) returns (advanced: bool)
      modifies `commitIndex
      ensures (Value(), advanced) == AdvanceCommit(old(Value()), peers)
    {
      var all: seq<nat> := [];
      var i := 0;
      while i < |peers|
        invariant 0 <= i <= |peers| && |all| == i
        invariant forall j :: 0 <= j < i ==> all[j] == MatchOf(Value(), peers[j])
      {
        all := all + [if peers[i] in matchIndex then matchIndex[peers[i]] else 0];
        i := i + 1;
      }
      all := all + [LastLogIndex(log)];
      assert all == MatchList(Value(), peers);
      var sorted := Sort(all);
      var newCommit := sorted[|sorted| / 2];
      if newCommit > commitIndex {
        var entryTerm := TermAt(newCommit);
        if entryTerm == currentTerm {
          commitIndex := newCommit;
          return true;
        }
      }
      return false;
    }

    method TruncateLoop(entries: seq<LogEntry>)
      modifies `log
      ensures log == TruncateConflicts(old(log), entries)
    {
      var i := 0;
      while i < |entries|
        invariant 0 <= i <= |entries|
        invariant TruncateConflicts(log, entries[i..]) == TruncateConflicts(old(log), entries)
      {
        assert entries[i..][1..] == entries[i + 1..];
        var existing := TermAt(entries[i].index);
        if existing != 0 && existing != entries[i].term {
          Retain(entries[i].index);
        }
        i := i + 1;
      }
    }

    method AppendLoop(entries: seq<LogEntry>)
      modifies `log
      ensures log == AppendMissing(old(log), entries)
    {
      var i := 0;
      while i < |entries|
        invariant 0 <= i <= |entries|
        invariant AppendMissing(log, entries[i..]) == AppendMissing(old(log), entries)
      {
        assert entries[i..][1..] == entries[i + 1..];
        var existing := TermAt(entries[i].index);
        if existing == 0 {
          log := log + [entries[i]];
        }
        i := i + 1;
      }
    }

    method OnAppendEntries(req: AppendEntriesRequest) returns (resp: AppendEntriesResponse, persist: bool)
      modifies this
      ensures (Value(), resp, persist) == HandleAppendEntries(old(Value()), req)
    {
      if req.term < currentTerm {
        return AppendEntriesResponse(currentTerm, false), false;
      }
      if req.term > currentTerm || role.Candidate? {
        StepDown(req.term, Some(req.leaderId));
      } else {
        leaderId := Some(req.leaderId);
      }
      if req.prevLogIndex > 0 {
        var localTerm := TermAt(req.prevLogIndex);
        if localTerm != req.prevLogTerm {
          return AppendEntriesResponse(currentTerm, false), true;
        }
      }
      TruncateLoop(req.entries);
      AppendLoop(req.entries);
      if req.leaderCommit > commitIndex {
        commitIndex := if req.leaderCommit <= LastLogIndex(log) then req.leaderCommit else LastLogIndex(log);
      }
      return AppendEntriesResponse(currentTerm, true), true;
    }

    method OnRequestVote(req: RequestVoteRequest) returns (resp: RequestVoteResponse, persist: bool)
      modifies this
      ensures (Value(), resp, persist) == HandleRequestVote(old(Value()), req)
    {
      if req.term < currentTerm {
        return RequestVoteResponse(currentTerm, false), false;
      }
      if req.term > currentTerm {
        StepDown(req.term, None);
      }
      var canVote := votedFor.None? || votedFor == Some(req.candidateId);
      if canVote && UpToDate(log, req.lastLogIndex, req.lastLogTerm) {
        votedFor := Some(req.candidateId);
        return RequestVoteResponse(currentTerm, true), true;
      } else {
        return RequestVoteResponse(currentTerm, false), false;
      }
    }
  }

  lemma CutStep(log: Log, pos: nat, index: nat)
    requires pos < |log| && log[pos].index < index
    ensures log[..pos] + CutAt(log[pos..], index) == log[..pos + 1] + CutAt(log[pos + 1..], index)
  {
    assert log[pos..][1..] == log[pos + 1..];
  }

  lemma EntriesStep(log: Log, pos: nat, found: Log, from: nat, to: nat)
    requires pos < |log|
    ensures found + GetEntries(log[pos..], from, to)
         == (if from <= log[pos].index <= to then found + [log[pos]] else found) + GetEntries(log[pos + 1..], from, to)
  {
    assert log[pos..][1..] == log[pos + 1..];
  }

  class MemoryRaftStorage {
    var log: seq<LogEntry>
    var hard: HardState

    function Value(): Disk
      reads this
    {
      Disk(log, hard)
    }

    constructor ()
      ensures Value() == Disk([], HardState(0, None, 0))
    {
      log, hard := [], HardState(0, None, 0);
    }

    /** Store one entry, dropping whatever is stored from its index on. */
    method AppendEntry(e: LogEntry)
      modifies `log
      ensures log == StoreEntry(old(log), e)
    {
      if e.index > 0 {
        var pos := Position(e.index);
        log := log[..pos];
      }
      log := log + [e];
    }

    /** Place of the first stored entry whose index is not below the given one. */
    method Position(index: nat) returns (pos: nat)
      ensures pos <= |log| && log[..pos] == CutAt(log, index)
    {
      pos := 0;
      while pos < |log| && log[pos].index < index
        invariant 0 <= pos <= |log|
        invariant CutAt(log, index) == log[..pos] + CutAt(log[pos..], index)
      {
        CutStep(log, pos, index);
        pos := pos + 1;
      }
    }

    method SaveHardState(state: HardState)
      modifies `hard
      ensures hard == state
    {
      hard := state;
    }

    method Entries(from: nat, to: nat) returns (found: seq<LogEntry>)
      ensures found == GetEntries(log, from, to)
    {
      found := [];
      var i := 0;
      while i < |log|
        invariant 0 <= i <= |log|
        invariant found + GetEntries(log[i..], from, to) == GetEntries(log, from, to)
      {
        EntriesStep(log, i, found, from, to);
        if from <= log[i].index <= to {
          found := found + [log[i]];
        }
        i := i + 1;
      }
    }
  }

  class RaftNode {
    const id: NodeId
    const peers: seq<NodeId>
    const state: RaftState
    const storage: MemoryRaftStorage

    function Value(): Host
      reads state, storage
    {
      Host(state.Value(), storage.Value())
    }

    /** A node restored from its storage. */
    constructor (id: NodeId, peers: seq<NodeId>, storage: MemoryRaftStorage)
      ensures this.id == id && this.peers == peers && this.storage == storage && fresh(state)
      ensures Value() == NodeRestart(storage.Value())
    {
      var st := new RaftState();
      st.currentTerm, st.votedFor, st.commitIndex :=
        storage.hard.currentTerm, storage.hard.votedFor, storage.hard.commit;
      var last := LastLogIndex(storage.log);
      if last > 0 {
        var entries := storage.Entries(1, last);
        st.log := entries;
      }
      this.id, this.peers, this.state, this.storage := id, peers, st, storage;
    }

    method Save()
      modifies storage
      ensures Value() == Persist(old(Value()), true)
    {
      storage.SaveHardState(HardState(state.currentTerm, state.votedFor, state.commitIndex));
    }

    method OnAppendEntries(req: AppendEntriesRequest) returns (resp: AppendEntriesResponse)
      modifies state, storage
      ensures (Value(), resp) == NodeAppendEntries(old(Value()), req)
    {
      var persist;
      resp, persist := state.OnAppendEntries(req);
      if persist {
        Save();
      }
    }

    method OnRequestVote(req: RequestVoteRequest) returns (resp: RequestVoteResponse)
      modifies state, storage
      ensures (Value(), resp) == NodeRequestVote(old(Value()), req)
    {
      var persist;
      resp, persist := state.OnRequestVote(req);
      if persist {
        Save();
      }
    }

    /** Stand for election; a node without peers wins at once, others send the returned request. */
    method StartElection() returns (won: bool, req: RequestVoteRequest)
      modifies state, storage
      ensures won == (peers == [])
      ensures req == NodeStartElection(old(Value()), id).1
      ensures var h := NodeStartElection(old(Value()), id).0;
              Value() == if peers == [] then h.(st := BecomeLeader(h.st, id, {})) else h
    {
      state.Stand();
      state.votedFor := Some(id);
      req := RequestVoteRequest(state.currentTerm, id, LastLogIndex(state.log), LastLogTerm(state.log));
      Save();
      won := peers == [];
      if won {
        state.Lead(id, peers);
      }
    }

    /** Append a proposal; refused unless this node leads. */
    method Propose(data: seq<Byte>) returns (refused: bool)
      modifies state, storage
      ensures refused == !old(state.role).Leader?
      ensures Value() == if refused then old(Value()) else NodePropose(old(Value()), data, peers == [])
    {
      if !state.role.Leader? {
        return true;
      }
      var e := LogEntry(LastLogIndex(state.log) + 1, state.currentTerm, data, Normal);
      state.log := state.log + [e];
      storage.AppendEntry(e);
      if peers == [] {
        state.commitIndex := e.index;
        Save();
      }
      return false;
    }

    /** Record an acknowledgement; `keys` is the order in which the peers' entries are visited. */
    method UpdateMatchIndex(peer: NodeId, idx: nat, keys: seq<NodeId>)
      modifies state, storage
      ensures Value() == NodeUpdateMatch(old(Value()), peer, idx, keys)
    {
      if !state.role.Leader? {
        return;
      }
      state.matchIndex := state.matchIndex[peer := idx];
      state.nextIndex := state.nextIndex[peer := idx + 1];
      var advanced := state.AdvanceCommitIndex(keys);
      if advanced {
        Save();
      }
    }
  }
}
