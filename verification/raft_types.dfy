/** Data carried by the consensus protocol: log entries, remote calls and hard state. */
module RaftTypes {

  type NodeId = nat

  newtype Byte = x: int | 0 <= x < 256

  datatype Option<+T> = None | Some(value: T)

  datatype EntryKind = Normal | Config | SnapshotMark

  datatype LogEntry = LogEntry(index: nat, term: nat, data: seq<Byte>, kind: EntryKind)

  type Log = seq<LogEntry>

  /** The part of a node's state that survives a restart. */
  datatype HardState = HardState(currentTerm: nat, votedFor: Option<NodeId>, commit: nat)

  datatype Role = Follower | Candidate | Leader

  datatype AppendEntriesRequest = AppendEntriesRequest(
    term: nat, leaderId: NodeId, prevLogIndex: nat, prevLogTerm: nat,
    entries: seq<LogEntry>, leaderCommit: nat)

  datatype AppendEntriesResponse = AppendEntriesResponse(term: nat, success: bool)

  datatype RequestVoteRequest = RequestVoteRequest(
    term: nat, candidateId: NodeId, lastLogIndex: nat, lastLogTerm: nat)

  datatype RequestVoteResponse = RequestVoteResponse(term: nat, voteGranted: bool)

  /** Everything a node holds in memory, as a value. */
  datatype NodeState = NodeState(
    role: Role, currentTerm: nat, votedFor: Option<NodeId>, log: Log,
    commitIndex: nat, lastApplied: nat,
    nextIndex: map<NodeId, nat>, matchIndex: map<NodeId, nat>, leaderId: Option<NodeId>)

  /** What a node has written to its storage. */
  datatype Disk = Disk(log: Log, hard: HardState)

  /** A node together with its storage. */
  datatype Host = Host(st: NodeState, disk: Disk)
}
