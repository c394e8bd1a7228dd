/** The records of internal/cluster/raft/types.go. */
module RaftTypes {
  import opened Bytes

  // Node names are only ever compared for equality, so any type with equality will do.
  type NodeId = nat

  // nextIndex is a Go uint64 from which 1 is subtracted; it is never 0.
  type Position = x: int | 1 <= x witness 1

  datatype Option<+T> = None | Some(value: T)

  datatype Role = Follower | Candidate | Leader | Shutdown

  const ENTRY_COMMAND := 0
  const ENTRY_CONFIG_CHANGE := 1
  const ENTRY_NO_OP := 2

  datatype LogEntry = LogEntry(index: nat, term: nat, kind: nat, data: seq<byte>)

  datatype VoteRequest = VoteRequest(term: nat, candidate: NodeId, lastLogIndex: nat, lastLogTerm: nat)

  datatype VoteResponse = VoteResponse(term: nat, granted: bool)

  datatype AppendRequest = AppendRequest(
    term: nat, leader: NodeId, prevLogIndex: nat, prevLogTerm: nat, entries: seq<LogEntry>, leaderCommit: nat)

  datatype AppendResponse = AppendResponse(term: nat, success: bool, conflictIndex: nat, conflictTerm: nat)
}
