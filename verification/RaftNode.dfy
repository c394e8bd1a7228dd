/**
 internal/cluster/raft/node.go: one Raft node. Every method is one lock hold, and computes
 the function of the same name in RaftHandlers.
 */
module RaftNodes {
  import opened Bytes
  import opened RaftTypes
  import opened RaftLogStore
  import H = RaftHandlers

  class RaftNode {
    const id: NodeId
    const peers: seq<NodeId>
    const log: RaftLog
    var role: Role
    var currentTerm: nat
    var votedFor: Option<NodeId>
    var commitIndex: nat
    var lastApplied: nat
    var applied: seq<LogEntry>   // the calls made to fsm.Apply
    var nextIndex: map<NodeId, Position>
    var matchIndex: map<NodeId, nat>
    var votesReceived: nat

    ghost function View(): H.Node
      reads this, log
    {
      H.Node(id, peers, role, currentTerm, votedFor, log.entries, commitIndex, lastApplied, applied,
             nextIndex, matchIndex, votesReceived)
    }

    // No compaction: the log starts at index 1.
    ghost predicate Valid()
      reads this, log
    {
      log.firstIndex == 1
    }

    // Entry i of the log, counting from 1, has index i.
    ghost predicate Numbered()
      reads this, log
    {
      Valid() && log.Contiguous()
    }

    constructor (id: NodeId, peers: seq<NodeId>)
      ensures Numbered() && fresh(log) && this.id == id && this.peers == peers
      ensures View() == H.Restart(H.Node(id, peers, Follower, 0, None, [], 0, 0, [], map[], map[], 0))
    {
      this.id := id;
      this.peers := peers;
      log := new RaftLog();
      role := Follower;
      currentTerm := 0;
      votedFor := None;
      commitIndex := 0;
      lastApplied := 0;
      applied := [];
      nextIndex := H.Uniform(peers, 1);
      matchIndex := H.Uniform(peers, 0);
      votesReceived := 0;
    }

    lemma NumberedIs()
      ensures Numbered() <==> Valid() && NumberedFrom(log.entries, 0)
    {
    }

    method BecomeFollower(term: nat)
      modifies this
      ensures View() == H.StepDown(old(View()), term)
    {
      role := Follower;
      if term > currentTerm {
        currentTerm := term;
        votedFor := None;
      }
    }

    method BecomeLeader()
      requires Numbered()
      modifies this, log
      ensures Numbered()
      ensures View() == H.BecomeLeader(old(View()))
    {
      if role != Candidate { return; }
      role := Leader;
      var lastIdx := log.LastIndex();
      nextIndex := H.Uniform(peers, lastIdx + 1);
      matchIndex := H.Uniform(peers, 0);
      log.Append(LogEntry(lastIdx + 1, currentTerm, ENTRY_NO_OP, []));
    }

    method StartElection() returns (req: VoteRequest)
      requires Numbered()
      modifies this, log
      ensures Numbered()
      ensures View() == H.StartElection(old(View()))
      ensures req == VoteRequest(old(currentTerm) + 1, id, old(|log.entries|), H.LastTerm(old(log.entries)))
    {
      role := Candidate;
      currentTerm := currentTerm + 1;
      votedFor := Some(id);
      votesReceived := 1;
      var lastIndex := log.LastIndex();
      var lastTerm := log.LastTerm();
      req := VoteRequest(currentTerm, id, lastIndex, lastTerm);
      var quorum := (|peers| + 1) / 2 + 1;
      if votesReceived >= quorum { BecomeLeader(); }
    }

    method HandleRequestVote(req: VoteRequest) returns (resp: VoteResponse)
      requires Numbered()
      modifies this
      ensures (View(), resp) == H.HandleRequestVote(old(View()), req)
    {
      resp := VoteResponse(currentTerm, false);
      if req.term < currentTerm { return; }
      if req.term > currentTerm {
        BecomeFollower(req.term);
        resp := VoteResponse(req.term, false);
      }
      if votedFor.None? || votedFor.value == req.candidate {
        var lastTerm := log.LastTerm();
        var lastIndex := log.LastIndex();
        var upToDate := req.lastLogTerm > lastTerm || (req.lastLogTerm == lastTerm && req.lastLogIndex >= lastIndex);
        if upToDate {
          votedFor := Some(req.candidate);
          resp := VoteResponse(resp.term, true);
        }
      }
    }

    method HandleVoteReply(req: VoteRequest, resp: VoteResponse)
      requires Numbered()
      modifies this, log
      ensures Numbered()
      ensures View() == H.HandleVoteReply(old(View()), req, resp)
      ensures resp.term > old(currentTerm) ==> role == Follower && currentTerm == resp.term && votedFor == None && log.entries == old(log.entries)
    {
      if resp.term > currentTerm {
        BecomeFollower(resp.term);
        return;
      }
      if role != Candidate || currentTerm != req.term { return; }
      if resp.granted {
        votesReceived := votesReceived + 1;
        if votesReceived >= (|peers| + 1) / 2 + 1 { BecomeLeader(); }
      }
    }

    method Propose(data: seq<byte>) returns (index: Option<nat>)
      requires Numbered()
      modifies log
      ensures Numbered()
      ensures View() == H.Propose(old(View()), data)
      ensures index == if role == Leader then Some(|log.entries|) else None
    {
      if role != Leader { return None; }
      var last := log.LastIndex();
      log.Append(LogEntry(last + 1, currentTerm, ENTRY_COMMAND, data));
      return Some(last + 1);
    }

    // One request of a replication round that began in the given term with the given commit index.
    method BuildAppend(peer: NodeId, term: nat, commit: nat) returns (req: AppendRequest)
      requires Numbered() && peer in nextIndex
      ensures req == H.BuildAppend(View(), peer, term, commit)
    {
      var nextIdx := nextIndex[peer];
      var prevIdx := nextIdx as int - 1;
      var prevTerm := log.TermAt(prevIdx);
      var last := log.LastIndex();
      var entries := log.Range(nextIdx, last + 1);
      req := AppendRequest(term, id, prevIdx, prevTerm, entries, commit);
    }

    method HandleAppendReply(peer: NodeId, req: AppendRequest, resp: AppendResponse)
      requires Numbered() && peer in nextIndex
      modifies this
      ensures View() == H.HandleAppendReply(old(View()), peer, req, resp)
      ensures resp.term > old(currentTerm) ==> role == Follower && currentTerm == resp.term && votedFor == None && log.entries == old(log.entries)
    {
      if resp.term > currentTerm {
        BecomeFollower(resp.term);
        return;
      }
      if resp.success {
        if |req.entries| > 0 {
          nextIndex := nextIndex[peer := req.entries[|req.entries| - 1].index + 1];
          matchIndex := matchIndex[peer := req.entries[|req.entries| - 1].index];
        }
        AdvanceCommitIndex();
      } else {
        if resp.conflictIndex > 0 {
          nextIndex := nextIndex[peer := resp.conflictIndex];
        } else if nextIndex[peer] > 1 {
          nextIndex := nextIndex[peer := nextIndex[peer] - 1];
        }
      }
    }

    method CountReplicas(index: nat) returns (replicated: nat)
      ensures replicated == 1 + H.Replicas(peers, matchIndex, index)
    {
      replicated := 1;
      var i := 0;
      while i < |peers|
        invariant 0 <= i <= |peers|
        invariant replicated == 1 + H.Replicas(peers[..i], matchIndex, index)
      {
        assert peers[..i + 1][..i] == peers[..i];
        if peers[i] in matchIndex && matchIndex[peers[i]] >= index { replicated := replicated + 1; }
        i := i + 1;
      }
      assert peers[..i] == peers;
    }

    method AdvanceCommitIndex()
      requires Numbered()
      modifies this
      ensures View() == H.AdvanceCommitIndex(old(View()))
    {
      var index := log.LastIndex();
      ghost var start := View();
      while index > commitIndex
        invariant 0 <= index <= |log.entries|
        invariant View() == start
        invariant H.HighestReplicated(start, |log.entries|) == H.HighestReplicated(start, index)
      {
        var term := log.TermAt(index);
        if term == currentTerm {
          var replicated := CountReplicas(index);
          if replicated > (|peers| + 1) / 2 {
            commitIndex := index;
            ApplyCommitted();
            return;
          }
        }
        index := index - 1;
      }
    }

    method ApplyCommitted()
      requires Valid()
      modifies this`lastApplied, this`applied
      ensures View() == H.ApplyCommitted(old(View()))
    {
      ghost var entries := log.entries;
      ghost var from := H.Min(lastApplied, |entries|);
      ghost var before := applied;
      while lastApplied < commitIndex
        invariant old(lastApplied) <= lastApplied
        invariant old(lastApplied) <= commitIndex ==> lastApplied <= commitIndex
        invariant old(lastApplied) > commitIndex ==> lastApplied == old(lastApplied)
        invariant applied == before + H.Commands(entries[from..H.Min(lastApplied, |entries|)])
      {
        lastApplied := lastApplied + 1;
        var entry := log.Get(lastApplied);
        ghost var to := H.Min(lastApplied, |entries|);
        if entry.Some? {
          assert entries[from..to][..to - from - 1] == entries[from..to - 1];
          if entry.value.kind == ENTRY_COMMAND { applied := applied + [entry.value]; }
        }
      }
    }

    method FindConflictIndex(index: nat) returns (c: nat)
      requires Valid()
      ensures c == H.ConflictIndex(log.entries, index)
    {
      var i := index;
      while i >= 1
        invariant 0 <= i <= index
        invariant H.ConflictIndex(log.entries, index) == H.ConflictIndex(log.entries, i)
      {
        var entry := log.Get(i);
        if entry.Some? {
          var prev := log.Get(i - 1);
          if prev.None? || prev.value.term != entry.value.term { return i; }
        }
        i := i - 1;
      }
      return 1;
    }

    method AppendNew(prev: nat, entries: seq<LogEntry>)
      requires Valid()
      modifies log
      ensures Valid() && log.entries == H.Merge(old(log.entries), prev, entries)
      ensures old(NumberedFrom(log.entries, 0)) && prev <= old(|log.entries|) && NumberedFrom(entries, prev) ==> NumberedFrom(log.entries, 0)
    {
      hide NumberedFrom;
      if NumberedFrom(log.entries, 0) && prev <= |log.entries| && NumberedFrom(entries, prev) { MergeNumbered(log.entries, prev, entries); }
      var i := 0;
      while i < |entries|
        invariant Valid() && 0 <= i <= |entries|
        invariant H.Merge(old(log.entries), prev, entries) == H.Merge(log.entries, prev + i, entries[i..])
      {
        var entry := entries[i];
        ghost var before := log.entries;
        assert entries[i..][1..] == entries[i + 1..];
        var index := prev + i + 1;
        var existing := log.Get(index);
        if existing.Some? {
          if existing.value.term != entry.term {
            log.TruncateAfter(index - 1);
            log.Append(entry);
            assert log.entries == before[..prev + i] + [entry];
          }
        } else {
          log.Append(entry);
        }
        i := i + 1;
      }
    }

    method HandleAppendEntries(req: AppendRequest) returns (resp: AppendResponse)
      requires Valid()
      modifies this, log
      ensures Valid()
      ensures (View(), resp) == H.HandleAppendEntries(old(View()), req)
      ensures old(Numbered()) && req.prevLogIndex <= old(|log.entries|) && NumberedFrom(req.entries, req.prevLogIndex) ==> Numbered()
    {
      hide H.Merge, H.ConflictIndex, H.ApplyCommitted, NumberedFrom;
      NumberedIs();
      resp := AppendResponse(currentTerm, false, 0, 0);
      if req.term < currentTerm { return; }
      if req.term > currentTerm {
        BecomeFollower(req.term);
        resp := AppendResponse(req.term, false, 0, 0);
      }
      if req.prevLogIndex > 0 {
        var localTerm := log.TermAt(req.prevLogIndex);
        if localTerm != req.prevLogTerm {
          var conflict := FindConflictIndex(req.prevLogIndex);
          return AppendResponse(resp.term, false, conflict, localTerm);
        }
      }
      AppendNew(req.prevLogIndex, req.entries);
      NumberedIs();
      resp := AppendResponse(resp.term, true, 0, 0);
      FollowCommit(req.leaderCommit, req.prevLogIndex + |req.entries|);
    }

    // The end of HandleAppendEntries: the follower's commit index.
    method FollowCommit(leaderCommit: nat, lastNewIdx: nat)
      requires Valid()
      modifies this`commitIndex, this`lastApplied, this`applied
      ensures View() == if leaderCommit > old(commitIndex) then H.ApplyCommitted(old(View()).(commitIndex := H.Min(leaderCommit, lastNewIdx)))
                        else old(View())
    {
      hide H.ApplyCommitted;
      if leaderCommit > commitIndex {
        commitIndex := if leaderCommit < lastNewIdx then leaderCommit else lastNewIdx;
        ApplyCommitted();
      }
    }
  }

  // Entry i of the list, counting from 1, has index first + i.
  predicate NumberedFrom(entries: seq<LogEntry>, first: nat) { forall i :: 0 <= i < |entries| ==> entries[i].index == first + i + 1 }

  // Entries numbered on from prev keep the log numbered.
  lemma {:induction false} MergeNumbered(log: seq<LogEntry>, prev: nat, entries: seq<LogEntry>)
    requires NumberedFrom(log, 0) && prev <= |log| && NumberedFrom(entries, prev)
    ensures NumberedFrom(H.Merge(log, prev, entries), 0)
    decreases |entries|
  {
    if entries != [] {
      assert NumberedFrom(entries[1..], prev + 1);
      if prev < |log| && log[prev].term == entries[0].term {
        MergeNumbered(log, prev + 1, entries[1..]);
      } else if prev < |log| {
        MergeNumbered(log[..prev] + [entries[0]], prev + 1, entries[1..]);
      } else {
        MergeNumbered(log + [entries[0]], prev + 1, entries[1..]);
      }
    }
  }
}
