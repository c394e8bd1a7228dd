/** How a leader brings one follower up to date: refused requests move nextIndex back until one is accepted. */
module RaftCatchUp {
  import opened RaftTypes
  import opened RaftHandlers
  import opened RaftProtocol
  import opened RaftMatchingInv
  import RaftMatching
  import RaftSafety

  // One RPC between a leader and a follower, with the leader's reaction to the answer.
  function Attempt(l: Node, f: Node): (Node, Node, bool)
    requires f.id in l.nextIndex
  {
    var q := BuildAppend(l, f.id, l.term, l.commitIndex);
    var (f', r) := HandleAppendEntries(f, q);
    (HandleAppendReply(l, f.id, q, r), f', r.success)
  }

  ghost predicate Ready(l: Node, f: Node) {
    && l.role == Leader && f.term <= l.term && f.id in l.nextIndex && l.nextIndex[f.id] <= |l.log| + 1
    && (forall k :: 0 <= k < |l.log| ==> l.log[k].term >= 1 && l.log[k].index == k + 1)
    && Matching(f.log, l.log)
  }

  // A refusal leaves both logs alone and strictly lowers nextIndex.
  lemma Refused(l: Node, f: Node)
    requires Ready(l, f) && !Attempt(l, f).2
    ensures var (l', f', _) := Attempt(l, f);
            && Ready(l', f') && l'.log == l.log && l'.term == l.term && f'.log == f.log && f'.id == f.id
            && l'.nextIndex[f.id] < l.nextIndex[f.id]
  {
    hide Matching;
    var q := BuildAppend(l, f.id, l.term, l.commitIndex);
    RaftSafety.ConflictIndexBound(f.log, q.prevLogIndex);
  }

  lemma AcceptedMerge(l: Node, f: Node)
    requires Ready(l, f) && Attempt(l, f).2
    ensures var prev := l.nextIndex[f.id] as int - 1;
            && Attempt(l, f).1.log == Merge(f.log, prev, l.log[prev..])
            && (prev > 0 ==> TermAt(f.log, prev) == l.log[prev - 1].term)
  {
    hide Merge, Matching;
    var q := BuildAppend(l, f.id, l.term, l.commitIndex);
    assert q.entries == l.log[q.prevLogIndex..];
  }

  // The request that is accepted makes the follower equal to the leader on all of the leader's indices.
  lemma AcceptedLog(l: Node, f: Node)
    requires Ready(l, f) && Attempt(l, f).2
    ensures Attempt(l, f).1.log == if |l.log| <= |f.log| && Agree(f.log, l.log, |l.log|) then f.log else l.log
  {
    hide Attempt, Merge;
    AcceptedMerge(l, f);
    var prev := l.nextIndex[f.id] as int - 1;
    assert Agree(f.log, l.log, prev);
    RaftMatching.MergeResult(f.log, l.log, prev);
  }

  lemma AcceptedLeader(l: Node, f: Node)
    requires Ready(l, f) && Attempt(l, f).2
    ensures var (l', f', _) := Attempt(l, f);
            l'.log == l.log && f.id in l'.nextIndex && l'.nextIndex[f.id] == |l.log| + 1 && f'.term == l.term
  {
    hide Matching, Merge;
  }

  method CatchUp(leader: Node, follower: Node) returns (l: Node, f: Node, refusals: nat)
    requires Ready(leader, follower)
    ensures l.log == leader.log && f.term == leader.term
    ensures f.log == if |leader.log| <= |follower.log| && Agree(follower.log, leader.log, |leader.log|) then follower.log else leader.log
    ensures refusals < leader.nextIndex[follower.id]
    ensures follower.id in l.nextIndex && l.nextIndex[follower.id] == |leader.log| + 1
  {
    hide Attempt, Matching;
    l, f, refusals := leader, follower, 0;
    var done := false;
    while !done
      invariant f.id == follower.id && l.log == leader.log && l.term == leader.term
      invariant !done ==> Ready(l, f) && f.log == follower.log && refusals + l.nextIndex[f.id] <= leader.nextIndex[f.id]
      invariant done ==>
        && f.log == (if |leader.log| <= |follower.log| && Agree(follower.log, leader.log, |leader.log|) then follower.log else leader.log)
        && f.term == leader.term && refusals < leader.nextIndex[f.id]
        && f.id in l.nextIndex && l.nextIndex[f.id] == |leader.log| + 1
      decreases !done, if f.id in l.nextIndex then l.nextIndex[f.id] else 0
    {
      var (l', f', ok) := Attempt(l, f);
      SameId(l, f);
      if ok {
        AcceptedLog(l, f);
        AcceptedLeader(l, f);
        done := true;
      } else {
        Refused(l, f);
        refusals := refusals + 1;
      }
      l, f := l', f';
    }
  }

  lemma SameId(l: Node, f: Node)
    requires f.id in l.nextIndex
    ensures Attempt(l, f).1.id == f.id && Attempt(l, f).0.term >= l.term
    ensures Ready(l, f) ==> Attempt(l, f).0.term == l.term
  {
    hide Matching, Merge;
  }
}
