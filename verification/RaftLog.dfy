/** internal/cluster/raft/log.go: the replicated log, a list of entries whose first one has index firstIndex. */
module RaftLogStore {
  import opened RaftTypes

  class RaftLog {
    var entries: seq<LogEntry>
    var firstIndex: nat

    // Entries are numbered without gaps, from firstIndex on.
    ghost predicate Contiguous()
      reads this
    {
      firstIndex >= 1 && forall i :: 0 <= i < |entries| ==> entries[i].index == firstIndex + i
    }

    constructor ()
      ensures entries == [] && firstIndex == 1 && Contiguous()
    {
      entries := [];
      firstIndex := 1;
    }

    method Append(entry: LogEntry)
      modifies this
      ensures entries == old(entries) + [entry] && firstIndex == old(firstIndex)
      ensures old(Contiguous()) && entry.index == firstIndex + old(|entries|) ==> Contiguous()
    {
      entries := entries + [entry];
    }

    // The index of the last entry, or firstIndex - 1 of an empty log.
    method LastIndex() returns (index: int)
      ensures Contiguous() ==> index == firstIndex + |entries| - 1
    {
      if |entries| == 0 { return firstIndex - 1; }
      return entries[|entries| - 1].index;
    }

    method LastTerm() returns (term: nat)
      ensures entries == [] ==> term == 0
      ensures entries != [] ==> term == entries[|entries| - 1].term
    {
      if |entries| == 0 { return 0; }
      return entries[|entries| - 1].term;
    }

    // Found exactly for the indices of the log, and then it is the entry with that index.
    method Get(index: nat) returns (entry: Option<LogEntry>)
      ensures entry.Some? <==> firstIndex <= index < firstIndex + |entries|
      ensures entry.Some? ==> entry.value == entries[index - firstIndex]
      ensures entry.Some? && Contiguous() ==> entry.value.index == index
    {
      if index < firstIndex { return None; }
      var offset := index - firstIndex;
      if offset >= |entries| { return None; }
      return Some(entries[offset]);
    }

    // The entries from index from up to, and not including, index to: those of them that exist.
    method Range(from: nat, to: nat) returns (result: seq<LogEntry>)
      ensures forall i :: 0 <= i < |entries| && from <= firstIndex + i < to ==>
                var lo := if from < firstIndex then firstIndex else from;
                0 <= firstIndex + i - lo < |result| && result[firstIndex + i - lo] == entries[i]
      ensures forall e :: e in result ==> e in entries
      ensures from >= firstIndex && from <= to <= firstIndex + |entries| ==>
                result == entries[from - firstIndex..to - firstIndex]
      ensures to <= from ==> result == []
      ensures from >= firstIndex + |entries| ==> result == []
    {
      var lo := if from < firstIndex then firstIndex else from;
      var start := lo - firstIndex;
      var end := to - firstIndex;
      if end > |entries| { end := |entries|; }
      if start >= end { return []; }
      result := entries[start..end];
    }

    // What is left are the entries with index at most index.
    method TruncateAfter(index: nat)
      modifies this
      ensures firstIndex == old(firstIndex) && entries <= old(entries)
      ensures index + 1 >= firstIndex + old(|entries|) ==> entries == old(entries)
      ensures firstIndex <= index + 1 <= firstIndex + old(|entries|) ==> |entries| == index + 1 - firstIndex
      ensures index + 1 < firstIndex ==> entries == []
      ensures old(Contiguous()) ==> Contiguous()
    {
      var end := index - firstIndex + 1;
      if end > |entries| { return; }
      if end < 0 {
        entries := [];
        return;
      }
      entries := entries[..end];
    }

    method TermAt(index: nat) returns (term: nat)
      ensures firstIndex <= index < firstIndex + |entries| ==> term == entries[index - firstIndex].term
      ensures !(firstIndex <= index < firstIndex + |entries|) ==> term == 0
    {
      var e := Get(index);
      if e.None? { return 0; }
      return e.value.term;
    }
  }
}
