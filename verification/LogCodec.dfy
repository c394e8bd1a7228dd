/** internal/cluster/raft/log_binary.go: the binary form of the Raft log on disk. */
module LogCodec {
  import opened Bytes
  import opened RaftTypes

  const LOG_MAGIC := 0x52414C54
  const LOG_VERSION := 1
  const HEADER_SIZE := 18
  const ENTRY_FIXED_SIZE := 24

  datatype Decoded = Log(firstIndex: nat, entries: seq<LogEntry>) | Corrupt

  function Header(firstIndex: nat, count: nat): (h: seq<byte>)
    ensures |h| == HEADER_SIZE
  {
    BigEndian(LOG_MAGIC, 4) + BigEndian(LOG_VERSION, 2) + BigEndian(firstIndex, 8) + BigEndian(count, 4)
  }

  function EntryHead(e: LogEntry): (h: seq<byte>)
    ensures |h| == ENTRY_FIXED_SIZE
  {
    BigEndian(e.index, 8) + BigEndian(e.term, 8) + BigEndian(e.kind, 4) + BigEndian(|e.data|, 4)
  }

  function EncodeEntry(e: LogEntry): seq<byte> { EntryHead(e) + e.data }

  function EncodeEntries(entries: seq<LogEntry>): seq<byte> {
    if entries == [] then [] else EncodeEntries(entries[..|entries| - 1]) + EncodeEntry(entries[|entries| - 1])
  }

  function Encode(firstIndex: nat, entries: seq<LogEntry>): seq<byte> {
    Header(firstIndex, |entries|) + EncodeEntries(entries)
  }

  method EncodedSize(entries: seq<LogEntry>) returns (size: nat)
    ensures size == HEADER_SIZE + |EncodeEntries(entries)|
  {
    hide EncodeEntries, EntryHead;
    size := HEADER_SIZE + |entries| * ENTRY_FIXED_SIZE;
    NothingEncoded(entries);
    for i := 0 to |entries|
      invariant size == HEADER_SIZE + |EncodeEntries(entries[..i])| + (|entries| - i) * ENTRY_FIXED_SIZE
    {
      EncodedSoFar(entries, i);
      size := size + |entries[i].data|;
    }
    assert entries[..|entries|] == entries;
  }

  method PutEntry(buf: array<byte>, off: nat, e: LogEntry) returns (next: nat)
    requires off + |EncodeEntry(e)| <= buf.Length
    modifies buf
    ensures next == off + |EncodeEntry(e)| && buf[..next] == old(buf[..off]) + EncodeEntry(e)
  {
    hide EntryHead;
    Put(buf, off, EntryHead(e));
    next := off + ENTRY_FIXED_SIZE;
    Put(buf, next, e.data);
    next := next + |e.data|;
  }

  method EncodeLog(firstIndex: nat, entries: seq<LogEntry>) returns (result: seq<byte>)
    ensures result == Encode(firstIndex, entries)
  {
    hide EncodeEntries, EncodeEntry, Header;
    var size := EncodedSize(entries);
    var buf := new byte[size](_ => 0);
    var head := Header(firstIndex, |entries|);
    Put(buf, 0, head);
    var off := HEADER_SIZE;
    NothingEncoded(entries);
    for i := 0 to |entries|
      invariant off == HEADER_SIZE + |EncodeEntries(entries[..i])| <= buf.Length
      invariant buf[..off] == head + EncodeEntries(entries[..i])
    {
      EncodedSoFar(entries, i);
      off := PutEntry(buf, off, entries[i]);
    }
    assert entries[..|entries|] == entries;
    result := buf[..];
  }

  lemma NothingEncoded(entries: seq<LogEntry>)
    ensures EncodeEntries(entries[..0]) == []
  {
  }

  lemma {:induction false} EncodedSoFar(entries: seq<LogEntry>, i: nat)
    requires i < |entries|
    ensures EncodeEntries(entries[..i + 1]) == EncodeEntries(entries[..i]) + EncodeEntry(entries[i])
    ensures |EncodeEntries(entries[..i + 1])| <= |EncodeEntries(entries)|
    decreases |entries| - i
  {
    hide EncodeEntry;
    assert entries[..i + 1][..i] == entries[..i];
    if i + 1 < |entries| {
      EncodedSoFar(entries, i + 1);
    } else {
      assert entries[..i + 1] == entries;
    }
  }

  // One entry, and the offset behind it.
  function ReadEntry(data: seq<byte>, off: nat): Option<(LogEntry, nat)> {
    if off + ENTRY_FIXED_SIZE > |data| then None else
      var next := off + ENTRY_FIXED_SIZE + Value(data[off + 20..off + 24]);
      if next > |data| then None else
        Some((LogEntry(Value(data[off..off + 8]), Value(data[off + 8..off + 16]), Value(data[off + 16..off + 20]),
                       data[off + ENTRY_FIXED_SIZE..next]), next))
  }

  function Prepend(front: seq<LogEntry>, rest: Option<seq<LogEntry>>): Option<seq<LogEntry>> {
    if rest.None? then None else Some(front + rest.value)
  }

  // The decoder, entry by entry from offset off.
  function DecodeFrom(data: seq<byte>, off: nat, count: nat): Option<seq<LogEntry>>
    decreases count
  {
    if count == 0 then Some([]) else
      match ReadEntry(data, off)
      case None => None
      case Some(r) => Prepend([r.0], DecodeFrom(data, r.1, count - 1))
  }

  function Decode(data: seq<byte>): Decoded {
    if |data| < HEADER_SIZE then Corrupt
    else if Value(data[0..4]) != LOG_MAGIC then Corrupt
    else if Value(data[4..6]) != LOG_VERSION then Corrupt
    else
      match DecodeFrom(data, HEADER_SIZE, Value(data[14..18]))
      case None => Corrupt
      case Some(entries) => Log(Value(data[6..14]), entries)
  }

  lemma PrependTwice(front: seq<LogEntry>, e: LogEntry, rest: Option<seq<LogEntry>>)
    ensures Prepend(front, Prepend([e], rest)) == Prepend(front + [e], rest)
  {
    if rest.Some? { assert front + ([e] + rest.value) == (front + [e]) + rest.value; }
  }

  method DecodeEntry(data: seq<byte>, start: nat) returns (r: Option<(LogEntry, nat)>)
    ensures r == ReadEntry(data, start)
  {
    hide Value;
    var off := start;
    if off + ENTRY_FIXED_SIZE > |data| { return None; }
    var index := Value(data[off..off + 8]);
    var term := Value(data[off + 8..off + 16]);
    var kind := Value(data[off + 16..off + 20]);
    var size := Value(data[off + 20..off + 24]);
    off := off + ENTRY_FIXED_SIZE;
    if off + size > |data| { return None; }
    return Some((LogEntry(index, term, kind, data[off..off + size]), off + size));
  }

  method DecodeLog(data: seq<byte>) returns (result: Decoded)
    ensures result == Decode(data)
  {
    hide Value, ReadEntry, Prepend;
    if |data| < HEADER_SIZE { return Corrupt; }
    if Value(data[0..4]) != LOG_MAGIC { return Corrupt; }
    if Value(data[4..6]) != LOG_VERSION { return Corrupt; }
    var firstIndex, count := Value(data[6..14]), Value(data[14..18]);
    var off: nat := HEADER_SIZE;
    var entries: seq<LogEntry> := [];
    PrependNothing(DecodeFrom(data, off, count));
    for i := 0 to count
      invariant DecodeFrom(data, HEADER_SIZE, count) == Prepend(entries, DecodeFrom(data, off, count - i))
    {
      PrependNone(entries);
      var r := DecodeEntry(data, off);
      if r == None { return Corrupt; }
      PrependTwice(entries, r.value.0, DecodeFrom(data, r.value.1, count - i - 1));
      entries := entries + [r.value.0];
      off := r.value.1;
    }
    PrependNothing(Some(entries));
    result := Log(firstIndex, entries);
  }

  lemma PrependNothing(rest: Option<seq<LogEntry>>)
    ensures Prepend([], rest) == rest && (rest.Some? ==> Prepend(rest.value, Some([])) == rest)
  {
    if rest.Some? { assert [] + rest.value == rest.value == rest.value + []; }
  }

  lemma PrependNone(front: seq<LogEntry>)
    ensures Prepend(front, None) == None
  {
  }

  // What fits the fixed-width fields.
  predicate EntryFits(e: LogEntry) {
    e.index < Span(8) && e.term < Span(8) && e.kind < Span(4) && |e.data| < Span(4)
  }

  predicate Fits(firstIndex: nat, entries: seq<LogEntry>) {
    firstIndex < Span(8) && |entries| < Span(4) && forall i :: 0 <= i < |entries| ==> EntryFits(entries[i])
  }

  // The same bytes, read from the front.
  lemma {:induction false} EncodeFront(entries: seq<LogEntry>)
    requires entries != []
    ensures EncodeEntries(entries) == EncodeEntry(entries[0]) + EncodeEntries(entries[1..])
  {
    var k := |entries| - 1;
    if k > 0 {
      EncodeFront(entries[..k]);
      assert entries[..k][1..] == entries[1..][..k - 1];
    }
  }

  lemma ReadHead(data: seq<byte>, off: nat, e: LogEntry)
    requires EntryFits(e) && At(data, off, EntryHead(e))
    ensures off + ENTRY_FIXED_SIZE <= |data|
    ensures Value(data[off..off + 8]) == e.index && Value(data[off + 8..off + 16]) == e.term
    ensures Value(data[off + 16..off + 20]) == e.kind && Value(data[off + 20..off + 24]) == |e.data|
  {
    hide At, Value, BigEndian, Span;
    var index, term, kind, size := BigEndian(e.index, 8), BigEndian(e.term, 8), BigEndian(e.kind, 4), BigEndian(|e.data|, 4);
    AtSplit(data, off, index + term + kind, size);
    AtSplit(data, off, index + term, kind);
    AtSplit(data, off, index, term);
    ValueAt(data, off, e.index, 8);
    ValueAt(data, off + 8, e.term, 8);
    ValueAt(data, off + 16, e.kind, 4);
    ValueAt(data, off + 20, |e.data|, 4);
  }

  // Decoding the first k bytes of a buffer that holds the entries from offset off on:
  // they come back if all of them are inside, and nothing does otherwise.
  lemma {:induction false} DecodeCut(data: seq<byte>, off: nat, entries: seq<LogEntry>, k: nat)
    requires forall i :: 0 <= i < |entries| ==> EntryFits(entries[i])
    requires off <= k <= |data| && At(data, off, EncodeEntries(entries))
    ensures DecodeFrom(data[..k], off, |entries|) ==
            if off + |EncodeEntries(entries)| <= k then Some(entries) else None
    decreases |entries|
  {
    hide At, EncodeEntries, EntryHead, EntryFits, Value, DecodeFrom;
    if entries == [] {
      NoEntries(data[..k], off);
    } else {
      var e, rest := entries[0], entries[1..];
      assert entries == [e] + rest;
      var next := off + ENTRY_FIXED_SIZE + |e.data|;
      EncodeFront(entries);
      AtSplit(data, off, EncodeEntry(e), EncodeEntries(rest));
      DecodeFirst(data, off, e, k, |rest|);
      if next <= k { DecodeCut(data, next, rest, k); }
    }
  }

  lemma NoEntries(data: seq<byte>, off: nat)
    ensures EncodeEntries([]) == [] && DecodeFrom(data, off, 0) == Some([])
  {
  }

  lemma DecodeFirst(data: seq<byte>, off: nat, e: LogEntry, k: nat, more: nat)
    requires EntryFits(e) && off <= k <= |data| && At(data, off, EncodeEntry(e))
    ensures DecodeFrom(data[..k], off, more + 1) ==
            if off + |EncodeEntry(e)| > k then None
            else Prepend([e], DecodeFrom(data[..k], off + |EncodeEntry(e)|, more))
  {
    hide EntryHead, EntryFits, Value;
    AtSplit(data, off, EntryHead(e), e.data);
    if off + ENTRY_FIXED_SIZE <= k {
      AtCut(data, off, EntryHead(e), k);
      ReadHead(data[..k], off, e);
      if off + |EncodeEntry(e)| <= k { AtCut(data, off + ENTRY_FIXED_SIZE, e.data, k); }
    }
  }

  lemma ReadHeader(data: seq<byte>, firstIndex: nat, count: nat)
    requires firstIndex < Span(8) && count < Span(4) && At(data, 0, Header(firstIndex, count))
    ensures HEADER_SIZE <= |data| && Value(data[0..4]) == LOG_MAGIC && Value(data[4..6]) == LOG_VERSION
    ensures Value(data[6..14]) == firstIndex && Value(data[14..18]) == count
  {
    hide At, Value, BigEndian, Span;
    var magic, version := BigEndian(LOG_MAGIC, 4), BigEndian(LOG_VERSION, 2);
    var first, size := BigEndian(firstIndex, 8), BigEndian(count, 4);
    AtSplit(data, 0, magic + version + first, size);
    AtSplit(data, 0, magic + version, first);
    AtSplit(data, 0, magic, version);
    Spans();
    ValueAt(data, 0, LOG_MAGIC, 4);
    ValueAt(data, 4, LOG_VERSION, 2);
    ValueAt(data, 6, firstIndex, 8);
    ValueAt(data, 14, count, 4);
  }

  // Any cut of an encoding: the whole of it gives the log back, every shorter piece is rejected.
  lemma CutDecodes(firstIndex: nat, entries: seq<LogEntry>, k: nat)
    requires Fits(firstIndex, entries) && k <= |Encode(firstIndex, entries)|
    ensures Decode(Encode(firstIndex, entries)[..k]) ==
            if k == |Encode(firstIndex, entries)| then Log(firstIndex, entries) else Corrupt
  {
    hide At, Header, EncodeEntries, DecodeFrom, Value, EntryFits;
    var data := Encode(firstIndex, entries);
    if k >= HEADER_SIZE {
      HeaderFirst(firstIndex, entries);
      AtCut(data, 0, Header(firstIndex, |entries|), k);
      ReadHeader(data[..k], firstIndex, |entries|);
      AtEnd(Header(firstIndex, |entries|), EncodeEntries(entries));
      DecodeCut(data, HEADER_SIZE, entries, k);
    }
  }

  lemma HeaderFirst(firstIndex: nat, entries: seq<LogEntry>)
    ensures At(Encode(firstIndex, entries), 0, Header(firstIndex, |entries|))
  {
  }

  // Whatever is decoded fits its fields.
  lemma {:induction false} DecodedFits(data: seq<byte>, off: nat, count: nat)
    ensures var d := DecodeFrom(data, off, count);
            d.Some? ==> |d.value| == count && forall i :: 0 <= i < count ==> EntryFits(d.value[i])
    decreases count
  {
    if count > 0 && off + ENTRY_FIXED_SIZE <= |data| {
      ValueBound(data[off..off + 8]);
      ValueBound(data[off + 8..off + 16]);
      ValueBound(data[off + 16..off + 20]);
      ValueBound(data[off + 20..off + 24]);
      DecodedFits(data, off + ENTRY_FIXED_SIZE + Value(data[off + 20..off + 24]), count - 1);
    }
  }

  // A log comes back from its file exactly if it fits the fixed-width fields.
  lemma RoundTrip(firstIndex: nat, entries: seq<LogEntry>)
    ensures Decode(Encode(firstIndex, entries)) == Log(firstIndex, entries) <==> Fits(firstIndex, entries)
  {
    hide Encode, DecodeFrom, EntryFits, Value;
    var data := Encode(firstIndex, entries);
    if Fits(firstIndex, entries) {
      CutDecodes(firstIndex, entries, |data|);
      assert data[..|data|] == data;
    }
    if Decode(data) == Log(firstIndex, entries) {
      DecodedFits(data, HEADER_SIZE, Value(data[14..18]));
      ValueBound(data[6..14]);
      ValueBound(data[14..18]);
    }
  }

  // A truncated file is never mistaken for a shorter log.
  lemma TruncationDetected(firstIndex: nat, entries: seq<LogEntry>, k: nat)
    requires Fits(firstIndex, entries) && k < |Encode(firstIndex, entries)|
    ensures Decode(Encode(firstIndex, entries)[..k]) == Corrupt
  {
    CutDecodes(firstIndex, entries, k);
  }
}
