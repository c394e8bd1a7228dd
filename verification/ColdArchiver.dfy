/** internal/storage/cold/archive.go: the loops that write and read an archive. */
module ColdArchiver {
  import opened Bytes
  import opened RaftTypes
  import opened ColdArchives
  import opened ColdArchiveProofs

  type Table = map<nat, Cell>

  function Lookup(all: Table, o: nat): Option<Cell> { if o in all then Some(all[o]) else None }

  ghost predicate Merges(all: Table, tables: seq<SSTable>) { forall o: nat :: Lookup(all, o) == Latest(tables, o) }

  // The cells of one table over those collected so far.
  method AddTable(before: Table, t: SSTable) returns (all: Table)
    ensures forall o: nat :: Lookup(all, o) == if Holds(t, o) then Some(t.cells[o]) else Lookup(before, o)
  {
    all := before;
    var off := t.minOffset;
    while off <= t.maxOffset
      invariant t.minOffset <= off
      invariant off <= t.maxOffset + 1 || off == t.minOffset
      invariant forall o: nat :: Lookup(all, o) == if Holds(t, o) && o < off then Some(t.cells[o]) else Lookup(before, o)
    {
      if off in t.cells { all := all[off := t.cells[off]]; }
      off := off + 1;
    }
  }

  method Collect(tables: seq<SSTable>) returns (all: Table, minOff: nat, maxOff: nat)
    requires tables != []
    ensures minOff == MinOffset(tables) && maxOff == MaxOffset(tables) && Merges(all, tables)
  {
    hide Holds, Lookup;
    all := map[];
    minOff, maxOff := tables[0].minOffset, tables[0].maxOffset;
    NothingYet();
    assert tables[..0] == [];
    for i := 0 to |tables|
      invariant i > 0 ==> minOff == MinOffset(tables[..i]) && maxOff == MaxOffset(tables[..i])
      invariant Merges(all, tables[..i])
    {
      assert tables[..i + 1][..i] == tables[..i];
      if i == 0 || tables[i].minOffset < minOff { minOff := tables[i].minOffset; }
      if i == 0 || tables[i].maxOffset > maxOff { maxOff := tables[i].maxOffset; }
      all := AddTable(all, tables[i]);
    }
    assert tables[..|tables|] == tables;
  }

  lemma NothingYet()
    ensures Merges(map[], [])
  {
  }

  // Serialises the merged entries segment by segment.
  method WriteSegments(tables: seq<SSTable>, all: Table, minOff: nat, maxOff: nat) returns (data: seq<byte>, index: seq<Seg>)
    requires tables != [] && minOff == MinOffset(tables) && maxOff == MaxOffset(tables) && Merges(all, tables)
    ensures var chunks := Pack(Entries(tables), maxOff).chunks;
            data == Data(chunks) && index == Index(chunks)
  {
    hide MinOffset, MaxOffset, Latest, EncodeAll, EntryHead, Data, Index, Listing, Pack, Segment;
    data, index := [], [];
    var segStart, segData, segFirstOff, count := 0, [], 0, 0;
    var off := minOff;
    NothingStarted(tables, minOff, maxOff);
    while off <= maxOff
      invariant minOff <= off
      invariant off <= maxOff + 1 || off == minOff
      invariant var p := Pack(Listing(tables, minOff, off), maxOff);
                && data == Data(p.chunks) && index == Index(p.chunks) && segData == EncodeAll(p.pending)
                && count == |p.pending| && segStart == |data| && (count > 0 ==> segFirstOff == p.pending[0].offset)
    {
      ghost var p := Pack(Listing(tables, minOff, off), maxOff);
      ListNext(tables, minOff, off);
      assert Lookup(all, off) == Latest(tables, off);
      if off in all {
        var e := Entry(off, all[off]);
        PackNext(Listing(tables, minOff, off), e, maxOff);
        EncodeNext(p.pending, e);
        if count == 0 { segFirstOff := off; }
        segData := segData + EncodeEntry(e);
        count := count + 1;
        if count >= SEGMENT_ENTRIES || off == maxOff {
          ChunkNext(p.chunks, p.pending + [e]);
          index := index + [Segment(segFirstOff, segStart, |segData|)];
          data := data + segData;
          segStart, segData, count := |data|, [], 0;
        }
      }
      off := off + 1;
    }
    ListRest(tables, minOff, off, maxOff);
  }

  lemma NothingStarted(tables: seq<SSTable>, lo: nat, max: nat)
    ensures Pack(Listing(tables, lo, lo), max) == Packed([], [])
    ensures Data([]) == [] && Index([]) == [] && EncodeAll([]) == []
  {
  }

  // The loop stops right behind the last offset, or at once if there is none.
  lemma ListRest(tables: seq<SSTable>, lo: nat, off: nat, max: nat)
    requires off > max && lo <= off && (off <= max + 1 || off == lo)
    ensures Listing(tables, lo, off) == Listing(tables, lo, max + 1)
  {
  }

  lemma ChunkNext(chunks: seq<seq<Entry>>, last: seq<Entry>)
    requires last != []
    ensures Data(chunks + [last]) == Data(chunks) + EncodeAll(last)
    ensures Index(chunks + [last]) == Index(chunks) + [Segment(last[0].offset, |Data(chunks)|, |EncodeAll(last)|)]
  {
    assert (chunks + [last])[..|chunks|] == chunks;
  }

  ghost predicate HoldNothing(tables: seq<SSTable>) { forall o: nat :: Latest(tables, o) == None }

  lemma NothingMerged(all: Table, tables: seq<SSTable>)
    requires Merges(all, tables)
    ensures all == map[] <==> HoldNothing(tables)
  {
    hide Latest;
    if all == map[] {
      forall o: nat ensures Latest(tables, o) == None { assert Lookup(all, o) == Latest(tables, o); }
    } else {
      var some: nat :| some in all;
      assert Lookup(all, some) == Latest(tables, some);
    }
  }

  // CreateColdArchive up to the bytes of the file; None is its error.
  method Create(tables: seq<SSTable>) returns (file: Option<seq<byte>>)
    ensures file == None <==> HoldNothing(tables)
    ensures file.Some? ==> tables != [] && file.value == File(MinOffset(tables), MaxOffset(tables), Pack(Entries(tables), MaxOffset(tables)).chunks)
  {
    hide MinOffset, MaxOffset, Entries, Pack, Index, Data, HoldNothing, Merges;
    if tables == [] {
      NothingYet();
      NothingMerged(map[], tables);
      return None;
    }
    var all, minOff, maxOff := Collect(tables);
    NothingMerged(all, tables);
    if all == map[] { return None; }
    var data, index := WriteSegments(tables, all, minOff, maxOff);
    var indexData := WriteIndex(index);
    return Some(Header(minOff, maxOff, |index|) + data + indexData + Footer());
  }

  method WriteIndex(index: seq<Seg>) returns (data: seq<byte>)
    ensures data == EncodeIndex(index)
  {
    hide EncodeSeg;
    data := [];
    for i := 0 to |index|
      invariant data == EncodeIndex(index[..i])
    {
      assert index[..i + 1][..i] == index[..i];
      data := data + EncodeSeg(index[i]);
    }
    assert index[..|index|] == index;
  }

  method OpenFile(file: seq<byte>) returns (archive: Option<Archive>)
    ensures archive == Open(file)
  {
    hide Value, ReadSeg;
    if |file| < HEADER + FOOTER { return None; }
    if Value(file[0..4]) != ARCHIVE_MAGIC { return None; }
    var minOff, maxOff, count := Value(file[8..16]), Value(file[16..24]), Value(file[40..44]);
    if |file| < FOOTER + 16 * count { return None; }
    var start := |file| - FOOTER - 16 * count;
    var index := [];
    for i := 0 to count
      invariant index == ReadIndex(file, start, i)
    {
      index := index + [ReadSeg(file, start + 16 * i)];
    }
    return Some(Archive(minOff, maxOff, index));
  }

  method ScanFor(seg: seq<byte>, offset: nat) returns (answer: Option<Answer>)
    ensures answer == ScanSegment(seg, 0, offset)
  {
    hide Value;
    var off := 0;
    while off < |seg|
      invariant ScanSegment(seg, off, offset) == ScanSegment(seg, 0, offset)
      decreases |seg| - off
    {
      if off + 13 > |seg| { break; }
      var entryOff, size := Value(seg[off..off + 8]), Value(seg[off + 9..off + 13]);
      if off + 13 + size > |seg| { break; }
      if entryOff == offset {
        return Some(if seg[off + 8] == 1 then Deleted else Found(seg[off + 13..off + 13 + size]));
      }
      off := off + 13 + size;
    }
    return None;
  }

  method GetValue(file: seq<byte>, a: Archive, offset: nat) returns (answer: Answer)
    ensures answer == Get(file, a, offset)
  {
    hide ScanSegment;
    if offset < a.min || offset > a.max { return NotFound; }
    for i := 0 to |a.segIndex|
      invariant GetFrom(file, a.segIndex, i, offset) == GetFrom(file, a.segIndex, 0, offset)
    {
      var start, length := HEADER + a.segIndex[i].position, a.segIndex[i].length;
      if start + length <= |file| {
        var found := ScanFor(file[start..start + length], offset);
        if found.Some? { return found.value; }
      }
    }
    return NotFound;
  }
}
