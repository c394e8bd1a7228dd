/** An archive answers like the map it was made from, except for a last segment that was never closed. */
module ColdArchiveProofs {
  import opened Bytes
  import opened RaftTypes
  import opened ColdArchives

  // --- the entries ---

  lemma {:induction false} LatestInBounds(tables: seq<SSTable>, o: nat)
    requires tables != []
    ensures Latest(tables, o).Some? ==> MinOffset(tables) <= o <= MaxOffset(tables)
  {
    var n := |tables| - 1;
    if n > 0 { LatestInBounds(tables[..n], o); } else { assert Latest(tables[..n], o) == None; }
  }

  predicate Has(list: seq<Entry>, o: nat) { exists i :: 0 <= i < |list| && list[i].offset == o }

  predicate Ascending(list: seq<Entry>) { forall i, j :: 0 <= i < j < |list| ==> list[i].offset < list[j].offset }

  lemma {:induction false} ListingFacts(tables: seq<SSTable>, lo: nat, hi: nat)
    ensures var list := Listing(tables, lo, hi);
            && Ascending(list)
            && (forall i :: 0 <= i < |list| ==> lo <= list[i].offset < hi && Latest(tables, list[i].offset) == Some(list[i].cell))
            && (forall o: nat :: lo <= o < hi && Latest(tables, o).Some? ==> Has(list, o))
  {
    hide Latest, Has, Listing;
    if hi <= lo {
      assert Listing(tables, lo, hi) == [] by { NothingListed(tables, lo, hi); }
    } else {
      ListingFacts(tables, lo, hi - 1);
      ListNext(tables, lo, hi - 1);
      var before, list := Listing(tables, lo, hi - 1), Listing(tables, lo, hi);
      match Latest(tables, hi - 1) {
        case None =>
        case Some(c) =>
          forall o: nat | lo <= o < hi && Latest(tables, o).Some? ensures Has(list, o) {
            HasAppended(before, [Entry(hi - 1, c)], o);
          }
      }
    }
  }

  lemma NothingListed(tables: seq<SSTable>, lo: nat, hi: nat)
    requires hi <= lo
    ensures Listing(tables, lo, hi) == []
  {
  }

  lemma ListNext(tables: seq<SSTable>, lo: nat, off: nat)
    requires lo <= off
    ensures Latest(tables, off) == None ==> Listing(tables, lo, off + 1) == Listing(tables, lo, off)
    ensures forall c :: Latest(tables, off) == Some(c) ==> Listing(tables, lo, off + 1) == Listing(tables, lo, off) + [Entry(off, c)]
  {
  }

  lemma HasAppended(a: seq<Entry>, b: seq<Entry>, o: nat)
    ensures Has(a + b, o) <==> Has(a, o) || Has(b, o)
    ensures |b| == 1 ==> Has(b, b[0].offset)
  {
    if Has(a, o) {
      var i :| 0 <= i < |a| && a[i].offset == o;
      assert (a + b)[i].offset == o;
    }
    if Has(b, o) {
      var i :| 0 <= i < |b| && b[i].offset == o;
      assert (a + b)[|a| + i].offset == o;
    }
  }

  // --- the segments ---

  predicate Chunks(chunks: seq<seq<Entry>>) {
    forall i :: 0 <= i < |chunks| ==> 0 < |chunks[i]| <= SEGMENT_ENTRIES
  }

  // Nothing is reordered; and what is not in a segment at the end is less than a segment of the last entries.
  lemma {:induction false} PackFacts(list: seq<Entry>, max: nat)
    requires Ascending(list) && forall i :: 0 <= i < |list| ==> list[i].offset <= max
    ensures var p := Pack(list, max);
            && Flat(p.chunks) + p.pending == list && Chunks(p.chunks)
            && |p.pending| == if Has(list, max) then 0 else |list| % SEGMENT_ENTRIES
  {
    hide Has, Pack, Flat;
    if list == [] {
      NothingPacked(max);
    } else {
      var n := |list| - 1;
      var rest, e := list[..n], list[n];
      assert list == rest + [e];
      PackFacts(rest, max);
      NotYet(list, max);
      ModNext(n);
      PackNext(rest, e, max);
      var p := Pack(rest, max);
      FlatNext(p.chunks, p.pending + [e]);
      ModBound(n);
    }
  }

  lemma NothingPacked(max: nat)
    ensures Pack([], max) == Packed([], []) && Flat([]) == [] && !Has([], max)
  {
  }

  lemma ModBound(n: nat)
    ensures n % SEGMENT_ENTRIES < SEGMENT_ENTRIES
  {
  }

  lemma FlatNext(chunks: seq<seq<Entry>>, last: seq<Entry>)
    ensures Flat(chunks + [last]) == Flat(chunks) + last
  {
    assert (chunks + [last])[..|chunks|] == chunks;
  }

  lemma PackNext(list: seq<Entry>, e: Entry, max: nat)
    ensures var p := Pack(list, max);
            Pack(list + [e], max) == if |p.pending| + 1 >= SEGMENT_ENTRIES || e.offset == max then Packed(p.chunks + [p.pending + [e]], [])
                                     else Packed(p.chunks, p.pending + [e])
  {
    assert (list + [e])[..|list|] == list;
  }

  lemma EncodeNext(list: seq<Entry>, e: Entry)
    ensures EncodeAll(list + [e]) == EncodeAll(list) + EncodeEntry(e) && EncodeAll([]) == []
  {
    assert (list + [e])[..|list|] == list;
  }

  lemma ModNext(n: nat)
    ensures (n + 1) % SEGMENT_ENTRIES == if n % SEGMENT_ENTRIES == SEGMENT_ENTRIES - 1 then 0 else n % SEGMENT_ENTRIES + 1
  {
  }

  lemma NotYet(list: seq<Entry>, max: nat)
    requires list != [] && Ascending(list) && forall i :: 0 <= i < |list| ==> list[i].offset <= max
    ensures !Has(list[..|list| - 1], max) && (Has(list, max) <==> list[|list| - 1].offset == max)
  {
    var n := |list| - 1;
    assert forall i :: 0 <= i < n ==> list[i].offset < list[n].offset;
  }

  // --- one segment read back ---

  function ToAnswer(c: Cell): Answer { if c.deleted then Deleted else Found(c.value) }

  // The answer of the first entry with that offset.
  function FindIn(list: seq<Entry>, o: nat): Option<Answer> {
    if list == [] then None else if list[0].offset == o then Some(ToAnswer(list[0].cell)) else FindIn(list[1..], o)
  }

  predicate EntryFits(e: Entry) { e.offset < Span(8) && |e.cell.value| < Span(4) }

  predicate AllFit(list: seq<Entry>) { forall i :: 0 <= i < |list| ==> EntryFits(list[i]) }

  lemma {:induction false} EncodeFront(list: seq<Entry>)
    requires list != []
    ensures EncodeAll(list) == EncodeEntry(list[0]) + EncodeAll(list[1..])
  {
    hide EncodeEntry, EncodeAll;
    var k := |list| - 1;
    var first, last := list[0], list[k];
    if k == 0 {
      assert list == [] + [first] && list[1..] == [];
      EncodeNext([], first);
    } else {
      EncodeFront(list[..k]);
      assert list == list[..k] + [last] && list[1..] == list[..k][1..] + [last];
      EncodeNext(list[..k], last);
      EncodeNext(list[..k][1..], last);
    }
  }

  lemma ReadHead(seg: seq<byte>, off: nat, e: Entry)
    requires EntryFits(e) && At(seg, off, EntryHead(e))
    ensures off + 13 <= |seg| && Value(seg[off..off + 8]) == e.offset
    ensures seg[off + 8] == (if e.cell.deleted then 1 else 0) && Value(seg[off + 9..off + 13]) == |e.cell.value|
  {
    hide Value, BigEndian, Span;
    var offset, flag, size := BigEndian(e.offset, 8), [if e.cell.deleted then 1 else 0], BigEndian(|e.cell.value|, 4);
    AtSplit(seg, off, offset + flag, size);
    AtSplit(seg, off, offset, flag);
    ValueAt(seg, off, e.offset, 8);
    ValueAt(seg, off + 9, |e.cell.value|, 4);
    assert seg[off + 8] == seg[off + 8..off + 9][0];
  }

  lemma {:induction false} ScanFinds(seg: seq<byte>, off: nat, list: seq<Entry>, o: nat)
    requires AllFit(list) && At(seg, off, EncodeAll(list)) && off + |EncodeAll(list)| == |seg|
    ensures ScanSegment(seg, off, o) == FindIn(list, o)
    decreases |list|
  {
    hide At, EncodeAll, EntryHead, EntryFits, Value;
    if list == [] {
      assert |EncodeAll(list)| == 0 by { NothingEncoded(); }
    } else {
      var e, rest := list[0], list[1..];
      EncodeFront(list);
      AtSplit(seg, off, EncodeEntry(e), EncodeAll(rest));
      AtSplit(seg, off, EntryHead(e), e.cell.value);
      ReadHead(seg, off, e);
      AtSlice(seg, off + 13, e.cell.value);
      ScanFinds(seg, off + |EncodeEntry(e)|, rest, o);
    }
  }

  lemma NothingEncoded()
    ensures EncodeAll([]) == []
  {
  }

  // --- the whole file ---

  // Offsets are 64-bit numbers.
  predicate Typed(min: nat, max: nat, chunks: seq<seq<Entry>>) {
    min < Span(8) && max < Span(8) && forall i :: 0 <= i < |chunks| ==> TypedList(chunks[i])
  }

  predicate TypedList(list: seq<Entry>) { forall i :: 0 <= i < |list| ==> list[i].offset < Span(8) }

  // Every segment starts below 4 GB and is shorter than that, and their number fits its field too.
  predicate Placed(chunks: seq<seq<Entry>>) {
    |chunks| < Span(4) && forall i :: 0 <= i < |chunks| ==> |Data(chunks[..i])| < Span(4) && |EncodeAll(chunks[i])| < Span(4)
  }

  predicate Fits(min: nat, max: nat, chunks: seq<seq<Entry>>) { Typed(min, max, chunks) && Placed(chunks) }

  lemma {:induction false} ChunkAt(chunks: seq<seq<Entry>>, i: nat)
    requires i < |chunks|
    ensures At(Data(chunks), |Data(chunks[..i])|, EncodeAll(chunks[i]))
    ensures var first := if chunks[i] == [] then 0 else chunks[i][0].offset;
            Index(chunks)[i] == Segment(first, |Data(chunks[..i])|, |EncodeAll(chunks[i])|)
  {
    hide EncodeAll, Segment;
    var n := |chunks| - 1;
    if i < n {
      ChunkAt(chunks[..n], i);
      assert chunks[..n][..i] == chunks[..i];
      AtLonger(Data(chunks[..n]), |Data(chunks[..i])|, EncodeAll(chunks[i]), EncodeAll(chunks[n]));
    } else {
      AtEnd(Data(chunks[..n]), EncodeAll(chunks[n]));
    }
  }

  // Where the four parts of the file are.
  lemma FileParts(min: nat, max: nat, chunks: seq<seq<Entry>>)
    ensures var file := File(min, max, chunks);
            && At(file, 0, Header(min, max, |chunks|)) && At(file, HEADER, Data(chunks))
            && At(file, HEADER + |Data(chunks)|, EncodeIndex(Index(chunks)))
            && |file| == HEADER + |Data(chunks)| + 16 * |chunks| + FOOTER
  {
    hide Header, Data, EncodeIndex, Index, Footer, At;
    var h, d, x, f := Header(min, max, |chunks|), Data(chunks), EncodeIndex(Index(chunks)), Footer();
    AtEnd([], h + d + x + f);
    assert [] + (h + d + x + f) == h + d + x + f == File(min, max, chunks);
    AtSplit(h + d + x + f, 0, h + d + x, f);
    AtSplit(h + d + x + f, 0, h + d, x);
    AtSplit(h + d + x + f, 0, h, d);
  }

  lemma ReadHeader(file: seq<byte>, min: nat, max: nat, count: nat)
    requires min < Span(8) && max < Span(8) && At(file, 0, Header(min, max, count))
    ensures |file| >= HEADER && Value(file[0..4]) == ARCHIVE_MAGIC
    ensures Value(file[8..16]) == min && Value(file[16..24]) == max && Value(file[40..44]) == Low32(count)
  {
    hide At, Value, BigEndian, Span, Zeros;
    var magic, version := BigEndian(ARCHIVE_MAGIC, 4), BigEndian(ARCHIVE_VERSION, 4);
    var lo, hi, size := BigEndian(min, 8), BigEndian(max, 8), BigEndian(count, 4);
    AtSplit(file, 0, magic + version + lo + hi + Zeros(16) + size, Zeros(20));
    AtSplit(file, 0, magic + version + lo + hi + Zeros(16), size);
    AtSplit(file, 0, magic + version + lo + hi, Zeros(16));
    AtSplit(file, 0, magic + version + lo, hi);
    AtSplit(file, 0, magic + version, lo);
    AtSplit(file, 0, magic, version);
    AtBound(file, 0, Header(min, max, count));
    Spans();
    ValueAt(file, 0, ARCHIVE_MAGIC, 4);
    ValueAt(file, 8, min, 8);
    ValueAt(file, 16, max, 8);
    ValueMod(count, 4);
    AtSlice(file, 40, size);
  }

  predicate SegFits(s: Seg) { s.offset < Span(8) && s.position < Span(4) && s.length < Span(4) }

  lemma ReadSegBack(file: seq<byte>, at: nat, s: Seg)
    requires SegFits(s) && At(file, at, EncodeSeg(s))
    ensures at + 16 <= |file| && ReadSeg(file, at) == s
  {
    hide At, Value, BigEndian, Span;
    var offset, position, length := BigEndian(s.offset, 8), BigEndian(s.position, 4), BigEndian(s.length, 4);
    AtSplit(file, at, offset + position, length);
    AtSplit(file, at, offset, position);
    ValueAt(file, at, s.offset, 8);
    ValueAt(file, at + 8, s.position, 4);
    ValueAt(file, at + 12, s.length, 4);
  }

  lemma {:induction false} ReadIndexBack(file: seq<byte>, start: nat, index: seq<Seg>)
    requires At(file, start, EncodeIndex(index)) && forall i :: 0 <= i < |index| ==> SegFits(index[i])
    ensures start + 16 * |index| <= |file| && ReadIndex(file, start, |index|) == index
  {
    hide At, EncodeSeg, ReadSeg, SegFits;
    if index == [] {
      assert start <= |file| by { AtBound(file, start, EncodeIndex(index)); }
    } else {
      var n := |index| - 1;
      AtSplit(file, start, EncodeIndex(index[..n]), EncodeSeg(index[n]));
      ReadIndexBack(file, start, index[..n]);
      ReadSegBack(file, start + 16 * n, index[n]);
      assert index == index[..n] + [index[n]];
    }
  }

  // What the index says of a segment fits its fields, and it is right if and only if the segment
  // starts below 4 GB and is shorter than that.
  lemma IndexFits(min: nat, max: nat, chunks: seq<seq<Entry>>, i: nat)
    requires Typed(min, max, chunks) && i < |chunks|
    ensures SegFits(Index(chunks)[i])
    ensures Index(chunks)[i].position == |Data(chunks[..i])| && Index(chunks)[i].length == |EncodeAll(chunks[i])|
            <==> |Data(chunks[..i])| < Span(4) && |EncodeAll(chunks[i])| < Span(4)
  {
    hide Data, EncodeAll, Index, At, Span;
    Spans();
    ChunkAt(chunks, i);
    assert TypedList(chunks[i]);
  }

  lemma {:induction false} IndexSplit(index: seq<Seg>, k: nat)
    requires k <= |index|
    ensures EncodeIndex(index) == EncodeIndex(index[..k]) + EncodeIndex(index[k..])
  {
    hide EncodeSeg;
    var n := |index| - 1;
    if k == |index| {
      assert index[..k] == index && index[k..] == [];
    } else {
      IndexSplit(index[..n], k);
      assert index[..n][..k] == index[..k] && index[..n][k..] == index[k..][..n - k];
    }
  }

  // The index is read back from any of its segments on.
  lemma IndexBack(file: seq<byte>, start: nat, index: seq<Seg>, skipped: nat)
    requires At(file, start, EncodeIndex(index)) && skipped <= |index| && forall i :: 0 <= i < |index| ==> SegFits(index[i])
    ensures start + 16 * |index| <= |file| && ReadIndex(file, start + 16 * skipped, |index| - skipped) == index[skipped..]
  {
    hide At, EncodeIndex, ReadIndex, SegFits;
    var known := index[skipped..];
    IndexSplit(index, skipped);
    AtSplit(file, start, EncodeIndex(index[..skipped]), EncodeIndex(known));
    assert forall i :: 0 <= i < |known| ==> known[i] == index[skipped + i];
    ReadIndexBack(file, start + 16 * skipped, known);
  }

  // An archive opens with the bounds and the index it was written with; of 2^32 segments and more, only as many of the
  // last ones are known as the 32-bit count says.
  lemma OpenBack(min: nat, max: nat, chunks: seq<seq<Entry>>)
    requires Typed(min, max, chunks)
    ensures Open(File(min, max, chunks)) == Some(Archive(min, max, Index(chunks)[|chunks| - Low32(|chunks|)..]))
  {
    hide At, File, Header, Data, Index, EncodeIndex, Value, ReadIndex, SegFits, Span, Low32, Typed;
    var file, skipped := File(min, max, chunks), |chunks| - Low32(|chunks|);
    TypedBounds(min, max, chunks);
    FileParts(min, max, chunks);
    ReadHeader(file, min, max, |chunks|);
    forall i | 0 <= i < |chunks| ensures SegFits(Index(chunks)[i]) { IndexFits(min, max, chunks, i); }
    IndexBack(file, HEADER + |Data(chunks)|, Index(chunks), skipped);
  }

  lemma TypedBounds(min: nat, max: nat, chunks: seq<seq<Entry>>)
    requires Typed(min, max, chunks)
    ensures min < Span(8) && max < Span(8)
  {
  }

  // The answer of the first chunk from i on that has the offset.
  function FindFrom(chunks: seq<seq<Entry>>, i: nat, o: nat): Answer
    decreases |chunks| - i
  {
    if i >= |chunks| then NotFound else
      match FindIn(chunks[i], o)
      case None => FindFrom(chunks, i + 1, o)
      case Some(a) => a
  }

  // A segment that the index has right is scanned.
  lemma GetStep(min: nat, max: nat, chunks: seq<seq<Entry>>, i: nat, o: nat)
    requires Typed(min, max, chunks) && i < |chunks| && AllFit(chunks[i])
    requires |Data(chunks[..i])| < Span(4) && |EncodeAll(chunks[i])| < Span(4)
    ensures GetFrom(File(min, max, chunks), Index(chunks), i, o) ==
            match FindIn(chunks[i], o)
            case None => GetFrom(File(min, max, chunks), Index(chunks), i + 1, o)
            case Some(a) => a
  {
    hide At, File, Data, Index, EncodeAll, ScanSegment, FindIn, SegFits, Span, Header, EncodeIndex, Typed, AllFit;
    var file, seg := File(min, max, chunks), EncodeAll(chunks[i]);
    IndexFits(min, max, chunks, i);
    ChunkAt(chunks, i);
    FileParts(min, max, chunks);
    AtInside(file, HEADER, Data(chunks), |Data(chunks[..i])|, seg);
    AtSlice(file, HEADER + |Data(chunks[..i])|, seg);
    AtWhole(seg);
    ScanFinds(seg, 0, chunks[i], o);
  }

  lemma {:induction false} GetFinds(min: nat, max: nat, chunks: seq<seq<Entry>>, i: nat, o: nat)
    requires Fits(min, max, chunks) && i <= |chunks|
    ensures GetFrom(File(min, max, chunks), Index(chunks), i, o) == FindFrom(chunks, i, o)
    decreases |chunks| - i
  {
    hide File, Data, Index, EncodeAll, ScanSegment, FindIn, Span, Fits, Typed, AllFit;
    if i < |chunks| {
      GetFinds(min, max, chunks, i + 1, o);
      FitsTyped(min, max, chunks);
      ChunkFits(min, max, chunks, i);
      GetStep(min, max, chunks, i, o);
    }
  }

  lemma {:induction false} ValueBounded(list: seq<Entry>, i: nat)
    requires i < |list|
    ensures |list[i].cell.value| <= |EncodeAll(list)|
  {
    var n := |list| - 1;
    if i < n { ValueBounded(list[..n], i); }
  }

  lemma ChunkFits(min: nat, max: nat, chunks: seq<seq<Entry>>, i: nat)
    requires Fits(min, max, chunks) && i < |chunks|
    ensures AllFit(chunks[i]) && |Data(chunks[..i])| < Span(4) && |EncodeAll(chunks[i])| < Span(4)
  {
    hide Data, EncodeAll, Span;
    assert TypedList(chunks[i]);
    forall j | 0 <= j < |chunks[i]| ensures EntryFits(chunks[i][j]) { ValueBounded(chunks[i], j); }
  }

  lemma FitsTyped(min: nat, max: nat, chunks: seq<seq<Entry>>)
    requires Fits(min, max, chunks)
    ensures Typed(min, max, chunks) && |chunks| < 0x1_0000_0000
  {
    Spans();
  }

  // --- from chunks to the map ---

  lemma {:induction false} FindInHas(list: seq<Entry>, o: nat)
    ensures FindIn(list, o).Some? <==> Has(list, o)
    ensures forall i :: 0 <= i < |list| && list[i].offset == o && Ascending(list) ==> FindIn(list, o) == Some(ToAnswer(list[i].cell))
  {
    hide ToAnswer;
    if list != [] {
      FindInHas(list[1..], o);
      if list[0].offset != o && Has(list, o) {
        var i :| 0 <= i < |list| && list[i].offset == o;
        assert list[1..][i - 1].offset == o;
      }
      forall i | 0 <= i < |list| && list[i].offset == o && Ascending(list) ensures FindIn(list, o) == Some(ToAnswer(list[i].cell)) {
        if i > 0 {
          assert list[0].offset < list[i].offset;
          assert list[1..][i - 1] == list[i];
        }
      }
    }
  }

  lemma {:induction false} FindInSplit(a: seq<Entry>, b: seq<Entry>, o: nat)
    ensures FindIn(a + b, o) == if FindIn(a, o).Some? then FindIn(a, o) else FindIn(b, o)
  {
    if a == [] {
      assert a + b == b;
    } else {
      assert (a + b)[1..] == a[1..] + b;
      FindInSplit(a[1..], b, o);
    }
  }

  function OrNotFound(a: Option<Answer>): Answer { if a.Some? then a.value else NotFound }

  lemma {:induction false} FindFromFlat(chunks: seq<seq<Entry>>, i: nat, o: nat)
    requires i <= |chunks|
    ensures FindIn(Flat(chunks), o) == if FindIn(Flat(chunks[..i]), o).Some? then FindIn(Flat(chunks[..i]), o)
                                      else if FindFrom(chunks, i, o) == NotFound then None else Some(FindFrom(chunks, i, o))
    decreases |chunks| - i
  {
    hide FindIn;
    if i == |chunks| {
      assert chunks[..i] == chunks;
    } else {
      FindFromFlat(chunks, i + 1, o);
      assert chunks[..i + 1][..i] == chunks[..i];
      FindInSplit(Flat(chunks[..i]), chunks[i], o);
      NeverNotFound(chunks[i], o);
    }
  }

  lemma {:induction false} NeverNotFound(list: seq<Entry>, o: nat)
    ensures FindIn(list, o) != Some(NotFound)
  {
    if list != [] { NeverNotFound(list[1..], o); }
  }

  // Reading any offset of an archive made of these chunks.
  lemma GetBack(min: nat, max: nat, chunks: seq<seq<Entry>>, o: nat)
    requires Fits(min, max, chunks) && forall i :: 0 <= i < |Flat(chunks)| ==> min <= Flat(chunks)[i].offset <= max
    ensures var file := File(min, max, chunks);
            Open(file).Some? && Get(file, Open(file).value, o) == OrNotFound(FindIn(Flat(chunks), o))
  {
    hide File, Index, Open, FindFrom, GetFrom, FindIn, Fits, Typed;
    FitsTyped(min, max, chunks);
    OpenBack(min, max, chunks);
    assert Index(chunks)[0..] == Index(chunks);
    GetFinds(min, max, chunks, 0, o);
    FindFromFlat(chunks, 0, o);
    assert chunks[..0] == [];
    assert Flat(chunks[..0]) == [];
    FindInHas([], o);
    FindInHas(Flat(chunks), o);
  }

  // What the archive of some tables answers.
  function Reply(tables: seq<SSTable>, o: nat): Answer
    requires tables != []
  {
    var min, max := MinOffset(tables), MaxOffset(tables);
    var file := File(min, max, Pack(Entries(tables), max).chunks);
    match Open(file)
    case None => NotFound
    case Some(a) => Get(file, a, o)
  }

  // Bounds are 64-bit numbers, and every segment starts below 4 GB and is shorter than that.
  predicate TablesFit(tables: seq<SSTable>)
    requires tables != []
  {
    MinOffset(tables) < Span(8) && MaxOffset(tables) < Span(8) && Placed(Pack(Entries(tables), MaxOffset(tables)).chunks)
  }

  // Entries up to a 64-bit bound have 64-bit offsets, in whatever chunks.
  lemma {:induction false} FlatTyped(chunks: seq<seq<Entry>>)
    requires TypedList(Flat(chunks))
    ensures forall i :: 0 <= i < |chunks| ==> TypedList(chunks[i])
  {
    if chunks != [] {
      var n := |chunks| - 1;
      var front, last := Flat(chunks[..n]), chunks[n];
      assert Flat(chunks) == front + last;
      forall i | 0 <= i < |front| ensures front[i].offset < Span(8) { assert Flat(chunks)[i] == front[i]; }
      forall i | 0 <= i < |last| ensures last[i].offset < Span(8) { assert Flat(chunks)[|front| + i] == last[i]; }
      FlatTyped(chunks[..n]);
      forall i | 0 <= i < |chunks| ensures TypedList(chunks[i]) { if i < n { assert chunks[i] == chunks[..n][i]; } }
    }
  }

  // The entries that never made it into a segment.
  function Lost(tables: seq<SSTable>): seq<Entry>
    requires tables != []
  {
    Pack(Entries(tables), MaxOffset(tables)).pending
  }

  // The archive is the map of latest cells, less the entries of an unclosed last segment.
  lemma ArchiveIsMap(tables: seq<SSTable>, o: nat)
    requires tables != [] && TablesFit(tables)
    ensures Reply(tables, o) == match Latest(tables, o)
                                case None => NotFound
                                case Some(c) => if Has(Lost(tables), o) then NotFound else ToAnswer(c)
  {
    hide Latest, MinOffset, MaxOffset, Listing, Pack, File, Open, Get, Flat, FindIn, ToAnswer, Placed, Span;
    var min, max, list := MinOffset(tables), MaxOffset(tables), Entries(tables);
    ListingFacts(tables, min, max + 1);
    LatestInBounds(tables, o);
    PackFacts(list, max);
    var p := Pack(list, max);
    var kept := Flat(p.chunks);
    assert forall i :: 0 <= i < |kept| ==> kept[i] == list[i];
    FlatTyped(p.chunks);
    GetBack(min, max, p.chunks, o);
    WhereIs(list, kept, p.pending, o);
  }

  lemma WhereIs(list: seq<Entry>, kept: seq<Entry>, pending: seq<Entry>, o: nat)
    requires list == kept + pending && Ascending(list)
    ensures !Has(list, o) ==> FindIn(kept, o) == None
    ensures forall i :: 0 <= i < |list| && list[i].offset == o ==>
                          FindIn(kept, o) == if Has(pending, o) then None else Some(ToAnswer(list[i].cell))
  {
    hide FindIn, ToAnswer;
    FindInHas(kept, o);
    assert Ascending(kept) by { assert forall i :: 0 <= i < |kept| ==> list[i] == kept[i]; }
    if Has(kept, o) {
      var k :| 0 <= k < |kept| && kept[k].offset == o;
      assert list[k].offset == o;
    }
    forall i | 0 <= i < |list| && list[i].offset == o
      ensures FindIn(kept, o) == if Has(pending, o) then None else Some(ToAnswer(list[i].cell))
    {
      if i < |kept| {
        assert kept[i] == list[i];
        forall j | 0 <= j < |pending| ensures pending[j].offset != o { assert list[|kept| + j] == pending[j]; }
      } else {
        assert pending[i - |kept|] == list[i];
        forall j | 0 <= j < |kept| ensures kept[j].offset != o { assert list[j] == kept[j]; }
      }
    }
  }

  // Everything can be read back exactly if the highest offset of the metadata has an entry
  // or the entries fill whole segments.
  lemma NothingLost(tables: seq<SSTable>)
    requires tables != [] && TablesFit(tables)
    ensures (forall o: nat :: Latest(tables, o).Some? ==> Reply(tables, o) == ToAnswer(Latest(tables, o).value))
            <==> Latest(tables, MaxOffset(tables)).Some? || |Entries(tables)| % SEGMENT_ENTRIES == 0
  {
    hide Latest, MinOffset, MaxOffset, Listing, Pack, Reply, Flat, Placed, Span;
    var min, max, list := MinOffset(tables), MaxOffset(tables), Entries(tables);
    ListingFacts(tables, min, max + 1);
    LatestInBounds(tables, max);
    PackFacts(list, max);
    var lost := Lost(tables);
    if lost == [] {
      forall o: nat | Latest(tables, o).Some? ensures Reply(tables, o) == ToAnswer(Latest(tables, o).value) {
        ArchiveIsMap(tables, o);
      }
    } else {
      var o := lost[0].offset;
      assert Has(lost, o);
      var kept := Flat(Pack(list, max).chunks);
      assert list[|kept|] == lost[0];
      ArchiveIsMap(tables, o);
    }
  }

  // One table with bounds 0 and 1 and an entry at 0: the entry cannot be read back.
  lemma TailIsLost(c: Cell)
    ensures var tables := [SSTable(0, 1, map[0 := c])];
            Latest(tables, 0) == Some(c) && TablesFit(tables) && Reply(tables, 0) == NotFound
  {
    hide Reply;
    var t := SSTable(0, 1, map[0 := c]);
    var tables := [t];
    assert tables[..0] == [];
    assert Latest(tables, 0) == Some(c) && Latest(tables, 1) == None;
    assert Listing(tables, 0, 0) == [];
    assert Listing(tables, 0, 1) == [Entry(0, c)];
    assert Entries(tables) == Listing(tables, 0, 2) == [Entry(0, c)];
    var list := [Entry(0, c)];
    assert list[..0] == [];
    assert Pack(list, 1) == Packed([], [Entry(0, c)]);
    assert Lost(tables) == list && Has(list, 0) by { assert list[0].offset == 0; }
    Spans();
    ArchiveIsMap(tables, 0);
  }

  // --- beyond 4 GB ---

  // Entries that are cut off at the end are not found, and neither are others in their place.
  lemma {:induction false} ScanAbsent(full: seq<byte>, off: nat, list: seq<Entry>, o: nat, k: nat)
    requires AllFit(list) && At(full, off, EncodeAll(list)) && off <= k <= |full| && k <= off + |EncodeAll(list)| && !Has(list, o)
    ensures ScanSegment(full[..k], off, o) == None
    decreases |list|
  {
    hide At, EncodeAll, EntryHead, EntryFits, Value;
    if list == [] {
      NothingEncoded();
    } else {
      var e, rest := list[0], list[1..];
      EncodeFront(list);
      AtSplit(full, off, EncodeEntry(e), EncodeAll(rest));
      AtSplit(full, off, EntryHead(e), e.cell.value);
      var next := off + |EncodeEntry(e)|;
      if off + 13 <= k {
        AtCut(full, off, EntryHead(e), k);
        ReadHead(full[..k], off, e);
        if next <= k {
          forall i | 0 <= i < |rest| ensures rest[i].offset != o { assert list[i + 1] == rest[i]; }
          ScanAbsent(full, next, rest, o, k);
        }
      }
    }
  }

  lemma {:induction false} EncodeConcat(a: seq<Entry>, b: seq<Entry>)
    ensures EncodeAll(a + b) == EncodeAll(a) + EncodeAll(b)
  {
    hide EncodeEntry, EncodeAll;
    if b == [] {
      assert a + b == a;
      NothingEncoded();
    } else {
      var n := |b| - 1;
      EncodeConcat(a, b[..n]);
      EncodeNext(a + b[..n], b[n]);
      EncodeNext(b[..n], b[n]);
      assert a + b == a + b[..n] + [b[n]] && b == b[..n] + [b[n]];
    }
  }

  lemma {:induction false} DataIsFlat(chunks: seq<seq<Entry>>)
    ensures Data(chunks) == EncodeAll(Flat(chunks))
  {
    hide EncodeAll;
    if chunks == [] {
      NothingEncoded();
    } else {
      var n := |chunks| - 1;
      DataIsFlat(chunks[..n]);
      EncodeConcat(Flat(chunks[..n]), chunks[n]);
    }
  }

  // A segment that starts at 4 GB is looked for at the start of the data, where it is not: its entries are lost.
  lemma WrappedSegmentLost(min: nat, max: nat, chunks: seq<seq<Entry>>, n: nat, o: nat)
    requires Typed(min, max, chunks) && |chunks| == n + 1 < Span(4) && |Data(chunks[..n])| == Span(4) && |EncodeAll(chunks[n])| < Span(4)
    requires Placed(chunks[..n]) && min <= o <= max && !Has(Flat(chunks[..n]), o)
    ensures var file := File(min, max, chunks);
            Open(file).Some? && Get(file, Open(file).value, o) == NotFound
  {
    hide File, Index, Open, GetFrom, FindIn, Typed, Placed, Data, EncodeAll, Flat, Span, Has;
    Spans();
    OpenBack(min, max, chunks);
    assert Index(chunks)[0..] == Index(chunks);
    assert chunks[..0] == [];
    WrappedFrom(min, max, chunks, n, 0, o);
  }

  lemma {:induction false} WrappedFrom(min: nat, max: nat, chunks: seq<seq<Entry>>, n: nat, i: nat, o: nat)
    requires Typed(min, max, chunks) && |chunks| == n + 1 && i <= n && |Data(chunks[..n])| == Span(4) && |EncodeAll(chunks[n])| < Span(4)
    requires Placed(chunks[..n]) && !Has(Flat(chunks[..n]), o)
    ensures GetFrom(File(min, max, chunks), Index(chunks), i, o) == NotFound
    decreases n - i
  {
    hide File, Index, FindIn, Data, EncodeAll, Span, Has, AllFit, GetFrom;
    var front := chunks[..n];
    if i < n {
      WrappedFrom(min, max, chunks, n, i + 1, o);
      assert front[..i] == chunks[..i] && front[i] == chunks[i];
      assert Fits(min, max, front);
      ChunkFits(min, max, front, i);
      AbsentThere(front, i, o);
      FindInHas(chunks[i], o);
      GetStep(min, max, chunks, i, o);
    } else {
      WrappedLast(min, max, chunks, n, o);
    }
  }

  lemma {:induction false} AbsentThere(chunks: seq<seq<Entry>>, i: nat, o: nat)
    requires i < |chunks| && !Has(Flat(chunks), o)
    ensures !Has(chunks[i], o)
  {
    hide Has;
    var n := |chunks| - 1;
    HasAppended(Flat(chunks[..n]), chunks[n], o);
    if i < n { AbsentThere(chunks[..n], i, o); }
  }

  lemma {:induction false} FlatFits(chunks: seq<seq<Entry>>, min: nat, max: nat)
    requires Fits(min, max, chunks)
    ensures AllFit(Flat(chunks))
  {
    hide Data, EncodeAll, Span;
    if chunks != [] {
      var n := |chunks| - 1;
      var front := chunks[..n];
      assert forall i :: 0 <= i < n ==> front[i] == chunks[i] && front[..i] == chunks[..i];
      FlatFits(front, min, max);
      ChunkFits(min, max, chunks, n);
    }
  }

  lemma WrappedLast(min: nat, max: nat, chunks: seq<seq<Entry>>, n: nat, o: nat)
    requires Typed(min, max, chunks) && |chunks| == n + 1 && |Data(chunks[..n])| == Span(4) && |EncodeAll(chunks[n])| < Span(4)
    requires Placed(chunks[..n]) && !Has(Flat(chunks[..n]), o)
    ensures GetFrom(File(min, max, chunks), Index(chunks), n, o) == NotFound
  {
    hide At, File, Index, Data, EncodeAll, Span, Header, EncodeIndex, Has, ScanSegment, AllFit, Flat;
    var file, data, front, length := File(min, max, chunks), Data(chunks[..n]), chunks[..n], |EncodeAll(chunks[n])|;
    Spans();
    ChunkAt(chunks, n);
    FileParts(min, max, chunks);
    assert Fits(min, max, front);
    FlatFits(front, min, max);
    DataIsFlat(front);
    DataNext(chunks, n);
    AtSplit(file, HEADER, data, EncodeAll(chunks[n]));
    AtSlice(file, HEADER, data);
    assert file[HEADER..HEADER + length] == data[..length];
    AtWhole(data);
    ScanAbsent(data, 0, Flat(front), o, length);
  }

  lemma DataNext(chunks: seq<seq<Entry>>, n: nat)
    requires |chunks| == n + 1
    ensures Data(chunks) == Data(chunks[..n]) + EncodeAll(chunks[n])
  {
  }

  // --- the merged table, again ---

  predicate LastHolder(tables: seq<SSTable>, o: nat, i: nat) {
    i < |tables| && Holds(tables[i], o) && forall j :: i < j < |tables| ==> !Holds(tables[j], o)
  }

  // The cell of an offset is that of the last table that holds it.
  lemma {:induction false} LatestExactly(tables: seq<SSTable>, o: nat, c: Cell)
    ensures Latest(tables, o) == Some(c) <==> exists i: nat :: LastHolder(tables, o, i) && tables[i].cells[o] == c
  {
    if tables != [] {
      var n := |tables| - 1;
      LatestExactly(tables[..n], o, c);
      assert forall j :: 0 <= j < n ==> tables[..n][j] == tables[j];
      if Holds(tables[n], o) {
        assert LastHolder(tables, o, n);
        assert forall i: nat :: LastHolder(tables, o, i) ==> i == n;
      } else {
        assert forall i: nat :: LastHolder(tables[..n], o, i) <==> LastHolder(tables, o, i);
      }
    }
  }

  // The bounds of an archive are those of some table, and include those of all.
  lemma {:induction false} BoundsExactly(tables: seq<SSTable>)
    requires tables != []
    ensures forall i :: 0 <= i < |tables| ==> MinOffset(tables) <= tables[i].minOffset && tables[i].maxOffset <= MaxOffset(tables)
    ensures exists i :: 0 <= i < |tables| && tables[i].minOffset == MinOffset(tables)
    ensures exists i :: 0 <= i < |tables| && tables[i].maxOffset == MaxOffset(tables)
  {
    var n := |tables| - 1;
    if n > 0 {
      BoundsExactly(tables[..n]);
      assert forall j :: 0 <= j < n ==> tables[..n][j] == tables[j];
    }
    assert tables[n] == tables[|tables| - 1];
  }
}
