/** internal/storage/cold/archive.go, without compression: SSTables packed into one file and read back by offset. */
module ColdArchives {
  import opened Bytes
  import opened RaftTypes

  const ARCHIVE_MAGIC := 0x434F4C44
  const ARCHIVE_VERSION := 1
  const HEADER := 64
  const FOOTER := 16
  const SEGMENT_ENTRIES := 1000

  datatype Cell = Cell(value: seq<byte>, deleted: bool)

  // What the archiver can see of a sorted string table: its bounds, and the answer to each key.
  datatype SSTable = SSTable(minOffset: nat, maxOffset: nat, cells: map<nat, Cell>)

  datatype Entry = Entry(offset: nat, cell: Cell)

  datatype Seg = Seg(offset: nat, position: nat, length: nat)

  datatype Archive = Archive(min: nat, max: nat, segIndex: seq<Seg>)

  // Get returns a value, or nil for a deleted offset, or an error.
  datatype Answer = Found(value: seq<byte>) | Deleted | NotFound

  // --- the merged table ---

  predicate Holds(t: SSTable, o: nat) { t.minOffset <= o <= t.maxOffset && o in t.cells }

  // The cell of the last table that holds the offset.
  function Latest(tables: seq<SSTable>, o: nat): Option<Cell> {
    if tables == [] then None
    else if Holds(tables[|tables| - 1], o) then Some(tables[|tables| - 1].cells[o])
    else Latest(tables[..|tables| - 1], o)
  }

  function MinOffset(tables: seq<SSTable>): nat
    requires tables != []
  {
    var n := |tables| - 1;
    if n == 0 || tables[n].minOffset < MinOffset(tables[..n]) then tables[n].minOffset else MinOffset(tables[..n])
  }

  function MaxOffset(tables: seq<SSTable>): nat
    requires tables != []
  {
    var n := |tables| - 1;
    if n == 0 || tables[n].maxOffset > MaxOffset(tables[..n]) then tables[n].maxOffset else MaxOffset(tables[..n])
  }

  // The merged entries from lo up to hi, by offset.
  function Listing(tables: seq<SSTable>, lo: nat, hi: nat): seq<Entry> {
    if hi <= lo then [] else
      Listing(tables, lo, hi - 1) +
      match Latest(tables, hi - 1)
      case None => []
      case Some(c) => [Entry(hi - 1, c)]
  }

  function Entries(tables: seq<SSTable>): seq<Entry>
    requires tables != []
  {
    Listing(tables, MinOffset(tables), MaxOffset(tables) + 1)
  }

  // --- segments ---

  datatype Packed = Packed(chunks: seq<seq<Entry>>, pending: seq<Entry>)

  // A segment is closed when it has 1000 entries, or by the entry at offset max.
  function Pack(list: seq<Entry>, max: nat): Packed {
    if list == [] then Packed([], []) else
      var e := list[|list| - 1];
      var p := Pack(list[..|list| - 1], max);
      var pending := p.pending + [e];
      if |pending| >= SEGMENT_ENTRIES || e.offset == max then Packed(p.chunks + [pending], []) else Packed(p.chunks, pending)
  }

  function Flat(chunks: seq<seq<Entry>>): seq<Entry> {
    if chunks == [] then [] else Flat(chunks[..|chunks| - 1]) + chunks[|chunks| - 1]
  }

  // --- bytes ---

  function EntryHead(e: Entry): (h: seq<byte>)
    ensures |h| == 13
  {
    BigEndian(e.offset, 8) + [if e.cell.deleted then 1 else 0] + BigEndian(|e.cell.value|, 4)
  }

  function EncodeEntry(e: Entry): seq<byte> { EntryHead(e) + e.cell.value }

  function EncodeAll(list: seq<Entry>): seq<byte> {
    if list == [] then [] else EncodeAll(list[..|list| - 1]) + EncodeEntry(list[|list| - 1])
  }

  function Data(chunks: seq<seq<Entry>>): seq<byte> {
    if chunks == [] then [] else Data(chunks[..|chunks| - 1]) + EncodeAll(chunks[|chunks| - 1])
  }

  // Positions and lengths are kept in 32 bits.
  function Segment(first: nat, position: nat, length: nat): Seg { Seg(first, Low32(position), Low32(length)) }

  function Low32(n: nat): (low: nat)
    ensures low <= n
  {
    n % 0x1_0000_0000
  }

  function Index(chunks: seq<seq<Entry>>): (s: seq<Seg>)
    ensures |s| == |chunks|
  {
    if chunks == [] then [] else
      var last := chunks[|chunks| - 1];
      Index(chunks[..|chunks| - 1])
      + [Segment(if last == [] then 0 else last[0].offset, |Data(chunks[..|chunks| - 1])|, |EncodeAll(last)|)]
  }

  function EncodeSeg(s: Seg): (b: seq<byte>)
    ensures |b| == 16
  {
    BigEndian(s.offset, 8) + BigEndian(s.position, 4) + BigEndian(s.length, 4)
  }

  function EncodeIndex(index: seq<Seg>): (b: seq<byte>)
    ensures |b| == 16 * |index|
  {
    if index == [] then [] else EncodeIndex(index[..|index| - 1]) + EncodeSeg(index[|index| - 1])
  }

  function Zeros(n: nat): (z: seq<byte>)
    ensures |z| == n
  {
    if n == 0 then [] else Zeros(n - 1) + [0]
  }

  // The timestamps are never filled in.
  function Header(min: nat, max: nat, segments: nat): (h: seq<byte>)
    ensures |h| == HEADER
  {
    BigEndian(ARCHIVE_MAGIC, 4) + BigEndian(ARCHIVE_VERSION, 4) + BigEndian(min, 8) + BigEndian(max, 8)
    + Zeros(16) + BigEndian(segments, 4) + Zeros(20)
  }

  function Footer(): (f: seq<byte>)
    ensures |f| == FOOTER
  {
    BigEndian(ARCHIVE_MAGIC, 4) + Zeros(12)
  }

  function File(min: nat, max: nat, chunks: seq<seq<Entry>>): seq<byte> {
    Header(min, max, |chunks|) + Data(chunks) + EncodeIndex(Index(chunks)) + Footer()
  }

  // --- reading ---

  function ReadSeg(file: seq<byte>, at: nat): Seg
    requires at + 16 <= |file|
  {
    Seg(Value(file[at..at + 8]), Value(file[at + 8..at + 12]), Value(file[at + 12..at + 16]))
  }

  function ReadIndex(file: seq<byte>, start: nat, count: nat): (s: seq<Seg>)
    requires start + 16 * count <= |file|
  {
    if count == 0 then [] else ReadIndex(file, start, count - 1) + [ReadSeg(file, start + 16 * (count - 1))]
  }

  function Open(file: seq<byte>): Option<Archive> {
    if |file| < HEADER + FOOTER then None
    else if Value(file[0..4]) != ARCHIVE_MAGIC then None
    else
      var count := Value(file[40..44]);
      if |file| < FOOTER + 16 * count then None
      else Some(Archive(Value(file[8..16]), Value(file[16..24]), ReadIndex(file, |file| - FOOTER - 16 * count, count)))
  }

  function ScanSegment(seg: seq<byte>, off: nat, o: nat): Option<Answer>
    decreases |seg| - off
  {
    if off + 13 > |seg| then None else
      var size := Value(seg[off + 9..off + 13]);
      if off + 13 + size > |seg| then None
      else if Value(seg[off..off + 8]) == o then
        Some(if seg[off + 8] == 1 then Deleted else Found(seg[off + 13..off + 13 + size]))
      else ScanSegment(seg, off + 13 + size, o)
  }

  // A segment that lies beyond the file is skipped.
  function GetFrom(file: seq<byte>, index: seq<Seg>, i: nat, o: nat): Answer
    decreases |index| - i
  {
    if i >= |index| then NotFound else
      var start := HEADER + index[i].position;
      if start + index[i].length > |file| then GetFrom(file, index, i + 1, o) else
        match ScanSegment(file[start..start + index[i].length], 0, o)
        case None => GetFrom(file, index, i + 1, o)
        case Some(a) => a
  }

  function Get(file: seq<byte>, a: Archive, o: nat): Answer {
    if o < a.min || o > a.max then NotFound else GetFrom(file, a.segIndex, 0, o)
  }
}
