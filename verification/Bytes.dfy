/** Bytes and big-endian unsigned integers, as the wire formats of the broker use them. */
module Bytes {
  import opened Division

  type byte = x: int | 0 <= x < 256

  // The low w bytes of n, most significant first: binary.BigEndian.PutUint16, PutUint32 and PutUint64.
  function BigEndian(n: nat, w: nat): (s: seq<byte>)
    ensures |s| == w
  {
    if w == 0 then [] else BigEndian(n / 256, w - 1) + [n % 256]
  }

  function Value(s: seq<byte>): nat {
    if s == [] then 0 else Value(s[..|s| - 1]) * 256 + s[|s| - 1]
  }

  function Span(w: nat): (span: nat)
    ensures span > 0
  {
    if w == 0 then 1 else 256 * Span(w - 1)
  }

  lemma Spans()
    ensures Span(1) == 256 && Span(2) == 0x1_0000 && Span(4) == 0x1_0000_0000 && Span(8) == 0x1_0000_0000_0000_0000
  {
    assert Span(1) == 256 * Span(0);
    assert Span(2) == 256 * Span(1);
    assert Span(3) == 256 * Span(2);
    assert Span(4) == 256 * Span(3);
    assert Span(5) == 256 * Span(4);
    assert Span(6) == 256 * Span(5);
    assert Span(7) == 256 * Span(6);
    assert Span(8) == 256 * Span(7);
  }

  // Reading back what was written.
  lemma {:induction false} ValueOf(n: nat, w: nat)
    requires n < Span(w)
    ensures Value(BigEndian(n, w)) == n
  {
    if w > 0 {
      assert n / 256 < Span(w - 1);
      ValueOf(n / 256, w - 1);
      var s := BigEndian(n, w);
      assert s[..w - 1] == BigEndian(n / 256, w - 1);
    }
  }

  // Of a number too large for its field, the low bytes are left.
  lemma {:induction false} ValueMod(n: nat, w: nat)
    ensures Value(BigEndian(n, w)) == n % Span(w)
  {
    if w > 0 {
      ValueMod(n / 256, w - 1);
      var s, d := BigEndian(n, w), Span(w - 1);
      assert s[..w - 1] == BigEndian(n / 256, w - 1);
      ModOfParts(n / 256, n % 256, d);
    }
  }

  lemma ModOfParts(q: nat, r: nat, d: nat)
    requires d > 0 && r < 256
    ensures (q * 256 + r) % (256 * d) == q % d * 256 + r
  {
    var k := q / d;
    assert q == k * d + q % d;
    assert q * 256 + r == k * (256 * d) + (q % d * 256 + r);
    DivModUnique(q * 256 + r, 256 * d, k, q % d * 256 + r);
  }

  lemma {:induction false} ValueBound(s: seq<byte>)
    ensures Value(s) < Span(|s|)
  {
    if s != [] { ValueBound(s[..|s| - 1]); }
  }

  // piece stands in data from offset off on.
  predicate At(data: seq<byte>, off: nat, piece: seq<byte>) {
    off + |piece| <= |data| && data[off..off + |piece|] == piece
  }

  lemma AtSplit(data: seq<byte>, off: nat, p: seq<byte>, q: seq<byte>)
    ensures At(data, off, p + q) <==> At(data, off, p) && At(data, off + |p|, q)
  {
    var mid, end := off + |p|, off + |p| + |q|;
    if end <= |data| {
      assert data[off..end] == data[off..mid] + data[mid..end];
      assert (p + q)[..|p|] == p && (p + q)[|p|..] == q;
      assert (data[off..mid] + data[mid..end])[..|p|] == data[off..mid];
      assert (data[off..mid] + data[mid..end])[|p|..] == data[mid..end];
    }
  }

  lemma AtSlice(data: seq<byte>, off: nat, piece: seq<byte>)
    requires At(data, off, piece)
    ensures off + |piece| <= |data| && data[off..off + |piece|] == piece
  {
  }

  lemma AtBound(data: seq<byte>, off: nat, piece: seq<byte>)
    requires At(data, off, piece)
    ensures off + |piece| <= |data|
  {
  }

  lemma AtWhole(data: seq<byte>)
    ensures At(data, 0, data)
  {
  }

  lemma AtLonger(data: seq<byte>, off: nat, piece: seq<byte>, more: seq<byte>)
    requires At(data, off, piece)
    ensures At(data + more, off, piece)
  {
    assert (data + more)[off..off + |piece|] == data[off..off + |piece|];
  }

  lemma AtInside(data: seq<byte>, off: nat, piece: seq<byte>, inner: nat, part: seq<byte>)
    requires At(data, off, piece) && At(piece, inner, part)
    ensures At(data, off + inner, part)
  {
    hide At;
    AtBound(piece, inner, part);
    var pre, post := piece[..inner], piece[inner + |part|..];
    AtSlice(piece, inner, part);
    assert piece == pre + part + post;
    AtSplit(data, off, pre + part, post);
    AtSplit(data, off, pre, part);
  }

  // A cut keeps what lies before it.
  lemma AtCut(data: seq<byte>, off: nat, piece: seq<byte>, k: nat)
    requires At(data, off, piece) && off + |piece| <= k <= |data|
    ensures At(data[..k], off, piece)
  {
  }

  lemma AtEnd(p: seq<byte>, q: seq<byte>)
    ensures At(p + q, |p|, q)
  {
  }

  // A field of w bytes that holds n.
  lemma ValueAt(data: seq<byte>, off: nat, n: nat, w: nat)
    requires n < Span(w) && At(data, off, BigEndian(n, w))
    ensures off + w <= |data| && Value(data[off..off + w]) == n
  {
    ValueOf(n, w);
  }

  // Writes a field into a buffer.
  method Put(buf: array<byte>, offset: nat, field: seq<byte>)
    requires offset + |field| <= buf.Length
    modifies buf
    ensures buf[..offset + |field|] == old(buf[..offset]) + field
    ensures buf[offset + |field|..] == old(buf[offset + |field|..])
  {
    var i := 0;
    while i < |field|
      invariant 0 <= i <= |field|
      invariant buf[..offset + i] == old(buf[..offset]) + field[..i]
      invariant buf[offset + |field|..] == old(buf[offset + |field|..])
    {
      buf[offset + i] := field[i];
      i := i + 1;
    }
  }

  // Byte i of a field of w bytes holds the digit of 256^(w - 1 - i): the most significant comes first.
  lemma {:induction false} BigEndianDigit(n: nat, w: nat, i: nat)
    requires i < w
    ensures BigEndian(n, w)[i] == n / Span(w - 1 - i) % 256
  {
    if i < w - 1 {
      BigEndianDigit(n / 256, w - 1, i);
      DivideTwice(n, 256, Span(w - 2 - i));
    }
  }

  lemma DivideTwice(n: nat, a: nat, b: nat)
    requires a > 0 && b > 0
    ensures a * b > 0 && n / a / b == n / (a * b)
  {
    var q, r1 := n / a, n % a;
    var k, r2 := q / b, q % b;
    Combine(a, b, q, r1, k, r2);
    assert n == a * q + r1;
    DivModUnique(n, a * b, k, r1 + a * r2);
  }

  lemma Combine(a: nat, b: nat, q: nat, r1: nat, k: nat, r2: nat)
    requires 0 <= r1 < a && 0 <= r2 < b && q == b * k + r2
    ensures a * b > 0 && a * q + r1 == k * (a * b) + (r1 + a * r2) && 0 <= r1 + a * r2 < a * b
  {
    assert a * q == a * (b * k) + a * r2;
    assert a * (b * k) == k * (a * b);
    assert a * b == a * r2 + a * (b - r2);
    Scaled(b - r2, a);
    assert a * (b - r2) == (b - r2) * a;
    assert a * r2 >= 0;
  }
}
