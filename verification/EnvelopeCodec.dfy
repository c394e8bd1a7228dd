/** internal/message/codec.go and headers.go: the loops and buffers behind the binary form. */
module EnvelopeCodec {
  import opened Bytes
  import opened RaftTypes
  import opened Envelopes
  import opened EnvelopeProofs

  method HeadersSize(h: Headers, order: seq<Text>) returns (size: nat)
    requires Walk(h, order)
    ensures size == |EncodeHeaders(h, order)|
  {
    hide BigEndian;
    size := 0;
    for i := 0 to |order|
      invariant size == |EncodeHeaders(h, order[..i])|
    {
      assert order[..i + 1][..i] == order[..i];
      size := size + 2 + |order[i]| + 4 + |h[order[i]]|;
    }
    assert order[..|order|] == order;
  }

  method MarshalHeadersTo(buf: array<byte>, offset: nat, h: Headers, order: seq<Text>) returns (pos: nat)
    requires Walk(h, order) && offset + |EncodeHeaders(h, order)| <= buf.Length
    modifies buf
    ensures pos == offset + |EncodeHeaders(h, order)|
    ensures buf[..pos] == old(buf[..offset]) + EncodeHeaders(h, order)
  {
    hide BigEndian, EncodeHeaders, EncodeHeader;
    pos := offset;
    NothingWritten(h, order);
    for i := 0 to |order|
      invariant pos == offset + |EncodeHeaders(h, order[..i])| <= buf.Length
      invariant buf[..pos] == old(buf[..offset]) + EncodeHeaders(h, order[..i])
    {
      WrittenSoFar(h, order, i);
      pos := PutHeader(buf, pos, order[i], h[order[i]]);
    }
    assert order[..|order|] == order;
  }

  method PutHeader(buf: array<byte>, offset: nat, k: Text, v: seq<byte>) returns (pos: nat)
    requires offset + |EncodeHeader(k, v)| <= buf.Length
    modifies buf
    ensures pos == offset + |EncodeHeader(k, v)| && buf[..pos] == old(buf[..offset]) + EncodeHeader(k, v)
  {
    hide BigEndian;
    pos := offset;
    Put(buf, pos, BigEndian(|k|, 2));
    pos := pos + 2;
    Put(buf, pos, k);
    pos := pos + |k|;
    Put(buf, pos, BigEndian(|v|, 4));
    pos := pos + 4;
    Put(buf, pos, v);
    pos := pos + |v|;
  }

  lemma NothingWritten(h: Headers, order: seq<Text>)
    requires Walk(h, order)
    ensures EncodeHeaders(h, order[..0]) == []
  {
  }

  lemma {:induction false} WrittenSoFar(h: Headers, order: seq<Text>, i: nat)
    requires Walk(h, order) && i < |order|
    ensures EncodeHeaders(h, order[..i + 1]) == EncodeHeaders(h, order[..i]) + EncodeHeader(order[i], h[order[i]])
    ensures |EncodeHeaders(h, order[..i + 1])| <= |EncodeHeaders(h, order)|
    decreases |order| - i
  {
    hide EncodeHeader;
    assert order[..i + 1][..i] == order[..i];
    if i + 1 < |order| { WrittenSoFar(h, order, i + 1); } else { assert order[..i + 1] == order; }
  }

  // The fixed part, field by field.
  method PutFixed(buf: array<byte>, e: Envelope, headersLen: nat)
    requires WellTyped(e) && FIXED_HEADER_SIZE <= buf.Length
    modifies buf
    ensures buf[..FIXED_HEADER_SIZE] == Fixed(e, headersLen)
  {
    hide Identity, Kinds, Lengths, Delivery;
    PutIdentity(buf, e);
    PutKinds(buf, e);
    PutLengths(buf, e, headersLen);
    PutDelivery(buf, e);
  }

  method PutIdentity(buf: array<byte>, e: Envelope)
    requires WellTyped(e) && FIXED_HEADER_SIZE <= buf.Length
    modifies buf
    ensures buf[..40] == Identity(e)
  {
    hide BigEndian, Unsigned;
    Put(buf, 0, e.messageId);
    Put(buf, 16, BigEndian(Unsigned(e.timestamp), 8));
    Put(buf, 24, BigEndian(e.sequence, 8));
    Put(buf, 32, BigEndian(e.partitionId, 4));
    Put(buf, 36, BigEndian(e.schemaId, 4));
  }

  method PutKinds(buf: array<byte>, e: Envelope)
    requires FIXED_HEADER_SIZE <= buf.Length
    modifies buf
    ensures buf[..44] == old(buf[..40]) + Kinds(e)
  {
    var flags := 0;
    if |e.headers| > 0 { flags := flags + 1; }
    if e.routingKey != [] { flags := flags + 2; }
    if e.traceId != TRACE_NONE { flags := flags + 4; }
    if e.ttl > 0 { flags := flags + 8; }
    if e.deliverAt > 0 { flags := flags + 16; }
    Put(buf, 40, [e.priority]);
    Put(buf, 41, [e.encoding]);
    Put(buf, 42, [e.sourceProto]);
    Put(buf, 43, [flags]);
  }

  method PutLengths(buf: array<byte>, e: Envelope, headersLen: nat)
    requires FIXED_HEADER_SIZE <= buf.Length
    modifies buf
    ensures buf[..56] == old(buf[..44]) + Lengths(e, headersLen)
  {
    hide BigEndian;
    Put(buf, 44, BigEndian(|e.payload|, 4));
    Put(buf, 48, BigEndian(headersLen, 4));
    Put(buf, 52, BigEndian(|e.topic|, 2));
    Put(buf, 54, BigEndian(|e.routingKey|, 2));
  }

  method PutDelivery(buf: array<byte>, e: Envelope)
    requires WellTyped(e) && FIXED_HEADER_SIZE <= buf.Length
    modifies buf
    ensures buf[..64] == old(buf[..56]) + Delivery(e)
  {
    hide BigEndian, Unsigned;
    if e.ttl > 0 {
      Put(buf, 56, BigEndian(Unsigned(e.ttl), 8));
    } else if e.deliverAt > 0 {
      Put(buf, 56, BigEndian(Unsigned(e.deliverAt), 8));
    } else {
      Put(buf, 56, BigEndian(e.deliverCount, 4));
      Put(buf, 60, BigEndian(e.maxRetries, 4));
    }
  }

  // Marshal. recycled is a buffer from the pool with whatever it held before: nothing of that shows in the result.
  method Marshal(e: Envelope, order: seq<Text>, recycled: array<byte>) returns (result: Option<seq<byte>>)
    requires WellTyped(e) && Walk(e.headers, order)
    modifies recycled
    ensures result == if Accepts(e, order) then Some(Encode(e, order)) else None
  {
    hide WellTyped, EncodeHeaders, Fixed, At, HasTrace, TRACE_NONE;
    PartsAt(e, order);
    TraceLength(e);
    if |e.topic| > 65535 { return None; }
    if |e.routingKey| > 65535 { return None; }
    if |e.payload| > 0xFFFF_FFFF { return None; }
    var hdrSize := HeadersSize(e.headers, order);
    var size := FIXED_HEADER_SIZE + |e.topic| + |e.routingKey| + |e.payload| + hdrSize;
    if HasTrace(e) { size := size + 24; }
    if size > MAX_MESSAGE_SIZE { return None; }
    var buf := recycled;
    if buf.Length < size { buf := new byte[size](_ => 0); }
    PutAll(buf, e, order, hdrSize, size);
    return Some(buf[..size]);
  }

  method PutAll(buf: array<byte>, e: Envelope, order: seq<Text>, hdrSize: nat, size: nat)
    requires WellTyped(e) && Walk(e.headers, order) && hdrSize == |EncodeHeaders(e.headers, order)|
    requires size == |Encode(e, order)| <= buf.Length
    modifies buf
    ensures buf[..size] == Encode(e, order)
  {
    hide WellTyped, EncodeHeaders, Fixed, At, HasTrace;
    PartsAt(e, order);
    TraceLength(e);
    PutFixed(buf, e, hdrSize);
    var pos := FIXED_HEADER_SIZE;
    Put(buf, pos, e.topic);
    pos := pos + |e.topic|;
    if e.routingKey != [] {
      Put(buf, pos, e.routingKey);
      pos := pos + |e.routingKey|;
    }
    assert buf[..pos] == Fixed(e, hdrSize) + e.topic + e.routingKey;
    if hdrSize > 0 { pos := MarshalHeadersTo(buf, pos, e.headers, order); }
    assert buf[..pos] == Fixed(e, hdrSize) + e.topic + e.routingKey + EncodeHeaders(e.headers, order);
    pos := PutTrace(buf, pos, e);
    Put(buf, pos, e.payload);
  }

  method PutTrace(buf: array<byte>, offset: nat, e: Envelope) returns (pos: nat)
    requires WellTyped(e) && offset + |Trace(e)| <= buf.Length
    modifies buf
    ensures pos == offset + |Trace(e)| && buf[..pos] == old(buf[..offset]) + Trace(e)
  {
    pos := offset;
    if e.traceId != TRACE_NONE {
      Put(buf, pos, e.traceId);
      pos := pos + 16;
      Put(buf, pos, e.spanId);
      pos := pos + 8;
    }
  }

  method UnmarshalHeaders(data: seq<byte>) returns (h: Headers)
    ensures h == DecodeHeaders(data, 0, map[])
  {
    hide Value;
    h := map[];
    var pos := 0;
    while pos < |data|
      invariant DecodeHeaders(data, pos, h) == DecodeHeaders(data, 0, map[])
      decreases |data| - pos
    {
      if pos + 2 > |data| { break; }
      var keyLen := Value(data[pos..pos + 2]);
      var p := pos + 2;
      if p + keyLen > |data| { break; }
      var key := data[p..p + keyLen];
      p := p + keyLen;
      if p + 4 > |data| { break; }
      var valLen := Value(data[p..p + 4]);
      p := p + 4;
      if p + valLen > |data| { break; }
      h := h[key := data[p..p + valLen]];
      pos := p + valLen;
    }
  }

  method Unmarshal(data: seq<byte>) returns (result: Option<Envelope>)
    ensures result == Decode(data)
  {
    hide Value, DecodeHeaders, DecodeFixed, Bit;
    if |data| < FIXED_HEADER_SIZE { return None; }
    var e := DecodeFixed(data);
    var flags := data[43];
    var payloadLen, headersLen, topicLen, rkLen := Value(data[44..48]), Value(data[48..52]), Value(data[52..54]), Value(data[54..56]);
    var pos := FIXED_HEADER_SIZE;
    if topicLen > |data| - pos { return None; }
    e := e.(topic := data[pos..pos + topicLen]);
    pos := pos + topicLen;
    var routingKey: Text := [];
    assert data[pos..pos] == [];
    if rkLen > 0 {
      if rkLen > |data| - pos { return None; }
      routingKey := data[pos..pos + rkLen];
      pos := pos + rkLen;
    }
    var headers: Headers := map[];
    if headersLen > 0 {
      if headersLen > |data| - pos { return None; }
      headers := UnmarshalHeaders(data[pos..pos + headersLen]);
      pos := pos + headersLen;
    }
    var traceId, spanId := TRACE_NONE, SPAN_NONE;
    if Bit(flags, 4) {
      if pos + 24 > |data| { return None; }
      traceId, spanId := data[pos..pos + 16], data[pos + 16..pos + 24];
      pos := pos + 24;
    }
    if payloadLen > |data| - pos { return None; }
    return Some(e.(routingKey := routingKey, headers := headers, traceId := traceId, spanId := spanId,
                   payload := data[pos..pos + payloadLen]));
  }
}
