/** Decoding gives back what encoding carries. */
module EnvelopeProofs {
  import opened Bytes
  import opened RaftTypes
  import opened Envelopes

  // --- headers ---

  predicate KeysFit(h: Headers) { forall k :: k in h ==> |k| <= 65535 }

  predicate Sizes(h: Headers, order: seq<Text>) {
    forall i :: 0 <= i < |order| ==> order[i] in h && |order[i]| < Span(2) && |h[order[i]]| < Span(4)
  }

  function Inserted(acc: Headers, h: Headers, order: seq<Text>): Headers
    requires forall i :: 0 <= i < |order| ==> order[i] in h
    decreases |order|
  {
    if order == [] then acc else Inserted(acc[order[0] := h[order[0]]], h, order[1..])
  }

  lemma {:induction false} InsertedAll(acc: Headers, h: Headers, order: seq<Text>)
    requires forall i :: 0 <= i < |order| ==> order[i] in h
    ensures forall k :: k in Inserted(acc, h, order) <==> k in acc || k in order
    ensures forall k :: k in Inserted(acc, h, order) ==> Inserted(acc, h, order)[k] == if k in order then h[k] else acc[k]
    decreases |order|
  {
    if order != [] {
      InsertedAll(acc[order[0] := h[order[0]]], h, order[1..]);
      assert order == [order[0]] + order[1..];
    }
  }

  lemma {:induction false} HeadersFront(h: Headers, order: seq<Text>)
    requires order != [] && forall i :: 0 <= i < |order| ==> order[i] in h
    ensures EncodeHeaders(h, order) == EncodeHeader(order[0], h[order[0]]) + EncodeHeaders(h, order[1..])
  {
    hide EncodeHeader;
    var n := |order| - 1;
    if n > 0 {
      HeadersFront(h, order[..n]);
      assert order[..n][1..] == order[1..][..n - 1];
    } else {
      assert EncodeHeaders(h, order[..n]) == [] == EncodeHeaders(h, order[1..]);
    }
  }

  // One header is read back.
  lemma HeaderBack(data: seq<byte>, pos: nat, k: Text, v: seq<byte>, acc: Headers)
    requires |k| < Span(2) && |v| < Span(4) && At(data, pos, EncodeHeader(k, v))
    ensures DecodeHeaders(data, pos, acc) == DecodeHeaders(data, pos + |EncodeHeader(k, v)|, acc[k := v])
  {
    hide At, Value, BigEndian, Span;
    var kl, vl := BigEndian(|k|, 2), BigEndian(|v|, 4);
    AtSplit(data, pos, kl + k + vl, v);
    AtSplit(data, pos, kl + k, vl);
    AtSplit(data, pos, kl, k);
    ValueAt(data, pos, |k|, 2);
    ValueAt(data, pos + 2 + |k|, |v|, 4);
    AtSlice(data, pos + 2, k);
    AtSlice(data, pos + 2 + |k| + 4, v);
  }

  lemma {:induction false} HeadersBack(data: seq<byte>, pos: nat, h: Headers, order: seq<Text>, acc: Headers)
    requires Sizes(h, order) && At(data, pos, EncodeHeaders(h, order)) && pos + |EncodeHeaders(h, order)| == |data|
    ensures DecodeHeaders(data, pos, acc) == Inserted(acc, h, order)
    decreases |order|
  {
    hide At, EncodeHeaders, EncodeHeader, DecodeHeaders, Span;
    if order == [] {
      NoHeaders(data, h, acc);
    } else {
      var k, rest := order[0], order[1..];
      HeadersFront(h, order);
      AtSplit(data, pos, EncodeHeader(k, h[k]), EncodeHeaders(h, rest));
      HeaderBack(data, pos, k, h[k], acc);
      HeadersBack(data, pos + |EncodeHeader(k, h[k])|, h, rest, acc[k := h[k]]);
    }
  }

  lemma NoHeaders(data: seq<byte>, h: Headers, acc: Headers)
    ensures EncodeHeaders(h, []) == [] && DecodeHeaders(data, |data|, acc) == acc
  {
  }

  // Whatever order the headers were written in, the same map comes back.
  lemma HeadersRoundTrip(h: Headers, order: seq<Text>)
    requires Walk(h, order) && Sizes(h, order)
    ensures DecodeHeaders(EncodeHeaders(h, order), 0, map[]) == h
  {
    hide DecodeHeaders, EncodeHeaders, At, Sizes;
    var data := EncodeHeaders(h, order);
    AtWhole(data);
    HeadersBack(data, 0, h, order, map[]);
    InsertedAll(map[], h, order);
    assert Inserted(map[], h, order) == h;
  }

  // Decoded keys are never longer than 65535 bytes.
  lemma {:induction false} DecodedKeysFit(data: seq<byte>, pos: nat, acc: Headers)
    requires KeysFit(acc)
    ensures KeysFit(DecodeHeaders(data, pos, acc))
    decreases |data| - pos
  {
    hide Value;
    if pos + 2 <= |data| {
      ValueBound(data[pos..pos + 2]);
      Spans();
      var p := pos + 2 + Value(data[pos..pos + 2]);
      if p + 4 <= |data| && p + 4 + Value(data[p..p + 4]) <= |data| {
        var next := p + 4 + Value(data[p..p + 4]);
        DecodedKeysFit(data, next, acc[data[pos + 2..p] := data[p + 4..next]]);
      }
    }
  }

  // --- the fixed part ---

  lemma SignedBack(x: int)
    requires Int64(x)
    ensures Unsigned(x) < Span(8) && Signed(Unsigned(x)) == x
  {
    Spans();
  }

  lemma FlagBits(e: Envelope)
    ensures Bit(Flags(e), 1) == (e.headers != map[]) && Bit(Flags(e), 2) == (e.routingKey != [])
    ensures Bit(Flags(e), 4) == HasTrace(e) && Bit(Flags(e), 8) == (e.ttl > 0) && Bit(Flags(e), 16) == (e.deliverAt > 0)
  {
  }

  lemma IdentityBack(data: seq<byte>, e: Envelope)
    requires WellTyped(e) && At(data, 0, Identity(e))
    ensures |data| >= 40 && data[0..16] == e.messageId && Signed(Value(data[16..24])) == e.timestamp && Value(data[24..32]) == e.sequence
    ensures Value(data[32..36]) == e.partitionId && Value(data[36..40]) == e.schemaId
  {
    hide At, Value, BigEndian, Span, Signed, Unsigned;
    var time, sequence, partition, schema :=
      BigEndian(Unsigned(e.timestamp), 8), BigEndian(e.sequence, 8), BigEndian(e.partitionId, 4), BigEndian(e.schemaId, 4);
    AtSplit(data, 0, e.messageId + time + sequence + partition, schema);
    AtSplit(data, 0, e.messageId + time + sequence, partition);
    AtSplit(data, 0, e.messageId + time, sequence);
    AtSplit(data, 0, e.messageId, time);
    AtSlice(data, 0, e.messageId);
    SignedBack(e.timestamp);
    ValueAt(data, 16, Unsigned(e.timestamp), 8);
    ValueAt(data, 24, e.sequence, 8);
    ValueAt(data, 32, e.partitionId, 4);
    ValueAt(data, 36, e.schemaId, 4);
  }

  lemma KindsBack(data: seq<byte>, e: Envelope)
    requires At(data, 40, Kinds(e))
    ensures |data| >= 44 && data[40] == e.priority && data[41] == e.encoding && data[42] == e.sourceProto && data[43] == Flags(e)
  {
    hide Flags;
    AtSlice(data, 40, Kinds(e));
    assert forall i :: 0 <= i < 4 ==> data[40 + i] == data[40..44][i];
    assert data[40 + 0] == Kinds(e)[0] && data[40 + 1] == Kinds(e)[1] && data[40 + 2] == Kinds(e)[2] && data[40 + 3] == Kinds(e)[3];
  }

  lemma LengthsBack(data: seq<byte>, e: Envelope, headersLen: nat)
    requires At(data, 44, Lengths(e, headersLen))
    requires |e.payload| < Span(4) && headersLen < Span(4) && |e.topic| < Span(2) && |e.routingKey| < Span(2)
    ensures |data| >= 56 && Value(data[44..48]) == |e.payload| && Value(data[48..52]) == headersLen
    ensures Value(data[52..54]) == |e.topic| && Value(data[54..56]) == |e.routingKey|
  {
    hide At, Value, BigEndian, Span;
    var payload, headers, topic, key :=
      BigEndian(|e.payload|, 4), BigEndian(headersLen, 4), BigEndian(|e.topic|, 2), BigEndian(|e.routingKey|, 2);
    AtSplit(data, 44, payload + headers + topic, key);
    AtSplit(data, 44, payload + headers, topic);
    AtSplit(data, 44, payload, headers);
    ValueAt(data, 44, |e.payload|, 4);
    ValueAt(data, 48, headersLen, 4);
    ValueAt(data, 52, |e.topic|, 2);
    ValueAt(data, 54, |e.routingKey|, 2);
  }

  lemma DeliveryBack(data: seq<byte>, e: Envelope)
    requires WellTyped(e) && At(data, 56, Delivery(e))
    ensures |data| >= 64
    ensures e.ttl > 0 ==> Signed(Value(data[56..64])) == e.ttl
    ensures e.ttl <= 0 && e.deliverAt > 0 ==> Signed(Value(data[56..64])) == e.deliverAt
    ensures e.ttl <= 0 && e.deliverAt <= 0 ==> Value(data[56..60]) == e.deliverCount && Value(data[60..64]) == e.maxRetries
  {
    hide At, Value, BigEndian, Span, Signed, Unsigned;
    if e.ttl > 0 {
      SignedBack(e.ttl);
      ValueAt(data, 56, Unsigned(e.ttl), 8);
    } else if e.deliverAt > 0 {
      SignedBack(e.deliverAt);
      ValueAt(data, 56, Unsigned(e.deliverAt), 8);
    } else {
      AtSplit(data, 56, BigEndian(e.deliverCount, 4), BigEndian(e.maxRetries, 4));
      ValueAt(data, 56, e.deliverCount, 4);
      ValueAt(data, 60, e.maxRetries, 4);
    }
  }

  lemma FixedSplit(data: seq<byte>, e: Envelope, headersLen: nat)
    requires WellTyped(e) && At(data, 0, Fixed(e, headersLen))
    ensures At(data, 0, Identity(e)) && At(data, 40, Kinds(e)) && At(data, 44, Lengths(e, headersLen)) && At(data, 56, Delivery(e))
  {
    hide At, Identity, Kinds, Lengths, Delivery, WellTyped;
    AtSplit(data, 0, Identity(e) + Kinds(e) + Lengths(e, headersLen), Delivery(e));
    AtSplit(data, 0, Identity(e) + Kinds(e), Lengths(e, headersLen));
    AtSplit(data, 0, Identity(e), Kinds(e));
  }

  // The part of an envelope that the fixed header carries.
  function Head(e: Envelope): Envelope {
    Carried(e).(topic := [], routingKey := [], headers := map[], payload := [], traceId := TRACE_NONE, spanId := SPAN_NONE)
  }

  lemma FixedBack(data: seq<byte>, e: Envelope, headersLen: nat)
    requires WellTyped(e) && At(data, 0, Fixed(e, headersLen)) && |data| >= FIXED_HEADER_SIZE
    ensures DecodeFixed(data) == Head(e) && data[43] == Flags(e)
  {
    hide At, Identity, Kinds, Lengths, Delivery, Value, Signed, Span, Bit, Flags, HasTrace;
    FixedSplit(data, e, headersLen);
    IdentityBack(data, e);
    KindsBack(data, e);
    DeliveryBack(data, e);
    FlagBits(e);
  }

  // --- the variable part ---

  lemma PartsAt(e: Envelope, order: seq<Text>)
    requires WellTyped(e) && Walk(e.headers, order)
    ensures var data, h := Encode(e, order), EncodeHeaders(e.headers, order);
            var p1 := FIXED_HEADER_SIZE + |e.topic|;
            var p2 := p1 + |e.routingKey|;
            var p3 := p2 + |h|;
            && At(data, 0, Fixed(e, |h|)) && At(data, FIXED_HEADER_SIZE, e.topic) && At(data, p1, e.routingKey)
            && At(data, p2, h) && At(data, p3, Trace(e)) && At(data, p3 + |Trace(e)|, e.payload)
            && |data| == p3 + |Trace(e)| + |e.payload|
  {
    hide At, Fixed, EncodeHeaders, Trace, WellTyped;
    var h := EncodeHeaders(e.headers, order);
    var f, t := Fixed(e, |h|), Trace(e);
    var data := f + e.topic + e.routingKey + h + t + e.payload;
    assert data == Encode(e, order);
    AtWhole(data);
    AtSplit(data, 0, f + e.topic + e.routingKey + h + t, e.payload);
    AtSplit(data, 0, f + e.topic + e.routingKey + h, t);
    AtSplit(data, 0, f + e.topic + e.routingKey, h);
    AtSplit(data, 0, f + e.topic, e.routingKey);
    AtSplit(data, 0, f, e.topic);
  }

  lemma TraceBack(data: seq<byte>, p: nat, e: Envelope)
    requires WellTyped(e) && At(data, p, Trace(e)) && HasTrace(e)
    ensures |Trace(e)| == 24 && p + 24 <= |data| && data[p..p + 16] == e.traceId && data[p + 16..p + 24] == e.spanId
  {
    hide At;
    AtSplit(data, p, e.traceId, e.spanId);
    AtSlice(data, p, e.traceId);
    AtSlice(data, p + 16, e.spanId);
  }

  // What DecodeRest finds, with the headers as they are decoded.
  lemma RestBack(e: Envelope, order: seq<Text>)
    requires WellTyped(e) && Walk(e.headers, order)
    ensures var data, h := Encode(e, order), EncodeHeaders(e.headers, order);
            DecodeRest(data, Head(e), Flags(e), |e.payload|, |h|, |e.topic|, |e.routingKey|)
            == Some(Carried(e).(headers := if |h| > 0 then DecodeHeaders(h, 0, map[]) else map[]))
  {
    hide At, Encode, EncodeHeaders, DecodeHeaders, Flags, Bit, HasTrace, WellTyped, Fixed;
    var data, h := Encode(e, order), EncodeHeaders(e.headers, order);
    PartsAt(e, order);
    FlagBits(e);
    var p1 := FIXED_HEADER_SIZE + |e.topic|;
    var p2 := p1 + |e.routingKey|;
    AtSlice(data, FIXED_HEADER_SIZE, e.topic);
    AtSlice(data, p1, e.routingKey);
    AtSlice(data, p2, h);
    AtSlice(data, p2 + |h| + |Trace(e)|, e.payload);
    if HasTrace(e) { TraceBack(data, p2 + |h|, e); } else { NoTrace(e); }
  }

  lemma NoTrace(e: Envelope)
    requires !HasTrace(e)
    ensures e.traceId == TRACE_NONE && Trace(e) == []
  {
  }

  // --- the round trip ---

  lemma {:induction false} PieceBound(h: Headers, order: seq<Text>, i: nat)
    requires i < |order| && forall j :: 0 <= j < |order| ==> order[j] in h
    ensures |h[order[i]]| <= |EncodeHeaders(h, order)| && 0 < |EncodeHeaders(h, order)|
  {
    var n := |order| - 1;
    if i < n { PieceBound(h, order[..n], i); }
  }

  lemma AcceptedSizes(e: Envelope, order: seq<Text>)
    requires WellTyped(e) && Walk(e.headers, order) && Accepts(e, order)
    ensures |e.payload| < Span(4) && |EncodeHeaders(e.headers, order)| < Span(4) && |e.topic| < Span(2) && |e.routingKey| < Span(2)
    ensures KeysFit(e.headers) ==> Sizes(e.headers, order)
    ensures |EncodeHeaders(e.headers, order)| == 0 ==> e.headers == map[]
  {
    hide Span, WellTyped, EncodeHeaders;
    Spans();
    PartsAt(e, order);
    forall i | 0 <= i < |order| ensures |e.headers[order[i]]| < Span(4) && |EncodeHeaders(e.headers, order)| > 0 {
      PieceBound(e.headers, order, i);
    }
    if order == [] { assert e.headers == map[]; } else { assert order[0] in e.headers; }
  }

  lemma DecodeBack(e: Envelope, order: seq<Text>)
    requires WellTyped(e) && Walk(e.headers, order) && Accepts(e, order)
    ensures var h := EncodeHeaders(e.headers, order);
            Decode(Encode(e, order)) == Some(Carried(e).(headers := if |h| > 0 then DecodeHeaders(h, 0, map[]) else map[]))
  {
    hide At, Accepts, Encode, EncodeHeaders, DecodeHeaders, Flags, WellTyped, Fixed, DecodeRest, DecodeFixed, Head, Carried, Value, Span, KeysFit, Sizes;
    var data, h := Encode(e, order), EncodeHeaders(e.headers, order);
    PartsAt(e, order);
    AcceptedSizes(e, order);
    FixedBack(data, e, |h|);
    FixedSplit(data, e, |h|);
    LengthsBack(data, e, |h|);
    RestBack(e, order);
  }

  // An accepted message comes back as what is carried of it, whatever the order of its headers,
  // exactly if no header key is longer than 65535 bytes.
  lemma RoundTrip(e: Envelope, order: seq<Text>)
    requires WellTyped(e) && Walk(e.headers, order) && Accepts(e, order)
    ensures Decode(Encode(e, order)) == Some(Carried(e)) <==> KeysFit(e.headers)
  {
    hide Accepts, Encode, EncodeHeaders, DecodeHeaders, WellTyped, HasTrace, Decode, Sizes;
    var h := EncodeHeaders(e.headers, order);
    DecodeBack(e, order);
    AcceptedSizes(e, order);
    if KeysFit(e.headers) {
      HeadersRoundTrip(e.headers, order);
    } else {
      DecodedKeysFit(h, 0, map[]);
    }
  }

  // An otherwise empty message with one long header key is accepted and comes back as something else.
  lemma LongKeyLost(k: Text)
    requires 65535 < |k| <= 1_000_000
    ensures var e := Envelope(TRACE_NONE, 0, 0, [], 0, [], map[k := []], 0, [], 0, [], 0, 0, 0, 0, 0, TRACE_NONE, SPAN_NONE, 0);
            WellTyped(e) && Walk(e.headers, [k]) && Accepts(e, [k]) && Decode(Encode(e, [k])) != Some(Carried(e))
  {
    hide Encode, Decode, EncodeHeaders, Carried, At, Fixed;
    var e := Envelope(TRACE_NONE, 0, 0, [], 0, [], map[k := []], 0, [], 0, [], 0, 0, 0, 0, 0, TRACE_NONE, SPAN_NONE, 0);
    Spans();
    PartsAt(e, [k]);
    OneHeader(e.headers, k);
    RoundTrip(e, [k]);
    assert k in e.headers && !KeysFit(e.headers);
  }

  lemma OneHeader(h: Headers, k: Text)
    requires k in h
    ensures |EncodeHeaders(h, [k])| == 6 + |k| + |h[k]|
  {
    assert [k][..0] == [];
    assert EncodeHeaders(h, [k][..0]) == [];
  }

  // Every strict prefix of an accepted message is refused.
  lemma TruncationDetected(e: Envelope, order: seq<Text>, k: nat)
    requires WellTyped(e) && Walk(e.headers, order) && Accepts(e, order) && k < |Encode(e, order)|
    ensures Decode(Encode(e, order)[..k]) == None
  {
    hide At, Accepts, Encode, EncodeHeaders, DecodeHeaders, Flags, Bit, WellTyped, Fixed, DecodeFixed, Value, Span, KeysFit, Sizes, HasTrace;
    var data, h := Encode(e, order), EncodeHeaders(e.headers, order);
    PartsAt(e, order);
    AcceptedSizes(e, order);
    if k >= FIXED_HEADER_SIZE {
      AtCut(data, 0, Fixed(e, |h|), k);
      FixedSplit(data[..k], e, |h|);
      KindsBack(data[..k], e);
      LengthsBack(data[..k], e, |h|);
      FlagBits(e);
      TraceLength(e);
    }
  }

  lemma TraceLength(e: Envelope)
    requires WellTyped(e)
    ensures |Trace(e)| == if HasTrace(e) then 24 else 0
  {
  }

  // A header is written as the length of its key, the key, the length of its value and the value.
  lemma HeaderLayout(k: Text, v: seq<byte>)
    ensures var s := EncodeHeader(k, v);
            At(s, 0, BigEndian(|k|, 2)) && At(s, 2, k) && At(s, 2 + |k|, BigEndian(|v|, 4)) && At(s, 6 + |k|, v) && |s| == 6 + |k| + |v|
  {
    hide BigEndian, At;
    var kl, vl := BigEndian(|k|, 2), BigEndian(|v|, 4);
    var s := kl + k + vl + v;
    AtWhole(s);
    AtSplit(s, 0, kl + k + vl, v);
    AtSplit(s, 0, kl + k, vl);
    AtSplit(s, 0, kl, k);
  }
}
