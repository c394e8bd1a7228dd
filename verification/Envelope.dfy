/** internal/message/codec.go, headers.go and envelope.go: the binary form of a message. */
module Envelopes {
  import opened Bytes
  import opened RaftTypes

  const FIXED_HEADER_SIZE := 64
  const MAX_MESSAGE_SIZE := 16 * 1024 * 1024

  // Go strings are byte strings.
  type Text = seq<byte>

  type Headers = map<Text, seq<byte>>

  datatype Envelope = Envelope(
    messageId: seq<byte>, timestamp: int, sequence: nat,
    topic: Text, partitionId: nat, routingKey: Text, headers: Headers,
    schemaId: nat, contentType: Text, encoding: byte, payload: seq<byte>,
    priority: byte, ttl: int, deliverAt: int, deliverCount: nat, maxRetries: nat,
    traceId: seq<byte>, spanId: seq<byte>, sourceProto: byte)

  const TRACE_NONE: seq<byte> := [0, 0, 0, 0, 0, 0, 0, 0, 0, 0, 0, 0, 0, 0, 0, 0]
  const SPAN_NONE: seq<byte> := [0, 0, 0, 0, 0, 0, 0, 0]

  predicate Int64(x: int) { -0x8000_0000_0000_0000 <= x < 0x8000_0000_0000_0000 }

  // The ranges of the Go types.
  predicate WellTyped(e: Envelope) {
    && |e.messageId| == 16 && |e.traceId| == 16 && |e.spanId| == 8
    && Int64(e.timestamp) && Int64(e.ttl) && Int64(e.deliverAt)
    && e.sequence < Span(8) && e.partitionId < Span(4) && e.schemaId < Span(4) && e.deliverCount < Span(4) && e.maxRetries < Span(4)
  }

  function Unsigned(x: int): (u: nat)
    requires Int64(x)
  {
    if x < 0 then x + 0x1_0000_0000_0000_0000 else x
  }

  function Signed(u: nat): int { if u < 0x8000_0000_0000_0000 then u else u - 0x1_0000_0000_0000_0000 }

  // --- headers ---

  function EncodeHeader(k: Text, v: seq<byte>): seq<byte> { BigEndian(|k|, 2) + k + BigEndian(|v|, 4) + v }

  // order is the order in which the map happens to be walked.
  function EncodeHeaders(h: Headers, order: seq<Text>): seq<byte>
    requires forall i :: 0 <= i < |order| ==> order[i] in h
  {
    if order == [] then [] else
      EncodeHeaders(h, order[..|order| - 1]) + EncodeHeader(order[|order| - 1], h[order[|order| - 1]])
  }

  predicate Walk(h: Headers, order: seq<Text>) {
    (forall i :: 0 <= i < |order| ==> order[i] in h)
    && (forall i, j :: 0 <= i < j < |order| ==> order[i] != order[j])
    && (forall k :: k in h ==> k in order)
  }

  // Decoding stops at the first piece that is cut short.
  function DecodeHeaders(data: seq<byte>, pos: nat, acc: Headers): Headers
    decreases |data| - pos
  {
    if pos + 2 > |data| then acc else
      var keyLen := Value(data[pos..pos + 2]);
      var p := pos + 2 + keyLen;
      if p + 4 > |data| then acc else
        var valLen := Value(data[p..p + 4]);
        if p + 4 + valLen > |data| then acc
        else DecodeHeaders(data, p + 4 + valLen, acc[data[pos + 2..p] := data[p + 4..p + 4 + valLen]])
  }

  // --- envelopes ---

  predicate HasTrace(e: Envelope) { e.traceId != TRACE_NONE }

  function Flags(e: Envelope): (f: nat)
    ensures f < 32
  {
    (if e.headers != map[] then 1 else 0) + (if e.routingKey != [] then 2 else 0) + (if HasTrace(e) then 4 else 0)
    + (if e.ttl > 0 then 8 else 0) + (if e.deliverAt > 0 then 16 else 0)
  }

  predicate Bit(flags: nat, mask: nat)
    requires mask > 0
  {
    flags / mask % 2 == 1
  }

  function Identity(e: Envelope): (s: seq<byte>)
    requires WellTyped(e)
    ensures |s| == 40
  {
    e.messageId + BigEndian(Unsigned(e.timestamp), 8) + BigEndian(e.sequence, 8) + BigEndian(e.partitionId, 4) + BigEndian(e.schemaId, 4)
  }

  function Kinds(e: Envelope): (s: seq<byte>)
    ensures |s| == 4
  {
    [e.priority, e.encoding, e.sourceProto, Flags(e)]
  }

  function Lengths(e: Envelope, headersLen: nat): (s: seq<byte>)
    ensures |s| == 12
  {
    BigEndian(|e.payload|, 4) + BigEndian(headersLen, 4) + BigEndian(|e.topic|, 2) + BigEndian(|e.routingKey|, 2)
  }

  // Eight bytes that hold the time to live, or else the delivery time, or else the two counters.
  function Delivery(e: Envelope): (s: seq<byte>)
    requires WellTyped(e)
    ensures |s| == 8
  {
    if e.ttl > 0 then BigEndian(Unsigned(e.ttl), 8)
    else if e.deliverAt > 0 then BigEndian(Unsigned(e.deliverAt), 8)
    else BigEndian(e.deliverCount, 4) + BigEndian(e.maxRetries, 4)
  }

  function Fixed(e: Envelope, headersLen: nat): (s: seq<byte>)
    requires WellTyped(e)
    ensures |s| == FIXED_HEADER_SIZE
  {
    Identity(e) + Kinds(e) + Lengths(e, headersLen) + Delivery(e)
  }

  function Trace(e: Envelope): seq<byte> { if HasTrace(e) then e.traceId + e.spanId else [] }

  function Encode(e: Envelope, order: seq<Text>): seq<byte>
    requires WellTyped(e) && Walk(e.headers, order)
  {
    var h := EncodeHeaders(e.headers, order);
    Fixed(e, |h|) + e.topic + e.routingKey + h + Trace(e) + e.payload
  }

  // What Marshal accepts: the checks on lengths, in any order of the headers.
  predicate Accepts(e: Envelope, order: seq<Text>)
    requires WellTyped(e) && Walk(e.headers, order)
  {
    |e.topic| <= 65535 && |e.routingKey| <= 65535 && |e.payload| <= 0xFFFF_FFFF && |Encode(e, order)| <= MAX_MESSAGE_SIZE
  }

  // The variable part, from the lengths in the fixed part on.
  function DecodeRest(data: seq<byte>, e: Envelope, flags: nat, payloadLen: nat, headersLen: nat, topicLen: nat, rkLen: nat): Option<Envelope> {
    var p1 := FIXED_HEADER_SIZE + topicLen;
    var p2 := p1 + rkLen;
    var p3 := p2 + headersLen;
    var p4 := if Bit(flags, 4) then p3 + 24 else p3;
    if p4 + payloadLen > |data| then None
    else
      Some(e.(topic := data[FIXED_HEADER_SIZE..p1], routingKey := data[p1..p2],
              headers := if headersLen > 0 then DecodeHeaders(data[p2..p3], 0, map[]) else map[],
              traceId := if Bit(flags, 4) then data[p3..p3 + 16] else TRACE_NONE,
              spanId := if Bit(flags, 4) then data[p3 + 16..p4] else SPAN_NONE,
              payload := data[p4..p4 + payloadLen]))
  }

  function DecodeFixed(data: seq<byte>): Envelope
    requires |data| >= FIXED_HEADER_SIZE
  {
    var flags := data[43];
    var word := Signed(Value(data[56..64]));
    Envelope(data[0..16], Signed(Value(data[16..24])), Value(data[24..32]), [], Value(data[32..36]), [], map[],
             Value(data[36..40]), [], data[41], [], data[40],
             if Bit(flags, 8) then word else 0,
             if !Bit(flags, 8) && Bit(flags, 16) then word else 0,
             if !Bit(flags, 8) && !Bit(flags, 16) then Value(data[56..60]) else 0,
             if !Bit(flags, 8) && !Bit(flags, 16) then Value(data[60..64]) else 0,
             TRACE_NONE, SPAN_NONE, data[42])
  }

  // A message whose parts do not all fit the data is refused.
  function Decode(data: seq<byte>): Option<Envelope> {
    if |data| < FIXED_HEADER_SIZE then None else
      DecodeRest(data, DecodeFixed(data), data[43],
                 Value(data[44..48]), Value(data[48..52]), Value(data[52..54]), Value(data[54..56]))
  }

  // What of an envelope is carried: no content type, a span only with a trace,
  // and the first of time to live, delivery time and counters that is in use.
  function Carried(e: Envelope): Envelope {
    var f := e.(contentType := [], spanId := if HasTrace(e) then e.spanId else SPAN_NONE);
    if e.ttl > 0 then f.(deliverAt := 0, deliverCount := 0, maxRetries := 0)
    else if e.deliverAt > 0 then f.(ttl := 0, deliverCount := 0, maxRetries := 0)
    else f.(ttl := 0, deliverAt := 0)
  }
}
