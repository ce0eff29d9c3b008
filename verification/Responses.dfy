/** The packets that the client receives: the unpackers, a reference encoder, and stability under chunking. */
module Responses {
  import opened Options
  import opened MqttTypes
  import opened Wire
  import opened FixedHeader
  import opened Packets

  /** A decoded packet. At QoS 0 a PUBLISH has no packet id, and `id` is 0. */
  datatype Response =
    | Connack(sessionPresent: bool, code: nat)
    | Publish(dup: bool, qos: nat, retain: bool, topic: bytes, id: uint16, payload: bytes)
    | Puback(id: uint16)
    | Pubrec(id: uint16)
    | Pubrel(id: uint16)
    | Pubcomp(id: uint16)
    | Suback(id: uint16, codes: bytes)
    | Unsuback(id: uint16)
    | Pingresp

  /**
   The result of the unpacker: more bytes are needed, an error, or a packet and the bytes it consumed.
   `Overrun` marks a PUBLISH whose topic does not fit its remaining length. No such packet is in the
   format, and the source gives it no meaning.
   */
  datatype Parse = More | Bad(err: int) | Overrun | Got(response: Response, size: nat)

  const MAX_CONNACK_CODE := 5

  function UnpackConnack(body: bytes): Parse
    requires |body| == 2
  {
    if body[0] > 1 then Bad(ERROR_CONNACK_FORBIDDEN_FLAGS)
    else if body[1] > MAX_CONNACK_CODE then Bad(ERROR_CONNACK_FORBIDDEN_CODE)
    else Got(Connack(body[0] == 1, body[1]), 2)
  }

  function UnpackPublish(flags: nat, body: bytes): (r: Parse)
    requires flags < 16
  {
    if |body| < 4 then Bad(ERROR_MALFORMED_RESPONSE)
    else
      var qos := Qos(flags);
      var topicSize := ReadUint16(body);
      var at := 2 + topicSize + if qos > 0 then 2 else 0;
      if |body| < at then Overrun
      else
        var id: uint16 := if qos > 0 then ReadUint16(body[2 + topicSize..]) else 0;
        Got(Publish(flags / 8 == 1, qos, flags % 2 == 1, body[2..2 + topicSize], id, body[at..]), |body|)
  }

  function UnpackPubxxx(ctype: nat, body: bytes): Parse
    requires IsPubxxx(ctype)
  {
    if |body| != 2 then Bad(ERROR_MALFORMED_RESPONSE)
    else
      var id := ReadUint16(body);
      Got(if ctype == PUBACK then Puback(id) else if ctype == PUBREC then Pubrec(id)
          else if ctype == PUBREL then Pubrel(id) else Pubcomp(id), 2)
  }

  /** The variable header and payload of a packet, given as exactly `remaining` bytes. */
  function UnpackBody(h: Header, body: bytes): (r: Parse)
    requires Nibbles(h) && |body| == h.remaining
    ensures !r.More? && (r.Got? ==> r.size <= |body|) && (r.Bad? ==> r.err < 0)
  {
    if h.ctype == CONNACK then
      if |body| != 2 then Bad(ERROR_MALFORMED_RESPONSE) else UnpackConnack(body)
    else if h.ctype == PUBLISH then UnpackPublish(h.flags, body)
    else if IsPubxxx(h.ctype) then UnpackPubxxx(h.ctype, body)
    else if h.ctype == SUBACK then
      if |body| < 3 then Bad(ERROR_MALFORMED_RESPONSE) else Got(Suback(ReadUint16(body), body[2..]), |body|)
    else if h.ctype == UNSUBACK then
      if |body| != 2 then Bad(ERROR_MALFORMED_RESPONSE) else Got(Unsuback(ReadUint16(body)), 2)
    else if h.ctype == PINGRESP then Got(Pingresp, 0)
    else Bad(ERROR_RESPONSE_INVALID_CONTROL_TYPE)
  }

  /** One packet off the front of `s`. A PINGRESP consumes its header only. */
  function Unpack(s: bytes): (r: Parse)
    ensures r.Got? ==> 2 <= r.size <= |s|
    ensures r.Bad? ==> r.err < 0
  {
    match DecodeHeader(s)
    case NeedMore => More
    case Rejected(err) => Bad(err)
    case Unpacked(h, size) =>
      match UnpackBody(h, s[size..size + h.remaining])
      case Got(response, n) => Got(response, size + n)
      case other => other
  }

  method UnpackResponse(buf: array<byte>, n: nat) returns (r: Parse)
    requires n <= buf.Length
    ensures r == Unpack(buf[..n])
  {
    var u := UnpackFixedHeader(buf, n);
    match u
    case NeedMore => r := More;
    case Rejected(err) => r := Bad(err);
    case Unpacked(h, size) =>
      assert buf[..n][size..size + h.remaining] == buf[size..size + h.remaining];
      var b := UnpackBody(h, buf[size..size + h.remaining]);
      r := if b.Got? then Got(b.response, size + b.size) else b;
  }

  // ---- Prefixes: a decided parse never changes when more bytes arrive ----

  /** The bytes that the packet at the front of `s` occupies, when its header has arrived. */
  function FrameSize(s: bytes): (n: nat)
    requires DecodeHeader(s).Unpacked?
    ensures 2 <= n <= |s|
  {
    DecodeHeader(s).size + DecodeHeader(s).header.remaining
  }

  lemma UnpackStable(s: bytes, t: bytes)
    requires !Unpack(s).More?
    ensures Unpack(s + t) == Unpack(s)
  {
    HeaderStable(s, t);
    if DecodeHeader(s).Unpacked? {
      var size, n := DecodeHeader(s).size, DecodeHeader(s).header.remaining;
      assert (s + t)[size..size + n] == s[size..size + n];
    }
  }

  /** If m bytes leave the parse undecided, then every frame they turn out to begin is longer than that. */
  lemma UndecidedIsShort(s: bytes, t: bytes)
    requires Unpack(s).More? && DecodeHeader(s + t).Unpacked?
    ensures FrameSize(s + t) > |s|
  {
    assert (s + t)[..|s|] == s;
    if FrameSize(s + t) <= |s| {
      HeaderLocal(s + t, |s|);
    }
  }

  // ---- A reference encoder for the broker's packets, and the round trip ----

  predicate Encodable(r: Response) {
    match r
    case Connack(_, code) => code <= MAX_CONNACK_CODE
    case Publish(_, qos, _, topic, id, payload) =>
      qos < 4 && (qos == 0 ==> id == 0) && |topic| <= MAX_STRING &&
      |topic| + |payload| + 2 + (if qos == 0 then 0 else 2) < MAX_REMAINING
    case Suback(_, codes) => 1 <= |codes| < MAX_REMAINING - 2
    case _ => true
  }

  function PublishByte(dup: bool, qos: nat, retain: bool): (f: nat)
    requires qos < 4
    ensures f < 16
  {
    (if dup then 8 else 0) + 2 * qos + if retain then 1 else 0
  }

  /** Table 2.1. */
  function WireType(r: Response): (ctype: nat)
    ensures ctype < 16
  {
    match r
    case Connack(_, _) => 2
    case Publish(_, _, _, _, _, _) => 3
    case Puback(_) => 4
    case Pubrec(_) => 5
    case Pubrel(_) => 6
    case Pubcomp(_) => 7
    case Suback(_, _) => 9
    case Unsuback(_) => 11
    case Pingresp => 13
  }

  function WireFlags(r: Response): (flags: nat)
    requires Encodable(r)
    ensures flags < 16
  {
    match r
    case Publish(dup, qos, retain, _, _, _) => PublishByte(dup, qos, retain)
    case Pubrel(_) => 2
    case _ => 0
  }

  function WireBody(r: Response): bytes
    requires Encodable(r)
  {
    match r
    case Connack(present, code) => [if present then 1 else 0, code]
    case Publish(_, qos, _, topic, id, payload) => PublishBody(topic, id, payload, qos)
    case Puback(id) => Uint16(id)
    case Pubrec(id) => Uint16(id)
    case Pubrel(id) => Uint16(id)
    case Pubcomp(id) => Uint16(id)
    case Suback(id, codes) => Uint16(id) + codes
    case Unsuback(id) => Uint16(id)
    case Pingresp => []
  }

  function Encode(r: Response): (s: bytes)
    requires Encodable(r)
  {
    Framed(WireType(r), WireFlags(r), WireBody(r))
  }

  /** The packet the source refuses although MQTT 3.1.1 allows it: fewer than four bytes of PUBLISH body. */
  predicate TooShort(r: Response) {
    r.Publish? && |r.topic| + |r.payload| + 2 + (if r.qos > 0 then 2 else 0) < 4
  }

  lemma UnpackFramed(ctype: nat, flags: nat, body: bytes, rest: bytes)
    requires ctype < 16 && flags < 16 && |body| < MAX_REMAINING
    requires RuleViolation(Header(ctype, flags, |body|)) == 0
    ensures var h := Header(ctype, flags, |body|);
            && DecodeHeader(Framed(ctype, flags, body) + rest) == Unpacked(h, |EncodeHeader(h)|)
            && Unpack(Framed(ctype, flags, body) + rest) ==
               match UnpackBody(h, body)
               case Got(response, n) => Got(response, |EncodeHeader(h)| + n)
               case other => other
  {
    var h := Header(ctype, flags, |body|);
    var e := EncodeHeader(h);
    assert Framed(ctype, flags, body) + rest == e + (body + rest);
    HeaderRoundTrip(h, body + rest);
    assert (e + (body + rest))[|e|..|e| + |body|] == body;
  }

  lemma PublishBodyRoundTrip(flags: nat, topic: bytes, id: uint16, payload: bytes)
    requires flags < 16 && |topic| <= MAX_STRING
    ensures var body := PublishBody(topic, id, payload, Qos(flags));
            UnpackPublish(flags, body) ==
            if |body| < 4 then Bad(ERROR_MALFORMED_RESPONSE)
            else Got(Publish(flags / 8 == 1, Qos(flags), flags % 2 == 1, topic,
                             if Qos(flags) > 0 then id else 0, payload), |body|)
  {
    var qos := Qos(flags);
    var idBytes: bytes := if qos > 0 then Uint16(id) else [];
    var body := PublishBody(topic, id, payload, qos);
    var tail := idBytes + payload;
    assert body == Str(topic) + tail;
    StrRoundTrip(topic, tail);
    if qos > 0 {
      Uint16RoundTrip(id, payload);
      assert body[4 + |topic|..] == tail[2..];
    } else {
      assert tail == payload;
    }
  }

  predicate RoundTrips(r: Response, rest: bytes)
    requires Encodable(r)
  {
    && DecodeHeader(Encode(r) + rest).Unpacked? && FrameSize(Encode(r) + rest) == |Encode(r)|
    && Unpack(Encode(r) + rest) == if TooShort(r) then Bad(ERROR_MALFORMED_RESPONSE) else Got(r, |Encode(r)|)
  }

  lemma ConnackRoundTrip(r: Response, rest: bytes)
    requires Encodable(r) && r.Connack?
    ensures RoundTrips(r, rest)
  {
    UnpackFramed(CONNACK, 0, [if r.sessionPresent then 1 else 0, r.code], rest);
  }

  lemma PublishResponseRoundTrip(r: Response, rest: bytes)
    requires Encodable(r) && r.Publish?
    ensures RoundTrips(r, rest)
  {
    PublishWithFlags(r, PublishByte(r.dup, r.qos, r.retain), rest);
  }

  lemma PublishWithFlags(r: Response, f: nat, rest: bytes)
    requires Encodable(r) && r.Publish?
    requires f < 16 && f == PublishByte(r.dup, r.qos, r.retain)
    requires (f / 8 == 1 <==> r.dup) && Qos(f) == r.qos && (f % 2 == 1 <==> r.retain)
    ensures RoundTrips(r, rest)
  {
    var body := PublishBody(r.topic, r.id, r.payload, r.qos);
    assert Encode(r) == Framed(PUBLISH, f, body);
    PublishBodyRoundTrip(f, r.topic, r.id, r.payload);
    UnpackFramed(PUBLISH, f, body, rest);
  }

  lemma SubackRoundTrip(r: Response, rest: bytes)
    requires Encodable(r) && r.Suback?
    ensures RoundTrips(r, rest)
  {
    UnpackFramed(SUBACK, 0, Uint16(r.id) + r.codes, rest);
    Uint16RoundTrip(r.id, r.codes);
  }

  /**
   Every packet a broker may encode is read back unchanged and whole, whatever follows it, exactly if
   it is not a PUBLISH with fewer than four bytes behind the fixed header.
   */
  lemma ResponseRoundTrip(r: Response, rest: bytes)
    requires Encodable(r)
    ensures RoundTrips(r, rest)
  {
    match r
    case Connack(_, _) => ConnackRoundTrip(r, rest);
    case Publish(_, _, _, _, _, _) => PublishResponseRoundTrip(r, rest);
    case Puback(id) => IdRoundTrip(PUBACK, 0, id, rest);
    case Pubrec(id) => IdRoundTrip(PUBREC, 0, id, rest);
    case Pubrel(id) => IdRoundTrip(PUBREL, 2, id, rest);
    case Pubcomp(id) => IdRoundTrip(PUBCOMP, 0, id, rest);
    case Unsuback(id) => IdRoundTrip(UNSUBACK, 0, id, rest);
    case Suback(_, _) => SubackRoundTrip(r, rest);
    case Pingresp => UnpackFramed(PINGRESP, 0, [], rest);
  }

  lemma IdRoundTrip(ctype: nat, flags: nat, id: uint16, rest: bytes)
    requires IsPubxxx(ctype) || ctype == UNSUBACK
    requires flags == if ctype == PUBREL then 2 else 0
    ensures var s := Framed(ctype, flags, Uint16(id)) + rest;
            && DecodeHeader(s).Unpacked? && FrameSize(s) == |Framed(ctype, flags, Uint16(id))|
            && Unpack(s) == Got(if ctype == PUBACK then Puback(id) else if ctype == PUBREC then Pubrec(id)
                                else if ctype == PUBREL then Pubrel(id) else if ctype == PUBCOMP then Pubcomp(id)
                                else Unsuback(id), FrameSize(s))
  {
    UnpackFramed(ctype, flags, Uint16(id), rest);
    Uint16RoundTrip(id, []);
    assert Uint16(id) + [] == Uint16(id);
  }

  /** A framed PUBLISH body is read back, or is too short. */
  lemma PublishFrameRoundTrip(f: nat, topic: bytes, id: uint16, payload: bytes, rest: bytes)
    requires f < 16 && |topic| <= MAX_STRING && |PublishBody(topic, id, payload, Qos(f))| < MAX_REMAINING
    ensures var body := PublishBody(topic, id, payload, Qos(f));
            Unpack(Framed(PUBLISH, f, body) + rest) ==
            if |body| < 4 then Bad(ERROR_MALFORMED_RESPONSE)
            else Got(Publish(f / 8 == 1, Qos(f), f % 2 == 1, topic, if Qos(f) > 0 then id else 0, payload),
                     |Framed(PUBLISH, f, body)|)
  {
    PublishBodyRoundTrip(f, topic, id, payload);
    UnpackFramed(PUBLISH, f, PublishBody(topic, id, payload, Qos(f)), rest);
  }

  /**
   Whatever has a topic and a QoS that exists is packed, and the client's own unpacker reads it back: DUP is forced
   to 0 at QoS 0, nothing else changes.
   */
  lemma PublishRoundTrip(topic: Option<bytes>, id: uint16, payload: bytes, flags: byte, rest: bytes)
    requires PublishInRange(topic, payload) && topic.Some? && flags / 2 % 4 != 3
    ensures PublishImage(topic, id, payload, flags).Image?
    ensures var image := PublishImage(topic, id, payload, flags).image;
            var qos := flags / 2 % 4;
            Unpack(image + rest) ==
            if |topic.value| + |payload| + (if qos > 0 then 2 else 0) < 2 then Bad(ERROR_MALFORMED_RESPONSE)
            else Got(Publish(qos > 0 && flags / 8 % 2 == 1, qos, flags % 2 == 1, topic.value,
                             if qos > 0 then id else 0, payload), |image|)
  {
    PublishAccepted(topic, id, payload, flags);
    PublishFlagsFields(flags);
    PublishFrameRoundTrip(PublishFlags(flags), topic.value, id, payload, rest);
  }

  /** A legal PUBLISH that the source rejects: QoS 0, a topic of one letter, an empty payload. */
  lemma ShortPublishRejected()
    ensures var r := Publish(false, 0, false, ['a' as int], 0, []);
            Encodable(r) && Unpack(Encode(r)) == Bad(ERROR_MALFORMED_RESPONSE)
  {
    var r := Publish(false, 0, false, ['a' as int], 0, []);
    ResponseRoundTrip(r, []);
    assert Encode(r) + [] == Encode(r);
  }

  // ---- Every body ----

  /** What is wrong with a body of a type that no packet of section 3 can have; 0 if nothing is. */
  function BodyFault(ctype: nat, body: bytes): int {
    if ctype !in {CONNACK, PUBLISH, PUBACK, PUBREC, PUBREL, PUBCOMP, SUBACK, UNSUBACK, PINGRESP} then
      ERROR_RESPONSE_INVALID_CONTROL_TYPE
    else if (ctype == PUBLISH && |body| < 4) || (ctype == SUBACK && |body| < 3) then ERROR_MALFORMED_RESPONSE
    else if ctype !in {PUBLISH, SUBACK, PINGRESP} && |body| != 2 then ERROR_MALFORMED_RESPONSE
    else if ctype == CONNACK && body[0] >= 2 then ERROR_CONNACK_FORBIDDEN_FLAGS
    else if ctype == CONNACK && body[1] >= 6 then ERROR_CONNACK_FORBIDDEN_CODE
    else 0
  }

  /** The topic of a PUBLISH, or its packet id, ends behind the packet. */
  predicate Overruns(h: Header, body: bytes) {
    h.ctype == PUBLISH && |body| >= 4 && 256 * body[0] + body[1] + (if h.flags / 2 % 4 == 0 then 2 else 4) > |body|
  }

  /** The packet is the one that these flags and this body encode; a PINGRESP may have any body. */
  predicate IsEncodedBy(r: Response, h: Header, body: bytes) {
    && Encodable(r) && h.ctype == WireType(r) && (r.Pingresp? || body == WireBody(r))
    && (r.Publish? ==> h.flags == WireFlags(r))
  }

  /**
   A body is refused exactly with its fault. Otherwise it is read as r if and only if it is what r encodes to, so
   nothing is read that no broker writes, and nothing is read differently.
   */
  lemma BodyExactly(h: Header, body: bytes, r: Response)
    requires Nibbles(h) && |body| == h.remaining < MAX_REMAINING
    ensures var u, fault := UnpackBody(h, body), BodyFault(h.ctype, body);
            if fault != 0 then u == Bad(fault)
            else if Overruns(h, body) then u == Overrun
            else u.Got? && u.size == (if h.ctype == PINGRESP then 0 else |body|) &&
                 (u.response == r <==> IsEncodedBy(r, h, body))
  {
    if BodyFault(h.ctype, body) == 0 && !Overruns(h, body) {
      ReadIsEncoded(h, body);
      if IsEncodedBy(r, h, body) {
        EncodedIsRead(h, body, r);
      }
    }
  }

  lemma EncodedIsRead(h: Header, body: bytes, r: Response)
    requires Nibbles(h) && |body| == h.remaining && BodyFault(h.ctype, body) == 0 && IsEncodedBy(r, h, body)
    ensures UnpackBody(h, body).Got? && UnpackBody(h, body).response == r
  {
    match r
    case Publish(dup, qos, retain, topic, id, payload) =>
      PublishBodyRoundTrip(h.flags, topic, id, payload);
      PublishByteFields(dup, qos, retain);
    case Suback(id, codes) => Uint16RoundTrip(id, codes);
    case _ =>
  }

  lemma PublishByteFields(dup: bool, qos: nat, retain: bool)
    requires qos < 4
    ensures var f := PublishByte(dup, qos, retain); (f / 8 == 1 <==> dup) && Qos(f) == qos && (f % 2 == 1 <==> retain)
  {
  }

  lemma ReadIsEncoded(h: Header, body: bytes)
    requires Nibbles(h) && |body| == h.remaining < MAX_REMAINING
    requires BodyFault(h.ctype, body) == 0 && !Overruns(h, body)
    ensures var u := UnpackBody(h, body);
            u.Got? && u.size == (if h.ctype == PINGRESP then 0 else |body|) && IsEncodedBy(u.response, h, body)
  {
    if h.ctype == PUBLISH {
      PublishIsEncoded(h, body);
    } else if h.ctype != PINGRESP {
      assert Uint16(ReadUint16(body)) == body[..2];
      if h.ctype == SUBACK {
        assert body == body[..2] + body[2..];
      }
    }
  }

  lemma PublishIsEncoded(h: Header, body: bytes)
    requires Nibbles(h) && |body| == h.remaining < MAX_REMAINING && h.ctype == PUBLISH
    requires |body| >= 4 && !Overruns(h, body)
    ensures var u := UnpackBody(h, body);
            u.Got? && u.size == |body| && IsEncodedBy(u.response, h, body)
  {
    var n: nat := ReadUint16(body);
    PublishBodyRebuilt(body, n, Qos(h.flags));
    FlagsRebuilt(h.flags);
  }

  lemma FlagsRebuilt(flags: nat)
    requires flags < 16
    ensures flags == PublishByte(flags / 8 == 1, Qos(flags), flags % 2 == 1)
  {
  }

  /** Topic, packet id and payload, cut out of a body, make the body. */
  lemma PublishBodyRebuilt(body: bytes, n: nat, qos: nat)
    requires |body| >= 2 && n == ReadUint16(body) && 2 + n + (if qos > 0 then 2 else 0) <= |body|
    ensures var at := 2 + n + if qos > 0 then 2 else 0;
            var id: uint16 := if qos > 0 then ReadUint16(body[2 + n..]) else 0;
            PublishBody(body[2..2 + n], id, body[at..], qos) == body
  {
    assert Str(body[2..2 + n]) == body[..2 + n];
    if qos > 0 {
      assert Uint16(ReadUint16(body[2 + n..])) == body[2 + n..4 + n];
    }
  }

  /**
   What the unpacker makes of any bytes at all. It waits, or refuses for the header, as `HeaderExactly` says. Behind
   a header and the body it announces, it refuses the body for its fault or reads the packet that encodes to it,
   and has consumed both; of a PINGRESP it consumes the header only.
   */
  lemma ReadExactly(s: bytes, j: nat, r: Response)
    requires LengthRun(s, j)
    ensures Unpack([]) == More
    ensures if j == 5 then Unpack(s) == Bad(ERROR_INVALID_REMAINING_LENGTH)
            else if j == |s| then Unpack(s) == More
            else
              var h := Header(s[0] / 16, s[0] % 16, LengthValue(s, j));
              if Complaint(h.ctype, h.flags) != 0 then Unpack(s) == Bad(Complaint(h.ctype, h.flags))
              else if |s| < j + 1 + h.remaining then Unpack(s) == More
              else
                var body := s[j + 1..j + 1 + h.remaining];
                if BodyFault(h.ctype, body) != 0 then Unpack(s) == Bad(BodyFault(h.ctype, body))
                else if Overruns(h, body) then Unpack(s) == Overrun
                else Unpack(s) == Got(r, j + 1 + if h.ctype == PINGRESP then 0 else h.remaining) <==>
                     IsEncodedBy(r, h, body)
  {
    HeaderExactly(s, j);
    if j < 5 && j < |s| && DecodeHeader(s).Unpacked? {
      Powers();
      LengthBound(s, j);
      var h := DecodeHeader(s).header;
      assert Pow128(j) <= Pow128(4);
      BodyExactly(h, s[j + 1..j + 1 + h.remaining], r);
    }
  }
}
