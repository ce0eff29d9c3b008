/**
 The packets that the client sends: the bytes each packer produces, the packers that write them into
 the send buffer, and decoders that read every field back.
 */
module Packets {
  import opened Options
  import opened MqttTypes
  import opened Wire
  import opened FixedHeader

  /** What a packer is asked to write: a packet, or the reason why there is none. */
  datatype Packed = Fails(err: int) | Image(image: bytes)

  /** The value a packer returns when `room` bytes are free. */
  function PackResult(p: Packed, room: nat): int {
    match p
    case Fails(err) => err
    case Image(image) => if |image| <= room then |image| else 0
  }

  /** `buf` holds the packet at `at` if the packer succeeded, and is untouched outside the room it was given. */
  twostate predicate Wrote(buf: array<byte>, at: nat, room: nat, p: Packed, rv: int)
    requires at + room <= buf.Length
    reads buf
  {
    && rv == PackResult(p, room)
    && (rv > 0 ==> p.Image? && rv <= room && buf[at..at + rv] == p.image)
    && forall k :: 0 <= k < at || at + room <= k < buf.Length ==> buf[k] == old(buf[k])
  }

  function Framed(ctype: nat, flags: nat, body: bytes): (s: bytes)
    requires ctype < 16 && flags < 16
    ensures |s| >= 2 + |body|
  {
    EncodeHeader(Header(ctype, flags, |body|)) + body
  }

  // ---- CONNECT (section 3.1 of MQTT 3.1.1) ----

  /** The arguments of a connection request; None stands for a null pointer. */
  datatype ConnectRequest = ConnectRequest(
    clientId: Option<bytes>, willTopic: Option<bytes>, willMessage: Option<bytes>,
    userName: Option<bytes>, password: Option<bytes>, flags: byte, keepAlive: uint16)

  predicate ShortOption(s: Option<bytes>) {
    s.Some? ==> |s.value| <= MAX_STRING
  }

  predicate ConnectInRange(c: ConnectRequest) {
    && ShortOption(c.clientId) && ShortOption(c.willTopic) && ShortOption(c.willMessage)
    && ShortOption(c.userName) && ShortOption(c.password)
  }

  datatype Will = Will(topic: bytes, message: bytes, qos: nat, retain: bool)

  /** What a connection request means to the broker. */
  datatype ConnectFields = ConnectFields(
    cleanSession: bool, clientId: bytes, will: Option<Will>,
    userName: Option<bytes>, password: Option<bytes>, keepAlive: uint16)

  function OptStr(s: Option<bytes>): bytes
    requires ShortOption(s)
  {
    if s.Some? then Str(s.value) else []
  }

  function ClientId(c: ConnectRequest): bytes {
    if c.clientId.Some? then c.clientId.value else []
  }

  function CleanSession(flags: byte): bool { flags / 2 % 2 == 1 }

  function WillQos(flags: byte): nat { flags / 8 % 4 }

  function WillRetain(flags: byte): bool { flags / 32 % 2 == 1 }

  function Weigh(b: bool, weight: nat): nat { if b then weight else 0 }

  /** The flags byte: the reserved bit is dropped and each presence bit follows its argument. */
  function ConnectFlags(c: ConnectRequest): (f: byte)
  {
    var will := c.willTopic.Some?;
    Weigh(CleanSession(c.flags), 2) + Weigh(will, 4) + (if will then 8 * WillQos(c.flags) else 0) +
    Weigh(will && WillRetain(c.flags), 32) + Weigh(c.password.Some?, 64) + Weigh(c.userName.Some?, 128)
  }

  function ConnectPayload(c: ConnectRequest): bytes
    requires ConnectInRange(c)
    requires c.willTopic.Some? ==> c.willMessage.Some?
  {
    Str(ClientId(c)) + OptStr(c.willTopic) + (if c.willTopic.Some? then Str(c.willMessage.value) else []) +
    OptStr(c.userName) + OptStr(c.password)
  }

  const PROTOCOL: bytes := [0, 4, 'M' as int, 'Q' as int, 'T' as int, 'T' as int, 4]

  function ConnectBody(c: ConnectRequest): (s: bytes)
    requires ConnectInRange(c)
    requires c.willTopic.Some? ==> c.willMessage.Some?
    ensures |s| == 10 + |ConnectPayload(c)|
  {
    PROTOCOL + [ConnectFlags(c)] + Uint16(c.keepAlive) +
    Str(ClientId(c)) + OptStr(c.willTopic) + (if c.willTopic.Some? then Str(c.willMessage.value) else []) +
    OptStr(c.userName) + OptStr(c.password)
  }

  function ConnectImage(c: ConnectRequest): (p: Packed)
    requires ConnectInRange(c)
    ensures p.Fails? ==> p.err < 0
  {
    if ClientId(c) == [] && !CleanSession(c.flags) then Fails(ERROR_CLEAN_SESSION_IS_REQUIRED)
    else if c.willTopic.Some? && c.willMessage.None? then Fails(ERROR_CONNECT_NULL_WILL_MESSAGE)
    else if c.willTopic.Some? && WillQos(c.flags) == 3 then Fails(ERROR_CONNECT_FORBIDDEN_WILL_QOS)
    else Image(Framed(CONNECT, 0, ConnectBody(c)))
  }

  /** A client id or a clean session, and with a will its message and a QoS that exists (section 3.1). */
  predicate ConnectSound(c: ConnectRequest) {
    && ((c.clientId.Some? && |c.clientId.value| > 0) || c.flags / 2 % 2 == 1)
    && (c.willTopic.Some? ==> c.willMessage.Some? && c.flags / 8 % 4 != 3)
  }

  /** Exactly the sound requests are packed; of several faults the first in this order is reported. */
  lemma ConnectAccepted(c: ConnectRequest)
    requires ConnectInRange(c)
    ensures ConnectImage(c).Image? <==> ConnectSound(c)
    ensures (c.clientId.None? || c.clientId.value == []) && c.flags / 2 % 2 == 0 ==>
              ConnectImage(c) == Fails(ERROR_CLEAN_SESSION_IS_REQUIRED)
    ensures ((c.clientId.Some? && c.clientId.value != []) || c.flags / 2 % 2 == 1) && c.willTopic.Some? ==>
              && (c.willMessage.None? ==> ConnectImage(c) == Fails(ERROR_CONNECT_NULL_WILL_MESSAGE))
              && (c.willMessage.Some? && c.flags / 8 % 4 == 3 ==> ConnectImage(c) == Fails(ERROR_CONNECT_FORBIDDEN_WILL_QOS))
  {
  }

  /** The checks on the arguments, and the remaining length that is added up on the way. */
  method MeasureConnect(c: ConnectRequest) returns (n: int)
    requires ConnectInRange(c)
    ensures match ConnectImage(c)
            case Fails(err) => n == err
            case Image(_) => n >= 0 && (c.willTopic.Some? ==> c.willMessage.Some?) && n == |ConnectBody(c)|
  {
    var clientId := ClientId(c);
    n := 10;
    if clientId == [] && !CleanSession(c.flags) {
      return ERROR_CLEAN_SESSION_IS_REQUIRED;
    }
    n := n + 2 + |clientId|;
    if c.willTopic.Some? {
      n := n + 2 + |c.willTopic.value|;
      if c.willMessage.None? {
        return ERROR_CONNECT_NULL_WILL_MESSAGE;
      }
      n := n + 2 + |c.willMessage.value|;
      if WillQos(c.flags) == 3 {
        return ERROR_CONNECT_FORBIDDEN_WILL_QOS;
      }
    }
    if c.userName.Some? {
      n := n + 2 + |c.userName.value|;
    }
    if c.password.Some? {
      n := n + 2 + |c.password.value|;
    }
  }

  method PackConnectionRequest(buf: array<byte>, at: nat, room: nat, c: ConnectRequest) returns (rv: int)
    requires at + room <= buf.Length && ConnectInRange(c)
    modifies buf
    ensures Wrote(buf, at, room, ConnectImage(c), rv)
  {
    var remaining := MeasureConnect(c);
    if remaining < 0 {
      return remaining;
    }
    rv := PackConnectFrame(buf, at, room, c, remaining);
  }

  /** The part of the packer behind its argument checks. */
  method PackConnectFrame(buf: array<byte>, at: nat, room: nat, c: ConnectRequest, remaining: nat) returns (rv: int)
    requires at + room <= buf.Length && ConnectInRange(c) && (c.willTopic.Some? ==> c.willMessage.Some?)
    requires remaining == |ConnectBody(c)| < MAX_REMAINING
    modifies buf
    ensures Wrote(buf, at, room, Image(Framed(CONNECT, 0, ConnectBody(c))), rv)
  {
    rv := PackLegalHeader(buf, at, room, Header(CONNECT, 0, remaining));
    if rv == 0 {
      return;
    }
    var p := PutConnect(buf, at, at + rv, c);
    return p - at;
  }

  /** The variable header and the payload, field by field. */
  method PutConnect(buf: array<byte>, start: nat, at: nat, c: ConnectRequest) returns (p: nat)
    requires ConnectInRange(c) && (c.willTopic.Some? ==> c.willMessage.Some?)
    requires start <= at && at + 10 + |ConnectPayload(c)| <= buf.Length
    modifies buf
    ensures p == at + 10 + |ConnectPayload(c)|
    ensures buf[start..p] == old(buf[start..at]) + ConnectBody(c)
    ensures forall k :: 0 <= k < at || p <= k < buf.Length ==> buf[k] == old(buf[k])
  {
    ghost var head, done := buf[start..at], [];
    assert head == head + [];
    var clientId := ClientId(c);
    p := Put(buf, start, at, PROTOCOL, head, []);
    p := Put(buf, start, p, [ConnectFlags(c)], head, [] + PROTOCOL);
    done := PROTOCOL + [ConnectFlags(c)];
    assert [] + PROTOCOL + [ConnectFlags(c)] == done;
    p := Put(buf, start, p, Uint16(c.keepAlive), head, done);
    done := done + Uint16(c.keepAlive);
    p := Put(buf, start, p, Str(clientId), head, done);
    done := done + Str(clientId);
    if c.willTopic.Some? {
      p := Put(buf, start, p, Str(c.willTopic.value), head, done);
      p := PutBlob(buf, start, p, c.willMessage.value, head, done + Str(c.willTopic.value));
    }
    done := done + OptStr(c.willTopic) + (if c.willTopic.Some? then Str(c.willMessage.value) else []);
    if c.userName.Some? {
      p := Put(buf, start, p, Str(c.userName.value), head, done);
    }
    done := done + OptStr(c.userName);
    if c.password.Some? {
      p := Put(buf, start, p, Str(c.password.value), head, done);
    }
  }

  /** The will message: its length, then its bytes. */
  method PutBlob(buf: array<byte>, start: nat, at: nat, s: bytes, ghost head: bytes, ghost done: bytes)
    returns (p: nat)
    requires |s| <= MAX_STRING && start <= at && at + 2 + |s| <= buf.Length
    requires buf[start..at] == head + done
    modifies buf
    ensures p == at + 2 + |s|
    ensures buf[start..p] == head + (done + Str(s))
    ensures forall k :: 0 <= k < at || p <= k < buf.Length ==> buf[k] == old(buf[k])
  {
    p := Put(buf, start, at, Uint16(|s|), head, done);
    p := Put(buf, start, p, s, head, done + Uint16(|s|));
    assert done + Uint16(|s|) + s == done + Str(s);
  }

  // ---- PUBLISH (section 3.3) ----

  function Qos(flags: byte): nat { flags / 2 % 4 }

  /** The flags that are sent: four bits, DUP cleared at QoS 0. */
  function PublishFlags(flags: byte): (f: nat)
    ensures f < 16
  {
    (if Qos(flags) == 0 then 0 else flags / 8 % 2 * 8) + 2 * Qos(flags) + flags % 2
  }

  lemma PublishFlagsFields(flags: byte)
    ensures Qos(PublishFlags(flags)) == Qos(flags) && PublishFlags(flags) % 2 == flags % 2
    ensures PublishFlags(flags) / 8 == if Qos(flags) == 0 then 0 else flags / 8 % 2
  {
  }

  predicate PublishInRange(topic: Option<bytes>, payload: bytes) {
    (topic.Some? ==> |topic.value| + 2 <= 0xFFFF) && |payload| <= 0xFFFF
  }

  function PublishBody(topic: bytes, id: uint16, payload: bytes, qos: nat): bytes
    requires |topic| <= MAX_STRING
  {
    Str(topic) + (if qos > 0 then Uint16(id) else []) + payload
  }

  function PublishImage(topic: Option<bytes>, id: uint16, payload: bytes, flags: byte): (p: Packed)
    requires PublishInRange(topic, payload)
    ensures p.Fails? ==> p.err < 0
  {
    if topic.None? then Fails(ERROR_NULLPTR)
    else if Qos(flags) == 3 then Fails(ERROR_PUBLISH_FORBIDDEN_QOS)
    else Image(Framed(PUBLISH, PublishFlags(flags), PublishBody(topic.value, id, payload, Qos(flags))))
  }

  /** Exactly a PUBLISH with a topic and a QoS that exists is packed (section 3.3). */
  lemma PublishAccepted(topic: Option<bytes>, id: uint16, payload: bytes, flags: byte)
    requires PublishInRange(topic, payload)
    ensures PublishImage(topic, id, payload, flags).Image? <==> topic.Some? && flags / 2 % 4 != 3
    ensures topic.None? ==> PublishImage(topic, id, payload, flags) == Fails(ERROR_NULLPTR)
    ensures topic.Some? && flags / 2 % 4 == 3 ==>
              PublishImage(topic, id, payload, flags) == Fails(ERROR_PUBLISH_FORBIDDEN_QOS)
  {
  }

  method PackPublishRequest(buf: array<byte>, at: nat, room: nat,
                            topic: Option<bytes>, id: uint16, payload: bytes, flags: byte) returns (rv: int)
    requires at + room <= buf.Length && PublishInRange(topic, payload)
    modifies buf
    ensures Wrote(buf, at, room, PublishImage(topic, id, payload, flags), rv)
  {
    if topic.None? {
      return ERROR_NULLPTR;
    }
    var qos := Qos(flags);
    var remaining := (2 + |topic.value|) % 0x1_0000;
    if qos > 0 {
      remaining := remaining + 2;
    }
    remaining := remaining + |payload| % 0x1_0000;
    if qos == 3 {
      return ERROR_PUBLISH_FORBIDDEN_QOS;
    }
    rv := PackPublishFrame(buf, at, room, topic.value, id, payload, PublishFlags(flags), qos, remaining);
  }

  /** The part of the packer behind its argument checks. */
  method PackPublishFrame(buf: array<byte>, at: nat, room: nat,
                          topic: bytes, id: uint16, payload: bytes, flags: nat, qos: nat, remaining: nat)
    returns (rv: int)
    requires at + room <= buf.Length && |topic| <= MAX_STRING && flags < 16
    requires remaining == |PublishBody(topic, id, payload, qos)| < MAX_REMAINING
    modifies buf
    ensures Wrote(buf, at, room, Image(Framed(PUBLISH, flags, PublishBody(topic, id, payload, qos))), rv)
  {
    rv := PackLegalHeader(buf, at, room, Header(PUBLISH, flags, remaining));
    if rv == 0 {
      return;
    }
    var p := PutPublish(buf, at, at + rv, topic, id, payload, qos);
    return p - at;
  }

  method PutPublish(buf: array<byte>, start: nat, at: nat, topic: bytes, id: uint16, payload: bytes, qos: nat)
    returns (p: nat)
    requires |topic| <= MAX_STRING && start <= at && at + |PublishBody(topic, id, payload, qos)| <= buf.Length
    modifies buf
    ensures p == at + |PublishBody(topic, id, payload, qos)|
    ensures buf[start..p] == old(buf[start..at]) + PublishBody(topic, id, payload, qos)
    ensures forall k :: 0 <= k < at || p <= k < buf.Length ==> buf[k] == old(buf[k])
  {
    ghost var head, done := buf[start..at], Str(topic);
    assert head == head + [] && [] + done == done;
    p := Put(buf, start, at, Str(topic), head, []);
    if qos > 0 {
      p := Put(buf, start, p, Uint16(id), head, done);
    }
    done := done + if qos > 0 then Uint16(id) else [];
    p := Put(buf, start, p, payload, head, done);
  }

  // ---- PUBACK, PUBREC, PUBREL, PUBCOMP (sections 3.4 to 3.7), PINGREQ (3.12), DISCONNECT (3.14) ----

  predicate IsPubxxx(ctype: int) {
    PUBACK <= ctype <= PUBCOMP
  }

  function PubxxxImage(ctype: nat, id: uint16): (p: Packed)
    requires IsPubxxx(ctype)
    ensures p.Image?
  {
    Image(Framed(ctype, if ctype == PUBREL then 2 else 0, Uint16(id)))
  }

  method PackPubxxxRequest(buf: array<byte>, at: nat, room: nat, ctype: nat, id: uint16) returns (rv: int)
    requires at + room <= buf.Length && IsPubxxx(ctype)
    modifies buf
    ensures Wrote(buf, at, room, PubxxxImage(ctype, id), rv)
  {
    var flags := if ctype == PUBREL then 2 else 0;
    rv := PackLegalHeader(buf, at, room, Header(ctype, flags, 2));
    if rv == 0 {
      return;
    }
    ghost var head := buf[at..at + rv];
    assert head == head + [] && [] + Uint16(id) == Uint16(id);
    var p := Put(buf, at, at + rv, Uint16(id), head, []);
    return p - at;
  }

  /** PINGREQ and DISCONNECT are a bare fixed header. */
  function BareImage(ctype: nat): (p: Packed)
    requires ctype == PINGREQ || ctype == DISCONNECT
    ensures p.Image?
  {
    Image(Framed(ctype, 0, []))
  }

  method PackBare(buf: array<byte>, at: nat, room: nat, ctype: nat) returns (rv: int)
    requires at + room <= buf.Length && (ctype == PINGREQ || ctype == DISCONNECT)
    modifies buf
    ensures Wrote(buf, at, room, BareImage(ctype), rv)
  {
    rv := PackLegalHeader(buf, at, room, Header(ctype, 0, 0));
    assert EncodeHeader(Header(ctype, 0, 0)) + [] == EncodeHeader(Header(ctype, 0, 0));
  }

  // ---- SUBSCRIBE (section 3.8) and UNSUBSCRIBE (section 3.10) ----

  const MAX_TOPICS := 8

  /** A topic filter and, for a subscription, the maximum QoS. */
  datatype Subscription = Subscription(topic: bytes, maxQos: byte)

  predicate TopicsInRange(subs: seq<Subscription>) {
    forall i :: 0 <= i < |subs| ==> |subs[i].topic| <= MAX_STRING
  }

  function Filters(subs: seq<Subscription>, withQos: bool): (s: bytes)
    requires TopicsInRange(subs)
  {
    if subs == [] then []
    else Filters(subs[..|subs| - 1], withQos) + Filter(subs[|subs| - 1], withQos)
  }

  function Filter(sub: Subscription, withQos: bool): bytes
    requires |sub.topic| <= MAX_STRING
  {
    Str(sub.topic) + if withQos then [sub.maxQos] else []
  }

  /** A list that reaches eight topics is refused, so seven is the most that one packet carries. */
  function SubscribeImage(id: uint16, subs: seq<Subscription>): (p: Packed)
    requires TopicsInRange(subs)
    ensures p.Fails? ==> p.err < 0
  {
    if |subs| >= MAX_TOPICS then Fails(ERROR_SUBSCRIBE_TOO_MANY_TOPICS)
    else Image(Framed(SUBSCRIBE, 2, Uint16(id) + Filters(subs, true)))
  }

  function UnsubscribeImage(id: uint16, subs: seq<Subscription>): (p: Packed)
    requires TopicsInRange(subs)
    ensures p.Fails? ==> p.err < 0
  {
    if |subs| >= MAX_TOPICS then Fails(ERROR_UNSUBSCRIBE_TOO_MANY_TOPICS)
    else Image(Framed(UNSUBSCRIBE, 2, Uint16(id) + Filters(subs, false)))
  }

  /**
   The documented maximum is a list that both packers refuse, whatever room they have; and of all lists in
   range they refuse for their length exactly those that reach it.
   */
  lemma TopicLimit(id: uint16, subs: seq<Subscription>, room: nat)
    requires TopicsInRange(subs)
    ensures PackResult(SubscribeImage(id, subs), room) == ERROR_SUBSCRIBE_TOO_MANY_TOPICS <==> |subs| >= 8
    ensures PackResult(UnsubscribeImage(id, subs), room) == ERROR_UNSUBSCRIBE_TOO_MANY_TOPICS <==> |subs| >= 8
  {
  }

  lemma EightTopicsRefused(id: uint16, room: nat)
    ensures var subs := seq(8, _ => Subscription(['t' as int], 0));
            && TopicsInRange(subs) && |subs| == MAX_TOPICS
            && PackResult(SubscribeImage(id, subs), room) == ERROR_SUBSCRIBE_TOO_MANY_TOPICS
            && PackResult(UnsubscribeImage(id, subs), room) == ERROR_UNSUBSCRIBE_TOO_MANY_TOPICS
  {
    TopicLimit(id, seq(8, _ => Subscription(['t' as int], 0)), room);
  }

  lemma FiltersPrefix(subs: seq<Subscription>, i: nat, withQos: bool)
    requires TopicsInRange(subs) && i < |subs|
    ensures Filters(subs[..i + 1], withQos) == Filters(subs[..i], withQos) + Filter(subs[i], withQos)
  {
    assert subs[..i + 1][..i] == subs[..i];
  }

  /** The payload length that the first loop of both packers adds up. */
  method FilterLength(subs: seq<Subscription>, withQos: bool) returns (n: nat)
    requires TopicsInRange(subs)
    ensures n == |Filters(subs, withQos)| && n <= |subs| * 0x1_0002
  {
    n := 0;
    for i := 0 to |subs|
      invariant n == |Filters(subs[..i], withQos)| && n <= i * 0x1_0002
    {
      FiltersPrefix(subs, i, withQos);
      n := n + 2 + |subs[i].topic| + if withQos then 1 else 0;
    }
    assert subs[..|subs|] == subs;
  }

  /** The second loop: packet id, then each topic filter. */
  method PutFilters(buf: array<byte>, start: nat, at: nat, id: uint16, subs: seq<Subscription>, withQos: bool)
    returns (next: nat)
    requires TopicsInRange(subs) && start <= at && at + 2 + |Filters(subs, withQos)| <= buf.Length
    modifies buf
    ensures next == at + 2 + |Filters(subs, withQos)|
    ensures buf[start..next] == old(buf[start..at]) + (Uint16(id) + Filters(subs, withQos))
    ensures forall k :: 0 <= k < at || next <= k < buf.Length ==> buf[k] == old(buf[k])
  {
    ghost var head := buf[start..at];
    assert head == head + [] && [] + Uint16(id) == Uint16(id) + Filters(subs[..0], withQos);
    next := Put(buf, start, at, Uint16(id), head, []);
    for i := 0 to |subs|
      invariant next == at + 2 + |Filters(subs[..i], withQos)|
      invariant |Filters(subs[..i], withQos)| <= |Filters(subs, withQos)|
      invariant buf[start..next] == head + (Uint16(id) + Filters(subs[..i], withQos))
      invariant forall k :: 0 <= k < at || at + 2 + |Filters(subs, withQos)| <= k < buf.Length ==> buf[k] == old(buf[k])
    {
      FiltersPrefix(subs, i, withQos);
      FiltersGrow(subs, i + 1, withQos);
      next := PutTopic(buf, start, next, id, subs, i, withQos, head);
    }
    assert subs[..|subs|] == subs;
  }

  /** One turn of the loop: the filters written so far grow by one. */
  method PutTopic(buf: array<byte>, start: nat, at: nat, id: uint16, subs: seq<Subscription>, i: nat, withQos: bool,
                  ghost head: bytes) returns (next: nat)
    requires TopicsInRange(subs) && i < |subs| && start <= at && at + |Filter(subs[i], withQos)| <= buf.Length
    requires buf[start..at] == head + (Uint16(id) + Filters(subs[..i], withQos))
    modifies buf
    ensures next == at + |Filter(subs[i], withQos)|
    ensures buf[start..next] == head + (Uint16(id) + Filters(subs[..i + 1], withQos))
    ensures forall k :: 0 <= k < at || next <= k < buf.Length ==> buf[k] == old(buf[k])
  {
    ghost var done := Uint16(id) + Filters(subs[..i], withQos);
    FiltersPrefix(subs, i, withQos);
    next := PutFilter(buf, start, at, subs[i], withQos, head, done);
    assert done + Filter(subs[i], withQos) == Uint16(id) + Filters(subs[..i + 1], withQos);
  }

  method PutFilter(buf: array<byte>, start: nat, at: nat, sub: Subscription, withQos: bool,
                   ghost head: bytes, ghost done: bytes) returns (next: nat)
    requires |sub.topic| <= MAX_STRING && start <= at && at + |Filter(sub, withQos)| <= buf.Length
    requires buf[start..at] == head + done
    modifies buf
    ensures next == at + |Filter(sub, withQos)|
    ensures buf[start..next] == head + (done + Filter(sub, withQos))
    ensures forall k :: 0 <= k < at || next <= k < buf.Length ==> buf[k] == old(buf[k])
  {
    next := Put(buf, start, at, Str(sub.topic), head, done);
    if withQos {
      next := Put(buf, start, next, [sub.maxQos], head, done + Str(sub.topic));
    }
    assert done + Str(sub.topic) + [sub.maxQos] == done + Filter(sub, true);
    assert done + Str(sub.topic) == done + Filter(sub, false);
  }

  lemma {:induction false} FiltersGrow(subs: seq<Subscription>, i: nat, withQos: bool)
    requires TopicsInRange(subs) && i <= |subs|
    ensures |Filters(subs[..i], withQos)| <= |Filters(subs, withQos)|
    decreases |subs| - i
  {
    if i < |subs| {
      FiltersPrefix(subs, i, withQos);
      FiltersGrow(subs, i + 1, withQos);
    } else {
      assert subs[..i] == subs;
    }
  }

  method PackSubscribeRequest(buf: array<byte>, at: nat, room: nat, id: uint16, subs: seq<Subscription>)
    returns (rv: int)
    requires at + room <= buf.Length && TopicsInRange(subs)
    modifies buf
    ensures Wrote(buf, at, room, SubscribeImage(id, subs), rv)
  {
    if |subs| >= MAX_TOPICS {
      return ERROR_SUBSCRIBE_TOO_MANY_TOPICS;
    }
    var n := FilterLength(subs, true);
    rv := PackLegalHeader(buf, at, room, Header(SUBSCRIBE, 2, 2 + n));
    if rv == 0 {
      return;
    }
    var p := PutFilters(buf, at, at + rv, id, subs, true);
    return p - at;
  }

  method PackUnsubscribeRequest(buf: array<byte>, at: nat, room: nat, id: uint16, subs: seq<Subscription>)
    returns (rv: int)
    requires at + room <= buf.Length && TopicsInRange(subs)
    modifies buf
    ensures Wrote(buf, at, room, UnsubscribeImage(id, subs), rv)
  {
    if |subs| >= MAX_TOPICS {
      return ERROR_UNSUBSCRIBE_TOO_MANY_TOPICS;
    }
    var n := FilterLength(subs, false);
    rv := PackLegalHeader(buf, at, room, Header(UNSUBSCRIBE, 2, 2 + n));
    if rv == 0 {
      return;
    }
    var p := PutFilters(buf, at, at + rv, id, subs, false);
    return p - at;
  }
}
