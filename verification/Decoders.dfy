/**
 Decoders for the requests that only a broker reads, written from sections 3.1, 3.8 and 3.10 of
 MQTT 3.1.1, and the proofs that they recover every field the packers were given.
 */
module Decoders {
  import opened Options
  import opened MqttTypes
  import opened Wire
  import opened FixedHeader
  import opened Packets

  /** The body of a packet of the given type and flags that fills `s` exactly. */
  function Body(s: bytes, ctype: nat, flags: nat): (r: Option<bytes>) {
    match DecodeHeader(s)
    case NeedMore => None
    case Rejected(_) => None
    case Unpacked(h, size) =>
      if h.ctype == ctype && h.flags == flags && size + h.remaining == |s| then Some(s[size..]) else None
  }

  lemma BodyOfFramed(ctype: nat, flags: nat, body: bytes)
    requires ctype < 16 && flags < 16 && |body| < MAX_REMAINING
    requires RuleViolation(Header(ctype, flags, |body|)) == 0
    ensures Body(Framed(ctype, flags, body), ctype, flags) == Some(body)
  {
    var h := Header(ctype, flags, |body|);
    HeaderRoundTrip(h, body);
    assert Framed(ctype, flags, body)[|EncodeHeader(h)|..] == body;
  }

  // ---- CONNECT ----

  function FieldsOf(c: ConnectRequest): ConnectFields
    requires c.willTopic.Some? ==> c.willMessage.Some?
  {
    ConnectFields(
      c.flags / 2 % 2 == 1, if c.clientId.None? then [] else c.clientId.value,
      if c.willTopic.None? then None
      else Some(Will(c.willTopic.value, c.willMessage.value, c.flags / 8 % 4, c.flags / 32 % 2 == 1)),
      c.userName, c.password, c.keepAlive)
  }

  /** A string that is present exactly if the flag says so. */
  function TakeIf(present: bool, s: bytes): (r: Option<(Option<bytes>, bytes)>) {
    if !present then Some((None, s))
    else
      match TakeStr(s)
      case None => None
      case Some((v, rest)) => Some((Some(v), rest))
  }

  /** The connect flags byte, bit by bit. */
  datatype Flags = Flags(reserved: bool, clean: bool, will: bool, willQos: nat, willRetain: bool,
                         password: bool, userName: bool)

  function ReadFlags(f: byte): Flags {
    Flags(f % 2 == 1, f / 2 % 2 == 1, f / 4 % 2 == 1, f / 8 % 4, f / 32 % 2 == 1, f / 64 % 2 == 1, f / 128 % 2 == 1)
  }

  /** The payload fields in the order client id, will topic, will message, user name, password. */
  function DecodeConnectPayload(f: Flags, keepAlive: uint16, s: bytes): (r: Option<ConnectFields>) {
    match TakeStr(s)
    case None => None
    case Some((clientId, s1)) =>
      match TakeIf(f.will, s1)
      case None => None
      case Some((topic, s2)) =>
        match TakeIf(f.will, s2)
        case None => None
        case Some((message, s3)) =>
          match TakeIf(f.userName, s3)
          case None => None
          case Some((user, s4)) =>
            match TakeIf(f.password, s4)
            case None => None
            case Some((password, s5)) =>
              if s5 != [] || (topic.Some? && message.None?) then None
              else Some(ConnectFields(f.clean, clientId,
                                      if topic.None? then None
                                      else Some(Will(topic.value, message.value, f.willQos, f.willRetain)),
                                      user, password, keepAlive))
  }

  function DecodeConnect(s: bytes): (r: Option<ConnectFields>) {
    match Body(s, 1, 0)
    case None => None
    case Some(b) =>
      if |b| < 10 || b[..7] != [0, 4, 'M' as int, 'Q' as int, 'T' as int, 'T' as int, 4] || ReadFlags(b[7]).reserved then None
      else DecodeConnectPayload(ReadFlags(b[7]), ReadUint16(b[8..]), b[10..])
  }

  /** The flags byte states exactly which payload fields follow, and the session and will settings. */
  lemma ConnectFlagBits(c: ConnectRequest)
    ensures ReadFlags(ConnectFlags(c)) ==
            Flags(false, c.flags / 2 % 2 == 1, c.willTopic.Some?,
                  if c.willTopic.Some? then c.flags / 8 % 4 else 0, c.willTopic.Some? && c.flags / 32 % 2 == 1,
                  c.password.Some?, c.userName.Some?)
  {
    var will := c.willTopic.Some?;
    FlagArithmetic(if CleanSession(c.flags) then 1 else 0, if will then 1 else 0,
                   if will then WillQos(c.flags) else 0, if will && WillRetain(c.flags) then 1 else 0,
                   if c.password.Some? then 1 else 0, if c.userName.Some? then 1 else 0);
  }

  lemma FlagArithmetic(clean: nat, will: nat, qos: nat, retain: nat, password: nat, user: nat)
    requires clean < 2 && will < 2 && qos < 4 && retain < 2 && password < 2 && user < 2
    ensures var f := clean * 2 + will * 4 + 8 * qos + retain * 32 + password * 64 + user * 128;
            && f < 256 && f % 2 == 0 && f / 2 % 2 == clean && f / 4 % 2 == will && f / 8 % 4 == qos
            && f / 32 % 2 == retain && f / 64 % 2 == password && f / 128 % 2 == user
  {
    var f := clean * 2 + will * 4 + 8 * qos + retain * 32 + password * 64 + user * 128;
    assert f / 2 == clean + 2 * (will + 2 * qos + 8 * retain + 16 * password + 32 * user);
    assert f / 4 == will + 2 * (qos + 4 * retain + 8 * password + 16 * user);
    assert f / 8 == qos + 4 * (retain + 2 * password + 4 * user);
    assert f / 32 == retain + 2 * (password + 2 * user);
    assert f / 64 == password + 2 * user && f / 128 == user;
  }

  lemma TakeIfRoundTrip(s: Option<bytes>, rest: bytes)
    requires ShortOption(s)
    ensures TakeIf(s.Some?, OptStr(s) + rest) == Some((s, rest))
  {
    if s.Some? {
      StrRoundTrip(s.value, rest);
    } else {
      assert [] + rest == rest;
    }
  }

  lemma ConnectPayloadRoundTrip(c: ConnectRequest, f: Flags)
    requires ConnectInRange(c) && (c.willTopic.Some? ==> c.willMessage.Some?)
    requires f.will == c.willTopic.Some? && f.userName == c.userName.Some? && f.password == c.password.Some?
    requires f.clean == CleanSession(c.flags)
    requires f.will ==> f.willQos == WillQos(c.flags) && f.willRetain == WillRetain(c.flags)
    ensures DecodeConnectPayload(f, c.keepAlive, ConnectPayload(c)) == Some(FieldsOf(c))
  {
    var message := if c.willTopic.Some? then c.willMessage else None;
    var s4 := OptStr(c.password);
    var s3 := OptStr(c.userName) + s4;
    var s2 := OptStr(message) + s3;
    var s1 := OptStr(c.willTopic) + s2;
    assert s4 + [] == s4;
    PayloadFromFront(c);
    StrRoundTrip(ClientId(c), s1);
    TakeIfRoundTrip(c.willTopic, s2);
    TakeIfRoundTrip(message, s3);
    TakeIfRoundTrip(c.userName, s4);
    TakeIfRoundTrip(c.password, []);
  }

  lemma PayloadFromFront(c: ConnectRequest)
    requires ConnectInRange(c) && (c.willTopic.Some? ==> c.willMessage.Some?)
    ensures ConnectPayload(c) ==
            Str(ClientId(c)) + (OptStr(c.willTopic) + (OptStr(if c.willTopic.Some? then c.willMessage else None) +
            (OptStr(c.userName) + OptStr(c.password))))
  {
  }

  lemma BodyFromFront(c: ConnectRequest)
    requires ConnectInRange(c) && (c.willTopic.Some? ==> c.willMessage.Some?)
    ensures ConnectBody(c) == PROTOCOL + ([ConnectFlags(c)] + (Uint16(c.keepAlive) + ConnectPayload(c)))
  {
    Associative(PROTOCOL, [ConnectFlags(c)], Uint16(c.keepAlive), ConnectPayload(c));
  }

  lemma Associative(a: bytes, b: bytes, c: bytes, d: bytes)
    ensures a + b + c + d == a + (b + (c + d))
  {
  }

  lemma BodyFields(f: byte, keepAlive: uint16, payload: bytes, b: bytes)
    requires b == PROTOCOL + ([f] + (Uint16(keepAlive) + payload))
    ensures |b| >= 10 && b[..7] == PROTOCOL && b[7] == f
    ensures ReadUint16(b[8..]) == keepAlive && b[10..] == payload
  {
    assert b[8..] == Uint16(keepAlive) + payload;
    Uint16RoundTrip(keepAlive, payload);
    assert b[10..] == b[8..][2..];
  }

  /** Every sound connection request is packed, and the broker recovers all its fields. */
  lemma ConnectRoundTrip(c: ConnectRequest)
    requires ConnectInRange(c) && ConnectSound(c)
    ensures ConnectImage(c).Image? && DecodeConnect(ConnectImage(c).image) == Some(FieldsOf(c))
  {
    ConnectAccepted(c);
    var b, f, payload := ConnectBody(c), ConnectFlags(c), ConnectPayload(c);
    BodyOfFramed(CONNECT, 0, b);
    BodyFromFront(c);
    BodyFields(f, c.keepAlive, payload, b);
    ConnectFlagBits(c);
    ConnectPayloadRoundTrip(c, ReadFlags(f));
  }

  // ---- PUBLISH ----

  datatype PublishFields = PublishFields(dup: bool, qos: nat, retain: bool, topic: bytes, id: Option<uint16>, payload: bytes)

  /** A PUBLISH that fills `s`, of any size (section 3.3): a packet id is there exactly above QoS 0. */
  function DecodePublish(s: bytes): (r: Option<PublishFields>) {
    if |s| == 0 then None
    else
      var f := s[0] % 16;
      var qos := f / 2 % 4;
      match Body(s, 3, f)
      case None => None
      case Some(b) =>
        match TakeStr(b)
        case None => None
        case Some((topic, rest)) =>
          if qos == 3 || (qos > 0 && |rest| < 2) then None
          else if qos == 0 then Some(PublishFields(f / 8 == 1, 0, f % 2 == 1, topic, None, rest))
          else Some(PublishFields(f / 8 == 1, qos, f % 2 == 1, topic, Some(ReadUint16(rest)), rest[2..]))
  }

  /** Every PUBLISH with a topic and a QoS that exists is packed, and the broker recovers all of it; DUP is 0 at QoS 0. */
  lemma PublishDecoded(topic: Option<bytes>, id: uint16, payload: bytes, flags: byte)
    requires PublishInRange(topic, payload) && topic.Some? && flags / 2 % 4 != 3
    ensures var p, qos := PublishImage(topic, id, payload, flags), flags / 2 % 4;
            p.Image? && DecodePublish(p.image) ==
            Some(PublishFields(qos > 0 && flags / 8 % 2 == 1, qos, flags % 2 == 1, topic.value,
                               if qos > 0 then Some(id) else None, payload))
  {
    PublishAccepted(topic, id, payload, flags);
    PublishFlagsFields(flags);
    var f := PublishFlags(flags);
    PublishBodyDecoded(f, topic.value, id, payload);
  }

  lemma PublishBodyDecoded(f: nat, topic: bytes, id: uint16, payload: bytes)
    requires f < 16 && |topic| <= MAX_STRING && |PublishBody(topic, id, payload, Qos(f))| < MAX_REMAINING && Qos(f) != 3
    ensures DecodePublish(Framed(PUBLISH, f, PublishBody(topic, id, payload, Qos(f)))) ==
            Some(PublishFields(f / 8 == 1, Qos(f), f % 2 == 1, topic, if Qos(f) > 0 then Some(id) else None, payload))
  {
    var body := PublishBody(topic, id, payload, Qos(f));
    BodyOfFramed(PUBLISH, f, body);
    assert EncodeHeader(Header(PUBLISH, f, |body|))[0] == 16 * PUBLISH + f;
    var rest := (if Qos(f) > 0 then Uint16(id) else []) + payload;
    assert body == Str(topic) + rest;
    StrRoundTrip(topic, rest);
    if Qos(f) > 0 {
      Uint16RoundTrip(id, payload);
    } else {
      assert rest == payload;
    }
  }

  // ---- SUBSCRIBE and UNSUBSCRIBE ----

  function DecodeFilters(s: bytes, withQos: bool): (r: Option<seq<Subscription>>)
    decreases |s|
  {
    if s == [] then Some([])
    else
      match TakeStr(s)
      case None => None
      case Some((topic, rest)) =>
        if withQos && rest == [] then None
        else
          var sub := Subscription(topic, if withQos then rest[0] else 0);
          match DecodeFilters(if withQos then rest[1..] else rest, withQos)
          case None => None
          case Some(subs) => Some([sub] + subs)
  }

  function DecodeTopics(s: bytes, ctype: nat, withQos: bool): (r: Option<(uint16, seq<Subscription>)>) {
    match Body(s, ctype, 2)
    case None => None
    case Some(b) =>
      if |b| < 2 then None
      else
        match DecodeFilters(b[2..], withQos)
        case None => None
        case Some(subs) => Some((ReadUint16(b), subs))
  }

  /** An UNSUBSCRIBE carries topic filters only. */
  function Topics(subs: seq<Subscription>, withQos: bool): (r: seq<Subscription>)
    ensures |r| == |subs|
  {
    seq(|subs|, i requires 0 <= i < |subs| => if withQos then subs[i] else Subscription(subs[i].topic, 0))
  }

  lemma InitAndTail<T>(s: seq<T>)
    requires |s| >= 2
    ensures var n := |s| - 1;
            s[..n][0] == s[0] && s[..n][1..] == s[1..][..n - 1] && s[1..][n - 1] == s[n]
  {
  }

  lemma {:induction false} FiltersFromFront(subs: seq<Subscription>, withQos: bool)
    requires TopicsInRange(subs) && subs != []
    ensures Filters(subs, withQos) == Filter(subs[0], withQos) + Filters(subs[1..], withQos)
    decreases |subs|
  {
    var n := |subs| - 1;
    if n == 0 {
      assert subs[..0] == [] && subs[1..] == [];
    } else {
      var init, tail := subs[..n], subs[1..];
      FiltersFromFront(init, withQos);
      InitAndTail(subs);
      var f, g, h := Filter(subs[0], withQos), Filters(init[1..], withQos), Filter(subs[n], withQos);
      assert Filters(tail, withQos) == g + h;
      assert f + g + h == f + (g + h);
    }
  }

  lemma TopicsFromFront(subs: seq<Subscription>, withQos: bool)
    requires subs != []
    ensures Topics(subs, withQos) ==
            [Subscription(subs[0].topic, if withQos then subs[0].maxQos else 0)] + Topics(subs[1..], withQos)
  {
  }

  lemma FilterRoundTrip(sub: Subscription, withQos: bool, rest: bytes)
    requires |sub.topic| <= MAX_STRING && DecodeFilters(rest, withQos).Some?
    ensures DecodeFilters(Filter(sub, withQos) + rest, withQos) ==
            Some([Subscription(sub.topic, if withQos then sub.maxQos else 0)] + DecodeFilters(rest, withQos).value)
  {
    var tail := (if withQos then [sub.maxQos] else []) + rest;
    assert Filter(sub, withQos) + rest == Str(sub.topic) + tail;
    StrRoundTrip(sub.topic, tail);
    assert if withQos then tail[1..] == rest else tail == rest;
  }

  lemma {:induction false} FiltersRoundTrip(subs: seq<Subscription>, withQos: bool)
    requires TopicsInRange(subs)
    ensures DecodeFilters(Filters(subs, withQos), withQos) == Some(Topics(subs, withQos))
    decreases |subs|
  {
    if subs != [] {
      var rest := subs[1..];
      FiltersFromFront(subs, withQos);
      FiltersRoundTrip(rest, withQos);
      FilterRoundTrip(subs[0], withQos, Filters(rest, withQos));
      TopicsFromFront(subs, withQos);
    }
  }

  lemma {:induction false} FiltersSize(subs: seq<Subscription>, withQos: bool)
    requires TopicsInRange(subs)
    ensures |Filters(subs, withQos)| <= |subs| * 0x1_0002
    decreases |subs|
  {
    if subs != [] {
      FiltersSize(subs[..|subs| - 1], withQos);
    }
  }

  /** The broker recovers the packet id, every topic filter and every QoS, in order. */
  lemma SubscribeRoundTrip(id: uint16, subs: seq<Subscription>)
    requires TopicsInRange(subs) && |subs| < 8
    ensures SubscribeImage(id, subs).Image?
    ensures DecodeTopics(SubscribeImage(id, subs).image, SUBSCRIBE, true) == Some((id, subs))
  {
    FiltersSize(subs, true);
    BodyOfFramed(SUBSCRIBE, 2, Uint16(id) + Filters(subs, true));
    Uint16RoundTrip(id, Filters(subs, true));
    FiltersRoundTrip(subs, true);
    assert Topics(subs, true) == subs;
  }

  lemma UnsubscribeRoundTrip(id: uint16, subs: seq<Subscription>)
    requires TopicsInRange(subs) && |subs| < 8
    ensures UnsubscribeImage(id, subs).Image?
    ensures DecodeTopics(UnsubscribeImage(id, subs).image, UNSUBSCRIBE, false) == Some((id, Topics(subs, false)))
  {
    FiltersSize(subs, false);
    BodyOfFramed(UNSUBSCRIBE, 2, Uint16(id) + Filters(subs, false));
    Uint16RoundTrip(id, Filters(subs, false));
    FiltersRoundTrip(subs, false);
  }
}
