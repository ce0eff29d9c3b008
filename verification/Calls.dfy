/**
 What a call of the application comes to: refused for its arguments, refused for want of room, or registered as
 a packet in which a broker reads exactly what the application asked for, under an id nothing else carries.
 */
module Calls {
  import opened Options
  import opened MqttTypes
  import opened Packets
  import opened Decoders
  import opened Responses
  import opened QueueSpec
  import opened Session
  import opened PacketIds
  import opened Staging
  import opened Runs
  import Lfsr

  predicate Stages(call: Call) {
    !call.CallSend? && !call.CallRecv? && !call.SetResponseTimeout?
  }

  function TypeOf(call: Call): int
    requires Stages(call)
  {
    match call
    case CallConnect(_, _) => CONNECT
    case CallPublish(_, _, _) => PUBLISH
    case CallSubscribe(_, _) => SUBSCRIBE
    case CallUnsubscribe(_) => UNSUBSCRIBE
    case CallPing(_) => PINGREQ
    case CallDisconnect(_) => DISCONNECT
  }

  /** What is wrong with the arguments; OK if nothing is. */
  function Objection(call: Call): int
    requires Stages(call)
  {
    match call
    case CallConnect(c, _) =>
      if (c.clientId.None? || c.clientId.value == []) && c.flags / 2 % 2 == 0 then ERROR_CLEAN_SESSION_IS_REQUIRED
      else if c.willTopic.Some? && c.willMessage.None? then ERROR_CONNECT_NULL_WILL_MESSAGE
      else if c.willTopic.Some? && c.flags / 8 % 4 == 3 then ERROR_CONNECT_FORBIDDEN_WILL_QOS
      else OK
    case CallPublish(topic, _, flags) =>
      if topic.None? then ERROR_NULLPTR
      else if flags / 2 % 4 == 3 then ERROR_PUBLISH_FORBIDDEN_QOS
      else OK
    case _ => OK
  }

  /** The topics that a call may name: one, or none for a null pointer. */
  function Named(filter: Option<bytes>, qos: byte): seq<Subscription> {
    if filter.None? then [] else [Subscription(filter.value, qos)]
  }

  /** A broker reads in the packet what the call asks for. */
  predicate Says(call: Call, image: bytes, id: uint16)
    requires Stages(call)
  {
    match call
    case CallConnect(c, _) => (c.willTopic.Some? ==> c.willMessage.Some?) && DecodeConnect(image) == Some(FieldsOf(c))
    case CallPublish(topic, payload, flags) =>
      var qos := flags / 2 % 4;
      topic.Some? && DecodePublish(image) ==
      Some(PublishFields(qos > 0 && flags / 8 % 2 == 1, qos, flags % 2 == 1, topic.value,
                         if qos > 0 then Some(id) else None, payload))
    case CallSubscribe(filter, maxQos) => DecodeTopics(image, 8, true) == Some((id, Named(filter, maxQos % 256)))
    case CallUnsubscribe(filter) => DecodeTopics(image, 10, false) == Some((id, Named(filter, 0)))
    case CallPing(_) => image == [0xC0, 0]
    case CallDisconnect(_) => image == [0xE0, 0]
  }

  predicate Draws(call: Call) {
    call.CallPublish? || call.CallSubscribe? || call.CallUnsubscribe?
  }

  /** The id is the first free one on the register's way, and the register stays there. */
  ghost predicate Drawn(s: State, id: uint16, t: State) {
    && (forall i :: 0 <= i < |s.queue| ==> s.queue[i].id != id) && id != 0 && t.pid as int == id
    && exists j :: FirstFree(s, j) && id == Id(Lfsr.Iter(j, Lfsr.Reg(if s.pid == 0 then 163 else s.pid)))
  }

  predicate FirstFree(s: State, j: nat) {
    var start := Lfsr.Reg(if s.pid == 0 then 163 else s.pid);
    j >= 1 && forall k: nat :: 1 <= k < j ==> Carried(s.queue, Id(Lfsr.Iter(k, start)))
  }

  /** What the packer produces for the call under the id, and the state it is staged in. */
  function Packet(call: Call, id: uint16): Packed
    requires Stages(call)
    requires call.CallConnect? ==> ConnectInRange(call.c)
    requires call.CallPublish? ==> PublishInRange(call.topic, call.payload)
    requires call.CallSubscribe? || call.CallUnsubscribe? ==> TopicInRange(call.filter)
  {
    match call
    case CallConnect(c, _) => ConnectImage(c)
    case CallPublish(topic, payload, flags) => PublishImage(topic, id, payload, flags)
    case CallSubscribe(filter, maxQos) => SubscribeImage(id, Session.Topics(filter, maxQos))
    case CallUnsubscribe(filter) => UnsubscribeImage(id, Session.Topics(filter, 0))
    case CallPing(_) => BareImage(PINGREQ)
    case CallDisconnect(_) => BareImage(DISCONNECT)
  }

  /** Packed if and only if nothing is wrong; and then it says what the call asks for. */
  lemma PacketSays(s: State, call: Call, id: uint16)
    requires Stages(call) && Legal(s, call)
    ensures var p := Packet(call, id);
            if Objection(call) == OK then p.Image? && |p.image| >= 2 && Says(call, p.image, id)
            else p == Fails(Objection(call)) && Objection(call) < 0
  {
    match call
    case CallConnect(c, _) =>
      ConnectAccepted(c);
      if ConnectSound(c) {
        ConnectRoundTrip(c);
      }
    case CallPublish(topic, payload, flags) =>
      PublishAccepted(topic, id, payload, flags);
      if topic.Some? && flags / 2 % 4 != 3 {
        PublishDecoded(topic, id, payload, flags);
      }
    case CallSubscribe(filter, maxQos) =>
      SubscribeRoundTrip(id, Session.Topics(filter, maxQos));
    case CallUnsubscribe(filter) =>
      UnsubscribeRoundTrip(id, Session.Topics(filter, 0));
      assert Decoders.Topics(Session.Topics(filter, 0), false) == Named(filter, 0);
    case CallPing(_) => BareBytes(PINGREQ);
    case CallDisconnect(_) => BareBytes(DISCONNECT);
  }

  /** Before it stages its packet a call notes the keep-alive interval, or draws an id. */
  function Prepared(s: State, call: Call): State {
    match call
    case CallConnect(c, _) =>
      s.(keepAlive := c.keepAlive, error := if s.error == ERROR_CONNECT_NOT_CALLED then OK else s.error)
    case CallPing(_) => s
    case CallDisconnect(_) => s
    case _ => s.(pid := NextPid(s).bits)
  }

  function IdOf(s: State, call: Call): uint16
    requires Stages(call)
  {
    match call
    case CallConnect(_, stale) => stale
    case CallPing(stale) => stale
    case CallDisconnect(stale) => stale
    case _ => Id(NextPid(s))
  }

  lemma ApplyStages(cfg: Config, s: State, call: Call)
    requires Stages(call) && Legal(s, call) && Ready(cfg, s)
    ensures var id := IdOf(s, call);
            Apply(cfg, s, call) == Stage(cfg, Prepared(s, call), Packet(call, id), TypeOf(call), id)
  {
  }

  lemma IdIsDrawn(s: State, call: Call)
    requires Stages(call) && Legal(s, call) && Draws(call)
    ensures Drawn(s, IdOf(s, call), Prepared(s, call))
  {
    NextPidIsFree(s);
    var j := NextPidIsFirst(s);
    assert FirstFree(s, j);
  }

  /** The packet and its record fit, or fit when the COMPLETE messages at the front have gone. */
  ghost predicate RoomFor(cfg: Config, q: seq<Msg>, n: nat) {
    HasRoom(cfg, q, n) || exists k: nat :: Spent(q, k) && HasRoom(cfg, q[k..], n)
  }

  lemma StageOutcome(cfg: Config, s: State, p: Packed, ctype: int, id: uint16)
    requires if p.Fails? then p.err < 0 else |p.image| > 0
    ensures var (t, rv) := Stage(cfg, s, p, ctype, id);
            && t.keepAlive == s.keepAlive && t.pid == s.pid
            && rv == (if s.error < 0 then s.error else if p.Fails? then p.err
                      else if RoomFor(cfg, s.queue, |p.image|) then OK else ERROR_SEND_BUFFER_IS_FULL)
            && (if rv == OK then t.h.regs == s.h.regs + [Registered(p.image, ctype, id, |s.h.dispatched|)] && t.error == s.error
                else t.h.regs == s.h.regs && t.error == rv)
  {
    var k := CompletePrefix(s.queue);
    assert Spent(s.queue, k);
    forall j: nat | Spent(s.queue, j)
      ensures j == k
    {
      SpentIsPrefix(s.queue, j);
    }
    if p.Image? {
      StageExactly(cfg, s, k, p, ctype, id);
    }
  }

  /** What comes of the call, for a packet `image` of the record `id` in the state `t` after it. */
  ghost predicate Outcome(cfg: Config, s: State, call: Call, image: bytes, id: uint16, t: State, rv: int)
    requires Stages(call)
  {
    var open := s.error >= 0 || (call.CallConnect? && s.error == ERROR_CONNECT_NOT_CALLED);
    && t.keepAlive == (if call.CallConnect? then call.c.keepAlive else s.keepAlive)
    && (if Draws(call) then Drawn(s, id, t) else t.pid == s.pid)
    && (if rv == OK then
          && t.h.regs == s.h.regs + [Registered(image, TypeOf(call), id, |s.h.dispatched|)]
          && t.error == (if s.error >= 0 then s.error else OK)
        else t.h.regs == s.h.regs && t.error == rv)
    && if !open then rv == s.error
       else if Objection(call) != OK then rv == Objection(call)
       else Says(call, image, id) && rv == if RoomFor(cfg, s.queue, |image|) then OK else ERROR_SEND_BUFFER_IS_FULL
  }

  /**
   Every call, in any state: in error it reports that error, with unsound arguments it reports what is wrong with
   them, and otherwise its packet is registered if it fits, if need be after a clean, or the buffer is full.
   */
  lemma CallOutcome(cfg: Config, s: State, call: Call) returns (image: bytes, id: uint16)
    requires Stages(call) && Legal(s, call) && Ready(cfg, s)
    ensures Outcome(cfg, s, call, image, id, Apply(cfg, s, call).0, Apply(cfg, s, call).1)
    ensures !Draws(call) ==> id == IdOf(s, call)
  {
    id := IdOf(s, call);
    var p := Packet(call, id);
    image := if p.Image? then p.image else [];
    ApplyStages(cfg, s, call);
    PacketSays(s, call, id);
    StageOutcome(cfg, Prepared(s, call), p, TypeOf(call), id);
    if Draws(call) {
      IdIsDrawn(s, call);
    }
  }
}
