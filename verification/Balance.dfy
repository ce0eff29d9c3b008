/**
 Requests against acknowledgements. As long as nothing has timed out, every request sent and not yet
 acknowledged is a record that awaits its acknowledgement; so an acknowledgement that finds no record
 shows that more were received than requests were sent.
 */
module Balance {
  import opened Options
  import opened MqttTypes
  import opened Wire
  import opened FixedHeader
  import opened Packets
  import opened Responses
  import opened Decoders
  import opened QueueSpec
  import opened Session
  import opened Ledger

  // ---- What a broker reads in a packet ----

  /** The request, if the packet is one that must be acknowledged. */
  function RequestKey(image: bytes): Option<Key> {
    match DecodeHeader(image)
    case NeedMore => None
    case Rejected(_) => None
    case Unpacked(h, _) =>
      if h.ctype == CONNECT then
        if DecodeConnect(image).Some? then Some(Key(CONNECT, 0)) else None
      else if h.ctype == SUBSCRIBE then
        match DecodeTopics(image, SUBSCRIBE, true) case None => None case Some((id, _)) => Some(Key(SUBSCRIBE, id))
      else if h.ctype == UNSUBSCRIBE then
        match DecodeTopics(image, UNSUBSCRIBE, false) case None => None case Some((id, _)) => Some(Key(UNSUBSCRIBE, id))
      else if h.ctype == PINGREQ then Some(Key(PINGREQ, 0))
      else
        match Unpack(image)
        case Got(Publish(_, qos, _, _, id, _), _) => if qos > 0 then Some(Key(PUBLISH, id)) else None
        case Got(Pubrec(id), _) => Some(Key(PUBREC, id))
        case Got(Pubrel(id), _) => Some(Key(PUBREL, id))
        case _ => None
  }

  /** The bytes are one packet: the header's remaining length ends exactly where they end. */
  predicate WholeFrame(image: bytes) {
    DecodeHeader(image).Unpacked? && FrameSize(image) == |image|
  }

  /** A broker reads in the registered bytes what the record says of them. */
  predicate Honest(image: bytes, ctype: int, id: uint16) {
    && |image| > 0 && Sendable(ctype) && WholeFrame(image) && image[0] / 16 == ctype
    && RequestKey(image) == if FireAndForget(ctype, image) then None else Some(KeyOf(ctype, id))
  }

  lemma FramedHeader(ctype: nat, flags: nat, body: bytes)
    requires ctype < 16 && flags < 16 && |body| < MAX_REMAINING
    requires RuleViolation(Header(ctype, flags, |body|)) == 0
    ensures DecodeHeader(Framed(ctype, flags, body)).Unpacked?
    ensures DecodeHeader(Framed(ctype, flags, body)).header.ctype == ctype
    ensures WholeFrame(Framed(ctype, flags, body)) && Framed(ctype, flags, body)[0] / 16 == ctype
    ensures |Framed(ctype, flags, body)| > 0 && Framed(ctype, flags, body)[0] == 16 * ctype + flags
  {
    UnpackFramed(ctype, flags, body, []);
    assert Framed(ctype, flags, body) + [] == Framed(ctype, flags, body);
  }

  lemma ConnectHonest(c: ConnectRequest, id: uint16)
    requires ConnectInRange(c) && ConnectImage(c).Image?
    ensures Honest(ConnectImage(c).image, CONNECT, id)
  {
    ConnectAccepted(c);
    ConnectRoundTrip(c);
    FramedHeader(CONNECT, 0, ConnectBody(c));
  }

  lemma SubscribeHonest(id: uint16, subs: seq<Subscription>)
    requires TopicsInRange(subs) && SubscribeImage(id, subs).Image?
    ensures Honest(SubscribeImage(id, subs).image, SUBSCRIBE, id)
  {
    SubscribeRoundTrip(id, subs);
    FiltersSize(subs, true);
    FramedHeader(SUBSCRIBE, 2, Uint16(id) + Filters(subs, true));
  }

  lemma UnsubscribeHonest(id: uint16, subs: seq<Subscription>)
    requires TopicsInRange(subs) && UnsubscribeImage(id, subs).Image?
    ensures Honest(UnsubscribeImage(id, subs).image, UNSUBSCRIBE, id)
  {
    UnsubscribeRoundTrip(id, subs);
    FiltersSize(subs, false);
    FramedHeader(UNSUBSCRIBE, 2, Uint16(id) + Filters(subs, false));
  }

  lemma BareHonest(ctype: nat, id: uint16)
    requires ctype == PINGREQ || ctype == DISCONNECT
    ensures Honest(BareImage(ctype).image, ctype, id)
  {
    FramedHeader(ctype, 0, []);
    UnpackFramed(ctype, 0, [], []);
    assert Framed(ctype, 0, []) + [] == Framed(ctype, 0, []);
  }

  lemma PubxxxHonest(ctype: nat, id: uint16)
    requires IsPubxxx(ctype)
    ensures Honest(PubxxxImage(ctype, id).image, ctype, id)
  {
    var flags := if ctype == PUBREL then 2 else 0;
    FramedHeader(ctype, flags, Uint16(id));
    IdRoundTrip(ctype, flags, id, []);
    assert Framed(ctype, flags, Uint16(id)) + [] == Framed(ctype, flags, Uint16(id));
  }

  lemma PublishHonest(topic: Option<bytes>, id: uint16, payload: bytes, flags: byte)
    requires PublishInRange(topic, payload) && PublishImage(topic, id, payload, flags).Image?
    ensures Honest(PublishImage(topic, id, payload, flags).image, PUBLISH, id)
  {
    PublishKey(topic, id, payload, flags);
    PublishFrame(topic, id, payload, flags);
  }

  lemma PublishFrame(topic: Option<bytes>, id: uint16, payload: bytes, flags: byte)
    requires PublishInRange(topic, payload) && PublishImage(topic, id, payload, flags).Image?
    ensures var image := PublishImage(topic, id, payload, flags).image;
            && |image| > 0 && WholeFrame(image)
            && image[0] / 16 == PUBLISH && Qos(image[0]) == Qos(flags)
  {
    QosOfFirst(flags);
    FramedHeader(PUBLISH, PublishFlags(flags), PublishBody(topic.value, id, payload, Qos(flags)));
  }

  lemma QosOfFirst(flags: byte)
    ensures Qos(16 * PUBLISH + PublishFlags(flags)) == Qos(flags)
  {
    PublishFlagsFields(flags);
    assert (16 * PUBLISH + PublishFlags(flags)) / 2 == 8 * PUBLISH + PublishFlags(flags) / 2;
  }

  lemma PublishKey(topic: Option<bytes>, id: uint16, payload: bytes, flags: byte)
    requires PublishInRange(topic, payload) && PublishImage(topic, id, payload, flags).Image?
    ensures RequestKey(PublishImage(topic, id, payload, flags).image) ==
            if Qos(flags) == 0 then None else Some(Key(PUBLISH, id))
  {
    var image := PublishImage(topic, id, payload, flags).image;
    PublishAccepted(topic, id, payload, flags);
    PublishRoundTrip(topic, id, payload, flags, []);
    assert image + [] == image;
    FramedHeader(PUBLISH, PublishFlags(flags), PublishBody(topic.value, id, payload, Qos(flags)));
  }

  // ---- Counting ----

  function Sent(log: seq<Tx>, k: Key): nat {
    if log == [] then 0
    else Sent(log[..|log| - 1], k) + if RequestKey(log[|log| - 1].image) == Some(k) then 1 else 0
  }

  function Acked(disp: seq<Response>, k: Key): nat {
    if disp == [] then 0
    else Acked(disp[..|disp| - 1], k) + if AckKey(disp[|disp| - 1]) == Some(k) then 1 else 0
  }

  function Weight(m: Msg, k: Key): nat {
    if m.state.AwaitingAck? && KeyOf(m.ctype, m.id) == k then 1 else 0
  }

  function Awaiting(q: seq<Msg>, k: Key): nat {
    if q == [] then 0 else Awaiting(q[..|q| - 1], k) + Weight(q[|q| - 1], k)
  }

  lemma AckedAppend(disp: seq<Response>, r: Response, k: Key)
    ensures Acked(disp + [r], k) == Acked(disp, k) + if AckKey(r) == Some(k) then 1 else 0
  {
    assert (disp + [r])[..|disp|] == disp;
  }

  lemma {:induction false} AwaitingUpdate(q: seq<Msg>, i: nat, m: Msg, k: Key)
    requires i < |q|
    ensures Awaiting(q[i := m], k) + Weight(q[i], k) == Awaiting(q, k) + Weight(m, k)
    decreases |q|
  {
    var n := |q| - 1;
    if i == n {
      assert q[i := m][..n] == q[..n];
    } else {
      AwaitingUpdate(q[..n], i, m, k);
      assert q[i := m][..n] == q[..n][i := m];
    }
  }

  lemma {:induction false} AwaitingDrop(q: seq<Msg>, n: nat, k: Key)
    requires n <= |q| && forall i :: 0 <= i < n ==> q[i].state.Complete?
    ensures Awaiting(q[n..], k) == Awaiting(q, k)
    decreases |q|
  {
    if n == |q| {
      if n > 0 {
        AwaitingDrop(q[..n - 1], n - 1, k);
      }
    } else {
      AwaitingDrop(q[..|q| - 1], n, k);
      assert q[n..][..|q| - n - 1] == q[..|q| - 1][n..];
    }
  }

  lemma {:induction false} AwaitingFound(q: seq<Msg>, k: Key) returns (i: nat)
    requires Awaiting(q, k) > 0
    ensures i < |q| && Weight(q[i], k) == 1
  {
    var n := |q| - 1;
    if Weight(q[n], k) == 1 {
      i := n;
    } else {
      i := AwaitingFound(q[..n], k);
    }
  }

  /** Every request sent has been acknowledged or is awaited; `due` has been acknowledged once more than is booked. */
  ghost predicate Balanced(q: seq<Msg>, log: seq<Tx>, disp: seq<Response>, due: Option<Key>) {
    forall k {:trigger Sent(log, k)} :: Sent(log, k) + (if due == Some(k) then 1 else 0) <= Acked(disp, k) + Awaiting(q, k)
  }

  /** Some request was acknowledged more often than it was sent. */
  ghost predicate OverAcked(log: seq<Tx>, disp: seq<Response>) {
    exists k :: Acked(disp, k) > Sent(log, k)
  }

  lemma CleanBalance(q: seq<Msg>, log: seq<Tx>, disp: seq<Response>, due: Option<Key>)
    requires Balanced(q, log, disp, due)
    ensures Balanced(Cleaned(q), log, disp, due)
  {
    forall k
      ensures Sent(log, k) + (if due == Some(k) then 1 else 0) <= Acked(disp, k) + Awaiting(Cleaned(q), k)
    {
      AwaitingDrop(q, CompletePrefix(q), k);
    }
  }

  lemma AppendBalance(q: seq<Msg>, m: Msg, log: seq<Tx>, disp: seq<Response>, due: Option<Key>)
    requires Balanced(q, log, disp, due)
    ensures Balanced(q + [m], log, disp, due)
  {
    forall k
      ensures Sent(log, k) + (if due == Some(k) then 1 else 0) <= Acked(disp, k) + Awaiting(q + [m], k)
    {
    }
  }

  /** A first transmission: the record starts to await what the broker reads as a request. */
  lemma TransmitBalance(q: seq<Msg>, log: seq<Tx>, disp: seq<Response>, i: nat, stamp: int, uid: nat)
    requires Balanced(q, log, disp, None) && i < |q| && q[i].state.Unsent?
    requires Honest(q[i].image, q[i].ctype, q[i].id)
    ensures Balanced(q[i := AfterSend(q[i], stamp)], log + [Tx(uid, q[i].image)], disp, None)
  {
    var m, t := AfterSend(q[i], stamp), Tx(uid, q[i].image);
    forall k
      ensures Sent(log + [t], k) <= Acked(disp, k) + Awaiting(q[i := m], k)
    {
      assert Sent(log, k) <= Acked(disp, k) + Awaiting(q, k);
      AwaitingUpdate(q, i, m, k);
    }
  }

  lemma DispatchBalance(q: seq<Msg>, log: seq<Tx>, disp: seq<Response>, r: Response)
    requires Balanced(q, log, disp, None)
    ensures Balanced(q, log, disp + [r], AckKey(r))
  {
    forall k
      ensures Sent(log, k) + (if AckKey(r) == Some(k) then 1 else 0) <= Acked(disp + [r], k) + Awaiting(q, k)
    {
      assert Sent(log, k) <= Acked(disp, k) + Awaiting(q, k);
      AckedAppend(disp, r, k);
    }
  }

  /** The record that the acknowledgement refers to is booked off. */
  lemma CompleteBalance(q: seq<Msg>, log: seq<Tx>, disp: seq<Response>, i: nat)
    requires i < |q| && Balanced(q, log, disp, Some(KeyOf(q[i].ctype, q[i].id)))
    ensures Balanced(SetComplete(q, i), log, disp, None)
  {
    forall k
      ensures Sent(log, k) <= Acked(disp, k) + Awaiting(SetComplete(q, i), k)
    {
      AwaitingUpdate(q, i, q[i].(state := Complete, sentAt := 0), k);
    }
  }

  lemma ForgiveBalance(q: seq<Msg>, log: seq<Tx>, disp: seq<Response>, due: Option<Key>)
    requires Balanced(q, log, disp, due)
    ensures Balanced(q, log, disp, None)
  {
    forall k
      ensures Sent(log, k) <= Acked(disp, k) + Awaiting(q, k)
    {
      assert Sent(log, k) + (if due == Some(k) then 1 else 0) <= Acked(disp, k) + Awaiting(q, k);
    }
  }

  /** The acknowledgement in hand, as the key it books and the arguments of the search for its record. */
  predicate Refers(k: Key, ctype: int, id: Option<uint16>) {
    && k == (match id case None => Key(ctype, 0) case Some(n) => Key(ctype, n))
    && ((ctype == CONNECT || ctype == PINGREQ) <==> id.None?)
    && ctype in {CONNECT, PUBLISH, PUBREC, PUBREL, SUBSCRIBE, UNSUBSCRIBE, PINGREQ}
  }

  /** No record found: the acknowledgement was one too many. */
  lemma UnknownIsOverAcked(q: seq<Msg>, log: seq<Tx>, disp: seq<Response>, ctype: int, id: Option<uint16>, k: Key)
    requires Balanced(q, log, disp, Some(k)) && Find(q, ctype, id).None? && Refers(k, ctype, id)
    ensures OverAcked(log, disp)
  {
    if Awaiting(q, k) > 0 {
      var i := AwaitingFound(q, k);
    }
    assert Acked(disp, k) > Sent(log, k);
  }

  lemma OverAckedStays(log: seq<Tx>, disp: seq<Response>, r: Response)
    requires OverAcked(log, disp)
    ensures OverAcked(log, disp + [r])
  {
    var k :| Acked(disp, k) > Sent(log, k);
    AckedAppend(disp, r, k);
    assert Acked(disp + [r], k) > Sent(log, k);
  }

  lemma {:induction false} AckedPrefix(disp: seq<Response>, out: seq<Response>, k: Key)
    requires disp <= out
    ensures Acked(disp, k) <= Acked(out, k)
    decreases |out|
  {
    if |disp| < |out| {
      assert disp <= out[..|out| - 1];
      AckedPrefix(disp, out[..|out| - 1], k);
    } else {
      assert disp == out;
    }
  }

  lemma {:induction false} SentPrefix(log: seq<Tx>, n: nat, k: Key)
    requires n <= |log|
    ensures Sent(log[..n], k) <= Sent(log, k)
    decreases |log|
  {
    if n < |log| {
      SentPrefix(log[..|log| - 1], n, k);
      assert log[..|log| - 1][..n] == log[..n];
    } else {
      assert log[..n] == log;
    }
  }
}
