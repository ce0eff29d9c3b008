/**
 What the client owes a packet that it receives, as a table: the request that the packet acknowledges, the reply
 it calls for, the refusal it carries, and when it is a repetition. `HandledByTable` says that handling a
 packet is what the table says, in any state; the rest reads single entries off it.
 */
module Handling {
  import opened Options
  import opened MqttTypes
  import opened Packets
  import opened Responses
  import opened QueueSpec
  import opened Session
  import opened Ledger
  import opened Staging

  /** The reply a packet calls for; none is 0. */
  function ReplyType(r: Response): nat {
    match r
    case Publish(_, 1, _, _, _, _) => PUBACK
    case Publish(_, 2, _, _, _, _) => PUBREC
    case Pubrec(_) => PUBREL
    case Pubrel(_) => PUBCOMP
    case _ => 0
  }

  function PacketId(r: Response): uint16 {
    match r
    case Publish(_, _, _, _, id, _) => id
    case Pubrec(id) => id
    case Pubrel(id) => id
    case _ => 0
  }

  /** The broker's refusal of a connection or of a subscription. */
  function Refusal(r: Response): int {
    match r
    case Connack(_, 0) => OK
    case Connack(_, 2) => ERROR_CONNECT_CLIENT_ID_REFUSED
    case Connack(_, _) => ERROR_CONNECTION_REFUSED
    case Suback(_, codes) => if codes != [] && codes[0] == 0x80 then ERROR_SUBSCRIBE_FAILED else OK
    case _ => OK
  }

  predicate HasRecord(q: seq<Msg>, ctype: int, id: uint16) {
    exists i :: 0 <= i < |q| && q[i].ctype == ctype && q[i].id == id
  }

  /** The reply to a QoS 2 PUBLISH, or to a PUBREC, is still queued. */
  predicate Repeats(q: seq<Msg>, r: Response) {
    (ReplyType(r) == PUBREC || ReplyType(r) == PUBREL) && HasRecord(q, ReplyType(r), PacketId(r))
  }

  /** CONNECT and PINGREQ are acknowledged in turn, all other requests by their id. */
  predicate IsAcked(m: Msg, k: Key) {
    m.ctype == k.ctype && if k.ctype == CONNECT || k.ctype == PINGREQ then m.state != Complete else m.id == k.id
  }

  /** Message i is the first that the packet acknowledges; there is none if i is the end of the queue. */
  predicate FirstAcked(q: seq<Msg>, r: Response, i: nat) {
    && i <= |q|
    && match AckKey(r)
       case None => i == |q|
       case Some(k) => (i < |q| ==> IsAcked(q[i], k)) && forall j :: 0 <= j < i ==> !IsAcked(q[j], k)
  }

  function Completed(q: seq<Msg>, i: nat): seq<Msg> {
    if i < |q| then q[i := q[i].(state := Complete, sentAt := 0)] else q
  }

  /** What the application is told before the reply is staged, and after. */
  function Told(s: State, events: seq<Event>): State {
    s.(h := s.h.(events := s.h.events + events))
  }

  function Before(r: Response): seq<Event> {
    if r.Pubrel? then [Released(r.id)] else []
  }

  function After(r: Response): seq<Event> {
    if r.Publish? then [Delivered(r)] else []
  }

  /** The packet is booked, its request is completed, and a released delivery is noted. */
  function Booked(s: State, r: Response, i: nat): State {
    Told(s.(queue := Completed(s.queue, i),
            h := s.h.(dispatched := s.h.dispatched + [r], marks := s.h.marks + [|s.h.log|])), Before(r))
  }

  function Noted(s: State, r: Response): State {
    s.(h := s.h.(dispatched := s.h.dispatched + [r], marks := s.h.marks + [|s.h.log|]))
  }

  /** With the reply staged if one is called for, and the PUBLISH delivered; the reply's failure comes first. */
  function WithReply(cfg: Config, s: State, r: Response, k: nat): (State, int)
    requires Spent(s.queue, k)
  {
    if ReplyType(r) == 0 then (Told(s, After(r)), OK)
    else
      var (t, rv) := Pushed(cfg, s, k, ReplyBytes(ReplyType(r), PacketId(r)), ReplyType(r), PacketId(r));
      if rv == OK then (Told(t, After(r)), OK) else (t.(error := rv), rv)
  }

  function Handled(cfg: Config, s: State, r: Response, i: nat, k: nat): (State, int)
    requires FirstAcked(s.queue, r, i) && Spent(Completed(s.queue, i), k)
  {
    if Repeats(s.queue, r) then (Noted(s, r), OK)
    else if AckKey(r).Some? && i == |s.queue| then (Noted(s, r).(error := ERROR_ACK_OF_UNKNOWN), ERROR_ACK_OF_UNKNOWN)
    else if Refusal(r) != OK then (Booked(s, r, i).(error := Refusal(r)), Refusal(r))
    else WithReply(cfg, Booked(s, r, i), r, k)
  }

  // ---- The switch over the packet type follows the table ----

  lemma FindsFirst(q: seq<Msg>, r: Response, i: nat, ctype: int, id: Option<uint16>)
    requires FirstAcked(q, r, i) && AckKey(r) == Some(Key(ctype, if id.Some? then id.value else 0))
    requires id.None? <==> ctype == CONNECT || ctype == PINGREQ
    ensures Find(q, ctype, id) == if i < |q| then Some(i) else None
  {
    forall j | 0 <= j < |q|
      ensures Matches(q[j], ctype, id) <==> IsAcked(q[j], AckKey(r).value)
    {
    }
    var f := Find(q, ctype, id);
    assert f.Some? && i < |q| ==> !(f.value < i) && !(i < f.value);
  }

  lemma FindsRecord(q: seq<Msg>, ctype: int, id: uint16)
    ensures Find(q, ctype, Some(id)).Some? <==> HasRecord(q, ctype, id)
  {
    if HasRecord(q, ctype, id) {
      var i :| 0 <= i < |q| && q[i].ctype == ctype && q[i].id == id;
      assert Matches(q[i], ctype, Some(id));
    }
  }

  lemma AckByTable(s: State, r: Response, i: nat, ctype: int, id: Option<uint16>)
    requires FirstAcked(s.queue, r, i) && AckKey(r) == Some(Key(ctype, if id.Some? then id.value else 0))
    requires id.None? <==> ctype == CONNECT || ctype == PINGREQ
    ensures Ack(s, ctype, id) ==
            if i == |s.queue| then (s.(error := ERROR_ACK_OF_UNKNOWN), ERROR_ACK_OF_UNKNOWN)
            else (s.(queue := Completed(s.queue, i)), OK)
  {
    FindsFirst(s.queue, r, i, ctype, id);
  }

  lemma ReplyByTable(cfg: Config, s: State, k: nat, ctype: nat, id: uint16)
    requires Spent(s.queue, k) && IsPubxxx(ctype)
    ensures Reply(cfg, s, ctype, id) ==
            var (t, rv) := Pushed(cfg, s, k, ReplyBytes(ctype, id), ctype, id);
            if rv == OK then (t, OK) else (t.(error := rv), rv)
  {
    ReplyIs(ctype, id);
    StageExactly(cfg, s, k, PubxxxImage(ctype, id), ctype, id);
  }

  lemma NothingTold(s: State)
    ensures Told(s, []) == s
  {
    assert s.h.events + [] == s.h.events;
  }

  /** An acknowledgement that calls for no reply. */
  lemma PlainAckByTable(cfg: Config, s: State, r: Response, i: nat, k: nat, ctype: int, id: Option<uint16>)
    requires FirstAcked(s.queue, r, i) && Spent(Completed(s.queue, i), k) && ReplyType(r) == 0
    requires AckKey(r) == Some(Key(ctype, if id.Some? then id.value else 0))
    requires id.None? <==> ctype == CONNECT || ctype == PINGREQ
    ensures var (t, rv) := Ack(Note(s, r), ctype, id);
            Handled(cfg, s, r, i, k) ==
            if rv == OK && Refusal(r) != OK then (t.(error := Refusal(r)), Refusal(r)) else (t, rv)
  {
    var n := Note(s, r);
    AckByTable(n, r, i, ctype, id);
    NothingTold(n.(queue := Completed(s.queue, i)));
  }

  lemma PublishByTable(cfg: Config, s: State, r: Response, i: nat, k: nat)
    requires FirstAcked(s.queue, r, i) && Spent(Completed(s.queue, i), k) && r.Publish?
    ensures Dispatch(cfg, s, r) == Handled(cfg, s, r, i, k)
  {
    var n := Note(s, r);
    NothingTold(n);
    FindsRecord(s.queue, PUBREC, r.id);
    if r.qos == 1 || r.qos == 2 {
      ReplyByTable(cfg, n, k, if r.qos == 1 then PUBACK else PUBREC, r.id);
    }
  }

  lemma PubrecByTable(cfg: Config, s: State, r: Response, i: nat, k: nat)
    requires FirstAcked(s.queue, r, i) && Spent(Completed(s.queue, i), k) && r.Pubrec?
    ensures Dispatch(cfg, s, r) == Handled(cfg, s, r, i, k)
  {
    var n := Note(s, r);
    FindsRecord(s.queue, PUBREL, r.id);
    AckByTable(n, r, i, PUBLISH, Some(r.id));
    if i < |s.queue| {
      var a := n.(queue := Completed(s.queue, i));
      NothingTold(a);
      ReplyByTable(cfg, a, k, PUBREL, r.id);
      NothingTold(Pushed(cfg, a, k, ReplyBytes(PUBREL, r.id), PUBREL, r.id).0);
    }
  }

  lemma PubrelByTable(cfg: Config, s: State, r: Response, i: nat, k: nat)
    requires FirstAcked(s.queue, r, i) && Spent(Completed(s.queue, i), k) && r.Pubrel?
    ensures Dispatch(cfg, s, r) == Handled(cfg, s, r, i, k)
  {
    var n := Note(s, r);
    AckByTable(n, r, i, PUBREC, Some(r.id));
    if i < |s.queue| {
      var a := Booked(s, r, i);
      ReplyByTable(cfg, a, k, PUBCOMP, r.id);
      NothingTold(Pushed(cfg, a, k, ReplyBytes(PUBCOMP, r.id), PUBCOMP, r.id).0);
    }
  }

  /** Handling a packet is what the table says: in any state, with whatever is queued, in error or not. */
  lemma HandledByTable(cfg: Config, s: State, r: Response, i: nat, k: nat)
    requires FirstAcked(s.queue, r, i) && Spent(Completed(s.queue, i), k)
    ensures Dispatch(cfg, s, r) == Handled(cfg, s, r, i, k)
  {
    match r
    case Connack(_, _) => PlainAckByTable(cfg, s, r, i, k, CONNECT, None);
    case Publish(_, _, _, _, _, _) => PublishByTable(cfg, s, r, i, k);
    case Puback(id) => PlainAckByTable(cfg, s, r, i, k, PUBLISH, Some(id));
    case Pubrec(id) => PubrecByTable(cfg, s, r, i, k);
    case Pubrel(id) => PubrelByTable(cfg, s, r, i, k);
    case Pubcomp(id) => PlainAckByTable(cfg, s, r, i, k, PUBREL, Some(id));
    case Suback(id, _) => PlainAckByTable(cfg, s, r, i, k, SUBSCRIBE, Some(id));
    case Unsuback(id) => PlainAckByTable(cfg, s, r, i, k, UNSUBSCRIBE, Some(id));
    case Pingresp => PlainAckByTable(cfg, s, r, i, k, PINGREQ, None);
  }
}
