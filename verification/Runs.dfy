/**
 Runs of the client: any sequence of calls, with any behaviour of clock, network and broker. One
 invariant holds in every state of every run; the promises that it makes are stated in `Promises`.
 */
module Runs {
  import opened Options
  import opened MqttTypes
  import opened Wire
  import opened FixedHeader
  import opened Packets
  import opened Responses
  import opened QueueSpec
  import opened Session
  import opened PacketIds
  import opened Ledger
  import opened Discipline
  import opened Delivery
  import opened Balance
  import opened Early
  import opened Stream
  import Lfsr

  /** Errors after which the client sends no more, and which no later call takes back. */
  predicate Dead(error: int) {
    error < 0 && error != ERROR_SEND_BUFFER_IS_FULL && error != ERROR_CONNECT_NOT_CALLED
  }

  ghost predicate AllHonest(regs: seq<Registered>) {
    forall u :: 0 <= u < |regs| ==> Honest(regs[u].image, regs[u].ctype, regs[u].id)
  }

  /** What holds as long as nothing has timed out. */
  ghost predicate Fair(s: State, due: Option<Key>) {
    && Balanced(s.queue, s.h.log, s.h.dispatched, due)
    && (SentFirst(s.queue, s.h.base, s.h.log) || EverOver(s.h.log, s.h.dispatched, s.h.marks))
    && (s.error == ERROR_ACK_OF_UNKNOWN ==> OverAcked(s.h.log, s.h.dispatched))
  }

  /** Queue and history; `due` is an acknowledgement received and not yet booked. */
  ghost predicate Books(cfg: Config, s: State, due: Option<Key>) {
    && |s.inbox| <= cfg.recvSize
    && Account(s.queue, s.h.base, s.h.regs, s.h.log, s.h.dispatched)
    && Stamped(s.h.log, s.h.dispatched, s.h.marks)
    && Unambiguous(s.queue) && OneInFlight(s.queue)
    && AllHonest(s.h.regs)
    && (s.timeouts == 0 ==> Fair(s, due))
    && (s.h.partial != [] ==> Dead(s.error))
  }

  /** The invariant but for the byte stream: the books, and what the application was told. */
  ghost predicate Core(cfg: Config, s: State, due: Option<Key>) {
    Books(cfg, s, due) && AtMostOnce(s.h.events) && Guarded(s.queue, s.h.events)
  }

  ghost predicate Invariant(cfg: Config, s: State) {
    Core(cfg, s, None) && InStep(s.h.arrived, s.h.dispatched, s.inbox + s.pending)
  }

  // ---- Staging ----

  /** A packet that a packer may produce for a record of this type and id, or one of its errors. */
  predicate Proper(p: Packed, ctype: int, id: uint16) {
    match p
    case Fails(err) => err < 0 && err != ERROR_ACK_OF_UNKNOWN
    case Image(image) => Honest(image, ctype, id)
  }

  lemma CleanFair(s: State)
    requires Fair(s, None)
    ensures Fair(Session.Clean(s), None)
  {
    CleanBalance(s.queue, s.h.log, s.h.dispatched, None);
    if SentFirst(s.queue, s.h.base, s.h.log) {
      CleanSentFirst(s.queue, s.h.base, s.h.log);
    }
  }

  lemma CleanBooks(cfg: Config, s: State)
    requires Books(cfg, s, None)
    ensures Books(cfg, Session.Clean(s), None) && SameInput(s, Session.Clean(s))
  {
    CleanKeeps(s.queue, s.h.base, s.h.regs, s.h.log, s.h.dispatched);
    CleanDiscipline(s.queue);
    if s.timeouts == 0 {
      CleanFair(s);
    }
  }

  lemma EnqueueBooks(cfg: Config, s: State, image: bytes, ctype: int, id: uint16)
    requires Books(cfg, s, None) && Honest(image, ctype, id) && Admits(s.queue, ctype, id)
    ensures Books(cfg, Enqueue(s, image, ctype, id), None)
  {
    var m := Msg(image, Unsent, ctype, id, 0);
    AppendKeeps(s.queue, s.h.base, s.h.regs, s.h.log, s.h.dispatched, image, ctype, id);
    AppendDiscipline(s.queue, image, ctype, id);
    if s.timeouts == 0 {
      AppendBalance(s.queue, m, s.h.log, s.h.dispatched, None);
    }
  }

  lemma StageBooks(cfg: Config, s: State, p: Packed, ctype: int, id: uint16)
    requires Books(cfg, s, None) && Proper(p, ctype, id) && Admits(s.queue, ctype, id)
    ensures var r := Stage(cfg, s, p, ctype, id);
            && Books(cfg, r.0, None) && SameInput(s, r.0) && r.0.h.events == s.h.events
            && (r.1 != OK ==> r.0.error == r.1 < 0)
  {
    if s.error >= 0 && p.Image? {
      if Fits(cfg, s.queue, |p.image|) {
        EnqueueBooks(cfg, s, p.image, ctype, id);
      } else {
        var c := Session.Clean(s);
        CleanBooks(cfg, s);
        CleanDiscipline(s.queue);
        if Fits(cfg, c.queue, |p.image|) {
          EnqueueBooks(cfg, c, p.image, ctype, id);
        }
      }
    }
  }

  /** Staging a PUBREC adds its guard, and staging anything else changes none. */
  lemma StageGuards(cfg: Config, s: State, p: Packed, ctype: int, id: uint16, n: uint16)
    requires p.Fails? ==> p.err < 0
    ensures var (t, rv) := Stage(cfg, s, p, ctype, id);
            HasGuard(t.queue, n) <==> HasGuard(s.queue, n) || (rv == OK && ctype == PUBREC && n == id)
  {
    CleanGuards(s.queue);
    if s.error >= 0 && p.Image? {
      var m := Msg(p.image, Unsent, ctype, id, 0);
      AppendGuards(s.queue, m, n);
      AppendGuards(Cleaned(s.queue), m, n);
    }
  }

  lemma StageCore(cfg: Config, s: State, p: Packed, ctype: int, id: uint16)
    requires Core(cfg, s, None) && Proper(p, ctype, id) && Admits(s.queue, ctype, id) && ctype != PUBREC
    ensures var r := Stage(cfg, s, p, ctype, id);
            && Core(cfg, r.0, None) && SameInput(s, r.0) && r.0.h.events == s.h.events
            && (r.1 != OK ==> r.0.error == r.1 < 0)
  {
    StageBooks(cfg, s, p, ctype, id);
    var t := Stage(cfg, s, p, ctype, id).0;
    forall n
      ensures Open(t.h.events, n) <==> HasGuard(t.queue, n)
    {
      StageGuards(cfg, s, p, ctype, id, n);
    }
  }

  // ---- Receiving ----

  /** The packet in hand acknowledges the request, and nothing was registered since it came. */
  predicate Answers(s: State, k: Key) {
    && JustAnswered(s.h.dispatched, k) && HeardBy(s.h.regs, |s.h.dispatched| - 1)
    && |s.h.marks| == |s.h.dispatched| && s.h.marks[|s.h.marks| - 1] == |s.h.log|
  }

  lemma ReleaseBooks(cfg: Config, s: State, ctype: int, id: Option<uint16>, k: Key, i: nat)
    requires Books(cfg, s, Some(k)) && Answers(s, k) && Refers(k, ctype, id) && Find(s.queue, ctype, id) == Some(i)
    ensures Books(cfg, Release(s, i), None)
  {
    var q, h := s.queue, s.h;
    assert k == KeyOf(q[i].ctype, q[i].id);
    CompleteKeeps(q, h.base, h.regs, h.log, h.dispatched, i);
    CompleteDiscipline(q, i);
    if s.timeouts == 0 {
      CompleteBalance(q, h.log, h.dispatched, i);
      if SentFirst(q, h.base, h.log) {
        CompleteSentFirst(q, h.base, h.regs, h.log, h.dispatched, ctype, id, k, i);
        if OverAcked(h.log, h.dispatched) {
          OverNow(h.log, h.dispatched, h.marks);
        }
      }
    }
  }

  lemma ReleaseCore(cfg: Config, s: State, ctype: int, id: Option<uint16>, k: Key, i: nat)
    requires Core(cfg, s, Some(k)) && Answers(s, k) && Refers(k, ctype, id) && Find(s.queue, ctype, id) == Some(i)
    requires ctype != PUBREC
    ensures Core(cfg, Release(s, i), None)
  {
    ReleaseBooks(cfg, s, ctype, id, k, i);
    UpdateGuards(s.queue, i, s.queue[i].(state := Complete, sentAt := 0));
  }

  lemma ReleasePubrecCore(cfg: Config, s: State, id: uint16, i: nat)
    requires Core(cfg, s, Some(Key(PUBREC, id))) && Answers(s, Key(PUBREC, id))
    requires Find(s.queue, PUBREC, Some(id)) == Some(i)
    ensures Core(cfg, Emit(Release(s, i), Released(id)), None)
  {
    ReleaseBooks(cfg, s, PUBREC, Some(id), Key(PUBREC, id), i);
    var e, t := Released(id), Emit(Release(s, i), Released(id));
    forall j | 0 <= j < |s.queue| && j != i && s.queue[j].ctype == PUBREC
      ensures s.queue[j].id != id
    {
      assert !Clash(s.queue[if i < j then i else j], s.queue[if i < j then j else i]);
    }
    forall n
      ensures Open(t.h.events, n) <==> HasGuard(t.queue, n)
    {
      CompleteGuards(s.queue, i, n);
      OpenAppend(s.h.events, e, n);
    }
    EventKeeps(s.h.events, e);
  }

  lemma ForgiveCore(cfg: Config, s: State, due: Option<Key>)
    requires Core(cfg, s, due)
    ensures Core(cfg, s, None)
  {
    if s.timeouts == 0 {
      ForgiveBalance(s.queue, s.h.log, s.h.dispatched, due);
    }
  }

  lemma UnknownCore(cfg: Config, s: State, ctype: int, id: Option<uint16>, k: Key)
    requires Core(cfg, s, Some(k)) && Refers(k, ctype, id) && Find(s.queue, ctype, id).None?
    ensures Core(cfg, Unknown(s).0, None)
  {
    ForgiveCore(cfg, s, Some(k));
    if s.timeouts == 0 {
      UnknownIsOverAcked(s.queue, s.h.log, s.h.dispatched, ctype, id, k);
    }
  }

  lemma AckCore(cfg: Config, s: State, ctype: int, id: Option<uint16>, k: Key)
    requires Core(cfg, s, Some(k)) && Refers(k, ctype, id) && Answers(s, k) && ctype != PUBREC
    ensures Core(cfg, Ack(s, ctype, id).0, None)
    ensures forall t, n :: Admits(s.queue, t, n) ==> Admits(Ack(s, ctype, id).0.queue, t, n)
  {
    match Find(s.queue, ctype, id)
    case None => UnknownCore(cfg, s, ctype, id, k);
    case Some(i) =>
      ReleaseCore(cfg, s, ctype, id, k, i);
      CompleteDiscipline(s.queue, i);
  }

  lemma ReplyCore(cfg: Config, s: State, ctype: nat, id: uint16)
    requires Core(cfg, s, None) && IsPubxxx(ctype) && ctype != PUBREC && Admits(s.queue, ctype, id)
    ensures var r := Reply(cfg, s, ctype, id);
            Core(cfg, r.0, None) && r.0.h.events == s.h.events
  {
    PubxxxHonest(ctype, id);
    StageCore(cfg, s, PubxxxImage(ctype, id), ctype, id);
  }

  lemma AdmitsReply(q: seq<Msg>, ctype: int, id: uint16)
    requires ctype == PUBACK || ctype == PUBCOMP
    ensures Admits(q, ctype, id)
  {
  }

  /** A delivery that opens nothing. */
  lemma EmitCore(cfg: Config, s: State, r: Response)
    requires Core(cfg, s, None) && r.Publish? && r.qos != 2
    ensures Core(cfg, Emit(s, Delivered(r)), None)
  {
    var t := Emit(s, Delivered(r));
    forall n
      ensures Open(t.h.events, n) <==> HasGuard(t.queue, n)
    {
      OpenAppend(s.h.events, Delivered(r), n);
    }
    EventKeeps(s.h.events, Delivered(r));
  }

  /** A PUBREC record and the delivery that it guards come together. */
  lemma DeliverCore(cfg: Config, s: State, r: Response)
    requires Core(cfg, s, None) && r.Publish? && r.qos == 2 && Find(s.queue, PUBREC, Some(r.id)).None?
    ensures Core(cfg, OnPublish(cfg, s, r).0, None)
  {
    var p, e := PubxxxImage(PUBREC, r.id), Delivered(r);
    var t := OnPublish(cfg, s, r).0;
    PubxxxHonest(PUBREC, r.id);
    AdmitsOnce(s.queue, PUBREC, r.id);
    StageBooks(cfg, s, p, PUBREC, r.id);
    FindsEither(s.queue, r.id);
    forall n
      ensures Open(t.h.events, n) <==> HasGuard(t.queue, n)
    {
      StageGuards(cfg, s, p, PUBREC, r.id, n);
      OpenAppend(s.h.events, e, n);
    }
    EventKeeps(s.h.events, e);
  }

  lemma OnPublishCore(cfg: Config, s: State, r: Response)
    requires Core(cfg, s, None) && r.Publish?
    ensures Core(cfg, OnPublish(cfg, s, r).0, None)
  {
    if r.qos == 1 {
      AdmitsReply(s.queue, PUBACK, r.id);
      ReplyCore(cfg, s, PUBACK, r.id);
      EmitCore(cfg, Reply(cfg, s, PUBACK, r.id).0, r);
    } else if r.qos != 2 {
      EmitCore(cfg, s, r);
    } else if Find(s.queue, PUBREC, Some(r.id)).None? {
      DeliverCore(cfg, s, r);
    }
  }

  lemma OnPubrecCore(cfg: Config, s: State, id: uint16)
    requires Core(cfg, s, Some(Key(PUBLISH, id))) && Answers(s, Key(PUBLISH, id))
    ensures Core(cfg, OnPubrec(cfg, s, id).0, None)
  {
    if Find(s.queue, PUBREL, Some(id)).Some? {
      ForgiveCore(cfg, s, Some(Key(PUBLISH, id)));
    } else {
      AdmitsOnce(s.queue, PUBREL, id);
      AckCore(cfg, s, PUBLISH, Some(id), Key(PUBLISH, id));
      ReplyCore(cfg, Ack(s, PUBLISH, Some(id)).0, PUBREL, id);
    }
  }

  lemma OnPubrelCore(cfg: Config, s: State, id: uint16)
    requires Core(cfg, s, Some(Key(PUBREC, id))) && Answers(s, Key(PUBREC, id))
    ensures Core(cfg, OnPubrel(cfg, s, id).0, None)
  {
    match Find(s.queue, PUBREC, Some(id))
    case None => UnknownCore(cfg, s, PUBREC, Some(id), Key(PUBREC, id));
    case Some(i) =>
      ReleasePubrecCore(cfg, s, id, i);
      var s1 := Emit(Release(s, i), Released(id));
      AdmitsReply(s1.queue, PUBCOMP, id);
      ReplyCore(cfg, s1, PUBCOMP, id);
  }

  /** An error of the client's own replaces the one before only with another of the same kind. */
  lemma FailingCore(cfg: Config, s: State, err: int)
    requires Core(cfg, s, None) && Dead(err) && err != ERROR_ACK_OF_UNKNOWN
    ensures Core(cfg, s.(error := err), None)
  {
  }

  lemma HandleCore(cfg: Config, s: State, r: Response)
    requires Core(cfg, s, AckKey(r)) && (AckKey(r).Some? ==> Answers(s, AckKey(r).value))
    ensures Core(cfg, Handle(cfg, s, r).0, None)
  {
    match r
    case Connack(_, code) =>
      AckCore(cfg, s, CONNECT, None, Key(CONNECT, 0));
    case Publish(_, _, _, _, _, _) => OnPublishCore(cfg, s, r);
    case Puback(id) => AckCore(cfg, s, PUBLISH, Some(id), Key(PUBLISH, id));
    case Pubrec(id) => OnPubrecCore(cfg, s, id);
    case Pubrel(id) => OnPubrelCore(cfg, s, id);
    case Pubcomp(id) => AckCore(cfg, s, PUBREL, Some(id), Key(PUBREL, id));
    case Suback(id, _) => AckCore(cfg, s, SUBSCRIBE, Some(id), Key(SUBSCRIBE, id));
    case Unsuback(id) => AckCore(cfg, s, UNSUBSCRIBE, Some(id), Key(UNSUBSCRIBE, id));
    case Pingresp => AckCore(cfg, s, PINGREQ, None, Key(PINGREQ, 0));
  }

  lemma DispatchCore(cfg: Config, s: State, r: Response)
    requires Core(cfg, s, None)
    ensures Core(cfg, Dispatch(cfg, s, r).0, None)
  {
    var d, t := s.h.dispatched, Note(s, r);
    DispatchKeeps(s.queue, s.h.base, s.h.regs, s.h.log, d, r);
    if s.timeouts == 0 {
      DispatchBalance(s.queue, s.h.log, d, r);
      if s.error == ERROR_ACK_OF_UNKNOWN {
        OverAckedStays(s.h.log, d, r);
      }
      if EverOver(s.h.log, d, s.h.marks) {
        EverOverStays(s.h.log, d, s.h.marks, t.h.log, t.h.dispatched, t.h.marks);
      }
    }
    HandleCore(cfg, t, r);
  }

  lemma RecvOneKeeps(cfg: Config, s: State, e: Read)
    requires Invariant(cfg, s)
    ensures match RecvOne(cfg, s, e) case Stop(t, _) => Invariant(cfg, t) case Again(t) => Invariant(cfg, t)
  {
    if e.ReadFails? {
      FailingCore(cfg, s, ERROR_SOCKET_ERROR);
    } else {
      var s0 := Arriving(s, e.data);
      ArriveInStep(s.h.arrived, s.h.dispatched, s.inbox + s.pending, e.data);
      assert s.inbox + s.pending + e.data == s0.inbox + s0.pending;
      ReadInKeepsStream(cfg, s0);
      var s1 := ReadIn(cfg, s0);
      assert Invariant(cfg, s1);
      TurnKeeps(cfg, s1);
    }
  }

  /** The rest of a turn, behind the read. */
  lemma TurnKeeps(cfg: Config, s: State)
    requires Invariant(cfg, s)
    ensures match Unpack(s.inbox)
            case Bad(err) => Invariant(cfg, s.(error := err))
            case Overrun => Invariant(cfg, s.(error := UNDEFINED))
            case More => Invariant(cfg, s.(error := ERROR_RECV_BUFFER_TOO_SMALL))
            case Got(r, n) => n <= |Dispatch(cfg, s, r).0.inbox| && Invariant(cfg, Consume(Dispatch(cfg, s, r).0, n))
  {
    match Unpack(s.inbox)
    case Bad(err) =>
      ParseErrors(s.inbox);
      FailingCore(cfg, s, err);
    case Overrun => FailingCore(cfg, s, UNDEFINED);
    case More => FailingCore(cfg, s, ERROR_RECV_BUFFER_TOO_SMALL);
    case Got(r, n) =>
      DispatchCore(cfg, s, r);
      HandleKeepsInput(cfg, Note(s, r), r);
      DispatchInStep(s.h.arrived, s.h.dispatched, s.inbox, s.pending, r, n);
  }

  /** The unpackers report only errors of their own. */
  lemma ParseErrors(s: bytes)
    requires Unpack(s).Bad?
    ensures Dead(Unpack(s).err) && Unpack(s).err != ERROR_ACK_OF_UNKNOWN
  {
  }

  lemma {:induction false} RecvKeeps(cfg: Config, s: State, input: seq<Read>)
    requires Invariant(cfg, s)
    ensures Invariant(cfg, Recv(cfg, s, input).0)
    decreases |input|, |s.inbox| + |s.pending|
  {
    var e := if input == [] then Arrive([]) else input[0];
    RecvOneKeeps(cfg, s, e);
    match RecvOne(cfg, s, e)
    case Stop(_, _) =>
    case Again(t) => RecvKeeps(cfg, t, if input == [] then [] else input[1..]);
  }

  /** Receiving sends nothing, so every packet received meanwhile carries the same mark. */
  predicate ReceivesOnly(s: State, t: State) {
    && t.h.log == s.h.log && s.h.marks <= t.h.marks
    && forall j :: |s.h.marks| <= j < |t.h.marks| ==> t.h.marks[j] == |t.h.log|
  }

  lemma HandleSendsNothing(cfg: Config, s: State, r: Response)
    ensures Handle(cfg, s, r).0.h.log == s.h.log
  {
  }

  lemma {:induction false} RecvSendsNothing(cfg: Config, s: State, input: seq<Read>)
    requires |s.inbox| <= cfg.recvSize
    ensures ReceivesOnly(s, Recv(cfg, s, input).0)
    decreases |input|, |s.inbox| + |s.pending|
  {
    var e := if input == [] then Arrive([]) else input[0];
    if e.Arrive? {
      var t := ReadIn(cfg, Arriving(s, e.data));
      if Unpack(t.inbox).Got? {
        var r := Unpack(t.inbox).response;
        HandleSendsNothing(cfg, Note(t, r), r);
        HandleKeepsInput(cfg, Note(t, r), r);
      }
    }
    match RecvOne(cfg, s, e)
    case Stop(_, _) =>
    case Again(t) => RecvSendsNothing(cfg, t, if input == [] then [] else input[1..]);
  }

  // ---- Sending ----

  lemma TransmitFair(s: State, i: nat, stamp: int)
    requires Fair(s, None) && i < |s.queue| && s.queue[i].state.Unsent? && s.error != ERROR_ACK_OF_UNKNOWN
    requires Honest(s.queue[i].image, s.queue[i].ctype, s.queue[i].id)
    ensures Fair(Transmit(s, i, stamp), None)
  {
    var m, t := s.queue[i], Transmit(s, i, stamp);
    TransmitBalance(s.queue, s.h.log, s.h.dispatched, i, stamp, s.h.base + i);
    if SentFirst(s.queue, s.h.base, s.h.log) {
      TransmitSentFirst(s.queue, s.h.base, s.h.log, i, AfterSend(m, stamp), m.image);
    } else {
      EverOverStays(s.h.log, s.h.dispatched, s.h.marks, t.h.log, t.h.dispatched, t.h.marks);
    }
  }

  lemma UnsentIsHonest(s: State, i: nat)
    requires Entries(s.queue, s.h.base, s.h.regs, s.h.log, s.h.dispatched) && AllHonest(s.h.regs)
    requires i < |s.queue| && s.queue[i].state.Unsent?
    ensures Honest(s.queue[i].image, s.queue[i].ctype, s.queue[i].id)
  {
    assert Entry(s.queue, s.h.base, s.h.regs, s.h.log, s.h.dispatched, i);
  }

  lemma TransmitBooks(cfg: Config, s: State, i: nat, stamp: int)
    requires Books(cfg, s, None) && i < |s.queue| && |s.queue[i].image| > 0
    requires !s.queue[i].state.Complete? && (s.queue[i].state.Unsent? || s.timeouts > 0)
    requires Passed(s.queue, i) && !(LiveQos2(s.queue[i]) && Inflight(s.queue, i)) && s.error != ERROR_ACK_OF_UNKNOWN
    ensures Books(cfg, Transmit(s, i, stamp), None)
  {
    TransmitKeeps(s.queue, s.h.base, s.h.regs, s.h.log, s.h.dispatched, i, stamp);
    TransmitDiscipline(s.queue, i, stamp);
    if s.timeouts == 0 {
      UnsentIsHonest(s, i);
      TransmitFair(s, i, stamp);
    }
  }

  lemma TransmitCore(cfg: Config, s: State, i: nat, stamp: int)
    requires Core(cfg, s, None) && i < |s.queue| && |s.queue[i].image| > 0
    requires !s.queue[i].state.Complete? && (s.queue[i].state.Unsent? || s.timeouts > 0)
    requires Passed(s.queue, i) && !(LiveQos2(s.queue[i]) && Inflight(s.queue, i)) && s.error != ERROR_ACK_OF_UNKNOWN
    ensures Core(cfg, Transmit(s, i, stamp), None)
  {
    TransmitBooks(cfg, s, i, stamp);
    UpdateGuards(s.queue, i, AfterSend(s.queue[i], stamp));
  }

  /** A record that times out is counted, and nothing more is promised of acknowledgements. */
  lemma LateCore(cfg: Config, s: State)
    requires Core(cfg, s, None)
    ensures Core(cfg, s.(timeouts := s.timeouts + 1), None)
  {
  }

  /** The three ways of a turn, for a record of a type that is sent. */
  lemma SendOneIs(s: State, i: nat, inflight: bool, e: SendStep)
    requires i < |s.queue| && NoEmptyImages(s.queue) && Sendable(s.queue[i].ctype)
    ensures var m := s.queue[i];
            var late := TimedOut(s, m, e.check);
            var s1 := if late then s.(timeouts := s.timeouts + 1) else s;
            SendOne(s, i, inflight, e) ==
            if !(m.state.Unsent? || late) || (LiveQos2(m) && inflight) then (s1, OK)
            else if e.outcome.Failed? then (FailSend(s1, i, e.outcome.sent), ERROR_SOCKET_ERROR)
            else (Transmit(s1, i, e.stamp), OK)
  {
  }

  lemma SendOneCore(cfg: Config, s: State, i: nat, inflight: bool, e: SendStep)
    requires Core(cfg, s, None) && i < |s.queue| && NoEmptyImages(s.queue)
    requires Passed(s.queue, i) && inflight == Inflight(s.queue, i) && s.error != ERROR_ACK_OF_UNKNOWN
    ensures var r := SendOne(s, i, inflight, e);
            && Core(cfg, r.0, None) && SameInput(s, r.0)
            && (r.1 == OK ==> Passed(r.0.queue, i + 1) && r.0.error == s.error &&
                              (inflight || LiveQos2(s.queue[i])) == Inflight(r.0.queue, i + 1))
  {
    var m := s.queue[i];
    assert Entry(s.queue, s.h.base, s.h.regs, s.h.log, s.h.dispatched, i);
    var late := TimedOut(s, m, e.check);
    var s1 := if late then s.(timeouts := s.timeouts + 1) else s;
    LateCore(cfg, s);
    SendOneIs(s, i, inflight, e);
    if !(m.state.Unsent? || late) || (LiveQos2(m) && inflight) {
      InflightNext(s.queue, i);
    } else if !e.outcome.Failed? {
      TransmitPasses(cfg, s1, i, inflight, e.stamp);
    }
  }

  lemma TransmitPasses(cfg: Config, s: State, i: nat, inflight: bool, stamp: int)
    requires Core(cfg, s, None) && i < |s.queue| && |s.queue[i].image| > 0
    requires !s.queue[i].state.Complete? && (s.queue[i].state.Unsent? || s.timeouts > 0)
    requires Passed(s.queue, i) && inflight == Inflight(s.queue, i) && !(LiveQos2(s.queue[i]) && inflight)
    requires s.error != ERROR_ACK_OF_UNKNOWN
    ensures var t := Transmit(s, i, stamp);
            && Core(cfg, t, None) && SameInput(s, t) && t.error == s.error
            && Passed(t.queue, i + 1) && (inflight || LiveQos2(s.queue[i])) == Inflight(t.queue, i + 1)
  {
    TransmitCore(cfg, s, i, stamp);
    TransmitDiscipline(s.queue, i, stamp);
    assert !AfterSend(s.queue[i], stamp).state.Unsent?;
  }

  lemma InflightNext(q: seq<Msg>, i: nat)
    requires i < |q|
    ensures Inflight(q, i + 1) <==> Inflight(q, i) || LiveQos2(q[i])
  {
  }

  lemma {:induction false} SendFromCore(cfg: Config, s: State, i: nat, inflight: bool, env: nat -> SendStep)
    requires Core(cfg, s, None) && i <= |s.queue| && NoEmptyImages(s.queue)
    requires Passed(s.queue, i) && inflight == Inflight(s.queue, i) && s.error != ERROR_ACK_OF_UNKNOWN
    ensures Core(cfg, SendFrom(s, i, inflight, env).0, None) && SameInput(s, SendFrom(s, i, inflight, env).0)
    decreases |s.queue| - i
  {
    if i < |s.queue| {
      SendOneCore(cfg, s, i, inflight, env(i));
      var (s1, rv) := SendOne(s, i, inflight, env(i));
      if rv == OK {
        SendFromCore(cfg, s1, i + 1, inflight || LiveQos2(s.queue[i]), env);
      }
    }
  }

  lemma SendCore(cfg: Config, s: State, env: nat -> SendStep, now: int, stale: uint16)
    requires Core(cfg, s, None) && NoEmptyImages(s.queue)
    ensures Core(cfg, Send(cfg, s, env, now, stale).0, None) && SameInput(s, Send(cfg, s, env, now, stale).0)
  {
    if !(s.error < 0 && s.error != ERROR_SEND_BUFFER_IS_FULL) {
      SendFromCore(cfg, s, 0, false, env);
      var (s1, rv) := SendFrom(s, 0, false, env);
      if rv == OK {
        PingCore(cfg, s1, stale);
      }
    }
  }

  // ---- The calls of the application ----

  lemma AdmitsUnnumbered(q: seq<Msg>, ctype: int, id: uint16)
    requires ctype == CONNECT || ctype == PINGREQ || ctype == DISCONNECT
    ensures Admits(q, ctype, id)
  {
  }

  lemma PingCore(cfg: Config, s: State, stale: uint16)
    requires Core(cfg, s, None)
    ensures Core(cfg, Ping(cfg, s, stale).0, None) && SameInput(s, Ping(cfg, s, stale).0)
    ensures Ping(cfg, s, stale).1 != OK ==> Ping(cfg, s, stale).0.error == Ping(cfg, s, stale).1
  {
    BareHonest(PINGREQ, stale);
    AdmitsUnnumbered(s.queue, PINGREQ, stale);
    StageCore(cfg, s, BareImage(PINGREQ), PINGREQ, stale);
  }

  lemma DisconnectCore(cfg: Config, s: State, stale: uint16)
    requires Core(cfg, s, None)
    ensures Core(cfg, Disconnect(cfg, s, stale).0, None) && SameInput(s, Disconnect(cfg, s, stale).0)
  {
    BareHonest(DISCONNECT, stale);
    AdmitsUnnumbered(s.queue, DISCONNECT, stale);
    StageCore(cfg, s, BareImage(DISCONNECT), DISCONNECT, stale);
  }

  lemma ConnectCore(cfg: Config, s: State, c: ConnectRequest, stale: uint16)
    requires Core(cfg, s, None) && ConnectInRange(c)
    ensures Core(cfg, Connect(cfg, s, c, stale).0, None) && SameInput(s, Connect(cfg, s, c, stale).0)
  {
    var s1 := s.(keepAlive := c.keepAlive, error := if s.error == ERROR_CONNECT_NOT_CALLED then OK else s.error);
    if ConnectImage(c).Image? {
      ConnectHonest(c, stale);
    }
    AdmitsUnnumbered(s.queue, CONNECT, stale);
    StageCore(cfg, s1, ConnectImage(c), CONNECT, stale);
  }

  /** Staging under an id just drawn. */
  lemma StageFresh(cfg: Config, s: State, p: Packed, ctype: int)
    requires Core(cfg, s, None) && |s.queue| < Lfsr.PERIOD && Proper(p, ctype, Id(NextPid(s))) && ctype != PUBREC
    ensures var r := Stage(cfg, s.(pid := NextPid(s).bits), p, ctype, Id(NextPid(s)));
            Core(cfg, r.0, None) && SameInput(s, r.0)
  {
    NextPidIsFree(s);
    StageCore(cfg, s.(pid := NextPid(s).bits), p, ctype, Id(NextPid(s)));
  }

  // ---- Runs ----

  datatype Call =
    | CallConnect(c: ConnectRequest, stale: uint16)
    | CallPublish(topic: Option<bytes>, payload: bytes, flags: byte)
    | CallSubscribe(filter: Option<bytes>, maxQos: int)
    | CallUnsubscribe(filter: Option<bytes>)
    | CallPing(stale: uint16)
    | CallDisconnect(stale: uint16)
    | CallSend(env: nat -> SendStep, now: int, stale: uint16)
    | CallRecv(input: seq<Read>)
    | SetResponseTimeout(seconds: int)

  /** Field lengths fit 16 bits, and fewer than 65535 messages are queued when an id is drawn. */
  predicate Legal(s: State, call: Call) {
    match call
    case CallConnect(c, _) => ConnectInRange(c)
    case CallPublish(topic, payload, _) => PublishInRange(topic, payload) && |s.queue| < Lfsr.PERIOD
    case CallSubscribe(filter, _) => TopicInRange(filter) && |s.queue| < Lfsr.PERIOD
    case CallUnsubscribe(filter) => TopicInRange(filter) && |s.queue| < Lfsr.PERIOD
    case _ => true
  }

  predicate Ready(cfg: Config, s: State) {
    |s.inbox| <= cfg.recvSize && NoEmptyImages(s.queue)
  }

  function Apply(cfg: Config, s: State, call: Call): (State, int)
    requires Legal(s, call) && Ready(cfg, s)
  {
    match call
    case CallConnect(c, stale) => Connect(cfg, s, c, stale)
    case CallPublish(topic, payload, flags) => PublishCall(cfg, s, topic, payload, flags)
    case CallSubscribe(filter, maxQos) => Subscribe(cfg, s, filter, maxQos)
    case CallUnsubscribe(filter) => Unsubscribe(cfg, s, filter)
    case CallPing(stale) => Ping(cfg, s, stale)
    case CallDisconnect(stale) => Disconnect(cfg, s, stale)
    case CallSend(env, now, stale) => Send(cfg, s, env, now, stale)
    case CallRecv(input) => Recv(cfg, s, input)
    case SetResponseTimeout(seconds) => (s.(responseTimeout := seconds), OK)
  }

  lemma ApplyKeeps(cfg: Config, s: State, call: Call)
    requires Legal(s, call) && Invariant(cfg, s) && Ready(cfg, s)
    ensures Invariant(cfg, Apply(cfg, s, call).0)
    ensures !call.CallRecv? ==> SameInput(s, Apply(cfg, s, call).0)
  {
    match call
    case CallConnect(c, stale) => ConnectCore(cfg, s, c, stale);
    case CallPublish(topic, payload, flags) =>
      var id := Id(NextPid(s));
      if PublishImage(topic, id, payload, flags).Image? {
        PublishHonest(topic, id, payload, flags);
      }
      StageFresh(cfg, s, PublishImage(topic, id, payload, flags), PUBLISH);
    case CallSubscribe(filter, maxQos) =>
      var id := Id(NextPid(s));
      SubscribeHonest(id, Session.Topics(filter, maxQos));
      StageFresh(cfg, s, SubscribeImage(id, Session.Topics(filter, maxQos)), SUBSCRIBE);
    case CallUnsubscribe(filter) =>
      var id := Id(NextPid(s));
      UnsubscribeHonest(id, Session.Topics(filter, 0));
      StageFresh(cfg, s, UnsubscribeImage(id, Session.Topics(filter, 0)), UNSUBSCRIBE);
    case CallPing(stale) => PingCore(cfg, s, stale);
    case CallDisconnect(stale) => DisconnectCore(cfg, s, stale);
    case CallSend(env, now, stale) => SendCore(cfg, s, env, now, stale);
    case CallRecv(input) => RecvKeeps(cfg, s, input);
    case SetResponseTimeout(_) =>
  }

  lemma InvariantReady(cfg: Config, s: State)
    requires Invariant(cfg, s)
    ensures Ready(cfg, s)
  {
    EntriesNotEmpty(s.queue, s.h.base, s.h.regs, s.h.log, s.h.dispatched);
  }

  lemma NothingIsFair()
    ensures Balanced([], [], [], None) && SentFirst([], 0, []) && AtMostOnce([]) && Guarded([], [])
  {
  }

  lemma InitialInvariant(cfg: Config, staleTime: int)
    ensures Invariant(cfg, Initial(staleTime))
  {
    var s := Initial(staleTime);
    NothingIsFair();
    InStepInitially();
    assert s.inbox + s.pending == [];
  }

  /** One legal call leads from s to t. */
  ghost predicate Steps(cfg: Config, s: State, t: State) {
    Ready(cfg, s) && exists call :: Legal(s, call) && t == Apply(cfg, s, call).0
  }

  lemma StepKeeps(cfg: Config, s: State, t: State)
    requires Steps(cfg, s, t) && Invariant(cfg, s)
    ensures Invariant(cfg, t)
  {
    var call :| Legal(s, call) && t == Apply(cfg, s, call).0;
    ApplyKeeps(cfg, s, call);
  }

  /** Packets received in one call come after everything that had been sent. */
  lemma StepMarks(cfg: Config, s: State, t: State)
    requires Steps(cfg, s, t) && Invariant(cfg, s)
    ensures s.h.marks <= t.h.marks && forall j :: |s.h.marks| <= j < |t.h.marks| ==> t.h.marks[j] == |t.h.log|
  {
    var call :| Legal(s, call) && t == Apply(cfg, s, call).0;
    if call.CallRecv? {
      RecvSendsNothing(cfg, s, call.input);
    } else {
      ApplyKeeps(cfg, s, call);
    }
  }

  ghost predicate StepsAt(cfg: Config, run: seq<State>, i: nat)
    requires i < |run| - 1
  {
    Steps(cfg, run[i], run[i + 1])
  }

  /** A run: the client initialised, then one legal call after the other. */
  ghost predicate IsRun(cfg: Config, run: seq<State>) {
    && |run| > 0 && (exists t :: run[0] == Initial(t))
    && forall i {:trigger StepsAt(cfg, run, i)} :: 0 <= i < |run| - 1 ==> StepsAt(cfg, run, i)
  }

  lemma {:induction false} RunInvariant(cfg: Config, run: seq<State>, n: nat)
    requires IsRun(cfg, run) && n < |run|
    ensures Invariant(cfg, run[n])
  {
    if n == 0 {
      var t :| run[0] == Initial(t);
      InitialInvariant(cfg, t);
    } else {
      RunInvariant(cfg, run, n - 1);
      assert StepsAt(cfg, run, n - 1);
      StepKeeps(cfg, run[n - 1], run[n]);
    }
  }
}
