/** Runs that show where a promise ends: each is made of legal calls on a client just initialised. */
module Witnesses {
  import opened Options
  import opened MqttTypes
  import opened Wire
  import opened FixedHeader
  import opened Packets
  import opened Responses
  import opened QueueSpec
  import opened Session
  import opened Ledger
  import opened Balance
  import opened Stream
  import opened Runs
  import opened Delivery
  import opened Progress
  import opened Promises

  const CFG := Config(1000, 20, 100)

  /** A request with an empty client id and a clean session. */
  const PLAIN := ConnectRequest(None, None, None, None, None, 2, 30)

  // ---- Receiving one packet ----

  /** The state in which a packet that has just arrived is handled. */
  function Received(s: State, r: Response): State
    requires Encodable(r)
  {
    s.(inbox := Encode(r), h := s.h.(arrived := s.h.arrived + Encode(r)))
  }

  /** A receive that finds one packet, handles it without error, and finds no more. */
  lemma RecvPacket(cfg: Config, s: State, r: Response)
    requires s.inbox == [] && s.pending == [] && WellFormed(r) && |Encode(r)| <= cfg.recvSize
    ensures Dispatch(cfg, Received(s, r), r).1 == OK ==>
            Recv(cfg, s, [Arrive(Encode(r))]) == (Dispatch(cfg, Received(s, r), r).0.(inbox := []), OK)
  {
    if Dispatch(cfg, Received(s, r), r).1 == OK {
      FirstTurn(cfg, s, r);
      RecvNothing(cfg, Dispatch(cfg, Received(s, r), r).0.(inbox := []));
    }
  }

  lemma FirstTurn(cfg: Config, s: State, r: Response)
    requires s.inbox == [] && s.pending == [] && WellFormed(r) && |Encode(r)| <= cfg.recvSize
    ensures cfg.recvSize > 0
    ensures var (t, rv) := Dispatch(cfg, Received(s, r), r);
            rv == OK ==> RecvOne(cfg, s, Arrive(Encode(r))) == Again(t.(inbox := [])) && t.pending == []
  {
    var data, s1 := Encode(r), Received(s, r);
    assert ReadIn(cfg, Arriving(s, data)) == s1;
    UnpackEncoded(r);
    HandleKeepsInput(cfg, Note(s1, r), r);
    assert Dispatch(cfg, s1, r).0.inbox[|data|..] == [];
  }

  lemma UnpackEncoded(r: Response)
    requires WellFormed(r)
    ensures Unpack(Encode(r)) == Got(r, |Encode(r)|) && |Encode(r)| > 0
  {
    ResponseRoundTrip(r, []);
    assert Encode(r) + [] == Encode(r);
  }

  lemma RecvNothing(cfg: Config, s: State)
    requires s.inbox == [] && s.pending == [] && cfg.recvSize > 0
    ensures Recv(cfg, s, []) == (s, OK)
  {
    assert s.h.arrived + [] == s.h.arrived;
    assert ReadIn(cfg, Arriving(s, [])) == s;
    assert DecodeHeader([]).NeedMore?;
  }

  // ---- Small queues ----

  const SMALL := 20

  predicate Small(q: seq<Msg>) {
    |q| <= 8 && forall i :: 0 <= i < |q| ==> |q[i].image| <= SMALL
  }

  lemma {:induction false} OffsetBound(q: seq<Msg>, i: nat)
    requires i <= |q| && forall j :: 0 <= j < |q| ==> |q[j].image| <= SMALL
    ensures Offset(q, i) <= i * SMALL
    decreases i
  {
    if i > 0 {
      OffsetBound(q, i - 1);
    }
  }

  /** In a small queue there is room for a small packet. */
  lemma StageSmall(s: State, p: Packed, ctype: int, id: uint16)
    requires s.error >= 0 && p.Image? && |p.image| <= SMALL && Small(s.queue)
    ensures Stage(CFG, s, p, ctype, id) == (Enqueue(s, p.image, ctype, id), OK)
  {
    OffsetBound(s.queue, |s.queue|);
  }

  lemma FramedSize(ctype: nat, flags: nat, body: bytes)
    requires ctype < 16 && flags < 16 && |body| <= 15
    ensures |Framed(ctype, flags, body)| <= SMALL
  {
    HeaderSize(Header(ctype, flags, |body|));
  }

  lemma ReplySmall(s: State, ctype: nat, id: uint16)
    requires s.error >= 0 && Small(s.queue) && IsPubxxx(ctype)
    ensures |PubxxxImage(ctype, id).image| <= SMALL
    ensures Reply(CFG, s, ctype, id) == (Enqueue(s, PubxxxImage(ctype, id).image, ctype, id), OK)
  {
    FramedSize(ctype, if ctype == PUBREL then 2 else 0, Uint16(id));
    StageSmall(s, PubxxxImage(ctype, id), ctype, id);
  }

  lemma EncodeSmall(r: Response)
    requires WellFormed(r) && (r.Pubrel? || r.Pingresp? || (r.Publish? && |r.topic| + |r.payload| <= 4))
    ensures |Encode(r)| <= SMALL
  {
    match r
    case Pubrel(id) => FramedSize(PUBREL, 2, Uint16(id));
    case Pingresp => FramedSize(PINGRESP, 0, []);
    case Publish(dup, qos, retain, topic, id, payload) =>
      FramedSize(PUBLISH, PublishByte(dup, qos, retain), PublishBody(topic, id, payload, qos));
    case _ =>
  }

  // ---- The runs ----

  /** Between calls: nothing buffered, no error, a small queue. */
  predicate Calm(s: State) {
    s.inbox == [] && s.pending == [] && s.error == OK && Small(s.queue)
  }

  function Last(run: seq<State>): State
    requires run != []
  {
    run[|run| - 1]
  }

  lemma Connected() returns (run: seq<State>)
    ensures IsRun(CFG, run) && |run| == 2
    ensures var s := run[1];
            && Calm(s) && |s.queue| == 1 && s.queue[0].ctype == CONNECT && s.queue[0].state.Unsent?
            && s.timeouts == 0 && s.responseTimeout == 30 && s.keepAlive == 30
            && s.h.base == 0 && s.h.events == [] && s.h.dispatched == [] && s.h.log == []
  {
    run := [Initial(0)];
    var call := CallConnect(PLAIN, 0);
    EveryCallIsPossible(CFG, run, call);
    FramedSize(CONNECT, 0, ConnectBody(PLAIN));
    StageSmall(Initial(0).(keepAlive := 30, error := OK), ConnectImage(PLAIN), CONNECT, 0);
    run := run + [Apply(CFG, run[0], call).0];
  }

  /** The run goes on by receiving a packet. */
  lemma Receive(run: seq<State>, r: Response) returns (run': seq<State>)
    requires IsRun(CFG, run) && Calm(Last(run)) && WellFormed(r) && |Encode(r)| <= SMALL
    ensures IsRun(CFG, run') && |run'| == |run| + 1 && run'[..|run|] == run
    ensures var (t, rv) := Dispatch(CFG, Received(Last(run), r), r);
            rv == OK ==> Last(run') == t.(inbox := [])
  {
    var call := CallRecv([Arrive(Encode(r))]);
    EveryCallIsPossible(CFG, run, call);
    RecvPacket(CFG, Last(run), r);
    run' := run + [Apply(CFG, Last(run), call).0];
  }

  /** A PUBLISH at QoS 2 with packet id 5. */
  function Message(payload: byte): (r: Response)
    ensures WellFormed(r)
  {
    Publish(false, 2, false, ['t' as int], 5, [payload])
  }

  lemma FirstPublish() returns (run: seq<State>)
    ensures IsRun(CFG, run) && |run| == 3
    ensures var s := run[2];
            && Calm(s) && |s.queue| == 2 && s.queue[0].ctype == CONNECT && IsGuard(s.queue[1], 5)
            && s.h.events == [Delivered(Message(1))] && s.h.dispatched == [Message(1)]
  {
    var a := Message(1);
    EncodeSmall(a);
    run := Connected();
    assert Find(Last(run).queue, PUBREC, Some(5)).None?;
    ReplySmall(Note(Received(Last(run), a), a), PUBREC, 5);
    run := Receive(run, a);
  }

  lemma ThenRelease() returns (run: seq<State>)
    ensures IsRun(CFG, run) && |run| == 4
    ensures var s := run[3];
            && Calm(s) && |s.queue| == 3 && s.queue[0].ctype == CONNECT
            && s.queue[1].ctype == PUBREC && s.queue[1].id == 5 && s.queue[1].state.Complete?
            && s.h.events == [Delivered(Message(1)), Released(5)] && s.h.dispatched == [Message(1), Pubrel(5)]
  {
    var r := Pubrel(5);
    EncodeSmall(r);
    run := FirstPublish();
    var s := Last(run);
    assert Find(s.queue, PUBREC, Some(5)) == Some(1);
    ReplySmall(Emit(Release(Note(Received(s, r), r), 1), Released(5)), PUBCOMP, 5);
    run := Receive(run, r);
  }

  /**
   Delivery at QoS 2 is not exactly once: the first PUBLISH has been delivered and released, its PUBREC record
   is COMPLETE and still queued, and a second PUBLISH with the same id is swallowed.
   */
  lemma SecondPublishIsSwallowed() returns (run: seq<State>)
    ensures IsRun(CFG, run) && |run| == 5 && run[4].error == OK
    ensures run[4].h.dispatched == [Message(1), Pubrel(5), Message(2)]
    ensures run[4].h.events == [Delivered(Message(1)), Released(5)]
    ensures !Open(run[3].h.events, 5) && HasStale(run[3].queue, 5)
  {
    EncodeSmall(Message(2));
    run := ThenRelease();
    OpenAppend([Delivered(Message(1))], Released(5), 5);
    assert [Delivered(Message(1))] + [Released(5)] == [Delivered(Message(1)), Released(5)];
    assert Find(Last(run).queue, PUBREC, Some(5)) == Some(1);
    run := Receive(run, Message(2));
  }

  // ---- Completed and never sent ----

  /** The run goes on with a ping. */
  lemma Pinged(run: seq<State>) returns (run': seq<State>)
    requires IsRun(CFG, run) && Calm(Last(run)) && |Last(run).queue| < 8
    ensures IsRun(CFG, run') && |run'| == |run| + 1 && run'[..|run|] == run && Calm(Last(run'))
    ensures Last(run') == Enqueue(Last(run), BareImage(PINGREQ).image, PINGREQ, 0)
  {
    EveryCallIsPossible(CFG, run, CallPing(0));
    FramedSize(PINGREQ, 0, []);
    StageSmall(Last(run), BareImage(PINGREQ), PINGREQ, 0);
    run' := run + [Apply(CFG, Last(run), CallPing(0)).0];
  }

  /** The run goes on by receiving a PINGRESP, which completes message i. */
  lemma Ponged(run: seq<State>, i: nat) returns (run': seq<State>)
    requires IsRun(CFG, run) && Calm(Last(run)) && Find(Last(run).queue, PINGREQ, None) == Some(i)
    ensures IsRun(CFG, run') && |run'| == |run| + 1 && run'[..|run|] == run && Calm(Last(run'))
    ensures var s, t := Last(run), Last(run');
            && t.queue == SetComplete(s.queue, i) && t.timeouts == s.timeouts
            && t.h.base == s.h.base && t.h.log == s.h.log && t.h.dispatched == s.h.dispatched + [Pingresp]
  {
    EncodeSmall(Pingresp);
    run' := Receive(run, Pingresp);
  }

  /** A PINGRESP too many completes a ping that was never sent, with no timeout. */
  lemma OverAckedPing() returns (run: seq<State>)
    ensures IsRun(CFG, run) && |run| == 4 && run[3].timeouts == 0
    ensures Rank(run[3], 1) == 3 && !InLog(run[3].h.log, 1)
    ensures OverAcked(run[3].h.log, run[3].h.dispatched)
  {
    run := Connected();
    run := Pinged(run);
    assert Find(Last(run).queue, PINGREQ, None) == Some(1);
    run := Ponged(run, 1);
    var h, k := Last(run).h, Key(PINGREQ, 0);
    AckedAppend([], Pingresp, k);
    assert h.log == [] && h.dispatched == [] + [Pingresp];
    assert Acked(h.dispatched, k) > Sent(h.log, k);
  }

  /** A network that takes every packet whole, at one moment. */
  function At(time: int): nat -> SendStep {
    _ => SendStep(time, Whole, time)
  }

  /** Message i is due at that moment, and its acknowledgement awaited afterwards. */
  predicate Due(s: State, i: nat, time: int)
    requires i < |s.queue|
  {
    var m := s.queue[i];
    && (m.ctype == CONNECT || m.ctype == PINGREQ) && |m.image| > 0
    && (m.state.Unsent? || TimedOut(s, m, time))
  }

  /** The two messages of a queue go out, for the first time or again. */
  lemma SendBoth(s: State, time: int)
    requires Calm(s) && |s.queue| == 2 && Due(s, 0, time) && Due(s, 1, time) && s.keepAlive == 30
    requires s.queue[0].state == s.queue[1].state
    ensures NoEmptyImages(s.queue)
    ensures var (t, rv) := Send(CFG, s, At(time), time, 0);
            && Calm(t) && t.keepAlive == 30 && t.responseTimeout == s.responseTimeout
            && t.queue == [s.queue[0].(state := AwaitingAck, sentAt := time), s.queue[1].(state := AwaitingAck, sentAt := time)]
            && t.timeouts == s.timeouts + (if s.queue[0].state.Unsent? then 0 else 2)
            && t.h.base == s.h.base && t.h.dispatched == s.h.dispatched
            && t.h.log == s.h.log + [Tx(s.h.base, s.queue[0].image)] + [Tx(s.h.base + 1, s.queue[1].image)]
  {
    var late := if s.queue[0].state.Unsent? then 0 else 1;
    var s1 := Transmit(s.(timeouts := s.timeouts + late), 0, time);
    var s2 := Transmit(s1.(timeouts := s1.timeouts + late), 1, time);
    assert SendFrom(s2, 2, false, At(time)) == (s2, OK);
    assert SendFrom(s1, 1, false, At(time)) == (s2, OK);
    assert SendFrom(s, 0, false, At(time)) == (s2, OK);
  }

  lemma Transmitted(run: seq<State>, time: int) returns (run': seq<State>)
    requires IsRun(CFG, run) && Calm(Last(run)) && Last(run).keepAlive == 30 && |Last(run).queue| == 2
    requires Due(Last(run), 0, time) && Due(Last(run), 1, time) && Last(run).queue[0].state == Last(run).queue[1].state
    ensures NoEmptyImages(Last(run).queue)
    ensures IsRun(CFG, run') && |run'| == |run| + 1 && run'[..|run|] == run
    ensures Last(run') == Send(CFG, Last(run), At(time), time, 0).0
  {
    var call := CallSend(At(time), time, 0);
    SendBoth(Last(run), time);
    EveryCallIsPossible(CFG, run, call);
    run' := run + [Apply(CFG, Last(run), call).0];
  }

  /** In no state so far a request has been acknowledged more often than sent. */
  ghost predicate NeverOver(run: seq<State>) {
    forall m :: 0 <= m < |run| ==> !OverAcked(run[m].h.log, run[m].h.dispatched)
  }

  lemma StillNeverOver(run: seq<State>, run': seq<State>)
    requires NeverOver(run) && |run'| == |run| + 1 && run'[..|run|] == run
    requires !OverAcked(Last(run').h.log, Last(run').h.dispatched)
    ensures NeverOver(run')
  {
    forall m | 0 <= m < |run'|
      ensures !OverAcked(run'[m].h.log, run'[m].h.dispatched)
    {
      if m < |run| {
        assert run'[m] == run'[..|run|][m];
      }
    }
  }

  lemma NotOverAcked(log: seq<Tx>, disp: seq<Response>)
    requires disp in {[], [Pingresp], [Pingresp, Pingresp]} && (disp != [] ==> Sent(log, Key(PINGREQ, 0)) >= 2)
    ensures !OverAcked(log, disp)
  {
    forall k
      ensures Acked(disp, k) <= Sent(log, k)
    {
      AckedAppend([], Pingresp, k);
      AckedAppend([Pingresp], Pingresp, k);
      assert [] + [Pingresp] == [Pingresp] && [Pingresp] + [Pingresp] == [Pingresp, Pingresp];
    }
  }

  /** The two packets of a connection request and a ping, as they are sent. */
  function Pair(s: State): seq<Tx>
    requires |s.queue| == 2
  {
    [Tx(s.h.base, s.queue[0].image)] + [Tx(s.h.base + 1, s.queue[1].image)]
  }

  /** A connection request and a ping have been queued; `count` is how often they have been sent. */
  predicate Pinging(s: State, count: nat) {
    && Calm(s) && |s.queue| == 2 && s.queue[0].ctype == CONNECT && s.queue[1].ctype == PINGREQ
    && |s.queue[0].image| > 0 && s.queue[1].image == BareImage(PINGREQ).image
    && s.queue[0].state == s.queue[1].state && s.keepAlive == 30 && s.responseTimeout == 30
    && s.queue[0].state == (if count == 0 then Unsent else AwaitingAck)
    && (count > 0 ==> s.queue[0].sentAt == s.queue[1].sentAt == 31 * (count - 1))
    && s.timeouts == (if count == 0 then 0 else 2 * (count - 1)) && s.h.base == 0 && s.h.dispatched == []
    && s.h.log == if count == 0 then [] else if count == 1 then Pair(s) else Pair(s) + Pair(s)
  }

  lemma ConnectedPing() returns (run: seq<State>)
    ensures IsRun(CFG, run) && |run| == 3 && NeverOver(run) && Pinging(run[2], 0)
  {
    var r1 := Connected();
    run := Pinged(r1);
    assert r1[0] == run[..2][0] && r1[1] == run[..2][1];
    StepGrows(CFG, r1, 1);
    forall m | 0 <= m < 3
      ensures !OverAcked(run[m].h.log, run[m].h.dispatched)
    {
      NotOverAcked(run[m].h.log, run[m].h.dispatched);
    }
    EveryImageIsThere(run);
  }

  lemma EveryImageIsThere(run: seq<State>)
    requires IsRun(CFG, run)
    ensures NoEmptyImages(Last(run).queue)
  {
    EveryCallIsPossible(CFG, run, CallPing(0));
  }

  lemma SendPinging(s: State, count: nat)
    requires count <= 1 && Pinging(s, count)
    ensures NoEmptyImages(s.queue) && Due(s, 0, 31 * count) && Due(s, 1, 31 * count)
    ensures Pinging(Send(CFG, s, At(31 * count), 31 * count, 0).0, count + 1)
  {
    SendBoth(s, 31 * count);
    var t := Send(CFG, s, At(31 * count), 31 * count, 0).0;
    assert t.h.log == s.h.log + Pair(s) && [] + Pair(s) == Pair(s);
  }

  /** Sent for the first time, or again when nothing has come back for 31 seconds. */
  lemma SendAgain(run: seq<State>, count: nat) returns (run': seq<State>)
    requires IsRun(CFG, run) && NeverOver(run) && count <= 1 && Pinging(Last(run), count)
    ensures IsRun(CFG, run') && |run'| == |run| + 1 && NeverOver(run') && Pinging(Last(run'), count + 1)
  {
    SendPinging(Last(run), count);
    run' := Transmitted(run, 31 * count);
    NotOverAcked(Last(run').h.log, Last(run').h.dispatched);
    StillNeverOver(run, run');
  }

  /** What has been sent twice counts twice, and nothing else has been sent. */
  lemma TwoPingsSent(s: State)
    requires Pinging(s, 2)
    ensures Sent(s.h.log, Key(PINGREQ, 0)) >= 2 && !InLog(s.h.log, 2)
  {
    PairSent([], s);
    PairSent(Pair(s), s);
    assert [] + Pair(s) == Pair(s);
    assert forall j :: 0 <= j < |s.h.log| ==> s.h.log[j].uid < 2;
  }

  lemma PairSent(log: seq<Tx>, s: State)
    requires |s.queue| == 2 && s.queue[1].image == BareImage(PINGREQ).image
    ensures Sent(log + Pair(s), Key(PINGREQ, 0)) > Sent(log, Key(PINGREQ, 0))
  {
    var k, a, b := Key(PINGREQ, 0), Tx(s.h.base, s.queue[0].image), Tx(s.h.base + 1, s.queue[1].image);
    BareHonest(PINGREQ, 0);
    assert log + Pair(s) == log + [a] + [b];
  }

  /**
   With a timeout it takes no acknowledgement too many: a ping is sent twice and answered twice, and the second
   answer completes a later ping that was never sent.
   */
  lemma LatePing() returns (run: seq<State>)
    ensures IsRun(CFG, run) && |run| == 8 && run[7].timeouts == 2 && NeverOver(run)
    ensures Rank(run[7], 2) == 3 && !InLog(run[7].h.log, 2)
  {
    run := ConnectedPing();
    run := SendAgain(run, 0);
    run := SendAgain(run, 1);
    TwoPingsSent(Last(run));
    run := AnsweredOnce(run);
    run := AnsweredAgain(run);
  }

  /** The first answer, and a new ping. */
  lemma AnsweredOnce(run: seq<State>) returns (run': seq<State>)
    requires IsRun(CFG, run) && NeverOver(run) && Pinging(Last(run), 2)
    ensures IsRun(CFG, run') && |run'| == |run| + 2 && NeverOver(run')
    ensures var s, t := Last(run), Last(run');
            && Calm(t) && |t.queue| == 3 && t.queue[0].ctype == CONNECT && t.queue[1].state.Complete?
            && t.queue[2].ctype == PINGREQ && t.queue[2].state.Unsent?
            && t.timeouts == 2 && t.h.base == 0 && t.h.log == s.h.log && t.h.dispatched == [Pingresp]
  {
    TwoPingsSent(Last(run));
    assert Find(Last(run).queue, PINGREQ, None) == Some(1);
    var r := Ponged(run, 1);
    assert [] + [Pingresp] == [Pingresp];
    NotOverAcked(Last(r).h.log, Last(r).h.dispatched);
    StillNeverOver(run, r);
    run' := Pinged(r);
    NotOverAcked(Last(run').h.log, Last(run').h.dispatched);
    StillNeverOver(r, run');
  }

  /** The second answer. */
  lemma AnsweredAgain(run: seq<State>) returns (run': seq<State>)
    requires IsRun(CFG, run) && NeverOver(run)
    requires var t := Last(run);
             && Calm(t) && |t.queue| == 3 && t.queue[0].ctype == CONNECT && t.queue[1].state.Complete?
             && t.queue[2].ctype == PINGREQ && t.queue[2].state.Unsent?
             && t.timeouts == 2 && t.h.base == 0 && t.h.dispatched == [Pingresp]
             && Sent(t.h.log, Key(PINGREQ, 0)) >= 2 && !InLog(t.h.log, 2)
    ensures IsRun(CFG, run') && |run'| == |run| + 1 && NeverOver(run')
    ensures Last(run').timeouts == 2 && Rank(Last(run'), 2) == 3 && !InLog(Last(run').h.log, 2)
  {
    assert Find(Last(run).queue, PINGREQ, None) == Some(2);
    run' := Ponged(run, 2);
    assert [Pingresp] + [Pingresp] == [Pingresp, Pingresp];
    NotOverAcked(Last(run').h.log, Last(run').h.dispatched);
    StillNeverOver(run, run');
  }
}
