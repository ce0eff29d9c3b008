/**
 What the application is told, against what was received and what was answered: every event has its packet,
 and every PUBLISH delivered at QoS 1 or 2 its PUBACK or PUBREC, in the same order.
 */
module Receipts {
  import opened Options
  import opened MqttTypes
  import opened Packets
  import opened Responses
  import opened QueueSpec
  import opened Session
  import opened Runs
  import opened Calls
  import Lfsr

  /** The event that a packet may lead to. */
  function EventOf(r: Response): Option<Event> {
    match r
    case Publish(_, _, _, _, _, _) => Some(Delivered(r))
    case Pubrel(id) => Some(Released(id))
    case _ => None
  }

  /** A PUBLISH that needs no receipt is never dropped. */
  predicate Droppable(r: Response) {
    r.Publish? ==> r.qos == 1 || r.qos == 2
  }

  /**
   The events are those of the packets received, in order, each packet leading to one at most, and a PUBLISH at
   QoS 0 to exactly one.
   */
  predicate Traces(events: seq<Event>, disp: seq<Response>)
    decreases |disp|
  {
    if disp == [] then events == []
    else
      var init, r := disp[..|disp| - 1], disp[|disp| - 1];
      || (Droppable(r) && Traces(events, init))
      || (events != [] && EventOf(r) == Some(events[|events| - 1]) && Traces(events[..|events| - 1], init))
  }

  datatype Receipt = Receipt(ctype: int, id: uint16)

  /** The receipts that deliveries call for. */
  function Called(events: seq<Event>): seq<Receipt> {
    if events == [] then []
    else
      Called(events[..|events| - 1]) +
      match events[|events| - 1]
      case Delivered(Publish(_, 1, _, _, id, _)) => [Receipt(PUBACK, id)]
      case Delivered(Publish(_, 2, _, _, id, _)) => [Receipt(PUBREC, id)]
      case _ => []
  }

  /** The receipts registered to be sent. */
  function Given(regs: seq<Registered>): seq<Receipt> {
    if regs == [] then []
    else
      var g := regs[|regs| - 1];
      Given(regs[..|regs| - 1]) + if g.ctype == PUBACK || g.ctype == PUBREC then [Receipt(g.ctype, g.id)] else []
  }

  predicate Receipted(s: State) {
    Called(s.h.events) == Given(s.h.regs)
  }

  lemma CalledAppend(events: seq<Event>, e: Event)
    ensures Called(events + [e]) ==
            Called(events) + match e
                             case Delivered(Publish(_, 1, _, _, id, _)) => [Receipt(PUBACK, id)]
                             case Delivered(Publish(_, 2, _, _, id, _)) => [Receipt(PUBREC, id)]
                             case _ => []
  {
    assert (events + [e])[..|events|] == events;
  }

  lemma GivenAppend(regs: seq<Registered>, g: Registered)
    ensures Given(regs + [g]) ==
            Given(regs) + if g.ctype == PUBACK || g.ctype == PUBREC then [Receipt(g.ctype, g.id)] else []
  {
    assert (regs + [g])[..|regs|] == regs;
  }

  lemma TracesAppend(events: seq<Event>, disp: seq<Response>, r: Response)
    requires Traces(events, disp)
    ensures Droppable(r) ==> Traces(events, disp + [r])
    ensures EventOf(r).Some? ==> Traces(events + [EventOf(r).value], disp + [r])
  {
    assert (disp + [r])[..|disp|] == disp;
    if EventOf(r).Some? {
      assert (events + [EventOf(r).value])[..|events|] == events;
    }
  }

  // ---- The calls ----

  lemma StageReceipt(cfg: Config, s: State, p: Packed, ctype: int, id: uint16)
    requires p.Fails? ==> p.err < 0
    ensures var (t, rv) := Stage(cfg, s, p, ctype, id);
            && t.h.events == s.h.events && t.h.dispatched == s.h.dispatched
            && Given(t.h.regs) ==
               Given(s.h.regs) + if rv == OK && (ctype == PUBACK || ctype == PUBREC) then [Receipt(ctype, id)] else []
  {
    if p.Image? {
      GivenAppend(s.h.regs, Registered(p.image, ctype, id, |s.h.dispatched|));
    }
  }

  lemma ReplyReceipt(cfg: Config, s: State, ctype: nat, id: uint16)
    requires IsPubxxx(ctype)
    ensures var (t, rv) := Reply(cfg, s, ctype, id);
            && t.h.events == s.h.events
            && Given(t.h.regs) ==
               Given(s.h.regs) + if rv == OK && (ctype == PUBACK || ctype == PUBREC) then [Receipt(ctype, id)] else []
  {
    StageReceipt(cfg, s, PubxxxImage(ctype, id), ctype, id);
  }

  /** A packet leads to its event or to none, and with a delivery goes its receipt. */
  lemma HandleReceipt(cfg: Config, s: State, r: Response)
    requires Receipted(s)
    ensures var t := Handle(cfg, s, r).0;
            && Receipted(t)
            && ((Droppable(r) && t.h.events == s.h.events) ||
                (EventOf(r).Some? && t.h.events == s.h.events + [EventOf(r).value]))
  {
    match r
    case Publish(_, _, _, _, _, _) => PublishReceipt(cfg, s, r);
    case Pubrec(id) => ReplyReceipt(cfg, Ack(s, PUBLISH, Some(id)).0, PUBREL, id);
    case Pubrel(id) => PubrelReceipt(cfg, s, id);
    case _ =>
  }

  lemma PublishReceipt(cfg: Config, s: State, r: Response)
    requires Receipted(s) && r.Publish?
    ensures var t := OnPublish(cfg, s, r).0;
            && Receipted(t)
            && ((Droppable(r) && t.h.events == s.h.events) || t.h.events == s.h.events + [Delivered(r)])
  {
    CalledAppend(s.h.events, Delivered(r));
    if r.qos == 1 {
      ReplyReceipt(cfg, s, PUBACK, r.id);
    } else if r.qos == 2 {
      ReplyReceipt(cfg, s, PUBREC, r.id);
    }
  }

  lemma PubrelReceipt(cfg: Config, s: State, id: uint16)
    requires Receipted(s)
    ensures var t := OnPubrel(cfg, s, id).0;
            Receipted(t) && (t.h.events == s.h.events || t.h.events == s.h.events + [Released(id)])
  {
    var (t, rv) := Ack(s, PUBREC, Some(id));
    if rv == OK {
      CalledAppend(s.h.events, Released(id));
      ReplyReceipt(cfg, Emit(t, Released(id)), PUBCOMP, id);
    }
  }

  predicate Accounted(s: State) {
    Receipted(s) && Traces(s.h.events, s.h.dispatched)
  }

  lemma DispatchReceipt(cfg: Config, s: State, r: Response)
    requires Accounted(s)
    ensures Accounted(Dispatch(cfg, s, r).0)
  {
    TracesAppend(s.h.events, s.h.dispatched, r);
    HandleReceipt(cfg, Note(s, r), r);
    HandleKeepsInput(cfg, Note(s, r), r);
  }

  lemma TurnReceipts(cfg: Config, s: State, e: Read)
    requires Accounted(s) && |s.inbox| <= cfg.recvSize
    ensures match RecvOne(cfg, s, e) case Stop(t, _) => Accounted(t) case Again(t) => Accounted(t)
  {
    if e.Arrive? {
      var t := ReadIn(cfg, Arriving(s, e.data));
      if Unpack(t.inbox).Got? {
        DispatchReceipt(cfg, t, Unpack(t.inbox).response);
      }
    }
  }

  lemma {:induction false} RecvReceipts(cfg: Config, s: State, input: seq<Read>)
    requires Accounted(s) && |s.inbox| <= cfg.recvSize
    ensures Accounted(Recv(cfg, s, input).0)
    decreases |input|, |s.inbox| + |s.pending|
  {
    var e := if input == [] then Arrive([]) else input[0];
    TurnReceipts(cfg, s, e);
    match RecvOne(cfg, s, e)
    case Stop(_, _) =>
    case Again(t) => RecvReceipts(cfg, t, if input == [] then [] else input[1..]);
  }

  lemma {:induction false} SendFromReceipts(s: State, i: nat, inflight: bool, env: nat -> SendStep)
    requires i <= |s.queue| && NoEmptyImages(s.queue)
    ensures var t := SendFrom(s, i, inflight, env).0;
            t.h.events == s.h.events && t.h.dispatched == s.h.dispatched && t.h.regs == s.h.regs
    decreases |s.queue| - i
  {
    if i < |s.queue| {
      var (t, rv) := SendOne(s, i, inflight, env(i));
      if rv == OK {
        SendFromReceipts(t, i + 1, inflight || LiveQos2(s.queue[i]), env);
      }
    }
  }

  lemma StageAccounted(cfg: Config, s: State, p: Packed, ctype: int, id: uint16)
    requires Accounted(s) && (p.Fails? ==> p.err < 0) && ctype != PUBACK && ctype != PUBREC
    ensures Accounted(Stage(cfg, s, p, ctype, id).0)
  {
    StageReceipt(cfg, s, p, ctype, id);
  }

  lemma SendReceipts(cfg: Config, s: State, env: nat -> SendStep, now: int, stale: uint16)
    requires Accounted(s) && NoEmptyImages(s.queue)
    ensures Accounted(Send(cfg, s, env, now, stale).0)
  {
    SendFromReceipts(s, 0, false, env);
    StageAccounted(cfg, SendFrom(s, 0, false, env).0, BareImage(PINGREQ), PINGREQ, stale);
  }

  lemma ApplyReceipts(cfg: Config, s: State, call: Call)
    requires Accounted(s) && Legal(s, call) && Ready(cfg, s)
    ensures Accounted(Apply(cfg, s, call).0)
  {
    if Stages(call) {
      var id := IdOf(s, call);
      ApplyStages(cfg, s, call);
      PacketSays(s, call, id);
      StageAccounted(cfg, Prepared(s, call), Packet(call, id), TypeOf(call), id);
    } else if call.CallSend? {
      SendReceipts(cfg, s, call.env, call.now, call.stale);
    } else if call.CallRecv? {
      RecvReceipts(cfg, s, call.input);
    }
  }

  lemma {:induction false} RunAccounted(cfg: Config, run: seq<State>, n: nat)
    requires IsRun(cfg, run) && n < |run|
    ensures Accounted(run[n])
  {
    if n > 0 {
      RunAccounted(cfg, run, n - 1);
      assert StepsAt(cfg, run, n - 1);
      var call :| Legal(run[n - 1], call) && run[n] == Apply(cfg, run[n - 1], call).0;
      ApplyReceipts(cfg, run[n - 1], call);
    }
  }

  // ---- The promises ----

  /** Over every run, the events are those of packets received, in order, none twice, and no PUBLISH at QoS 0 is missing. */
  lemma EventsComeFromPackets(cfg: Config, run: seq<State>, n: nat)
    requires IsRun(cfg, run) && n < |run|
    ensures Traces(run[n].h.events, run[n].h.dispatched)
  {
    RunAccounted(cfg, run, n);
  }

  /** Over every run, PUBACKs and PUBRECs registered and PUBLISHes delivered at QoS 1 and 2 correspond one to one, in order. */
  lemma DeliveriesHaveReceipts(cfg: Config, run: seq<State>, n: nat)
    requires IsRun(cfg, run) && n < |run|
    ensures Called(run[n].h.events) == Given(run[n].h.regs)
  {
    RunAccounted(cfg, run, n);
  }
}
