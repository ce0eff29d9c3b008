/** Every call moves forward: the history grows, messages advance, and a dead connection sends nothing more. */
module Progress {
  import opened Options
  import opened MqttTypes
  import opened Packets
  import opened Responses
  import opened QueueSpec
  import opened Session
  import opened Runs
  import opened Calls

  /** How far message u has come: 0 not registered, then UNSENT, AWAITING_ACK, COMPLETE, and 4 gone. */
  function Rank(s: State, u: nat): nat {
    if u < s.h.base then 4
    else if u - s.h.base >= |s.queue| then 0
    else match s.queue[u - s.h.base].state case Unsent => 1 case AwaitingAck => 2 case Complete => 3
  }

  predicate Counted(s: State) {
    |s.h.regs| == s.h.base + |s.queue|
  }

  predicate HistoryGrows(s: State, t: State) {
    && s.h.regs <= t.h.regs && s.h.log <= t.h.log
    && s.h.arrived <= t.h.arrived && s.h.dispatched <= t.h.dispatched && s.h.events <= t.h.events
    && s.timeouts <= t.timeouts
  }

  ghost predicate RanksGrow(s: State, t: State) {
    forall u: nat {:trigger Rank(t, u)} {:trigger Rank(s, u)} :: Rank(s, u) <= Rank(t, u)
  }

  /** What is sent between the two states was not COMPLETE in the first. */
  predicate SendsLive(s: State, t: State) {
    forall j :: |s.h.log| <= j < |t.h.log| ==> Rank(s, t.h.log[j].uid) <= 2
  }

  predicate DeathIsFinal(s: State, t: State) {
    Dead(s.error) ==> Dead(t.error) && t.h.log == s.h.log && t.h.partial == s.h.partial
  }

  ghost predicate Forward(s: State, t: State) {
    Counted(t) && HistoryGrows(s, t) && RanksGrow(s, t) && SendsLive(s, t) && DeathIsFinal(s, t)
  }

  lemma ForwardTrans(s: State, t: State, v: State)
    requires Forward(s, t) && Forward(t, v)
    ensures Forward(s, v)
  {
    forall j | |s.h.log| <= j < |v.h.log|
      ensures Rank(s, v.h.log[j].uid) <= 2
    {
      var u := v.h.log[j].uid;
      assert Rank(s, u) <= Rank(t, u);
      if j < |t.h.log| {
        assert v.h.log[j] == t.h.log[j];
      }
    }
  }

  /** Nothing happens to the queue, nothing is registered, nothing is sent. */
  predicate SideStep(s: State, t: State) {
    && t.queue == s.queue && t.h.base == s.h.base && t.h.regs == s.h.regs && t.h.log == s.h.log
    && s.h.arrived <= t.h.arrived && s.h.dispatched <= t.h.dispatched && s.h.events <= t.h.events
    && s.timeouts <= t.timeouts && (Dead(s.error) ==> Dead(t.error) && t.h.partial == s.h.partial)
  }

  lemma SideStepForward(s: State, t: State)
    requires Counted(s) && SideStep(s, t)
    ensures Forward(s, t)
  {
    forall u: nat
      ensures Rank(s, u) == Rank(t, u)
    {
    }
  }

  lemma CleanForward(s: State)
    requires Counted(s)
    ensures Forward(s, Session.Clean(s))
  {
    var k, t := CompletePrefix(s.queue), Session.Clean(s);
    forall u: nat
      ensures Rank(s, u) <= Rank(t, u)
    {
      if s.h.base + k <= u && u - s.h.base < |s.queue| {
        assert t.queue[u - t.h.base] == s.queue[u - s.h.base];
      }
    }
  }

  lemma EnqueueForward(s: State, image: bytes, ctype: int, id: uint16)
    requires Counted(s)
    ensures Forward(s, Enqueue(s, image, ctype, id))
  {
    var t := Enqueue(s, image, ctype, id);
    forall u: nat
      ensures Rank(s, u) <= Rank(t, u)
    {
    }
  }

  lemma StageForward(cfg: Config, s: State, p: Packed, ctype: int, id: uint16)
    requires Counted(s) && (p.Fails? ==> p.err < 0)
    ensures Forward(s, Stage(cfg, s, p, ctype, id).0)
    ensures Dead(s.error) ==> Stage(cfg, s, p, ctype, id) == (s, s.error)
    ensures var r := Stage(cfg, s, p, ctype, id); r.1 != OK ==> r.0.error == r.1
  {
    var t := Stage(cfg, s, p, ctype, id).0;
    if s.error < 0 || p.Fails? {
      SideStepForward(s, t);
    } else if Fits(cfg, s.queue, |p.image|) {
      EnqueueForward(s, p.image, ctype, id);
    } else {
      var c := Session.Clean(s);
      CleanForward(s);
      if Fits(cfg, c.queue, |p.image|) {
        EnqueueForward(c, p.image, ctype, id);
      } else {
        SideStepForward(c, t);
      }
      ForwardTrans(s, c, t);
    }
  }

  lemma ReleaseForward(s: State, i: nat)
    requires Counted(s) && i < |s.queue|
    ensures Forward(s, Release(s, i))
  {
    var t := Release(s, i);
    forall u: nat
      ensures Rank(s, u) <= Rank(t, u)
    {
    }
  }

  lemma AckForward(s: State, ctype: int, id: Option<uint16>)
    requires Counted(s)
    ensures Forward(s, Ack(s, ctype, id).0)
  {
    match Find(s.queue, ctype, id)
    case None => SideStepForward(s, Ack(s, ctype, id).0);
    case Some(i) => ReleaseForward(s, i);
  }

  lemma ReplyForward(cfg: Config, s: State, ctype: nat, id: uint16)
    requires Counted(s) && IsPubxxx(ctype)
    ensures Forward(s, Reply(cfg, s, ctype, id).0)
  {
    StageForward(cfg, s, PubxxxImage(ctype, id), ctype, id);
  }

  /** From s to t, and on by a step that leaves the queue alone. */
  lemma ThenSideStep(s: State, t: State, v: State)
    requires Forward(s, t) && SideStep(t, v)
    ensures Forward(s, v)
  {
    SideStepForward(t, v);
    ForwardTrans(s, t, v);
  }

  lemma OnPublishForward(cfg: Config, s: State, r: Response)
    requires Counted(s) && r.Publish?
    ensures Forward(s, OnPublish(cfg, s, r).0)
  {
    SideStepForward(s, s);
    var t := OnPublish(cfg, s, r).0;
    if r.qos == 1 || (r.qos == 2 && Find(s.queue, PUBREC, Some(r.id)).None?) {
      var ctype := if r.qos == 1 then PUBACK else PUBREC;
      ReplyForward(cfg, s, ctype, r.id);
      ThenSideStep(s, Reply(cfg, s, ctype, r.id).0, t);
    } else {
      ThenSideStep(s, s, t);
    }
  }

  lemma OnPubrecForward(cfg: Config, s: State, id: uint16)
    requires Counted(s)
    ensures Forward(s, OnPubrec(cfg, s, id).0)
  {
    SideStepForward(s, s);
    AckForward(s, PUBLISH, Some(id));
    var t := Ack(s, PUBLISH, Some(id)).0;
    ReplyForward(cfg, t, PUBREL, id);
    ForwardTrans(s, t, Reply(cfg, t, PUBREL, id).0);
  }

  lemma OnPubrelForward(cfg: Config, s: State, id: uint16)
    requires Counted(s)
    ensures Forward(s, OnPubrel(cfg, s, id).0)
  {
    AckForward(s, PUBREC, Some(id));
    var t := Ack(s, PUBREC, Some(id)).0;
    var v := Emit(t, Released(id));
    ThenSideStep(s, t, v);
    ReplyForward(cfg, v, PUBCOMP, id);
    ForwardTrans(s, v, Reply(cfg, v, PUBCOMP, id).0);
  }

  lemma HandleForward(cfg: Config, s: State, r: Response)
    requires Counted(s)
    ensures Forward(s, Handle(cfg, s, r).0)
  {
    match r
    case Connack(_, code) =>
      AckForward(s, CONNECT, None);
      ThenSideStep(s, Ack(s, CONNECT, None).0, Handle(cfg, s, r).0);
    case Publish(_, _, _, _, _, _) => OnPublishForward(cfg, s, r);
    case Puback(id) => AckForward(s, PUBLISH, Some(id));
    case Pubrec(id) => OnPubrecForward(cfg, s, id);
    case Pubrel(id) => OnPubrelForward(cfg, s, id);
    case Pubcomp(id) => AckForward(s, PUBREL, Some(id));
    case Suback(id, codes) =>
      AckForward(s, SUBSCRIBE, Some(id));
      ThenSideStep(s, Ack(s, SUBSCRIBE, Some(id)).0, Handle(cfg, s, r).0);
    case Unsuback(id) => AckForward(s, UNSUBSCRIBE, Some(id));
    case Pingresp => AckForward(s, PINGREQ, None);
  }

  lemma RecvOneForward(cfg: Config, s: State, e: Read)
    requires Counted(s) && |s.inbox| <= cfg.recvSize
    ensures match RecvOne(cfg, s, e) case Stop(t, _) => Forward(s, t) case Again(t) => Forward(s, t)
  {
    SideStepForward(s, s);
    if e.Arrive? {
      var t := ReadIn(cfg, Arriving(s, e.data));
      ThenSideStep(s, s, t);
      match Unpack(t.inbox)
      case Bad(err) =>
        ParseErrors(t.inbox);
        ThenSideStep(s, t, t.(error := err));
      case Overrun => ThenSideStep(s, t, t.(error := UNDEFINED));
      case More => ThenSideStep(s, t, t.(error := ERROR_RECV_BUFFER_TOO_SMALL));
      case Got(r, n) =>
        var d := Note(t, r);
        ThenSideStep(s, t, d);
        HandleForward(cfg, d, r);
        HandleKeepsInput(cfg, d, r);
        var v := Handle(cfg, d, r).0;
        ForwardTrans(s, d, v);
        ThenSideStep(s, v, Consume(v, n));
    } else {
      ThenSideStep(s, s, s.(error := ERROR_SOCKET_ERROR));
    }
  }

  lemma {:induction false} RecvForward(cfg: Config, s: State, input: seq<Read>)
    requires Counted(s) && |s.inbox| <= cfg.recvSize
    ensures Forward(s, Recv(cfg, s, input).0)
    decreases |input|, |s.inbox| + |s.pending|
  {
    var e := if input == [] then Arrive([]) else input[0];
    RecvOneForward(cfg, s, e);
    match RecvOne(cfg, s, e)
    case Stop(_, _) =>
    case Again(t) =>
      var rest := if input == [] then [] else input[1..];
      RecvForward(cfg, t, rest);
      ForwardTrans(s, t, Recv(cfg, t, rest).0);
  }

  lemma SendOneForward(cfg: Config, s: State, i: nat, inflight: bool, e: SendStep)
    requires Counted(s) && i < |s.queue| && NoEmptyImages(s.queue) && !Dead(s.error)
    ensures Forward(s, SendOne(s, i, inflight, e).0)
    ensures SendOne(s, i, inflight, e).1 == OK ==> !Dead(SendOne(s, i, inflight, e).0.error)
  {
    var t := SendOne(s, i, inflight, e).0;
    forall u: nat
      ensures Rank(s, u) <= Rank(t, u)
    {
    }
  }

  lemma {:induction false} SendFromForward(cfg: Config, s: State, i: nat, inflight: bool, env: nat -> SendStep)
    requires Counted(s) && i <= |s.queue| && NoEmptyImages(s.queue) && !Dead(s.error)
    ensures Forward(s, SendFrom(s, i, inflight, env).0)
    decreases |s.queue| - i
  {
    if i == |s.queue| {
      SideStepForward(s, s);
    } else {
      SendOneForward(cfg, s, i, inflight, env(i));
      var (t, rv) := SendOne(s, i, inflight, env(i));
      if rv == OK {
        var inflight' := inflight || LiveQos2(s.queue[i]);
        SendFromForward(cfg, t, i + 1, inflight', env);
        ForwardTrans(s, t, SendFrom(t, i + 1, inflight', env).0);
      }
    }
  }

  lemma SendForward(cfg: Config, s: State, env: nat -> SendStep, now: int, stale: uint16)
    requires Counted(s) && NoEmptyImages(s.queue) && s.error != ERROR_CONNECT_NOT_CALLED
    ensures Forward(s, Send(cfg, s, env, now, stale).0)
  {
    if s.error < 0 && s.error != ERROR_SEND_BUFFER_IS_FULL {
      SideStepForward(s, s);
    } else {
      SendFromForward(cfg, s, 0, false, env);
      var (t, rv) := SendFrom(s, 0, false, env);
      if rv == OK && now > t.lastSend + 3 * t.keepAlive / 4 {
        StageForward(cfg, t, BareImage(PINGREQ), PINGREQ, stale);
        ForwardTrans(s, t, Ping(cfg, t, stale).0);
      }
    }
  }

  /** A call of the application notes or draws something, and then stages its packet. */
  lemma CallForward(cfg: Config, s: State, call: Call)
    requires Counted(s) && Legal(s, call) && Ready(cfg, s) && Stages(call)
    ensures Forward(s, Apply(cfg, s, call).0)
  {
    var s1, id := Prepared(s, call), IdOf(s, call);
    ApplyStages(cfg, s, call);
    PacketSays(s, call, id);
    SideStepForward(s, s1);
    StageForward(cfg, s1, Packet(call, id), TypeOf(call), id);
    ForwardTrans(s, s1, Apply(cfg, s, call).0);
  }

  lemma ApplyForward(cfg: Config, s: State, call: Call)
    requires Counted(s) && Legal(s, call) && Ready(cfg, s)
    ensures Forward(s, Apply(cfg, s, call).0)
  {
    if Stages(call) {
      CallForward(cfg, s, call);
    } else if call.CallRecv? {
      RecvForward(cfg, s, call.input);
    } else if call.CallSend? && s.error != ERROR_CONNECT_NOT_CALLED {
      SendForward(cfg, s, call.env, call.now, call.stale);
    } else {
      SideStepForward(s, Apply(cfg, s, call).0);
    }
  }

  lemma StepForward(cfg: Config, s: State, t: State)
    requires Steps(cfg, s, t) && Counted(s)
    ensures Forward(s, t)
  {
    var call :| Legal(s, call) && t == Apply(cfg, s, call).0;
    ApplyForward(cfg, s, call);
  }

  lemma RunCounted(cfg: Config, run: seq<State>, m: nat)
    requires IsRun(cfg, run) && m < |run|
    ensures Counted(run[m])
  {
    RunInvariant(cfg, run, m);
  }

  lemma ForwardStep(cfg: Config, s: State, t: State, v: State)
    requires Forward(s, t) && Steps(cfg, t, v)
    ensures Forward(s, v)
  {
    StepForward(cfg, t, v);
    ForwardTrans(s, t, v);
  }

  /** From any state of a run to any later one. */
  lemma {:induction false} RunForward(cfg: Config, run: seq<State>, m: nat, n: nat)
    requires IsRun(cfg, run) && m <= n < |run|
    ensures Forward(run[m], run[n])
    decreases n
  {
    if m == n {
      RunCounted(cfg, run, m);
      SideStepForward(run[m], run[m]);
    } else {
      RunForward(cfg, run, m, n - 1);
      assert StepsAt(cfg, run, n - 1);
      ForwardStep(cfg, run[m], run[n - 1], run[n]);
    }
  }
}
