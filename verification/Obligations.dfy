/** What the client must do, over every run: send what is due, answer what asks for an answer, heed a refusal. */
module Obligations {
  import opened Options
  import opened MqttTypes
  import opened Wire
  import opened FixedHeader
  import opened Packets
  import opened Responses
  import opened QueueSpec
  import opened Session
  import opened Ledger
  import opened Discipline
  import opened Runs
  import opened Progress
  import opened Staging
  import opened Handling
  import opened Sending
  import opened Calls

  // ---- What is due is sent ----

  lemma Sendables(cfg: Config, s: State)
    requires Invariant(cfg, s)
    ensures NoEmptyImages(s.queue) && AllSendable(s.queue)
  {
    forall i | 0 <= i < |s.queue|
      ensures |s.queue[i].image| > 0 && Sendable(s.queue[i].ctype)
    {
      assert Entry(s.queue, s.h.base, s.h.regs, s.h.log, s.h.dispatched, i);
      EntryQos(s.queue, s.h.base, s.h.regs, s.h.log, s.h.dispatched, i);
    }
  }

  lemma RunSendables(cfg: Config, run: seq<State>, n: nat)
    requires IsRun(cfg, run) && n < |run|
    ensures NoEmptyImages(run[n].queue) && AllSendable(run[n].queue)
  {
    RunInvariant(cfg, run, n);
    Sendables(cfg, run[n]);
  }

  /** The burst holds the due messages, each once, in the order of their numbers. */
  lemma {:induction false} BurstHas(s: State, env: nat -> SendStep, n: nat, i: nat)
    requires n <= |s.queue| && i < |s.queue|
    ensures var b := Burst(s, env, n);
            && (Tx(s.h.base + i, s.queue[i].image) in b <==> i < n && Due(s, env, i))
            && (forall j :: 0 <= j < |b| ==> s.h.base <= b[j].uid < s.h.base + n)
            && (forall j, k :: 0 <= j < k < |b| ==> b[j].uid < b[k].uid)
            && (forall j :: 0 <= j < |b| && b[j].uid == s.h.base + i ==> b[j].image == s.queue[i].image)
  {
    if n > 0 {
      BurstHas(s, env, n - 1, i);
    }
  }

  function LateOnes(s: State, env: nat -> SendStep, n: nat): set<nat>
    requires n <= |s.queue|
  {
    set i: nat | i < n && s.queue[i].state == AwaitingAck && env(i).check > s.queue[i].sentAt + s.responseTimeout
  }

  lemma {:induction false} LatesCount(s: State, env: nat -> SendStep, n: nat)
    requires n <= |s.queue|
    ensures Lates(s, env, n) == |LateOnes(s, env, n)|
  {
    if n > 0 {
      LatesCount(s, env, n - 1);
      var rest := LateOnes(s, env, n - 1);
      assert LateOnes(s, env, n) == if Late(s, env, n - 1) then rest + {n - 1} else rest;
    }
  }

  lemma PushSendsNothing(cfg: Config, p: State, k: nat, image: bytes, ctype: int, id: uint16)
    requires Spent(p.queue, k)
    ensures var t := Pushed(cfg, p, k, image, ctype, id).0; t.h.log == p.h.log && t.timeouts == p.timeouts
  {
  }

  lemma SendOkIs(cfg: Config, s: State, env: nat -> SendStep, now: int, stale: uint16)
    requires NoEmptyImages(s.queue) && AllSendable(s.queue) && Send(cfg, s, env, now, stale).1 == OK
    ensures var t, p := Send(cfg, s, env, now, stale).0, Passing(s, env, |s.queue|);
            t.h.log == p.h.log && t.timeouts == p.timeouts
  {
    var (p, rv) := Ended(s, env, Fault(s, env, 0));
    var spent := CompletePrefix(p.queue);
    SendExactly(cfg, s, env, now, stale, spent);
    PushSendsNothing(cfg, p, spent, [0xC0, 0], PINGREQ, stale);
  }

  /**
   From s to t message i, and nothing but messages of the queue, has been sent as it should: if and only if it had
   never been sent or its acknowledgement was late, and it is no QoS 2 PUBLISH behind another that is not
   COMPLETE; once, with its bytes, in queue order; and the late ones have been counted.
   */
  predicate SendsWhatIsDue(s: State, env: nat -> SendStep, t: State, i: nat)
    requires i < |s.queue|
  {
    var m := s.queue[i];
    var late := m.state == AwaitingAck && env(i).check > m.sentAt + s.responseTimeout;
    var held := Holds2(m) && exists j :: 0 <= j < i && Holds2(s.queue[j]);
    && s.h.log <= t.h.log && var sent := t.h.log[|s.h.log|..];
    && (Tx(s.h.base + i, m.image) in sent <==> (m.state == Unsent || late) && !held)
    && (forall j :: 0 <= j < |sent| && sent[j].uid == s.h.base + i ==> sent[j].image == m.image)
    && (forall j :: 0 <= j < |sent| ==> s.h.base <= sent[j].uid < s.h.base + |s.queue|)
    && (forall j, k :: 0 <= j < k < |sent| ==> sent[j].uid < sent[k].uid)
    && t.timeouts == s.timeouts + |LateOnes(s, env, |s.queue|)|
  }

  lemma BurstIsDue(s: State, env: nat -> SendStep, t: State, i: nat)
    requires i < |s.queue|
    requires t.h.log == s.h.log + Burst(s, env, |s.queue|) && t.timeouts == s.timeouts + Lates(s, env, |s.queue|)
    ensures SendsWhatIsDue(s, env, t, i)
  {
    BurstHas(s, env, |s.queue|, i);
    LatesCount(s, env, |s.queue|);
    assert t.h.log[|s.h.log|..] == Burst(s, env, |s.queue|);
  }

  /** In every state of every run, a send that reports success has sent exactly what is due. */
  lemma DueIsSent(cfg: Config, run: seq<State>, n: nat, env: nat -> SendStep, now: int, stale: uint16, i: nat)
    requires IsRun(cfg, run) && n < |run| && i < |run[n].queue|
    ensures NoEmptyImages(run[n].queue)
    ensures var (t, rv) := Send(cfg, run[n], env, now, stale); rv == OK ==> SendsWhatIsDue(run[n], env, t, i)
  {
    RunSendables(cfg, run, n);
    if Send(cfg, run[n], env, now, stale).1 == OK {
      SendOkIs(cfg, run[n], env, now, stale);
      BurstIsDue(run[n], env, Send(cfg, run[n], env, now, stale).0, i);
    }
  }

  // ---- The keep-alive ping ----

  lemma PushRegisters(cfg: Config, p: State, k: nat, image: bytes, ctype: int, id: uint16)
    requires Spent(p.queue, k)
    ensures var (t, rv) := Pushed(cfg, p, k, image, ctype, id);
            && t.h.dispatched == p.h.dispatched && t.lastSend == p.lastSend
            && t.keepAlive == p.keepAlive && t.responseTimeout == p.responseTimeout
            && (if rv == OK then t.h.regs == p.h.regs + [Registered(image, ctype, id, |p.h.dispatched|)] && t.error == p.error
                else t.h.regs == p.h.regs && t.error == rv)
  {
  }

  /**
   A send registers nothing but a ping, and that exactly if nothing, not even in this send, has gone out for three
   quarters of the keep-alive interval; or it reports why it cannot.
   */
  lemma SendRegisters(cfg: Config, s: State, env: nat -> SendStep, now: int, stale: uint16)
    requires Invariant(cfg, s)
    ensures NoEmptyImages(s.queue)
    ensures var (t, rv) := Send(cfg, s, env, now, stale);
            && t.h.dispatched == s.h.dispatched
            && t.keepAlive == s.keepAlive && t.responseTimeout == s.responseTimeout
            && (if rv == OK && 4 * (now - t.lastSend) > 3 * t.keepAlive then
                  t.h.regs == s.h.regs + [Registered([0xC0, 0], PINGREQ, stale, |s.h.dispatched|)]
                else t.h.regs == s.h.regs)
            && (rv != OK ==> t.error == rv)
  {
    Sendables(cfg, s);
    var p := Ended(s, env, Fault(s, env, 0)).0;
    var spent := CompletePrefix(p.queue);
    SendExactly(cfg, s, env, now, stale, spent);
    PushRegisters(cfg, p, spent, [0xC0, 0], PINGREQ, stale);
  }

  // ---- Receiving ----

  /** Everything about a state that handling a packet leaves alone. */
  predicate SameTimes(s: State, t: State) {
    && t.keepAlive == s.keepAlive && t.responseTimeout == s.responseTimeout && t.lastSend == s.lastSend
    && t.timeouts == s.timeouts && t.pid == s.pid && t.h.log == s.h.log && t.h.partial == s.h.partial
  }

  lemma SomeFirst(q: seq<Msg>, r: Response) returns (i: nat)
    ensures FirstAcked(q, r, i)
  {
    i := 0;
    if AckKey(r).None? {
      return |q|;
    }
    while i < |q| && !IsAcked(q[i], AckKey(r).value)
      invariant i <= |q| && forall j :: 0 <= j < i ==> !IsAcked(q[j], AckKey(r).value)
    {
      i := i + 1;
    }
  }

  lemma DispatchReports(cfg: Config, s: State, r: Response)
    ensures var (t, rv) := Dispatch(cfg, s, r); SameTimes(s, t) && (rv != OK ==> t.error == rv)
  {
    var i := SomeFirst(s.queue, r);
    var k := CompletePrefix(Completed(s.queue, i));
    HandledByTable(cfg, s, r, i, k);
    ReplyReports(cfg, Booked(s, r, i), r, k);
  }

  lemma ReplyReports(cfg: Config, s: State, r: Response, k: nat)
    requires Spent(s.queue, k)
    ensures var (t, rv) := WithReply(cfg, s, r, k); SameTimes(s, t) && (rv != OK ==> t.error == rv)
  {
  }

  /** A packet that was handled, and the handling failed with this error. */
  ghost predicate HandlingFailed(cfg: Config, t: State, rv: int) {
    exists s: State, r: Response, n: nat ::
      Unpack(s.inbox) == Got(r, n) && Dispatch(cfg, s, r).1 == rv && n <= |Dispatch(cfg, s, r).0.inbox| &&
      t == Consume(Dispatch(cfg, s, r).0, n)
  }

  /** Why a receive ends: what it finds in the buffer, or what the network or the handling of a packet reports. */
  ghost predicate Ends(cfg: Config, input: seq<Read>, t: State, rv: int) {
    if rv == OK then t.pending == [] && Unpack(t.inbox).More? && |t.inbox| < cfg.recvSize
    else
      && t.error == rv
      && ((rv == ERROR_SOCKET_ERROR && ReadFails in input)
          || Unpack(t.inbox) == Bad(rv)
          || (rv == UNDEFINED && Unpack(t.inbox).Overrun?)
          || (rv == ERROR_RECV_BUFFER_TOO_SMALL && Unpack(t.inbox).More? && |t.inbox| == cfg.recvSize)
          || HandlingFailed(cfg, t, rv))
  }

  /**
   A receive goes on until the socket is empty and the buffer, not full, holds no whole packet; or it ends with an
   error that it also leaves in the client, for one of five reasons; a read that fails ends it. It sends nothing and changes no times.
   */
  lemma {:induction false} RecvEnds(cfg: Config, s: State, input: seq<Read>)
    requires |s.inbox| <= cfg.recvSize
    ensures var (t, rv) := Recv(cfg, s, input); Ends(cfg, input, t, rv) && SameTimes(s, t)
    ensures input != [] && input[0].ReadFails? ==>
              Recv(cfg, s, input) == (s.(error := ERROR_SOCKET_ERROR), ERROR_SOCKET_ERROR)
    decreases |input|, |s.inbox| + |s.pending|
  {
    var e := if input == [] then Arrive([]) else input[0];
    if e.Arrive? {
      var t := ReadIn(cfg, Arriving(s, e.data));
      ReadInKeepsStream(cfg, Arriving(s, e.data));
      if Unpack(t.inbox).Got? {
        var r := Unpack(t.inbox).response;
        DispatchReports(cfg, t, r);
        HandleKeepsInput(cfg, Note(t, r), r);
      }
    }
    match RecvOne(cfg, s, e)
    case Stop(_, _) =>
    case Again(t) => RecvEnds(cfg, t, if input == [] then [] else input[1..]);
  }

  lemma StageKeepsIntervals(cfg: Config, s: State, p: Packed, ctype: int, id: uint16)
    ensures var t := Stage(cfg, s, p, ctype, id).0; t.keepAlive == s.keepAlive && t.responseTimeout == s.responseTimeout
  {
  }

  /** The keep-alive interval is the one asked for when connecting, and the response timeout the one that was set. */
  lemma IntervalsAsAsked(cfg: Config, s: State, call: Call)
    requires Invariant(cfg, s) && Legal(s, call) && Ready(cfg, s)
    ensures var t := Apply(cfg, s, call).0;
            && t.keepAlive == (if call.CallConnect? then call.c.keepAlive else s.keepAlive)
            && t.responseTimeout == (if call.SetResponseTimeout? then call.seconds else s.responseTimeout)
  {
    if call.CallRecv? {
      RecvEnds(cfg, s, call.input);
    } else if call.CallSend? {
      SendRegisters(cfg, s, call.env, call.now, call.stale);
    } else if Stages(call) {
      ApplyStages(cfg, s, call);
      StageKeepsIntervals(cfg, Prepared(s, call), Packet(call, IdOf(s, call)), TypeOf(call), IdOf(s, call));
    }
  }
}
