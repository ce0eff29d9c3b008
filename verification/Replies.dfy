/**
 The handshakes over whole runs: every reply answers the packet received just before it was registered, and no
 QoS 2 handshake loses its next step.
 */
module Replies {
  import opened Options
  import opened MqttTypes
  import opened Packets
  import opened Responses
  import opened QueueSpec
  import opened Session
  import opened Ledger
  import opened Staging
  import opened Handling
  import opened Sending
  import opened Runs
  import opened Calls
  import opened Progress
  import opened Obligations

  // ---- Replies answer ----

  predicate IsReply(g: Registered) {
    PUBACK <= g.ctype <= PUBCOMP
  }

  /** The last packet handled when g was registered calls for g, and g's four bytes are those of the reply. */
  predicate Replied(g: Registered, disp: seq<Response>) {
    && 0 < g.heard <= |disp| && ReplyType(disp[g.heard - 1]) == g.ctype && PacketId(disp[g.heard - 1]) == g.id
    && IsPubxxx(g.ctype) && g.image == ReplyBytes(g.ctype, g.id)
  }

  predicate RepliesAnswer(regs: seq<Registered>, disp: seq<Response>) {
    && HeardBy(regs, |disp|)
    && (forall u :: 0 <= u < |regs| && IsReply(regs[u]) ==> Replied(regs[u], disp))
    && forall u, v :: 0 <= u < v < |regs| && IsReply(regs[u]) && IsReply(regs[v]) ==> regs[u].heard < regs[v].heard
  }

  lemma AnsweredRegisters(cfg: Config, s: State, r: Response, k: nat)
    requires Spent(s.queue, k)
    ensures var t := WithReply(cfg, s, r, k).0;
            && t.h.dispatched == s.h.dispatched
            && (t.h.regs == s.h.regs ||
                (ReplyType(r) != 0 && t.h.regs == s.h.regs +
                 [Registered(ReplyBytes(ReplyType(r), PacketId(r)), ReplyType(r), PacketId(r), |s.h.dispatched|)]))
  {
    if ReplyType(r) != 0 {
      PushRegisters(cfg, s, k, ReplyBytes(ReplyType(r), PacketId(r)), ReplyType(r), PacketId(r));
    }
  }

  /** What the client does with a packet in the register: nothing, or it adds the reply. */
  lemma DispatchRegisters(cfg: Config, s: State, r: Response)
    ensures var t := Dispatch(cfg, s, r).0;
            && t.h.dispatched == s.h.dispatched + [r]
            && (t.h.regs == s.h.regs ||
                (ReplyType(r) != 0 && t.h.regs == s.h.regs +
                 [Registered(ReplyBytes(ReplyType(r), PacketId(r)), ReplyType(r), PacketId(r), |s.h.dispatched| + 1)]))
  {
    var i := SomeFirst(s.queue, r);
    var k := CompletePrefix(Completed(s.queue, i));
    HandledByTable(cfg, s, r, i, k);
    HandledRegisters(cfg, s, r, i, k);
  }

  lemma HandledRegisters(cfg: Config, s: State, r: Response, i: nat, k: nat)
    requires FirstAcked(s.queue, r, i) && Spent(Completed(s.queue, i), k)
    ensures var t := Handled(cfg, s, r, i, k).0;
            && t.h.dispatched == s.h.dispatched + [r]
            && (t.h.regs == s.h.regs ||
                (ReplyType(r) != 0 && t.h.regs == s.h.regs +
                 [Registered(ReplyBytes(ReplyType(r), PacketId(r)), ReplyType(r), PacketId(r), |s.h.dispatched| + 1)]))
  {
    AnsweredRegisters(cfg, Booked(s, r, i), r, k);
  }

  lemma DispatchAnswers(cfg: Config, s: State, r: Response)
    requires RepliesAnswer(s.h.regs, s.h.dispatched)
    ensures var t := Dispatch(cfg, s, r).0; RepliesAnswer(t.h.regs, t.h.dispatched)
  {
    DispatchRegisters(cfg, s, r);
  }

  lemma {:induction false} RecvAnswers(cfg: Config, s: State, input: seq<Read>)
    requires RepliesAnswer(s.h.regs, s.h.dispatched) && |s.inbox| <= cfg.recvSize
    ensures var t := Recv(cfg, s, input).0; RepliesAnswer(t.h.regs, t.h.dispatched)
    decreases |input|, |s.inbox| + |s.pending|
  {
    var e := if input == [] then Arrive([]) else input[0];
    if e.Arrive? {
      var t := ReadIn(cfg, Arriving(s, e.data));
      if Unpack(t.inbox).Got? {
        DispatchAnswers(cfg, t, Unpack(t.inbox).response);
      }
    }
    match RecvOne(cfg, s, e)
    case Stop(_, _) =>
    case Again(t) => RecvAnswers(cfg, t, if input == [] then [] else input[1..]);
  }

  /** A call that receives nothing registers no reply. */
  lemma SilentCall(cfg: Config, s: State, call: Call)
    requires Invariant(cfg, s) && Legal(s, call) && Ready(cfg, s) && !call.CallRecv?
    ensures var t := Apply(cfg, s, call).0;
            && t.h.dispatched == s.h.dispatched
            && (t.h.regs == s.h.regs ||
                (|t.h.regs| == |s.h.regs| + 1 && t.h.regs[..|s.h.regs|] == s.h.regs &&
                 var g := t.h.regs[|s.h.regs|]; !IsReply(g) && g.heard == |s.h.dispatched|))
  {
    ApplyKeeps(cfg, s, call);
    if Stages(call) {
      var image, id := CallOutcome(cfg, s, call);
    } else if call.CallSend? {
      SendRegisters(cfg, s, call.env, call.now, call.stale);
    }
  }

  lemma StillAnswer(regs: seq<Registered>, regs': seq<Registered>, disp: seq<Response>)
    requires RepliesAnswer(regs, disp) && |regs| <= |regs'| <= |regs| + 1 && regs'[..|regs|] == regs
    requires |regs'| == |regs| + 1 ==> !IsReply(regs'[|regs|]) && regs'[|regs|].heard == |disp|
    ensures RepliesAnswer(regs', disp)
  {
    assert forall u :: 0 <= u < |regs| ==> regs'[u] == regs[u];
  }

  lemma ApplyAnswers(cfg: Config, s: State, call: Call)
    requires Invariant(cfg, s) && Legal(s, call) && Ready(cfg, s) && RepliesAnswer(s.h.regs, s.h.dispatched)
    ensures var t := Apply(cfg, s, call).0; RepliesAnswer(t.h.regs, t.h.dispatched)
  {
    if call.CallRecv? {
      RecvAnswers(cfg, s, call.input);
    } else {
      SilentCall(cfg, s, call);
      StillAnswer(s.h.regs, Apply(cfg, s, call).0.h.regs, s.h.dispatched);
    }
  }

  lemma StepAnswers(cfg: Config, s: State, t: State)
    requires Steps(cfg, s, t) && Invariant(cfg, s) && RepliesAnswer(s.h.regs, s.h.dispatched)
    ensures RepliesAnswer(t.h.regs, t.h.dispatched)
  {
    var call :| Legal(s, call) && t == Apply(cfg, s, call).0;
    ApplyAnswers(cfg, s, call);
  }

  /**
   Over every run, every PUBACK, PUBREC, PUBREL and PUBCOMP registered is the reply, with its id and bytes, that
   the packet handled just then calls for; and no packet is replied to twice.
   */
  lemma {:induction false} RunAnswers(cfg: Config, run: seq<State>, n: nat)
    requires IsRun(cfg, run) && n < |run|
    ensures RepliesAnswer(run[n].h.regs, run[n].h.dispatched)
  {
    if n == 0 {
      var t :| run[0] == Initial(t);
      assert Initial(t).h.regs == [];
    } else {
      RunAnswers(cfg, run, n - 1);
      RunInvariant(cfg, run, n - 1);
      assert StepsAt(cfg, run, n - 1);
      StepAnswers(cfg, run[n - 1], run[n]);
    }
  }
}
