/**
 The QoS 2 handshakes over whole runs: what completes a step of one registers its next step. A PUBLISH that its
 PUBREC has completed has its PUBREL, and a PUBREC that its PUBREL has completed has its PUBCOMP.
 */
module Handshakes {
  import opened Options
  import opened MqttTypes
  import opened Packets
  import opened Responses
  import opened QueueSpec
  import opened Session
  import opened Ledger
  import opened Staging
  import opened Handling
  import opened Sending
  import opened Runs
  import opened Calls
  import opened Progress
  import opened Obligations
  import opened Replies
  import opened Discipline
  import opened Promises

  /** The next step on the client's side, once a QoS 2 PUBLISH or a PUBREC is completed. */
  function Next(g: Registered): int {
    if RegQos2(g) then PUBREL else if g.ctype == PUBREC then PUBCOMP else 0
  }

  predicate Followed(regs: seq<Registered>, u: nat)
    requires u < |regs|
  {
    exists v :: u < v < |regs| && regs[v].ctype == Next(regs[u]) && regs[v].id == regs[u].id
  }

  /** A PUBACK, which ends the handshake of a PUBLISH at any QoS, has come since g was registered. */
  predicate PubackSince(disp: seq<Response>, g: Registered) {
    exists j :: g.heard <= j < |disp| && disp[j] == Puback(g.id)
  }

  predicate Broken(error: int) {
    error < 0 && error != ERROR_CONNECT_NOT_CALLED
  }

  predicate GoesOn(s: State, u: nat)
    requires u < |s.h.regs|
  {
    var g := s.h.regs[u];
    Rank(s, u) >= 3 && Next(g) != 0 ==>
      Followed(s.h.regs, u) || (g.ctype == PUBLISH && PubackSince(s.h.dispatched, g)) || Broken(s.error)
  }

  ghost predicate AllGoOn(s: State) {
    && (s.error == ERROR_CONNECT_NOT_CALLED ==> s.h.regs == [])
    && forall u {:trigger GoesOn(s, u)} :: 0 <= u < |s.h.regs| ==> GoesOn(s, u)
  }

  // ---- What a step must keep ----

  /** Nothing is revised, and what has been completed or dropped in the step goes on. */
  ghost predicate Leads(s: State, t: State) {
    && Counted(s) && Counted(t) && s.h.regs <= t.h.regs && s.h.dispatched <= t.h.dispatched
    && (Broken(s.error) ==> Broken(t.error)) && (t.error == ERROR_CONNECT_NOT_CALLED ==> t.h.regs == [])
    && forall u {:trigger Rank(t, u)} :: 0 <= u < |t.h.regs| && Rank(t, u) >= 3 ==>
         (u < |s.h.regs| && Rank(s, u) >= 3) || GoesOn(t, u)
  }

  lemma LeadsOn(s: State, t: State)
    requires AllGoOn(s) && Leads(s, t)
    ensures AllGoOn(t)
  {
    forall u | 0 <= u < |t.h.regs|
      ensures GoesOn(t, u)
    {
      if Rank(t, u) >= 3 && u < |s.h.regs| && Rank(s, u) >= 3 {
        assert GoesOn(s, u) && t.h.regs[u] == s.h.regs[u];
        if Followed(s.h.regs, u) {
          var v :| u < v < |s.h.regs| && s.h.regs[v].ctype == Next(s.h.regs[u]) && s.h.regs[v].id == s.h.regs[u].id;
          assert t.h.regs[v] == s.h.regs[v];
        } else if PubackSince(s.h.dispatched, s.h.regs[u]) {
          var j :| s.h.regs[u].heard <= j < |s.h.dispatched| && s.h.dispatched[j] == Puback(s.h.regs[u].id);
          assert t.h.dispatched[j] == s.h.dispatched[j];
        }
      }
    }
  }

  /** Staging completes nothing. */
  lemma PushRanks(cfg: Config, p: State, k: nat, image: bytes, ctype: int, id: uint16)
    requires Spent(p.queue, k) && Counted(p)
    ensures var t := Pushed(cfg, p, k, image, ctype, id).0;
            && Counted(t) && forall u: nat :: Rank(t, u) >= 3 <==> Rank(p, u) >= 3 && u < |p.h.regs|
  {
    forall u: nat
      ensures Rank(Pushed(cfg, p, k, image, ctype, id).0, u) >= 3 <==> Rank(p, u) >= 3 && u < |p.h.regs|
    {
      AppendedRank(p, 0, image, ctype, id, u);
      AppendedRank(p, k, image, ctype, id, u);
      SpentRank(p, k, u);
    }
  }

  lemma AppendedRank(p: State, k: nat, image: bytes, ctype: int, id: uint16, u: nat)
    requires Counted(p) && k <= |p.queue| && forall i :: 0 <= i < k ==> p.queue[i].state == Complete
    ensures Rank(Appended(p, k, image, ctype, id), u) >= 3 <==> Rank(p, u) >= 3 && u < |p.h.regs|
  {
    if p.h.base + k <= u < |p.h.regs| {
      assert Appended(p, k, image, ctype, id).queue[u - (p.h.base + k)] == p.queue[u - p.h.base];
    }
  }

  lemma SpentRank(p: State, k: nat, u: nat)
    requires Counted(p) && Spent(p.queue, k)
    ensures var t := p.(queue := p.queue[k..], error := ERROR_SEND_BUFFER_IS_FULL, h := p.h.(base := p.h.base + k));
            Rank(t, u) >= 3 <==> Rank(p, u) >= 3 && u < |p.h.regs|
  {
  }

  // ---- Receiving ----

  lemma BookedRanks(s: State, r: Response, i: nat, u: nat)
    requires i <= |s.queue| && Counted(s)
    ensures Counted(Booked(s, r, i)) && (Rank(Booked(s, r, i), u) >= 3 ==> Rank(s, u) >= 3 || (i < |s.queue| && u == s.h.base + i))
  {
  }

  /** The request that the packet completes, if its handshake has a next step, goes on. */
  lemma CompletedGoesOn(cfg: Config, s: State, r: Response, i: nat, k: nat)
    requires Counted(s) && FirstAcked(s.queue, r, i) && i < |s.queue| && Spent(Completed(s.queue, i), k)
    requires s.h.regs[s.h.base + i].ctype == s.queue[i].ctype && s.h.regs[s.h.base + i].id == s.queue[i].id
    requires s.h.regs[s.h.base + i].heard <= |s.h.dispatched| && s.error != ERROR_CONNECT_NOT_CALLED
    ensures var t := WithReply(cfg, Booked(s, r, i), r, k).0;
            s.h.base + i < |t.h.regs| && GoesOn(t, s.h.base + i)
  {
    var b, u := Booked(s, r, i), s.h.base + i;
    var t := WithReply(cfg, b, r, k).0;
    AnsweredRegisters(cfg, b, r, k);
    if ReplyType(r) != 0 {
      PushRegisters(cfg, b, k, ReplyBytes(ReplyType(r), PacketId(r)), ReplyType(r), PacketId(r));
      if t.h.regs != s.h.regs {
        assert t.h.regs[|s.h.regs|].id == PacketId(r);
      }
    } else {
      assert t.h.dispatched[|s.h.dispatched|] == r;
    }
  }

  lemma DispatchGoesOn(cfg: Config, s: State, r: Response)
    requires Entries(s.queue, s.h.base, s.h.regs, s.h.log, s.h.dispatched) && HeardBy(s.h.regs, |s.h.dispatched|)
    requires AllGoOn(s)
    ensures AllGoOn(Dispatch(cfg, s, r).0)
  {
    var i := SomeFirst(s.queue, r);
    var k := CompletePrefix(Completed(s.queue, i));
    HandledByTable(cfg, s, r, i, k);
    if i < |s.queue| {
      assert Entry(s.queue, s.h.base, s.h.regs, s.h.log, s.h.dispatched, i);
    }
    HandledGoesOn(cfg, s, r, i, k);
  }

  /** A packet that is dropped or refused. */
  lemma RefusedGoesOn(s: State, t: State)
    requires AllGoOn(s) && Counted(s) && Counted(t) && t.h.regs == s.h.regs && s.h.dispatched <= t.h.dispatched
    requires Broken(t.error) || (t.error == s.error && t.queue == s.queue && t.h.base == s.h.base)
    ensures AllGoOn(t)
  {
    forall u: nat | u < |t.h.regs| && Rank(t, u) >= 3
      ensures (u < |s.h.regs| && Rank(s, u) >= 3) || GoesOn(t, u)
    {
    }
    LeadsOn(s, t);
  }

  /** The ranks after a reply: only the request that the packet completes has got there. */
  lemma ReplyRanks(cfg: Config, s: State, r: Response, i: nat, k: nat, u: nat)
    requires Counted(s) && i <= |s.queue| && Spent(Completed(s.queue, i), k)
    ensures var t := WithReply(cfg, Booked(s, r, i), r, k).0;
            && Counted(t)
            && (Rank(t, u) >= 3 ==> u < |s.h.regs| && (Rank(s, u) >= 3 || (i < |s.queue| && u == s.h.base + i)))
  {
    BookedRanks(s, r, i, u);
    WithReplyRanks(cfg, Booked(s, r, i), r, k, u);
  }

  lemma WithReplyRanks(cfg: Config, b: State, r: Response, k: nat, u: nat)
    requires Counted(b) && Spent(b.queue, k)
    ensures var t := WithReply(cfg, b, r, k).0; Counted(t) && (Rank(t, u) >= 3 <==> Rank(b, u) >= 3 && u < |b.h.regs|)
  {
    if ReplyType(r) != 0 {
      PushRanks(cfg, b, k, ReplyBytes(ReplyType(r), PacketId(r)), ReplyType(r), PacketId(r));
      SameRank(Pushed(cfg, b, k, ReplyBytes(ReplyType(r), PacketId(r)), ReplyType(r), PacketId(r)).0,
               WithReply(cfg, b, r, k).0, u);
    }
  }

  lemma SameRank(s: State, t: State, u: nat)
    requires Counted(s) && t.queue == s.queue && t.h.base == s.h.base && t.h.regs == s.h.regs
    ensures Counted(t) && Rank(t, u) == Rank(s, u) && (Rank(s, u) >= 3 ==> u < |s.h.regs|)
  {
  }

  lemma ReplyErrors(cfg: Config, s: State, r: Response, i: nat, k: nat)
    requires AllGoOn(s) && i <= |s.queue| && Spent(Completed(s.queue, i), k)
    ensures var t := WithReply(cfg, Booked(s, r, i), r, k).0;
            && s.h.regs <= t.h.regs && s.h.dispatched <= t.h.dispatched
            && (Broken(s.error) ==> Broken(t.error)) && (t.error == ERROR_CONNECT_NOT_CALLED ==> t.h.regs == [])
  {
    if ReplyType(r) != 0 {
      PushRegisters(cfg, Booked(s, r, i), k, ReplyBytes(ReplyType(r), PacketId(r)), ReplyType(r), PacketId(r));
    }
  }

  lemma ReplyGoesOn(cfg: Config, s: State, r: Response, i: nat, k: nat)
    requires FirstAcked(s.queue, r, i) && Spent(Completed(s.queue, i), k) && AllGoOn(s) && Counted(s)
    requires i < |s.queue| ==> s.h.regs[s.h.base + i].ctype == s.queue[i].ctype && s.h.regs[s.h.base + i].id == s.queue[i].id
    requires HeardBy(s.h.regs, |s.h.dispatched|)
    ensures AllGoOn(WithReply(cfg, Booked(s, r, i), r, k).0)
  {
    var t := WithReply(cfg, Booked(s, r, i), r, k).0;
    if i < |s.queue| {
      CompletedGoesOn(cfg, s, r, i, k);
    }
    forall u: nat | u < |t.h.regs| && Rank(t, u) >= 3
      ensures (u < |s.h.regs| && Rank(s, u) >= 3) || GoesOn(t, u)
    {
      ReplyRanks(cfg, s, r, i, k, u);
    }
    ReplyRanks(cfg, s, r, i, k, 0);
    ReplyErrors(cfg, s, r, i, k);
    LeadsOn(s, t);
  }

  lemma HandledGoesOn(cfg: Config, s: State, r: Response, i: nat, k: nat)
    requires FirstAcked(s.queue, r, i) && Spent(Completed(s.queue, i), k) && AllGoOn(s) && Counted(s)
    requires i < |s.queue| ==> s.h.regs[s.h.base + i].ctype == s.queue[i].ctype && s.h.regs[s.h.base + i].id == s.queue[i].id
    requires HeardBy(s.h.regs, |s.h.dispatched|)
    ensures AllGoOn(Handled(cfg, s, r, i, k).0)
  {
    if Repeats(s.queue, r) || (AckKey(r).Some? && i == |s.queue|) || Refusal(r) != OK {
      RefusedGoesOn(s, Handled(cfg, s, r, i, k).0);
    } else {
      ReplyGoesOn(cfg, s, r, i, k);
    }
  }

  lemma {:induction false} RecvGoesOn(cfg: Config, s: State, input: seq<Read>)
    requires Invariant(cfg, s) && AllGoOn(s)
    ensures AllGoOn(Recv(cfg, s, input).0)
    decreases |input|, |s.inbox| + |s.pending|
  {
    var e := if input == [] then Arrive([]) else input[0];
    RecvOneKeeps(cfg, s, e);
    TurnGoesOn(cfg, s, e);
    match RecvOne(cfg, s, e)
    case Stop(_, _) =>
    case Again(t) => RecvGoesOn(cfg, t, if input == [] then [] else input[1..]);
  }

  /** What is read and what has been consumed do not matter. */
  lemma BuffersDoNotMatter(s: State, t: State)
    requires AllGoOn(s) && t.queue == s.queue && t.error == s.error
    requires t.h.base == s.h.base && t.h.regs == s.h.regs && t.h.dispatched == s.h.dispatched
    ensures AllGoOn(t)
  {
    forall u | 0 <= u < |t.h.regs|
      ensures GoesOn(t, u)
    {
      assert GoesOn(s, u);
    }
  }

  lemma FailureGoesOn(s: State, error: int)
    requires AllGoOn(s) && Broken(error)
    ensures AllGoOn(s.(error := error))
  {
  }

  lemma PacketGoesOn(cfg: Config, s: State, r: Response, n: nat)
    requires Core(cfg, s, None) && AllGoOn(s) && Unpack(s.inbox) == Got(r, n)
    ensures n <= |Dispatch(cfg, s, r).0.inbox| && AllGoOn(Consume(Dispatch(cfg, s, r).0, n))
  {
    DispatchGoesOn(cfg, s, r);
    HandleKeepsInput(cfg, Note(s, r), r);
    BuffersDoNotMatter(Dispatch(cfg, s, r).0, Consume(Dispatch(cfg, s, r).0, n));
  }

  lemma TurnGoesOn(cfg: Config, s: State, e: Read)
    requires Invariant(cfg, s) && AllGoOn(s)
    ensures match RecvOne(cfg, s, e) case Stop(t, _) => AllGoOn(t) case Again(t) => AllGoOn(t)
  {
    FailureGoesOn(s, ERROR_SOCKET_ERROR);
    if e.Arrive? {
      var t := ReadIn(cfg, Arriving(s, e.data));
      BuffersDoNotMatter(s, t);
      match Unpack(t.inbox)
      case Got(r, n) => PacketGoesOn(cfg, t, r, n);
      case Bad(err) =>
        ParseErrors(t.inbox);
        FailureGoesOn(t, err);
      case Overrun => FailureGoesOn(t, UNDEFINED);
      case More => FailureGoesOn(t, ERROR_RECV_BUFFER_TOO_SMALL);
    }
  }

  // ---- Sending and the calls of the application ----

  /** A transmission completes only what has no next step. */
  lemma LeftGoesOn(m: Msg, g: Registered, stamp: int)
    requires m.ctype == g.ctype && |m.image| > 0 && (IsQos2(m) <==> RegQos2(g))
    ensures LeftAs(m, stamp).state.Complete? ==> Next(g) == 0
  {
  }

  lemma RecordMatches(s: State, u: nat)
    requires Entries(s.queue, s.h.base, s.h.regs, s.h.log, s.h.dispatched) && s.h.base <= u < |s.h.regs|
    ensures u - s.h.base < |s.queue|
    ensures var m, g := s.queue[u - s.h.base], s.h.regs[u];
            m.ctype == g.ctype && |m.image| > 0 && (IsQos2(m) <==> RegQos2(g))
  {
    EntryQos(s.queue, s.h.base, s.h.regs, s.h.log, s.h.dispatched, u - s.h.base);
    assert Entry(s.queue, s.h.base, s.h.regs, s.h.log, s.h.dispatched, u - s.h.base);
  }

  lemma EndedRecord(s: State, env: nat -> SendStep, k: nat, i: nat)
    requires NoEmptyImages(s.queue) && k <= |s.queue| && i < |s.queue| && (k < |s.queue| ==> env(k).outcome.Failed?)
    ensures var t := Ended(s, env, k).0;
            && |t.queue| == |s.queue| && t.h.regs == s.h.regs && t.h.base == s.h.base
            && t.queue[i] == LeftAt(s, env, k, i)
  {
  }

  /** A pass over the queue completes only what has no next step. */
  lemma PassGoesOn(s: State, env: nat -> SendStep, k: nat, u: nat)
    requires Entries(s.queue, s.h.base, s.h.regs, s.h.log, s.h.dispatched) && NoEmptyImages(s.queue) && u < |s.h.regs|
    requires k <= |s.queue| && (k < |s.queue| ==> env(k).outcome.Failed?)
    ensures Rank(Ended(s, env, k).0, u) >= 3 ==> Rank(s, u) >= 3 || Next(s.h.regs[u]) == 0
  {
    if s.h.base <= u {
      var i := u - s.h.base;
      RecordMatches(s, u);
      EndedRecord(s, env, k, i);
      RankOf(Ended(s, env, k).0, u);
      RankOf(s, u);
      LeftGoesOn(s.queue[i], s.h.regs[u], env(i).stamp);
    } else {
      assert Rank(s, u) == 4;
    }
  }

  lemma RankOf(s: State, u: nat)
    requires s.h.base <= u < s.h.base + |s.queue|
    ensures Rank(s, u) >= 3 <==> s.queue[u - s.h.base].state.Complete?
  {
  }

  lemma EndedGoesOn(s: State, env: nat -> SendStep, k: nat)
    requires Entries(s.queue, s.h.base, s.h.regs, s.h.log, s.h.dispatched) && AllGoOn(s) && NoEmptyImages(s.queue)
    requires k <= |s.queue| && (k < |s.queue| ==> env(k).outcome.Failed?)
    ensures Counted(Ended(s, env, k).0) && AllGoOn(Ended(s, env, k).0)
  {
    var p := Ended(s, env, k).0;
    assert |p.queue| == |s.queue| && p.h.regs == s.h.regs && p.h.base == s.h.base && p.h.dispatched == s.h.dispatched;
    forall u: nat | u < |p.h.regs| && Rank(p, u) >= 3
      ensures (u < |s.h.regs| && Rank(s, u) >= 3) || GoesOn(p, u)
    {
      PassGoesOn(s, env, k, u);
    }
    LeadsOn(s, p);
  }

  lemma SendGoesOn(cfg: Config, s: State, env: nat -> SendStep, now: int, stale: uint16)
    requires Invariant(cfg, s) && AllGoOn(s)
    ensures NoEmptyImages(s.queue) && AllGoOn(Send(cfg, s, env, now, stale).0)
  {
    Sendables(cfg, s);
    var p := Ended(s, env, Fault(s, env, 0)).0;
    var k := CompletePrefix(p.queue);
    SendExactly(cfg, s, env, now, stale, k);
    EndedGoesOn(s, env, Fault(s, env, 0));
    StagedGoesOn(cfg, p, k, [0xC0, 0], PINGREQ, stale);
  }

  lemma StagedGoesOn(cfg: Config, s: State, k: nat, image: bytes, ctype: int, id: uint16)
    requires AllGoOn(s) && Counted(s) && Spent(s.queue, k)
    ensures AllGoOn(Pushed(cfg, s, k, image, ctype, id).0)
  {
    PushRanks(cfg, s, k, image, ctype, id);
    PushRegisters(cfg, s, k, image, ctype, id);
    LeadsOn(s, Pushed(cfg, s, k, image, ctype, id).0);
  }

  lemma PreparedGoesOn(s: State, call: Call)
    requires AllGoOn(s) && Stages(call)
    ensures AllGoOn(Prepared(s, call)) && Counted(Prepared(s, call)) == Counted(s)
  {
    var t := Prepared(s, call);
    if t.error == s.error {
      BuffersDoNotMatter(s, t);
    }
  }

  lemma CallGoesOn(cfg: Config, s: State, call: Call)
    requires Counted(s) && AllGoOn(s) && Legal(s, call) && Ready(cfg, s) && Stages(call)
    ensures AllGoOn(Apply(cfg, s, call).0)
  {
    var s1, p, k := Prepared(s, call), Packet(call, IdOf(s, call)), CompletePrefix(s.queue);
    ApplyStages(cfg, s, call);
    PacketSays(s, call, IdOf(s, call));
    PreparedGoesOn(s, call);
    if p.Fails? {
      RefusedGoesOn(s1, Apply(cfg, s, call).0);
    } else {
      StageExactly(cfg, s1, k, p, TypeOf(call), IdOf(s, call));
      StagedGoesOn(cfg, s1, k, p.image, TypeOf(call), IdOf(s, call));
    }
  }

  lemma ApplyGoesOn(cfg: Config, s: State, call: Call)
    requires Invariant(cfg, s) && AllGoOn(s) && Legal(s, call) && Ready(cfg, s)
    ensures AllGoOn(Apply(cfg, s, call).0)
  {
    if Stages(call) {
      CallGoesOn(cfg, s, call);
    } else if call.CallSend? {
      SendGoesOn(cfg, s, call.env, call.now, call.stale);
    } else if call.CallRecv? {
      RecvGoesOn(cfg, s, call.input);
    } else {
      BuffersDoNotMatter(s, Apply(cfg, s, call).0);
    }
  }

  lemma StepGoesOn(cfg: Config, s: State, t: State)
    requires Steps(cfg, s, t) && Invariant(cfg, s) && AllGoOn(s)
    ensures AllGoOn(t)
  {
    var call :| Legal(s, call) && t == Apply(cfg, s, call).0;
    ApplyGoesOn(cfg, s, call);
  }

  /**
   Over every run, a QoS 2 PUBLISH that is COMPLETE or gone has been followed by its PUBREL, or was acknowledged by
   a PUBACK; and a PUBREC that is COMPLETE or gone has been followed by its PUBCOMP; unless the client is in error.
   */
  lemma {:induction false} HandshakesGoOn(cfg: Config, run: seq<State>, n: nat)
    requires IsRun(cfg, run) && n < |run|
    ensures AllGoOn(run[n])
  {
    if n == 0 {
      var t :| run[0] == Initial(t);
      assert Initial(t).h.regs == [];
    } else {
      HandshakesGoOn(cfg, run, n - 1);
      RunInvariant(cfg, run, n - 1);
      assert StepsAt(cfg, run, n - 1);
      StepGoesOn(cfg, run[n - 1], run[n]);
    }
  }

  // ---- One PUBREC, one refusal ----

  lemma TheOneRecord(cfg: Config, run: seq<State>, n: nat, r: Response, k: Key, i: nat)
    requires IsRun(cfg, run) && n < |run| && i < |run[n].queue| && AckKey(r) == Some(k)
    requires DrawsId(k.ctype) || k.ctype == PUBREC || k.ctype == PUBREL
    requires run[n].queue[i].ctype == k.ctype && run[n].queue[i].id == k.id
    ensures FirstAcked(run[n].queue, r, i)
  {
    forall j | 0 <= j < i
      ensures !IsAcked(run[n].queue[j], k)
    {
      if IsAcked(run[n].queue[j], k) {
        AcksAreUnambiguous(cfg, run, n, k.ctype, k.id, i, j);
      }
    }
  }

  /** From s to t message i is completed, and the PUBREL registered, if there is no error and room for it. */
  ghost predicate PubrelRegistered(cfg: Config, s: State, id: uint16, i: nat, t: State, rv: int) {
    && Rank(t, s.h.base + i) >= 3 && t.h.events == s.h.events
    && if s.error >= 0 && RoomFor(cfg, Completed(s.queue, i), 4) then
         && rv == OK && t.error == s.error
         && t.h.regs == s.h.regs + [Registered([0x62, 2, id / 256, id % 256], PUBREL, id, |s.h.dispatched| + 1)]
       else
         && t.h.regs == s.h.regs && rv == t.error < 0
         && rv == if s.error < 0 then s.error else ERROR_SEND_BUFFER_IS_FULL
  }

  lemma PubrecHandled(cfg: Config, s: State, id: uint16, i: nat)
    requires Counted(s) && i < |s.queue| && FirstAcked(s.queue, Pubrec(id), i) && !HasRecord(s.queue, PUBREL, id)
    ensures PubrelRegistered(cfg, s, id, i, Dispatch(cfg, s, Pubrec(id)).0, Dispatch(cfg, s, Pubrec(id)).1)
  {
    var r := Pubrec(id);
    var b, k := Booked(s, r, i), CompletePrefix(Completed(s.queue, i));
    IsReplied(cfg, s, r, i, k);
    RoomIs(cfg, Completed(s.queue, i), k, 4);
    CompletedRank(cfg, s, r, i, k);
    PubrelPushed(cfg, b, k, id);
  }

  lemma CompletedRank(cfg: Config, s: State, r: Response, i: nat, k: nat)
    requires Counted(s) && i < |s.queue| && Spent(Completed(s.queue, i), k)
    ensures Rank(WithReply(cfg, Booked(s, r, i), r, k).0, s.h.base + i) >= 3
  {
    var b := Booked(s, r, i);
    RankOf(b, s.h.base + i);
    WithReplyRanks(cfg, b, r, k, s.h.base + i);
  }

  lemma IsReplied(cfg: Config, s: State, r: Response, i: nat, k: nat)
    requires FirstAcked(s.queue, r, i) && Spent(Completed(s.queue, i), k)
    requires i < |s.queue| && !Repeats(s.queue, r) && Refusal(r) == OK
    ensures Dispatch(cfg, s, r) == WithReply(cfg, Booked(s, r, i), r, k)
  {
    HandledByTable(cfg, s, r, i, k);
  }

  /** The PUBREL behind a completed PUBLISH. */
  lemma PubrelPushed(cfg: Config, b: State, k: nat, id: uint16)
    requires Spent(b.queue, k)
    ensures var (t, rv) := WithReply(cfg, b, Pubrec(id), k);
            && t.h.events == b.h.events
            && if b.error >= 0 && (HasRoom(cfg, b.queue, 4) || HasRoom(cfg, b.queue[k..], 4)) then
                 && rv == OK && t.error == b.error
                 && t.h.regs == b.h.regs + [Registered([0x62, 2, id / 256, id % 256], PUBREL, id, |b.h.dispatched|)]
               else
                 && t.h.regs == b.h.regs && rv == t.error < 0
                 && rv == if b.error < 0 then b.error else ERROR_SEND_BUFFER_IS_FULL
  {
    var t := Pushed(cfg, b, k, ReplyBytes(PUBREL, id), PUBREL, id).0;
    NothingTold(t);
  }

  /**
   In every state of every run, a PUBREC for a queued PUBLISH whose PUBREL is not queued completes that PUBLISH and
   registers the PUBREL, unless the client is in error or has no room for it, and then says so.
   */
  lemma PubrecIsAnswered(cfg: Config, run: seq<State>, n: nat, id: uint16, i: nat)
    requires IsRun(cfg, run) && n < |run| && i < |run[n].queue|
    requires run[n].queue[i].ctype == PUBLISH && run[n].queue[i].id == id
    requires forall j :: 0 <= j < |run[n].queue| && run[n].queue[j].ctype == PUBREL ==> run[n].queue[j].id != id
    ensures PubrelRegistered(cfg, run[n], id, i, Dispatch(cfg, run[n], Pubrec(id)).0, Dispatch(cfg, run[n], Pubrec(id)).1)
  {
    TheOneRecord(cfg, run, n, Pubrec(id), Key(PUBLISH, id), i);
    RunCounted(cfg, run, n);
    PubrecHandled(cfg, run[n], id, i);
  }

  lemma RoomIs(cfg: Config, q: seq<Msg>, k: nat, n: nat)
    requires Spent(q, k)
    ensures RoomFor(cfg, q, n) <==> HasRoom(cfg, q, n) || HasRoom(cfg, q[k..], n)
  {
    forall j: nat | Spent(q, j)
      ensures j == k
    {
      SpentIsPrefix(q, j);
      SpentIsPrefix(q, k);
    }
  }

  /** A CONNACK or SUBACK that finds its request completes it; the client goes on exactly if the broker accepts. */
  lemma RefusalIsHeeded(cfg: Config, s: State, r: Response, i: nat)
    requires i < |s.queue| && FirstAcked(s.queue, r, i) && (r.Connack? || (r.Suback? && r.codes != []))
    ensures var (t, rv) := Dispatch(cfg, s, r);
            && t.queue == s.queue[i := s.queue[i].(state := Complete, sentAt := 0)] && t.h.regs == s.h.regs
            && t.error == (if rv == OK then s.error else rv)
            && rv == if r.Connack? then
                       (if r.code == 0 then OK else if r.code == 2 then ERROR_CONNECT_CLIENT_ID_REFUSED
                        else ERROR_CONNECTION_REFUSED)
                     else if r.codes[0] == 0x80 then ERROR_SUBSCRIBE_FAILED else OK
  {
    HandledByTable(cfg, s, r, i, CompletePrefix(Completed(s.queue, i)));
  }
}
