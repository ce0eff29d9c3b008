/** What the client promises over every run, in terms of the history alone. */
module Promises {
  import opened Options
  import opened MqttTypes
  import opened FixedHeader
  import opened Packets
  import opened Responses
  import opened QueueSpec
  import opened Session
  import opened Ledger
  import opened Discipline
  import opened Delivery
  import opened Balance
  import opened Early
  import opened Stream
  import opened Staging
  import opened Runs
  import opened Calls
  import opened Progress

  /** From every state of a run every legal call is possible, and extends it. */
  lemma EveryCallIsPossible(cfg: Config, run: seq<State>, call: Call)
    requires IsRun(cfg, run) && Legal(run[|run| - 1], call)
    ensures Ready(cfg, run[|run| - 1]) && IsRun(cfg, run + [Apply(cfg, run[|run| - 1], call).0])
  {
    var last := run[|run| - 1];
    RunInvariant(cfg, run, |run| - 1);
    InvariantReady(cfg, last);
    var run' := run + [Apply(cfg, last, call).0];
    forall i | 0 <= i < |run'| - 1
      ensures StepsAt(cfg, run', i)
    {
      if i < |run| - 1 {
        assert StepsAt(cfg, run, i);
      }
    }
  }

  // ---- Delivery to the application ----

  /** Between two deliveries of a QoS 2 PUBLISH with one packet id, the client accepted a PUBREL for it. */
  lemma Qos2AtMostOnce(cfg: Config, run: seq<State>, n: nat, i: nat, j: nat, id: uint16)
    requires IsRun(cfg, run) && n < |run| && i < j < |run[n].h.events|
    requires DeliversQos2(run[n].h.events[i], id) && DeliversQos2(run[n].h.events[j], id)
    ensures exists k :: i < k < j && run[n].h.events[k] == Released(id)
  {
    RunInvariant(cfg, run, n);
    assert ReleasedBetween(run[n].h.events, i, j, id);
  }

  /** Handling the packet passes it to the application. */
  ghost predicate Delivers(cfg: Config, s: State, r: Response) {
    Dispatch(cfg, s, r).0.h.events == s.h.events + [Delivered(r)]
  }

  /**
   When delivery at QoS 2 is exactly once. While a delivery with its id is open, a PUBLISH is a duplicate and
   is dropped without effect. Any other is new, and is delivered exactly if no COMPLETE PUBREC record with its
   id lingers in the queue, the client is not in error, and the PUBREC can be queued.
   */
  lemma Qos2DeliveredIff(cfg: Config, run: seq<State>, n: nat, r: Response)
    requires IsRun(cfg, run) && n < |run| && r.Publish? && r.qos == 2
    ensures var s := run[n];
            if Open(s.h.events, r.id) then Dispatch(cfg, s, r) == (Note(s, r), OK)
            else Delivers(cfg, s, r) <==>
                 !HasStale(s.queue, r.id) && s.error >= 0 && RoomFor(cfg, s.queue, 4)
  {
    var s := run[n];
    RunInvariant(cfg, run, n);
    FindsEither(s.queue, r.id);
    ReplyIs(PUBREC, r.id);
    StageOutcome(cfg, Note(s, r), PubxxxImage(PUBREC, r.id), PUBREC, r.id);
    assert Open(s.h.events, r.id) <==> HasGuard(s.queue, r.id);
    assert |s.h.events + [Delivered(r)]| != |s.h.events|;
  }

  // ---- No message is lost ----

  /**
   A registered message is either finished, and then it was sent and needed no acknowledgement or its
   acknowledgement was received, or it is still queued with its type, its id and its bytes.
   */
  lemma NoLoss(cfg: Config, run: seq<State>, n: nat, u: nat)
    requires IsRun(cfg, run) && n < |run| && u < |run[n].h.regs|
    ensures var s := run[n]; var g := s.h.regs[u];
            if Rank(s, u) >= 3 then Cause(s.h.regs, s.h.log, s.h.dispatched, u)
            else s.h.base <= u < s.h.base + |s.queue| && var m := s.queue[u - s.h.base];
                 m.ctype == g.ctype && m.id == g.id &&
                 (m.image == g.image || (Dupable(g) && m.image == WithDup(g.image)))
  {
    RunInvariant(cfg, run, n);
    Accounted(run[n], u);
  }

  lemma Accounted(s: State, u: nat)
    requires Entries(s.queue, s.h.base, s.h.regs, s.h.log, s.h.dispatched) && u < |s.h.regs|
    requires LeftForCause(s.h.base, s.h.regs, s.h.log, s.h.dispatched)
    ensures var g := s.h.regs[u];
            if Rank(s, u) >= 3 then Cause(s.h.regs, s.h.log, s.h.dispatched, u)
            else s.h.base <= u < s.h.base + |s.queue| && var m := s.queue[u - s.h.base];
                 m.ctype == g.ctype && m.id == g.id &&
                 (m.image == g.image || (Dupable(g) && m.image == WithDup(g.image)))
  {
    if u >= s.h.base {
      assert Entry(s.queue, s.h.base, s.h.regs, s.h.log, s.h.dispatched, u - s.h.base);
    }
  }

  lemma AcceptedIsNext(cfg: Config, s: State, call: Call)
    requires Legal(s, call) && Ready(cfg, s) && Stages(call) && Apply(cfg, s, call).1 == OK
    ensures var t := Apply(cfg, s, call).0;
            && |t.h.regs| == |s.h.regs| + 1 && var g := t.h.regs[|s.h.regs|];
            g.ctype == TypeOf(call) && g.heard == |s.h.dispatched| && Says(call, g.image, g.id)
  {
    var image, id := CallOutcome(cfg, s, call);
  }

  /**
   A message whose call reported success is the next one registered, a broker reads in it what the call asked
   for, and `NoLoss` holds of it ever after.
   */
  lemma AcceptedIsNotLost(cfg: Config, run: seq<State>, m: nat, n: nat, call: Call)
    requires IsRun(cfg, run) && m < n < |run| && Legal(run[m], call) && Ready(cfg, run[m]) && Stages(call)
    requires Apply(cfg, run[m], call) == (run[m + 1], OK)
    ensures var s, u := run[n], |run[m].h.regs|;
            && u < |s.h.regs| && var g := s.h.regs[u];
            && g.ctype == TypeOf(call) && g.heard == |run[m].h.dispatched| && Says(call, g.image, g.id)
            && if Rank(s, u) >= 3 then Cause(s.h.regs, s.h.log, s.h.dispatched, u)
               else s.h.base <= u < s.h.base + |s.queue| && var q := s.queue[u - s.h.base];
                    q.ctype == g.ctype && q.id == g.id &&
                    (q.image == g.image || (Dupable(g) && q.image == WithDup(g.image)))
  {
    var u := |run[m].h.regs|;
    AcceptedIsNext(cfg, run[m], call);
    OnlyForward(cfg, run, m + 1, n, u);
    NoLoss(cfg, run, n, u);
  }

  /** A request over-acknowledged when some packet came was so in some state of the run. */
  lemma {:induction false} OverAtSomewhere(cfg: Config, run: seq<State>, n: nat, j: nat) returns (m: nat)
    requires IsRun(cfg, run) && n < |run| && OverAt(run[n].h.log, run[n].h.dispatched, run[n].h.marks, j)
    ensures m <= n && OverAcked(run[m].h.log, run[m].h.dispatched)
    decreases n
  {
    m := n;
    if n > 0 && !OverAcked(run[n].h.log, run[n].h.dispatched) {
      OverAtStep(cfg, run, n, j);
      m := OverAtSomewhere(cfg, run, n - 1, j);
    }
  }

  lemma OverAtStep(cfg: Config, run: seq<State>, n: nat, j: nat)
    requires IsRun(cfg, run) && 0 < n < |run| && OverAt(run[n].h.log, run[n].h.dispatched, run[n].h.marks, j)
    ensures OverAt(run[n - 1].h.log, run[n - 1].h.dispatched, run[n - 1].h.marks, j) ||
            OverAcked(run[n].h.log, run[n].h.dispatched)
  {
    var h, t := run[n - 1].h, run[n].h;
    StepGrows(cfg, run, n);
    OverAtEarlier(h.log, h.dispatched, h.marks, j, t.log, t.dispatched, t.marks);
  }

  lemma StepGrows(cfg: Config, run: seq<State>, n: nat)
    requires IsRun(cfg, run) && 0 < n < |run|
    ensures var h, t := run[n - 1].h, run[n].h;
            && h.log <= t.log && h.dispatched <= t.dispatched && h.marks <= t.marks
            && Stamped(h.log, h.dispatched, h.marks)
            && forall i :: |h.marks| <= i < |t.marks| ==> t.marks[i] == |t.log|
  {
    RunInvariant(cfg, run, n - 1);
    assert StepsAt(cfg, run, n - 1);
    OneStepGrows(cfg, run[n - 1], run[n]);
  }

  lemma OneStepGrows(cfg: Config, s: State, t: State)
    requires Invariant(cfg, s) && Steps(cfg, s, t)
    ensures s.h.log <= t.h.log && s.h.dispatched <= t.h.dispatched && s.h.marks <= t.h.marks
    ensures forall i :: |s.h.marks| <= i < |t.h.marks| ==> t.h.marks[i] == |t.h.log|
  {
    StepForward(cfg, s, t);
    StepMarks(cfg, s, t);
  }

  /**
   Without response timeouts, and as long as no request has been acknowledged more often than sent, a
   message that is COMPLETE or has left the queue was sent. `Witnesses` shows that neither can be spared.
   */
  lemma CompleteWasSent(cfg: Config, run: seq<State>, n: nat, u: nat)
    requires IsRun(cfg, run) && n < |run| && run[n].timeouts == 0 && Rank(run[n], u) >= 3
    requires forall m :: 0 <= m <= n ==> !OverAcked(run[m].h.log, run[m].h.dispatched)
    ensures InLog(run[n].h.log, u)
  {
    var h := run[n].h;
    RunInvariant(cfg, run, n);
    if EverOver(h.log, h.dispatched, h.marks) {
      var j: nat :| OverAt(h.log, h.dispatched, h.marks, j);
      var m := OverAtSomewhere(cfg, run, n, j);
    }
  }

  /** A message never moves back, and its registration never changes. */
  lemma OnlyForward(cfg: Config, run: seq<State>, m: nat, n: nat, u: nat)
    requires IsRun(cfg, run) && m <= n < |run|
    ensures Rank(run[m], u) <= Rank(run[n], u)
    ensures run[m].h.regs <= run[n].h.regs && run[m].h.log <= run[n].h.log && run[m].h.events <= run[n].h.events
  {
    RunForward(cfg, run, m, n);
  }

  // ---- The wire ----

  /** Once COMPLETE, a message is never sent again. */
  lemma CompleteNeverSent(cfg: Config, run: seq<State>, m: nat, n: nat, u: nat, j: nat)
    requires IsRun(cfg, run) && m <= n < |run| && Rank(run[m], u) >= 3
    requires |run[m].h.log| <= j < |run[n].h.log|
    ensures run[n].h.log[j].uid != u
  {
    RunForward(cfg, run, m, n);
  }

  /**
   Every transmission carries the registered bytes. A QoS 1 PUBLISH after its first transmission has
   DUP set, and differs in that bit only.
   */
  lemma TransmissionsAreTrue(cfg: Config, run: seq<State>, n: nat, j: nat)
    requires IsRun(cfg, run) && n < |run| && j < |run[n].h.log|
    ensures var t := run[n].h.log[j];
            t.uid < |run[n].h.regs| && var g := run[n].h.regs[t.uid];
            |t.image| == |g.image| > 0 && t.image[1..] == g.image[1..] &&
            if Dupable(g) && !First(run[n].h.log, j)
            then t.image[0] / 8 % 2 == 1 && t.image[0] % 8 == g.image[0] % 8 && t.image[0] / 16 == g.image[0] / 16
            else t.image == g.image
  {
    RunInvariant(cfg, run, n);
    assert TrueCopy(run[n].h.regs, run[n].h.log, j);
    var g := run[n].h.regs[run[n].h.log[j].uid];
    DupBits(g.image);
  }

  lemma DupBits(image: bytes)
    requires |image| > 0
    ensures WithDup(image)[0] / 8 % 2 == 1 && WithDup(image)[0] % 8 == image[0] % 8
    ensures WithDup(image)[0] / 16 == image[0] / 16
  {
  }

  /**
   QoS 2 PUBLISHes are first sent in the order in which they were registered, and so are all other packets
   among themselves.
   */
  lemma FirstSentInOrder(cfg: Config, run: seq<State>, n: nat, k: nat, j: nat)
    requires IsRun(cfg, run) && n < |run| && k < j < |run[n].h.log|
    requires run[n].h.log[k].uid < |run[n].h.regs| && run[n].h.log[j].uid < |run[n].h.regs|
    requires RegQos2(run[n].h.regs[run[n].h.log[k].uid]) == RegQos2(run[n].h.regs[run[n].h.log[j].uid])
    requires First(run[n].h.log, j)
    ensures run[n].h.log[k].uid < run[n].h.log[j].uid
  {
    RunInvariant(cfg, run, n);
    var log := run[n].h.log;
    assert Below(run[n].h.regs, log[..j], log[j].uid, RegQos2(run[n].h.regs[log[j].uid]));
    assert log[..j][k] == log[k];
  }

  /** Once a QoS 2 PUBLISH has been sent, every one registered before it is COMPLETE or gone. */
  lemma Qos2SentInTurn(cfg: Config, run: seq<State>, n: nat, v: nat, u: nat)
    requires IsRun(cfg, run) && n < |run| && v < u < |run[n].h.regs|
    requires RegQos2(run[n].h.regs[v]) && RegQos2(run[n].h.regs[u]) && InLog(run[n].h.log, u)
    ensures Rank(run[n], v) >= 3
  {
    var s := run[n];
    RunInvariant(cfg, run, n);
    if v >= s.h.base {
      EntriesInTurn(s.queue, s.h.base, s.h.regs, s.h.log, s.h.dispatched, v, u);
    }
  }

  /** After a failed send nothing more reaches the wire. */
  lemma FailedSendIsLast(cfg: Config, run: seq<State>, m: nat, n: nat)
    requires IsRun(cfg, run) && m <= n < |run| && run[m].h.partial != []
    ensures run[n].h.log == run[m].h.log && run[n].h.partial == run[m].h.partial && run[n].error < 0
  {
    RunInvariant(cfg, run, m);
    RunForward(cfg, run, m, n);
  }

  function Images(log: seq<Tx>): (r: seq<bytes>)
    ensures |r| == |log|
  {
    seq(|log|, i requires 0 <= i < |log| => log[i].image)
  }

  /** The bytes handed whole to the network, in order. */
  function WireOf(log: seq<Tx>): bytes {
    if log == [] then [] else log[0].image + WireOf(log[1..])
  }

  /** A stream cut into packets where the headers say that they end. */
  function SplitFrames(s: bytes): seq<bytes>
    decreases |s|
  {
    if DecodeHeader(s).Unpacked? then [s[..FrameSize(s)]] + SplitFrames(s[FrameSize(s)..]) else []
  }

  lemma {:induction false} DecodeLengthTail(s: bytes, t: bytes, k: nat, weight: nat, sum: nat)
    requires 1 <= k <= |s| == |t| && s[1..] == t[1..]
    ensures DecodeLength(s, k, weight, sum) == DecodeLength(t, k, weight, sum)
    decreases |s| - k
  {
    if weight != 0x1000_0000 && k < |s| {
      assert s[k] == s[1..][k - 1] == t[k];
      if s[k] >= 128 {
        DecodeLengthTail(s, t, k + 1, weight * 128, sum + (s[k] % 128) * weight);
      }
    }
  }

  lemma DupKeepsFrame(image: bytes)
    requires |image| > 0 && WholeFrame(image) && image[0] / 16 == PUBLISH
    ensures WholeFrame(WithDup(image))
  {
    DupKeepsQos(image);
    DecodeLengthTail(image, WithDup(image), 1, 1, 0);
  }

  lemma {:induction false} SplitWire(log: seq<Tx>)
    requires forall j :: 0 <= j < |log| ==> WholeFrame(log[j].image)
    ensures SplitFrames(WireOf(log)) == Images(log)
    decreases |log|
  {
    if log != [] {
      var image, rest := log[0].image, WireOf(log[1..]);
      HeaderStable(image, rest);
      SplitWire(log[1..]);
      assert WireOf(log)[..|image|] == image && WireOf(log)[|image|..] == rest;
      assert Images(log) == [image] + Images(log[1..]);
    }
  }

  /** What has reached the wire whole is a sequence of whole packets, and a reader can tell them apart. */
  lemma WireIsPackets(cfg: Config, run: seq<State>, n: nat)
    requires IsRun(cfg, run) && n < |run|
    ensures SplitFrames(WireOf(run[n].h.log)) == Images(run[n].h.log)
  {
    var h := run[n].h;
    RunInvariant(cfg, run, n);
    forall j | 0 <= j < |h.log|
      ensures WholeFrame(h.log[j].image)
    {
      assert TrueCopy(h.regs, h.log, j);
      var g := h.regs[h.log[j].uid];
      assert Honest(g.image, g.ctype, g.id);
      if Dupable(g) {
        DupKeepsFrame(g.image);
      }
    }
    SplitWire(h.log);
  }

  // ---- Acknowledgements ----

  /** Every acknowledgement by id has at most one record to refer to, and the search finds it. */
  lemma AcksAreUnambiguous(cfg: Config, run: seq<State>, n: nat, ctype: int, id: uint16, i: nat, j: nat)
    requires IsRun(cfg, run) && n < |run| && i < |run[n].queue| && j < |run[n].queue|
    requires DrawsId(ctype) || ctype == PUBREC || ctype == PUBREL
    requires Matches(run[n].queue[i], ctype, Some(id)) && Matches(run[n].queue[j], ctype, Some(id))
    ensures i == j && Find(run[n].queue, ctype, Some(id)) == Some(i)
  {
    RunInvariant(cfg, run, n);
    AtMostOneMatch(run[n].queue, ctype, id, i, j);
  }

  /** No two queued PUBLISHes, SUBSCRIBEs and UNSUBSCRIBEs share an id, and no two PUBRECs or two PUBRELs do. */
  lemma IdsAreDistinct(cfg: Config, run: seq<State>, n: nat, i: nat, j: nat)
    requires IsRun(cfg, run) && n < |run| && i < j < |run[n].queue|
    ensures var a, b := run[n].queue[i], run[n].queue[j];
            (DrawsId(a.ctype) && DrawsId(b.ctype)) || (a.ctype == b.ctype && a.ctype in {PUBREC, PUBREL}) ==>
            a.id != b.id
  {
    RunInvariant(cfg, run, n);
    assert !Clash(run[n].queue[i], run[n].queue[j]);
  }

  /** At most one QoS 2 PUBLISH awaits its PUBREC, and it is the first QoS 2 PUBLISH queued that is not COMPLETE. */
  lemma OneQos2InFlight(cfg: Config, run: seq<State>, n: nat, i: nat, j: nat)
    requires IsRun(cfg, run) && n < |run| && i < |run[n].queue| && j < |run[n].queue|
    requires IsQos2(run[n].queue[i]) && run[n].queue[i].state.AwaitingAck? && LiveQos2(run[n].queue[j])
    ensures i <= j && (run[n].queue[j].state.AwaitingAck? ==> i == j)
  {
    RunInvariant(cfg, run, n);
    AtMostOneAwaiting(run[n].queue, i, j);
  }

  /** An acknowledgement of something unknown means that a response timed out, or that some request was over-acknowledged. */
  lemma UnknownAckIsNotOurs(cfg: Config, run: seq<State>, n: nat)
    requires IsRun(cfg, run) && n < |run| && run[n].error == ERROR_ACK_OF_UNKNOWN
    ensures run[n].timeouts > 0 || OverAcked(run[n].h.log, run[n].h.dispatched)
  {
    RunInvariant(cfg, run, n);
  }

  // ---- Receiving ----

  /** The packets dispatched are those of the whole stream, in order, up to those still buffered. */
  lemma ReceiveIsOneShot(cfg: Config, run: seq<State>, n: nat)
    requires IsRun(cfg, run) && n < |run|
    ensures var s := run[n];
            ParseAll(s.h.arrived) == Prepend(s.h.dispatched, ParseAll(s.inbox + s.pending))
  {
    RunInvariant(cfg, run, n);
    InStepNow(run[n].h.arrived, run[n].h.dispatched, run[n].inbox + run[n].pending);
  }

  /** After a receive that reports success nothing is left that could be parsed. */
  predicate Idle(s: State) {
    s.pending == [] && Unpack(s.inbox).More?
  }

  lemma {:induction false} RecvOkIsIdle(cfg: Config, s: State, input: seq<Read>)
    requires |s.inbox| <= cfg.recvSize
    ensures Recv(cfg, s, input).1 == OK ==> Idle(Recv(cfg, s, input).0)
    decreases |input|, |s.inbox| + |s.pending|
  {
    var e := if input == [] then Arrive([]) else input[0];
    match RecvOne(cfg, s, e)
    case Stop(_, _) =>
      if e.Arrive? {
        ReadInKeepsStream(cfg, Arriving(s, e.data));
      }
    case Again(t) =>
      RecvOkIsIdle(cfg, t, if input == [] then [] else input[1..]);
  }

  /** Two runs that received the same bytes, however cut, have dispatched the same packets and hold the same rest. */
  lemma ChunkingIsIrrelevant(cfg: Config, run: seq<State>, n: nat, cfg': Config, run': seq<State>, n': nat)
    requires IsRun(cfg, run) && n < |run| && IsRun(cfg', run') && n' < |run'|
    requires Idle(run[n]) && Idle(run'[n']) && run[n].h.arrived == run'[n'].h.arrived
    ensures run[n].h.dispatched == run'[n'].h.dispatched && run[n].inbox == run'[n'].inbox
  {
    ReceiveIsOneShot(cfg, run, n);
    ReceiveIsOneShot(cfg', run', n');
    IdleRest(run[n]);
    IdleRest(run'[n']);
  }

  lemma IdleRest(s: State)
    requires Idle(s)
    ensures ParseAll(s.inbox + s.pending) == Parsed([], s.inbox)
    ensures forall d :: Prepend(d, Parsed([], s.inbox)) == Parsed(d, s.inbox)
  {
    assert s.inbox + s.pending == s.inbox;
  }

  lemma HandleNotTooSmall(cfg: Config, s: State, r: Response)
    requires s.error != ERROR_RECV_BUFFER_TOO_SMALL
    ensures Handle(cfg, s, r).0.error != ERROR_RECV_BUFFER_TOO_SMALL
    ensures Handle(cfg, s, r).1 != ERROR_RECV_BUFFER_TOO_SMALL
  {
  }

  /** One turn of the loop: if it ends for want of room, the packet at the front is longer than the buffer. */
  lemma TurnTooSmall(cfg: Config, s: State, e: Read, rest: bytes)
    requires |s.inbox| <= cfg.recvSize && s.error != ERROR_RECV_BUFFER_TOO_SMALL
    ensures match RecvOne(cfg, s, e)
            case Stop(t, rv) =>
              rv == ERROR_RECV_BUFFER_TOO_SMALL && DecodeHeader(t.inbox + rest).Unpacked? ==>
              FrameSize(t.inbox + rest) > cfg.recvSize
            case Again(t) => t.error != ERROR_RECV_BUFFER_TOO_SMALL
  {
    if e.Arrive? {
      var t := ReadIn(cfg, Arriving(s, e.data));
      match Unpack(t.inbox)
      case More =>
        if DecodeHeader(t.inbox + rest).Unpacked? {
          UndecidedIsShort(t.inbox, rest);
        }
      case Bad(_) => ParseErrors(t.inbox);
      case Overrun =>
      case Got(r, _) => HandleNotTooSmall(cfg, Note(t, r), r);
    }
  }

  /** The receive buffer is reported too small only if the packet at its front is longer than the buffer. */
  lemma {:induction false} TooSmallMeansLonger(cfg: Config, s: State, input: seq<Read>, rest: bytes)
    requires |s.inbox| <= cfg.recvSize && s.error != ERROR_RECV_BUFFER_TOO_SMALL
    ensures var (t, rv) := Recv(cfg, s, input);
            rv == ERROR_RECV_BUFFER_TOO_SMALL && DecodeHeader(t.inbox + rest).Unpacked? ==>
            FrameSize(t.inbox + rest) > cfg.recvSize
    decreases |input|, |s.inbox| + |s.pending|
  {
    var e := if input == [] then Arrive([]) else input[0];
    TurnTooSmall(cfg, s, e, rest);
    match RecvOne(cfg, s, e)
    case Stop(_, _) =>
    case Again(t) => TooSmallMeansLonger(cfg, t, if input == [] then [] else input[1..], rest);
  }
}
