/**
 The client engine in place: every method updates the send queue, the receive buffer and the client's
 fields, and is proved to compute what `Session` says of the same call. The clock, the network and the
 memory that a record is laid over are parameters.
 */
module Client {
  import opened Options
  import opened MqttTypes
  import opened Wire
  import opened FixedHeader
  import opened Packets
  import opened Responses
  import opened QueueSpec
  import opened MessageQueue
  import opened Session
  import opened PacketIds
  import Lfsr

  /** A call of a packer, as the macro MQTT_CLIENT_TRY_PACK takes it. */
  datatype PackCall =
    | PackConnect(c: ConnectRequest)
    | PackPublish(topic: Option<bytes>, id: uint16, payload: bytes, flags: byte)
    | PackPubxxx(ctype: nat, pubId: uint16)
    | PackSubscribe(subId: uint16, subs: seq<Subscription>)
    | PackUnsubscribe(unsubId: uint16, topics: seq<Subscription>)
    | PackBareHeader(bareType: nat)

  predicate CallInRange(p: PackCall) {
    match p
    case PackConnect(c) => ConnectInRange(c)
    case PackPublish(topic, _, payload, _) => PublishInRange(topic, payload)
    case PackPubxxx(ctype, _) => IsPubxxx(ctype)
    case PackSubscribe(_, subs) => TopicsInRange(subs)
    case PackUnsubscribe(_, topics) => TopicsInRange(topics)
    case PackBareHeader(ctype) => ctype == PINGREQ || ctype == DISCONNECT
  }

  function Packet(p: PackCall): (r: Packed)
    requires CallInRange(p)
  {
    match p
    case PackConnect(c) => ConnectImage(c)
    case PackPublish(topic, id, payload, flags) => PublishImage(topic, id, payload, flags)
    case PackPubxxx(ctype, id) => PubxxxImage(ctype, id)
    case PackSubscribe(id, subs) => SubscribeImage(id, subs)
    case PackUnsubscribe(id, topics) => UnsubscribeImage(id, topics)
    case PackBareHeader(ctype) => BareImage(ctype)
  }

  lemma PacketSize(p: PackCall)
    requires CallInRange(p)
    ensures match Packet(p) case Fails(err) => err < 0 case Image(image) => |image| >= 2
  {
  }

  class Client {
    const mq: MessageQueue
    const recvBuf: array<byte>
    /** Bytes held in the receive buffer, and bytes still free in it. */
    var recvCurr: nat
    var recvCurrSz: nat
    var error: int
    var pidLfsr: bv16
    var keepAlive: uint16
    var responseTimeout: int
    var timeOfLastSend: int
    var numberOfTimeouts: nat
    /** Bytes that have reached the socket and have not been read. */
    var pending: bytes
    ghost var h: History

    ghost predicate Valid()
      reads this, mq, mq.mem, mq.slots, recvBuf
    {
      && mq.Valid() && mq.mem != recvBuf
      && recvCurr + recvCurrSz == recvBuf.Length
    }

    ghost function Cfg(): Config {
      Config(mq.mem.Length, mq.recordSize, recvBuf.Length)
    }

    ghost function View(): State
      reads this, mq, recvBuf
      requires recvCurr <= recvBuf.Length
    {
      State(mq.msgs, error, pidLfsr, keepAlive, responseTimeout, timeOfLastSend, numberOfTimeouts,
            recvBuf[..recvCurr], pending, h)
    }

    /** `mqtt_init`. The time of the last send starts out as whatever its memory held. */
    constructor (sendSize: nat, recordSize: nat, recvSize: nat, staleTime: int)
      requires recordSize > 0
      ensures Valid() && fresh(mq) && fresh(mq.mem) && fresh(mq.slots) && fresh(recvBuf)
      ensures Cfg() == Config(sendSize, recordSize, recvSize)
      ensures View() == Initial(staleTime) && mq.msgs == [] && recvCurr == 0 && error == ERROR_CONNECT_NOT_CALLED
      ensures pidLfsr == 0 && responseTimeout == 30 && numberOfTimeouts == 0
    {
      mq := new MessageQueue(sendSize, recordSize);
      recvBuf := new byte[recvSize](_ => 0);
      recvCurr, recvCurrSz := 0, recvSize;
      error := ERROR_CONNECT_NOT_CALLED;
      pidLfsr := 0;
      keepAlive := 0;
      responseTimeout := 30;
      timeOfLastSend := staleTime;
      numberOfTimeouts := 0;
      pending := [];
      h := History(0, [], [], [], [], [], [], []);
    }

    /** `__mqtt_next_pid`. */
    method NextPid() returns (id: uint16)
      requires Valid() && |mq.msgs| < Lfsr.PERIOD
      modifies this`pidLfsr
      ensures Valid() && View() == old(View()).(pid := Session.NextPid(old(View())).bits)
      ensures id == Id(Session.NextPid(old(View()))) && id != 0
      ensures forall i :: 0 <= i < |mq.msgs| ==> mq.msgs[i].id != id
    {
      NextPidIsFree(View());
      if pidLfsr == 0 {
        pidLfsr := Lfsr.SEED;
      }
      ghost var found := Session.NextPid(old(View()));
      ghost var budget: nat := |mq.msgs|;
      var pidExists := true;
      while pidExists
        invariant if pidExists then Search(Lfsr.Reg(pidLfsr), mq.msgs, budget) == found
                  else Lfsr.Reg(pidLfsr) == found
        decreases pidExists, budget
      {
        pidLfsr := ShiftPid(pidLfsr);
        pidExists := mq.Carries(Id(Lfsr.Reg(pidLfsr)));
        assert pidExists == Taken(mq.msgs, Id(Lfsr.Reg(pidLfsr)));
        budget := if pidExists then budget - 1 else budget;
      }
      id := Id(Lfsr.Reg(pidLfsr));
    }

    /** One shift of the register, with the source's branch on the bit shifted out. */
    static method ShiftPid(pid: bv16) returns (next: bv16)
      ensures Lfsr.Reg(next) == Lfsr.Step(Lfsr.Reg(pid))
    {
      Lfsr.StepBranches(Lfsr.Reg(pid));
      var lsb := pid & 1;
      next := pid >> 1;
      if lsb == 1 {
        next := next ^ Lfsr.TAPS;
      }
    }

    /** The packer that the call names. */
    method CallPacker(p: PackCall) returns (rv: int)
      requires mq.curr + mq.currSz <= mq.mem.Length && CallInRange(p)
      modifies mq.mem
      ensures Wrote(mq.mem, mq.curr, mq.currSz, Packet(p), rv)
    {
      match p {
        case PackConnect(c) => rv := PackConnectionRequest(mq.mem, mq.curr, mq.currSz, c);
        case PackPublish(topic, id, payload, flags) =>
          rv := PackPublishRequest(mq.mem, mq.curr, mq.currSz, topic, id, payload, flags);
        case PackPubxxx(ctype, id) => rv := PackPubxxxRequest(mq.mem, mq.curr, mq.currSz, ctype, id);
        case PackSubscribe(id, subs) => rv := PackSubscribeRequest(mq.mem, mq.curr, mq.currSz, id, subs);
        case PackUnsubscribe(id, topics) => rv := PackUnsubscribeRequest(mq.mem, mq.curr, mq.currSz, id, topics);
        case PackBareHeader(ctype) => rv := PackBare(mq.mem, mq.curr, mq.currSz, ctype);
      }
    }

    /** The packer writes into the room behind the queued packets, and nowhere else. */
    method Pack(p: PackCall) returns (rv: int)
      requires Valid() && CallInRange(p)
      modifies mq.mem
      ensures Valid() && rv == PackResult(Packet(p), mq.currSz)
      ensures rv > 0 ==> rv <= mq.currSz && mq.curr + rv <= mq.mem.Length &&
                         Packet(p).Image? && mq.mem[mq.curr..mq.curr + rv] == Packet(p).image
      ensures mq.mem[mq.curr + mq.currSz..] == old(mq.mem[mq.curr + mq.currSz..])
    {
      mq.RoomFits();
      rv := CallPacker(p);
      assert mq.mem[..mq.curr] == old(mq.mem[..mq.curr]);
      mq.PackingIsSafe();
    }

    method CleanQueue()
      requires Valid()
      modifies this`h, mq, mq.mem, mq.slots
      ensures Valid() && View() == Session.Clean(old(View()))
    {
      mq.Clean();
      h := h.(base := h.base + CompletePrefix(old(mq.msgs)));
    }

    /** Packs, and if there is no room cleans the queue and packs again. */
    method PackOrClean(p: PackCall) returns (tmp: int)
      requires Valid() && CallInRange(p)
      modifies this`h, mq, mq.mem, mq.slots
      ensures Valid()
      ensures match Packet(p)
              case Fails(err) => tmp == err && View() == old(View())
              case Image(image) =>
                if Fits(Cfg(), old(mq.msgs), |image|) then View() == old(View()) && tmp == |image|
                else View() == Session.Clean(old(View())) &&
                     tmp == if Fits(Cfg(), Cleaned(old(mq.msgs)), |image|) then |image| else 0
      ensures tmp > 0 ==> tmp <= mq.currSz && mq.curr + tmp <= mq.mem.Length &&
                          mq.mem[mq.curr..mq.curr + tmp] == Packet(p).image
    {
      PacketSize(p);
      tmp := Pack(p);
      if tmp == 0 {
        CleanQueue();
        tmp := Pack(p);
      }
    }

    /** MQTT_CLIENT_TRY_PACK, and the assignments of type and id that follow it in every caller. */
    method TryPack(p: PackCall, ctype: int, id: uint16, stale: Record) returns (rv: int)
      requires Valid() && CallInRange(p)
      modifies this`error, this`h, mq, mq.mem, mq.slots
      ensures Valid() && (View(), rv) == Stage(Cfg(), old(View()), Packet(p), ctype, id)
    {
      PacketSize(p);
      if error < 0 {
        return error;
      }
      var tmp := PackOrClean(p);
      if tmp < 0 {
        error := tmp;
        return tmp;
      } else if tmp == 0 {
        error := ERROR_SEND_BUFFER_IS_FULL;
        return ERROR_SEND_BUFFER_IS_FULL;
      }
      RegisterAs(tmp, ctype, id, stale);
      return OK;
    }

    /** Registers the packet at `curr` and sets its type and id. */
    method RegisterAs(n: nat, ctype: int, id: uint16, stale: Record)
      requires Valid() && 0 < n <= mq.currSz && mq.curr + n <= mq.mem.Length
      modifies this`h, mq, mq.slots
      ensures Valid() && View() == Enqueue(old(View()), old(mq.mem[mq.curr..mq.curr + n]), ctype, id)
    {
      h := h.(regs := h.regs + [Registered(mq.mem[mq.curr..mq.curr + n], ctype, id, |h.dispatched|)]);
      mq.Register(n, stale);
      mq.SetKind(mq.Count() - 1, ctype, id);
    }

    // ---- The calls of the application ----

    method Connect(c: ConnectRequest, stale: Record) returns (rv: int)
      requires Valid() && ConnectInRange(c)
      modifies this, mq, mq.mem, mq.slots
      ensures Valid() && (View(), rv) == Session.Connect(Cfg(), old(View()), c, stale.id)
    {
      keepAlive := c.keepAlive;
      if error == ERROR_CONNECT_NOT_CALLED {
        error := OK;
      }
      rv := TryPack(PackConnect(c), CONNECT, stale.id, stale);
    }

    method Publish(topic: Option<bytes>, payload: bytes, flags: byte, stale: Record) returns (rv: int)
      requires Valid() && PublishInRange(topic, payload) && |mq.msgs| < Lfsr.PERIOD
      modifies this, mq, mq.mem, mq.slots
      ensures Valid() && (View(), rv) == PublishCall(Cfg(), old(View()), topic, payload, flags)
    {
      var id := NextPid();
      rv := TryPack(PackPublish(topic, id, payload, flags), PUBLISH, id, stale);
    }

    method Subscribe(topic: Option<bytes>, maxQos: int, stale: Record) returns (rv: int)
      requires Valid() && TopicInRange(topic) && |mq.msgs| < Lfsr.PERIOD
      modifies this, mq, mq.mem, mq.slots
      ensures Valid() && (View(), rv) == Session.Subscribe(Cfg(), old(View()), topic, maxQos)
    {
      var id := NextPid();
      rv := TryPack(PackSubscribe(id, Topics(topic, maxQos)), SUBSCRIBE, id, stale);
    }

    method Unsubscribe(topic: Option<bytes>, stale: Record) returns (rv: int)
      requires Valid() && TopicInRange(topic) && |mq.msgs| < Lfsr.PERIOD
      modifies this, mq, mq.mem, mq.slots
      ensures Valid() && (View(), rv) == Session.Unsubscribe(Cfg(), old(View()), topic)
    {
      var id := NextPid();
      rv := TryPack(PackUnsubscribe(id, Topics(topic, 0)), UNSUBSCRIBE, id, stale);
    }

    method Ping(stale: Record) returns (rv: int)
      requires Valid()
      modifies this, mq, mq.mem, mq.slots
      ensures Valid() && (View(), rv) == Session.Ping(Cfg(), old(View()), stale.id)
    {
      rv := TryPack(PackBareHeader(PINGREQ), PINGREQ, stale.id, stale);
    }

    method Disconnect(stale: Record) returns (rv: int)
      requires Valid()
      modifies this, mq, mq.mem, mq.slots
      ensures Valid() && (View(), rv) == Session.Disconnect(Cfg(), old(View()), stale.id)
    {
      rv := TryPack(PackBareHeader(DISCONNECT), DISCONNECT, stale.id, stale);
    }

    // ---- Sending ----

    /** A sent PUBLISH is done with at QoS 0; a retransmission at QoS 1 will carry DUP. */
    method AdvancePublish(i: nat, qos: nat, stamp: int)
      requires Valid() && i < |mq.msgs| && |mq.msgs[i].image| > 0 && mq.msgs[i].ctype == PUBLISH
      requires qos == Qos(mq.msgs[i].image[0])
      modifies mq, mq.mem, mq.slots
      ensures Valid() && mq.msgs == old(mq.msgs)[i := AfterSend(old(mq.msgs)[i], stamp)]
    {
      if qos == 0 {
        mq.MarkComplete(i);
      } else {
        mq.MarkAwaiting(i, stamp);
        if qos == 1 {
          mq.MarkDup(i);
        }
      }
    }

    /** The state that a sent message moves to; false for a type that the client never sends. */
    method Advance(i: nat, stamp: int) returns (ok: bool)
      requires Valid() && i < |mq.msgs| && NoEmptyImages(mq.msgs)
      modifies mq, mq.mem, mq.slots
      ensures Valid() && ok == Sendable(old(mq.msgs)[i].ctype)
      ensures var q := old(mq.msgs); var m := q[i];
              mq.msgs == if ok then q[i := AfterSend(m, stamp)]
                         else q[i := m.(sentAt := if m.state.AwaitingAck? then stamp else m.sentAt)]
    {
      var r := mq.Get(i);
      var first := mq.FirstByte(i);
      mq.Stamp(i, stamp);
      ok := true;
      if r.ctype == PUBACK || r.ctype == PUBCOMP || r.ctype == DISCONNECT {
        mq.MarkComplete(i);
      } else if r.ctype == PUBLISH {
        AdvancePublish(i, Qos(first), stamp);
      } else if r.ctype == CONNECT || r.ctype == PUBREC || r.ctype == PUBREL ||
                r.ctype == SUBSCRIBE || r.ctype == UNSUBSCRIBE || r.ctype == PINGREQ {
        mq.MarkAwaiting(i, stamp);
      } else {
        ok := false;
      }
    }

    /** The decision whether message i is due: never sent, or timed out, and not held back by a QoS 2 PUBLISH in flight. */
    method IsDue(i: nat, inflight: bool, now: int) returns (resend: bool, inflight': bool)
      requires Valid() && i < |mq.msgs| && NoEmptyImages(mq.msgs)
      modifies this`numberOfTimeouts
      ensures var m := mq.msgs[i]; var late := TimedOut(old(View()), m, now);
              && resend == ((m.state.Unsent? || late) && !(LiveQos2(m) && inflight))
              && inflight' == (inflight || LiveQos2(m))
              && numberOfTimeouts == old(numberOfTimeouts) + if late then 1 else 0
    {
      resend, inflight' := false, inflight;
      var r := mq.Get(i);
      if r.state == Unsent {
        resend := true;
      } else if r.state == AwaitingAck {
        if now > r.sentAt + responseTimeout {
          resend := true;
          numberOfTimeouts := numberOfTimeouts + 1;
        }
      }
      var first := mq.FirstByte(i);
      if r.ctype == PUBLISH && (r.state == Unsent || r.state == AwaitingAck) {
        if Qos(first) == 2 {
          if inflight' {
            resend := false;
          }
          inflight' := true;
        }
      }
    }

    /** One turn of the send loop. */
    method SendMessage(i: nat, inflight: bool, e: SendStep) returns (rv: int, inflight': bool)
      requires Valid() && i < |mq.msgs| && NoEmptyImages(mq.msgs)
      modifies this`numberOfTimeouts, this`error, this`h, this`timeOfLastSend, mq, mq.mem, mq.slots
      ensures Valid() && (View(), rv) == SendOne(old(View()), i, inflight, e)
      ensures inflight' == (inflight || LiveQos2(old(mq.msgs)[i]))
    {
      var resend;
      resend, inflight' := IsDue(i, inflight, e.check);
      if !resend {
        return OK, inflight';
      }
      ghost var m := mq.msgs[i];
      if e.outcome.Failed? {
        error := ERROR_SOCKET_ERROR;
        h := h.(partial := m.image[..if e.outcome.sent < |m.image| then e.outcome.sent else |m.image| - 1]);
        return ERROR_SOCKET_ERROR, inflight';
      }
      h := h.(log := h.log + [Tx(h.base + i, m.image)]);
      timeOfLastSend := e.stamp;
      var ok := Advance(i, e.stamp);
      if !ok {
        error := ERROR_MALFORMED_REQUEST;
        return ERROR_MALFORMED_REQUEST, inflight';
      }
      return OK, inflight';
    }

    /** `__mqtt_send`. */
    method Send(env: nat -> SendStep, now: int, stale: Record) returns (rv: int)
      requires Valid()
      modifies this, mq, mq.mem, mq.slots
      ensures NoEmptyImages(old(mq.msgs))
      ensures Valid() && (View(), rv) == Session.Send(Cfg(), old(View()), env, now, stale.id)
    {
      mq.ImagesNotEmpty();
      if error < 0 && error != ERROR_SEND_BUFFER_IS_FULL {
        return error;
      }
      ghost var whole := SendFrom(View(), 0, false, env);
      rv := SendLoop(env);
      if rv != OK {
        return;
      }
      if now > timeOfLastSend + 3 * keepAlive / 4 {
        rv := Ping(stale);
        if rv != OK {
          error := rv;
        }
      }
    }

    /** The loop over all messages in the queue. */
    method SendLoop(env: nat -> SendStep) returns (rv: int)
      requires Valid() && NoEmptyImages(mq.msgs)
      modifies this`numberOfTimeouts, this`error, this`h, this`timeOfLastSend, mq, mq.mem, mq.slots
      ensures Valid() && (View(), rv) == SendFrom(old(View()), 0, false, env)
    {
      var inflightQos2 := false;
      var len := mq.Count();
      rv := OK;
      for i := 0 to len
        invariant Valid() && len == |mq.msgs| && NoEmptyImages(mq.msgs) && rv == OK
        invariant SendFrom(old(View()), 0, false, env) == SendFrom(View(), i, inflightQos2, env)
      {
        rv, inflightQos2 := SendMessage(i, inflightQos2, env(i));
        if rv != OK {
          return;
        }
      }
    }

    // ---- Receiving ----

    /** Releases the message that an acknowledgement refers to. */
    method Acknowledge(ctype: int, id: Option<uint16>) returns (rv: int)
      requires Valid()
      modifies this`error, mq, mq.slots
      ensures Valid() && (View(), rv) == Ack(old(View()), ctype, id)
    {
      var i := mq.Find(ctype, id);
      if i.None? {
        error := ERROR_ACK_OF_UNKNOWN;
        return ERROR_ACK_OF_UNKNOWN;
      }
      mq.MarkComplete(i.value);
      return OK;
    }

    /** `__mqtt_puback`, `__mqtt_pubrec`, `__mqtt_pubrel` and `__mqtt_pubcomp`, with the error check behind each call. */
    method StageReply(ctype: nat, id: uint16, stale: Record) returns (rv: int)
      requires Valid() && IsPubxxx(ctype)
      modifies this`error, this`h, mq, mq.mem, mq.slots
      ensures Valid() && (View(), rv) == Reply(Cfg(), old(View()), ctype, id)
    {
      rv := TryPack(PackPubxxx(ctype, id), ctype, id, stale);
      if rv != OK {
        error := rv;
      }
    }

    /** The publish callback is the event `Delivered`. */
    method HandlePublish(r: Response, stale: Record) returns (rv: int)
      requires Valid() && r.Publish?
      modifies this`error, this`h, mq, mq.mem, mq.slots
      ensures Valid() && (View(), rv) == OnPublish(Cfg(), old(View()), r)
    {
      rv := OK;
      if r.qos == 1 {
        rv := StageReply(PUBACK, r.id, stale);
      } else if r.qos == 2 {
        var dup := mq.Find(PUBREC, Some(r.id));
        if dup.Some? {
          return OK;
        }
        rv := StageReply(PUBREC, r.id, stale);
      }
      if rv == OK {
        h := h.(events := h.events + [Delivered(r)]);
      }
    }

    method HandlePubrec(id: uint16, stale: Record) returns (rv: int)
      requires Valid()
      modifies this`error, this`h, mq, mq.mem, mq.slots
      ensures Valid() && (View(), rv) == OnPubrec(Cfg(), old(View()), id)
    {
      var dup := mq.Find(PUBREL, Some(id));
      if dup.Some? {
        return OK;
      }
      rv := Acknowledge(PUBLISH, Some(id));
      if rv == OK {
        rv := StageReply(PUBREL, id, stale);
      }
    }

    method HandlePubrel(id: uint16, stale: Record) returns (rv: int)
      requires Valid()
      modifies this`error, this`h, mq, mq.mem, mq.slots
      ensures Valid() && (View(), rv) == OnPubrel(Cfg(), old(View()), id)
    {
      rv := Acknowledge(PUBREC, Some(id));
      if rv == OK {
        h := h.(events := h.events + [Released(id)]);
        rv := StageReply(PUBCOMP, id, stale);
      }
    }

    /** The switch over the type of a received packet. */
    method HandleResponse(r: Response, stale: Record) returns (rv: int)
      requires Valid()
      modifies this`error, this`h, mq, mq.mem, mq.slots
      ensures Valid() && (View(), rv) == Handle(Cfg(), old(View()), r)
    {
      rv := OK;
      match r {
        case Connack(_, code) =>
          rv := Acknowledge(CONNECT, None);
          if rv == OK && code != 0 {
            error := if code == 2 then ERROR_CONNECT_CLIENT_ID_REFUSED else ERROR_CONNECTION_REFUSED;
            rv := error;
          }
        case Publish(_, _, _, _, _, _) => rv := HandlePublish(r, stale);
        case Puback(id) => rv := Acknowledge(PUBLISH, Some(id));
        case Pubrec(id) => rv := HandlePubrec(id, stale);
        case Pubrel(id) => rv := HandlePubrel(id, stale);
        case Pubcomp(id) => rv := Acknowledge(PUBREL, Some(id));
        case Suback(id, codes) =>
          rv := Acknowledge(SUBSCRIBE, Some(id));
          if rv == OK && |codes| > 0 && codes[0] == SUBACK_FAILURE {
            error := ERROR_SUBSCRIBE_FAILED;
            rv := ERROR_SUBSCRIBE_FAILED;
          }
        case Unsuback(id) => rv := Acknowledge(UNSUBSCRIBE, Some(id));
        case Pingresp => rv := Acknowledge(PINGREQ, None);
      }
    }

    /** `mqtt_pal_recvall`: as many bytes as have arrived and fit. */
    method ReadSocket()
      requires Valid()
      modifies this`recvCurr, this`recvCurrSz, this`pending, recvBuf
      ensures Valid() && View() == ReadIn(Cfg(), old(View()))
    {
      var n := if |pending| <= recvCurrSz then |pending| else recvCurrSz;
      forall k | 0 <= k < n {
        recvBuf[recvCurr + k] := pending[k];
      }
      assert recvBuf[..recvCurr + n] == old(recvBuf[..recvCurr]) + pending[..n];
      recvCurr, recvCurrSz := recvCurr + n, recvCurrSz - n;
      pending := pending[n..];
    }

    /** The bytes of a handled packet leave the buffer; the rest moves to its front. */
    method CleanBuffer(consumed: nat)
      requires Valid() && consumed <= recvCurr
      modifies this`recvCurr, this`recvCurrSz, recvBuf
      ensures Valid() && View() == Consume(old(View()), consumed)
    {
      MoveBytes(recvBuf, 0, consumed, recvCurr - consumed);
      assert recvBuf[..recvCurr - consumed] == old(recvBuf[..recvCurr])[consumed..];
      recvCurr, recvCurrSz := recvCurr - consumed, recvCurrSz + consumed;
    }

    /** Bytes arrive and are read in. */
    method Take(data: bytes)
      requires Valid()
      modifies this`pending, this`h, this`recvCurr, this`recvCurrSz, recvBuf
      ensures Valid() && View() == ReadIn(Cfg(), Arriving(old(View()), data))
    {
      pending := pending + data;
      h := h.(arrived := h.arrived + data);
      assert View() == Arriving(old(View()), data);
      ReadSocket();
    }

    /** A packet is handled and leaves the buffer, also when handling it fails. */
    method Digest(r: Response, consumed: nat, stale: Record) returns (rv: int)
      requires Valid() && consumed <= recvCurr
      modifies this, mq, mq.mem, mq.slots, recvBuf
      ensures var s := Dispatch(Cfg(), old(View()), r);
              Valid() && s.0.inbox == old(View()).inbox && View() == Consume(s.0, consumed) && rv == s.1
    {
      h := h.(dispatched := h.dispatched + [r], marks := h.marks + [|h.log|]);
      HandleKeepsInput(Cfg(), View(), r);
      rv := HandleResponse(r, stale);
      CleanBuffer(consumed);
    }

    /** One turn of the receive loop: read, parse, handle, clean up. */
    method RecvTurn(e: Read, stale: Record) returns (again: bool, rv: int)
      requires Valid()
      modifies this, mq, mq.mem, mq.slots, recvBuf
      ensures Valid()
      ensures RecvOne(Cfg(), old(View()), e) == if again then Again(View()) else Stop(View(), rv)
      ensures again ==> rv == OK
    {
      again := false;
      if e.ReadFails? {
        error := ERROR_SOCKET_ERROR;
        return false, ERROR_SOCKET_ERROR;
      }
      Take(e.data);
      var parse := UnpackResponse(recvBuf, recvCurr);
      match parse {
        case Bad(err) =>
          error := err;
          rv := err;
        case Overrun =>
          error := UNDEFINED;
          rv := UNDEFINED;
        case More =>
          rv := OK;
          if recvCurrSz == 0 {
            error := ERROR_RECV_BUFFER_TOO_SMALL;
            rv := ERROR_RECV_BUFFER_TOO_SMALL;
          }
        case Got(r, consumed) =>
          rv := Digest(r, consumed, stale);
          again := rv == OK;
      }
    }

    /** `__mqtt_recv`. */
    method Recv(input: seq<Read>, stale: Record) returns (rv: int)
      requires Valid()
      modifies this, mq, mq.mem, mq.slots, recvBuf
      ensures Valid() && (View(), rv) == Session.Recv(Cfg(), old(View()), input)
    {
      var rest := input;
      var again := true;
      rv := OK;
      while again
        invariant Valid()
        invariant Session.Recv(Cfg(), old(View()), input) ==
                  if again then Session.Recv(Cfg(), View(), rest) else (View(), rv)
        decreases again, |rest|, recvCurr + |pending|
      {
        var e := if rest == [] then Arrive([]) else rest[0];
        again, rv := RecvTurn(e, stale);
        rest := if rest == [] then [] else rest[1..];
      }
    }

    /** `mqtt_sync` without its callbacks: receive, then send. */
    method Sync(input: seq<Read>, env: nat -> SendStep, now: int, stale: Record) returns (rv: int)
      requires Valid()
      modifies this, mq, mq.mem, mq.slots, recvBuf
      ensures Valid()
      ensures var (s, err) := Session.Recv(Cfg(), old(View()), input);
              if err != OK then (View(), rv) == (s, err)
              else NoEmptyImages(s.queue) && (View(), rv) == Session.Send(Cfg(), s, env, now, stale.id)
    {
      rv := Recv(input, stale);
      if rv != OK {
        return;
      }
      rv := Send(env, now, stale);
    }
  }
}
