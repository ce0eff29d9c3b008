/**
 The client as a state and the calls that change it: what every method of `Client` computes, and a
 history of what was registered, sent, received and delivered, kept for the proofs about whole runs.
 */
module Session {
  import opened Options
  import opened MqttTypes
  import opened Wire
  import opened FixedHeader
  import opened Packets
  import opened Responses
  import opened QueueSpec
  import Lfsr

  /** Sizes of the send buffer, of one record, and of the receive buffer. */
  datatype Config = Config(memSize: nat, recordSize: nat, recvSize: nat)

  /**
   A message as it was registered, and how many packets had been handled by then; its index in the history
   is its number for good.
   */
  datatype Registered = Registered(image: bytes, ctype: int, id: uint16, heard: nat)

  /** A packet handed whole to the network: the number of the message and the bytes sent. */
  datatype Tx = Tx(uid: nat, image: bytes)

  /** What the application can tell: a PUBLISH passed to its callback, or a PUBREL accepted. */
  datatype Event = Delivered(publish: Response) | Released(id: uint16)

  datatype History = History(
    base: nat,                   // messages that have left the queue
    regs: seq<Registered>,       // every message registered so far
    log: seq<Tx>,                // every packet sent whole so far
    partial: bytes,              // the part of a packet that a failed send left on the wire
    arrived: bytes,              // every byte received so far
    dispatched: seq<Response>,   // every packet handled so far
    marks: seq<nat>,             // for each of them, how many packets had been sent by then
    events: seq<Event>)

  datatype State = State(
    queue: seq<Msg>,
    error: int,
    pid: bv16,
    keepAlive: uint16,
    responseTimeout: int,
    lastSend: int,
    timeouts: nat,
    inbox: bytes,                // the receive buffer
    pending: bytes,              // received by the socket, not yet read
    h: History)

  /** A client just initialised; no connection has been asked for. */
  function Initial(staleTime: int): State {
    State([], ERROR_CONNECT_NOT_CALLED, 0, 0, 30, staleTime, 0, [], [], History(0, [], [], [], [], [], [], []))
  }

  // ---- Packet ids ----

  function Id(r: Lfsr.Reg): uint16 {
    r.bits as int
  }

  predicate Taken(q: seq<Msg>, id: uint16) {
    exists i :: 0 <= i < |q| && q[i].id == id
  }

  /** The first state after r that no message carries, looking at most `budget` + 1 steps ahead. */
  function Search(r: Lfsr.Reg, q: seq<Msg>, budget: nat): Lfsr.Reg
    decreases budget
  {
    var next := Lfsr.Step(r);
    if budget == 0 || !Taken(q, Id(next)) then next else Search(next, q, budget - 1)
  }

  function Seeded(pid: bv16): Lfsr.Reg {
    Lfsr.Reg(if pid == 0 then Lfsr.SEED else pid)
  }

  function NextPid(s: State): Lfsr.Reg {
    Search(Seeded(s.pid), s.queue, |s.queue|)
  }

  // ---- Staging a packet: MQTT_CLIENT_TRY_PACK ----

  predicate Fits(cfg: Config, q: seq<Msg>, n: nat) {
    n <= Room(cfg.memSize, cfg.recordSize, q)
  }

  function Enqueue(s: State, image: bytes, ctype: int, id: uint16): State {
    s.(queue := s.queue + [Msg(image, Unsent, ctype, id, 0)],
       h := s.h.(regs := s.h.regs + [Registered(image, ctype, id, |s.h.dispatched|)]))
  }

  function Clean(s: State): State {
    s.(queue := Cleaned(s.queue), h := s.h.(base := s.h.base + CompletePrefix(s.queue)))
  }

  function Stage(cfg: Config, s: State, p: Packed, ctype: int, id: uint16): (State, int) {
    if s.error < 0 then (s, s.error)
    else
      match p
      case Fails(err) => (s.(error := err), err)
      case Image(image) =>
        if Fits(cfg, s.queue, |image|) then (Enqueue(s, image, ctype, id), OK)
        else
          var c := Clean(s);
          if Fits(cfg, c.queue, |image|) then (Enqueue(c, image, ctype, id), OK)
          else (c.(error := ERROR_SEND_BUFFER_IS_FULL), ERROR_SEND_BUFFER_IS_FULL)
  }

  // ---- The calls of the application ----

  function Topics(topic: Option<bytes>, maxQos: int): seq<Subscription> {
    if topic.None? then [] else [Subscription(topic.value, maxQos % 256)]
  }

  /** A record keeps whatever id its memory held when the packet has none; that is `stale`. */
  function Connect(cfg: Config, s: State, c: ConnectRequest, stale: uint16): (State, int)
    requires ConnectInRange(c)
  {
    var s1 := s.(keepAlive := c.keepAlive, error := if s.error == ERROR_CONNECT_NOT_CALLED then OK else s.error);
    Stage(cfg, s1, ConnectImage(c), CONNECT, stale)
  }

  function PublishCall(cfg: Config, s: State, topic: Option<bytes>, payload: bytes, flags: byte): (State, int)
    requires PublishInRange(topic, payload)
  {
    var r := NextPid(s);
    Stage(cfg, s.(pid := r.bits), PublishImage(topic, Id(r), payload, flags), PUBLISH, Id(r))
  }

  predicate TopicInRange(topic: Option<bytes>) {
    ShortOption(topic)
  }

  function Subscribe(cfg: Config, s: State, topic: Option<bytes>, maxQos: int): (State, int)
    requires TopicInRange(topic)
  {
    var r := NextPid(s);
    Stage(cfg, s.(pid := r.bits), SubscribeImage(Id(r), Topics(topic, maxQos)), SUBSCRIBE, Id(r))
  }

  function Unsubscribe(cfg: Config, s: State, topic: Option<bytes>): (State, int)
    requires TopicInRange(topic)
  {
    var r := NextPid(s);
    Stage(cfg, s.(pid := r.bits), UnsubscribeImage(Id(r), Topics(topic, 0)), UNSUBSCRIBE, Id(r))
  }

  function Ping(cfg: Config, s: State, stale: uint16): (State, int) {
    Stage(cfg, s, BareImage(PINGREQ), PINGREQ, stale)
  }

  function Disconnect(cfg: Config, s: State, stale: uint16): (State, int) {
    Stage(cfg, s, BareImage(DISCONNECT), DISCONNECT, stale)
  }

  // ---- Sending ----

  /** What the network does with a packet: it takes it whole, or fails after at most `sent` bytes. */
  datatype Outcome = Whole | Failed(sent: nat)

  /** The clock when the timeout is checked, the fate of the packet, the clock when it has been sent. */
  datatype SendStep = SendStep(check: int, outcome: Outcome, stamp: int)

  predicate IsQos2(m: Msg) {
    m.ctype == PUBLISH && |m.image| > 0 && Qos(m.image[0]) == 2
  }

  predicate LiveQos2(m: Msg) {
    IsQos2(m) && !m.state.Complete?
  }

  predicate TimedOut(s: State, m: Msg, now: int) {
    m.state.AwaitingAck? && now > m.sentAt + s.responseTimeout
  }

  predicate Sendable(ctype: int) {
    ctype in {CONNECT, PUBLISH, PUBACK, PUBREC, PUBREL, PUBCOMP, SUBSCRIBE, UNSUBSCRIBE, PINGREQ, DISCONNECT}
  }

  /** Packets that nobody acknowledges. */
  predicate FireAndForget(ctype: int, image: bytes)
    requires |image| > 0
  {
    ctype == PUBACK || ctype == PUBCOMP || ctype == DISCONNECT || (ctype == PUBLISH && Qos(image[0]) == 0)
  }

  function AfterSend(m: Msg, stamp: int): Msg
    requires |m.image| > 0
  {
    if FireAndForget(m.ctype, m.image) then m.(state := Complete, sentAt := 0)
    else if m.ctype == PUBLISH && Qos(m.image[0]) == 1 then
      m.(image := WithDup(m.image), state := AwaitingAck, sentAt := stamp)
    else m.(state := AwaitingAck, sentAt := stamp)
  }

  /** Message i goes out whole. */
  function Transmit(s: State, i: nat, stamp: int): State
    requires i < |s.queue| && |s.queue[i].image| > 0
  {
    s.(queue := s.queue[i := AfterSend(s.queue[i], stamp)], lastSend := stamp,
       h := s.h.(log := s.h.log + [Tx(s.h.base + i, s.queue[i].image)]))
  }

  function FailSend(s: State, i: nat, sent: nat): State
    requires i < |s.queue| && |s.queue[i].image| > 0
  {
    var image := s.queue[i].image;
    s.(error := ERROR_SOCKET_ERROR, h := s.h.(partial := image[..if sent < |image| then sent else |image| - 1]))
  }

  predicate NoEmptyImages(q: seq<Msg>) {
    forall i :: 0 <= i < |q| ==> |q[i].image| > 0
  }

  /** One turn of the loop over the queue: the new state, and an error that ends the loop. */
  function SendOne(s: State, i: nat, inflight: bool, e: SendStep): (r: (State, int))
    requires i < |s.queue| && NoEmptyImages(s.queue)
    ensures |r.0.queue| == |s.queue| && NoEmptyImages(r.0.queue)
  {
    var m := s.queue[i];
    var late := TimedOut(s, m, e.check);
    var s1 := if late then s.(timeouts := s.timeouts + 1) else s;
    if !(m.state.Unsent? || late) || (LiveQos2(m) && inflight) then (s1, OK)
    else
      match e.outcome
      case Failed(sent) => (FailSend(s1, i, sent), ERROR_SOCKET_ERROR)
      case Whole =>
        if !Sendable(m.ctype) then
          (s1.(queue := s.queue[i := m.(sentAt := if m.state.AwaitingAck? then e.stamp else m.sentAt)], lastSend := e.stamp,
               error := ERROR_MALFORMED_REQUEST, h := s.h.(log := s.h.log + [Tx(s.h.base + i, m.image)])),
           ERROR_MALFORMED_REQUEST)
        else (Transmit(s1, i, e.stamp), OK)
  }

  function SendFrom(s: State, i: nat, inflight: bool, env: nat -> SendStep): (r: (State, int))
    requires i <= |s.queue| && NoEmptyImages(s.queue)
    decreases |s.queue| - i
  {
    if i == |s.queue| then (s, OK)
    else
      var (s1, rv) := SendOne(s, i, inflight, env(i));
      if rv != OK then (s1, rv) else SendFrom(s1, i + 1, inflight || LiveQos2(s.queue[i]), env)
  }

  /** `__mqtt_send`; `now` is the clock at the keep-alive check, whose threshold is three quarters of the interval. */
  function Send(cfg: Config, s: State, env: nat -> SendStep, now: int, stale: uint16): (State, int)
    requires NoEmptyImages(s.queue)
  {
    if s.error < 0 && s.error != ERROR_SEND_BUFFER_IS_FULL then (s, s.error)
    else
      var (s1, rv) := SendFrom(s, 0, false, env);
      if rv != OK then (s1, rv)
      else if now > s1.lastSend + 3 * s1.keepAlive / 4 then
        var (s2, rv2) := Ping(cfg, s1, stale);
        if rv2 != OK then (s2.(error := rv2), rv2) else (s2, OK)
      else (s1, OK)
  }

  // ---- Receiving ----

  function Release(s: State, i: nat): State
    requires i < |s.queue|
  {
    s.(queue := SetComplete(s.queue, i))
  }

  function Unknown(s: State): (State, int) {
    (s.(error := ERROR_ACK_OF_UNKNOWN), ERROR_ACK_OF_UNKNOWN)
  }

  /** Completes the message that an acknowledgement refers to. */
  function Ack(s: State, ctype: int, id: Option<uint16>): (State, int) {
    match Find(s.queue, ctype, id)
    case None => Unknown(s)
    case Some(i) => (Release(s, i), OK)
  }

  function Failing(s: State, err: int): (State, int) {
    (s.(error := err), err)
  }

  function Emit(s: State, e: Event): State {
    s.(h := s.h.(events := s.h.events + [e]))
  }

  function Reply(cfg: Config, s: State, ctype: nat, id: uint16): (State, int)
    requires IsPubxxx(ctype)
  {
    var (s1, rv) := Stage(cfg, s, PubxxxImage(ctype, id), ctype, id);
    if rv != OK then Failing(s1, rv) else (s1, OK)
  }

  function OnConnack(s: State, code: nat): (State, int) {
    var (s1, rv) := Ack(s, CONNECT, None);
    if rv != OK then (s1, rv)
    else if code == 0 then (s1, OK)
    else Failing(s1, if code == 2 then ERROR_CONNECT_CLIENT_ID_REFUSED else ERROR_CONNECTION_REFUSED)
  }

  function OnPublish(cfg: Config, s: State, r: Response): (State, int)
    requires r.Publish?
  {
    if r.qos == 1 then
      var (s1, rv) := Reply(cfg, s, PUBACK, r.id);
      if rv != OK then (s1, rv) else (Emit(s1, Delivered(r)), OK)
    else if r.qos == 2 then
      if Find(s.queue, PUBREC, Some(r.id)).Some? then (s, OK)
      else
        var (s1, rv) := Reply(cfg, s, PUBREC, r.id);
        if rv != OK then (s1, rv) else (Emit(s1, Delivered(r)), OK)
    else (Emit(s, Delivered(r)), OK)
  }

  function OnPubrec(cfg: Config, s: State, id: uint16): (State, int) {
    if Find(s.queue, PUBREL, Some(id)).Some? then (s, OK)
    else
      var (s1, rv) := Ack(s, PUBLISH, Some(id));
      if rv != OK then (s1, rv) else Reply(cfg, s1, PUBREL, id)
  }

  function OnPubrel(cfg: Config, s: State, id: uint16): (State, int) {
    var (s1, rv) := Ack(s, PUBREC, Some(id));
    if rv != OK then (s1, rv) else Reply(cfg, Emit(s1, Released(id)), PUBCOMP, id)
  }

  const SUBACK_FAILURE := 128

  function OnSuback(s: State, id: uint16, codes: bytes): (State, int) {
    var (s1, rv) := Ack(s, SUBSCRIBE, Some(id));
    if rv != OK then (s1, rv)
    else if |codes| > 0 && codes[0] == SUBACK_FAILURE then Failing(s1, ERROR_SUBSCRIBE_FAILED)
    else (s1, OK)
  }

  /** The switch over the type of a received packet. */
  function Handle(cfg: Config, s: State, r: Response): (State, int) {
    match r
    case Connack(_, code) => OnConnack(s, code)
    case Publish(_, _, _, _, _, _) => OnPublish(cfg, s, r)
    case Puback(id) => Ack(s, PUBLISH, Some(id))
    case Pubrec(id) => OnPubrec(cfg, s, id)
    case Pubrel(id) => OnPubrel(cfg, s, id)
    case Pubcomp(id) => Ack(s, PUBREL, Some(id))
    case Suback(id, codes) => OnSuback(s, id, codes)
    case Unsuback(id) => Ack(s, UNSUBSCRIBE, Some(id))
    case Pingresp => Ack(s, PINGREQ, None)
  }

  /** The packet enters the history. */
  function Note(s: State, r: Response): State {
    s.(h := s.h.(dispatched := s.h.dispatched + [r], marks := s.h.marks + [|s.h.log|]))
  }

  function Dispatch(cfg: Config, s: State, r: Response): (State, int) {
    Handle(cfg, Note(s, r), r)
  }

  /** What happens at the socket before a read: more bytes have arrived, or the read fails. */
  datatype Read = Arrive(data: bytes) | ReadFails

  function Arriving(s: State, data: bytes): State {
    s.(pending := s.pending + data, h := s.h.(arrived := s.h.arrived + data))
  }

  /** As many bytes as the receive buffer has room for. */
  function ReadIn(cfg: Config, s: State): (r: State)
    requires |s.inbox| <= cfg.recvSize
    ensures |r.inbox| <= cfg.recvSize && |r.inbox| + |r.pending| == |s.inbox| + |s.pending|
  {
    var n := if |s.pending| <= cfg.recvSize - |s.inbox| then |s.pending| else cfg.recvSize - |s.inbox|;
    s.(inbox := s.inbox + s.pending[..n], pending := s.pending[n..])
  }

  /** Reading loses and reorders nothing, and stops only at a full buffer or an empty socket. */
  lemma ReadInKeepsStream(cfg: Config, s: State)
    requires |s.inbox| <= cfg.recvSize
    ensures ReadIn(cfg, s).inbox + ReadIn(cfg, s).pending == s.inbox + s.pending
    ensures |ReadIn(cfg, s).inbox| == cfg.recvSize || ReadIn(cfg, s).pending == []
  {
  }

  /** A packet outside the format has no defined effect; the model stops with an error of its own. */
  const UNDEFINED := ERROR_UNKNOWN

  function Consume(s: State, n: nat): State
    requires n <= |s.inbox|
  {
    s.(inbox := s.inbox[n..])
  }

  /** The part of the state that only receiving changes. */
  predicate SameInput(s: State, t: State) {
    && s.inbox == t.inbox && s.pending == t.pending && s.h.arrived == t.h.arrived
    && s.h.dispatched == t.h.dispatched && s.h.marks == t.h.marks
  }

  lemma ReplyKeepsInput(cfg: Config, s: State, ctype: nat, id: uint16)
    requires IsPubxxx(ctype)
    ensures SameInput(s, Reply(cfg, s, ctype, id).0)
  {
  }

  lemma AckKeepsInput(s: State, ctype: int, id: Option<uint16>)
    ensures SameInput(s, Ack(s, ctype, id).0)
  {
  }

  lemma HandleKeepsInput(cfg: Config, s: State, r: Response)
    ensures SameInput(s, Handle(cfg, s, r).0)
  {
    match r
    case Publish(_, qos, _, _, id, _) =>
      if qos == 1 {
        ReplyKeepsInput(cfg, s, PUBACK, id);
      } else if qos == 2 {
        ReplyKeepsInput(cfg, s, PUBREC, id);
      }
    case Pubrec(id) =>
      AckKeepsInput(s, PUBLISH, Some(id));
      ReplyKeepsInput(cfg, Ack(s, PUBLISH, Some(id)).0, PUBREL, id);
    case Pubrel(id) =>
      AckKeepsInput(s, PUBREC, Some(id));
      ReplyKeepsInput(cfg, Emit(Ack(s, PUBREC, Some(id)).0, Released(id)), PUBCOMP, id);
    case Connack(_, _) => AckKeepsInput(s, CONNECT, None);
    case Puback(id) => AckKeepsInput(s, PUBLISH, Some(id));
    case Pubcomp(id) => AckKeepsInput(s, PUBREL, Some(id));
    case Suback(id, _) => AckKeepsInput(s, SUBSCRIBE, Some(id));
    case Unsuback(id) => AckKeepsInput(s, UNSUBSCRIBE, Some(id));
    case Pingresp => AckKeepsInput(s, PINGREQ, None);
  }

  /** How a turn of the receive loop ends: the call returns, or another turn follows. */
  datatype Turn = Stop(s: State, rv: int) | Again(s: State)

  function RecvOne(cfg: Config, s: State, e: Read): (t: Turn)
    requires |s.inbox| <= cfg.recvSize
    ensures t.Again? ==> |t.s.inbox| <= cfg.recvSize
    ensures t.Again? && e.Arrive? ==> |t.s.inbox| + |t.s.pending| < |s.inbox| + |s.pending| + |e.data|
  {
    if e.ReadFails? then Stop(s.(error := ERROR_SOCKET_ERROR), ERROR_SOCKET_ERROR)
    else
      var s1 := ReadIn(cfg, Arriving(s, e.data));
      match Unpack(s1.inbox)
      case Bad(err) => Stop(s1.(error := err), err)
      case Overrun => Stop(s1.(error := UNDEFINED), UNDEFINED)
      case More =>
        if |s1.inbox| == cfg.recvSize then Stop(s1.(error := ERROR_RECV_BUFFER_TOO_SMALL), ERROR_RECV_BUFFER_TOO_SMALL)
        else Stop(s1, OK)
      case Got(r, n) =>
        var (s2, rv) := Dispatch(cfg, s1, r);
        HandleKeepsInput(cfg, Note(s1, r), r);
        if rv == OK then Again(Consume(s2, n)) else Stop(Consume(s2, n), rv)
  }

  /** `__mqtt_recv`: one event at the socket for each turn of the loop, then silence. */
  function Recv(cfg: Config, s: State, input: seq<Read>): (State, int)
    requires |s.inbox| <= cfg.recvSize
    decreases |input|, |s.inbox| + |s.pending|
  {
    match RecvOne(cfg, s, if input == [] then Arrive([]) else input[0])
    case Stop(s1, rv) => (s1, rv)
    case Again(s1) => Recv(cfg, s1, if input == [] then [] else input[1..])
  }
}
