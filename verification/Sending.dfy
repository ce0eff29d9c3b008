/**
 What one send does, in closed form: which messages are due, what goes out of them and in which order, in what
 state they are left, and when a ping follows. `SendExactly` says that the loop over the queue does this.
 */
module Sending {
  import opened Options
  import opened MqttTypes
  import opened Packets
  import opened QueueSpec
  import opened Session
  import opened Staging

  /** A QoS 2 PUBLISH that is not COMPLETE. */
  predicate Holds2(m: Msg) {
    m.ctype == PUBLISH && |m.image| > 0 && m.image[0] / 2 % 4 == 2 && m.state != Complete
  }

  /** The acknowledgement of message i has not come in time. */
  predicate Late(s: State, env: nat -> SendStep, i: nat)
    requires i < |s.queue|
  {
    s.queue[i].state == AwaitingAck && env(i).check > s.queue[i].sentAt + s.responseTimeout
  }

  /** Message i is a QoS 2 PUBLISH behind another that is not COMPLETE. */
  predicate HeldBack(q: seq<Msg>, i: nat)
    requires i < |q|
  {
    Holds2(q[i]) && exists j :: 0 <= j < i && Holds2(q[j])
  }

  /** Never sent, or sent and late; and not held back. */
  predicate Due(s: State, env: nat -> SendStep, i: nat)
    requires i < |s.queue|
  {
    (s.queue[i].state == Unsent || Late(s, env, i)) && !HeldBack(s.queue, i)
  }

  /** The first due message that the network does not take, or the number of messages. */
  function Fault(s: State, env: nat -> SendStep, i: nat): (k: nat)
    requires i <= |s.queue|
    ensures i <= k <= |s.queue| && (k < |s.queue| ==> Due(s, env, k) && env(k).outcome.Failed?)
    ensures forall j :: i <= j < k ==> Due(s, env, j) ==> env(j).outcome.Whole?
    decreases |s.queue| - i
  {
    if i == |s.queue| || (Due(s, env, i) && env(i).outcome.Failed?) then i else Fault(s, env, i + 1)
  }

  /** The due ones among the first n messages, with the bytes they have in the queue. */
  function Burst(s: State, env: nat -> SendStep, n: nat): seq<Tx>
    requires n <= |s.queue|
  {
    if n == 0 then []
    else Burst(s, env, n - 1) + if Due(s, env, n - 1) then [Tx(s.h.base + n - 1, s.queue[n - 1].image)] else []
  }

  function Lates(s: State, env: nat -> SendStep, n: nat): nat
    requires n <= |s.queue|
  {
    if n == 0 then 0 else Lates(s, env, n - 1) + if Late(s, env, n - 1) then 1 else 0
  }

  /** When the last of the due ones among the first n messages went out. */
  function LastSend(s: State, env: nat -> SendStep, n: nat): int
    requires n <= |s.queue|
  {
    if n == 0 then s.lastSend else if Due(s, env, n - 1) then env(n - 1).stamp else LastSend(s, env, n - 1)
  }

  /** A message after it has gone out: done with, or awaiting its acknowledgement, at QoS 1 with DUP set. */
  function LeftAs(m: Msg, stamp: int): Msg
    requires |m.image| > 0
  {
    var qos := m.image[0] / 2 % 4;
    if m.ctype in {PUBACK, PUBCOMP, DISCONNECT} || (m.ctype == PUBLISH && qos == 0) then
      Msg(m.image, Complete, m.ctype, m.id, 0)
    else
      var first: byte := if m.ctype == PUBLISH && qos == 1 then m.image[0] / 16 * 16 + 8 + m.image[0] % 8 else m.image[0];
      Msg(m.image[0 := first], AwaitingAck, m.ctype, m.id, stamp)
  }

  function LeftAt(s: State, env: nat -> SendStep, n: nat, i: nat): Msg
    requires i < |s.queue| && NoEmptyImages(s.queue)
  {
    if i < n && Due(s, env, i) then LeftAs(s.queue[i], env(i).stamp) else s.queue[i]
  }

  /** The state when the loop has passed the first n messages. */
  function Passing(s: State, env: nat -> SendStep, n: nat): State
    requires n <= |s.queue| && NoEmptyImages(s.queue)
  {
    s.(queue := seq(|s.queue|, i requires 0 <= i < |s.queue| => LeftAt(s, env, n, i)),
       lastSend := LastSend(s, env, n), timeouts := s.timeouts + Lates(s, env, n),
       h := s.h.(log := s.h.log + Burst(s, env, n)))
  }

  /** The part of a packet that is on the wire when sending it fails: never all of it. */
  function Part(image: bytes, sent: nat): bytes
    requires |image| > 0
  {
    image[..if sent < |image| then sent else |image| - 1]
  }

  /** The end of the loop: the network fails at message k, or all have been passed. */
  function Ended(s: State, env: nat -> SendStep, k: nat): (State, int)
    requires k <= |s.queue| && NoEmptyImages(s.queue) && (k < |s.queue| ==> env(k).outcome.Failed?)
  {
    var p := Passing(s, env, k);
    if k == |s.queue| then (p, OK)
    else
      (p.(timeouts := s.timeouts + Lates(s, env, k + 1), error := ERROR_SOCKET_ERROR,
          h := p.h.(partial := Part(s.queue[k].image, env(k).outcome.sent))),
       ERROR_SOCKET_ERROR)
  }

  predicate AllSendable(q: seq<Msg>) {
    forall i :: 0 <= i < |q| ==> Sendable(q[i].ctype)
  }

  /** What `Inflight2` says of the first n messages is what the loop carries along. */
  predicate Inflight2(q: seq<Msg>, n: nat) {
    exists j :: 0 <= j < n && j < |q| && Holds2(q[j])
  }

  lemma LeftIsAfter(m: Msg, stamp: int)
    requires |m.image| > 0
    ensures AfterSend(m, stamp) == LeftAs(m, stamp)
  {
    var b := m.image[0];
    if b / 8 % 2 == 1 {
      assert b == b / 16 * 16 + 8 + b % 8;
    } else {
      assert b == b / 16 * 16 + b % 8;
    }
    assert m.image[0 := b] == m.image;
  }

  lemma HoldsIsLive(m: Msg)
    ensures Holds2(m) <==> LiveQos2(m)
  {
  }

  lemma PassingNothing(s: State, env: nat -> SendStep)
    requires NoEmptyImages(s.queue)
    ensures Passing(s, env, 0) == s
  {
    assert seq(|s.queue|, i requires 0 <= i < |s.queue| => LeftAt(s, env, 0, i)) == s.queue;
    assert s.h.log + [] == s.h.log;
  }

  /** One turn, from the state that the turns before have left. */
  lemma PassesOne(s: State, env: nat -> SendStep, i: nat)
    requires i < |s.queue| && NoEmptyImages(s.queue) && AllSendable(s.queue)
    ensures NoEmptyImages(Passing(s, env, i).queue)
    ensures var p := Passing(s, env, i);
            SendOne(p, i, Inflight2(s.queue, i), env(i)) ==
            if Due(s, env, i) && env(i).outcome.Failed? then Ended(s, env, i) else (Passing(s, env, i + 1), OK)
  {
    var p, m := Passing(s, env, i), s.queue[i];
    assert p.queue[i] == m;
    HoldsIsLive(m);
    LeftIsAfter(m, env(i).stamp);
    assert HeldBack(s.queue, i) <==> Holds2(m) && Inflight2(s.queue, i);
    assert Passing(s, env, i + 1).queue == if Due(s, env, i) then p.queue[i := LeftAs(m, env(i).stamp)] else p.queue;
    assert s.h.log + (Burst(s, env, i) + [Tx(s.h.base + i, m.image)]) == s.h.log + Burst(s, env, i) + [Tx(s.h.base + i, m.image)];
    assert Burst(s, env, i) + [] == Burst(s, env, i);
  }

  lemma InflightStep(s: State, env: nat -> SendStep, i: nat)
    requires i < |s.queue| && NoEmptyImages(s.queue)
    ensures Inflight2(s.queue, i + 1) <==> Inflight2(s.queue, i) || LiveQos2(Passing(s, env, i).queue[i])
  {
    HoldsIsLive(s.queue[i]);
    assert Passing(s, env, i).queue[i] == s.queue[i];
  }

  /** A turn that goes on leads to what the turns behind it lead to. */
  lemma PassesOn(s: State, env: nat -> SendStep, i: nat)
    requires i < |s.queue| && NoEmptyImages(s.queue) && AllSendable(s.queue)
    requires !(Due(s, env, i) && env(i).outcome.Failed?)
    ensures NoEmptyImages(Passing(s, env, i).queue) && NoEmptyImages(Passing(s, env, i + 1).queue)
    ensures SendFrom(Passing(s, env, i), i, Inflight2(s.queue, i), env) ==
            SendFrom(Passing(s, env, i + 1), i + 1, Inflight2(s.queue, i + 1), env)
  {
    PassesOne(s, env, i);
    InflightStep(s, env, i);
  }

  lemma {:induction false} PassesAll(s: State, env: nat -> SendStep, i: nat)
    requires i <= |s.queue| && NoEmptyImages(s.queue) && AllSendable(s.queue)
    ensures NoEmptyImages(Passing(s, env, i).queue)
    ensures SendFrom(Passing(s, env, i), i, Inflight2(s.queue, i), env) == Ended(s, env, Fault(s, env, i))
    decreases |s.queue| - i
  {
    if i < |s.queue| {
      if Due(s, env, i) && env(i).outcome.Failed? {
        PassesOne(s, env, i);
      } else {
        PassesOn(s, env, i);
        PassesAll(s, env, i + 1);
      }
    }
  }

  lemma PassEnds(s: State, env: nat -> SendStep)
    requires NoEmptyImages(s.queue) && AllSendable(s.queue)
    ensures SendFrom(s, 0, false, env) == Ended(s, env, Fault(s, env, 0))
  {
    PassingNothing(s, env);
    PassesAll(s, env, 0);
  }

  // ---- One send ----

  /** A ping is due when nothing has been sent for three quarters of the keep-alive interval. */
  predicate PingDue(p: State, now: int) {
    4 * (now - p.lastSend) > 3 * p.keepAlive
  }

  lemma PingExactly(cfg: Config, p: State, spent: nat, stale: uint16)
    requires Spent(p.queue, spent)
    ensures Ping(cfg, p, stale) == Pushed(cfg, p, spent, [0xC0, 0], PINGREQ, stale)
  {
    BareBytes(PINGREQ);
    StageExactly(cfg, p, spent, BareImage(PINGREQ), PINGREQ, stale);
  }

  /** What a send does: nothing in error, else the pass over the queue, and the ping that keeps the connection. */
  function SendIs(cfg: Config, s: State, env: nat -> SendStep, now: int, stale: uint16, spent: nat): (State, int)
    requires NoEmptyImages(s.queue) && Spent(Ended(s, env, Fault(s, env, 0)).0.queue, spent)
  {
    if s.error < 0 && s.error != ERROR_SEND_BUFFER_IS_FULL then (s, s.error)
    else
      var (p, rv) := Ended(s, env, Fault(s, env, 0));
      if rv != OK || !PingDue(p, now) then (p, rv) else Pushed(cfg, p, spent, [0xC0, 0], PINGREQ, stale)
  }

  lemma PingWhen(p: State, now: int)
    ensures now > p.lastSend + 3 * p.keepAlive / 4 <==> PingDue(p, now)
  {
  }

  /** The part of a send behind its loop. */
  lemma ThenPing(cfg: Config, s: State, env: nat -> SendStep, now: int, stale: uint16, spent: nat, r: (State, int))
    requires NoEmptyImages(s.queue) && r == SendFrom(s, 0, false, env) && Spent(r.0.queue, spent)
    ensures Send(cfg, s, env, now, stale) ==
            if s.error < 0 && s.error != ERROR_SEND_BUFFER_IS_FULL then (s, s.error)
            else if r.1 != OK || !PingDue(r.0, now) then r else Pushed(cfg, r.0, spent, [0xC0, 0], PINGREQ, stale)
  {
    PingWhen(r.0, now);
    PingExactly(cfg, r.0, spent, stale);
  }

  /** The loop, the keep-alive check and the ping come to the closed form, whatever the network and the clock do. */
  lemma SendExactly(cfg: Config, s: State, env: nat -> SendStep, now: int, stale: uint16, spent: nat)
    requires NoEmptyImages(s.queue) && AllSendable(s.queue) && Spent(Ended(s, env, Fault(s, env, 0)).0.queue, spent)
    ensures Send(cfg, s, env, now, stale) == SendIs(cfg, s, env, now, stale, spent)
  {
    PassEnds(s, env);
    ThenPing(cfg, s, env, now, stale, spent, Ended(s, env, Fault(s, env, 0)));
  }
}
