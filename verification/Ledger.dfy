/**
 The queue and the history of a client keep one account: what was registered, in what state it is, what
 was sent of it, and why it was completed. The four steps that change the queue keep the account.
 */
module Ledger {
  import opened Options
  import opened MqttTypes
  import opened FixedHeader
  import opened Packets
  import opened Responses
  import opened QueueSpec
  import opened Session

  // ---- What an acknowledgement refers to ----

  /** A type of request, and the packet id if that type is acknowledged by id. */
  datatype Key = Key(ctype: int, id: uint16)

  function KeyOf(ctype: int, id: uint16): Key {
    Key(ctype, if ctype == CONNECT || ctype == PINGREQ then 0 else id)
  }

  /** The request that a received packet acknowledges. */
  function AckKey(r: Response): Option<Key> {
    match r
    case Connack(_, _) => Some(Key(CONNECT, 0))
    case Publish(_, _, _, _, _, _) => None
    case Puback(id) => Some(Key(PUBLISH, id))
    case Pubrec(id) => Some(Key(PUBLISH, id))
    case Pubrel(id) => Some(Key(PUBREC, id))
    case Pubcomp(id) => Some(Key(PUBREL, id))
    case Suback(id, _) => Some(Key(SUBSCRIBE, id))
    case Unsuback(id) => Some(Key(UNSUBSCRIBE, id))
    case Pingresp => Some(Key(PINGREQ, 0))
  }

  /** Behind its first n packets the client has received an acknowledgement of the request. */
  predicate Answered(disp: seq<Response>, n: nat, k: Key) {
    exists j :: n <= j < |disp| && AckKey(disp[j]) == Some(k)
  }

  /** The packet in hand is such an acknowledgement. */
  predicate JustAnswered(disp: seq<Response>, k: Key) {
    disp != [] && AckKey(disp[|disp| - 1]) == Some(k)
  }

  predicate InLog(log: seq<Tx>, uid: nat) {
    exists j :: 0 <= j < |log| && log[j].uid == uid
  }

  /** A QoS 1 PUBLISH: the one packet whose retransmissions differ from its first transmission. */
  predicate Dupable(g: Registered) {
    g.ctype == PUBLISH && |g.image| > 0 && Qos(g.image[0]) == 1
  }

  predicate RegQos2(g: Registered) {
    g.ctype == PUBLISH && |g.image| > 0 && Qos(g.image[0]) == 2
  }

  /**
   Why message u may be COMPLETE: nobody acknowledges it and it was sent, or an acknowledgement of its type
   and id came after it was registered.
   */
  predicate Cause(regs: seq<Registered>, log: seq<Tx>, disp: seq<Response>, u: nat)
    requires u < |regs|
  {
    var g := regs[u];
    || (|g.image| > 0 && FireAndForget(g.ctype, g.image) && InLog(log, u))
    || Answered(disp, g.heard, KeyOf(g.ctype, g.id))
  }

  // ---- The account ----

  /** Message i of the queue is entry base + i of the register. */
  predicate Entry(q: seq<Msg>, base: nat, regs: seq<Registered>, log: seq<Tx>, disp: seq<Response>, i: nat)
    requires |regs| == base + |q| && i < |q|
  {
    var m, g, u := q[i], regs[base + i], base + i;
    && m.ctype == g.ctype && m.id == g.id && |g.image| > 0 && Sendable(g.ctype)
    && match m.state
       case Unsent => m.image == g.image && !InLog(log, u)
       case AwaitingAck =>
         InLog(log, u) && m.image == (if Dupable(g) then WithDup(g.image) else g.image) && !FireAndForget(g.ctype, g.image)
       case Complete => (m.image == g.image || (Dupable(g) && m.image == WithDup(g.image))) && Cause(regs, log, disp, u)
  }

  predicate Entries(q: seq<Msg>, base: nat, regs: seq<Registered>, log: seq<Tx>, disp: seq<Response>) {
    && |regs| == base + |q|
    && forall i {:trigger Entry(q, base, regs, log, disp, i)} :: 0 <= i < |q| ==> Entry(q, base, regs, log, disp, i)
  }

  /** Everything that has left the queue was COMPLETE for a cause. */
  predicate LeftForCause(base: nat, regs: seq<Registered>, log: seq<Tx>, disp: seq<Response>) {
    && base <= |regs|
    && forall u {:trigger Cause(regs, log, disp, u)} :: 0 <= u < base ==> Cause(regs, log, disp, u)
  }

  predicate First(log: seq<Tx>, j: nat)
    requires j < |log|
  {
    !InLog(log[..j], log[j].uid)
  }

  /** Transmission j is byte for byte what was registered, except that a QoS 1 PUBLISH repeats with DUP set. */
  predicate TrueCopy(regs: seq<Registered>, log: seq<Tx>, j: nat)
    requires j < |log|
  {
    var t := log[j];
    && t.uid < |regs| && |regs[t.uid].image| > 0
    && t.image == if Dupable(regs[t.uid]) && !First(log, j) then WithDup(regs[t.uid].image) else regs[t.uid].image
  }

  predicate TrueCopies(regs: seq<Registered>, log: seq<Tx>) {
    forall j {:trigger TrueCopy(regs, log, j)} :: 0 <= j < |log| ==> TrueCopy(regs, log, j)
  }

  /** The packets of `log` that are QoS 2 PUBLISHes, or those that are not, are numbered below u. */
  predicate Below(regs: seq<Registered>, log: seq<Tx>, u: nat, qos2: bool) {
    forall j :: 0 <= j < |log| && log[j].uid < |regs| && RegQos2(regs[log[j].uid]) == qos2 ==> log[j].uid < u
  }

  /** First transmissions of QoS 2 PUBLISHes are in registration order, and so are those of everything else. */
  predicate InOrder(regs: seq<Registered>, log: seq<Tx>) {
    forall j {:trigger First(log, j)} :: 0 <= j < |log| && First(log, j) && log[j].uid < |regs| ==>
      Below(regs, log[..j], log[j].uid, RegQos2(regs[log[j].uid]))
  }

  /** If message i has not been sent, nothing of its class behind it has. */
  predicate Waits(q: seq<Msg>, base: nat, regs: seq<Registered>, log: seq<Tx>, i: nat)
    requires |regs| == base + |q| && i < |q|
  {
    q[i].state.Unsent? ==> Below(regs, log, base + i, RegQos2(regs[base + i]))
  }

  predicate WaitingInOrder(q: seq<Msg>, base: nat, regs: seq<Registered>, log: seq<Tx>) {
    |regs| == base + |q| &&
    forall i {:trigger Waits(q, base, regs, log, i)} :: 0 <= i < |q| ==> Waits(q, base, regs, log, i)
  }

  /** Of two QoS 2 PUBLISHes the second goes out only when the first is COMPLETE. */
  predicate InLine(q: seq<Msg>, base: nat, log: seq<Tx>, i: nat, j: nat)
    requires i < j < |q|
  {
    IsQos2(q[i]) && IsQos2(q[j]) && InLog(log, base + j) ==> q[i].state.Complete?
  }

  predicate InTurn(q: seq<Msg>, base: nat, log: seq<Tx>) {
    forall i, j {:trigger InLine(q, base, log, i, j)} :: 0 <= i < j < |q| ==> InLine(q, base, log, i, j)
  }

  /** No message was registered later than now. */
  predicate HeardBy(regs: seq<Registered>, n: nat) {
    forall u :: 0 <= u < |regs| ==> regs[u].heard <= n
  }

  ghost predicate Account(q: seq<Msg>, base: nat, regs: seq<Registered>, log: seq<Tx>, disp: seq<Response>) {
    && Entries(q, base, regs, log, disp) && LeftForCause(base, regs, log, disp) && HeardBy(regs, |disp|)
    && TrueCopies(regs, log) && InOrder(regs, log) && WaitingInOrder(q, base, regs, log) && InTurn(q, base, log)
  }

  // ---- Small facts ----

  lemma {:induction false} InLogAppend(log: seq<Tx>, t: Tx, u: nat)
    ensures InLog(log + [t], u) <==> InLog(log, u) || t.uid == u
  {
    var log' := log + [t];
    if InLog(log, u) {
      var j :| 0 <= j < |log| && log[j].uid == u;
      assert log'[j].uid == u;
    }
    if t.uid == u {
      assert log'[|log|].uid == u;
    }
  }

  lemma {:induction false} CauseStays(regs: seq<Registered>, log: seq<Tx>, disp: seq<Response>, u: nat,
                                      regs': seq<Registered>, log': seq<Tx>, disp': seq<Response>)
    requires u < |regs| && Cause(regs, log, disp, u)
    requires regs <= regs' && log <= log' && disp <= disp'
    ensures Cause(regs', log', disp', u)
  {
    assert regs'[u] == regs[u];
    var n, k := regs[u].heard, KeyOf(regs[u].ctype, regs[u].id);
    if Answered(disp, n, k) {
      var j :| n <= j < |disp| && AckKey(disp[j]) == Some(k);
      assert AckKey(disp'[j]) == Some(k);
    } else {
      var j :| 0 <= j < |log| && log[j].uid == u;
      assert log'[j].uid == u;
    }
  }

  lemma DupKeepsQos(image: bytes)
    requires |image| > 0
    ensures Qos(WithDup(image)[0]) == Qos(image[0]) && WithDup(WithDup(image)) == WithDup(image)
    ensures WithDup(image)[0] / 16 == image[0] / 16 && WithDup(image)[0] % 2 == image[0] % 2
  {
    if image[0] / 8 % 2 == 0 {
      DupByte(image[0]);
    }
  }

  /** Setting bit 3 changes no other. */
  lemma DupByte(b: byte)
    requires b / 8 % 2 == 0
    ensures b + 8 < 256 && (b + 8) / 8 % 2 == 1
    ensures (b + 8) / 2 % 4 == b / 2 % 4 && (b + 8) / 16 == b / 16 && (b + 8) % 2 == b % 2
  {
    var h, x, y := b / 16, b / 2 % 4, b % 2;
    assert b == 16 * h + 2 * x + y;
    assert b / 2 == 8 * h + x && (b + 8) / 2 == 8 * h + 4 + x;
    assert (b + 8) / 16 == h && (b + 8) / 8 == 2 * h + 1;
  }

  /** The queue's own view of a QoS 2 PUBLISH agrees with the register. */
  lemma EntryQos(q: seq<Msg>, base: nat, regs: seq<Registered>, log: seq<Tx>, disp: seq<Response>, i: nat)
    requires Entries(q, base, regs, log, disp) && i < |q|
    ensures |q[i].image| > 0 && |regs[base + i].image| > 0
    ensures IsQos2(q[i]) <==> RegQos2(regs[base + i])
    ensures Qos(q[i].image[0]) == Qos(regs[base + i].image[0])
    ensures FireAndForget(q[i].ctype, q[i].image) <==> FireAndForget(regs[base + i].ctype, regs[base + i].image)
  {
    assert Entry(q, base, regs, log, disp, i);
    DupKeepsQos(regs[base + i].image);
  }

  lemma EntriesNotEmpty(q: seq<Msg>, base: nat, regs: seq<Registered>, log: seq<Tx>, disp: seq<Response>)
    requires Entries(q, base, regs, log, disp)
    ensures NoEmptyImages(q)
  {
    forall i | 0 <= i < |q|
      ensures |q[i].image| > 0
    {
      EntryQos(q, base, regs, log, disp, i);
    }
  }

  /** Of two registered QoS 2 PUBLISHes, if the second was sent the first is COMPLETE or gone. */
  lemma EntriesInTurn(q: seq<Msg>, base: nat, regs: seq<Registered>, log: seq<Tx>, disp: seq<Response>, v: nat, u: nat)
    requires Entries(q, base, regs, log, disp) && InTurn(q, base, log) && base <= v < u < |regs|
    requires RegQos2(regs[v]) && RegQos2(regs[u]) && InLog(log, u)
    ensures q[v - base].state.Complete?
  {
    EntryQos(q, base, regs, log, disp, v - base);
    EntryQos(q, base, regs, log, disp, u - base);
    assert InLine(q, base, log, v - base, u - base);
  }

  // ---- The four steps ----

  /** Dropping the COMPLETE prefix. */
  lemma {:induction false} CleanKeeps(q: seq<Msg>, base: nat, regs: seq<Registered>, log: seq<Tx>, disp: seq<Response>)
    requires Account(q, base, regs, log, disp)
    ensures Account(Cleaned(q), base + CompletePrefix(q), regs, log, disp)
  {
    var k := CompletePrefix(q);
    var q', base' := q[k..], base + k;
    forall i | 0 <= i < |q'|
      ensures Entry(q', base', regs, log, disp, i)
    {
      assert Entry(q, base, regs, log, disp, k + i);
    }
    forall u | 0 <= u < base'
      ensures Cause(regs, log, disp, u)
    {
      if u >= base {
        assert Entry(q, base, regs, log, disp, u - base);
      }
    }
    forall i | 0 <= i < |q'|
      ensures Waits(q', base', regs, log, i)
    {
      assert Waits(q, base, regs, log, k + i);
    }
    forall i, j | 0 <= i < j < |q'|
      ensures InLine(q', base', log, i, j)
    {
      assert InLine(q, base, log, k + i, k + j);
      assert base' + j == base + (k + j);
    }
  }

  /** Registering a message. */
  lemma {:induction false} AppendKeeps(q: seq<Msg>, base: nat, regs: seq<Registered>, log: seq<Tx>, disp: seq<Response>,
                                       image: bytes, ctype: int, id: uint16)
    requires Account(q, base, regs, log, disp) && |image| > 0 && Sendable(ctype)
    ensures Account(q + [Msg(image, Unsent, ctype, id, 0)], base, regs + [Registered(image, ctype, id, |disp|)], log, disp)
  {
    var q', regs' := q + [Msg(image, Unsent, ctype, id, 0)], regs + [Registered(image, ctype, id, |disp|)];
    forall j | 0 <= j < |log|
      ensures log[j].uid < |regs|
    {
      assert TrueCopy(regs, log, j);
    }
    forall i | 0 <= i < |q'|
      ensures Entry(q', base, regs', log, disp, i)
    {
      if i < |q| {
        assert Entry(q, base, regs, log, disp, i);
        if q[i].state.Complete? {
          CauseStays(regs, log, disp, base + i, regs', log, disp);
        }
      }
    }
    forall u | 0 <= u < base
      ensures Cause(regs', log, disp, u)
    {
      CauseStays(regs, log, disp, u, regs', log, disp);
    }
    forall j | 0 <= j < |log|
      ensures TrueCopy(regs', log, j)
    {
      assert TrueCopy(regs, log, j);
    }
    AppendOrder(q, base, regs, log, disp, image, ctype, id);
  }

  /** Nothing that has been sent stands behind the new message. */
  lemma {:induction false} AppendOrder(q: seq<Msg>, base: nat, regs: seq<Registered>, log: seq<Tx>, disp: seq<Response>,
                                       image: bytes, ctype: int, id: uint16)
    requires Entries(q, base, regs, log, disp) && WaitingInOrder(q, base, regs, log) && InTurn(q, base, log)
    requires forall j :: 0 <= j < |log| ==> log[j].uid < |regs|
    ensures var q', regs' := q + [Msg(image, Unsent, ctype, id, 0)], regs + [Registered(image, ctype, id, |disp|)];
            WaitingInOrder(q', base, regs', log) && InTurn(q', base, log)
  {
    var q', regs' := q + [Msg(image, Unsent, ctype, id, 0)], regs + [Registered(image, ctype, id, |disp|)];
    forall i | 0 <= i < |q'|
      ensures Waits(q', base, regs', log, i)
    {
      if i < |q| {
        assert Waits(q, base, regs, log, i);
      }
    }
    forall i, j | 0 <= i < j < |q'|
      ensures InLine(q', base, log, i, j)
    {
      if j < |q| {
        assert InLine(q, base, log, i, j);
      }
    }
  }

  /** The acknowledgement of message i has been received. */
  lemma {:induction false} CompleteKeeps(q: seq<Msg>, base: nat, regs: seq<Registered>, log: seq<Tx>, disp: seq<Response>, i: nat)
    requires Account(q, base, regs, log, disp) && i < |q|
    requires JustAnswered(disp, KeyOf(q[i].ctype, q[i].id)) && HeardBy(regs, |disp| - 1)
    ensures Account(SetComplete(q, i), base, regs, log, disp)
  {
    var q' := SetComplete(q, i);
    assert Entry(q, base, regs, log, disp, i);
    forall j | 0 <= j < |q'|
      ensures Entry(q', base, regs, log, disp, j)
    {
      assert Entry(q, base, regs, log, disp, j);
    }
    forall j | 0 <= j < |q'|
      ensures Waits(q', base, regs, log, j)
    {
      assert Waits(q, base, regs, log, j);
    }
    forall a, b | 0 <= a < b < |q'|
      ensures InLine(q', base, log, a, b)
    {
      assert InLine(q, base, log, a, b);
    }
  }

  /** A further packet has been dispatched. */
  lemma {:induction false} DispatchKeeps(q: seq<Msg>, base: nat, regs: seq<Registered>, log: seq<Tx>, disp: seq<Response>, r: Response)
    requires Account(q, base, regs, log, disp)
    ensures Account(q, base, regs, log, disp + [r]) && HeardBy(regs, |disp + [r]| - 1)
  {
    forall i | 0 <= i < |q|
      ensures Entry(q, base, regs, log, disp + [r], i)
    {
      assert Entry(q, base, regs, log, disp, i);
      if q[i].state.Complete? {
        CauseStays(regs, log, disp, base + i, regs, log, disp + [r]);
      }
    }
    forall u | 0 <= u < base
      ensures Cause(regs, log, disp + [r], u)
    {
      CauseStays(regs, log, disp, u, regs, log, disp + [r]);
    }
  }

  /** A live QoS 2 PUBLISH among the first i messages: the local variable of the send loop. */
  predicate Inflight(q: seq<Msg>, i: nat) {
    exists j :: 0 <= j < i && j < |q| && LiveQos2(q[j])
  }

  /** In a pass over the queue, the messages before i that are still UNSENT are QoS 2 PUBLISHes. */
  predicate Passed(q: seq<Msg>, i: nat) {
    forall j :: 0 <= j < i && j < |q| && q[j].state.Unsent? ==> IsQos2(q[j])
  }

  /** Message i goes out, for the first time or again. */
  lemma {:induction false} TransmitKeeps(q: seq<Msg>, base: nat, regs: seq<Registered>, log: seq<Tx>, disp: seq<Response>,
                                         i: nat, stamp: int)
    requires Account(q, base, regs, log, disp) && i < |q| && !q[i].state.Complete? && Passed(q, i)
    requires |q[i].image| > 0 && !(LiveQos2(q[i]) && Inflight(q, i))
    ensures Account(q[i := AfterSend(q[i], stamp)], base, regs, log + [Tx(base + i, q[i].image)], disp)
  {
    var t := Tx(base + i, q[i].image);
    var q', log' := q[i := AfterSend(q[i], stamp)], log + [t];
    TransmitEntries(q, base, regs, log, disp, i, stamp);
    forall u | 0 <= u < base
      ensures Cause(regs, log', disp, u)
    {
      CauseStays(regs, log, disp, u, regs, log', disp);
    }
    TransmitCopies(q, base, regs, log, disp, i);
    TransmitOrder(q, base, regs, log, disp, i);
    TransmitWaiting(q, base, regs, log, disp, i, stamp);
    TransmitInTurn(q, base, log, i, stamp);
  }

  lemma {:induction false} TransmitWaiting(q: seq<Msg>, base: nat, regs: seq<Registered>, log: seq<Tx>, disp: seq<Response>,
                                           i: nat, stamp: int)
    requires Entries(q, base, regs, log, disp) && WaitingInOrder(q, base, regs, log)
    requires i < |q| && !q[i].state.Complete? && |q[i].image| > 0 && Passed(q, i)
    requires !(LiveQos2(q[i]) && Inflight(q, i))
    ensures WaitingInOrder(q[i := AfterSend(q[i], stamp)], base, regs, log + [Tx(base + i, q[i].image)])
  {
    var q', log' := q[i := AfterSend(q[i], stamp)], log + [Tx(base + i, q[i].image)];
    EntryQos(q, base, regs, log, disp, i);
    forall j | 0 <= j < |q'|
      ensures Waits(q', base, regs, log', j)
    {
      EntryQos(q, base, regs, log, disp, j);
      assert Waits(q, base, regs, log, j);
      assert j < i && q[j].state.Unsent? ==> IsQos2(q[j]) && !IsQos2(q[i]);
    }
  }

  lemma {:induction false} TransmitInTurn(q: seq<Msg>, base: nat, log: seq<Tx>, i: nat, stamp: int)
    requires InTurn(q, base, log) && i < |q| && !q[i].state.Complete? && |q[i].image| > 0
    requires !(LiveQos2(q[i]) && Inflight(q, i))
    ensures InTurn(q[i := AfterSend(q[i], stamp)], base, log + [Tx(base + i, q[i].image)])
  {
    var t := Tx(base + i, q[i].image);
    var q', log' := q[i := AfterSend(q[i], stamp)], log + [t];
    DupKeepsQos(q[i].image);
    forall a, b | 0 <= a < b < |q'|
      ensures InLine(q', base, log', a, b)
    {
      InLogAppend(log, t, base + b);
      assert InLine(q, base, log, a, b);
    }
  }

  lemma {:induction false} TransmitEntries(q: seq<Msg>, base: nat, regs: seq<Registered>, log: seq<Tx>, disp: seq<Response>,
                                           i: nat, stamp: int)
    requires Entries(q, base, regs, log, disp) && i < |q| && !q[i].state.Complete? && |q[i].image| > 0
    ensures Entries(q[i := AfterSend(q[i], stamp)], base, regs, log + [Tx(base + i, q[i].image)], disp)
  {
    var t := Tx(base + i, q[i].image);
    var q', log' := q[i := AfterSend(q[i], stamp)], log + [t];
    forall j | 0 <= j < |q'|
      ensures Entry(q', base, regs, log', disp, j)
    {
      assert Entry(q, base, regs, log, disp, j);
      EntryQos(q, base, regs, log, disp, j);
      InLogAppend(log, t, base + j);
      if j == i {
        DupKeepsQos(regs[base + i].image);
      } else if q[j].state.Complete? {
        CauseStays(regs, log, disp, base + j, regs, log', disp);
      }
    }
  }

  lemma {:induction false} TransmitCopies(q: seq<Msg>, base: nat, regs: seq<Registered>, log: seq<Tx>, disp: seq<Response>, i: nat)
    requires Entries(q, base, regs, log, disp) && TrueCopies(regs, log) && i < |q| && !q[i].state.Complete?
    ensures TrueCopies(regs, log + [Tx(base + i, q[i].image)])
  {
    var log' := log + [Tx(base + i, q[i].image)];
    assert Entry(q, base, regs, log, disp, i);
    forall j | 0 <= j < |log'|
      ensures TrueCopy(regs, log', j)
    {
      if j < |log| {
        assert TrueCopy(regs, log, j);
        assert log'[..j] == log[..j];
      } else {
        assert log'[..j] == log;
      }
    }
  }

  lemma {:induction false} TransmitOrder(q: seq<Msg>, base: nat, regs: seq<Registered>, log: seq<Tx>, disp: seq<Response>, i: nat)
    requires Entries(q, base, regs, log, disp) && InOrder(regs, log) && WaitingInOrder(q, base, regs, log)
    requires i < |q| && !q[i].state.Complete?
    ensures InOrder(regs, log + [Tx(base + i, q[i].image)])
  {
    var log' := log + [Tx(base + i, q[i].image)];
    assert Entry(q, base, regs, log, disp, i) && Waits(q, base, regs, log, i);
    forall j | 0 <= j < |log'| && First(log', j) && log'[j].uid < |regs|
      ensures Below(regs, log'[..j], log'[j].uid, RegQos2(regs[log'[j].uid]))
    {
      if j < |log| {
        assert log'[..j] == log[..j];
        assert First(log, j);
      } else {
        assert log'[..j] == log;
      }
    }
  }
}
