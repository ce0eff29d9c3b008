/**
 Completed before it was sent. Without response timeouts an acknowledgement can complete a message that was
 never sent only if its request has been acknowledged more often than it was sent.
 */
module Early {
  import opened Options
  import opened MqttTypes
  import opened Packets
  import opened Responses
  import opened QueueSpec
  import opened Session
  import opened Ledger
  import opened Discipline
  import opened Balance

  /** Whatever is COMPLETE, in the queue or gone from it, was sent. */
  predicate SentFirst(q: seq<Msg>, base: nat, log: seq<Tx>) {
    && (forall u {:trigger InLog(log, u)} :: 0 <= u < base ==> InLog(log, u))
    && forall i :: 0 <= i < |q| && q[i].state.Complete? ==> InLog(log, base + i)
  }

  /** When packet j had been received, some request was acknowledged more often than it had been sent by then. */
  ghost predicate OverAt(log: seq<Tx>, disp: seq<Response>, marks: seq<nat>, j: nat) {
    j < |disp| && j < |marks| && marks[j] <= |log| && OverAcked(log[..marks[j]], disp[..j + 1])
  }

  ghost predicate EverOver(log: seq<Tx>, disp: seq<Response>, marks: seq<nat>) {
    exists j: nat :: OverAt(log, disp, marks, j)
  }

  /** Every packet received carries the number of packets sent before. */
  predicate Stamped(log: seq<Tx>, disp: seq<Response>, marks: seq<nat>) {
    |marks| == |disp| && forall j :: 0 <= j < |marks| ==> marks[j] <= |log|
  }

  lemma OverAtStays(log: seq<Tx>, disp: seq<Response>, marks: seq<nat>, j: nat,
                    log': seq<Tx>, disp': seq<Response>, marks': seq<nat>)
    requires log <= log' && disp <= disp' && marks <= marks' && OverAt(log, disp, marks, j)
    ensures OverAt(log', disp', marks', j)
  {
    assert log'[..marks[j]] == log[..marks[j]] && disp'[..j + 1] == disp[..j + 1];
  }

  lemma EverOverStays(log: seq<Tx>, disp: seq<Response>, marks: seq<nat>,
                      log': seq<Tx>, disp': seq<Response>, marks': seq<nat>)
    requires log <= log' && disp <= disp' && marks <= marks' && EverOver(log, disp, marks)
    ensures EverOver(log', disp', marks')
  {
    var j: nat :| OverAt(log, disp, marks, j);
    OverAtStays(log, disp, marks, j, log', disp', marks');
  }

  /** Over-acknowledged at some packet: that packet had come before, or it is so now if nothing was sent meanwhile. */
  lemma OverAtEarlier(log: seq<Tx>, disp: seq<Response>, marks: seq<nat>, j: nat,
                      log': seq<Tx>, disp': seq<Response>, marks': seq<nat>)
    requires log <= log' && disp <= disp' && marks <= marks' && Stamped(log, disp, marks)
    requires forall i :: |marks| <= i < |marks'| ==> marks'[i] == |log'|
    requires OverAt(log', disp', marks', j)
    ensures OverAt(log, disp, marks, j) || OverAcked(log', disp')
  {
    if j < |disp| {
      assert log[..marks[j]] == log'[..marks'[j]] && disp[..j + 1] == disp'[..j + 1];
    } else {
      assert log'[..marks'[j]] == log';
      var k :| Acked(disp'[..j + 1], k) > Sent(log', k);
      AckedPrefix(disp'[..j + 1], disp', k);
    }
  }

  /** A request over-acknowledged now was so when the last packet came, if nothing was sent since. */
  lemma OverNow(log: seq<Tx>, disp: seq<Response>, marks: seq<nat>)
    requires OverAcked(log, disp) && Stamped(log, disp, marks) && disp != [] && marks[|disp| - 1] == |log|
    ensures EverOver(log, disp, marks)
  {
    assert log[..|log|] == log && disp[..|disp|] == disp;
    assert OverAt(log, disp, marks, |disp| - 1);
  }

  lemma {:induction false} NothingAwaits(q: seq<Msg>, k: Key)
    requires forall i :: 0 <= i < |q| ==> Weight(q[i], k) == 0
    ensures Awaiting(q, k) == 0
    decreases |q|
  {
    if q != [] {
      NothingAwaits(q[..|q| - 1], k);
    }
  }

  /** If the record that an acknowledgement refers to has not been sent, no record awaits that acknowledgement. */
  lemma UnsentStandsAlone(q: seq<Msg>, base: nat, regs: seq<Registered>, log: seq<Tx>, disp: seq<Response>,
                          ctype: int, id: Option<uint16>, k: Key, i: nat, j: nat)
    requires Entries(q, base, regs, log, disp) && WaitingInOrder(q, base, regs, log) && Unambiguous(q)
    requires Refers(k, ctype, id) && Find(q, ctype, id) == Some(i) && q[i].state.Unsent? && j < |q|
    ensures Weight(q[j], k) == 0
  {
    assert Entry(q, base, regs, log, disp, i) && Entry(q, base, regs, log, disp, j);
    assert Waits(q, base, regs, log, i);
    if id.Some? && Weight(q[j], k) == 1 {
      AtMostOneMatch(q, ctype, id.value, i, j);
    }
  }

  lemma UnsentIsOverAcked(q: seq<Msg>, base: nat, regs: seq<Registered>, log: seq<Tx>, disp: seq<Response>,
                          ctype: int, id: Option<uint16>, k: Key, i: nat)
    requires Entries(q, base, regs, log, disp) && WaitingInOrder(q, base, regs, log) && Unambiguous(q)
    requires Balanced(q, log, disp, Some(k)) && Refers(k, ctype, id)
    requires Find(q, ctype, id) == Some(i) && q[i].state.Unsent?
    ensures OverAcked(log, disp)
  {
    forall j | 0 <= j < |q|
      ensures Weight(q[j], k) == 0
    {
      UnsentStandsAlone(q, base, regs, log, disp, ctype, id, k, i, j);
    }
    NothingAwaits(q, k);
    assert Acked(disp, k) > Sent(log, k);
  }

  // ---- The steps keep it ----

  lemma CleanSentFirst(q: seq<Msg>, base: nat, log: seq<Tx>)
    requires SentFirst(q, base, log)
    ensures SentFirst(Cleaned(q), base + CompletePrefix(q), log)
  {
    var k := CompletePrefix(q);
    forall u | 0 <= u < base + k
      ensures InLog(log, u)
    {
      assert u >= base ==> q[u - base].state.Complete?;
    }
    forall i | 0 <= i < |Cleaned(q)| && Cleaned(q)[i].state.Complete?
      ensures InLog(log, base + k + i)
    {
      assert q[k + i].state.Complete? && base + (k + i) == base + k + i;
    }
  }

  lemma TransmitSentFirst(q: seq<Msg>, base: nat, log: seq<Tx>, i: nat, m: Msg, image: bytes)
    requires SentFirst(q, base, log) && i < |q|
    ensures SentFirst(q[i := m], base, log + [Tx(base + i, image)])
  {
    var t := Tx(base + i, image);
    forall u | 0 <= u < base
      ensures InLog(log + [t], u)
    {
      InLogAppend(log, t, u);
    }
    var q' := q[i := m];
    forall j | 0 <= j < |q'| && q'[j].state.Complete?
      ensures InLog(log + [t], base + j)
    {
      InLogAppend(log, t, base + j);
    }
  }

  /** The record that an acknowledgement refers to is completed. */
  lemma CompleteSentFirst(q: seq<Msg>, base: nat, regs: seq<Registered>, log: seq<Tx>, disp: seq<Response>,
                          ctype: int, id: Option<uint16>, k: Key, i: nat)
    requires Entries(q, base, regs, log, disp) && WaitingInOrder(q, base, regs, log) && Unambiguous(q)
    requires Balanced(q, log, disp, Some(k)) && Refers(k, ctype, id) && Find(q, ctype, id) == Some(i)
    requires SentFirst(q, base, log)
    ensures SentFirst(SetComplete(q, i), base, log) || OverAcked(log, disp)
  {
    assert Entry(q, base, regs, log, disp, i);
    if q[i].state.Unsent? {
      UnsentIsOverAcked(q, base, regs, log, disp, ctype, id, k, i);
    }
  }
}
