/** Two disciplines of the queue: acknowledgements are unambiguous, and one QoS 2 PUBLISH is in flight at a time. */
module Discipline {
  import opened Options
  import opened MqttTypes
  import opened Packets
  import opened QueueSpec
  import opened Session
  import opened Ledger

  /** Requests whose id the client draws itself. */
  predicate DrawsId(ctype: int) {
    ctype == PUBLISH || ctype == SUBSCRIBE || ctype == UNSUBSCRIBE
  }

  /** Two messages that one acknowledgement by id could confuse. */
  predicate Clash(a: Msg, b: Msg) {
    && a.id == b.id
    && ((DrawsId(a.ctype) && DrawsId(b.ctype)) || (a.ctype == b.ctype && (a.ctype == PUBREC || a.ctype == PUBREL)))
  }

  predicate Unambiguous(q: seq<Msg>) {
    forall i, j :: 0 <= i < j < |q| ==> !Clash(q[i], q[j])
  }

  /** An awaiting QoS 2 PUBLISH has no live one before it. */
  predicate OneInFlight(q: seq<Msg>) {
    forall i, j :: 0 <= i < j < |q| && LiveQos2(q[i]) && IsQos2(q[j]) ==> !q[j].state.AwaitingAck?
  }

  /** What the two disciplines promise a reader of the queue. */
  lemma AtMostOneMatch(q: seq<Msg>, ctype: int, id: uint16, i: nat, j: nat)
    requires Unambiguous(q) && i < |q| && j < |q|
    requires DrawsId(ctype) || ctype == PUBREC || ctype == PUBREL
    requires Matches(q[i], ctype, Some(id)) && Matches(q[j], ctype, Some(id))
    ensures i == j && Find(q, ctype, Some(id)) == Some(i)
  {
    assert i < j ==> Clash(q[i], q[j]);
    assert j < i ==> Clash(q[j], q[i]);
    var f := Find(q, ctype, Some(id)).value;
    assert f < i ==> Clash(q[f], q[i]);
  }

  lemma AtMostOneAwaiting(q: seq<Msg>, i: nat, j: nat)
    requires OneInFlight(q) && i < |q| && j < |q|
    requires IsQos2(q[i]) && q[i].state.AwaitingAck? && LiveQos2(q[j])
    ensures i <= j && (q[j].state.AwaitingAck? ==> i == j)
  {
  }

  /** Nothing that the queue holds clashes with a new message. */
  predicate Admits(q: seq<Msg>, ctype: int, id: uint16) {
    forall i :: 0 <= i < |q| ==> !Clash(q[i], Msg([], Unsent, ctype, id, 0))
  }

  lemma AdmitsOnce(q: seq<Msg>, ctype: int, id: uint16)
    requires ctype == PUBREC || ctype == PUBREL
    requires Find(q, ctype, Some(id)).None?
    ensures Admits(q, ctype, id)
  {
    forall i | 0 <= i < |q|
      ensures !Clash(q[i], Msg([], Unsent, ctype, id, 0))
    {
      assert !Matches(q[i], ctype, Some(id));
    }
  }

  lemma CleanDiscipline(q: seq<Msg>)
    requires Unambiguous(q) && OneInFlight(q)
    ensures Unambiguous(Cleaned(q)) && OneInFlight(Cleaned(q))
    ensures forall ctype, id :: Admits(q, ctype, id) ==> Admits(Cleaned(q), ctype, id)
  {
    var k := CompletePrefix(q);
    forall i | 0 <= i < |q| - k
      ensures Cleaned(q)[i] == q[k + i]
    {
    }
  }

  lemma AppendDiscipline(q: seq<Msg>, image: bytes, ctype: int, id: uint16)
    requires Unambiguous(q) && OneInFlight(q) && Admits(q, ctype, id)
    ensures Unambiguous(q + [Msg(image, Unsent, ctype, id, 0)]) && OneInFlight(q + [Msg(image, Unsent, ctype, id, 0)])
  {
    var q' := q + [Msg(image, Unsent, ctype, id, 0)];
    forall i, j | 0 <= i < j < |q'|
      ensures !Clash(q'[i], q'[j])
    {
      if j == |q| {
        assert !Clash(q[i], Msg([], Unsent, ctype, id, 0));
      }
    }
  }

  lemma CompleteDiscipline(q: seq<Msg>, i: nat)
    requires Unambiguous(q) && OneInFlight(q) && i < |q|
    ensures Unambiguous(SetComplete(q, i)) && OneInFlight(SetComplete(q, i))
    ensures forall ctype, id :: Admits(q, ctype, id) ==> Admits(SetComplete(q, i), ctype, id)
  {
  }

  lemma SentKeepsQos2(m: Msg, stamp: int)
    requires |m.image| > 0 && !m.state.Complete?
    ensures LiveQos2(AfterSend(m, stamp)) <==> LiveQos2(m)
    ensures IsQos2(AfterSend(m, stamp)) <==> IsQos2(m)
  {
    DupKeepsQos(m.image);
  }

  lemma TransmitDiscipline(q: seq<Msg>, i: nat, stamp: int)
    requires Unambiguous(q) && OneInFlight(q) && i < |q| && |q[i].image| > 0 && !q[i].state.Complete?
    requires !(LiveQos2(q[i]) && Inflight(q, i))
    ensures Unambiguous(q[i := AfterSend(q[i], stamp)]) && OneInFlight(q[i := AfterSend(q[i], stamp)])
    ensures Inflight(q[i := AfterSend(q[i], stamp)], i + 1) <==> Inflight(q, i) || LiveQos2(q[i])
  {
    var m := AfterSend(q[i], stamp);
    var q' := q[i := m];
    SentKeepsQos2(q[i], stamp);
    assert forall j :: 0 <= j < |q| ==> (LiveQos2(q'[j]) <==> LiveQos2(q[j])) && (IsQos2(q'[j]) <==> IsQos2(q[j]));
  }
}
