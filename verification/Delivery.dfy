/** At-most-once delivery of QoS 2 PUBLISHes to the application (section 4.3.3 of MQTT 3.1.1). */
module Delivery {
  import opened Options
  import opened MqttTypes
  import opened Responses
  import opened QueueSpec
  import opened Session

  predicate DeliversQos2(e: Event, id: uint16) {
    e.Delivered? && e.publish.Publish? && e.publish.qos == 2 && e.publish.id == id
  }

  predicate ReleasedBetween(events: seq<Event>, i: nat, j: nat, id: uint16) {
    exists k :: i < k < j && k < |events| && events[k] == Released(id)
  }

  /** Between two deliveries with the same id a PUBREL for it was accepted. */
  predicate AtMostOnce(events: seq<Event>) {
    forall i, j, id :: 0 <= i < j < |events| && DeliversQos2(events[i], id) && DeliversQos2(events[j], id) ==>
      ReleasedBetween(events, i, j, id)
  }

  /** A delivery with this id has not been followed by a PUBREL yet. */
  predicate Open(events: seq<Event>, id: uint16) {
    exists i :: 0 <= i < |events| && DeliversQos2(events[i], id) && !ReleasedBetween(events, i, |events|, id)
  }

  predicate IsGuard(m: Msg, id: uint16) {
    m.ctype == PUBREC && m.id == id && !m.state.Complete?
  }

  predicate HasGuard(q: seq<Msg>, id: uint16) {
    exists i :: 0 <= i < |q| && IsGuard(q[i], id)
  }

  /** The PUBREC records that are not COMPLETE are those of the open deliveries. */
  ghost predicate Guarded(q: seq<Msg>, events: seq<Event>) {
    forall id: uint16 {:trigger Open(events, id)} {:trigger HasGuard(q, id)} :: Open(events, id) <==> HasGuard(q, id)
  }

  /** A PUBREC record that is COMPLETE and has not left the queue yet. */
  predicate HasStale(q: seq<Msg>, id: uint16) {
    exists i :: 0 <= i < |q| && q[i].ctype == PUBREC && q[i].id == id && q[i].state.Complete?
  }

  /** A search for a PUBREC record meets guards and stale records alike. */
  lemma FindsEither(q: seq<Msg>, id: uint16)
    ensures Find(q, PUBREC, Some(id)).Some? <==> HasGuard(q, id) || HasStale(q, id)
  {
    match Find(q, PUBREC, Some(id))
    case Some(i) => assert q[i].state.Complete? || IsGuard(q[i], id);
    case None =>
      forall i | 0 <= i < |q|
        ensures !(q[i].ctype == PUBREC && q[i].id == id)
      {
        assert !Matches(q[i], PUBREC, Some(id));
      }
  }

  // ---- What the steps do to the guards ----

  ghost predicate SameGuards(q: seq<Msg>, q': seq<Msg>) {
    forall id: uint16 {:trigger HasGuard(q, id)} {:trigger HasGuard(q', id)} :: HasGuard(q, id) <==> HasGuard(q', id)
  }

  lemma CleanGuards(q: seq<Msg>)
    ensures SameGuards(q, Cleaned(q))
  {
    var k := CompletePrefix(q);
    forall id
      ensures HasGuard(q, id) <==> HasGuard(Cleaned(q), id)
    {
      if i :| 0 <= i < |q| && IsGuard(q[i], id) {
        assert IsGuard(Cleaned(q)[i - k], id);
      }
      if i :| 0 <= i < |Cleaned(q)| && IsGuard(Cleaned(q)[i], id) {
        assert IsGuard(q[k + i], id);
      }
    }
  }

  lemma AppendGuards(q: seq<Msg>, m: Msg, id: uint16)
    ensures HasGuard(q + [m], id) <==> HasGuard(q, id) || IsGuard(m, id)
  {
    var q' := q + [m];
    if i :| 0 <= i < |q| && IsGuard(q[i], id) {
      assert IsGuard(q'[i], id);
    }
    if IsGuard(m, id) {
      assert IsGuard(q'[|q|], id);
    }
  }

  /** Message i changes, and is a guard afterwards exactly if it was one. */
  lemma UpdateGuards(q: seq<Msg>, i: nat, m: Msg)
    requires i < |q| && m.ctype == q[i].ctype && m.id == q[i].id
    requires q[i].ctype == PUBREC ==> (m.state.Complete? <==> q[i].state.Complete?)
    ensures SameGuards(q, q[i := m])
  {
    var q' := q[i := m];
    forall id
      ensures HasGuard(q, id) <==> HasGuard(q', id)
    {
      if j :| 0 <= j < |q| && IsGuard(q[j], id) {
        assert IsGuard(q'[j], id);
      }
      if j :| 0 <= j < |q'| && IsGuard(q'[j], id) {
        assert IsGuard(q[j], id);
      }
    }
  }

  /** Completing the only PUBREC record with an id takes away its guard and no other. */
  lemma CompleteGuards(q: seq<Msg>, i: nat, id: uint16)
    requires i < |q| && q[i].ctype == PUBREC
    requires forall j :: 0 <= j < |q| && j != i && q[j].ctype == PUBREC ==> q[j].id != q[i].id
    ensures HasGuard(SetComplete(q, i), id) <==> HasGuard(q, id) && id != q[i].id
  {
    var q' := SetComplete(q, i);
    if j :| 0 <= j < |q'| && IsGuard(q'[j], id) {
      assert j != i && IsGuard(q[j], id);
    }
    if id != q[i].id {
      if j :| 0 <= j < |q| && IsGuard(q[j], id) {
        assert IsGuard(q'[j], id);
      }
    }
  }

  // ---- What the events do to the open deliveries ----

  lemma BetweenAppend(events: seq<Event>, e: Event, i: nat, j: nat, id: uint16)
    requires j <= |events|
    ensures ReleasedBetween(events + [e], i, j, id) <==> ReleasedBetween(events, i, j, id)
    ensures ReleasedBetween(events + [e], i, |events| + 1, id) <==>
            ReleasedBetween(events, i, |events|, id) || (i < |events| && e == Released(id))
  {
    var events' := events + [e];
    assert forall k :: 0 <= k < |events| ==> events'[k] == events[k];
    assert events'[|events|] == e;
  }

  lemma OpenAppend(events: seq<Event>, e: Event, id: uint16)
    ensures Open(events + [e], id) <==> DeliversQos2(e, id) || (Open(events, id) && e != Released(id))
  {
    var events' := events + [e];
    assert events'[|events|] == e;
    if i :| 0 <= i < |events| && DeliversQos2(events[i], id) && !ReleasedBetween(events, i, |events|, id) {
      BetweenAppend(events, e, i, |events|, id);
      assert events'[i] == events[i];
    }
    if i :| 0 <= i < |events'| && DeliversQos2(events'[i], id) && !ReleasedBetween(events', i, |events'|, id) {
      if i < |events| {
        BetweenAppend(events, e, i, |events|, id);
        assert events'[i] == events[i];
      }
    }
  }

  /** A PUBLISH is delivered, at QoS 2 only if no delivery with its id is open; or a PUBREL is accepted. */
  lemma EventKeeps(events: seq<Event>, e: Event)
    requires AtMostOnce(events) && forall id :: DeliversQos2(e, id) ==> !Open(events, id)
    ensures AtMostOnce(events + [e])
  {
    var events' := events + [e];
    forall i, j, id | 0 <= i < j < |events'| && DeliversQos2(events'[i], id) && DeliversQos2(events'[j], id)
      ensures ReleasedBetween(events', i, j, id)
    {
      BetweenAppend(events, e, i, j, id);
      assert events'[i] == events[i];
      if j == |events| {
        assert !Open(events, id);
      }
    }
  }
}
