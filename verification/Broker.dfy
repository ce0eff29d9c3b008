/**
 Client and broker together, over two byte streams in order. The broker answers every request it
 takes at most once, when and in what order it likes, and publishes what it likes; reads may cut its
 stream anywhere. As long as no response times out, the client never meets an acknowledgement it cannot
 place, and never takes a message for done that it has not sent.
 */
module Broker {
  import opened Options
  import opened MqttTypes
  import opened Packets
  import opened Responses
  import opened QueueSpec
  import opened Session
  import opened Ledger
  import opened Balance
  import opened Early
  import opened Stream
  import opened Runs
  import opened Progress
  import opened Promises

  /** The client; how many of its packets the broker has taken; all packets that the broker has sent. */
  datatype Joint = Joint(client: State, taken: nat, out: seq<Response>)

  /** The client makes a call; what reaches it is part of what the broker has sent. */
  ghost predicate ClientStep(cfg: Config, j: Joint, j': Joint) {
    && Steps(cfg, j.client, j'.client) && j'.taken == j.taken && j'.out == j.out
    && AllWellFormed(j.out) && j'.client.h.arrived <= EncodeAll(j.out)
  }

  /** The broker takes the next packet off the wire. */
  predicate TakeStep(j: Joint, j': Joint) {
    j.taken < |j.client.h.log| && j' == j.(taken := j.taken + 1)
  }

  /** The broker answers a request that it has taken more often than answered: any one, at any time. */
  predicate AnswerStep(j: Joint, j': Joint) {
    && j.taken <= |j.client.h.log| && |j'.out| == |j.out| + 1 && j' == j.(out := j.out + [j'.out[|j.out|]])
    && var r := j'.out[|j.out|];
       WellFormed(r) && AckKey(r).Some? && Acked(j.out, AckKey(r).value) < Sent(j.client.h.log[..j.taken], AckKey(r).value)
  }

  /** The broker publishes on its own account. */
  predicate PublishStep(j: Joint, j': Joint) {
    && |j'.out| == |j.out| + 1 && j' == j.(out := j.out + [j'.out[|j.out|]])
    && WellFormed(j'.out[|j.out|]) && j'.out[|j.out|].Publish?
  }

  ghost predicate JointStep(cfg: Config, j: Joint, j': Joint) {
    ClientStep(cfg, j, j') || TakeStep(j, j') || AnswerStep(j, j') || PublishStep(j, j')
  }

  ghost predicate JointStepAt(cfg: Config, run: seq<Joint>, i: nat)
    requires i < |run| - 1
  {
    JointStep(cfg, run[i], run[i + 1])
  }

  ghost predicate IsJointRun(cfg: Config, run: seq<Joint>) {
    && |run| > 0 && (exists t :: run[0] == Joint(Initial(t), 0, []))
    && forall i {:trigger JointStepAt(cfg, run, i)} :: 0 <= i < |run| - 1 ==> JointStepAt(cfg, run, i)
  }

  /** The broker has acknowledged no more than it has taken, and the client has received part of what it sent. */
  ghost predicate Served(j: Joint) {
    && j.taken <= |j.client.h.log| && AllWellFormed(j.out)
    && (forall k {:trigger Acked(j.out, k)} :: Acked(j.out, k) <= Sent(j.client.h.log[..j.taken], k))
    && j.client.h.arrived <= EncodeAll(j.out)
    && !EverOver(j.client.h.log, j.client.h.dispatched, j.client.h.marks)
  }

  ghost predicate JointInvariant(cfg: Config, j: Joint) {
    Invariant(cfg, j.client) && Served(j)
  }

  lemma Concat(a: bytes, b: bytes, c: bytes)
    ensures a + (b + c) == a + b + c
  {
  }

  lemma {:induction false} EncodeAppend(rs: seq<Response>, r: Response)
    requires AllWellFormed(rs) && WellFormed(r)
    ensures AllWellFormed(rs + [r]) && EncodeAll(rs + [r]) == EncodeAll(rs) + Encode(r)
    decreases |rs|
  {
    if rs != [] {
      var all := rs + [r];
      EncodeAppend(rs[1..], r);
      assert all[0] == rs[0] && all[1..] == rs[1..] + [r];
      Concat(Encode(rs[0]), EncodeAll(rs[1..]), Encode(r));
    } else {
      assert (rs + [r])[1..] == [];
      assert EncodeAll(rs + [r]) == Encode(r) + [];
    }
  }

  /** What the client had received when packet i came, the broker had been asked for. */
  lemma NeverOver(cfg: Config, j: Joint, j': Joint, i: nat)
    requires JointInvariant(cfg, j) && ClientStep(cfg, j, j') && i < |j'.client.h.dispatched|
    ensures !OverAt(j'.client.h.log, j'.client.h.dispatched, j'.client.h.marks, i)
  {
    var h, h' := j.client.h, j'.client.h;
    StepKeeps(cfg, j.client, j'.client);
    StepForward(cfg, j.client, j'.client);
    StepMarks(cfg, j.client, j'.client);
    if i < |h.dispatched| {
      assert h'.log[..h.marks[i]] == h.log[..h.marks[i]] && h'.dispatched[..i + 1] == h.dispatched[..i + 1];
      assert !OverAt(h.log, h.dispatched, h.marks, i);
    } else {
      Dispatched(cfg, j'.client, j'.out);
      forall k
        ensures Acked(h'.dispatched[..i + 1], k) <= Sent(h'.log, k)
      {
        AckedPrefix(h'.dispatched[..i + 1], j.out, k);
        assert Acked(j.out, k) <= Sent(h.log[..j.taken], k);
        assert h'.log[..j.taken] == h.log[..j.taken];
        SentPrefix(h'.log, j.taken, k);
      }
      assert h'.log[..|h'.log|] == h'.log;
    }
  }

  lemma ClientStepKeeps(cfg: Config, j: Joint, j': Joint)
    requires JointInvariant(cfg, j) && ClientStep(cfg, j, j')
    ensures JointInvariant(cfg, j')
  {
    StepKeeps(cfg, j.client, j'.client);
    StepForward(cfg, j.client, j'.client);
    assert j'.client.h.log[..j.taken] == j.client.h.log[..j.taken];
    forall i: nat
      ensures !OverAt(j'.client.h.log, j'.client.h.dispatched, j'.client.h.marks, i)
    {
      if i < |j'.client.h.dispatched| {
        NeverOver(cfg, j, j', i);
      }
    }
  }

  lemma TakeStepKeeps(j: Joint, j': Joint)
    requires Served(j) && TakeStep(j, j')
    ensures Served(j')
  {
    var log, n := j.client.h.log, j.taken;
    assert log[..n + 1] == log[..n] + [log[n]];
    forall k
      ensures Acked(j'.out, k) <= Sent(log[..n + 1], k)
    {
      assert Acked(j.out, k) <= Sent(log[..n], k);
    }
  }

  /** The broker sends a packet; if it is an acknowledgement, one is outstanding. */
  lemma SendingKeeps(j: Joint, r: Response)
    requires Served(j) && WellFormed(r)
    requires AckKey(r).Some? ==> Acked(j.out, AckKey(r).value) < Sent(j.client.h.log[..j.taken], AckKey(r).value)
    ensures Served(j.(out := j.out + [r]))
  {
    EncodeAppend(j.out, r);
    forall k
      ensures Acked(j.out + [r], k) <= Sent(j.client.h.log[..j.taken], k)
    {
      AckedAppend(j.out, r, k);
      assert Acked(j.out, k) <= Sent(j.client.h.log[..j.taken], k);
    }
  }

  lemma JointStepKeeps(cfg: Config, j: Joint, j': Joint)
    requires JointInvariant(cfg, j) && JointStep(cfg, j, j')
    ensures JointInvariant(cfg, j')
  {
    if ClientStep(cfg, j, j') {
      ClientStepKeeps(cfg, j, j');
    } else if TakeStep(j, j') {
      TakeStepKeeps(j, j');
    } else {
      SendingKeeps(j, j'.out[|j.out|]);
    }
  }

  lemma InitiallyServed(cfg: Config, t: int)
    ensures JointInvariant(cfg, Joint(Initial(t), 0, []))
  {
    InitialInvariant(cfg, t);
  }

  lemma {:induction false} JointRunInvariant(cfg: Config, run: seq<Joint>, n: nat)
    requires IsJointRun(cfg, run) && n < |run|
    ensures JointInvariant(cfg, run[n])
  {
    if n == 0 {
      var t :| run[0] == Joint(Initial(t), 0, []);
      InitiallyServed(cfg, t);
    } else {
      JointRunInvariant(cfg, run, n - 1);
      assert JointStepAt(cfg, run, n - 1);
      JointStepKeeps(cfg, run[n - 1], run[n]);
    }
  }

  lemma Dispatched(cfg: Config, s: State, out: seq<Response>)
    requires Invariant(cfg, s) && AllWellFormed(out) && s.h.arrived <= EncodeAll(out)
    ensures s.h.dispatched <= out
  {
    InStepNow(s.h.arrived, s.h.dispatched, s.inbox + s.pending);
    PrefixParses(s.h.arrived, out);
  }

  /** The client has dispatched, in order, part of what the broker sent. */
  lemma DispatchedIsPrefix(cfg: Config, run: seq<Joint>, n: nat)
    requires IsJointRun(cfg, run) && n < |run|
    ensures run[n].client.h.dispatched <= run[n].out
  {
    JointRunInvariant(cfg, run, n);
    Dispatched(cfg, run[n].client, run[n].out);
  }

  /** No reachable state without a response timeout raises the error of an unknown acknowledgement. */
  lemma NoUnknownAck(cfg: Config, run: seq<Joint>, n: nat)
    requires IsJointRun(cfg, run) && n < |run| && run[n].client.timeouts == 0
    ensures run[n].client.error != ERROR_ACK_OF_UNKNOWN
  {
    JointRunInvariant(cfg, run, n);
    var j := run[n];
    var h := j.client.h;
    Dispatched(cfg, j.client, j.out);
    forall k
      ensures Acked(h.dispatched, k) <= Sent(h.log, k)
    {
      AckedPrefix(h.dispatched, j.out, k);
      assert Acked(j.out, k) <= Sent(h.log[..j.taken], k);
      SentPrefix(h.log, j.taken, k);
    }
  }

  /** In such a state whatever is COMPLETE, or has left the queue, was sent. */
  lemma CompleteWasSent(cfg: Config, run: seq<Joint>, n: nat, u: nat)
    requires IsJointRun(cfg, run) && n < |run| && run[n].client.timeouts == 0 && Rank(run[n].client, u) >= 3
    ensures InLog(run[n].client.h.log, u)
  {
    JointRunInvariant(cfg, run, n);
  }

  /** Everything the broker sent and the client was given arrives: once the stream is in, all of it is dispatched. */
  lemma AllDispatched(cfg: Config, run: seq<Joint>, n: nat)
    requires IsJointRun(cfg, run) && n < |run| && Idle(run[n].client)
    requires AllWellFormed(run[n].out) && run[n].client.h.arrived == EncodeAll(run[n].out)
    ensures run[n].client.h.dispatched == run[n].out && run[n].client.inbox == []
  {
    JointRunInvariant(cfg, run, n);
    var s := run[n].client;
    InStepNow(s.h.arrived, s.h.dispatched, s.inbox + s.pending);
    PrefixParses(s.h.arrived, run[n].out);
    IdleRest(s);
  }
}
