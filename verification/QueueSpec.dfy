/** The message queue as a sequence of messages: what the operations of `MessageQueue` compute. */
module QueueSpec {
  import opened Options
  import opened MqttTypes

  datatype QueueState = Unsent | AwaitingAck | Complete

  /** A queued message; `sentAt` counts only while an acknowledgement is awaited and is 0 otherwise. */
  datatype Msg = Msg(image: bytes, state: QueueState, ctype: int, id: uint16, sentAt: int)

  /** Messages lie back to back: message i starts where the i messages before it end. */
  function Offset(q: seq<Msg>, i: nat): nat
    requires i <= |q|
  {
    if i == 0 then 0 else Offset(q, i - 1) + |q[i - 1].image|
  }

  /** The bytes taken by the records of n messages. */
  function RecordBytes(recordSize: nat, n: nat): nat {
    n * recordSize
  }

  /** `curr_sz`: the bytes between the last message and the record of the message to come. */
  function Room(memSize: nat, recordSize: nat, q: seq<Msg>): nat {
    var end := memSize - RecordBytes(recordSize, |q| + 1);
    if Offset(q, |q|) >= end then 0 else end - Offset(q, |q|)
  }

  /** The number of COMPLETE messages at the front. */
  function CompletePrefix(q: seq<Msg>): (k: nat)
    ensures k <= |q|
    ensures forall i :: 0 <= i < k ==> q[i].state.Complete?
    ensures k < |q| ==> !q[k].state.Complete?
  {
    if q == [] || !q[0].state.Complete? then 0 else 1 + CompletePrefix(q[1..])
  }

  function Cleaned(q: seq<Msg>): seq<Msg> {
    q[CompletePrefix(q)..]
  }

  predicate Matches(m: Msg, ctype: int, id: Option<uint16>) {
    m.ctype == ctype && match id case None => !m.state.Complete? case Some(n) => m.id == n
  }

  /** The first message, in registration order, that an acknowledgement refers to. */
  function Find(q: seq<Msg>, ctype: int, id: Option<uint16>): (i: Option<nat>)
    ensures i.Some? ==> i.value < |q| && Matches(q[i.value], ctype, id)
    ensures i.Some? ==> forall j :: 0 <= j < i.value ==> !Matches(q[j], ctype, id)
    ensures i.None? ==> forall j :: 0 <= j < |q| ==> !Matches(q[j], ctype, id)
  {
    if q == [] then None
    else if Matches(q[0], ctype, id) then Some(0)
    else
      match Find(q[1..], ctype, id)
      case None => None
      case Some(i) => Some(i + 1)
  }

  function SetComplete(q: seq<Msg>, i: nat): seq<Msg>
    requires i < |q|
  {
    q[i := q[i].(state := Complete, sentAt := 0)]
  }

  function SetSent(q: seq<Msg>, i: nat, image: bytes, sentAt: int): seq<Msg>
    requires i < |q|
  {
    q[i := q[i].(image := image, state := AwaitingAck, sentAt := sentAt)]
  }

  /** Bit 3 of the first byte, set. */
  function WithDup(image: bytes): (r: bytes)
    requires |image| > 0
    ensures |r| == |image| && r[1..] == image[1..]
  {
    if image[0] / 8 % 2 == 1 then image else image[0 := image[0] + 8]
  }

  // ---- Facts about offsets ----

  lemma {:induction false} OffsetMonotone(q: seq<Msg>, i: nat, j: nat)
    requires i <= j <= |q|
    ensures Offset(q, i) <= Offset(q, j)
    ensures i < j ==> Offset(q, i) + |q[i].image| <= Offset(q, j)
    decreases j
  {
    if i < j {
      OffsetMonotone(q, i, j - 1);
    }
  }

  lemma {:induction false} OffsetSameSizes(q: seq<Msg>, p: seq<Msg>, i: nat)
    requires i <= |q| && i <= |p| && forall j :: 0 <= j < i ==> |q[j].image| == |p[j].image|
    ensures Offset(q, i) == Offset(p, i)
  {
    if i > 0 {
      OffsetSameSizes(q, p, i - 1);
    }
  }

  lemma {:induction false} OffsetDrop(q: seq<Msg>, k: nat, i: nat)
    requires k + i <= |q|
    ensures Offset(q[k..], i) == Offset(q, k + i) - Offset(q, k)
  {
    if i > 0 {
      OffsetDrop(q, k, i - 1);
    }
  }

  lemma {:induction false} OffsetTotal(q: seq<Msg>, p: seq<Msg>)
    requires |q| == |p| && forall j :: 0 <= j < |q| ==> |q[j].image| == |p[j].image|
    ensures Offset(q, |q|) == Offset(p, |p|)
  {
    OffsetSameSizes(q, p, |q|);
  }

  lemma {:induction false} OffsetAppend(q: seq<Msg>, m: Msg)
    ensures Offset(q + [m], |q|) == Offset(q, |q|)
    ensures Offset(q + [m], |q| + 1) == Offset(q, |q|) + |m.image|
  {
    OffsetSameSizes(q, q + [m], |q|);
  }

  // ---- Records and the bytes they point at ----

  datatype Record = Record(start: nat, size: nat, state: QueueState, sentAt: int, ctype: int, id: uint16)

  /** The record of a message whose bytes start at `start` in `mem`. */
  predicate Stands(r: Record, start: nat, m: Msg, mem: bytes) {
    && r.start == start && r.size == |m.image| > 0 && start + r.size <= |mem|
    && mem[start..start + r.size] == m.image
    && r.state == m.state && r.ctype == m.ctype && r.id == m.id
    && m.sentAt == if r.state.AwaitingAck? then r.sentAt else 0
  }

  /** Message i, whose record is counted from the end: the first registered is the last of `recs`. */
  predicate Holds(recs: seq<Record>, mem: bytes, q: seq<Msg>, i: nat)
    requires |recs| == |q| && i < |q|
  {
    Stands(recs[|q| - 1 - i], Offset(q, i), q[i], mem)
  }

  ghost predicate Represents(recs: seq<Record>, mem: bytes, q: seq<Msg>) {
    |recs| == |q| && forall i {:trigger Holds(recs, mem, q, i)} :: 0 <= i < |q| ==> Holds(recs, mem, q, i)
  }

  /** Part of a run of equal bytes. */
  lemma {:induction false} SubRun(a: bytes, b: bytes, at: nat, lo: nat, hi: nat, s: nat, e: nat)
    requires lo <= s <= e <= hi <= |a| && at + (hi - lo) <= |b|
    requires b[at..at + (hi - lo)] == a[lo..hi]
    ensures b[at + (s - lo)..at + (e - lo)] == a[s..e]
  {
    var x, y := b[at + (s - lo)..at + (e - lo)], a[s..e];
    forall k | 0 <= k < |x|
      ensures x[k] == y[k]
    {
      assert b[at..at + (hi - lo)][s - lo + k] == a[lo..hi][s - lo + k];
    }
  }

  lemma {:induction false} RepresentsAppend(recs: seq<Record>, mem: bytes, q: seq<Msg>, r: Record, m: Msg)
    requires Represents(recs, mem, q) && Stands(r, Offset(q, |q|), m, mem)
    ensures Represents([r] + recs, mem, q + [m])
  {
    var q', recs' := q + [m], [r] + recs;
    forall i | 0 <= i < |q'|
      ensures Holds(recs', mem, q', i)
    {
      OffsetSameSizes(q, q', i);
      if i < |q| {
        assert Holds(recs, mem, q, i);
      }
    }
  }

  /** Bytes behind the messages do not matter. */
  lemma {:induction false} RepresentsFrame(recs: seq<Record>, mem: bytes, mem': bytes, q: seq<Msg>)
    requires Represents(recs, mem, q)
    requires Offset(q, |q|) <= |mem| && Offset(q, |q|) <= |mem'| && mem'[..Offset(q, |q|)] == mem[..Offset(q, |q|)]
    ensures Represents(recs, mem', q)
  {
    forall i | 0 <= i < |q|
      ensures Holds(recs, mem', q, i)
    {
      assert Holds(recs, mem, q, i);
      OffsetMonotone(q, i, |q|);
      var r := recs[|q| - 1 - i];
      SubRun(mem, mem', 0, 0, Offset(q, |q|), r.start, r.start + r.size);
    }
  }

  /** Without its k oldest records, and with bytes and starts moved to the front, the rest still stands. */
  lemma {:induction false} RepresentsDrop(recs: seq<Record>, mem: bytes, q: seq<Msg>, k: nat,
                                          recs': seq<Record>, mem': bytes)
    requires Represents(recs, mem, q) && k <= |q| && |mem'| == |mem|
    requires Offset(q, k) <= Offset(q, |q|) <= |mem|
    requires mem'[..Offset(q, |q|) - Offset(q, k)] == mem[Offset(q, k)..Offset(q, |q|)]
    requires |recs'| == |q| - k
    requires forall j :: 0 <= j < |recs'| ==> recs[j].start >= Offset(q, k)
    requires forall j :: 0 <= j < |recs'| ==> recs'[j] == recs[j].(start := recs[j].start - Offset(q, k))
    ensures Represents(recs', mem', q[k..])
  {
    var q', base, total := q[k..], Offset(q, k), Offset(q, |q|);
    forall i | 0 <= i < |q'|
      ensures Holds(recs', mem', q', i)
    {
      assert Holds(recs, mem, q, k + i);
      OffsetDrop(q, k, i);
      OffsetMonotone(q, k + i, |q|);
      var r := recs[|q| - 1 - (k + i)];
      SubRun(mem, mem', 0, base, total, r.start, r.start + r.size);
      assert recs'[|q'| - 1 - i] == r.(start := r.start - base);
    }
  }

  /** One record and its message change; size and place do not. */
  lemma {:induction false} RepresentsUpdate(recs: seq<Record>, mem: bytes, q: seq<Msg>, i: nat, r: Record, m: Msg)
    requires Represents(recs, mem, q) && i < |q|
    requires |m.image| == |q[i].image| && Stands(r, Offset(q, i), m, mem)
    ensures Represents(recs[|q| - 1 - i := r], mem, q[i := m])
  {
    var q', recs' := q[i := m], recs[|q| - 1 - i := r];
    forall j | 0 <= j < |q'|
      ensures Holds(recs', mem, q', j)
    {
      assert Holds(recs, mem, q, j);
      OffsetSameSizes(q, q', j);
    }
  }

  /** The bytes of message i change in place, and no others. */
  lemma {:induction false} RepresentsPatch(recs: seq<Record>, mem: bytes, mem': bytes, q: seq<Msg>, i: nat, image: bytes)
    requires Represents(recs, mem, q) && i < |q| && |image| == |q[i].image| && |mem'| == |mem|
    requires Offset(q, i) + |image| <= |mem| && mem'[Offset(q, i)..Offset(q, i) + |image|] == image
    requires mem'[..Offset(q, i)] == mem[..Offset(q, i)]
    requires mem'[Offset(q, i) + |image|..] == mem[Offset(q, i) + |image|..]
    ensures Represents(recs, mem', q[i := q[i].(image := image)])
  {
    var q', lo, hi := q[i := q[i].(image := image)], Offset(q, i), Offset(q, i) + |image|;
    forall j | 0 <= j < |q'|
      ensures Holds(recs, mem', q', j)
    {
      assert Holds(recs, mem, q, j);
      OffsetSameSizes(q, q', j);
      var r := recs[|q| - 1 - j];
      if j < i {
        OffsetMonotone(q, j, i);
        SubRun(mem, mem', 0, 0, lo, r.start, r.start + r.size);
      } else if j > i {
        OffsetMonotone(q, i, j);
        assert hi <= r.start <= r.start + r.size <= |mem|;
        assert mem'[hi..hi + (|mem| - hi)] == mem'[hi..] == mem[hi..] == mem[hi..|mem|];
        SubRun(mem, mem', hi, hi, |mem|, r.start, r.start + r.size);
      }
    }
  }
}
