/**
 The queue of outgoing packets. Packet bytes fill one buffer from the front and fixed-size records
 fill the same buffer from the back. `mem` holds the bytes and `slots` the records. Slot j stands for
 the record at byte `mem.Length - (slots.Length - j) * recordSize`, and `slots.Length` for the end of
 the buffer, so the pointer arithmetic of the source is index arithmetic here.
 */
module MessageQueue {
  import opened Options
  import opened MqttTypes
  import opened QueueSpec

  method MoveBytes(a: array<byte>, dst: nat, src: nat, n: nat)
    requires dst + n <= a.Length && src + n <= a.Length
    modifies a
    ensures a[dst..dst + n] == old(a[src..src + n])
    ensures a[..dst] == old(a[..dst]) && a[dst + n..] == old(a[dst + n..])
  {
    forall j | 0 <= j < n {
      a[dst + j] := a[src + j];
    }
  }

  method MoveRecords(a: array<Record>, dst: nat, src: nat, n: nat)
    requires dst + n <= a.Length && src + n <= a.Length
    modifies a
    ensures a[dst..dst + n] == old(a[src..src + n])
  {
    forall j | 0 <= j < n {
      a[dst + j] := a[src + j];
    }
  }

  lemma RecordsFit(memSize: nat, recordSize: nat, n: nat)
    requires recordSize > 0
    ensures RecordBytes(recordSize, n) <= memSize <==> n <= memSize / recordSize
    ensures RecordBytes(recordSize, n + 1) == RecordBytes(recordSize, n) + recordSize
  {
    var d := memSize / recordSize;
    assert d * recordSize <= memSize < (d + 1) * recordSize;
    if n <= d {
      assert n * recordSize <= d * recordSize;
    } else {
      assert n * recordSize >= (d + 1) * recordSize;
    }
  }

  lemma FewerRecords(recordSize: nat, m: nat, n: nat)
    requires m <= n
    ensures RecordBytes(recordSize, m) <= RecordBytes(recordSize, n)
  {
    assert m * recordSize <= n * recordSize;
  }

  class MessageQueue {
    const recordSize: nat
    const mem: array<byte>
    const slots: array<Record>
    /** Byte offset at which the next packet is packed. */
    var curr: nat
    /** The number of bytes that may be written there. */
    var currSz: nat
    /** Slot of the record that was registered last. */
    var tail: nat
    /** The queued messages in registration order. */
    ghost var msgs: seq<Msg>

    /** `mqtt_mq_get`: the slot of message i. */
    function Slot(i: int): int {
      slots.Length - 1 - i
    }

    /** `mqtt_mq_length`. */
    function Count(): int
      reads this
    {
      slots.Length - tail
    }

    ghost predicate Valid()
      reads this, mem, slots
    {
      && recordSize > 0 && slots.Length == mem.Length / recordSize
      && |msgs| <= slots.Length && tail == slots.Length - |msgs|
      && curr == Offset(msgs, |msgs|) && curr + RecordBytes(recordSize, |msgs|) <= mem.Length
      && currSz == Room(mem.Length, recordSize, msgs)
      && Represents(slots[tail..], mem[..], msgs)
    }

    /**
     Packets and records never overlap: packet i ends where packet i + 1 begins and all lie below
     `curr`, the room behind `curr` ends where the record begins that would be registered next, and
     that record lies below all queued ones.
     */
    lemma Layout(i: nat)
      requires Valid() && i < |msgs|
      ensures slots[Slot(i)].start + slots[Slot(i)].size == if i + 1 < |msgs| then slots[Slot(i + 1)].start else curr
      ensures slots[Slot(0)].start == 0 && slots[Slot(i)].size == |msgs[i].image| > 0
      ensures if curr + (|msgs| + 1) * recordSize >= mem.Length then currSz == 0
              else curr + currSz + (|msgs| + 1) * recordSize == mem.Length
    {
      assert Holds(slots[tail..], mem[..], msgs, 0);
      assert Holds(slots[tail..], mem[..], msgs, i);
      if i + 1 < |msgs| {
        assert Holds(slots[tail..], mem[..], msgs, i + 1);
      }
      RoomFits();
    }

    lemma RoomFits()
      requires Valid()
      ensures curr + currSz + RecordBytes(recordSize, |msgs|) <= mem.Length
      ensures currSz > 0 ==> curr + currSz + RecordBytes(recordSize, |msgs| + 1) == mem.Length && tail > 0
      ensures currSz == 0 ==> curr + RecordBytes(recordSize, |msgs| + 1) >= mem.Length
    {
      RecordsFit(mem.Length, recordSize, |msgs|);
      RecordsFit(mem.Length, recordSize, |msgs| + 1);
    }

    /** `mqtt_mq_currsz`. */
    method RoomLeft() returns (n: nat)
      requires recordSize > 0 && tail <= slots.Length && |msgs| == slots.Length - tail
      requires curr == Offset(msgs, |msgs|)
      ensures n == Room(mem.Length, recordSize, msgs)
    {
      var end := mem.Length - (slots.Length - (tail - 1)) * recordSize;
      n := if curr >= end then 0 else end - curr;
    }

    /** `mqtt_mq_init`. */
    constructor (memSize: nat, recordSize: nat)
      requires recordSize > 0
      ensures Valid() && msgs == [] && fresh(mem) && fresh(slots)
      ensures mem.Length == memSize && this.recordSize == recordSize
    {
      this.recordSize := recordSize;
      mem := new byte[memSize](_ => 0);
      slots := new Record[memSize / recordSize](_ => Record(0, 0, Unsent, 0, 0, 0));
      curr := 0;
      tail := memSize / recordSize;
      msgs := [];
      currSz := 0;
      new;
      currSz := RoomLeft();
    }

    /**
     Registers the `nbytes` bytes just packed at `curr`. Type, id and time of the new record are
     whatever its memory held, here `stale`, until the caller sets them.
     */
    method Register(nbytes: nat, stale: Record)
      requires Valid() && 0 < nbytes <= currSz
      modifies this`curr, this`currSz, this`tail, this`msgs, slots
      ensures Valid()
      ensures msgs == old(msgs) + [Msg(old(mem[curr..curr + nbytes]), Unsent, stale.ctype, stale.id, 0)]
    {
      RoomFits();
      RecordsFit(mem.Length, recordSize, |msgs| + 1);
      ghost var m := Msg(mem[curr..curr + nbytes], Unsent, stale.ctype, stale.id, 0);
      ghost var recs := slots[tail..];
      var r := stale.(start := curr, size := nbytes, state := Unsent);
      OffsetAppend(msgs, m);
      assert mem[curr..curr + nbytes] == mem[..][curr..curr + nbytes];
      RepresentsAppend(recs, mem[..], msgs, r, m);
      tail := tail - 1;
      slots[tail] := r;
      assert slots[tail..] == [r] + recs;
      curr := curr + nbytes;
      msgs := msgs + [m];
      currSz := RoomLeft();
    }

    /** Drops the longest prefix of COMPLETE messages and closes the gap at the front. */
    method Clean()
      requires Valid()
      modifies this`curr, this`currSz, this`tail, this`msgs, mem, slots
      ensures Valid() && msgs == Cleaned(old(msgs))
      ensures mem[old(curr)..] == old(mem[curr..])
    {
      var newHead := slots.Length - 1;
      ghost var k := 0;
      while newHead >= tail
        invariant newHead == Slot(k) && k <= |msgs|
        invariant forall i :: 0 <= i < k ==> msgs[i].state.Complete?
      {
        assert Holds(slots[tail..], mem[..], msgs, k);
        assert slots[newHead].state == msgs[k].state;
        if slots[newHead].state != Complete {
          break;
        }
        newHead := newHead - 1;
        k := k + 1;
      }
      PrefixLength(msgs, k);
      if newHead < tail {
        curr := 0;
        tail := slots.Length;
        msgs := [];
        currSz := RoomLeft();
        return;
      } else if newHead == slots.Length - 1 {
        return;
      }
      Shift(newHead, k);
    }

    static lemma {:induction false} PrefixLength(q: seq<Msg>, k: nat)
      requires k <= |q| && forall i :: 0 <= i < k ==> q[i].state.Complete?
      requires k < |q| ==> !q[k].state.Complete?
      ensures CompletePrefix(q) == k
    {
      if k > 0 {
        PrefixLength(q[1..], k - 1);
      }
    }

    /** The part of `Clean` that moves: k messages go, the record of the first to stay is at `newHead`. */
    method Shift(newHead: nat, ghost k: nat)
      requires Valid() && 0 < k < |msgs| && newHead == Slot(k)
      modifies this`curr, this`currSz, this`tail, this`msgs, mem, slots
      ensures Valid() && msgs == old(msgs)[k..]
      ensures mem[old(curr)..] == old(mem[curr..])
    {
      ghost var q, bytes, recs := msgs, mem[..], slots[tail..];
      assert Holds(recs, bytes, q, k);
      var removing := slots[newHead].start;
      MoveOut(newHead, removing, k);
      Rebase(removing, Count(), recs, q, bytes, k);
      RepresentsDrop(recs, bytes, q, k, slots[tail..], mem[..]);
      OffsetDrop(q, k, |q| - k);
      msgs := q[k..];
      FewerRecords(recordSize, |msgs|, |q|);
      currSz := RoomLeft();
    }

    /** Both memmoves: the bytes to the front, the records to the end. */
    method MoveOut(newHead: nat, removing: nat, ghost k: nat)
      requires Valid() && 0 < k < |msgs| && newHead == Slot(k) && removing == Offset(msgs, k)
      modifies this`curr, this`tail, mem, slots
      ensures old(tail) < tail && Count() == |msgs| - k && slots[tail..] == old(slots[tail..])[..|msgs| - k]
      ensures removing <= old(curr) && curr == old(curr) - removing
      ensures mem[..curr] == old(mem[removing..curr]) && mem[old(curr)..] == old(mem[curr..])
    {
      OffsetMonotone(msgs, k, |msgs|);
      var n := curr - removing;
      MoveBytes(mem, 0, removing, n);
      assert mem[old(curr)..] == mem[n..][removing..];
      curr := n;
      var newTailIdx := newHead - tail;
      var newTail := slots.Length - 1 - newTailIdx;
      ghost var recs := slots[tail..];
      assert slots[tail..tail + (newTailIdx + 1)] == recs[..newTailIdx + 1];
      MoveRecords(slots, newTail, tail, newTailIdx + 1);
      assert slots[newTail..] == slots[newTail..newTail + (newTailIdx + 1)];
      tail := newTail;
    }

    /** The loop that bumps back the start of every record that stays. */
    method Rebase(removing: nat, n: nat, ghost recs: seq<Record>, ghost q: seq<Msg>, ghost bytes: bytes, ghost k: nat)
      requires n == slots.Length - tail == |q| - k && k < |q|
      requires Represents(recs, bytes, q) && slots[tail..] == recs[..n] && removing == Offset(q, k)
      modifies slots
      ensures forall j :: 0 <= j < n ==> recs[j].start >= removing
      ensures forall j :: 0 <= j < n ==> slots[tail..][j] == recs[j].(start := recs[j].start - removing)
    {
      forall j | 0 <= j < n
        ensures recs[j].start >= removing
      {
        assert Holds(recs, bytes, q, |q| - 1 - j);
        OffsetMonotone(q, k, |q| - 1 - j);
      }
      for i := 0 to n
        invariant forall j :: 0 <= j < n - i ==> slots[tail + j] == recs[j]
        invariant forall j :: n - i <= j < n ==> slots[tail + j] == recs[j].(start := recs[j].start - removing)
      {
        assert Slot(i) == tail + (n - 1 - i) && slots[tail + (n - 1 - i)] == recs[n - 1 - i];
        slots[Slot(i)] := slots[Slot(i)].(start := slots[Slot(i)].start - removing);
      }
    }

    /** `mqtt_mq_find`. */
    method Find(ctype: int, id: Option<uint16>) returns (i: Option<nat>)
      requires Valid()
      ensures i == QueueSpec.Find(msgs, ctype, id)
    {
      var k := 0;
      while Slot(k) >= tail
        invariant 0 <= k <= |msgs|
        invariant forall j :: 0 <= j < k ==> !Matches(msgs[j], ctype, id)
      {
        assert Holds(slots[tail..], mem[..], msgs, k);
        var r := slots[Slot(k)];
        assert r == slots[tail..][|msgs| - 1 - k];
        if r.ctype == ctype {
          if (id.None? && r.state != Complete) || (id.Some? && id.value == r.id) {
            return Some(k);
          }
        }
        k := k + 1;
      }
      return None;
    }

    /** The loop of `__mqtt_next_pid` over the queue: does any record carry the id? */
    method Carries(id: uint16) returns (found: bool)
      requires Valid()
      ensures found <==> exists i :: 0 <= i < |msgs| && msgs[i].id == id
    {
      var k := 0;
      while Slot(k) >= tail
        invariant 0 <= k <= |msgs|
        invariant forall j :: 0 <= j < k ==> msgs[j].id != id
      {
        assert Holds(slots[tail..], mem[..], msgs, k);
        assert slots[Slot(k)] == slots[tail..][|msgs| - 1 - k];
        if slots[Slot(k)].id == id {
          assert msgs[k].id == id;
          return true;
        }
        k := k + 1;
      }
      return false;
    }

    /** The record of message i. */
    method Get(i: nat) returns (r: Record)
      requires Valid() && i < |msgs|
      ensures r.state == msgs[i].state && r.ctype == msgs[i].ctype && r.id == msgs[i].id
      ensures r.state.AwaitingAck? ==> r.sentAt == msgs[i].sentAt
    {
      assert Holds(slots[tail..], mem[..], msgs, i);
      assert slots[Slot(i)] == slots[tail..][|msgs| - 1 - i];
      r := slots[Slot(i)];
    }

    lemma ImagesNotEmpty()
      requires Valid()
      ensures forall i :: 0 <= i < |msgs| ==> |msgs[i].image| > 0
    {
      forall i | 0 <= i < |msgs|
        ensures |msgs[i].image| > 0
      {
        assert Holds(slots[tail..], mem[..], msgs, i);
      }
    }

    /** Notes the time at which message i was sent. */
    method Stamp(i: nat, sentAt: int)
      requires Valid() && i < |msgs|
      modifies this`msgs, slots
      ensures Valid()
      ensures var m := old(msgs)[i];
              msgs == old(msgs)[i := m.(sentAt := if m.state.AwaitingAck? then sentAt else m.sentAt)]
    {
      assert Holds(slots[tail..], mem[..], msgs, i);
      assert slots[Slot(i)] == slots[tail..][|msgs| - 1 - i];
      var r := slots[Slot(i)];
      ghost var m := msgs[i];
      Store(i, r.(sentAt := sentAt), m.(sentAt := if m.state.AwaitingAck? then sentAt else m.sentAt));
    }

    /** Stores a record in the slot of message i; the packet bytes stay. */
    method Store(i: nat, r: Record, ghost m: Msg)
      requires Valid() && i < |msgs| && m.image == msgs[i].image
      requires Stands(r, Offset(msgs, i), m, mem[..])
      modifies this`msgs, slots
      ensures Valid() && msgs == old(msgs)[i := m]
    {
      ghost var recs := slots[tail..];
      RepresentsUpdate(recs, mem[..], msgs, i, r, m);
      OffsetTotal(msgs, msgs[i := m]);
      slots[Slot(i)] := r;
      msgs := msgs[i := m];
      assert slots[tail..] == recs[|msgs| - 1 - i := r];
    }

    method SetKind(i: nat, ctype: int, id: uint16)
      requires Valid() && i < |msgs|
      modifies this`msgs, slots
      ensures Valid() && msgs == old(msgs)[i := old(msgs)[i].(ctype := ctype, id := id)]
    {
      assert Holds(slots[tail..], mem[..], msgs, i);
      assert slots[Slot(i)] == slots[tail..][|msgs| - 1 - i];
      Store(i, slots[Slot(i)].(ctype := ctype, id := id), msgs[i].(ctype := ctype, id := id));
    }

    method MarkComplete(i: nat)
      requires Valid() && i < |msgs|
      modifies this`msgs, slots
      ensures Valid() && msgs == SetComplete(old(msgs), i)
    {
      assert Holds(slots[tail..], mem[..], msgs, i);
      assert slots[Slot(i)] == slots[tail..][|msgs| - 1 - i];
      Store(i, slots[Slot(i)].(state := Complete), msgs[i].(state := Complete, sentAt := 0));
    }

    method MarkAwaiting(i: nat, sentAt: int)
      requires Valid() && i < |msgs|
      modifies this`msgs, slots
      ensures Valid() && msgs == SetSent(old(msgs), i, old(msgs)[i].image, sentAt)
    {
      assert Holds(slots[tail..], mem[..], msgs, i);
      assert slots[Slot(i)] == slots[tail..][|msgs| - 1 - i];
      Store(i, slots[Slot(i)].(state := AwaitingAck, sentAt := sentAt), msgs[i].(state := AwaitingAck, sentAt := sentAt));
    }

    /** The first byte of message i, read through its record. */
    method FirstByte(i: nat) returns (b: byte)
      requires Valid() && i < |msgs|
      ensures |msgs[i].image| > 0 && b == msgs[i].image[0]
    {
      assert Holds(slots[tail..], mem[..], msgs, i);
      assert slots[Slot(i)] == slots[tail..][|msgs| - 1 - i];
      b := mem[slots[Slot(i)].start];
    }

    /** Sets DUP in the first byte of message i. */
    method MarkDup(i: nat)
      requires Valid() && i < |msgs|
      modifies this`msgs, mem
      ensures Valid() && |old(msgs)[i].image| > 0
      ensures msgs == old(msgs)[i := old(msgs)[i].(image := WithDup(old(msgs)[i].image))]
    {
      ghost var recs, bytes, q := slots[tail..], mem[..], msgs;
      assert Holds(recs, bytes, q, i);
      assert slots[Slot(i)] == recs[|msgs| - 1 - i];
      var at := slots[Slot(i)].start;
      if mem[at] / 8 % 2 == 0 {
        mem[at] := mem[at] + 8;
      }
      ghost var image := WithDup(q[i].image);
      assert bytes[at] == bytes[at..at + |image|][0];
      assert mem[..][at..at + |image|] == image;
      assert mem[..][..at] == bytes[..at];
      assert mem[..][at + |image|..] == bytes[at + |image|..];
      RepresentsPatch(recs, bytes, mem[..], q, i, image);
      msgs := msgs[i := msgs[i].(image := image)];
      OffsetTotal(q, msgs);
    }

    /** Packing into the room behind `curr` disturbs nothing that is queued. */
    twostate lemma PackingIsSafe()
      requires old(Valid())
      requires curr == old(curr) && currSz == old(currSz) && tail == old(tail) && msgs == old(msgs)
      requires slots[..] == old(slots[..]) && mem[..curr] == old(mem[..curr])
      ensures Valid()
    {
      assert mem[..][..curr] == mem[..curr] == old(mem[..curr]) == old(mem[..])[..curr];
      RepresentsFrame(old(slots[tail..]), old(mem[..]), mem[..], msgs);
      assert slots[tail..] == slots[..][tail..] == old(slots[..])[tail..] == old(slots[tail..]);
    }
  }
}
