/** The search for a free packet id: it ends, and what it finds is free. */
module PacketIds {
  import opened Options
  import opened MqttTypes
  import opened QueueSpec
  import opened Session
  import Lfsr

  lemma IdInjective(a: Lfsr.Reg, b: Lfsr.Reg)
    requires Id(a) == Id(b)
    ensures a == b
  {
    assert Id(a) as bv16 == a.bits && Id(b) as bv16 == b.bits;
  }

  lemma IdNonzero(a: Lfsr.Reg)
    ensures Id(a) == 0 <==> a == Lfsr.ZERO
  {
    if Id(a) == 0 {
      IdInjective(a, Lfsr.ZERO);
    }
  }

  ghost function Ids(q: seq<Msg>): set<int> {
    if q == [] then {} else Ids(q[..|q| - 1]) + {q[|q| - 1].id}
  }

  lemma {:induction false} IdsAreTaken(q: seq<Msg>, id: uint16)
    ensures |Ids(q)| <= |q|
    ensures Taken(q, id) ==> id in Ids(q)
  {
    if q != [] {
      var n := |q| - 1;
      IdsAreTaken(q[..n], id);
      if Taken(q, id) {
        var i :| 0 <= i < |q| && q[i].id == id;
        if i < n {
          assert q[..n][i].id == id;
        }
      }
    }
  }

  /** The ids of the states 1 to n steps ahead of r. */
  ghost function Ahead(r: Lfsr.Reg, n: nat): set<int> {
    if n == 0 then {} else Ahead(r, n - 1) + {Id(Lfsr.Iter(n, r))}
  }

  lemma {:induction false} AheadMember(r: Lfsr.Reg, n: nat, id: int) returns (j: nat)
    requires id in Ahead(r, n)
    ensures 1 <= j <= n && id == Id(Lfsr.Iter(j, r))
  {
    if id == Id(Lfsr.Iter(n, r)) {
      j := n;
    } else {
      j := AheadMember(r, n - 1, id);
    }
  }

  lemma {:induction false} AheadSize(r: Lfsr.Reg, n: nat)
    requires r != Lfsr.ZERO && n <= Lfsr.PERIOD
    ensures |Ahead(r, n)| == n
  {
    if n > 0 {
      AheadSize(r, n - 1);
      var id := Id(Lfsr.Iter(n, r));
      if id in Ahead(r, n - 1) {
        var j := AheadMember(r, n - 1, id);
        IdInjective(Lfsr.Iter(j, r), Lfsr.Iter(n, r));
        Lfsr.DistinctStates(r, j, n);
      }
    }
  }

  /** The search passes over taken ids only. */
  lemma {:induction false} SearchSkipsTaken(r: Lfsr.Reg, q: seq<Msg>, budget: nat) returns (j: nat)
    ensures 1 <= j <= budget + 1 && Search(r, q, budget) == Lfsr.Iter(j, r)
    ensures forall k :: 1 <= k < j ==> Taken(q, Id(Lfsr.Iter(k, r)))
    ensures j <= budget ==> !Taken(q, Id(Lfsr.Iter(j, r)))
    decreases budget
  {
    var next := Lfsr.Step(r);
    assert Lfsr.Iter(1, r) == next;
    j := 1;
    if budget > 0 && Taken(q, Id(next)) {
      var i := SearchSkipsTaken(next, q, budget - 1);
      forall k | 0 <= k
        ensures Lfsr.Iter(k, next) == Lfsr.Iter(k + 1, r)
      {
        Lfsr.IterSum(k, 1, r);
      }
      forall k | 1 <= k < i + 1
        ensures Taken(q, Id(Lfsr.Iter(k, r)))
      {
        assert k > 1 ==> Lfsr.Iter(k - 1, next) == Lfsr.Iter(k - 1 + 1, r);
      }
      j := i + 1;
    }
  }

  lemma {:induction false} SubsetSize(a: set<int>, b: set<int>)
    requires a <= b
    ensures |a| <= |b|
  {
    if exists x: int :: x in a {
      var x: int :| x in a;
      SubsetSize(a - {x}, b - {x});
    }
  }

  /**
   With fewer than 65535 messages queued, a free id turns up within one try more than there are
   messages, and it is not zero.
   */
  lemma SearchFinds(r: Lfsr.Reg, q: seq<Msg>)
    requires r != Lfsr.ZERO && |q| < Lfsr.PERIOD
    ensures !Taken(q, Id(Search(r, q, |q|))) && Id(Search(r, q, |q|)) != 0
  {
    var n := |q| + 1;
    var k := SearchSkipsTaken(r, q, |q|);
    Lfsr.IterNonzero(k, r);
    IdNonzero(Lfsr.Iter(k, r));
    if Taken(q, Id(Search(r, q, |q|))) {
      forall id | id in Ahead(r, n)
        ensures id in Ids(q)
      {
        var j := AheadMember(r, n, id);
        assert Taken(q, Id(Lfsr.Iter(j, r)));
        IdsAreTaken(q, id);
      }
      SubsetSize(Ahead(r, n), Ids(q));
      AheadSize(r, n);
      IdsAreTaken(q, 0);
      assert false;
    }
  }

  /** The id that a call draws is fresh, whatever the register held, zero included. */
  lemma NextPidIsFree(s: State)
    requires |s.queue| < Lfsr.PERIOD
    ensures Id(NextPid(s)) != 0 && !Taken(s.queue, Id(NextPid(s)))
    ensures forall i :: 0 <= i < |s.queue| ==> s.queue[i].id != Id(NextPid(s))
  {
    assert Seeded(s.pid) != Lfsr.ZERO;
    SearchFinds(Seeded(s.pid), s.queue);
  }

  predicate Carried(q: seq<Msg>, id: uint16) {
    exists i :: 0 <= i < |q| && q[i].id == id
  }

  /**
   The id drawn is the first one that no queued message carries on the register's way from where it stood, or
   from 163 if it was zero; it comes within one shift more than there are messages.
   */
  lemma NextPidIsFirst(s: State) returns (j: nat)
    requires |s.queue| < Lfsr.PERIOD
    ensures var start := Lfsr.Reg(if s.pid == 0 then 163 else s.pid);
            && 1 <= j <= |s.queue| + 1 && NextPid(s) == Lfsr.Iter(j, start)
            && (forall i :: 0 <= i < |s.queue| ==> s.queue[i].id != Id(Lfsr.Iter(j, start)))
            && forall k: nat :: 1 <= k < j ==> Carried(s.queue, Id(Lfsr.Iter(k, start)))
  {
    j := SearchSkipsTaken(Seeded(s.pid), s.queue, |s.queue|);
    NextPidIsFree(s);
    forall k: nat | 1 <= k < j
      ensures Carried(s.queue, Id(Lfsr.Iter(k, Seeded(s.pid))))
    {
      assert Taken(s.queue, Id(Lfsr.Iter(k, Seeded(s.pid))));
    }
  }
}
