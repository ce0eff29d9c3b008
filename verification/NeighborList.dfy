/** The neighbour list in place: heap nodes linked by `next`, relinked by the timeout check. */
module NeighborList {
  import opened Options
  import opened Neighbors

  class Node {
    var usn: string
    const location: string
    var smId: string
    var deviceType: string
    var updateTime: int
    var next: Node?

    constructor (p: Peer)
      ensures Value() == p && next == null
    {
      usn, location, smId, deviceType, updateTime := p.usn, p.location, p.smId, p.deviceType, p.updateTime;
      next := null;
    }

    function Value(): Peer
      reads this
    {
      Peer(usn, location, smId, deviceType, updateTime)
    }

    /** Takes over what differs, and the time; tells whether more than the time differed. */
    method Refresh(p: Peer) returns (changed: bool)
      requires location == p.location
      modifies `usn, `smId, `deviceType, `updateTime
      ensures Value() == p
      ensures changed <==> old(usn) != p.usn || old(smId) != p.smId || old(deviceType) != p.deviceType
    {
      changed := false;
      if usn != p.usn {
        usn := p.usn;
        changed := true;
      }
      if smId != p.smId {
        smId := p.smId;
        changed := true;
      }
      if deviceType != p.deviceType {
        deviceType := p.deviceType;
        changed := true;
      }
      updateTime := p.updateTime;
    }
  }

  function Values(nodes: seq<Node>): (r: seq<Peer>)
    reads nodes
    ensures |r| == |nodes| && forall i :: 0 <= i < |r| ==> r[i] == nodes[i].Value()
  {
    seq(|nodes|, i requires 0 <= i < |nodes| reads nodes => nodes[i].Value())
  }

  class List {
    var head: Node?
    var listening: bool
    var calls: nat
    /** The nodes in order, and all that are allocated and not freed. */
    ghost var nodes: seq<Node>
    ghost var live: set<Node>

    ghost function At(i: nat): Node?
      reads `nodes
    {
      if i < |nodes| then nodes[i] else null
    }

    ghost predicate Linked(i: nat)
      requires i < |nodes|
      reads `nodes, nodes
    {
      nodes[i].next == At(i + 1)
    }

    /** Where a walk along the list stands: before the i-th node. */
    ghost predicate Cursor(prev: Node?, nbr: Node?, i: nat)
      reads `nodes
    {
      i <= |nodes| && nbr == At(i) && prev == if i == 0 then null else nodes[i - 1]
    }

    /** The links run through the nodes once and end; what is in use is what is in the list. */
    ghost predicate Valid()
      reads `head, `nodes, `live, nodes
    {
      && head == At(0)
      && (forall i :: 0 <= i < |nodes| ==> Linked(i))
      && (forall i, j :: 0 <= i < j < |nodes| ==> nodes[i] != nodes[j])
      && live == (set n | n in nodes)
    }

    ghost function View(): seq<Peer>
      reads `nodes, nodes
    {
      Values(nodes)
    }

    /** `listening` says whether the application has set a callback; `calls` counts its invocations. */
    constructor (listening: bool)
      ensures Valid() && View() == [] && calls == 0 && this.listening == listening
    {
      head, this.listening, calls := null, listening, 0;
      nodes, live := [], {};
    }

    method Notify(changed: bool)
      modifies `calls
      ensures calls == old(calls) + if changed && listening then 1 else 0
    {
      if changed && listening {
        calls := calls + 1;
      }
    }

    /** The search of `neighbor_list_add`: the node with the location if there is one, and the node before. */
    method Search(location: string) returns (nbr: Node?, last: Node?, ghost i: nat)
      requires Valid()
      ensures i <= |nodes| && nbr == At(i) && last == if i == 0 then head else nodes[i - 1]
      ensures nbr != null ==> nbr.location == location
      ensures forall k :: 0 <= k < i ==> nodes[k].location != location
    {
      nbr, last, i := head, head, 0;
      while nbr != null && nbr.location != location
        invariant i <= |nodes| && nbr == At(i) && last == if i == 0 then head else nodes[i - 1]
        invariant forall k :: 0 <= k < i ==> nodes[k].location != location
        decreases |nodes| - i
      {
        assert Linked(i);
        last := nbr;
        nbr := nbr.next;
        i := i + 1;
      }
    }

    /** Links a new node behind the last one. */
    method Append(last: Node?, nbr: Node)
      requires Valid() && last == if nodes == [] then null else nodes[|nodes| - 1]
      requires nbr !in nodes && nbr.next == null
      modifies `head, `nodes, `live, if last == null then {} else {last}
      ensures Valid() && nodes == old(nodes) + [nbr] && live == old(live) + {nbr}
      ensures View() == old(View()) + [nbr.Value()]
    {
      live := live + {nbr};
      if last == null {
        head := nbr;
      } else {
        last.next := nbr;
      }
      nodes := nodes + [nbr];
      forall k | 0 <= k < |nodes|
        ensures Linked(k)
      {
        assert k + 1 < |nodes| ==> old(Linked(k));
      }
    }

    /** Updates the i-th node. */
    method Update(nbr: Node, p: Peer, ghost i: nat) returns (changed: bool)
      requires Valid() && i < |nodes| && nbr == nodes[i] && nbr.location == p.location
      modifies nbr
      ensures Valid() && View() == old(View())[i := p]
      ensures var q := old(View())[i]; changed <==> q.usn != p.usn || q.smId != p.smId || q.deviceType != p.deviceType
    {
      changed := nbr.Refresh(p);
      assert forall k :: 0 <= k < |nodes| ==> old(Linked(k)) ==> Linked(k);
    }

    /** `neighbor_list_add` up to its callback. */
    method Record(p: Peer, memory: bool) returns (rv: int, changed: bool)
      requires Valid()
      modifies `head, `nodes, `live, nodes
      ensures Valid() && old(nodes) <= nodes && fresh(live - old(live))
      ensures rv == if Succeeds(old(View()), Announce(p, memory)) then 0 else -1
      ensures View() == Step(old(View()), Announce(p, memory))
      ensures changed <==> Fires(old(View()), Announce(p, memory))
    {
      var nbr, last, i := Search(p.location);
      AnnounceAt(View(), p, memory, i);
      if nbr != null {
        changed := Update(nbr, p, i);
        return 0, changed;
      }
      if !memory {
        return -1, false;
      }
      nbr := new Node(p);
      Append(last, nbr);
      return 0, true;
    }

    /** `neighbor_list_add`; `memory` is the allocator's answer. */
    method Add(p: Peer, memory: bool) returns (rv: int)
      requires Valid()
      modifies this, nodes
      ensures Valid() && listening == old(listening)
      ensures rv == if memory || exists q :: q in old(View()) && q.location == p.location then 0 else -1
      ensures View() == Step(old(View()), Announce(p, memory))
      ensures calls == old(calls) + if listening && Fires(old(View()), Announce(p, memory)) then 1 else 0
      ensures old(nodes) <= nodes && fresh(live - old(live))
    {
      var changed;
      rv, changed := Record(p, memory);
      Notify(changed);
    }

    /** Gives a node back to the allocator. */
    ghost method Free(n: Node)
      requires n in live
      modifies `live
      ensures live == old(live) - {n}
    {
      live := live - {n};
    }

    /** All links are right but for the i-th node, which is passed over. */
    ghost predicate Bypassed(i: nat)
      requires i < |nodes|
      reads `head, `nodes, nodes
    {
      && head == (if i == 0 then At(1) else At(0))
      && forall k :: 0 <= k < |nodes| && k != i ==> nodes[k].next == if k + 1 == i then At(i + 1) else At(k + 1)
    }

    /** Makes the node before the i-th one, or the head, point past it. */
    method Bypass(prev: Node?, nbr: Node, ghost i: nat) returns (next: Node?)
      requires Valid() && i < |nodes| && Cursor(prev, nbr, i)
      modifies `head, `live, if prev == null then {} else {prev}
      ensures Bypassed(i) && next == At(i + 1) && live == old(live) - {nbr} && View() == old(View())
    {
      assert Linked(i);
      if prev == null {
        head := nbr.next;
        Free(nbr);
        next := head;
      } else {
        prev.next := nbr.next;
        Free(nbr);
        next := prev.next;
      }
      forall k | 0 <= k < |nodes| && k != i
        ensures nodes[k].next == if k + 1 == i then At(i + 1) else At(k + 1)
      {
        assert old(Linked(k));
      }
    }

    /** The list without its i-th node. */
    ghost method Drop(i: nat)
      requires i < |nodes| && Bypassed(i) && live == (set n | n in nodes) - {nodes[i]}
      requires forall j, k :: 0 <= j < k < |nodes| ==> nodes[j] != nodes[k]
      modifies `nodes
      ensures Valid() && nodes == old(nodes)[..i] + old(nodes)[i + 1..]
      ensures View() == old(View())[..i] + old(View())[i + 1..]
    {
      nodes := nodes[..i] + nodes[i + 1..];
      assert forall n :: n in old(nodes) <==> n in nodes || n == old(nodes)[i];
    }

    /** Takes the i-th node out of the list. */
    method Unlink(prev: Node?, nbr: Node, ghost i: nat) returns (next: Node?)
      requires Valid() && i < |nodes| && Cursor(prev, nbr, i)
      modifies `head, `nodes, `live, if prev == null then {} else {prev}
      ensures Valid() && live == old(live) - {nbr} && Cursor(prev, next, i)
      ensures View() == old(View())[..i] + old(View())[i + 1..]
    {
      next := Bypass(prev, nbr, i);
      Drop(i);
    }

    /** `lssdp_neighbor_check_timeout`. */
    method CheckTimeout(timeout: int, now: int) returns (rv: int)
      requires Valid()
      modifies this, nodes
      ensures Valid() && listening == old(listening)
      ensures rv == if timeout <= 0 || now >= 0 then 0 else -1
      ensures View() == Step(old(View()), Event.CheckTimeout(timeout, now))
      ensures forall p :: p in View() <==> p in old(View()) && (timeout <= 0 || now < 0 || now - p.updateTime < timeout)
      ensures calls == old(calls) + if listening && Fires(old(View()), Event.CheckTimeout(timeout, now)) then 1 else 0
      ensures live <= old(live)
    {
      if timeout <= 0 {
        return 0;
      }
      if now < 0 {
        return -1;
      }
      CheckKeeps(View(), now, timeout);
      var changed := Sweep(timeout, now);
      Notify(changed);
      return 0;
    }

    /** One turn of the loop of the check: goes past the i-th node, or unlinks and frees it if it is too old. */
    method Visit(prev: Node?, nbr: Node, ghost i: nat, timeout: int, now: int)
      returns (prev1: Node?, nbr1: Node?, ghost i1: nat, gone: bool)
      requires Valid() && i < |nodes| && Cursor(prev, nbr, i) && Young(View(), i, now, timeout)
      modifies `head, `nodes, `live, live
      ensures Valid() && live <= old(live) && Cursor(prev1, nbr1, i1) && Young(View(), i1, now, timeout)
      ensures Expired(View(), now, timeout) == Expired(old(View()), now, timeout)
      ensures |nodes| - i1 < |old(nodes)| - i && |nodes| == |old(nodes)| - if gone then 1 else 0
    {
      gone := now - nbr.updateTime >= timeout;
      if gone {
        ExpiredWithout(View(), i, now, timeout);
        prev1, i1 := prev, i;
        nbr1 := Unlink(prev, nbr, i);
      } else {
        assert Linked(i);
        prev1, nbr1, i1 := nbr, nbr.next, i + 1;
      }
    }

    /** The loop of the check. */
    method Sweep(timeout: int, now: int) returns (changed: bool)
      requires Valid()
      modifies `head, `nodes, `live, live
      ensures Valid() && View() == Expired(old(View()), now, timeout) && live <= old(live)
      ensures changed <==> exists p :: p in old(View()) && Stale(p, now, timeout)
    {
      changed := false;
      var prev: Node?, nbr := null, head;
      ghost var i, was := 0, View();
      while nbr != null
        invariant Valid() && live <= old(live) && Cursor(prev, nbr, i) && Young(View(), i, now, timeout)
        invariant Expired(View(), now, timeout) == Expired(was, now, timeout)
        invariant |nodes| <= |was| && (changed <==> |nodes| < |was|)
        decreases |nodes| - i
      {
        var gone;
        prev, nbr, i, gone := Visit(prev, nbr, i, timeout, now);
        changed := changed || gone;
      }
      ExpiredDone(was, View(), now, timeout);
    }

    /** `neighbor_list_free`: the rest of the list from its i-th node, last node first. */
    method FreeFrom(list: Node?, ghost i: nat)
      requires i <= |nodes| && list == At(i)
      requires forall k :: i <= k < |nodes| ==> Linked(k) && nodes[k] in live
      requires forall j, k :: 0 <= j < k < |nodes| ==> nodes[j] != nodes[k]
      modifies `live
      ensures live == old(live) - set n | n in nodes[i..]
      decreases |nodes| - i
    {
      if list != null {
        FreeFrom(list.next, i + 1);
        assert forall n :: n in nodes[i..] <==> n == nodes[i] || n in nodes[i + 1..];
        Free(list);
      }
    }

    method Clear()
      requires Valid()
      modifies `head, `nodes, `live
      ensures Valid() && View() == [] && live == {}
    {
      FreeFrom(head, 0);
      head := null;
      nodes := [];
    }

    /** `lssdp_neighbor_remove_all`. */
    method RemoveAll() returns (rv: int)
      requires Valid()
      modifies this
      ensures Valid() && listening == old(listening) && rv == 0
      ensures View() == Step(old(View()), Event.RemoveAll) && live == {}
      ensures calls == old(calls) + if listening && Fires(old(View()), Event.RemoveAll) then 1 else 0
    {
      if head == null {
        return 0;
      }
      Clear();
      Notify(true);
      return 0;
    }
  }

  /** The first entry with the location is replaced, or the end reached. */
  lemma {:induction false} AddedAt(l: seq<Peer>, p: Peer, i: nat)
    requires i <= |l| && (i < |l| ==> l[i].location == p.location)
    requires forall k :: 0 <= k < i ==> l[k].location != p.location
    ensures Added(l, p) == if i < |l| then l[i := p] else l + [p]
    ensures Lookup(l, p.location) == if i < |l| then Some(l[i]) else None
    decreases |l|
  {
    if i > 0 {
      AddedAt(l[1..], p, i - 1);
    }
  }

  /** What the search of `Add` finds out decides the step. */
  lemma {:induction false} AnnounceAt(l: seq<Peer>, p: Peer, memory: bool, i: nat)
    requires i <= |l| && (i < |l| ==> l[i].location == p.location)
    requires forall k :: 0 <= k < i ==> l[k].location != p.location
    ensures var e := Announce(p, memory);
            if i < |l| then
              && Succeeds(l, e) && Step(l, e) == l[i := p]
              && (Fires(l, e) <==> l[i].usn != p.usn || l[i].smId != p.smId || l[i].deviceType != p.deviceType)
            else if memory then Succeeds(l, e) && Step(l, e) == l + [p] && Fires(l, e)
            else !Succeeds(l, e) && Step(l, e) == l && !Fires(l, e)
  {
    AddedAt(l, p, i);
  }

  lemma {:induction false} ExpiredWithout(l: seq<Peer>, i: nat, now: int, timeout: int)
    requires i < |l| && Stale(l[i], now, timeout)
    ensures Expired(l[..i] + l[i + 1..], now, timeout) == Expired(l, now, timeout)
  {
    assert l == l[..i] + l[i..];
    ExpiredSplits(l[..i], l[i..], now, timeout);
    ExpiredSplits(l[..i], l[i + 1..], now, timeout);
  }

  /** The first i entries stay. */
  ghost predicate Young(l: seq<Peer>, i: nat, now: int, timeout: int) {
    i <= |l| && forall k :: 0 <= k < i ==> !Stale(l[k], now, timeout)
  }

  /** A list with the same survivors, all of them young, is what the check leaves. */
  lemma {:induction false} ExpiredDone(was: seq<Peer>, l: seq<Peer>, now: int, timeout: int)
    requires Expired(l, now, timeout) == Expired(was, now, timeout)
    requires Young(l, |l|, now, timeout)
    ensures l == Expired(was, now, timeout)
    ensures |l| < |was| <==> exists p :: p in was && Stale(p, now, timeout)
  {
    ExpiredSize(l, now, timeout);
    ExpiredSize(was, now, timeout);
  }
}
