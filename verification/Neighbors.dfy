/** The neighbour list as a value: what each call makes of it, and what holds over every run. */
module Neighbors {
  import opened Options

  datatype Peer = Peer(usn: string, location: string, smId: string, deviceType: string, updateTime: int)

  /** An announced location replaces the entry it has, or gets one at the end. */
  function Added(l: seq<Peer>, p: Peer): (r: seq<Peer>)
    ensures |r| > 0
  {
    if l == [] then [p]
    else if l[0].location == p.location then [p] + l[1..]
    else [l[0]] + Added(l[1..], p)
  }

  predicate Stale(p: Peer, now: int, timeout: int) {
    now - p.updateTime >= timeout
  }

  function Expired(l: seq<Peer>, now: int, timeout: int): seq<Peer> {
    if l == [] then []
    else (if Stale(l[0], now, timeout) then [] else [l[0]]) + Expired(l[1..], now, timeout)
  }

  function Lookup(l: seq<Peer>, location: string): (r: Option<Peer>)
    ensures r.Some? ==> r.value in l && r.value.location == location
    ensures r.None? ==> forall p :: p in l ==> p.location != location
  {
    if l == [] then None else if l[0].location == location then Some(l[0]) else Lookup(l[1..], location)
  }

  /**
   * The calls: an announcement, with the allocator's answer; the timeout check, with the configured timeout and the
   * clock (negative if it cannot be read); and the removal of everything.
   */
  datatype Event = Announce(peer: Peer, memory: bool) | CheckTimeout(timeout: int, now: int) | RemoveAll

  predicate Succeeds(l: seq<Peer>, e: Event) {
    match e
    case Announce(p, memory) => memory || Lookup(l, p.location).Some?
    case CheckTimeout(timeout, now) => timeout <= 0 || now >= 0
    case RemoveAll => true
  }

  function Step(l: seq<Peer>, e: Event): seq<Peer> {
    if !Succeeds(l, e) then l
    else
      match e
      case Announce(p, _) => Added(l, p)
      case CheckTimeout(timeout, now) => if timeout <= 0 then l else Expired(l, now, timeout)
      case RemoveAll => []
  }

  /** An entry without the time it was last heard: what the application is told changes of. */
  function Identity(p: Peer): Peer {
    p.(updateTime := 0)
  }

  function Identities(l: seq<Peer>): seq<Peer> {
    if l == [] then [] else [Identity(l[0])] + Identities(l[1..])
  }

  /** Whether the list-changed callback is due, as the calls decide it. */
  predicate Fires(l: seq<Peer>, e: Event) {
    && Succeeds(l, e)
    && match e
       case Announce(p, _) =>
         (match Lookup(l, p.location)
          case None => true
          case Some(q) => q.usn != p.usn || q.smId != p.smId || q.deviceType != p.deviceType)
       case CheckTimeout(timeout, now) => timeout > 0 && exists p :: p in l && Stale(p, now, timeout)
       case RemoveAll => l != []
  }

  ghost predicate Distinct(l: seq<Peer>) {
    forall i, j :: 0 <= i < j < |l| ==> l[i].location != l[j].location
  }

  // ---- One step ----

  lemma {:induction false} AddedLocations(l: seq<Peer>, p: Peer)
    ensures forall q :: q in Added(l, p) ==> q.location == p.location || q in l
    ensures p in Added(l, p)
    decreases |l|
  {
    if l != [] && l[0].location != p.location {
      AddedLocations(l[1..], p);
    }
  }

  lemma {:induction false} AddedDistinct(l: seq<Peer>, p: Peer)
    requires Distinct(l)
    ensures Distinct(Added(l, p))
    decreases |l|
  {
    if l != [] && l[0].location != p.location {
      var rest := Added(l[1..], p);
      AddedDistinct(l[1..], p);
      AddedLocations(l[1..], p);
      assert forall j :: 0 <= j < |rest| ==> rest[j] in rest;
    }
  }

  lemma {:induction false} ExpiredHas(l: seq<Peer>, now: int, timeout: int, p: Peer)
    ensures p in Expired(l, now, timeout) <==> p in l && now - p.updateTime < timeout
    decreases |l|
  {
    if l != [] {
      ExpiredHas(l[1..], now, timeout, p);
    }
  }

  /** The check keeps exactly the entries heard of within the timeout; without a timeout or a clock it keeps all. */
  lemma ExpiredExactly(l: seq<Peer>, now: int, timeout: int, p: Peer)
    ensures p in Step(l, CheckTimeout(timeout, now)) <==>
            p in l && (timeout <= 0 || now < 0 || now - p.updateTime < timeout)
  {
    ExpiredHas(l, now, timeout, p);
  }

  lemma CheckKeeps(l: seq<Peer>, now: int, timeout: int)
    ensures forall p :: p in Step(l, CheckTimeout(timeout, now)) <==>
                        p in l && (timeout <= 0 || now < 0 || now - p.updateTime < timeout)
  {
    forall p
      ensures p in Step(l, CheckTimeout(timeout, now)) <==>
              p in l && (timeout <= 0 || now < 0 || now - p.updateTime < timeout)
    {
      ExpiredExactly(l, now, timeout, p);
    }
  }

  /** And it keeps them in place: it works on every stretch of the list by itself. */
  lemma {:induction false} ExpiredSplits(l: seq<Peer>, m: seq<Peer>, now: int, timeout: int)
    ensures Expired(l + m, now, timeout) == Expired(l, now, timeout) + Expired(m, now, timeout)
    decreases |l|
  {
    if l == [] {
      assert l + m == m;
    } else {
      assert (l + m)[1..] == l[1..] + m;
      ExpiredSplits(l[1..], m, now, timeout);
    }
  }

  lemma {:induction false} ExpiredDistinct(l: seq<Peer>, now: int, timeout: int)
    requires Distinct(l)
    ensures Distinct(Expired(l, now, timeout))
    decreases |l|
  {
    if l != [] {
      var rest := Expired(l[1..], now, timeout);
      ExpiredDistinct(l[1..], now, timeout);
      forall j | 0 <= j < |rest|
        ensures rest[j].location != l[0].location
      {
        ExpiredHas(l[1..], now, timeout, rest[j]);
      }
    }
  }

  lemma {:induction false} ExpiredSize(l: seq<Peer>, now: int, timeout: int)
    ensures |Expired(l, now, timeout)| <= |l|
    ensures |Expired(l, now, timeout)| == |l| <==> forall p :: p in l ==> !Stale(p, now, timeout)
    ensures |Expired(l, now, timeout)| == |l| ==> Expired(l, now, timeout) == l
    decreases |l|
  {
    if l != [] {
      ExpiredSize(l[1..], now, timeout);
      assert forall p :: p in l <==> p == l[0] || p in l[1..];
    }
  }

  lemma {:induction false} AddedIdentities(l: seq<Peer>, p: Peer)
    ensures Fires(l, Announce(p, true)) <==> Identities(Added(l, p)) != Identities(l)
    ensures |Added(l, p)| == |l| + if Lookup(l, p.location).None? then 1 else 0
    decreases |l|
  {
    if l != [] {
      if l[0].location == p.location {
        assert Added(l, p)[1..] == l[1..];
      } else {
        AddedIdentities(l[1..], p);
        assert Added(l, p)[1..] == Added(l[1..], p);
        var a, b := Identities(Added(l[1..], p)), Identities(l[1..]);
        assert ([Identity(l[0])] + a)[1..] == a && ([Identity(l[0])] + b)[1..] == b;
      }
    }
  }

  lemma {:induction false} IdentitiesSize(l: seq<Peer>)
    ensures |Identities(l)| == |l|
    decreases |l|
  {
    if l != [] {
      IdentitiesSize(l[1..]);
    }
  }

  /** The callback is due exactly when an entry comes, goes, or changes in more than its time. */
  lemma {:induction false} FiresExactly(l: seq<Peer>, e: Event)
    ensures Fires(l, e) <==> Identities(Step(l, e)) != Identities(l)
  {
    match e
    case Announce(p, memory) =>
      AddedIdentities(l, p);
    case CheckTimeout(timeout, now) =>
      ExpiredSize(l, now, timeout);
      IdentitiesSize(l);
      IdentitiesSize(Expired(l, now, timeout));
    case RemoveAll =>
      IdentitiesSize(l);
  }

  // ---- Runs ----

  function Run(l: seq<Peer>, events: seq<Event>): seq<Peer>
    decreases |events|
  {
    if events == [] then l else Run(Step(l, events[0]), events[1..])
  }

  lemma {:induction false} StepDistinct(l: seq<Peer>, e: Event)
    requires Distinct(l)
    ensures Distinct(Step(l, e))
  {
    match e
    case Announce(p, _) => AddedDistinct(l, p);
    case CheckTimeout(timeout, now) => ExpiredDistinct(l, now, timeout);
    case RemoveAll =>
  }

  /** No two entries of a reachable list have the same location. */
  lemma {:induction false} RunDistinct(l: seq<Peer>, events: seq<Event>)
    requires Distinct(l)
    ensures Distinct(Run(l, events))
    decreases |events|
  {
    if events != [] {
      StepDistinct(l, events[0]);
      RunDistinct(Step(l, events[0]), events[1..]);
    }
  }

  /** What is known of one location, with no list: its last announcement, until that is too old or all is removed. */
  function Heard(known: Option<Peer>, location: string, e: Event): Option<Peer> {
    match e
    case Announce(p, memory) => if p.location == location && (memory || known.Some?) then Some(p) else known
    case CheckTimeout(timeout, now) =>
      if timeout > 0 && now >= 0 && known.Some? && now - known.value.updateTime >= timeout then None else known
    case RemoveAll => None
  }

  function LastHeard(known: Option<Peer>, location: string, events: seq<Event>): Option<Peer>
    decreases |events|
  {
    if events == [] then known else LastHeard(Heard(known, location, events[0]), location, events[1..])
  }

  lemma {:induction false} LookupAdded(l: seq<Peer>, p: Peer, location: string)
    ensures Lookup(Added(l, p), location) == if location == p.location then Some(p) else Lookup(l, location)
    decreases |l|
  {
    if l != [] && l[0].location != p.location {
      LookupAdded(l[1..], p, location);
      assert Added(l, p)[1..] == Added(l[1..], p);
    }
  }

  lemma {:induction false} LookupExpired(l: seq<Peer>, now: int, timeout: int, location: string)
    requires Distinct(l)
    ensures var known := Lookup(l, location);
            Lookup(Expired(l, now, timeout), location) ==
            if known.Some? && Stale(known.value, now, timeout) then None else known
    decreases |l|
  {
    if l != [] {
      LookupExpired(l[1..], now, timeout, location);
      var rest := Expired(l[1..], now, timeout);
      if Stale(l[0], now, timeout) {
        assert Expired(l, now, timeout) == rest;
        if l[0].location == location {
          assert Lookup(l[1..], location).None?;
        }
      } else {
        assert Expired(l, now, timeout)[1..] == rest;
      }
    }
  }

  lemma {:induction false} StepHeard(l: seq<Peer>, e: Event, location: string)
    requires Distinct(l)
    ensures Lookup(Step(l, e), location) == Heard(Lookup(l, location), location, e)
  {
    match e
    case Announce(p, _) => LookupAdded(l, p, location);
    case CheckTimeout(timeout, now) => LookupExpired(l, now, timeout, location);
    case RemoveAll =>
  }

  /** Over every run, the list knows of each location exactly its last announcement that has not aged out. */
  lemma {:induction false} ListIsLastHeard(l: seq<Peer>, events: seq<Event>, location: string)
    requires Distinct(l)
    ensures Lookup(Run(l, events), location) == LastHeard(Lookup(l, location), location, events)
    decreases |events|
  {
    if events != [] {
      StepHeard(l, events[0], location);
      StepDistinct(l, events[0]);
      ListIsLastHeard(Step(l, events[0]), events[1..], location);
    }
  }
}
