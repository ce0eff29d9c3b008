/** The packets received do not depend on how the byte stream is cut into reads. */
module Stream {
  import opened Options
  import opened MqttTypes
  import opened Packets
  import opened Responses

  datatype Parsed = Parsed(packets: seq<Response>, rest: bytes)

  /** The whole stream at once: packets off the front as long as one is complete. */
  function ParseAll(s: bytes): Parsed
    decreases |s|
  {
    match Unpack(s)
    case Got(r, n) => var p := ParseAll(s[n..]); Parsed([r] + p.packets, p.rest)
    case _ => Parsed([], s)
  }

  function Prepend(packets: seq<Response>, p: Parsed): Parsed {
    Parsed(packets + p.packets, p.rest)
  }

  /**
   What has been dispatched, and what is buffered, come to what the whole stream parses to, and will
   whatever is still to arrive.
   */
  ghost predicate InStep(arrived: bytes, disp: seq<Response>, buffered: bytes) {
    forall d: bytes {:trigger ParseAll(arrived + d)} :: ParseAll(arrived + d) == Prepend(disp, ParseAll(buffered + d))
  }

  lemma InStepNow(arrived: bytes, disp: seq<Response>, buffered: bytes)
    requires InStep(arrived, disp, buffered)
    ensures ParseAll(arrived) == Prepend(disp, ParseAll(buffered))
  {
    assert arrived + [] == arrived && buffered + [] == buffered;
    assert ParseAll(arrived + []) == Prepend(disp, ParseAll(buffered + []));
  }

  lemma InStepInitially()
    ensures InStep([], [], [])
  {
    forall d: bytes
      ensures ParseAll([] + d) == Prepend([], ParseAll([] + d))
    {
      assert [] + ParseAll([] + d).packets == ParseAll([] + d).packets;
    }
  }

  lemma ArriveInStep(arrived: bytes, disp: seq<Response>, buffered: bytes, data: bytes)
    requires InStep(arrived, disp, buffered)
    ensures InStep(arrived + data, disp, buffered + data)
  {
    forall d: bytes
      ensures ParseAll(arrived + data + d) == Prepend(disp, ParseAll(buffered + data + d))
    {
      assert arrived + data + d == arrived + (data + d) && buffered + data + d == buffered + (data + d);
      assert ParseAll(arrived + (data + d)) == Prepend(disp, ParseAll(buffered + (data + d)));
    }
  }

  lemma PrependNext(disp: seq<Response>, r: Response, p: Parsed)
    ensures Prepend(disp, Parsed([r] + p.packets, p.rest)) == Prepend(disp + [r], p)
  {
    assert disp + ([r] + p.packets) == disp + [r] + p.packets;
  }

  lemma OffTheFront(inbox: bytes, pending: bytes, d: bytes, r: Response, n: nat)
    requires Unpack(inbox) == Got(r, n)
    ensures var p := ParseAll(inbox[n..] + pending + d);
            ParseAll(inbox + pending + d) == Parsed([r] + p.packets, p.rest)
  {
    var s := inbox + pending + d;
    assert s == inbox + (pending + d);
    UnpackStable(inbox, pending + d);
    assert s[n..] == inbox[n..] + pending + d;
  }

  /** A packet is taken off the front of the bytes in the buffer, here the first `m` of those held. */
  lemma DispatchInStep(arrived: bytes, disp: seq<Response>, inbox: bytes, pending: bytes, r: Response, n: nat)
    requires InStep(arrived, disp, inbox + pending) && Unpack(inbox) == Got(r, n)
    ensures InStep(arrived, disp + [r], inbox[n..] + pending)
  {
    forall d: bytes
      ensures ParseAll(arrived + d) == Prepend(disp + [r], ParseAll(inbox[n..] + pending + d))
    {
      assert ParseAll(arrived + d) == Prepend(disp, ParseAll(inbox + pending + d));
      OffTheFront(inbox, pending, d, r, n);
      PrependNext(disp, r, ParseAll(inbox[n..] + pending + d));
    }
  }

  // ---- Streams that a broker encodes ----

  predicate WellFormed(r: Response) {
    Encodable(r) && !TooShort(r)
  }

  predicate AllWellFormed(rs: seq<Response>) {
    forall i :: 0 <= i < |rs| ==> WellFormed(rs[i])
  }

  function EncodeAll(rs: seq<Response>): bytes
    requires AllWellFormed(rs)
  {
    if rs == [] then [] else Encode(rs[0]) + EncodeAll(rs[1..])
  }

  /** A part of a packet makes no packet. */
  lemma CutPacketWaits(s: bytes, r: Response, tail: bytes)
    requires WellFormed(r) && s <= Encode(r) + tail && |s| < |Encode(r)|
    ensures ParseAll(s) == Parsed([], s)
  {
    var t := (Encode(r) + tail)[|s|..];
    assert Encode(r) + tail == s + t;
    ResponseRoundTrip(r, tail);
    if !Unpack(s).More? {
      UnpackStable(s, t);
    }
  }

  lemma PrefixSplits(s: bytes, e: bytes, tail: bytes)
    requires s <= e + tail && |e| <= |s|
    ensures s == e + s[|e|..] && s[|e|..] <= tail && (s == e + tail ==> s[|e|..] == tail)
  {
    assert s[..|e|] == (e + tail)[..|e|] == e;
    assert s[|e|..] == (e + tail)[|e|..|s|] == tail[..|s| - |e|];
  }

  /** A whole packet in front is the one read, and the rest is the rest. */
  lemma WholePacketParses(s: bytes, r: Response, tail: bytes)
    requires WellFormed(r) && s <= Encode(r) + tail && |Encode(r)| <= |s|
    ensures var rest := s[|Encode(r)|..];
            && ParseAll(s) == Prepend([r], ParseAll(rest)) && rest <= tail
            && (s == Encode(r) + tail ==> rest == tail)
  {
    PrefixSplits(s, Encode(r), tail);
    ResponseRoundTrip(r, s[|Encode(r)|..]);
  }

  /** Whatever part of an encoded stream has arrived parses to a prefix of its packets. */
  lemma {:induction false} PrefixParses(s: bytes, rs: seq<Response>)
    requires AllWellFormed(rs) && s <= EncodeAll(rs)
    ensures ParseAll(s).packets <= rs
    ensures s == EncodeAll(rs) ==> ParseAll(s) == Parsed(rs, [])
    decreases |rs|
  {
    if rs != [] {
      var e, tail := Encode(rs[0]), EncodeAll(rs[1..]);
      if |s| < |e| {
        CutPacketWaits(s, rs[0], tail);
      } else {
        var rest := s[|e|..];
        WholePacketParses(s, rs[0], tail);
        PrefixParses(rest, rs[1..]);
      }
    } else {
      assert s == [];
    }
  }
}
