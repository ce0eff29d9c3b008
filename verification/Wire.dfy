/** The two field encodings that all packets share: 16-bit integers and length-prefixed strings. */
module Wire {
  import opened Options
  import opened MqttTypes

  const MAX_STRING := 0xFFFF

  function Uint16(n: uint16): (s: bytes)
    ensures |s| == 2
  {
    [n / 256, n % 256]
  }

  function ReadUint16(s: bytes): (n: uint16)
    requires |s| >= 2
  {
    256 * (s[0] as int) + s[1]
  }

  function Str(s: bytes): (e: bytes)
    requires |s| <= MAX_STRING
    ensures |e| == |s| + 2
  {
    Uint16(|s|) + s
  }

  /** A string taken off the front, and what is left behind it. */
  function TakeStr(s: bytes): (r: Option<(bytes, bytes)>)
    ensures r.Some? ==> |r.value.1| < |s|
  {
    if |s| < 2 || |s| < 2 + ReadUint16(s) then None
    else Some((s[2..2 + ReadUint16(s)], s[2 + ReadUint16(s)..]))
  }

  lemma Uint16RoundTrip(n: uint16, rest: bytes)
    ensures ReadUint16(Uint16(n) + rest) == n && (Uint16(n) + rest)[2..] == rest
  {
  }

  lemma StrRoundTrip(s: bytes, rest: bytes)
    requires |s| <= MAX_STRING
    ensures TakeStr(Str(s) + rest) == Some((s, rest))
  {
    var e := Str(s) + rest;
    assert e == Uint16(|s|) + (s + rest);
    assert ReadUint16(e) == |s|;
    assert e[2..2 + |s|] == s && e[2 + |s|..] == rest;
  }

  /**
   Writes `s` at `at`, behind the part of a packet that began at `start`, and steps the pointer. That
   part is `head` followed by `done`.
   */
  method Put(buf: array<byte>, start: nat, at: nat, s: bytes, ghost head: bytes, ghost done: bytes)
    returns (next: nat)
    requires start <= at && at + |s| <= buf.Length
    requires buf[start..at] == head + done
    modifies buf
    ensures next == at + |s|
    ensures buf[start..next] == head + (done + s)
    ensures forall k :: 0 <= k < at || next <= k < buf.Length ==> buf[k] == old(buf[k])
  {
    var i := 0;
    while i < |s|
      invariant 0 <= i <= |s|
      invariant forall k :: 0 <= k < i ==> buf[at + k] == s[k]
      invariant forall k :: 0 <= k < at || at + |s| <= k < buf.Length ==> buf[k] == old(buf[k])
    {
      buf[at + i] := s[i];
      i := i + 1;
    }
    next := at + |s|;
    assert buf[start..at] == head + done;
    assert buf[at..next] == s;
    assert buf[start..next] == buf[start..at] + buf[at..next];
    assert (head + done) + s == head + (done + s);
  }
}
