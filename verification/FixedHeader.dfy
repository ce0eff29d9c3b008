/** The fixed header that starts every control packet (section 2.2 of MQTT 3.1.1). */
module FixedHeader {
  import opened Options
  import opened MqttTypes

  /** Control type and flags are 4-bit values. */
  datatype Header = Header(ctype: nat, flags: nat, remaining: nat)

  predicate Nibbles(h: Header) {
    h.ctype < 16 && h.flags < 16
  }

  const MAX_REMAINING := 256 * 1024 * 1024

  // The rule tables, one row for each of the sixteen types.

  predicate TypeIsValid(ctype: nat) {
    ctype != 0 && ctype != 15
  }

  function RequiredFlags(ctype: nat): nat {
    if ctype == PUBREL || ctype == SUBSCRIBE || ctype == UNSUBSCRIBE then 2 else 0
  }

  /** The mask is 0x0F for every valid type but PUBLISH, and 0 otherwise. */
  predicate FlagsAreFixed(ctype: nat) {
    TypeIsValid(ctype) && ctype != PUBLISH
  }

  /** Zero for a header that meets the rules on types and flags, otherwise the error. */
  function RuleViolation(h: Header): (err: int)
    requires Nibbles(h)
    ensures err <= 0
  {
    if !TypeIsValid(h.ctype) then ERROR_CONTROL_FORBIDDEN_TYPE
    else if FlagsAreFixed(h.ctype) && h.flags != RequiredFlags(h.ctype) then ERROR_CONTROL_INVALID_FLAGS
    else 0
  }

  // ---- The encoding as a value ----

  /** Seven bits a byte, least significant first, the top bit set on all bytes but the last. */
  function EncodeLength(n: nat): (s: bytes)
    ensures |s| >= 1
  {
    if n <= 127 then [n] else [n % 128 + 128] + EncodeLength(n / 128)
  }

  function EncodeHeader(h: Header): (s: bytes)
    requires Nibbles(h)
    ensures |s| >= 2
  {
    [16 * h.ctype + h.flags] + EncodeLength(h.remaining)
  }

  /** The result of the packer on a buffer of `room` bytes. */
  function PackHeaderResult(h: Header, room: nat): (rv: int)
    requires Nibbles(h)
  {
    if RuleViolation(h) != 0 then RuleViolation(h)
    else if room == 0 then 0
    else if h.remaining >= MAX_REMAINING then ERROR_INVALID_REMAINING_LENGTH
    else if room < |EncodeHeader(h)| + h.remaining then 0
    else |EncodeHeader(h)|
  }

  datatype Unpacked = NeedMore | Rejected(err: int) | Unpacked(header: Header, size: nat)

  datatype Length = Cut | TooLong | Length(value: nat, next: nat)

  /** The length bytes from offset k on, when `sum` has been read from `shift` earlier bytes. */
  function DecodeLength(s: bytes, k: nat, weight: nat, sum: nat): (r: Length)
    requires k <= |s|
    ensures r.Length? ==> k < r.next <= |s|
    decreases |s| - k
  {
    if weight == 0x1000_0000 then TooLong
    else if k == |s| then Cut
    else
      var sum' := sum + (s[k] % 128) * weight;
      if s[k] >= 128 then DecodeLength(s, k + 1, weight * 128, sum') else Length(sum', k + 1)
  }

  function DecodeHeader(s: bytes): (r: Unpacked)
    ensures r.Unpacked? ==> Nibbles(r.header) && 2 <= r.size <= r.size + r.header.remaining <= |s|
    ensures r.Unpacked? ==> RuleViolation(r.header) == 0
    ensures r.Rejected? ==> r.err < 0
  {
    if |s| == 0 then NeedMore
    else
      match DecodeLength(s, 1, 1, 0)
      case Cut => NeedMore
      case TooLong => Rejected(ERROR_INVALID_REMAINING_LENGTH)
      case Length(n, size) =>
        var h := Header(s[0] / 16, s[0] % 16, n);
        if RuleViolation(h) != 0 then Rejected(RuleViolation(h))
        else if |s| - size < n then NeedMore
        else Unpacked(h, size)
  }

  // ---- The packer and the unpacker, in place ----

  method PackFixedHeader(buf: array<byte>, at: nat, room: nat, h: Header) returns (rv: int)
    requires Nibbles(h) && at + room <= buf.Length
    modifies buf
    ensures rv == PackHeaderResult(h, room)
    ensures rv > 0 ==> buf[at..at + rv] == EncodeHeader(h) && rv + h.remaining <= room
    ensures forall k :: 0 <= k < at || at + room <= k < buf.Length ==> buf[k] == old(buf[k])
  {
    var err := RuleViolation(h);
    if err != 0 {
      return err;
    }
    if room == 0 {
      return 0;
    }
    ghost var out := EncodeHeader(h);
    buf[at] := 16 * h.ctype + h.flags;
    if h.remaining >= MAX_REMAINING {
      return ERROR_INVALID_REMAINING_LENGTH;
    }
    var rest := h.remaining;
    var size := 1;
    var more := true;
    while more
      invariant 1 <= size <= room && size <= |out|
      invariant forall i :: 0 <= i < size ==> buf[at + i] == out[i]
      invariant out[size..] == if more then EncodeLength(rest) else []
      invariant forall k :: 0 <= k < at || at + room <= k < buf.Length ==> buf[k] == old(buf[k])
      decreases more, rest
    {
      assert out[size] == EncodeLength(rest)[0];
      if size == room {
        return 0;
      }
      more := rest > 127;
      buf[at + size] := rest % 128 + if more then 128 else 0;
      assert out[size + 1..] == out[size..][1..];
      size := size + 1;
      rest := rest / 128;
    }
    assert buf[at..at + size] == out;
    if room - size < h.remaining {
      return 0;
    }
    return size;
  }

  /** The packer on a header that breaks no rule, as every request packer calls it. */
  method PackLegalHeader(buf: array<byte>, at: nat, room: nat, h: Header) returns (rv: nat)
    requires Nibbles(h) && RuleViolation(h) == 0 && h.remaining < MAX_REMAINING && at + room <= buf.Length
    modifies buf
    ensures rv == if room < |EncodeHeader(h)| + h.remaining then 0 else |EncodeHeader(h)|
    ensures rv > 0 ==> buf[at..at + rv] == EncodeHeader(h)
    ensures forall k :: 0 <= k < at || at + room <= k < buf.Length ==> buf[k] == old(buf[k])
  {
    rv := PackFixedHeader(buf, at, room, h);
  }

  method UnpackFixedHeader(buf: array<byte>, n: nat) returns (r: Unpacked)
    requires n <= buf.Length
    ensures r == DecodeHeader(buf[..n])
  {
    if n == 0 {
      return NeedMore;
    }
    var ctype, flags := buf[0] / 16, buf[0] % 16;
    var remaining: nat := 0;
    var weight: nat := 1;
    var k := 1;
    var more := true;
    ghost var whole := DecodeLength(buf[..n], 1, 1, 0);
    while more
      invariant 1 <= k <= n
      invariant whole == if more then DecodeLength(buf[..n], k, weight, remaining) else Length(remaining, k)
      decreases more, n - k
    {
      if weight == 0x1000_0000 {
        return Rejected(ERROR_INVALID_REMAINING_LENGTH);
      }
      if k == n {
        return NeedMore;
      }
      remaining := remaining + (buf[k] % 128) * weight;
      weight := weight * 128;
      more := buf[k] >= 128;
      k := k + 1;
    }
    var h := Header(ctype, flags, remaining);
    var err := RuleViolation(h);
    if err != 0 {
      return Rejected(err);
    }
    if n - k < remaining {
      return NeedMore;
    }
    return Unpacked(h, k);
  }

  // ---- Round trip and prefix stability ----

  function Pow128(k: nat): (p: nat)
    ensures p >= 1
  {
    if k == 0 then 1 else 128 * Pow128(k - 1)
  }

  /** The number of length bytes is minimal: k bytes are used only for lengths that need them. */
  lemma {:induction false} EncodeLengthSize(n: nat, k: nat)
    requires k >= 1
    ensures n < Pow128(k) <==> |EncodeLength(n)| <= k
    decreases k
  {
    assert Pow128(1) == 128 * Pow128(0);
    if k > 1 && n > 127 {
      EncodeLengthSize(n / 128, k - 1);
    } else if k > 1 {
      EncodeLengthSize(n, k - 1);
    } else if n > 127 {
      assert |EncodeLength(n)| >= 2;
    }
  }

  lemma Carry(n: nat, weight: nat)
    ensures n % 128 * weight + n / 128 * (weight * 128) == n * weight
  {
    var q, r := n / 128, n % 128;
    assert q * (weight * 128) == q * weight * 128;
    assert (128 * q + r) * weight == 128 * q * weight + r * weight;
  }

  lemma Powers()
    ensures Pow128(0) == 1 && Pow128(1) == 0x80 && Pow128(2) == 0x4000
    ensures Pow128(3) == 0x20_0000 && Pow128(4) == 0x1000_0000
  {
    assert Pow128(1) == 128 * Pow128(0);
    assert Pow128(2) == 128 * Pow128(1);
    assert Pow128(3) == 128 * Pow128(2);
  }

  lemma {:induction false} DecodeEncodeLength(s: bytes, k: nat, n: nat, j: nat, sum: nat)
    requires j <= 3 && n < Pow128(4 - j)
    requires k + |EncodeLength(n)| <= |s| && s[k..k + |EncodeLength(n)|] == EncodeLength(n)
    ensures DecodeLength(s, k, Pow128(j), sum) == Length(sum + n * Pow128(j), k + |EncodeLength(n)|)
    decreases 4 - j
  {
    var e, w := EncodeLength(n), Pow128(j);
    Powers();
    assert w != 0x1000_0000;
    assert s[k] == e[0];
    if n > 127 {
      assert e[1..] == EncodeLength(n / 128);
      assert s[k + 1..k + |e|] == s[k..k + |e|][1..];
      assert n / 128 < Pow128(3 - j) && Pow128(j + 1) == w * 128;
      DecodeEncodeLength(s, k + 1, n / 128, j + 1, sum + n % 128 * w);
      Carry(n, w);
    }
  }

  /** A packed header takes two to five bytes, the fewest that hold the length. */
  lemma HeaderSize(h: Header)
    requires Nibbles(h) && h.remaining < MAX_REMAINING
    ensures 2 <= |EncodeHeader(h)| <= 5
    ensures forall k :: 1 <= k <= 4 ==> (|EncodeHeader(h)| <= k + 1 <==> h.remaining < Pow128(k))
  {
    Powers();
    forall k | 1 <= k <= 4
      ensures |EncodeHeader(h)| <= k + 1 <==> h.remaining < Pow128(k)
    {
      EncodeLengthSize(h.remaining, k);
    }
  }

  /** A packed header followed by at least `remaining` bytes unpacks to itself. */
  lemma HeaderRoundTrip(h: Header, body: bytes)
    requires Nibbles(h) && RuleViolation(h) == 0 && h.remaining < MAX_REMAINING && h.remaining <= |body|
    ensures DecodeHeader(EncodeHeader(h) + body) == Unpacked(h, |EncodeHeader(h)|)
  {
    var e := EncodeHeader(h);
    var s := e + body;
    assert s[1..|e|] == EncodeLength(h.remaining);
    Powers();
    DecodeEncodeLength(s, 1, h.remaining, 0, 0);
    assert s[0] == 16 * h.ctype + h.flags;
  }

  lemma {:induction false} DecodeLengthStable(s: bytes, t: bytes, k: nat, weight: nat, sum: nat)
    requires k <= |s| && !DecodeLength(s, k, weight, sum).Cut?
    ensures DecodeLength(s + t, k, weight, sum) == DecodeLength(s, k, weight, sum)
    decreases |s| - k
  {
    if weight != 0x1000_0000 && s[k] >= 128 {
      DecodeLengthStable(s, t, k + 1, weight * 128, sum + (s[k] % 128) * weight);
    }
  }

  /** Once a prefix is decided, every extension is decided the same way. */
  lemma HeaderStable(s: bytes, t: bytes)
    requires !DecodeHeader(s).NeedMore?
    ensures DecodeHeader(s + t) == DecodeHeader(s)
  {
    DecodeLengthStable(s, t, 1, 1, 0);
  }

  /** A decoded header depends on no byte behind the body it announces. */
  lemma {:induction false} DecodeLengthLocal(s: bytes, m: nat, k: nat, weight: nat, sum: nat)
    requires k <= |s|
    requires DecodeLength(s, k, weight, sum).Length? && DecodeLength(s, k, weight, sum).next <= m <= |s|
    ensures k <= m && DecodeLength(s[..m], k, weight, sum) == DecodeLength(s, k, weight, sum)
    decreases |s| - k
  {
    if s[k] >= 128 {
      DecodeLengthLocal(s, m, k + 1, weight * 128, sum + (s[k] % 128) * weight);
    }
  }

  lemma HeaderLocal(s: bytes, m: nat)
    requires DecodeHeader(s).Unpacked? && DecodeHeader(s).size + DecodeHeader(s).header.remaining <= m <= |s|
    ensures DecodeHeader(s[..m]) == DecodeHeader(s)
  {
    DecodeLengthLocal(s, m, 1, 1, 0);
  }

  // ---- Every sequence of bytes ----

  /** Types 1 to 14 exist; all flags but those of PUBLISH are fixed, and set for types 6, 8 and 10 only (section 2.2). */
  function Complaint(ctype: nat, flags: nat): int {
    if !(1 <= ctype <= 14) then ERROR_CONTROL_FORBIDDEN_TYPE
    else if ctype == 3 || flags == (if ctype in {6, 8, 10} then 2 else 0) then 0
    else ERROR_CONTROL_INVALID_FLAGS
  }

  /** The value of the length bytes at offsets 1 to j. */
  function LengthValue(s: bytes, j: nat): nat
    requires j < |s| || j == 0
  {
    if j == 0 then 0 else LengthValue(s, j - 1) + s[j] % 128 * Pow128(j - 1)
  }

  lemma {:induction false} LengthBound(s: bytes, j: nat)
    requires j < |s| || j == 0
    ensures LengthValue(s, j) < Pow128(j)
  {
    if j > 0 {
      LengthBound(s, j - 1);
      DigitBound(s[j] % 128, Pow128(j - 1));
    }
  }

  lemma DigitBound(d: nat, w: nat)
    requires d < 128
    ensures d * w <= 127 * w
  {
  }

  /** The first j - 1 length bytes are there and announce another; j is where the run ends, or is too long, or is cut. */
  predicate LengthRun(s: bytes, j: nat) {
    && 1 <= j <= 5 && j <= |s| && (forall k :: 1 <= k < j ==> s[k] >= 128)
    && (j < 5 && j < |s| ==> s[j] < 128)
  }

  lemma {:induction false} DecodeRun(s: bytes, j: nat, k: nat)
    requires LengthRun(s, j) && 1 <= k <= j
    ensures DecodeLength(s, k, Pow128(k - 1), LengthValue(s, k - 1)) ==
            if j == 5 then TooLong else if j == |s| then Cut else Length(LengthValue(s, j), j + 1)
    decreases j - k
  {
    Powers();
    assert k < 5 ==> Pow128(k - 1) != 0x1000_0000;
    if k < j {
      assert Pow128(k) == 128 * Pow128(k - 1);
      DecodeRun(s, j, k + 1);
    }
  }

  /**
   What the unpacker makes of any bytes: four length bytes that all announce another are refused, a run that is
   cut waits, and a header that has arrived is refused by the rules, or waits for its body, or is read.
   */
  lemma HeaderExactly(s: bytes, j: nat)
    requires LengthRun(s, j)
    ensures DecodeHeader([]) == NeedMore
    ensures DecodeHeader(s) ==
            if j == 5 then Rejected(ERROR_INVALID_REMAINING_LENGTH)
            else if j == |s| then NeedMore
            else if Complaint(s[0] / 16, s[0] % 16) != 0 then Rejected(Complaint(s[0] / 16, s[0] % 16))
            else if |s| < j + 1 + LengthValue(s, j) then NeedMore
            else Unpacked(Header(s[0] / 16, s[0] % 16, LengthValue(s, j)), j + 1)
  {
    Powers();
    DecodeRun(s, j, 1);
  }

  /**
   The packer succeeds exactly if the rules hold, the length has at most four digits and header and body fit the
   room; then its output is read back unchanged. Otherwise its code says which of these fails, 0 for the room.
   */
  lemma PackThenUnpack(h: Header, room: nat, body: bytes)
    requires Nibbles(h) && |body| >= h.remaining
    ensures var rv, size := PackHeaderResult(h, room), |EncodeHeader(h)|;
            if Complaint(h.ctype, h.flags) != 0 then rv == Complaint(h.ctype, h.flags)
            else if room > 0 && h.remaining >= 0x1000_0000 then rv == ERROR_INVALID_REMAINING_LENGTH
            else if size + h.remaining > room then rv == 0
            else rv == size && DecodeHeader(EncodeHeader(h) + body) == Unpacked(h, size)
  {
    if PackHeaderResult(h, room) > 0 {
      HeaderRoundTrip(h, body);
    }
  }
}
