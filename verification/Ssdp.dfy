/** The SSDP packet parser, in place: index scans over the text and copies into the packet's arrays. */
module Ssdp {
  import opened Options
  import opened SsdpText

  class Packet {
    const st: array<char>
    const usn: array<char>
    const location: array<char>
    const smId: array<char>
    const deviceType: array<char>
    var name: string
    var updateTime: int

    predicate Valid() {
      && st.Length == usn.Length == smId.Length == deviceType.Length == FIELD_LEN && location.Length == LOCATION_LEN
      && st != usn && st != location && st != smId && st != deviceType && usn != location && usn != smId
      && usn != deviceType && location != smId && location != deviceType && smId != deviceType
    }

    ghost function View(): (b: Buffers)
      requires Valid()
      reads st, usn, location, smId, deviceType
      ensures Sized(b)
    {
      Buffers(st[..], usn[..], location[..], smId[..], deviceType[..])
    }

    /** `lssdp_packet packet = {}`. */
    constructor ()
      ensures Valid() && View() == Blank() && name == ""
      ensures fresh(st) && fresh(usn) && fresh(location) && fresh(smId) && fresh(deviceType)
    {
      st := new char[FIELD_LEN](_ => '\0');
      usn := new char[FIELD_LEN](_ => '\0');
      location := new char[LOCATION_LEN](_ => '\0');
      smId := new char[FIELD_LEN](_ => '\0');
      deviceType := new char[FIELD_LEN](_ => '\0');
      name := "";
      updateTime := 0;
      new;
      assert forall a: array<char> | a in {st, usn, smId, deviceType} :: a[..] == Zeros(FIELD_LEN);
      assert location[..] == Zeros(LOCATION_LEN);
    }

    /** The array behind a field. */
    function Buffer(f: Field): (a: array<char>)
      requires Valid()
      ensures a.Length == Size(f) > 0
    {
      match f
      case St => st
      case Usn => usn
      case Location => location
      case SmId => smId
      case DeviceType => deviceType
    }

    method Store(f: Field, value: string)
      requires Valid()
      modifies Buffer(f)
      ensures View() == Set(old(View()), f, Overlay(Get(old(View()), f), value))
    {
      CopyField(Buffer(f), value);
    }
  }

  /** `memcpy` of a value into a field, cut so that the last character stays. */
  method CopyField(buf: array<char>, value: string)
    requires buf.Length > 0
    modifies buf
    ensures buf[..] == Overlay(old(buf[..]), value)
  {
    var n := if |value| < buf.Length then |value| else buf.Length - 1;
    forall k | 0 <= k < n {
      buf[k] := value[k];
    }
  }

  lemma SliceOfSlice(s: string, lo: nat, hi: nat, a: nat, b: nat)
    requires lo <= hi <= |s| && a <= b <= hi - lo
    ensures s[lo..hi][a..b] == s[lo + a..lo + b]
  {
    var x, y := s[lo..hi][a..b], s[lo + a..lo + b];
    assert |x| == |y| && forall k :: 0 <= k < |x| ==> x[k] == y[k];
  }

  /** The first loop of `trim_spaces`. */
  method SkipForward(s: string, start: nat, end: nat) returns (i: nat)
    requires start <= end < |s|
    ensures start <= i <= end + 1 && TrimLeft(s[start..end + 1]) == s[i..end + 1]
    ensures i <= end ==> Visible(s[i])
    ensures forall k :: start <= k < i ==> !Visible(s[k])
  {
    i := start;
    while i <= end && !Visible(s[i])
      invariant start <= i <= end + 1
      invariant TrimLeft(s[i..end + 1]) == TrimLeft(s[start..end + 1])
      invariant forall k :: start <= k < i ==> !Visible(s[k])
    {
      SliceOfSlice(s, i, end + 1, 1, end + 1 - i);
      assert s[i..end + 1][1..end + 1 - i] == s[i..end + 1][1..];
      i := i + 1;
    }
  }

  /** The second loop, down to `start`; it stops behind i if there is anything visible at i. */
  method SkipBack(s: string, start: nat, end: nat, ghost i: nat) returns (j: int)
    requires 0 < start <= i <= end + 1 <= |s|
    requires i <= end ==> Visible(s[i])
    requires forall k :: start <= k < i ==> !Visible(s[k])
    ensures i <= end ==> i <= j <= end && TrimRight(s[i..end + 1]) == s[i..j + 1]
    ensures i > end ==> j < start
  {
    j := end;
    while j >= start && !Visible(s[j])
      invariant start - 1 <= j <= end
      invariant i <= end ==> i <= j && TrimRight(s[i..j + 1]) == TrimRight(s[i..end + 1])
    {
      if i <= end {
        SliceOfSlice(s, i, j + 1, 0, j - i);
      }
      j := j - 1;
    }
  }

  /** Narrows [start, end] to what is left without invisible characters at both ends. */
  method TrimSpaces(s: string, start: nat, end: nat) returns (ok: bool, i: nat, j: int)
    requires 0 < start <= end < |s|
    ensures ok <==> Trim(s[start..end + 1]) != []
    ensures ok ==> start <= i <= j <= end && s[i..j + 1] == Trim(s[start..end + 1])
  {
    i := SkipForward(s, start, end);
    j := SkipBack(s, start, end, i);
    ok := i <= j;
  }

  method GetColonIndex(s: string, start: nat, end: nat) returns (i: int)
    requires start <= end + 1 <= |s|
    ensures i == -1 ==> ':' !in s[start..end + 1]
    ensures i != -1 ==> start <= i <= end && s[i] == ':' && ':' !in s[start..i]
  {
    i := start;
    while i <= end
      invariant start <= i <= end + 1 && ':' !in s[start..i]
    {
      if s[i] == ':' {
        return;
      }
      i := i + 1;
    }
    return -1;
  }

  /** The first scan of `parse_field_line`: the colon, behind the first character and not the last one. */
  method FindColon(data: string, start: nat, end: nat) returns (colon: int)
    requires 0 < start <= end < |data|
    ensures var line := data[start..end + 1];
            if colon == -1 then Parts(line).None?
            else
              && start < colon < end && line[0] != ':' && ColonIndex(line, 1) == Some(colon - start)
  {
    ghost var line := data[start..end + 1];
    if data[start] == ':' {
      return -1;
    }
    colon := GetColonIndex(data, start + 1, end);
    SliceOfSlice(data, start, end + 1, 1, |line|);
    assert line[1..|line|] == line[1..];
    if colon != -1 {
      SliceOfSlice(data, start, end + 1, 1, colon - start);
      ColonIndexIs(line, 1, colon - start);
      if colon == end {
        return -1;
      }
    }
  }

  /** The scans of `parse_field_line`: colon, name, value. */
  method SplitLine(data: string, start: nat, end: nat) returns (parts: Option<(string, string)>)
    requires 0 < start <= end < |data|
    ensures parts == Parts(data[start..end + 1])
  {
    var colon := FindColon(data, start, end);
    if colon == -1 {
      return None;
    }
    ghost var line := data[start..end + 1];
    SliceOfSlice(data, start, end + 1, 0, colon - start);
    SliceOfSlice(data, start, end + 1, colon - start + 1, |line|);
    var ok, i, j := TrimSpaces(data, start, colon - 1);
    if !ok {
      return None;
    }
    var name := data[i..j + 1];
    ok, i, j := TrimSpaces(data, colon + 1, end);
    if !ok {
      return None;
    }
    return Some((name, data[i..j + 1]));
  }

  /** `parse_field_line` on [start, end]. */
  method ParseFieldLine(data: string, start: nat, end: nat, packet: Packet) returns (rv: int)
    requires 0 < start <= end < |data| && packet.Valid()
    modifies packet.st, packet.usn, packet.location, packet.smId, packet.deviceType
    ensures packet.View() == ParseLine(data[start..end + 1], old(packet.View()))
    ensures rv == if Parts(data[start..end + 1]).Some? then 0 else -1
  {
    var parts := SplitLine(data, start, end);
    if parts.None? {
      return -1;
    }
    var f := FieldOf(parts.value.0);
    if f.Some? {
      packet.Store(f.value, parts.value.1);
    }
    return 0;
  }

  /** `lssdp_packet_parser`; `now` is the clock, negative if it cannot be read. */
  method ParsePacket(data: string, packet: Packet, now: int) returns (rv: int)
    requires packet.Valid()
    modifies packet, packet.st, packet.usn, packet.location, packet.smId, packet.deviceType
    ensures MethodIn(data).None? ==> rv == -1 && packet.View() == old(packet.View())
    ensures MethodIn(data).Some? ==>
              var m := MethodIn(data).value;
              && packet.name == MethodName(m)
              && packet.View() == ScanLines(data, |Header(m)|, |Header(m)|, old(packet.View()))
              && (rv == 0 <==> now >= 0) && (rv == 0 ==> packet.updateTime == now)
  {
    if '\0' in data {
      return -1;
    }
    var m := MethodOf(data);
    if m.None? {
      return -1;
    }
    packet.name := MethodName(m.value);
    var start := |Header(m.value)|;
    var i := start;
    ghost var whole := ScanLines(data, start, i, packet.View());
    while i < |data|
      invariant 0 < start <= i <= |data| && packet.name == MethodName(m.value)
      invariant ScanLines(data, start, i, packet.View()) == whole
    {
      if data[i] == '\n' && i - 1 > start && data[i - 1] == '\r' {
        var _ := ParseFieldLine(data, start, i - 2, packet);
        start := i + 1;
      }
      i := i + 1;
    }
    if now < 0 {
      return -1;
    }
    packet.updateTime := now;
    return 0;
  }
}
