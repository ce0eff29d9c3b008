/** SSDP messages as text: the lines that are printed, and what the parser makes of a text. */
module SsdpText {
  import opened Options

  const FIELD_LEN := 128
  const LOCATION_LEN := 256
  const BUFFER_LEN := 2048

  // ---- Characters, in the C locale ----

  predicate Printable(c: char) {
    ' ' <= c <= '~'
  }

  /** Printable and not a space: what trimming stops at. */
  predicate Visible(c: char) {
    ' ' < c <= '~'
  }

  function Lower(c: char): char {
    if 'A' <= c <= 'Z' then (c as int + 32) as char else c
  }

  function LowerAll(s: string): (r: string)
    ensures |r| == |s|
  {
    seq(|s|, i requires 0 <= i < |s| => Lower(s[i]))
  }

  function TrimLeft(s: string): string {
    if s == [] || Visible(s[0]) then s else TrimLeft(s[1..])
  }

  function TrimRight(s: string): string {
    if s == [] || Visible(s[|s| - 1]) then s else TrimRight(s[..|s| - 1])
  }

  function Trim(s: string): string {
    TrimRight(TrimLeft(s))
  }

  /** The first colon at index `from` or behind. */
  function ColonIndex(s: string, from: nat): (i: Option<nat>)
    requires from <= |s|
    ensures i.Some? ==> from <= i.value < |s| && s[i.value] == ':' && ':' !in s[from..i.value]
    ensures i.None? ==> ':' !in s[from..]
    decreases |s| - from
  {
    if from == |s| then None else if s[from] == ':' then Some(from) else ColonIndex(s, from + 1)
  }

  /** A first colon is the first colon. */
  lemma {:induction false} ColonIndexIs(line: string, from: nat, c: nat)
    requires from <= c < |line| && line[c] == ':' && ':' !in line[from..c]
    ensures ColonIndex(line, from) == Some(c)
    decreases c - from
  {
    if from < c {
      assert line[from..c][0] == line[from];
      assert line[from + 1..c] == line[from..c][1..];
      ColonIndexIs(line, from + 1, c);
    }
  }

  // ---- The fields of a packet ----

  datatype Field = St | Usn | Location | SmId | DeviceType

  /** The field a header name stands for; ST and NT both name the search target. */
  function FieldOf(name: string): Option<Field> {
    var n := LowerAll(name);
    if n == "st" || n == "nt" then Some(St)
    else if n == "usn" then Some(Usn)
    else if n == "location" then Some(Location)
    else if n == "sm_id" then Some(SmId)
    else if n == "dev_type" then Some(DeviceType)
    else None
  }

  function Size(f: Field): nat {
    if f == Location then LOCATION_LEN else FIELD_LEN
  }

  /** The character arrays of a packet. */
  datatype Buffers = Buffers(st: string, usn: string, location: string, smId: string, deviceType: string)

  function Get(b: Buffers, f: Field): string {
    match f
    case St => b.st
    case Usn => b.usn
    case Location => b.location
    case SmId => b.smId
    case DeviceType => b.deviceType
  }

  function Set(b: Buffers, f: Field, s: string): Buffers {
    match f
    case St => b.(st := s)
    case Usn => b.(usn := s)
    case Location => b.(location := s)
    case SmId => b.(smId := s)
    case DeviceType => b.(deviceType := s)
  }

  ghost predicate Sized(b: Buffers) {
    forall f :: |Get(b, f)| == Size(f)
  }

  function Zeros(n: nat): (s: string)
    ensures |s| == n && forall i :: 0 <= i < n ==> s[i] == '\0'
  {
    seq(n, _ => '\0')
  }

  function Blank(): Buffers {
    Buffers(Zeros(FIELD_LEN), Zeros(FIELD_LEN), Zeros(LOCATION_LEN), Zeros(FIELD_LEN), Zeros(FIELD_LEN))
  }

  /** `memcpy` of a value that is cut to leave room for the terminator; what lay behind it stays. */
  function Overlay(buf: string, value: string): (r: string)
    requires |buf| > 0
    ensures |r| == |buf|
  {
    var n := if |value| < |buf| then |value| else |buf| - 1;
    value[..n] + buf[n..]
  }

  /** The C string in a buffer. */
  function Text(buf: string): string {
    if buf == [] || buf[0] == '\0' then [] else [buf[0]] + Text(buf[1..])
  }

  function Assign(b: Buffers, name: string, value: string): (r: Buffers)
    requires Sized(b)
    ensures Sized(r)
  {
    match FieldOf(name)
    case None => b
    case Some(f) => Set(b, f, Overlay(Get(b, f), value))
  }

  /** Name and value of a line, trimmed, if it has both. */
  function Parts(line: string): Option<(string, string)>
    requires |line| > 0
  {
    if line[0] == ':' then None
    else
      match ColonIndex(line, 1)
      case None => None
      case Some(c) =>
        var name, value := Trim(line[..c]), Trim(line[c + 1..]);
        if c == |line| - 1 || name == [] || value == [] then None else Some((name, value))
  }

  /** `parse_field_line` on the characters of one line. */
  function ParseLine(line: string, b: Buffers): (r: Buffers)
    requires |line| > 0 && Sized(b)
    ensures Sized(r)
  {
    match Parts(line) case None => b case Some((name, value)) => Assign(b, name, value)
  }

  /** The loop over the text: `start` is where the current line began, i the position reached. */
  function ScanLines(data: string, start: nat, i: nat, b: Buffers): (r: Buffers)
    requires 0 < start <= i <= |data| && Sized(b)
    ensures Sized(r)
    decreases |data| - i
  {
    if i == |data| then b
    else if data[i] == '\n' && i - 1 > start && data[i - 1] == '\r' then
      ScanLines(data, i + 1, i + 1, ParseLine(data[start..i - 1], b))
    else ScanLines(data, start, i + 1, b)
  }

  // ---- Methods ----

  datatype Method = MSearch | Notify | Response

  function Header(m: Method): (s: string)
    ensures |s| > 0
  {
    match m
    case MSearch => "M-SEARCH * HTTP/1.1\r\n"
    case Notify => "NOTIFY * HTTP/1.1\r\n"
    case Response => "HTTP/1.1 200 OK\r\n"
  }

  function MethodName(m: Method): string {
    match m
    case MSearch => "M-SEARCH"
    case Notify => "NOTIFY"
    case Response => "RESPONSE"
  }

  predicate Begins(data: string, m: Method) {
    |Header(m)| < |data| && Header(m) <= data
  }

  function MethodOf(data: string): (m: Option<Method>)
    ensures m.Some? ==> Begins(data, m.value)
  {
    if Begins(data, MSearch) then Some(MSearch)
    else if Begins(data, Notify) then Some(Notify)
    else if Begins(data, Response) then Some(Response)
    else None
  }

  /** The method of a text that is a C string; a text with a terminator inside is refused. */
  function MethodIn(data: string): (m: Option<Method>)
    ensures m.Some? ==> Begins(data, m.value)
  {
    if '\0' in data then None else MethodOf(data)
  }

  // ---- Printing ----

  /** A header line, printed as name, colon, value and the two end-of-line characters. */
  datatype Line = Line(name: string, value: string)

  function PrintLine(l: Line): string {
    l.name + ":" + l.value + "\r\n"
  }

  function PrintLines(lines: seq<Line>): string {
    if lines == [] then "\r\n" else PrintLine(lines[0]) + PrintLines(lines[1..])
  }

  function Message(m: Method, lines: seq<Line>): string {
    Header(m) + PrintLines(lines)
  }

  /** `snprintf` into a buffer of n characters. */
  function Truncated(s: string, n: nat): string
    requires n > 0
  {
    if |s| < n then s else s[..n - 1]
  }

  function Decimal(n: nat): (s: string)
    ensures |s| > 0 && forall i :: 0 <= i < |s| ==> '0' <= s[i] <= '9'
  {
    var digit := ['0' + (n % 10) as char];
    if n < 10 then digit else Decimal(n / 10) + digit
  }

  /** The header values of a context, each a C string in an array of FIELD_LEN characters. */
  datatype Headers = Headers(searchTarget: string, usn: string, prefix: string, domain: string, suffix: string,
                             smId: string, deviceType: string)

  /** The domain, or the interface's address where there is none, between prefix and suffix. */
  function LocationValue(h: Headers, ip: string): string {
    h.prefix + (if |h.domain| > 0 then h.domain else ip) + h.suffix
  }

  const MULTICAST := "239.255.255.250"

  function MSearchLines(h: Headers, port: nat): seq<Line> {
    [Line("HOST", MULTICAST + ":" + Decimal(port)), Line("MAN", "\"ssdp:discover\""), Line("MX", "1"),
     Line("ST", h.searchTarget), Line("USER-AGENT", "OS/version product/version")]
  }

  function NotifyLines(h: Headers, port: nat, ip: string): seq<Line> {
    [Line("HOST", MULTICAST + ":" + Decimal(port)), Line("CACHE-CONTROL", "max-age=120"),
     Line("LOCATION", LocationValue(h, ip)), Line("SERVER", "OS/version product/version"),
     Line("NT", h.searchTarget), Line("NTS", "ssdp:alive"), Line("USN", h.usn),
     Line("SM_ID", h.smId), Line("DEV_TYPE", h.deviceType)]
  }

  function ResponseLines(h: Headers, ip: string): seq<Line> {
    [Line("CACHE-CONTROL", "max-age=120"), Line("DATE", ""), Line("EXT", ""),
     Line("LOCATION", LocationValue(h, ip)), Line("SERVER", "OS/version product/version"),
     Line("ST", h.searchTarget), Line("USN", h.usn), Line("SM_ID", h.smId), Line("DEV_TYPE", h.deviceType)]
  }

  function PrintMSearch(h: Headers, port: nat): string {
    Truncated(Message(MSearch, MSearchLines(h, port)), BUFFER_LEN)
  }

  function PrintNotify(h: Headers, port: nat, ip: string): string {
    Truncated(Message(Notify, NotifyLines(h, port, ip)), BUFFER_LEN)
  }

  function PrintResponse(h: Headers, ip: string): string {
    Truncated(Message(Response, ResponseLines(h, ip)), BUFFER_LEN)
  }
}
