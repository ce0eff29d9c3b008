/** What one host prints, another parses: the method, and exactly the fields that the message carries. */
module SsdpRoundTrip {
  import opened Options
  import opened SsdpText

  /** Printable throughout, with no space at either end; possibly empty. */
  predicate CleanValue(v: string) {
    && (forall i :: 0 <= i < |v| ==> Printable(v[i]))
    && (v != [] ==> Visible(v[0]) && Visible(v[|v| - 1]))
  }

  predicate CleanName(n: string) {
    n != [] && forall i :: 0 <= i < |n| ==> Visible(n[i]) && n[i] != ':'
  }

  predicate CleanLine(l: Line) {
    CleanName(l.name) && CleanValue(l.value)
  }

  predicate CleanLines(lines: seq<Line>) {
    forall i :: 0 <= i < |lines| ==> CleanLine(lines[i])
  }

  // ---- Any line ----

  /** The same letter, but for its case, or the same character. */
  predicate SameLetter(c: char, d: char) {
    || c == d
    || ('a' <= c <= 'z' && d as int == c as int - 32)
    || ('a' <= d <= 'z' && c as int == d as int - 32)
  }

  predicate SameName(a: string, b: string) {
    |a| == |b| && forall i :: 0 <= i < |a| ==> SameLetter(a[i], b[i])
  }

  function KeysOf(f: Field): seq<string> {
    match f
    case St => ["st", "nt"]
    case Usn => ["usn"]
    case Location => ["location"]
    case SmId => ["sm_id"]
    case DeviceType => ["dev_type"]
  }

  lemma SameNameIsLower(name: string, key: string)
    requires forall i :: 0 <= i < |key| ==> !('A' <= key[i] <= 'Z')
    ensures SameName(name, key) <==> LowerAll(name) == key
  {
    if SameName(name, key) {
      forall i | 0 <= i < |name|
        ensures LowerAll(name)[i] == key[i]
      {
        assert SameLetter(name[i], key[i]);
      }
    } else if LowerAll(name) == key {
      forall i | 0 <= i < |name|
        ensures SameLetter(name[i], key[i])
      {
        assert key[i] == LowerAll(name)[i];
      }
    }
  }

  /** A header name stands for a field exactly if it is one of the field's keys in any mixture of upper and lower case. */
  lemma FieldOfExactly(name: string, f: Field)
    ensures FieldOf(name) == Some(f) <==> exists i :: 0 <= i < |KeysOf(f)| && SameName(name, KeysOf(f)[i])
  {
    SameNameIsLower(name, "st");
    SameNameIsLower(name, "nt");
    SameNameIsLower(name, "usn");
    SameNameIsLower(name, "location");
    SameNameIsLower(name, "sm_id");
    SameNameIsLower(name, "dev_type");
    assert KeysOf(f)[0] != [] && KeysOf(St)[1] == "nt";
  }

  lemma {:induction false} TrimLeftExactly(s: string) returns (i: nat)
    ensures i <= |s| && TrimLeft(s) == s[i..] && (i < |s| ==> Visible(s[i])) && forall k :: 0 <= k < i ==> !Visible(s[k])
  {
    i := 0;
    if s != [] && !Visible(s[0]) {
      i := TrimLeftExactly(s[1..]);
      i := i + 1;
    }
  }

  lemma {:induction false} TrimRightExactly(s: string) returns (j: nat)
    ensures j <= |s| && TrimRight(s) == s[..j] && (j > 0 ==> Visible(s[j - 1])) && forall k :: j <= k < |s| ==> !Visible(s[k])
  {
    j := |s|;
    if s != [] && !Visible(s[|s| - 1]) {
      j := TrimRightExactly(s[..|s| - 1]);
    }
  }

  /** Trimming takes away all of the invisible characters at both ends and nothing else. */
  lemma TrimExactly(s: string) returns (i: nat, j: nat)
    ensures i <= j <= |s| && Trim(s) == s[i..j]
    ensures i < j ==> ' ' < s[i] <= '~' && ' ' < s[j - 1] <= '~'
    ensures forall k :: 0 <= k < |s| && !(i <= k < j) ==> !(' ' < s[k] <= '~')
  {
    i := TrimLeftExactly(s);
    var n := TrimRightExactly(s[i..]);
    j := i + n;
    assert forall k :: j <= k < |s| ==> s[k] == s[i..][k - i];
  }

  lemma {:induction false} NoColon(line: string, from: nat)
    requires from <= |line| && ':' !in line
    ensures ColonIndex(line, from).None?
    decreases |line| - from
  {
    if from < |line| {
      assert line[from] in line;
      NoColon(line, from + 1);
    }
  }

  /** A line is cut at its first colon, and counts only if there is something visible on both sides of it. */
  lemma PartsExactly(line: string, c: nat)
    requires 0 < |line| && c <= |line| && ':' !in line[..c] && (c < |line| ==> line[c] == ':')
    ensures Parts(line) ==
            if c == |line| || Trim(line[..c]) == [] || Trim(line[c + 1..]) == [] then None
            else Some((Trim(line[..c]), Trim(line[c + 1..])))
  {
    if c == |line| {
      assert line[..c] == line;
      assert line[0] in line;
      NoColon(line, 1);
    } else if c > 0 {
      assert line[0] in line[..c];
      assert forall x :: x in line[1..c] ==> x in line[..c];
      ColonIndexIs(line, 1, c);
    }
  }

  /**
   A value is copied over what its field held, and no terminator with it: a field that two lines name keeps the
   end of the first value, if that is longer.
   */
  lemma SecondValueOverlays(v: string, w: string, n: nat)
    requires |v| < n && |w| < n && '\0' !in v && '\0' !in w
    ensures Text(Overlay(Overlay(Zeros(n), v), w)) == if |w| < |v| then w + v[|w|..] else w
  {
    var first := Overlay(Zeros(n), v);
    var buf := Overlay(first, w);
    assert forall k :: 0 <= k < n ==> first[k] == if k < |v| then v[k] else '\0';
    assert forall k :: 0 <= k < n ==> buf[k] == if k < |w| then w[k] else first[k];
    var text := if |w| < |v| then w + v[|w|..] else w;
    assert |text| < |buf| && text == buf[..|text|] && buf[|text|] == '\0';
    TextOf(text, buf);
  }

  // ---- One line ----

  lemma {:induction false} FirstColon(name: string, value: string, from: nat)
    requires from <= |name| && forall i :: 0 <= i < |name| ==> name[i] != ':'
    ensures ColonIndex(name + ":" + value, from) == Some(|name|)
    decreases |name| - from
  {
    if from < |name| {
      FirstColon(name, value, from + 1);
    }
  }

  function Apply(l: Line, b: Buffers): (r: Buffers)
    requires Sized(b)
    ensures Sized(r)
  {
    if l.value == [] then b else Assign(b, l.name, l.value)
  }

  lemma {:induction false} ParsePrintedLine(l: Line, b: Buffers)
    requires CleanLine(l) && Sized(b)
    ensures ParseLine(l.name + ":" + l.value, b) == Apply(l, b)
  {
    var line, n := l.name + ":" + l.value, |l.name|;
    FirstColon(l.name, l.value, 1);
    assert line[0] == l.name[0];
    assert line[..n] == l.name && line[n + 1..] == l.value;
    assert Trim(l.name) == l.name && Trim(l.value) == l.value;
  }

  // ---- The text line by line ----

  /** A line that has begun at `start` ends at k. */
  predicate LineEnd(data: string, start: nat, k: nat)
    requires start <= k < |data|
  {
    data[k] == '\n' && k > start + 1 && data[k - 1] == '\r'
  }

  lemma {:induction false} ScanWithin(data: string, start: nat, i: nat, e: nat, b: Buffers)
    requires 0 < start <= i <= e <= |data| && Sized(b)
    requires forall k :: i <= k < e ==> !LineEnd(data, start, k)
    ensures ScanLines(data, start, i, b) == ScanLines(data, start, e, b)
    decreases e - i
  {
    if i < e {
      assert !LineEnd(data, start, i);
      ScanWithin(data, start, i + 1, e, b);
    }
  }

  /**
   The scan takes any text line by line: the characters up to the next end of line, which an empty line does not
   make, are one line, and what is behind the last end of line is left unread.
   */
  lemma ScanTakesLines(data: string, start: nat, e: nat, b: Buffers)
    requires 0 < start <= e <= |data| && Sized(b) && (e < |data| ==> LineEnd(data, start, e))
    requires forall k :: start <= k < e ==> !LineEnd(data, start, k)
    ensures ScanLines(data, start, start, b) ==
            if e == |data| then b else ScanLines(data, e + 1, e + 1, ParseLine(data[start..e - 1], b))
  {
    ScanWithin(data, start, start, e, b);
  }

  function Fold(lines: seq<Line>, b: Buffers): (r: Buffers)
    requires Sized(b)
    ensures Sized(r)
  {
    if lines == [] then b else Fold(lines[1..], Apply(lines[0], b))
  }

  /** In a printed line the first newline is its last character, behind a carriage return. */
  lemma {:induction false} LineEnds(data: string, start: nat, l: Line)
    requires start + |PrintLine(l)| <= |data| && data[start..start + |PrintLine(l)|] == PrintLine(l) && CleanLine(l)
    ensures var e := start + |PrintLine(l)| - 1;
            && data[e] == '\n' && data[e - 1] == '\r' && (forall k :: start <= k < e ==> data[k] != '\n')
            && data[start..e - 1] == l.name + ":" + l.value
  {
    var text := l.name + ":" + l.value;
    var p := PrintLine(l);
    var e := start + |p| - 1;
    assert p == text + "\r\n";
    assert forall k :: 0 <= k < |p| ==> data[start + k] == data[start..start + |p|][k] == p[k];
    forall k | start <= k < e
      ensures data[k] != '\n'
    {
      assert data[start + (k - start)] == p[k - start];
    }
    assert data[start + |text|] == p[|text|] && data[start + (|text| + 1)] == p[|text| + 1];
    assert data[start..e - 1] == data[start..start + |p|][..|text|];
  }

  lemma {:induction false} ScanLine(data: string, start: nat, l: Line, b: Buffers)
    requires 0 < start && start + |PrintLine(l)| <= |data| && data[start..start + |PrintLine(l)|] == PrintLine(l)
    requires CleanLine(l) && Sized(b)
    ensures var next := start + |PrintLine(l)|;
            ScanLines(data, start, start, b) == ScanLines(data, next, next, Apply(l, b))
  {
    var e := start + |PrintLine(l)| - 1;
    LineEnds(data, start, l);
    ScanTakesLines(data, start, e, b);
    ParsePrintedLine(l, b);
  }

  lemma {:induction false} ScanPrinted(data: string, start: nat, lines: seq<Line>, b: Buffers)
    requires 0 < start <= |data| && data[start..] == PrintLines(lines) && CleanLines(lines) && Sized(b)
    ensures ScanLines(data, start, start, b) == Fold(lines, b)
    decreases |lines|
  {
    if lines == [] {
      assert data[start] == data[start..][0] && data[start + 1] == data[start..][1];
      assert |data| == start + 2;
      assert ScanLines(data, start, start + 2, b) == b;
      assert ScanLines(data, start, start + 1, b) == b;
    } else {
      var p := PrintLine(lines[0]);
      var next := start + |p|;
      assert data[start..next] == data[start..][..|p|] == p;
      assert data[next..] == data[start..][|p|..] == PrintLines(lines[1..]);
      ScanLine(data, start, lines[0], b);
      ScanPrinted(data, next, lines[1..], Apply(lines[0], b));
    }
  }

  // ---- The fields ----

  /** A line decides the field it names and leaves the others. */
  lemma {:induction false} ApplyGet(l: Line, b: Buffers, f: Field)
    requires Sized(b)
    ensures Get(Apply(l, b), f) ==
            if FieldOf(l.name) == Some(f) && l.value != [] then Overlay(Get(b, f), l.value) else Get(b, f)
  {
  }

  lemma {:induction false} FoldOther(lines: seq<Line>, b: Buffers, f: Field)
    requires Sized(b) && forall i :: 0 <= i < |lines| ==> FieldOf(lines[i].name) != Some(f)
    ensures Get(Fold(lines, b), f) == Get(b, f)
    decreases |lines|
  {
    if lines != [] {
      ApplyGet(lines[0], b, f);
      FoldOther(lines[1..], Apply(lines[0], b), f);
    }
  }

  /** The one line that names a field decides it. */
  lemma {:induction false} FoldOnly(lines: seq<Line>, b: Buffers, f: Field, i: nat)
    requires Sized(b) && i < |lines| && FieldOf(lines[i].name) == Some(f)
    requires forall j :: 0 <= j < |lines| && j != i ==> FieldOf(lines[j].name) != Some(f)
    ensures Get(Fold(lines, b), f) == if lines[i].value == [] then Get(b, f) else Overlay(Get(b, f), lines[i].value)
    decreases |lines|
  {
    ApplyGet(lines[0], b, f);
    if i == 0 {
      FoldOther(lines[1..], Apply(lines[0], b), f);
    } else {
      assert lines[1..][i - 1] == lines[i];
      FoldOnly(lines[1..], Apply(lines[0], b), f, i - 1);
    }
  }

  lemma {:induction false} TextOf(v: string, buf: string)
    requires |v| < |buf| && v == buf[..|v|] && '\0' !in v && buf[|v|] == '\0'
    ensures Text(buf) == v
    decreases |v|
  {
    if v != [] {
      assert v[0] == buf[0] && v[0] in v;
      assert buf[1..][..|v| - 1] == buf[..|v|][1..];
      TextOf(v[1..], buf[1..]);
    }
  }

  /** A field that was blank holds the value, cut to the length of the field. */
  lemma {:induction false} TextOfOverlay(v: string, n: nat)
    requires n > 0 && CleanValue(v)
    ensures Text(Overlay(Zeros(n), v)) == Truncated(v, n)
    ensures Text(Zeros(n)) == []
  {
    var m := if |v| < n then |v| else n - 1;
    var buf := Overlay(Zeros(n), v);
    var w := v[..m];
    assert |w| == m && w == buf[..|w|] && buf[m] == '\0';
    assert forall k :: 0 <= k < m ==> w[k] == v[k] && Printable(v[k]);
    TextOf(w, buf);
  }

  // ---- Whole messages ----

  lemma {:induction false} NoTerminator(lines: seq<Line>)
    requires CleanLines(lines)
    ensures '\0' !in PrintLines(lines)
    decreases |lines|
  {
    if lines != [] {
      NoTerminator(lines[1..]);
      var l := lines[0];
      assert '\0' !in l.name && '\0' !in l.value;
      assert '\0' !in PrintLine(l);
    }
  }

  lemma {:induction false} MethodOfMessage(m: Method, lines: seq<Line>)
    requires CleanLines(lines)
    ensures MethodIn(Message(m, lines)) == Some(m)
  {
    var data := Message(m, lines);
    NoTerminator(lines);
    assert '\0' !in Header(m);
    assert data[0] == Header(m)[0];
    assert Header(m) <= data;
    assert |PrintLines(lines)| > 0;
  }

  /** A text is a message of the method exactly if it is a C string that goes on behind the method's first line. */
  lemma MethodExactly(data: string, m: Method)
    ensures MethodIn(data) == Some(m) <==> '\0' !in data && Header(m) < data
  {
    if Header(m) < data {
      assert data[0] == Header(m)[0];
    }
  }

  const LINE_LEN := 160

  /** A clean line that is not long. */
  predicate Short(l: Line) {
    CleanLine(l) && |PrintLine(l)| <= LINE_LEN
  }

  /** All lines but the i-th are short. */
  lemma {:induction false} LinesSize(lines: seq<Line>, i: int)
    requires forall j :: 0 <= j < |lines| && j != i ==> Short(lines[j])
    ensures |PrintLines(lines)| <= 2 + |lines| * LINE_LEN + if 0 <= i < |lines| then |PrintLine(lines[i])| else 0
    decreases |lines|
  {
    if lines != [] {
      var rest := lines[1..];
      LinesSize(rest, i - 1);
      assert 0 <= i - 1 < |rest| ==> rest[i - 1] == lines[i];
    }
  }

  lemma {:induction false} DecimalSize(n: nat, k: nat, bound: nat)
    requires k > 0 && n < bound && bound == (if k == 1 then 10 else if k == 2 then 100 else if k == 3 then 1000
                                              else if k == 4 then 10000 else 100000) && k <= 5
    ensures |Decimal(n)| <= k
    decreases k
  {
    if k > 1 && n >= 10 {
      DecimalSize(n / 10, k - 1, bound / 10);
    }
  }

  /** The values a context may hold for its messages to be read back: clean, and short enough for their arrays. */
  predicate CleanHeaders(h: Headers) {
    && CleanValue(h.searchTarget) && CleanValue(h.usn) && CleanValue(h.smId) && CleanValue(h.deviceType)
    && |h.searchTarget| < 128 && |h.usn| < 128 && |h.smId| < 128 && |h.deviceType| < 128
  }

  /** Prefix, domain and suffix, too, have arrays of FIELD_LEN characters, and the address a shorter one. */
  predicate CleanLocation(h: Headers, ip: string) {
    && CleanValue(LocationValue(h, ip))
    && |h.prefix| < FIELD_LEN && |h.domain| < FIELD_LEN && |h.suffix| < FIELD_LEN && |ip| < FIELD_LEN
  }

  /** Method and fields of a parsed text. */
  ghost predicate ParsesTo(data: string, m: Method, fields: Buffers) {
    && MethodIn(data) == Some(m)
    && forall f :: Text(Get(ScanLines(data, |Header(m)|, |Header(m)|, Blank()), f)) == Get(fields, f)
  }

  /** The fields of a search, and those of a notification or response: a location over 255 characters is cut. */
  function SearchFields(h: Headers): Buffers {
    Buffers(h.searchTarget, "", "", "", "")
  }

  function OwnFields(h: Headers, ip: string): Buffers {
    Buffers(h.searchTarget, h.usn, Truncated(LocationValue(h, ip), 256), h.smId, h.deviceType)
  }

  lemma {:induction false} ScanMessage(m: Method, lines: seq<Line>)
    requires CleanLines(lines)
    ensures MethodIn(Message(m, lines)) == Some(m)
    ensures ScanLines(Message(m, lines), |Header(m)|, |Header(m)|, Blank()) == Fold(lines, Blank())
  {
    MethodOfMessage(m, lines);
    assert Message(m, lines)[|Header(m)|..] == PrintLines(lines);
    ScanPrinted(Message(m, lines), |Header(m)|, lines, Blank());
  }

  /** What the lines of a message name. */
  predicate Keyed(lines: seq<Line>, keys: seq<Option<Field>>) {
    |lines| == |keys| && forall j :: 0 <= j < |lines| ==> FieldOf(lines[j].name) == keys[j]
  }

  /** The field's text after parsing a message: the value of the line that names it, or nothing. */
  lemma {:induction false} FieldText(lines: seq<Line>, keys: seq<Option<Field>>, f: Field, i: nat, v: string)
    requires CleanLines(lines) && Keyed(lines, keys)
    requires (i < |lines| && keys[i] == Some(f) && lines[i].value == v) || (i == |lines| && v == [])
    requires forall j :: 0 <= j < |lines| && j != i ==> keys[j] != Some(f)
    ensures Text(Get(Fold(lines, Blank()), f)) == Truncated(v, Size(f))
  {
    TextOfOverlay(v, Size(f));
    if i < |lines| {
      FoldOnly(lines, Blank(), f, i);
    } else {
      FoldOther(lines, Blank(), f);
    }
  }

  lemma {:induction false} OtherNames()
    ensures FieldOf("HOST") == FieldOf("MAN") == FieldOf("MX") == FieldOf("USER-AGENT") == FieldOf("CACHE-CONTROL") ==
            FieldOf("SERVER") == FieldOf("NTS") == FieldOf("DATE") == FieldOf("EXT") == None
  {
    assert LowerAll("HOST")[0] == 'h' && LowerAll("MAN")[0] == 'm' && LowerAll("MX")[0] == 'm';
    assert LowerAll("NTS")[0] == 'n' && LowerAll("EXT")[0] == 'e';
  }

  lemma {:induction false} FieldNames()
    ensures FieldOf("ST") == FieldOf("NT") == Some(St)
    ensures FieldOf("USN") == Some(Usn) && FieldOf("LOCATION") == Some(Location)
    ensures FieldOf("SM_ID") == Some(SmId) && FieldOf("DEV_TYPE") == Some(DeviceType)
  {
    assert LowerAll("ST") == "st" && LowerAll("NT") == "nt" && LowerAll("USN") == "usn";
    assert LowerAll("LOCATION") == "location" && LowerAll("SM_ID") == "sm_id" && LowerAll("DEV_TYPE") == "dev_type";
  }

  lemma {:induction false} PortValue(port: nat)
    requires port < 0x1_0000
    ensures CleanValue(MULTICAST + ":" + Decimal(port)) && |Decimal(port)| <= 5
  {
    DecimalSize(port, 5, 100000);
    var v := MULTICAST + ":" + Decimal(port);
    assert v[|v| - 1] == Decimal(port)[|Decimal(port)| - 1];
  }

  function MSearchKeys(): seq<Option<Field>> {
    [None, None, None, Some(St), None]
  }

  function NotifyKeys(): seq<Option<Field>> {
    [None, None, Some(Location), None, Some(St), None, Some(Usn), Some(SmId), Some(DeviceType)]
  }

  function ResponseKeys(): seq<Option<Field>> {
    [None, None, None, Some(Location), None, Some(St), Some(Usn), Some(SmId), Some(DeviceType)]
  }

  lemma {:induction false} MSearchKeyed(h: Headers, port: nat)
    ensures Keyed(MSearchLines(h, port), MSearchKeys())
  {
    FieldNames();
    OtherNames();
  }

  lemma {:induction false} NotifyKeyed(h: Headers, port: nat, ip: string)
    ensures Keyed(NotifyLines(h, port, ip), NotifyKeys())
  {
    FieldNames();
    OtherNames();
  }

  lemma {:induction false} ResponseKeyed(h: Headers, ip: string)
    ensures Keyed(ResponseLines(h, ip), ResponseKeys())
  {
    FieldNames();
    OtherNames();
  }

  /** All lines are clean, and all but the i-th are short. */
  predicate Printed(lines: seq<Line>, i: int) {
    forall j :: 0 <= j < |lines| ==> if j == i then CleanLine(lines[j]) else Short(lines[j])
  }

  lemma {:induction false} ShortLine(name: string, value: string)
    requires CleanName(name) && CleanValue(value) && |name| <= 13 && |value| < FIELD_LEN
    ensures Short(Line(name, value))
  {
  }

  lemma {:induction false} ConstantLines()
    ensures Short(Line("MAN", "\"ssdp:discover\"")) && Short(Line("MX", "1"))
    ensures Short(Line("USER-AGENT", "OS/version product/version")) && Short(Line("SERVER", "OS/version product/version"))
    ensures Short(Line("CACHE-CONTROL", "max-age=120")) && Short(Line("NTS", "ssdp:alive"))
    ensures Short(Line("DATE", "")) && Short(Line("EXT", ""))
  {
    OtherLines();
    ShortLine("MAN", "\"ssdp:discover\"");
    ShortLine("MX", "1");
    ShortLine("USER-AGENT", "OS/version product/version");
    ShortLine("SERVER", "OS/version product/version");
  }

  lemma OtherLines()
    ensures Short(Line("CACHE-CONTROL", "max-age=120")) && Short(Line("NTS", "ssdp:alive"))
    ensures Short(Line("DATE", "")) && Short(Line("EXT", ""))
  {
    ShortLine("CACHE-CONTROL", "max-age=120");
    ShortLine("NTS", "ssdp:alive");
    ShortLine("DATE", "");
    ShortLine("EXT", "");
  }

  lemma {:induction false} MSearchPrinted(h: Headers, port: nat)
    requires CleanHeaders(h) && port < 0x1_0000
    ensures Printed(MSearchLines(h, port), 5)
  {
    PortValue(port);
    ShortLine("HOST", MULTICAST + ":" + Decimal(port));
    ShortLine("ST", h.searchTarget);
    ConstantLines();
  }

  /** The four lines with the context's own values, and the location. */
  lemma {:induction false} OwnLines(h: Headers, ip: string)
    requires CleanHeaders(h) && CleanLocation(h, ip)
    ensures Short(Line("NT", h.searchTarget)) && Short(Line("ST", h.searchTarget)) && Short(Line("USN", h.usn))
    ensures Short(Line("SM_ID", h.smId)) && Short(Line("DEV_TYPE", h.deviceType))
    ensures CleanLine(Line("LOCATION", LocationValue(h, ip)))
  {
    ShortLine("NT", h.searchTarget);
    ShortLine("ST", h.searchTarget);
    ShortLine("USN", h.usn);
    ShortLine("SM_ID", h.smId);
    ShortLine("DEV_TYPE", h.deviceType);
  }

  lemma {:induction false} NotifyPrinted(h: Headers, port: nat, ip: string)
    requires CleanHeaders(h) && CleanLocation(h, ip) && port < 0x1_0000
    ensures Printed(NotifyLines(h, port, ip), 2)
  {
    PortValue(port);
    ShortLine("HOST", MULTICAST + ":" + Decimal(port));
    OwnLines(h, ip);
    ConstantLines();
  }

  lemma {:induction false} ResponsePrinted(h: Headers, ip: string)
    requires CleanHeaders(h) && CleanLocation(h, ip)
    ensures Printed(ResponseLines(h, ip), 3)
  {
    OwnLines(h, ip);
    ConstantLines();
  }

  /** The print buffer is large enough: nothing is cut. */
  lemma {:induction false} NothingCut(m: Method, lines: seq<Line>, i: int)
    requires |lines| <= 9 && Printed(lines, i)
    requires 0 <= i < |lines| ==> |PrintLine(lines[i])| <= 500
    ensures CleanLines(lines) && Truncated(Message(m, lines), BUFFER_LEN) == Message(m, lines)
  {
    LinesSize(lines, i);
    assert |Header(m)| <= 21;
  }

  lemma {:induction false} MSearchField(h: Headers, port: nat, f: Field)
    requires CleanHeaders(h) && CleanLines(MSearchLines(h, port))
    ensures Text(Get(Fold(MSearchLines(h, port), Blank()), f)) == Get(SearchFields(h), f)
  {
    MSearchKeyed(h, port);
    FieldText(MSearchLines(h, port), MSearchKeys(), f, if f == St then 3 else 5, Get(SearchFields(h), f));
  }

  lemma {:induction false} NotifyField(h: Headers, port: nat, ip: string, f: Field)
    requires CleanHeaders(h) && CleanLocation(h, ip) && CleanLines(NotifyLines(h, port, ip))
    ensures Text(Get(Fold(NotifyLines(h, port, ip), Blank()), f)) == Get(OwnFields(h, ip), f)
  {
    var i := match f case Location => 2 case St => 4 case Usn => 6 case SmId => 7 case DeviceType => 8;
    NotifyKeyed(h, port, ip);
    FieldText(NotifyLines(h, port, ip), NotifyKeys(), f, i, NotifyLines(h, port, ip)[i].value);
  }

  lemma {:induction false} ResponseField(h: Headers, ip: string, f: Field)
    requires CleanHeaders(h) && CleanLocation(h, ip) && CleanLines(ResponseLines(h, ip))
    ensures Text(Get(Fold(ResponseLines(h, ip), Blank()), f)) == Get(OwnFields(h, ip), f)
  {
    var i := match f case Location => 3 case St => 5 case Usn => 6 case SmId => 7 case DeviceType => 8;
    ResponseKeyed(h, ip);
    FieldText(ResponseLines(h, ip), ResponseKeys(), f, i, ResponseLines(h, ip)[i].value);
  }

  /** A search carries its target and nothing else. */
  lemma {:induction false} MSearchRoundTrip(h: Headers, port: nat)
    requires CleanHeaders(h) && port < 0x1_0000
    ensures ParsesTo(PrintMSearch(h, port), MSearch, SearchFields(h))
  {
    MSearchPrinted(h, port);
    NothingCut(MSearch, MSearchLines(h, port), 5);
    ScanMessage(MSearch, MSearchLines(h, port));
    forall f {
      MSearchField(h, port, f);
    }
  }

  /** A notification carries all five fields. */
  lemma {:induction false} NotifyRoundTrip(h: Headers, port: nat, ip: string)
    requires CleanHeaders(h) && CleanLocation(h, ip) && port < 0x1_0000
    ensures ParsesTo(PrintNotify(h, port, ip), Notify, OwnFields(h, ip))
  {
    NotifyPrinted(h, port, ip);
    NothingCut(Notify, NotifyLines(h, port, ip), 2);
    ScanMessage(Notify, NotifyLines(h, port, ip));
    forall f {
      NotifyField(h, port, ip, f);
    }
  }

  /** So does a response. */
  lemma {:induction false} ResponseRoundTrip(h: Headers, ip: string)
    requires CleanHeaders(h) && CleanLocation(h, ip)
    ensures ParsesTo(PrintResponse(h, ip), Response, OwnFields(h, ip))
  {
    ResponsePrinted(h, ip);
    NothingCut(Response, ResponseLines(h, ip), 3);
    ScanMessage(Response, ResponseLines(h, ip));
    forall f {
      ResponseField(h, ip, f);
    }
  }
}
