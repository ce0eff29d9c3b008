/** `str_split`: a token count made in advance, and the tokens that `strtok` then cuts out of the string in place. */
module StrSplit {
  import opened Options

  /** The first index at i or behind that holds d, or the end. */
  function TokenEnd(s: string, d: char, i: nat): (e: nat)
    requires i <= |s|
    ensures i <= e <= |s| && (e < |s| ==> s[e] == d)
    decreases |s| - i
  {
    if i < |s| && s[i] != d then TokenEnd(s, d, i + 1) else i
  }

  /** Where the search for the next token starts. */
  function Behind(s: string, e: nat): nat {
    if e < |s| then e + 1 else e
  }

  /** The tokens of s from index i on. */
  function Tokens(s: string, d: char, i: nat): (r: seq<string>)
    requires i <= |s|
    decreases |s| - i
  {
    if i == |s| then []
    else if s[i] == d then Tokens(s, d, i + 1)
    else
      var e := TokenEnd(s, d, i + 1);
      [s[i..e]] + Tokens(s, d, Behind(s, e))
  }

  /** How often d occurs in s from index i on. */
  function Delimiters(s: string, d: char, i: nat): nat
    requires i <= |s|
    decreases |s| - i
  {
    if i == |s| then 0 else (if s[i] == d then 1 else 0) + Delimiters(s, d, i + 1)
  }

  /** The size of the result: one place a delimiter, one if the last character is none, one for the final NULL. */
  function Places(s: string, d: char): nat {
    Delimiters(s, d, 0) + (if s == [] || s[|s| - 1] != d then 1 else 0) + 1
  }

  /** A delimiter right behind another. */
  predicate Doubled(s: string, d: char, i: nat)
    requires 0 < i < |s|
  {
    s[i - 1] == d && s[i] == d
  }

  /** No token is empty: there is a first character, it is no delimiter, and no two delimiters meet. */
  predicate Tight(s: string, d: char) {
    s != [] && s[0] != d && forall i :: 0 < i < |s| ==> !Doubled(s, d, i)
  }

  // ---- Count against tokens ----

  predicate TightFrom(s: string, d: char, i: nat) {
    i < |s| ==> s[i] != d && forall k :: i < k < |s| ==> !Doubled(s, d, k)
  }

  lemma {:induction false} TokenEndClear(s: string, d: char, i: nat)
    requires i <= |s|
    ensures forall k :: i <= k < TokenEnd(s, d, i) ==> s[k] != d
    decreases |s| - i
  {
    if i < |s| && s[i] != d {
      TokenEndClear(s, d, i + 1);
    }
  }

  /** A rest that begins with a token is tight exactly if what follows the token's delimiter is. */
  lemma {:induction false} TightNext(s: string, d: char, i: nat)
    requires i < |s| && s[i] != d
    ensures TightFrom(s, d, i) <==> TightFrom(s, d, Behind(s, TokenEnd(s, d, i + 1)))
  {
    var e := TokenEnd(s, d, i + 1);
    TokenEndClear(s, d, i + 1);
    if e + 1 < |s| {
      assert Doubled(s, d, e + 1) <==> s[e + 1] == d;
    }
  }

  lemma {:induction false} DelimitersPast(s: string, d: char, i: nat)
    requires i <= |s|
    ensures Delimiters(s, d, i) == Delimiters(s, d, TokenEnd(s, d, i))
    decreases |s| - i
  {
    if i < |s| && s[i] != d {
      DelimitersPast(s, d, i + 1);
    }
  }

  /** The places still due to a rest of the string. */
  function Due(s: string, d: char, i: nat): nat
    requires i <= |s|
  {
    Delimiters(s, d, i) + if i < |s| && s[|s| - 1] != d then 1 else 0
  }

  lemma {:induction false} DueNext(s: string, d: char, i: nat)
    requires i < |s| && s[i] != d
    ensures Due(s, d, i) == 1 + Due(s, d, Behind(s, TokenEnd(s, d, i + 1)))
  {
    DelimitersPast(s, d, i + 1);
    TokenEndClear(s, d, i + 1);
  }

  lemma {:induction false} CountFrom(s: string, d: char, i: nat)
    requires i <= |s|
    ensures |Tokens(s, d, i)| <= Due(s, d, i) && (|Tokens(s, d, i)| == Due(s, d, i) <==> TightFrom(s, d, i))
    decreases |s| - i
  {
    if i < |s| {
      if s[i] == d {
        CountFrom(s, d, i + 1);
      } else {
        DueNext(s, d, i);
        TightNext(s, d, i);
        CountFrom(s, d, Behind(s, TokenEnd(s, d, i + 1)));
      }
    }
  }

  /** The places are always enough, and all of them are used exactly for a tight string. */
  lemma {:induction false} PlacesFit(s: string, d: char)
    ensures |Tokens(s, d, 0)| + 1 <= Places(s, d)
    ensures |Tokens(s, d, 0)| + 1 == Places(s, d) <==> Tight(s, d)
  {
    CountFrom(s, d, 0);
  }

  /** The empty string has a place for a token and no token. */
  lemma EmptyMisses(d: char)
    ensures |Tokens("", d, 0)| + 1 < Places("", d)
  {
    assert Delimiters("", d, 0) == 0;
  }

  // ---- Every string ----

  /** The string s ends in b, which begins at index p. */
  predicate EndsIn(s: string, p: nat, b: string) {
    |s| == p + |b| && forall k :: 0 <= k < |b| ==> s[p + k] == b[k]
  }

  lemma {:induction false} TokenEndShift(s: string, p: nat, b: string, d: char, i: nat)
    requires EndsIn(s, p, b) && i <= |b|
    ensures TokenEnd(s, d, p + i) == p + TokenEnd(b, d, i)
    decreases |b| - i
  {
    if i < |b| && b[i] != d {
      TokenEndShift(s, p, b, d, i + 1);
    }
  }

  lemma ShiftedToken(s: string, p: nat, b: string, d: char, i: nat, e: nat)
    requires EndsIn(s, p, b) && i < |b| && b[i] != d && e == TokenEnd(b, d, i + 1)
    requires Tokens(s, d, p + Behind(b, e)) == Tokens(b, d, Behind(b, e))
    ensures Tokens(s, d, p + i) == Tokens(b, d, i)
  {
    TokenEndShift(s, p, b, d, i + 1);
    SameStretch(s, p, b, i, e);
    assert s[p + i] == b[i];
    TokensAt(b, d, i, e);
    TokensAt(s, d, p + i, p + e);
  }

  lemma SameStretch(s: string, p: nat, b: string, i: nat, e: nat)
    requires EndsIn(s, p, b) && i <= e <= |b|
    ensures s[p + i..p + e] == b[i..e]
  {
    var x, y := s[p + i..p + e], b[i..e];
    forall k | 0 <= k < |x|
      ensures x[k] == y[k]
    {
      assert s[p + (i + k)] == b[i + k];
    }
  }

  /** A token begins at i and ends at e. */
  lemma TokensAt(s: string, d: char, i: nat, e: nat)
    requires i < |s| && s[i] != d && e == TokenEnd(s, d, i + 1)
    ensures Tokens(s, d, i) == [s[i..e]] + Tokens(s, d, Behind(s, e))
  {
  }

  /** What stands before index i does not matter. */
  lemma {:induction false} TokensShift(s: string, p: nat, b: string, d: char, i: nat)
    requires EndsIn(s, p, b) && i <= |b|
    ensures Tokens(s, d, p + i) == Tokens(b, d, i)
    decreases |b| - i
  {
    if i < |b| {
      assert s[p + i] == b[i];
      if b[i] == d {
        TokensShift(s, p, b, d, i + 1);
      } else {
        var e := TokenEnd(b, d, i + 1);
        TokensShift(s, p, b, d, Behind(b, e));
        ShiftedToken(s, p, b, d, i, e);
      }
    }
  }

  /** The string s begins with a and a delimiter behind it. */
  predicate BeginsWith(s: string, a: string, d: char) {
    |s| > |a| && s[|a|] == d && forall k :: 0 <= k < |a| ==> s[k] == a[k]
  }

  lemma {:induction false} TokenEndFront(s: string, a: string, d: char, i: nat)
    requires BeginsWith(s, a, d) && i <= |a|
    ensures TokenEnd(s, d, i) == TokenEnd(a, d, i)
    decreases |a| - i
  {
    if i < |a| && a[i] != d {
      TokenEndFront(s, a, d, i + 1);
    }
  }

  /** A token in the first part is a token of the whole. */
  lemma FrontToken(s: string, a: string, d: char, i: nat, e: nat)
    requires BeginsWith(s, a, d) && i < |a| && a[i] != d && e == TokenEnd(a, d, i + 1)
    ensures Tokens(s, d, i) == [a[i..e]] + Tokens(s, d, e + 1)
  {
    TokenEndFront(s, a, d, i + 1);
    assert s[i] == a[i] && s[i..e] == a[i..e];
    TokensAt(s, d, i, e);
  }

  lemma FrontTokens(s: string, a: string, d: char, i: nat, e: nat)
    requires BeginsWith(s, a, d) && i < |a| && a[i] != d && e == TokenEnd(a, d, i + 1)
    requires Tokens(s, d, Behind(a, e)) == Tokens(a, d, Behind(a, e)) + Tokens(s, d, |a| + 1)
    ensures Tokens(s, d, i) == Tokens(a, d, i) + Tokens(s, d, |a| + 1)
  {
    FrontToken(s, a, d, i, e);
    TokensAt(a, d, i, e);
    if e == |a| {
      AtTheDelimiter(s, d, e);
    }
    ConsAppend(a[i..e], Tokens(a, d, Behind(a, e)), Tokens(s, d, |a| + 1), Tokens(s, d, e + 1), Tokens(s, d, i));
  }

  lemma AtTheDelimiter(s: string, d: char, i: nat)
    requires i < |s| && s[i] == d
    ensures Tokens(s, d, i) == Tokens(s, d, i + 1)
  {
  }

  lemma {:induction false} TokensFront(s: string, a: string, d: char, i: nat)
    requires BeginsWith(s, a, d) && i <= |a|
    ensures Tokens(s, d, i) == Tokens(a, d, i) + Tokens(s, d, |a| + 1)
    decreases |a| - i
  {
    if i < |a| {
      assert s[i] == a[i];
      if a[i] == d {
        TokensFront(s, a, d, i + 1);
      } else {
        var e := TokenEnd(a, d, i + 1);
        TokensFront(s, a, d, Behind(a, e));
        FrontTokens(s, a, d, i, e);
      }
    }
  }

  lemma ConsAppend<T>(x: T, a: seq<T>, b: seq<T>, ab: seq<T>, all: seq<T>)
    requires ab == a + b && all == [x] + ab
    ensures all == [x] + a + b
  {
  }

  lemma {:induction false} TokenEndIs(s: string, d: char, i: nat, e: nat)
    requires i <= e <= |s| && (e < |s| ==> s[e] == d) && forall k :: i <= k < e ==> s[k] != d
    ensures TokenEnd(s, d, i) == e
    decreases e - i
  {
    if i < e {
      TokenEndIs(s, d, i + 1, e);
    }
  }

  /**
   The tokens of any string: none of the empty one, itself of one without a delimiter, and of two strings with a
   delimiter between them those of the first and then those of the second, so empty stretches vanish.
   */
  lemma {:induction false} TokensCompose(a: string, b: string, d: char)
    ensures Tokens(a + [d] + b, d, 0) == Tokens(a, d, 0) + Tokens(b, d, 0)
    ensures d !in a ==> Tokens(a, d, 0) == if a == [] then [] else [a]
  {
    var s := a + [d] + b;
    TokensFront(s, a, d, 0);
    TokensShift(s, |a| + 1, b, d, 0);
    if d !in a && a != [] {
      TokenEndIs(a, d, 1, |a|);
      assert a[0..|a|] == a;
    }
  }

  // ---- Splitting and joining ----

  function Joined(tokens: seq<string>, d: char): string {
    if tokens == [] then [] else if |tokens| == 1 then tokens[0] else tokens[0] + [d] + Joined(tokens[1..], d)
  }

  predicate Proper(tokens: seq<string>, d: char) {
    forall i :: 0 <= i < |tokens| ==> tokens[i] != [] && d !in tokens[i]
  }

  /** A string without a delimiter that ends it. */
  function Body(s: string, d: char): nat {
    if s != [] && s[|s| - 1] == d then |s| - 1 else |s|
  }

  lemma JoinedCons(t: string, rest: seq<string>, d: char)
    ensures Joined([t] + rest, d) == if rest == [] then t else t + [d] + Joined(rest, d)
  {
    assert ([t] + rest)[1..] == rest;
  }

  /** A tight string is its first token, or that and a delimiter and a rest that is tight or empty. */
  lemma TightSplits(s: string, d: char, e: nat)
    requires Tight(s, d) && e == TokenEnd(s, d, 0)
    ensures d !in s[..e] && 0 < e
    ensures e < |s| ==> s == s[..e] + [d] + s[e + 1..] && (e + 1 < |s| ==> Tight(s[e + 1..], d))
  {
    TokenEndClear(s, d, 0);
    if e + 1 < |s| {
      assert !Doubled(s, d, e + 1);
      TightRest(s, d, e + 1);
    }
  }

  lemma TightRest(s: string, d: char, n: nat)
    requires Tight(s, d) && n < |s| && s[n] != d
    ensures Tight(s[n..], d)
  {
    forall i | 0 < i < |s| - n
      ensures !Doubled(s[n..], d, i)
    {
      assert !Doubled(s, d, n + i);
    }
  }

  lemma BodySplits(a: string, b: string, d: char)
    requires b != []
    ensures var s := a + [d] + b; s[..Body(s, d)] == a + [d] + b[..Body(b, d)]
  {
    var s := a + [d] + b;
    assert s[|s| - 1] == b[|b| - 1];
  }

  /** Joined again, the tokens of a tight string are the string, but for a delimiter at its end. */
  lemma {:induction false} JoinAfterSplit(s: string, d: char)
    requires Tight(s, d)
    ensures Joined(Tokens(s, d, 0), d) == s[..Body(s, d)] && Tokens(s, d, 0) != []
    decreases |s|
  {
    var e := TokenEnd(s, d, 0);
    TightSplits(s, d, e);
    var a := s[..e];
    if e == |s| {
      assert a == s;
      TokensCompose(s, [], d);
    } else {
      var b := s[e + 1..];
      TokensCompose(a, b, d);
      JoinedCons(a, Tokens(b, d, 0), d);
      if b != [] {
        JoinAfterSplit(b, d);
        BodySplits(a, b, d);
      }
    }
  }

  /** Behind a token and a delimiter a tight string stays tight. */
  lemma TightJoins(t: string, b: string, d: char)
    requires t != [] && d !in t && Tight(b, d)
    ensures Tight(t + [d] + b, d)
  {
    var s := t + [d] + b;
    forall i | 0 < i < |s|
      ensures !Doubled(s, d, i)
    {
      assert i > |t| + 1 ==> Doubled(s, d, i) == Doubled(b, d, i - |t| - 1);
    }
  }

  /** Whatever proper tokens are joined are found again, and the joined string is tight. */
  lemma {:induction false} SplitAfterJoin(tokens: seq<string>, d: char)
    requires tokens != [] && Proper(tokens, d)
    ensures Tight(Joined(tokens, d), d) && Tokens(Joined(tokens, d), d, 0) == tokens
    decreases |tokens|
  {
    var t, rest := tokens[0], tokens[1..];
    JoinedCons(t, rest, d);
    assert tokens == [t] + rest;
    if rest == [] {
      TokensCompose(t, [], d);
    } else {
      SplitAfterJoin(rest, d);
      TokensCompose(t, Joined(rest, d), d);
      TightJoins(t, Joined(rest, d), d);
    }
  }

  // ---- In place ----

  predicate EndsToken(s: string, d: char, k: nat)
    requires k < |s|
  {
    s[k] == d && k > 0 && s[k - 1] != d
  }

  /** What is left in the buffer up to index i: every delimiter right behind a token is now a terminator. */
  ghost predicate Cut(now: string, s: string, d: char, i: nat) {
    && |now| == |s| + 1 && i <= |s| && now[|s|] == '\0'
    && (forall k {:trigger now[k]} :: 0 <= k < i ==> now[k] == if EndsToken(s, d, k) then '\0' else s[k])
    && forall k {:trigger now[k]} :: i <= k < |s| ==> now[k] == s[k]
  }

  /** The first loop, and the two corrections. */
  method CountPlaces(a: array<char>, d: char, ghost s: string) returns (count: nat)
    requires a.Length == |s| + 1 && a[..|s|] == s && a[|s|] == '\0' && '\0' !in s
    ensures count == Places(s, d)
  {
    assert forall k :: 0 <= k < |s| ==> a[k] == a[..|s|][k] == s[k];
    count := 0;
    var tmp := 0;
    var lastComma: Option<nat> := None;
    while a[tmp] != '\0'
      invariant tmp <= |s| && count + Delimiters(s, d, tmp) == Delimiters(s, d, 0)
      invariant lastComma.Some? ==> lastComma.value < tmp && s[lastComma.value] == d
      invariant forall k :: (if lastComma.Some? then lastComma.value else -1) < k < tmp ==> s[k] != d
      decreases |s| - tmp
    {
      if a[tmp] == d {
        count := count + 1;
        lastComma := Some(tmp);
      }
      tmp := tmp + 1;
    }
    if lastComma.None? || lastComma.value < tmp - 1 {
      count := count + 1;
    }
    count := count + 1;
  }

  /** The buffer still holds s from index i on. */
  ghost predicate Holds(now: string, s: string, i: nat) {
    |now| == |s| + 1 && i <= |s| && now[|s|] == '\0' && forall k :: i <= k < |s| ==> now[k] == s[k]
  }

  method SkipDelimiters(a: array<char>, d: char, pos: nat, ghost s: string) returns (b: nat)
    requires '\0' !in s && Holds(a[..], s, pos)
    ensures pos <= b <= |s| && (b < |s| ==> s[b] != d) && Tokens(s, d, b) == Tokens(s, d, pos)
    ensures forall k :: pos <= k < b ==> s[k] == d
  {
    b := pos;
    while a[b] != '\0' && a[b] == d
      invariant pos <= b <= |s| && Tokens(s, d, b) == Tokens(s, d, pos)
      invariant forall k :: pos <= k < b ==> s[k] == d
      decreases |s| - b
    {
      b := b + 1;
    }
  }

  method SkipToken(a: array<char>, d: char, b: nat, ghost s: string) returns (e: nat)
    requires '\0' !in s && Holds(a[..], s, b)
    ensures e == TokenEnd(s, d, b)
  {
    e := b;
    while a[e] != '\0' && a[e] != d
      invariant b <= e <= |s| && TokenEnd(s, d, e) == TokenEnd(s, d, b)
      decreases |s| - e
    {
      e := e + 1;
    }
  }

  /** Where `strtok` goes on from: the start, the end, or behind a delimiter. */
  predicate Resumes(s: string, d: char, pos: nat) {
    pos == 0 || pos == |s| || (pos < |s| && s[pos - 1] == d)
  }

  lemma {:induction false} CutSkips(now: string, s: string, d: char, pos: nat, b: nat)
    requires Cut(now, s, d, pos) && Resumes(s, d, pos) && pos <= b <= |s|
    requires forall k :: pos <= k < b ==> s[k] == d
    ensures Cut(now, s, d, b)
  {
    assert forall k :: pos <= k < b ==> !EndsToken(s, d, k);
  }

  lemma {:induction false} CutPasses(now: string, s: string, d: char, b: nat)
    requires Cut(now, s, d, b)
    ensures Cut(now, s, d, TokenEnd(s, d, b))
  {
    TokenEndClear(s, d, b);
    assert forall k :: b <= k < TokenEnd(s, d, b) ==> !EndsToken(s, d, k);
  }

  /** The delimiter behind a token is overwritten. */
  lemma {:induction false} CutEnds(now: string, s: string, d: char, b: nat)
    requires b < |s| && s[b] != d && TokenEnd(s, d, b) < |s| && Cut(now, s, d, TokenEnd(s, d, b))
    ensures var e := TokenEnd(s, d, b); e < |now| && Cut(now[e := '\0'], s, d, e + 1) && EndsToken(s, d, e)
  {
    TokenEndClear(s, d, b);
  }

  /** `strtok`, from the position it has saved; the token, and the position to go on from. */
  method Strtok(a: array<char>, d: char, pos: nat, ghost s: string) returns (token: Option<string>, next: nat)
    requires '\0' !in s && Cut(a[..], s, d, pos) && Resumes(s, d, pos)
    modifies a
    ensures Cut(a[..], s, d, next) && Resumes(s, d, next)
    ensures token.None? ==> next == |s| && Tokens(s, d, pos) == []
    ensures token.Some? ==> next > pos && Tokens(s, d, pos) == [token.value] + Tokens(s, d, next)
  {
    var b := SkipDelimiters(a, d, pos, s);
    CutSkips(a[..], s, d, pos, b);
    if a[b] == '\0' {
      return None, b;
    }
    var e := SkipToken(a, d, b, s);
    TokensAt(s, d, b, e);
    CutPasses(a[..], s, d, b);
    token := Some(a[b..e]);
    assert token.value == s[b..e];
    next := e;
    if a[e] != '\0' {
      CutEnds(a[..], s, d, b);
      ghost var was := a[..];
      a[e] := '\0';
      assert a[..] == was[e := '\0'];
      next := e + 1;
    }
  }

  /** What a call comes to; a failed assertion stops the program. */
  datatype Outcome = NoMemory | AssertionFailed | Split(tokens: seq<string>)

  /** The loop over the tokens; its own assertion, that there is a place left, never fails. */
  method Fill(a: array<char>, d: char, count: nat, ghost s: string) returns (result: seq<string>)
    requires '\0' !in s && Cut(a[..], s, d, 0) && count == Places(s, d)
    modifies a
    ensures result == Tokens(s, d, 0) && Cut(a[..], s, d, |s|)
  {
    PlacesFit(s, d);
    result := [];
    var token, pos := Strtok(a, d, 0, s);
    while token.Some?
      invariant Cut(a[..], s, d, pos) && Resumes(s, d, pos)
      invariant token.Some? ==> Tokens(s, d, 0) == result + ([token.value] + Tokens(s, d, pos))
      invariant token.None? ==> Tokens(s, d, 0) == result && pos == |s|
      decreases |s| - pos, token.Some?
    {
      assert |result| < count;
      ghost var was, rest := result, Tokens(s, d, pos);
      result := result + [token.value];
      assert was + ([token.value] + rest) == result + rest;
      token, pos := Strtok(a, d, pos, s);
    }
  }

  /** `str_split`; `memory` is the allocator's answer. */
  method StrSplit(a: array<char>, d: char, memory: bool, ghost s: string) returns (outcome: Outcome)
    requires a.Length == |s| + 1 && a[..|s|] == s && a[|s|] == '\0' && '\0' !in s
    modifies a
    ensures outcome == if !memory then NoMemory else if Tight(s, d) then Split(Tokens(s, d, 0)) else AssertionFailed
    ensures Cut(a[..], s, d, if memory then |s| else 0)
  {
    var count := CountPlaces(a, d, s);
    assert forall k :: 0 <= k < |s| ==> a[k] == a[..|s|][k] == s[k];
    if !memory {
      return NoMemory;
    }
    var result := Fill(a, d, count, s);
    PlacesFit(s, d);
    if |result| != count - 1 {
      return AssertionFailed;
    }
    return Split(result);
  }
}
