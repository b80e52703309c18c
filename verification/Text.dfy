/** Byte-string helpers shared by every layer: searching, tokenising, casemapping, decimals. */
module Text {

  datatype Option<+T> = None | Some(value: T)

  // ---------------------------------------------------------------- searching

  /** Position of the first `c`, or |s| when there is none (std::string::find of one byte). */
  function IndexOf(s: string, c: char): (i: nat)
    ensures i <= |s|
    ensures i < |s| ==> s[i] == c
    ensures c !in s[..i]
    ensures i == |s| <==> c !in s
  {
    if s == "" then 0
    else if s[0] == c then 0
    else
      var i := 1 + IndexOf(s[1..], c);
      assert s[..i] == [s[0]] + s[1..][..i - 1];
      assert s == [s[0]] + s[1..];
      i
  }

  /** A prefix without `c` only shifts its first position. */
  lemma {:induction false} IndexOfAppend(before: string, c: char, after: string)
    requires c !in before
    ensures IndexOf(before + after, c) == |before| + IndexOf(after, c)
  {
    if before == "" {
      assert before + after == after;
    } else {
      assert (before + after)[1..] == before[1..] + after;
      IndexOfAppend(before[1..], c, after);
    }
  }

  predicate OccursAt(s: string, pat: string, i: nat) {
    i + |pat| <= |s| && s[i..i + |pat|] == pat
  }

  /** First occurrence of a pattern (std::string::find of a string). */
  function Find(s: string, pat: string): (r: Option<nat>)
    ensures r.Some? ==> OccursAt(s, pat, r.value) && forall j: nat :: j < r.value ==> !OccursAt(s, pat, j)
    ensures r.None? ==> forall j: nat :: !OccursAt(s, pat, j)
  {
    FindFrom(s, pat, 0)
  }

  function FindFrom(s: string, pat: string, i: nat): (r: Option<nat>)
    requires forall j: nat :: j < i ==> !OccursAt(s, pat, j)
    ensures r.Some? ==> OccursAt(s, pat, r.value) && forall j: nat :: j < r.value ==> !OccursAt(s, pat, j)
    ensures r.None? ==> forall j: nat :: !OccursAt(s, pat, j)
    decreases |s| - i
  {
    if OccursAt(s, pat, i) then Some(i)
    else if i >= |s| then None
    else FindFrom(s, pat, i + 1)
  }

  /** A position with the pattern and none before it is the one Find reports. */
  lemma FindIs(s: string, pat: string, i: nat)
    requires OccursAt(s, pat, i)
    requires forall j: nat :: j < i ==> !OccursAt(s, pat, j)
    ensures Find(s, pat) == Some(i)
  {
    var r := Find(s, pat);
    assert r.Some?;
    assert !(r.value < i) && !(i < r.value);
  }

  // --------------------------------------------------------------- tokenising

  predicate Free(s: string, seps: set<char>) {
    forall i :: 0 <= i < |s| ==> s[i] !in seps
  }

  /** Length of the leading run that holds no separator. */
  function RunLength(s: string, seps: set<char>): (n: nat)
    ensures n <= |s| && Free(s[..n], seps)
    ensures n < |s| ==> s[n] in seps
  {
    if s == "" || s[0] in seps then 0
    else
      var n := 1 + RunLength(s[1..], seps);
      assert s[..n] == [s[0]] + s[1..][..n - 1];
      n
  }

  /** The non-empty maximal separator-free pieces, left to right. With the blank set this is what
      repeated stream extraction yields; with one delimiter it is getline with empty tokens dropped. */
  function Tokens(s: string, seps: set<char>): (ts: seq<string>)
    ensures forall i :: 0 <= i < |ts| ==> ts[i] != "" && Free(ts[i], seps)
    decreases |s|
  {
    if s == "" then []
    else if s[0] in seps then Tokens(s[1..], seps)
    else
      var n := RunLength(s, seps);
      [s[..n]] + Tokens(s[n..], seps)
  }

  lemma {:induction false} RunLengthIs(s: string, seps: set<char>, k: nat)
    requires k <= |s| && Free(s[..k], seps)
    requires k < |s| ==> s[k] in seps
    ensures RunLength(s, seps) == k
  {
    if k > 0 {
      assert s[..k][0] == s[0];
      assert s[1..][..k - 1] == s[..k][1..];
      RunLengthIs(s[1..], seps, k - 1);
    }
  }

  /** Consuming one token and the separator after it. */
  lemma TokensCons(w: string, sep: char, rest: string, seps: set<char>)
    requires w != "" && Free(w, seps) && sep in seps
    ensures Tokens(w + [sep] + rest, seps) == [w] + Tokens(rest, seps)
  {
    var s := w + [sep] + rest;
    assert s[0] == w[0] && s[|w|] == sep && s[..|w|] == w;
    RunLengthIs(s, seps, |w|);
    assert s[|w|..] == [sep] + rest;
    assert s[|w|..][1..] == rest;
  }

  /** A separator-free non-empty text is its own only token. */
  lemma TokensSingle(w: string, seps: set<char>)
    requires w != "" && Free(w, seps)
    ensures Tokens(w, seps) == [w]
  {
    var n := RunLength(w, seps);
    assert n == |w|;
    assert w[..n] == w && w[n..] == "";
  }

  /** Tokens only holds characters of the text. */
  lemma {:induction false} TokensChars(s: string, seps: set<char>, t: string, c: char)
    requires t in Tokens(s, seps) && c in t
    ensures c in s
    decreases |s|
  {
    if s[0] in seps {
      TokensChars(s[1..], seps, t, c);
    } else {
      var n := RunLength(s, seps);
      if t != s[..n] {
        TokensChars(s[n..], seps, t, c);
      }
    }
  }

  /** One extraction from a non-separator: the cursor stops at the next separator or the end. */
  method ReadToken(s: string, start: nat, seps: set<char>) returns (end: nat)
    requires start <= |s|
    ensures start <= end <= |s| && end - start == RunLength(s[start..], seps)
  {
    end := start;
    while end < |s| && s[end] !in seps
      invariant start <= end <= |s|
      invariant Free(s[start..end], seps)
    {
      assert s[start..end + 1] == s[start..end] + [s[end]];
      end := end + 1;
    }
    assert s[start..][..end - start] == s[start..end];
    RunLengthIs(s[start..], seps, end - start);
  }

  /** The loop form of Tokens: a cursor over the text, tokens pushed one by one. */
  method Tokenise(s: string, seps: set<char>) returns (tokens: seq<string>)
    ensures tokens == Tokens(s, seps)
  {
    tokens := [];
    var i := 0;
    assert s[0..] == s;
    while i < |s|
      invariant i <= |s|
      invariant tokens + Tokens(s[i..], seps) == Tokens(s, seps)
    {
      ghost var rest := s[i..];
      if s[i] in seps {
        assert rest[1..] == s[i + 1..];
        i := i + 1;
      } else {
        var end := ReadToken(s, i, seps);
        assert rest[..end - i] == s[i..end] && rest[end - i..] == s[end..];
        assert Tokens(rest, seps) == [s[i..end]] + Tokens(s[end..], seps);
        tokens := tokens + [s[i..end]];
        i := end;
      }
    }
  }

  // -------------------------------------------------------------------- cases

  /** isspace in the C locale. */
  const BLANKS: set<char> := {' ', '\t', '\n', '\r', 11 as char, 12 as char}

  function UpperChar(c: char): char {
    if 'a' <= c <= 'z' then (c as int - 32) as char else c
  }

  function Upper(s: string): (r: string)
    ensures |r| == |s|
    ensures forall i :: 0 <= i < |s| ==> r[i] == UpperChar(s[i])
  {
    if s == "" then "" else [UpperChar(s[0])] + Upper(s[1..])
  }

  lemma UpperIdempotent(s: string)
    ensures Upper(Upper(s)) == Upper(s)
  {
    assert forall i :: 0 <= i < |s| ==> Upper(Upper(s))[i] == Upper(s)[i];
  }

  /** The IRC casemapping of section 2.2 of RFC 2812. */
  function LowerChar(c: char): char {
    if 'A' <= c <= 'Z' then (c as int + 32) as char
    else if c == '[' then '{'
    else if c == ']' then '}'
    else if c == '\\' then '|'
    else if c == '~' then '^'
    else c
  }

  function Lower(s: string): (r: string)
    ensures |r| == |s|
    ensures forall i :: 0 <= i < |s| ==> r[i] == LowerChar(s[i])
  {
    if s == "" then "" else [LowerChar(s[0])] + Lower(s[1..])
  }

  /** toIrcLowerCase: the copy is rewritten position by position. */
  method ToIrcLowerCase(text: string) returns (result: string)
    ensures result == Lower(text)
  {
    result := text;
    var i := 0;
    while i < |result|
      invariant |result| == |text| && i <= |text|
      invariant forall k :: 0 <= k < i ==> result[k] == LowerChar(text[k])
      invariant forall k :: i <= k < |text| ==> result[k] == text[k]
    {
      result := result[i := LowerChar(result[i])];
      i := i + 1;
    }
  }

  // ----------------------------------------------------------------- decimals

  predicate IsDigit(c: char) { '0' <= c <= '9' }

  predicate AllDigits(s: string) {
    forall i :: 0 <= i < |s| ==> IsDigit(s[i])
  }

  function Digits(n: nat): (s: string)
    ensures s != "" && AllDigits(s)
  {
    var d := [('0' as int + n % 10) as char];
    if n < 10 then d else Digits(n / 10) + d
  }

  function DecimalValue(s: string): nat
    requires AllDigits(s)
  {
    if s == "" then 0
    else DecimalValue(s[..|s| - 1]) * 10 + (s[|s| - 1] as int - '0' as int)
  }

  lemma {:induction false} DigitsRoundTrip(n: nat)
    ensures DecimalValue(Digits(n)) == n
  {
    var s := Digits(n);
    var d := [('0' as int + n % 10) as char];
    if n < 10 {
      assert s == d && s[..|s| - 1] == "";
    } else {
      DigitsRoundTrip(n / 10);
      assert s[..|s| - 1] == Digits(n / 10);
    }
  }

  const INT_MAX := 0x7fff_ffff
  const LONG_MAX := 0x7fff_ffff_ffff_ffff

  /** std::atoi on a digit string. In range it is the decimal value; out of range C leaves it
      undefined and this follows glibc: strtol saturates, the cast keeps the low 32 bits. */
  function Atoi(s: string): (n: int)
    requires AllDigits(s)
    ensures -INT_MAX - 1 <= n <= INT_MAX
    ensures DecimalValue(s) <= INT_MAX ==> n == DecimalValue(s)
  {
    var v := if DecimalValue(s) <= LONG_MAX then DecimalValue(s) else LONG_MAX;
    var low := v % 0x1_0000_0000;
    if low <= INT_MAX then low else low - 0x1_0000_0000
  }

  // ------------------------------------------------------------- concatenation

  function Flatten(parts: seq<string>): string {
    if parts == [] then "" else parts[0] + Flatten(parts[1..])
  }

  lemma {:induction false} FlattenAppend(a: seq<string>, b: seq<string>)
    ensures Flatten(a + b) == Flatten(a) + Flatten(b)
  {
    if a == [] {
      assert a + b == b;
    } else {
      assert (a + b)[1..] == a[1..] + b;
      FlattenAppend(a[1..], b);
    }
  }

  /** Arguments as they are appended to a reply: each preceded by one space. */
  function Spaced(args: seq<string>): string {
    if args == [] then "" else " " + args[0] + Spaced(args[1..])
  }
}
