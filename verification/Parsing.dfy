/** The message parser (Parser.cpp) against a printer for section 2.3.1 of RFC 2812. */
module Parsing {
  import opened Text
  import opened Clients

  datatype Message = Message(prefix: string, command: string, params: seq<string>)

  const NOTHING: Message := Message("", "", [])

  function StripCr(line: string): string {
    if line != "" && line[|line| - 1] == '\r' then line[..|line| - 1] else line
  }

  /** The text before the first " :", and after it if there is one. */
  function BasePart(line: string): string {
    var mark := Find(line, " :");
    if mark.Some? then line[..mark.value] else line
  }

  function Trailing(line: string): seq<string> {
    var mark := Find(line, " :");
    if mark.Some? then [line[mark.value + 2..]] else []
  }

  function FromWords(words: seq<string>, trailing: seq<string>): Message
    requires forall i :: 0 <= i < |words| ==> words[i] != ""
  {
    if words == [] then NOTHING
    else if words[0][0] == ':' then
      if |words| == 1 then Message(words[0][1..], "", trailing)
      else Message(words[0][1..], Upper(words[1]), words[2..] + trailing)
    else Message("", Upper(words[0]), words[1..] + trailing)
  }

  function Parse(raw: string): Message {
    var line := StripCr(raw);
    FromWords(Tokens(BasePart(line), BLANKS), Trailing(line))
  }

  // ---------------------------------------------------------------- the printer

  function JoinWords(words: seq<string>): string {
    if words == [] then "" else words[0] + Spaced(words[1..])
  }

  function HeadWords(m: Message): seq<string> {
    (if m.prefix != "" then [":" + m.prefix] else []) + [m.command]
    + (if m.params == [] then [] else m.params[..|m.params| - 1])
  }

  /** A message on the wire, without CRLF; the last parameter is always written as trailing. */
  function Print(m: Message): string {
    JoinWords(HeadWords(m)) + (if m.params == [] then "" else " :" + m.params[|m.params| - 1])
  }

  /** A word that can stand between spaces. */
  predicate Middle(w: string) { w != "" && Free(w, BLANKS) && w[0] != ':' }

  /** What a sender may put in a message; the last parameter is free but for a final CR. */
  ghost predicate WellFormed(m: Message) {
    && Middle(m.command) && Upper(m.command) == m.command
    && Free(m.prefix, BLANKS)
    && (forall i :: 0 <= i < |m.params| - 1 ==> Middle(m.params[i]))
    && (m.params != [] ==> StripCr(m.params[|m.params| - 1]) == m.params[|m.params| - 1])
  }

  // ----------------------------------------------------------- print, then parse

  /** Every space is followed by something other than a colon. */
  ghost predicate NoMark(s: string) {
    forall j :: 0 <= j < |s| && s[j] == ' ' ==> j + 1 < |s| && s[j + 1] != ':'
  }

  lemma NoMarkJoin(a: string, b: string)
    requires NoMark(a) && NoMark(b) && b != "" && b[0] != ':'
    ensures NoMark(a + " " + b)
  {
    var s := a + " " + b;
    forall j | 0 <= j < |s| && s[j] == ' ' ensures j + 1 < |s| && s[j + 1] != ':' {
      if j < |a| {
        assert s[j] == a[j] && s[j + 1] == a[j + 1];
      } else if j > |a| {
        assert s[j] == b[j - |a| - 1];
        assert s[j + 1] == b[j - |a|];
      }
    }
  }

  ghost predicate Words(ws: seq<string>) {
    && ws != [] && ws[0] != "" && Free(ws[0], BLANKS)
    && forall i :: 1 <= i < |ws| ==> Middle(ws[i])
  }

  lemma JoinWordsCons(ws: seq<string>)
    requires |ws| > 1
    ensures JoinWords(ws) == ws[0] + [' '] + JoinWords(ws[1..])
  {
    assert Spaced(ws[1..]) == " " + ws[1] + Spaced(ws[1..][1..]);
  }

  lemma {:induction false} JoinedTokens(ws: seq<string>)
    requires Words(ws)
    ensures Tokens(JoinWords(ws), BLANKS) == ws
  {
    if |ws| == 1 {
      TokensSingle(ws[0], BLANKS);
      assert JoinWords(ws) == ws[0];
    } else {
      JoinWordsCons(ws);
      JoinedTokens(ws[1..]);
      TokensCons(ws[0], ' ', JoinWords(ws[1..]), BLANKS);
    }
  }

  lemma {:induction false} JoinedNoMark(ws: seq<string>)
    requires Words(ws)
    ensures NoMark(JoinWords(ws)) && JoinWords(ws) != "" && JoinWords(ws)[0] == ws[0][0]
    ensures JoinWords(ws)[|JoinWords(ws)| - 1] !in BLANKS
  {
    if |ws| == 1 {
      assert JoinWords(ws) == ws[0];
    } else {
      JoinWordsCons(ws);
      JoinedNoMark(ws[1..]);
      NoMarkJoin(ws[0], JoinWords(ws[1..]));
    }
  }

  /** Where " :" is. */
  lemma MarkAt(s: string, j: nat)
    ensures OccursAt(s, " :", j) <==> j + 1 < |s| && s[j] == ' ' && s[j + 1] == ':'
  {
    if j + 2 <= |s| {
      assert s[j..j + 2] == [s[j], s[j + 1]];
    }
  }

  lemma MarkAfterHead(head: string, last: string)
    requires NoMark(head)
    ensures Find(head + " :" + last, " :") == Some(|head|)
  {
    var s := head + " :" + last;
    assert s[|head|] == ' ' && s[|head| + 1] == ':';
    MarkAt(s, |head|);
    forall j: nat | j < |head| ensures !OccursAt(s, " :", j) {
      MarkAt(s, j);
      assert s[j] == head[j];
      assert head[j] == ' ' ==> s[j + 1] == head[j + 1];
    }
    FindIs(s, " :", |head|);
  }

  lemma NoMarkAtAll(head: string)
    requires NoMark(head)
    ensures Find(head, " :").None?
  {
    forall j: nat ensures !OccursAt(head, " :", j) {
      MarkAt(head, j);
    }
  }

  lemma HeadIsWords(m: Message)
    requires WellFormed(m)
    ensures Words(HeadWords(m))
  {
    var ws := HeadWords(m);
    var k := if m.prefix != "" then 1 else 0;
    forall i | 1 <= i < |ws| ensures Middle(ws[i]) {
      if i > k { assert ws[i] == m.params[i - k - 1]; }
    }
  }

  function LastParam(m: Message): seq<string> { if m.params == [] then [] else m.params[|m.params| - 1..] }

  /** The printed line splits where it was joined. */
  lemma PrintedParts(m: Message)
    requires WellFormed(m)
    ensures StripCr(Print(m)) == Print(m)
    ensures BasePart(Print(m)) == JoinWords(HeadWords(m)) && Trailing(Print(m)) == LastParam(m)
  {
    var head := JoinWords(HeadWords(m));
    HeadIsWords(m);
    JoinedNoMark(HeadWords(m));
    var line := Print(m);
    if m.params == [] {
      assert line == head;
      NoMarkAtAll(head);
    } else {
      var last := m.params[|m.params| - 1];
      assert line == head + " :" + last;
      assert last != "" ==> line[|line| - 1] == last[|last| - 1];
      assert last == "" ==> line[|line| - 1] == ':';
      MarkAfterHead(head, last);
      assert line[..|head|] == head && line[|head| + 2..] == last;
    }
  }

  lemma FromHeadWords(m: Message)
    requires WellFormed(m)
    ensures Words(HeadWords(m)) && FromWords(HeadWords(m), LastParam(m)) == m
  {
    HeadIsWords(m);
    var ws := HeadWords(m);
    var middles := if m.params == [] then [] else m.params[..|m.params| - 1];
    assert m.params == middles + LastParam(m);
    if m.prefix != "" {
      assert ws[0] == ":" + m.prefix && ws[0][1..] == m.prefix && ws[1] == m.command;
      assert ws[2..] == middles;
    } else {
      assert ws[0] == m.command && ws[1..] == middles;
    }
  }

  /** Round trip: a well-formed message survives printing and parsing. */
  lemma PrintParse(m: Message)
    requires WellFormed(m)
    ensures Parse(Print(m)) == m
  {
    PrintedParts(m);
    FromHeadWords(m);
    JoinedTokens(HeadWords(m));
  }

  // ------------------------------------------------ the round trip needs all of it

  lemma {:induction false} SpacedSplit(ws: seq<string>, i: nat)
    requires i <= |ws|
    ensures Spaced(ws) == Spaced(ws[..i]) + Spaced(ws[i..])
  {
    if i == 0 {
      assert ws[..0] == [] && ws[0..] == ws;
      assert Spaced([]) + Spaced(ws) == Spaced(ws);
    } else {
      SpacedSplit(ws[1..], i - 1);
      assert ws[..i][1..] == ws[1..][..i - 1] && ws[1..][i - 1..] == ws[i..];
      var w, a, b := ws[0], Spaced(ws[1..][..i - 1]), Spaced(ws[i..]);
      assert " " + w + (a + b) == " " + w + a + b;
    }
  }

  /** The printed words split in front of word `i`. */
  lemma JoinSplit(ws: seq<string>, i: nat)
    requires 1 <= i < |ws|
    ensures JoinWords(ws) == JoinWords(ws[..i]) + " " + ws[i] + Spaced(ws[i + 1..])
  {
    SpacedSplit(ws[1..], i - 1);
    assert ws[..i][1..] == ws[1..][..i - 1];
    assert ws[1..][i - 1..] == ws[i..];
    assert ws[i..][1..] == ws[i + 1..];
    Regrouped(ws[0], Spaced(ws[1..][..i - 1]), ws[i], Spaced(ws[i + 1..]));
  }

  lemma Regrouped(w: string, a: string, b: string, c: string)
    ensures w + (a + (" " + b + c)) == (w + a) + " " + b + c
  {
  }

  ghost predicate Solid(ws: seq<string>) {
    ws != [] && forall i :: 0 <= i < |ws| ==> ws[i] != "" && Free(ws[i], BLANKS)
  }

  /** Where a later word starts with a colon, the words before the first such one are all that is read. */
  lemma CutShort(ws: seq<string>, i: nat, rest: string)
    requires Solid(ws) && 1 <= i < |ws| && ws[i][0] == ':' && forall j :: 1 <= j < i ==> ws[j][0] != ':'
    ensures Tokens(BasePart(JoinWords(ws) + rest), BLANKS) == ws[..i]
  {
    var head := JoinWords(ws[..i]);
    var last := ws[i][1..] + Spaced(ws[i + 1..]) + rest;
    JoinSplit(ws, i);
    assert ws[i] == ":" + ws[i][1..];
    assert JoinWords(ws) + rest == head + " :" + last;
    JoinedNoMark(ws[..i]);
    MarkAfterHead(head, last);
    assert (head + " :" + last)[..|head|] == head;
    JoinedTokens(ws[..i]);
  }

  lemma FirstColon(ws: seq<string>) returns (i: nat)
    requires Solid(ws)
    ensures 1 <= i <= |ws| && (forall j :: 1 <= j < i ==> ws[j][0] != ':') && (i < |ws| ==> ws[i][0] == ':')
  {
    i := 1;
    while i < |ws| && ws[i][0] != ':'
      invariant 1 <= i <= |ws| && forall j :: 1 <= j < i ==> ws[j][0] != ':'
    {
      i := i + 1;
    }
  }

  /** The line the parser works on. */
  lemma PrintedLine(m: Message)
    requires m.params == [] ==> Solid(HeadWords(m))
    ensures
      var head := JoinWords(HeadWords(m));
      StripCr(Print(m)) == if m.params == [] then head else head + " :" + StripCr(m.params[|m.params| - 1])
  {
    var head := JoinWords(HeadWords(m));
    if m.params == [] {
      LastChar(HeadWords(m));
      assert Print(m) == head;
    } else {
      var last := m.params[|m.params| - 1];
      assert last != "" ==> Print(m)[|Print(m)| - 1] == last[|last| - 1];
      assert last != "" ==> Print(m)[..|Print(m)| - 1] == head + " :" + last[..|last| - 1];
    }
  }

  lemma {:induction false} LastChar(ws: seq<string>)
    requires Solid(ws)
    ensures JoinWords(ws) != "" && JoinWords(ws)[|JoinWords(ws)| - 1] !in BLANKS
    decreases |ws|
  {
    if |ws| == 1 {
      assert Spaced(ws[1..]) == "" && JoinWords(ws) == ws[0];
    } else {
      JoinWordsCons(ws);
      LastChar(ws[1..]);
    }
  }

  /** What the parser reads has one trailing parameter exactly when something was printed as one. */
  lemma TrailingKept(m: Message)
    requires m.params != []
    ensures |Trailing(StripCr(Print(m)))| == 1
  {
    var head := JoinWords(HeadWords(m));
    var line := StripCr(Print(m));
    PrintedLine(m);
    assert line[|head|] == ' ' && line[|head| + 1] == ':';
    MarkAt(line, |head|);
  }

  function Middles(m: Message): seq<string> { if m.params == [] then [] else m.params[..|m.params| - 1] }

  /** What a parsed message says about the words it came from. */
  lemma WordsOf(m: Message, words: seq<string>, tr: seq<string>)
    requires (forall i :: 0 <= i < |words| ==> words[i] != "" && Free(words[i], BLANKS))
    requires m == FromWords(words, tr) && m.command != "" && |tr| == if m.params == [] then 0 else 1
    ensures words != [] &&
      var k := if words[0][0] == ':' then 1 else 0;
      k < |words| && m.command == Upper(words[k]) && Middles(m) == words[k + 1..]
      && (m.params != [] ==> tr == [m.params[|m.params| - 1]])
      && m.prefix == if k == 1 then words[0][1..] else ""
  {
    hide Upper, Free;
    var k := if words[0][0] == ':' then 1 else 0;
    assert m.params == words[k + 1..] + tr;
  }

  lemma TrailingCount(m: Message)
    requires Parse(Print(m)) == m && m.command != ""
    ensures |Trailing(StripCr(Print(m)))| == if m.params == [] then 0 else 1
  {
    hide Print, Tokens, Find, StripCr, Upper;
    if m.params != [] {
      TrailingKept(m);
    } else {
      assert |FromWords(Tokens(BasePart(StripCr(Print(m))), BLANKS), Trailing(StripCr(Print(m)))).params| >= |Trailing(StripCr(Print(m)))|;
    }
  }

  lemma UpperSolid(w: string)
    requires w != "" && Free(w, BLANKS)
    ensures Upper(w) != "" && Free(Upper(w), BLANKS) && Upper(Upper(w)) == Upper(w)
  {
    UpperIdempotent(w);
  }

  lemma HeadWordsAre(m: Message)
    ensures
      var p := if m.prefix != "" then 1 else 0;
      var ws := HeadWords(m);
      |ws| == p + 1 + |Middles(m)| && ws[p] == m.command && (p == 1 ==> ws[0] == ":" + m.prefix)
      && ws[p + 1..] == Middles(m)
  {
  }

  /** The words printed before the trailing parameter are words that were read, or fewer. */
  lemma HeadSolid(m: Message, words: seq<string>, tr: seq<string>)
    requires (forall i :: 0 <= i < |words| ==> words[i] != "" && Free(words[i], BLANKS))
    requires m == FromWords(words, tr) && m.command != "" && |tr| == if m.params == [] then 0 else 1
    ensures Solid(HeadWords(m)) && Free(m.prefix, BLANKS) && Upper(m.command) == m.command
    ensures |words| >= |HeadWords(m)|
    ensures |words| == |HeadWords(m)| && m.prefix == "" ==> words[0][0] != ':'
  {
    hide Upper, FromWords, HeadWords, Middles;
    WordsOf(m, words, tr);
    var k := if words[0][0] == ':' then 1 else 0;
    UpperSolid(words[k]);
    HeadWordsAre(m);
    var ws := HeadWords(m);
    var p := if m.prefix != "" then 1 else 0;
    forall i | 0 <= i < |ws| ensures ws[i] != "" && Free(ws[i], BLANKS) {
      if i > p {
        assert ws[i] == ws[p + 1..][i - p - 1];
        assert ws[i] == words[k + 1 + (i - p - 1)];
      } else if i < p {
        assert ws[0] == ":" + m.prefix;
      }
    }
  }

  /** When nothing cuts the printed line short, all of it is read. */
  lemma ReadInFull(m: Message)
    requires Solid(HeadWords(m)) && forall j :: 1 <= j < |HeadWords(m)| ==> HeadWords(m)[j][0] != ':'
    ensures
      var line := StripCr(Print(m));
      Tokens(BasePart(line), BLANKS) == HeadWords(m)
      && Trailing(line) == if m.params == [] then [] else [StripCr(m.params[|m.params| - 1])]
  {
    hide HeadWords, Print, StripCr, Tokens, Find;
    var ws := HeadWords(m);
    var head := JoinWords(ws);
    PrintedLine(m);
    JoinedNoMark(ws);
    JoinedTokens(ws);
    if m.params == [] {
      NoMarkAtAll(head);
    } else {
      var last := StripCr(m.params[|m.params| - 1]);
      MarkAfterHead(head, last);
      assert (head + " :" + last)[..|head|] == head && (head + " :" + last)[|head| + 2..] == last;
    }
  }

  lemma ReadCutShort(m: Message, i: nat)
    requires Solid(HeadWords(m)) && 1 <= i < |HeadWords(m)| && HeadWords(m)[i][0] == ':'
    requires forall j :: 1 <= j < i ==> HeadWords(m)[j][0] != ':'
    ensures |Tokens(BasePart(StripCr(Print(m))), BLANKS)| < |HeadWords(m)|
  {
    hide HeadWords, Print, StripCr, Tokens, BasePart;
    var ws := HeadWords(m);
    var rest := if m.params == [] then "" else " :" + StripCr(m.params[|m.params| - 1]);
    PrintedLine(m);
    CutShort(ws, i, rest);
    assert m.params == [] ==> JoinWords(ws) + "" == JoinWords(ws);
    assert m.params != [] ==> JoinWords(ws) + rest == JoinWords(ws) + " :" + StripCr(m.params[|m.params| - 1]);
  }

  lemma SolidMiddles(m: Message)
    requires Solid(HeadWords(m)) && Free(m.prefix, BLANKS) && Upper(m.command) == m.command
    requires forall j :: 1 <= j < |HeadWords(m)| ==> HeadWords(m)[j][0] != ':'
    requires m.prefix == "" ==> HeadWords(m)[0][0] != ':'
    requires m.params != [] ==> StripCr(m.params[|m.params| - 1]) == m.params[|m.params| - 1]
    ensures WellFormed(m)
  {
    hide HeadWords, Upper, StripCr;
    HeadWordsAre(m);
    var p := if m.prefix != "" then 1 else 0;
    forall i | 0 <= i < |m.params| - 1 ensures Middle(m.params[i]) {
      assert m.params[i] == HeadWords(m)[p + 1..][i];
    }
  }

  /** Main result: a message with a command survives printing and parsing if and only if it is well
      formed. */
  lemma PrintParseExact(m: Message)
    requires m.command != ""
    ensures Parse(Print(m)) == m <==> WellFormed(m)
  {
    hide Print, StripCr, FromWords, WellFormed, HeadWords, Upper, BasePart, Trailing;
    if WellFormed(m) { PrintParse(m); }
    if Parse(Print(m)) == m {
      var line := StripCr(Print(m));
      var words, tr := Tokens(BasePart(line), BLANKS), Trailing(line);
      TrailingCount(m);
      HeadSolid(m, words, tr);
      var i := FirstColon(HeadWords(m));
      if i < |HeadWords(m)| { ReadCutShort(m, i); }
      ReadInFull(m);
      WordsOf(m, words, tr);
      SolidMiddles(m);
    }
  }

  // ----------------------------------------------------- parse, then print, parse

  /** The only whitespace in a line is the space. */
  ghost predicate OnlySpaces(s: string) {
    forall i :: 0 <= i < |s| && s[i] in BLANKS ==> s[i] == ' '
  }

  ghost predicate Unmarked(s: string) {
    forall j :: 0 <= j && j + 1 < |s| && s[j] == ' ' ==> s[j + 1] != ':'
  }

  lemma FindNoneUnmarked(s: string)
    requires forall j: nat :: !OccursAt(s, " :", j)
    ensures Unmarked(s)
  {
    forall j | 0 <= j && j + 1 < |s| && s[j] == ' ' ensures s[j + 1] != ':' {
      MarkAt(s, j);
    }
  }

  lemma BaseUnmarked(line: string)
    ensures Unmarked(BasePart(line)) && BasePart(line) <= line
  {
    var mark := Find(line, " :");
    if mark.None? {
      FindNoneUnmarked(line);
    } else {
      var base := line[..mark.value];
      forall j: nat ensures !OccursAt(base, " :", j) {
        if OccursAt(base, " :", j) {
          assert line[j..j + 2] == base[j..j + 2];
          assert OccursAt(line, " :", j);
        }
      }
      FindNoneUnmarked(base);
    }
  }

  /** After a separator, no token starts with a colon. */
  lemma {:induction false} LaterTokens(s: string)
    requires OnlySpaces(s) && Unmarked(s) && (s != "" ==> s[0] == ' ')
    ensures forall i :: 0 <= i < |Tokens(s, BLANKS)| ==> Middle(Tokens(s, BLANKS)[i])
    decreases |s|
  {
    if s != "" {
      var t := s[1..];
      assert forall k :: 0 <= k < |t| ==> t[k] == s[k + 1];
      if t == "" || t[0] in BLANKS {
        LaterTokens(t);
      } else {
        FirstToken(t);
        assert t[0] == s[1];
      }
    }
  }

  lemma {:induction false} FirstToken(t: string)
    requires OnlySpaces(t) && Unmarked(t) && t != "" && t[0] !in BLANKS
    ensures Tokens(t, BLANKS) != [] && Tokens(t, BLANKS)[0][0] == t[0]
    ensures forall i :: 1 <= i < |Tokens(t, BLANKS)| ==> Middle(Tokens(t, BLANKS)[i])
    decreases |t|
  {
    var n := RunLength(t, BLANKS);
    var rest := t[n..];
    assert forall k :: 0 <= k < |rest| ==> rest[k] == t[k + n];
    LaterTokens(rest);
  }

  lemma UpperKeepsMiddle(w: string)
    requires Middle(w)
    ensures Middle(Upper(w))
  {
  }

  /** Every word but a leading one is fit to stand between spaces. */
  lemma BaseWords(line: string)
    requires OnlySpaces(line)
    ensures
      var words := Tokens(BasePart(line), BLANKS);
      (forall i :: 1 <= i < |words| ==> Middle(words[i]))
      && (words != [] && words[0][0] != ':' ==> Middle(words[0]))
  {
    var base := BasePart(line);
    BaseUnmarked(line);
    assert OnlySpaces(base);
    if base == "" || base[0] in BLANKS {
      LaterTokens(base);
    } else {
      FirstToken(base);
    }
  }

  lemma ParsedWellFormed(raw: string)
    requires OnlySpaces(raw) && Parse(raw).command != ""
    ensures WellFormed(Parse(raw))
  {
    var line := StripCr(raw);
    assert line == raw;
    BaseWords(line);
    var words := Tokens(BasePart(line), BLANKS);
    var m := Parse(raw);
    var k := if words[0][0] == ':' then 1 else 0;
    UpperKeepsMiddle(words[k]);
    UpperIdempotent(words[k]);
    assert m.params == words[k + 1..] + Trailing(line);
    forall i | 0 <= i < |m.params| - 1 ensures Middle(m.params[i]) {
      assert m.params[i] == words[k + 1 + i];
    }
    LastOfLine(line);
  }

  lemma LastOfLine(line: string)
    requires OnlySpaces(line)
    ensures Trailing(line) != [] ==> StripCr(Trailing(line)[0]) == Trailing(line)[0]
  {
    if Trailing(line) != [] {
      var last := Trailing(line)[0];
      assert last != "" ==> last[|last| - 1] == line[|line| - 1];
    }
  }

  /** Parsing is stable: what was parsed prints to a line that parses the same. */
  lemma ParsePrintParse(raw: string)
    requires OnlySpaces(raw) && Parse(raw).command != ""
    ensures Parse(Print(Parse(raw))) == Parse(raw)
  {
    ParsedWellFormed(raw);
    PrintParse(Parse(raw));
  }

  /** Every byte of a parameter is a byte of the line. */
  lemma ParamBytes(raw: string, i: nat, k: nat)
    requires i < |Parse(raw).params| && k < |Parse(raw).params[i]|
    ensures Parse(raw).params[i][k] in raw
  {
    var line := StripCr(raw);
    var base := BasePart(line);
    BaseUnmarked(line);
    var words := Tokens(base, BLANKS);
    var param := Parse(raw).params[i];
    var c := param[k];
    if param in words {
      TokensChars(base, BLANKS, param, c);
      var n :| 0 <= n < |base| && base[n] == c;
      assert line[n] == c && raw[n] == c;
    } else {
      assert Trailing(line) == [param];
      var n := |line| - |param| + k;
      assert line[n] == c && raw[n] == c;
    }
  }

  /** A first parameter that is not the last is a word. */
  lemma FirstParamSolid(raw: string)
    ensures |Parse(raw).params| >= 2 ==> Parse(raw).params[0] != "" && Free(Parse(raw).params[0], BLANKS)
  {
    hide Find;
    var words, tr := Tokens(BasePart(StripCr(raw)), BLANKS), Trailing(StripCr(raw));
    assert |tr| <= 1;
  }

  /** Parameters of a clean line are clean. */
  lemma ParseClean(raw: string)
    requires Clean(raw)
    ensures forall i :: 0 <= i < |Parse(raw).params| ==> Clean(Parse(raw).params[i])
  {
    var params := Parse(raw).params;
    forall i | 0 <= i < |params| ensures Clean(params[i]) {
      forall k | 0 <= k < |params[i]| ensures params[i][k] !in FORBIDDEN { ParamBytes(raw, i, k); }
    }
  }

  // ------------------------------------------------------------- the loop form

  /** One stream extraction: skip blanks, take a word. */
  method NextWord(base: string, start: nat) returns (found: bool, word: string, next: nat)
    requires start <= |base|
    ensures start <= next <= |base| && (found ==> start < next)
    ensures Tokens(base[start..], BLANKS) == if found then [word] + Tokens(base[next..], BLANKS) else []
    ensures !found ==> Tokens(base[next..], BLANKS) == []
  {
    next := start;
    while next < |base| && base[next] in BLANKS
      invariant start <= next <= |base|
      invariant Tokens(base[next..], BLANKS) == Tokens(base[start..], BLANKS)
    {
      assert base[next..][1..] == base[next + 1..];
      next := next + 1;
    }
    if next == |base| { return false, "", next; }
    var end := ReadToken(base, next, BLANKS);
    assert base[next..][..end - next] == base[next..end] && base[next..][end - next..] == base[end..];
    return true, base[next..end], end;
  }

  /** The in-place upper-casing loop. */
  method ToUpper(text: string) returns (result: string)
    ensures result == Upper(text)
  {
    result := text;
    var i := 0;
    while i < |result|
      invariant |result| == |text| && i <= |text|
      invariant forall k :: 0 <= k < i ==> result[k] == UpperChar(text[k])
      invariant forall k :: i <= k < |text| ==> result[k] == text[k]
    {
      result := result[i := UpperChar(result[i])];
      i := i + 1;
    }
  }

  /** Parser::parse as written: a cursor over the base part, parameters pushed one by one. */
  method ParseLine(raw: string) returns (m: Message)
    ensures m == Parse(raw)
  {
    hide Tokens, Find, StripCr, Upper, RunLength, BasePart, Trailing;
    m := NOTHING;
    var line := StripCr(raw);
    var base := BasePart(line);
    assert base[0..] == base;
    var found, word, at := NextWord(base, 0);
    if !found { return; }
    assert Tokens(base, BLANKS)[0] == word;
    if word[0] == ':' {
      m := m.(prefix := word[1..]);
      var second, name, next := NextWord(base, at);
      at := next;
      if second {
        var command := ToUpper(name);
        m := m.(command := command);
      }
    } else {
      var command := ToUpper(word);
      m := m.(command := command);
    }
    var params := RemainingWords(base, at);
    m := m.(params := params + Trailing(line));
  }

  /** The parameter loop. */
  method RemainingWords(base: string, start: nat) returns (params: seq<string>)
    requires start <= |base|
    ensures params == Tokens(base[start..], BLANKS)
  {
    hide Tokens;
    params := [];
    var at := start;
    var more := true;
    ghost var left := Tokens(base[start..], BLANKS);
    while more
      invariant at <= |base| && params + left == Tokens(base[start..], BLANKS)
      invariant if more then left == Tokens(base[at..], BLANKS) else left == []
      decreases |base| - at, more
    {
      var word;
      more, word, at := NextWord(base, at);
      if more {
        left := left[1..];
        params := params + [word];
      }
    }
  }
}
