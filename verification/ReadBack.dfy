/** Lines made of words, as the parser of section 2.3.1 of RFC 2812 reads them back. */
module ReadBack {
  import opened Text
  import opened Parsing

  function LineWords(prefix: string, command: string, args: seq<string>): seq<string> {
    (if prefix != "" then [":" + prefix] else []) + [command] + args
  }

  /** The words of a line, one space between them and nothing written as trailing. */
  function WordLine(prefix: string, command: string, args: seq<string>): string {
    JoinWords(LineWords(prefix, command, args))
  }

  predicate AllMiddle(args: seq<string>) { forall i :: 0 <= i < |args| ==> Middle(args[i]) }

  predicate Sendable(prefix: string, command: string) {
    Free(prefix, BLANKS) && Middle(command) && Upper(command) == command
  }

  lemma LineWordsAre(prefix: string, command: string, args: seq<string>)
    ensures
      var p := if prefix != "" then 1 else 0;
      var ws := LineWords(prefix, command, args);
      |ws| == p + 1 + |args| && ws[p] == command && ws[p + 1..] == args && (p == 1 ==> ws[0] == ":" + prefix)
  {
  }

  lemma PrefixedLine(prefix: string, command: string, args: seq<string>)
    requires prefix != ""
    ensures WordLine(prefix, command, args) == (":" + prefix) + " " + command + Spaced(args)
  {
    var ws := LineWords(prefix, command, args);
    assert ws[0] == ":" + prefix && ws[1..] == [command] + args && ([command] + args)[1..] == args;
    assert Spaced([command] + args) == " " + command + Spaced(args);
    Grouped3(":" + prefix, " " + command, Spaced(args));
  }

  lemma Grouped3(a: string, b: string, c: string)
    ensures a + (b + c) == (a + b) + c
  {
  }

  lemma BareLine(command: string, args: seq<string>)
    ensures WordLine("", command, args) == command + Spaced(args)
  {
    var ws := LineWords("", command, args);
    assert ws[0] == command && ws[1..] == args;
  }

  // ----------------------------------------------------------- all words plain

  lemma PlainWords(prefix: string, command: string, args: seq<string>)
    requires Sendable(prefix, command) && AllMiddle(args)
    ensures Words(LineWords(prefix, command, args))
  {
    hide Upper;
    LineWordsAre(prefix, command, args);
    var ws := LineWords(prefix, command, args);
    var p := if prefix != "" then 1 else 0;
    forall i | 1 <= i < |ws| ensures Middle(ws[i]) {
      if i > p { assert ws[i] == ws[p + 1..][i - p - 1]; }
    }
  }

  lemma FromLineWords(prefix: string, command: string, args: seq<string>)
    requires Sendable(prefix, command) && Words(LineWords(prefix, command, args))
    ensures FromWords(LineWords(prefix, command, args), []) == Message(prefix, command, args)
  {
    hide LineWords, Upper, Free;
    LineWordsAre(prefix, command, args);
    var ws := LineWords(prefix, command, args);
    assert args + [] == args;
  }

  lemma PlainReadsBack(prefix: string, command: string, args: seq<string>)
    requires Sendable(prefix, command) && AllMiddle(args)
    ensures Parse(WordLine(prefix, command, args)) == Message(prefix, command, args)
  {
    hide LineWords, Sendable, AllMiddle, FromWords, JoinWords, Tokens, Find;
    var ws := LineWords(prefix, command, args);
    PlainWords(prefix, command, args);
    JoinedNoMark(ws);
    JoinedTokens(ws);
    NoMarkAtAll(JoinWords(ws));
    FromLineWords(prefix, command, args);
  }

  // ------------------------------------------------------- a word that is not

  /** A line that ends in a word. */
  lemma {:induction false} EndsInLast(ws: seq<string>)
    requires |ws| >= 2
    ensures JoinWords(ws) == JoinWords(ws[..|ws| - 1]) + " " + ws[|ws| - 1]
  {
    var n := |ws| - 1;
    SpacedSplit(ws[1..], n - 1);
    assert ws[..n][1..] == ws[1..][..n - 1];
    assert ws[1..][n - 1..] == [ws[n]];
    SpacedOne(ws[n]);
    Regrouped2(ws[0], Spaced(ws[1..][..n - 1]), ws[n]);
  }

  lemma SpacedOne(w: string)
    ensures Spaced([w]) == " " + w
  {
    assert Spaced([w]) == " " + w + Spaced([]);
  }

  lemma Regrouped2(a: string, b: string, c: string)
    ensures a + (b + (" " + c)) == (a + b) + " " + c
  {
  }

  /** A word is not what follows a mark inside the line it ends. */
  lemma LastIsNotTrailing(pre: string, w: string)
    ensures Trailing(StripCr(pre + " " + w)) != [w]
  {
    hide Find;
    var line := pre + " " + w;
    var cut := StripCr(line);
    var mark := Find(cut, " :");
    if mark.Some? {
      var p := mark.value;
      MarkAt(cut, p);
      assert line[|pre|] == ' ' && cut[p + 1] == ':' && line[p + 1] == ':';
      if cut != line && p + 2 == |pre| {
        assert w != "" ==> cut[p + 2..] == " " + w[..|w| - 1];
        if w != "" { NotShifted(w); }
      }
    }
  }

  lemma NotShifted(w: string)
    requires w != "" && w[|w| - 1] == '\r'
    ensures w != " " + w[..|w| - 1]
  {
    if w == " " + w[..|w| - 1] { AllBlank(w, |w| - 1); }
  }

  lemma {:induction false} AllBlank(w: string, k: nat)
    requires k < |w| && w == " " + w[..|w| - 1]
    ensures w[k] == ' '
  {
    if k > 0 {
      assert (" " + w[..|w| - 1])[k] == w[k - 1];
      AllBlank(w, k - 1);
    }
  }

  lemma NoTrailing(prefix: string, command: string, args: seq<string>)
    requires args != [] && Parse(WordLine(prefix, command, args)) == Message(prefix, command, args) && command != ""
    ensures Trailing(StripCr(WordLine(prefix, command, args))) == []
  {
    hide LineWords, Find, Tokens, Upper, StripCr;
    var ws := LineWords(prefix, command, args);
    var line := StripCr(WordLine(prefix, command, args));
    LineWordsAre(prefix, command, args);
    var w := args[|args| - 1];
    assert ws[|ws| - 1] == w by {
      var p := if prefix != "" then 1 else 0;
      assert ws[|ws| - 1] == ws[p + 1..][|args| - 1];
    }
    var tr := Trailing(line);
    assert tr == [] || tr == [w];
    EndsInLast(ws);
    LastIsNotTrailing(JoinWords(ws[..|ws| - 1]), w);
  }

  /** What was read in full is made of words, at least as many as were written. */
  lemma ReadSolid(prefix: string, command: string, args: seq<string>, tokens: seq<string>)
    requires (forall i :: 0 <= i < |tokens| ==> tokens[i] != "" && Free(tokens[i], BLANKS))
    requires Sendable(prefix, command) && FromWords(tokens, []) == Message(prefix, command, args)
    ensures Solid(LineWords(prefix, command, args)) && |tokens| >= |LineWords(prefix, command, args)|
  {
    hide Upper, LineWords;
    LineWordsAre(prefix, command, args);
    var ws := LineWords(prefix, command, args);
    var p := if prefix != "" then 1 else 0;
    var k := if tokens[0][0] == ':' then 1 else 0;
    assert args == tokens[k + 1..] by { assert tokens[k + 1..] + [] == tokens[k + 1..]; }
    forall i | 0 <= i < |ws| ensures ws[i] != "" && Free(ws[i], BLANKS) {
      if i > p {
        assert ws[i] == ws[p + 1..][i - p - 1];
        assert ws[i] == tokens[k + 1 + (i - p - 1)];
      } else if i < p {
        PrefixWord(prefix);
      }
    }
  }

  lemma PrefixWord(prefix: string)
    requires Free(prefix, BLANKS)
    ensures Free(":" + prefix, BLANKS)
  {
  }

  lemma ReadBackPlain(prefix: string, command: string, args: seq<string>)
    requires Sendable(prefix, command) && args != []
    requires Parse(WordLine(prefix, command, args)) == Message(prefix, command, args)
    ensures AllMiddle(args)
  {
    hide LineWords, Sendable, FromWords, Tokens, StripCr, BasePart, Trailing;
    var ws := LineWords(prefix, command, args);
    var line := StripCr(WordLine(prefix, command, args));
    CommandThere(prefix, command);
    NoTrailing(prefix, command, args);
    var tokens := Tokens(BasePart(line), BLANKS);
    ReadSolid(prefix, command, args, tokens);
    LineWordsAre(prefix, command, args);
    assert JoinWords(ws) + "" == JoinWords(ws);
    SolidUnstripped(ws);
    var i := FirstColon(ws);
    if i < |ws| { CutShort(ws, i, ""); }
    var p := if prefix != "" then 1 else 0;
    forall j | 0 <= j < |args| ensures Middle(args[j]) { assert args[j] == ws[p + 1..][j] == ws[p + 1 + j]; }
  }

  lemma CommandThere(prefix: string, command: string)
    requires Sendable(prefix, command)
    ensures command != ""
  {
  }

  lemma SolidUnstripped(ws: seq<string>)
    requires Solid(ws)
    ensures StripCr(JoinWords(ws)) == JoinWords(ws)
  {
    LastChar(ws);
  }

  /** Main result: a line of words reads back as the message it spells if and only if every argument is a
      word that can stand between spaces: not empty, no blank in it, no colon in front. */
  lemma ReadsBackExactly(prefix: string, command: string, args: seq<string>)
    requires Sendable(prefix, command)
    ensures Parse(WordLine(prefix, command, args)) == Message(prefix, command, args) <==> AllMiddle(args)
  {
    hide Sendable, WordLine, Parse;
    if AllMiddle(args) { PlainReadsBack(prefix, command, args); }
    if args != [] && Parse(WordLine(prefix, command, args)) == Message(prefix, command, args) {
      ReadBackPlain(prefix, command, args);
    }
  }
}
