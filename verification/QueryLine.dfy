/** The 324 answer sent back as a MODE line: exactly when it restores the settings. */
module QueryLine {
  import opened Text
  import opened Replies
  import opened Channels
  import opened State
  import opened Modes
  import opened Invariant
  import opened Parsing
  import opened ReadBack
  import opened QueryRestore
  import opened EventLoop
  import CommandProofs
  import Commands
  import ModeProofs

  const CLEAR := (false, false, "", 0)

  /** The line a client makes of a channel's 324 mode text and arguments. */
  function RestoringLine(target: string, from: Channel): string {
    WordLine("", "MODE", Restoring(target, from))
  }

  // ----------------------------------------------------------- what MODE touches

  /** A change request goes through to the interpreter. */
  predicate Accepted(s: Core, fd: int, params: seq<string>) {
    |params| >= 2 && params[0] in s.channels && fd in s.channels[params[0]].operators
    && Commands.IsChannelTarget(params[0]) && UnknownLetter(params[1]).None?
  }

  lemma ModeChannels(s: Core, fd: int, params: seq<string>)
    requires Inv(s) && fd in s.clients
    ensures
      var t := Mode(s, fd, params);
      if Accepted(s, fd, params) then t.channels == Interpret(s, fd, s.clients[fd].nickname, params[0], params).core.channels
      else t.channels == s.channels
  {
    hide Inv, Interpret, UnknownLetter, ActiveModes, ActiveArgs, Broadcast;
    if Accepted(s, fd, params) { ChangeModesChannels(s, fd, params[0], params); }
  }

  lemma ChangeModesChannels(s: Core, fd: int, target: string, params: seq<string>)
    requires Inv(s) && fd in s.clients && target in s.channels && |params| >= 2
    ensures ChangeModes(s, fd, target, params).channels == Interpret(s, fd, s.clients[fd].nickname, target, params).core.channels
  {
    hide Interpret, Broadcast, Quiet, SessionsOk, NicksOk, PollOk, ChannelsOk;
    var c := s.clients[fd];
    var x := Interpret(s, fd, c.nickname, target, params);
    ModeProofs.InterpretScanning(s, fd, c.nickname, target, params);
    var members := x.core.channels[target].members;
    CommandProofs.MembersConnected(x.core, target);
    BroadcastQuiet(x.core, members, None, ModeSet(c.nickname, c.username, target, x.modes, x.margs));
  }

  lemma OtherChannelKept(s: Core, fd: int, params: seq<string>, name: string)
    requires Inv(s) && fd in s.clients && name in s.channels && (params != [] ==> params[0] != name)
    ensures name in Mode(s, fd, params).channels && Mode(s, fd, params).channels[name] == s.channels[name]
  {
    hide Inv, Interpret, Mode, UnknownLetter, Commands.IsChannelTarget;
    ModeChannels(s, fd, params);
    if Accepted(s, fd, params) {
      ModeProofs.InterpretScanning(s, fd, s.clients[fd].nickname, params[0], params);
    }
  }

  /** A key the interpreter leaves is the old one, none, or one of the arguments. */
  lemma {:induction false} KeyFromArguments(x: Scan, fd: int, nick: string, target: string, params: seq<string>, text: string, old_: string)
    requires target in x.core.channels
    requires var k := x.core.channels[target].key; k == old_ || k == "" || k in params
    ensures
      var y := ModeScan(x, fd, nick, target, params, text).core;
      target in y.channels && var k := y.channels[target].key; k == old_ || k == "" || k in params
    decreases |text|
  {
    hide ModeStep;
    if text != "" {
      KeyStep(x, fd, nick, target, params, text[0]);
      KeyFromArguments(ModeStep(x, fd, nick, target, params, text[0]), fd, nick, target, params, text[1..], old_);
    }
  }

  lemma KeyStep(x: Scan, fd: int, nick: string, target: string, params: seq<string>, c: char)
    requires target in x.core.channels
    ensures
      var y := ModeStep(x, fd, nick, target, params, c).core;
      target in y.channels &&
      var k := y.channels[target].key;
      k == x.core.channels[target].key || k == "" || k in params
  {
    hide FindClientByNick, Digits, Atoi, Free, AllDigits, ModeEffect;
    var e := ModeEffect(x, nick, target, params, c);
    EffectKey(x, nick, target, params, c);
    if e.Put? { assert ModeStep(x, fd, nick, target, params, c).core.channels[target] == e.channel; }
  }

  lemma EffectKey(x: Scan, nick: string, target: string, params: seq<string>, c: char)
    requires target in x.core.channels
    ensures
      var e := ModeEffect(x, nick, target, params, c);
      e.Put? ==> e.channel.key == x.core.channels[target].key || e.channel.key == "" || e.channel.key in params
  {
    hide FindClientByNick, Digits, Atoi, Free, AllDigits, AddOnce, Erase;
  }

  // ------------------------------------------------------------ what the line says

  /** The line starts with the command and a word taken from the channel's name. */
  lemma FirstWords(target: string, more: seq<string>)
    requires Commands.IsChannelTarget(target)
    ensures
      var m := Parse(WordLine("", "MODE", [target] + more));
      m.command == "MODE" && (m.params != [] ==> Free(m.params[0], BLANKS))
  {
    var line := WordLine("", "MODE", [target] + more);
    BareLine("MODE", [target] + more);
    assert ([target] + more)[0] == target && ([target] + more)[1..] == more;
    assert Spaced([target] + more) == " " + target + Spaced(more);
    assert line == "MODE" + [' '] + (target + Spaced(more));
    MarkAfterFirst(line, target + Spaced(more));
  }

  lemma MarkAfterFirst(line: string, rest: string)
    requires rest != "" && (rest[0] == '#' || rest[0] == '&') && line == "MODE" + [' '] + rest
    ensures Parse(line).command == "MODE" && (Parse(line).params != [] ==> Free(Parse(line).params[0], BLANKS))
  {
    hide Find, Tokens;
    var cut := StripCr(line);
    var base := BasePart(cut);
    var mark := Find(cut, " :");
    assert line[0] != ' ' && line[1] != ' ' && line[2] != ' ' && line[3] != ' ' && line[4] == ' ' && line[5] == rest[0];
    assert |cut| >= 6 && forall k :: 0 <= k < 6 ==> cut[k] == line[k];
    if mark.Some? {
      MarkAt(cut, mark.value);
      assert mark.value >= 6;
    }
    assert |base| >= 6 && base == cut[..|base|];
    assert base == "MODE" + [' '] + base[5..] && base[5] == rest[0];
    ModeIsWord();
    TokensCons("MODE", ' ', base[5..], BLANKS);
    SomeToken(base[5..]);
  }

  lemma ModeIsWord()
    ensures Free("MODE", BLANKS) && Upper("MODE") == "MODE" && Middle("MODE") && Sendable("", "MODE")
  {
  }

  lemma SomeToken(s: string)
    requires s != "" && s[0] !in BLANKS
    ensures Tokens(s, BLANKS) != []
  {
  }

  lemma LettersMiddle(ch: Channel)
    requires ActiveLetters(ch) != ""
    ensures Middle(ActiveModes(ch))
  {
  }

  lemma LimitMiddle(n: nat)
    ensures Middle(Digits(n)) && ' ' !in Digits(n)
  {
    assert forall i :: 0 <= i < |Digits(n)| ==> IsDigit(Digits(n)[i]);
  }

  predicate Readable(target: string, key: string) { Free(target, BLANKS) && (key == "" || Middle(key)) }

  lemma RestoringMiddle(target: string, from: Channel)
    requires Commands.IsChannelTarget(target) && ActiveLetters(from) != ""
    ensures AllMiddle(Restoring(target, from)) <==> Readable(target, from.key)
  {
    hide Digits;
    LettersMiddle(from);
    LimitMiddle(from.limit);
    var args := Restoring(target, from);
    assert args[0] == target && args[1] == ActiveModes(from);
    assert from.key != "" ==> args[2] == from.key;
  }

  /** The line reads back as the request it spells if and only if name and key can stand between spaces. */
  lemma RestoringLineReadsBack(target: string, from: Channel)
    requires Commands.IsChannelTarget(target) && ActiveLetters(from) != ""
    ensures Parse(RestoringLine(target, from)) == Message("", "MODE", Restoring(target, from)) <==> Readable(target, from.key)
  {
    hide Parse, WordLine, Restoring, AllMiddle, Readable;
    ModeIsWord();
    RestoringMiddle(target, from);
    ReadsBackExactly("", "MODE", Restoring(target, from));
  }

  // --------------------------------------------- a key that cannot be read back

  /** A key with a blank in it, or a colon in front, is no parameter of the line that offers it. */
  lemma KeyNotRead(target: string, from: Channel)
    requires Commands.IsChannelTarget(target) && Free(target, BLANKS)
    requires from.key != "" && Free(from.key, KEY_STOPS) && !Middle(from.key)
    ensures from.key !in Parse(RestoringLine(target, from)).params
  {
    hide Parse, ActiveModes, ActiveLetters, Digits, Tokens, Find;
    var line := RestoringLine(target, from);
    var args := Restoring(target, from);
    KeyNotTrailing(target, from);
    ParsedParams(line);
    if Free(from.key, BLANKS) {
      ColonKeyCuts(target, from);
    }
  }

  lemma ParsedParams(line: string)
    ensures
      var words := Tokens(BasePart(StripCr(line)), BLANKS);
      forall w :: w in Parse(line).params ==> w in words[if words == [] then 0 else 1..] || Trailing(StripCr(line)) == [w]
    ensures forall w :: w in Tokens(BasePart(StripCr(line)), BLANKS) ==> Free(w, BLANKS)
  {
  }

  lemma ColonKeyCuts(target: string, from: Channel)
    requires Commands.IsChannelTarget(target) && Free(target, BLANKS)
    requires from.key != "" && Free(from.key, BLANKS) && from.key[0] == ':'
    ensures Tokens(BasePart(StripCr(RestoringLine(target, from))), BLANKS) == ["MODE", target, ActiveModes(from)]
    ensures from.key != target && from.key != ActiveModes(from)
  {
    hide Digits, Tokens, Find;
    var ws := LineWords("", "MODE", Restoring(target, from));
    LimitMiddle(from.limit);
    LettersMiddle(from);
    ModeIsWord();
    assert ws[0] == "MODE" && ws[1] == target && ws[2] == ActiveModes(from) && ws[3] == from.key;
    assert |ws| > 4 ==> ws[4] == Digits(from.limit);
    assert |ws| <= 5;
    SolidUnstripped(ws);
    CutShort(ws, 3, "");
    assert JoinWords(ws) + "" == JoinWords(ws);
    assert ws[..3] == ["MODE", target, ActiveModes(from)];
  }

  /** What follows a mark in the line is never the key. */
  lemma KeyNotTrailing(target: string, from: Channel)
    requires Free(from.key, KEY_STOPS) && from.key != ""
    ensures Trailing(StripCr(RestoringLine(target, from))) != [from.key]
  {
    hide Digits, Find, ActiveModes, ActiveLetters;
    var head := [target, ActiveModes(from), from.key];
    if from.limit > 0 {
      var n := Digits(from.limit);
      LimitMiddle(from.limit);
      assert Restoring(target, from) == head + [n];
      LineSnoc(head, n);
      NotThrough(WordLine("", "MODE", head), n, from.key);
    } else {
      assert Restoring(target, from) == [target, ActiveModes(from)] + [from.key];
      LineSnoc([target, ActiveModes(from)], from.key);
      LastIsNotTrailing(WordLine("", "MODE", [target, ActiveModes(from)]), from.key);
    }
  }

  lemma LineSnoc(args: seq<string>, last: string)
    ensures WordLine("", "MODE", args + [last]) == WordLine("", "MODE", args) + " " + last
  {
    var ws := LineWords("", "MODE", args + [last]);
    assert ws[..|ws| - 1] == LineWords("", "MODE", args) && ws[|ws| - 1] == last;
    EndsInLast(ws);
  }

  /** Before a final number there is a space, so a text without one does not reach over it. */
  lemma NotThrough(pre: string, number: string, text: string)
    requires Middle(number) && ' ' !in number && ' ' !in text && (forall i :: 0 <= i < |number| ==> number[i] != ':')
    ensures Trailing(StripCr(pre + " " + number)) != [text]
  {
    hide Find;
    var line := pre + " " + number;
    assert line[|line| - 1] == number[|number| - 1];
    var mark := Find(line, " :");
    if mark.Some? {
      var p := mark.value;
      MarkAt(line, p);
      assert line[|pre|] == ' ';
      assert line[|pre| + 1] == number[0];
      assert line[p + 2..][|pre| - p - 2] == ' ';
    }
  }

  // ----------------------------------------------------------------- restoring

  /** A served, registered operator of `target` whose four settings are clear. */
  ghost predicate CanRestore(t: Core, fd: int, target: string) {
    Inv(t) && Listening(t, fd) && t.clients[fd].Registered()
    && target in t.channels && fd in t.channels[target].operators && t.channels[target].Settings() == CLEAR
  }

  lemma DispatchedToMode(t: Core, fd: int, m: Message)
    requires fd in t.clients && t.clients[fd].Registered() && m.command == "MODE"
    ensures Dispatch(t, fd, m) == Mode(t, fd, m.params)
  {
    hide Mode;
  }

  lemma ClearLetters(ch: Channel)
    ensures ActiveLetters(ch) == "" <==> ch.Settings() == CLEAR
  {
  }

  /** When the line reads back, the settings are restored. */
  lemma ReadRestores(s: Core, name: string, t: Core, fd: int, target: string)
    requires Inv(s) && name in s.channels && CanRestore(t, fd, target)
    ensures
      var u := Mode(t, fd, Restoring(target, s.channels[name]));
      target in u.channels && u.channels[target].Settings() == s.channels[name].Settings()
  {
    hide SessionsOk, NicksOk, PollOk, Interpret, UnknownLetter, ActiveModes, ActiveArgs, Mode;
    var from := s.channels[name];
    var params := Restoring(target, from);
    assert params[0] == target && params[1] == ActiveModes(from);
    assert EntryOk(t, target, t.channels[target]);
    QueryRestoresSettings(s, name, t, fd, t.clients[fd].nickname, target);
    ModeChannels(t, fd, params);
  }

  /** When name or key cannot be read back, they are not. */
  lemma UnreadIsLost(s: Core, name: string, t: Core, fd: int, target: string)
    requires Inv(s) && name in s.channels && CanRestore(t, fd, target)
    requires s.channels[name].Settings() != CLEAR && !Readable(target, s.channels[name].key)
    ensures
      var u := Mode(t, fd, Parse(RestoringLine(target, s.channels[name])).params);
      target in u.channels && u.channels[target].Settings() != s.channels[name].Settings()
  {
    hide SessionsOk, NicksOk, PollOk, Interpret, UnknownLetter, ActiveModes, ActiveArgs, Mode, Parse;
    var from := s.channels[name];
    assert EntryOk(s, name, from) && EntryOk(t, target, t.channels[target]);
    var params := Parse(RestoringLine(target, from)).params;
    NameRead(target, from);
    if params == [] || params[0] != target {
      OtherChannelKept(t, fd, params, target);
    } else {
      KeyNotRead(target, from);
      ModeChannels(t, fd, params);
      if Accepted(t, fd, params) { InterpretedKey(t, fd, t.clients[fd].nickname, target, params); }
    }
  }

  lemma NameRead(target: string, from: Channel)
    requires Commands.IsChannelTarget(target)
    ensures
      var m := Parse(RestoringLine(target, from));
      m.command == "MODE" && (m.params != [] && m.params[0] == target ==> Free(target, BLANKS))
  {
    hide Parse, ActiveModes, ActiveArgs;
    var more := [ActiveModes(from)] + ActiveArgs(from);
    assert Restoring(target, from) == [target] + more;
    FirstWords(target, more);
  }

  lemma InterpretedKey(t: Core, fd: int, nick: string, target: string, params: seq<string>)
    requires target in t.channels && |params| >= 2 && t.channels[target].key == ""
    ensures
      var y := Interpret(t, fd, nick, target, params).core;
      target in y.channels && (y.channels[target].key == "" || y.channels[target].key in params)
  {
    KeyFromArguments(Scan(t, true, 2, NO_SIGN, "", []), fd, nick, target, params, params[1], "");
  }

  /** A query answer with nothing set is no request for a change of this channel. */
  lemma NothingToRestore(t: Core, fd: int, target: string, from: Channel)
    requires CanRestore(t, fd, target) && from.Settings() == CLEAR
    ensures
      var u := Mode(t, fd, Parse(RestoringLine(target, from)).params);
      target in u.channels && u.channels[target].Settings() == CLEAR
  {
    hide SessionsOk, NicksOk, PollOk, Interpret, UnknownLetter, Mode, Parse;
    assert EntryOk(t, target, t.channels[target]);
    var params := Parse(RestoringLine(target, from)).params;
    NameRead(target, from);
    if params == [] || params[0] != target {
      OtherChannelKept(t, fd, params, target);
    } else {
      OnlyTheName(target, from);
      ModeChannels(t, fd, params);
    }
  }

  lemma OnlyTheName(target: string, from: Channel)
    requires Commands.IsChannelTarget(target) && Free(target, BLANKS) && from.Settings() == CLEAR
    ensures Parse(RestoringLine(target, from)).params == [target]
  {
    hide Find, Tokens;
    var line := RestoringLine(target, from);
    assert Restoring(target, from) == [target, ""];
    BareLine("MODE", [target, ""]);
    assert [target, ""][1..] == [""] && [""][1..] == [];
    assert Spaced([""]) == " " + "" + Spaced([]);
    assert Spaced([target, ""]) == " " + target + Spaced([""]);
    assert line == "MODE" + [' '] + (target + [' '] + "");
    NoMarkInName(line, target);
    ModeIsWord();
    TokensCons("MODE", ' ', target + [' '] + "", BLANKS);
    TokensCons(target, ' ', "", BLANKS);
    NothingLeft();
  }

  lemma NothingLeft()
    ensures Tokens("", BLANKS) == []
  {
  }

  lemma NoMarkInName(line: string, target: string)
    requires Commands.IsChannelTarget(target) && Free(target, BLANKS) && line == "MODE" + [' '] + (target + [' '] + "")
    ensures StripCr(line) == line && Find(line, " :").None?
  {
    assert line[|line| - 1] == ' ';
    forall j: nat ensures !OccursAt(line, " :", j) {
      MarkAt(line, j);
      assert 5 <= j < 5 + |target| ==> line[j] == target[j - 5];
      assert line[5] == target[0];
    }
  }

  /** Main result: an operator who sends back the 324 answer of any reachable channel as a MODE line, to a
      channel whose settings are clear, gets exactly its settings, if and only if there was nothing to set
      or the line can be read back: no blank in the channel's name, and a key, if any, without blanks and
      without a colon in front. */
  lemma QueryLineRestores(s: Core, name: string, t: Core, fd: int, target: string)
    requires Inv(s) && name in s.channels && CanRestore(t, fd, target)
    ensures
      var from := s.channels[name];
      var u := ProcessLine(t, fd, RestoringLine(target, from));
      target in u.channels && (u.channels[target].Settings() == from.Settings() <==>
        from.Settings() == CLEAR || Readable(target, from.key))
  {
    hide SessionsOk, NicksOk, PollOk, Mode, Parse, Restoring, RestoringLine, Readable, ActiveLetters, Dispatch;
    var from := s.channels[name];
    assert EntryOk(t, target, t.channels[target]);
    var m := Parse(RestoringLine(target, from));
    NameRead(target, from);
    DispatchedToMode(t, fd, m);
    ClearLetters(from);
    if from.Settings() == CLEAR {
      NothingToRestore(t, fd, target, from);
    } else if Readable(target, from.key) {
      RestoringLineReadsBack(target, from);
      ReadRestores(s, name, t, fd, target);
    } else {
      UnreadIsLost(s, name, t, fd, target);
    }
  }
}
