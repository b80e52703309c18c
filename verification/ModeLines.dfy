/** MODE lines on the wire: the announcement and the 324 answer, read back by the parser. */
module ModeLines {
  import opened Text
  import opened Replies
  import opened State
  import opened Modes
  import opened Invariant
  import opened Parsing
  import opened ReadBack
  import Announcement
  import Commands

  // ---------------------------------------------------------- the announcement

  /** A mode text that replays holds signs and letters only. */
  lemma {:induction false} ReplayedLetters(s: Core, before: Announcement.ModeState, modes: string, margs: seq<string>)
    requires Announcement.Replay(s, before, modes, margs).Some?
    ensures Free(modes, BLANKS)
    decreases |modes|
  {
    hide FindClientByNick, DecimalValue;
    if modes != "" {
      var n := |modes| - 1;
      ReplayedLetters(s, before, modes[..n], margs);
      assert modes == modes[..n] + [modes[n]];
    }
  }

  function UserPrefix(nick: string, user: string): string { nick + "!" + ("~" + user) + "@localhost" }

  lemma ModeSetLine(nick: string, user: string, target: string, modes: string, margs: seq<string>)
    ensures Body(ModeSet(nick, user, target, modes, margs)) == WordLine(UserPrefix(nick, user), "MODE", [target, modes] + margs)
  {
    hide Source, UserPrefix, Spaced, WordLine;
    SourcePrefix(nick, user);
    PrefixedLine(UserPrefix(nick, user), "MODE", [target, modes] + margs);
    assert Source(nick, "~" + user) + " " + "MODE" == Source(nick, "~" + user) + " MODE";
  }

  lemma SourcePrefix(nick: string, user: string)
    ensures Source(nick, "~" + user) == ":" + UserPrefix(nick, user) && UserPrefix(nick, user) != ""
  {
    Grouped(":", nick, "!", "~" + user, "@localhost");
  }

  lemma Grouped(a: string, b: string, c: string, d: string, e: string)
    ensures a + b + c + d + e == a + (b + c + d + e)
  {
  }

  lemma PrefixSendable(nick: string, user: string)
    requires Commands.ValidNickname(nick) && Free(user, BLANKS)
    ensures Sendable(UserPrefix(nick, user), "MODE")
  {
    assert Free(nick, BLANKS);
  }

  /** Main result: the announcement of any accepted request of a registered client, read by a parser of
      RFC 2812, is its mode text and its arguments if and only if the channel's name holds no blank and
      every announced argument is a word that can stand between spaces. */
  lemma ModeLineReadsBack(s: Core, fd: int, target: string, params: seq<string>)
    requires Inv(s) && fd in s.clients && s.clients[fd].Registered() && target in s.channels && |params| >= 2
    ensures
      var c := s.clients[fd];
      var x := Interpret(s, fd, c.nickname, target, params);
      x.modes != "" ==>
        (Parse(Body(ModeSet(c.nickname, c.username, target, x.modes, x.margs)))
           == Message(UserPrefix(c.nickname, c.username), "MODE", [target, x.modes] + x.margs)
         <==> Free(target, BLANKS) && AllMiddle(x.margs))
  {
    hide Interpret, Parse, Body, WordLine, AllMiddle, NicksOk, PollOk, Announcement.Replay, ChangeModes;
    var c := s.clients[fd];
    var x := Interpret(s, fd, c.nickname, target, params);
    assert SessionOk(c) && EntryOk(s, target, s.channels[target]);
    if x.modes != "" {
      Announcement.ModeAnnouncementFaithful(s, fd, target, params);
      ReplayedLetters(s, Announcement.StateOf(s.channels[target]), x.modes, x.margs);
      PrefixSendable(c.nickname, c.username);
      ModeSetLine(c.nickname, c.username, target, x.modes, x.margs);
      ReadsBackExactly(UserPrefix(c.nickname, c.username), "MODE", [target, x.modes] + x.margs);
      TwoMore(target, x.modes, x.margs);
    }
  }

  lemma TwoMore(a: string, b: string, more: seq<string>)
    ensures AllMiddle([a, b] + more) <==> Middle(a) && Middle(b) && AllMiddle(more)
  {
    var all := [a, b] + more;
    assert all[0] == a && all[1] == b;
    assert forall i :: 0 <= i < |more| ==> more[i] == all[i + 2];
  }

  /** Only an argument that was given in such a form is announced in such a form: if the request's
      arguments can stand between spaces, so can all that is announced. */
  lemma PlainRequestReadsBack(s: Core, fd: int, nick: string, target: string, params: seq<string>)
    requires |params| >= 2 && AllMiddle(params[2..])
    ensures AllMiddle(Interpret(s, fd, nick, target, params).margs)
  {
    PlainScan(Scan(s, true, 2, NO_SIGN, "", []), fd, nick, target, params, params[1]);
  }

  lemma {:induction false} PlainScan(x: Scan, fd: int, nick: string, target: string, params: seq<string>, text: string)
    requires |params| >= 2 && AllMiddle(params[2..]) && x.cursor >= 2 && AllMiddle(x.margs)
    ensures AllMiddle(ModeScan(x, fd, nick, target, params, text).margs)
    decreases |text|
  {
    hide ModeStep, AllMiddle;
    if text != "" {
      PlainStep(x, fd, nick, target, params, text[0]);
      PlainScan(ModeStep(x, fd, nick, target, params, text[0]), fd, nick, target, params, text[1..]);
    }
  }

  lemma PlainStep(x: Scan, fd: int, nick: string, target: string, params: seq<string>, c: char)
    requires |params| >= 2 && AllMiddle(params[2..]) && x.cursor >= 2 && AllMiddle(x.margs)
    ensures ModeStep(x, fd, nick, target, params, c).cursor >= 2 && AllMiddle(ModeStep(x, fd, nick, target, params, c).margs)
  {
    hide FindClientByNick, Send, SetChannel, Digits;
    if target in x.core.channels && TakesArgument(c, x.plus) && x.cursor < |params| {
      var arg := params[x.cursor];
      assert arg == params[2..][x.cursor - 2];
      if c == 'l' && AllDigits(arg) { DigitsPlain(Atoi(arg)); }
    }
  }

  lemma DigitsPlain(n: int)
    ensures n >= 0 ==> Middle(Digits(n))
  {
    if n >= 0 { assert forall i :: 0 <= i < |Digits(n)| ==> IsDigit(Digits(n)[i]); }
  }
}
