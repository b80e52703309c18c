/** The 324 answer, given back to the change interpreter, restores what it described. */
module QueryRestore {
  import opened Text
  import opened Channels
  import opened State
  import opened Invariant
  import opened Modes

  lemma {:induction false} ModeScanSplit(x: Scan, fd: int, nick: string, target: string, params: seq<string>, a: string, b: string)
    ensures ModeScan(x, fd, nick, target, params, a + b)
      == ModeScan(ModeScan(x, fd, nick, target, params, a), fd, nick, target, params, b)
    decreases |a|
  {
    if a == "" {
      assert a + b == b;
    } else {
      assert (a + b)[1..] == a[1..] + b;
      ModeScanSplit(ModeStep(x, fd, nick, target, params, a[0]), fd, nick, target, params, a[1..], b);
    }
  }

  lemma ModeScanOne(x: Scan, fd: int, nick: string, target: string, params: seq<string>, c: char)
    ensures ModeScan(x, fd, nick, target, params, [c]) == ModeStep(x, fd, nick, target, params, c)
  {
    assert [c][1..] == "";
  }

  /** Part way through: the settings reached, the letters and arguments announced for them. */
  ghost predicate Stage(x: Scan, target: string, settings: (bool, bool, string, nat), letters: string, args: seq<string>) {
    && target in x.core.channels && x.core.channels[target].Settings() == settings
    && x.plus && x.cursor == 2 + |args| && x.margs == args
    && x.modes == (if letters == "" then "" else "+" + letters)
    && x.lastSign == (if letters == "" then NO_SIGN else '+')
  }

  lemma PutStage(x: Scan, fd: int, target: string, ch: Channel, letter: char, arg: seq<string>,
                 settings: (bool, bool, string, nat), letters: string, args: seq<string>)
    requires Stage(x, target, settings, letters, args)
    ensures Stage(x.Apply(fd, target, Put(ch, letter, arg)).(cursor := x.cursor + |arg|), target, ch.Settings(), letters + [letter], args + arg)
  {
    assert letters != "" ==> "+" + letters + [letter] == "+" + (letters + [letter]);
  }

  function Optional(on: bool, letter: char): string { if on then [letter] else "" }

  /** An optional letter: present, one step; absent, none. */
  lemma OptionalScan(x: Scan, fd: int, nick: string, target: string, params: seq<string>, on: bool, letter: char)
    ensures ModeScan(x, fd, nick, target, params, Optional(on, letter))
      == if on then ModeStep(x, fd, nick, target, params, letter) else x
  {
    ModeScanOne(x, fd, nick, target, params, letter);
  }

  lemma InviteStage(x: Scan, fd: int, nick: string, target: string, params: seq<string>, on: bool)
    requires Stage(x, target, (false, false, "", 0), "", [])
    ensures Stage(ModeScan(x, fd, nick, target, params, Optional(on, 'i')), target, (on, false, "", 0), Optional(on, 'i'), [])
  {
    OptionalScan(x, fd, nick, target, params, on, 'i');
    if on {
      PutStage(x, fd, target, x.core.channels[target].(inviteOnly := true), 'i', [], (false, false, "", 0), "", []);
    }
  }

  lemma TopicStage(x: Scan, fd: int, nick: string, target: string, params: seq<string>, on: bool, i: bool, letters: string)
    requires Stage(x, target, (i, false, "", 0), letters, [])
    ensures Stage(ModeScan(x, fd, nick, target, params, Optional(on, 't')), target, (i, on, "", 0), letters + Optional(on, 't'), [])
  {
    OptionalScan(x, fd, nick, target, params, on, 't');
    assert letters + "" == letters;
    if on {
      PutStage(x, fd, target, x.core.channels[target].(topicRestricted := true), 't', [], (i, false, "", 0), letters, []);
    }
  }

  function KeyArgs(key: string): seq<string> { if key != "" then [key] else [] }

  lemma KeyStage(x: Scan, fd: int, nick: string, target: string, params: seq<string>, key: string,
                 i: bool, t: bool, letters: string)
    requires Stage(x, target, (i, t, "", 0), letters, []) && Free(key, KEY_STOPS)
    requires key != "" ==> |params| > 2 && params[2] == key
    ensures Stage(ModeScan(x, fd, nick, target, params, Optional(key != "", 'k')), target, (i, t, key, 0),
                  letters + Optional(key != "", 'k'), KeyArgs(key))
  {
    OptionalScan(x, fd, nick, target, params, key != "", 'k');
    assert letters + "" == letters;
    if key != "" {
      PutStage(x, fd, target, x.core.channels[target].(key := key), 'k', [key], (i, t, "", 0), letters, []);
    }
  }

  function LimitArgs(limit: nat): seq<string> { if limit > 0 then [Digits(limit)] else [] }

  lemma LimitStage(x: Scan, fd: int, nick: string, target: string, params: seq<string>, limit: nat,
                   i: bool, t: bool, key: string, letters: string, args: seq<string>)
    requires Stage(x, target, (i, t, key, 0), letters, args) && limit <= INT_MAX
    requires limit > 0 ==> |params| > 2 + |args| && params[2 + |args|] == Digits(limit)
    ensures Stage(ModeScan(x, fd, nick, target, params, Optional(limit > 0, 'l')), target, (i, t, key, limit),
                  letters + Optional(limit > 0, 'l'), args + LimitArgs(limit))
  {
    OptionalScan(x, fd, nick, target, params, limit > 0, 'l');
    assert letters + "" == letters && args + [] == args;
    if limit > 0 {
      DigitsRoundTrip(limit);
      PutStage(x, fd, target, x.core.channels[target].SetLimit(limit), 'l', [Digits(limit)], (i, t, key, 0), letters, args);
    }
  }

  /** The four stages in a row. */
  lemma AllStages(x: Scan, fd: int, nick: string, target: string, params: seq<string>, from: Channel)
    requires Stage(x, target, (false, false, "", 0), "", [])
    requires Free(from.key, KEY_STOPS) && from.limit <= INT_MAX
    requires |params| == 2 + |ActiveArgs(from)| && params[2..] == KeyArgs(from.key) + LimitArgs(from.limit)
    ensures
      var i, t := Optional(from.inviteOnly, 'i'), Optional(from.topicRestricted, 't');
      var k, l := Optional(from.key != "", 'k'), Optional(from.limit > 0, 'l');
      Stage(ModeScan(x, fd, nick, target, params, i + t + k + l), target, from.Settings(), i + t + k + l, ActiveArgs(from))
  {
    var i, t := Optional(from.inviteOnly, 'i'), Optional(from.topicRestricted, 't');
    var k, l := Optional(from.key != "", 'k'), Optional(from.limit > 0, 'l');
    var keyArgs := KeyArgs(from.key);
    assert from.key != "" ==> params[2] == params[2..][0];
    assert from.limit > 0 ==> params[2 + |keyArgs|] == params[2..][|keyArgs|];
    ModeScanSplit(x, fd, nick, target, params, i + t + k, l);
    ModeScanSplit(x, fd, nick, target, params, i + t, k);
    ModeScanSplit(x, fd, nick, target, params, i, t);
    InviteStage(x, fd, nick, target, params, from.inviteOnly);
    var x1 := ModeScan(x, fd, nick, target, params, i);
    TopicStage(x1, fd, nick, target, params, from.topicRestricted, from.inviteOnly, i);
    var x2 := ModeScan(x1, fd, nick, target, params, t);
    KeyStage(x2, fd, nick, target, params, from.key, from.inviteOnly, from.topicRestricted, i + t);
    var x3 := ModeScan(x2, fd, nick, target, params, k);
    LimitStage(x3, fd, nick, target, params, from.limit, from.inviteOnly, from.topicRestricted, from.key, i + t + k, keyArgs);
  }

  lemma KnownLettersPass(a: string, b: string)
    requires UnknownLetter(a).None? && UnknownLetter(b).None?
    ensures UnknownLetter(a + b).None?
  {
    if a == "" {
      assert a + b == b;
    } else {
      assert (a + b)[1..] == a[1..] + b;
      KnownLettersPass(a[1..], b);
    }
  }

  /** The arguments of a change request made from a query answer. */
  function Restoring(target: string, from: Channel): seq<string> {
    [target, ActiveModes(from)] + ActiveArgs(from)
  }

  /** Main result: for every channel `from` of a reachable state, its 324 mode text and arguments fed
      to the interpreter on a channel with all four settings clear reproduce its settings, are accepted
      as a request, and are announced as exactly the same text and arguments. */
  lemma QueryRestoresSettings(s: Core, name: string, t: Core, fd: int, nick: string, target: string)
    requires Inv(s) && name in s.channels
    requires target in t.channels && t.channels[target].Settings() == (false, false, "", 0)
    ensures
      var from := s.channels[name];
      var x := Interpret(t, fd, nick, target, Restoring(target, from));
      UnknownLetter(ActiveModes(from)).None?
      && target in x.core.channels && x.core.channels[target].Settings() == from.Settings()
      && x.modes == ActiveModes(from) && x.margs == ActiveArgs(from)
  {
    var from := s.channels[name];
    assert EntryOk(s, name, from);
    var params := Restoring(target, from);
    var i, tt := Optional(from.inviteOnly, 'i'), Optional(from.topicRestricted, 't');
    var k, l := Optional(from.key != "", 'k'), Optional(from.limit > 0, 'l');
    LettersKnown(from.inviteOnly, 'i');
    LettersKnown(from.topicRestricted, 't');
    LettersKnown(from.key != "", 'k');
    LettersKnown(from.limit > 0, 'l');
    LettersKnown(true, '+');
    KnownLettersPass(i, tt);
    KnownLettersPass(i + tt, k);
    KnownLettersPass(i + tt + k, l);
    assert ActiveLetters(from) == i + tt + k + l;
    KnownLettersPass(Optional(true, '+'), ActiveLetters(from));
    QueryScan(t, fd, nick, target, from);
  }

  lemma LettersKnown(on: bool, letter: char)
    requires KnownMode(letter)
    ensures UnknownLetter(Optional(on, letter)).None?
  {
    assert on ==> Optional(on, letter)[1..] == "";
  }

  lemma QueryScan(t: Core, fd: int, nick: string, target: string, from: Channel)
    requires target in t.channels && t.channels[target].Settings() == (false, false, "", 0)
    requires Free(from.key, KEY_STOPS) && from.limit <= INT_MAX
    ensures
      var x := Interpret(t, fd, nick, target, Restoring(target, from));
      target in x.core.channels && x.core.channels[target].Settings() == from.Settings()
      && x.modes == ActiveModes(from) && x.margs == ActiveArgs(from)
  {
    var params := Restoring(target, from);
    var start := Scan(t, true, 2, NO_SIGN, "", []);
    var i, tt := Optional(from.inviteOnly, 'i'), Optional(from.topicRestricted, 't');
    var k, l := Optional(from.key != "", 'k'), Optional(from.limit > 0, 'l');
    assert ActiveLetters(from) == i + tt + k + l;
    assert ActiveArgs(from) == KeyArgs(from.key) + LimitArgs(from.limit);
    assert params[2..] == ActiveArgs(from);
    AllStages(start, fd, nick, target, params, from);
    ModeScanSplit(start, fd, nick, target, params, "+", ActiveLetters(from));
    ModeScanOne(start, fd, nick, target, params, '+');
    assert ModeStep(start, fd, nick, target, params, '+') == start;
  }
}
