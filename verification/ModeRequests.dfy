/** What a MODE request asks for, read off its text and arguments, and that the interpreter does it. */
module ModeRequests {
  import opened Text
  import opened Ordering
  import opened Replies
  import opened Clients
  import opened Channels
  import opened State
  import opened Modes
  import opened Invariant
  import ModeProofs
  import QueryRestore

  // ----------------------------------------------------------- reading a request

  /** The sign in force before character `n`: the last one written, plus if none was. */
  function SignAt(text: string, n: nat): bool
    requires n <= |text|
  {
    if n == 0 then true
    else if text[n - 1] == '+' then true
    else if text[n - 1] == '-' then false
    else SignAt(text, n - 1)
  }

  /** k, o and +l take an argument; -l takes none. */
  predicate Asks(text: string, i: nat)
    requires i < |text|
  {
    text[i] == 'k' || text[i] == 'o' || (text[i] == 'l' && SignAt(text, i))
  }

  function Asked(text: string, n: nat): nat
    requires n <= |text|
  {
    if n == 0 then 0 else Asked(text, n - 1) + if Asks(text, n - 1) then 1 else 0
  }

  /** Arguments go to the letters that take one, in order, as long as there are any. */
  function ArgOf(text: string, params: seq<string>, i: nat): Option<string>
    requires i <= |text|
  {
    if 2 + Asked(text, i) < |params| then Some(params[2 + Asked(text, i)]) else None
  }

  /** A flag: the sign of its last letter, or as it was. */
  function FlagAfter(text: string, letter: char, n: nat, old_: bool): bool
    requires n <= |text|
  {
    if n == 0 then old_
    else if text[n - 1] == letter then SignAt(text, n - 1)
    else FlagAfter(text, letter, n - 1, old_)
  }

  /** The key: +k sets one where there is none, if it holds no space, tab or comma; -k with the key
      itself removes it. */
  function KeyAfter(text: string, params: seq<string>, n: nat, old_: string): string
    requires n <= |text|
  {
    if n == 0 then old_
    else
      var key := KeyAfter(text, params, n - 1, old_);
      if text[n - 1] == 'k' && ArgOf(text, params, n - 1).Some? then
        var arg := ArgOf(text, params, n - 1).value;
        if SignAt(text, n - 1) then
          if key == "" && ' ' !in arg && '\t' !in arg && ',' !in arg then arg else key
        else if arg == key then ""
        else key
      else key
  }

  /** A limit argument: decimal digits of a positive number. Beyond an int the number is what atoi says. */
  predicate GoodLimit(arg: string) { arg != "" && AllDigits(arg) && LimitValue(arg) > 0 }

  function LimitValue(arg: string): int
    requires AllDigits(arg)
  {
    if DecimalValue(arg) <= INT_MAX then DecimalValue(arg) else Atoi(arg)
  }

  /** The limit: +l with a good argument sets it, -l removes it. */
  function LimitAfter(text: string, params: seq<string>, n: nat, old_: nat): nat
    requires n <= |text|
  {
    if n == 0 then old_
    else if text[n - 1] != 'l' then LimitAfter(text, params, n - 1, old_)
    else if !SignAt(text, n - 1) then 0
    else
      var arg := ArgOf(text, params, n - 1);
      if arg.Some? && GoodLimit(arg.value) then LimitValue(arg.value) else LimitAfter(text, params, n - 1, old_)
  }

  /** The operator status of one client: the sign of the last o that names it, if it is a member, or as it
      was. */
  function OperatorAfter(s: Core, members: seq<int>, text: string, params: seq<string>, n: nat, x: int, old_: bool): bool
    requires n <= |text|
  {
    if n == 0 then old_
    else
      var arg := ArgOf(text, params, n - 1);
      if text[n - 1] == 'o' && arg.Some? && Called(s, arg.value, x) && x in members then SignAt(text, n - 1)
      else OperatorAfter(s, members, text, params, n - 1, x, old_)
  }

  // ------------------------------------------------------------------ the cursor

  ghost predicate AtPlace(x: Scan, text: string, params: seq<string>, n: nat)
    requires n <= |text|
  {
    x.plus == SignAt(text, n) && x.cursor == if 2 + Asked(text, n) <= |params| then 2 + Asked(text, n) else |params|
  }

  lemma TakesIsAsks(x: Scan, text: string, params: seq<string>, n: nat)
    requires n < |text| && AtPlace(x, text, params, n) && |params| >= 2
    ensures TakesArgument(text[n], x.plus) <==> Asks(text, n)
    ensures x.cursor < |params| <==> ArgOf(text, params, n).Some?
    ensures x.cursor < |params| ==> params[x.cursor] == ArgOf(text, params, n).value
  {
  }

  lemma PlaceStep(x: Scan, fd: int, nick: string, target: string, params: seq<string>, text: string, n: nat)
    requires n < |text| && AtPlace(x, text, params, n) && |params| >= 2 && target in x.core.channels
    ensures AtPlace(ModeStep(x, fd, nick, target, params, text[n]), text, params, n + 1)
  {
    hide ArgumentEffect, Send, SetChannel;
    TakesIsAsks(x, text, params, n);
    ArgumentTurnsNothing(x.core, x.plus, nick, target, x.core.channels[target], text[n],
                         if x.cursor < |params| then params[x.cursor] else "");
  }

  lemma ArgumentTurnsNothing(s: Core, plus: bool, nick: string, target: string, ch: Channel, c: char, arg: string)
    ensures !ArgumentEffect(s, plus, nick, target, ch, c, arg).Turn?
  {
  }

  // ---------------------------------------------------------------- the settings

  /** The four settings so far are what the characters so far ask for. */
  ghost predicate SettingsAre(a: Channel, b: Channel, text: string, params: seq<string>, n: nat)
    requires n <= |text|
  {
    b.inviteOnly == FlagAfter(text, 'i', n, a.inviteOnly)
    && b.topicRestricted == FlagAfter(text, 't', n, a.topicRestricted)
    && b.key == KeyAfter(text, params, n, a.key)
    && b.limit == LimitAfter(text, params, n, a.limit)
  }

  /** What an effect leaves of the channel. */
  function Left(e: Effect, ch: Channel): Channel { if e.Put? then e.channel else ch }

  lemma ApplyLeaves(x: Scan, fd: int, target: string, e: Effect)
    requires target in x.core.channels
    ensures target in x.Apply(fd, target, e).core.channels
    ensures x.Apply(fd, target, e).core.channels[target] == Left(e, x.core.channels[target])
  {
  }

  lemma StepLeaves(x: Scan, fd: int, nick: string, target: string, params: seq<string>, c: char)
    requires target in x.core.channels
    ensures
      var y := ModeStep(x, fd, nick, target, params, c);
      target in y.core.channels && y.core.channels[target] == Left(ModeEffect(x, nick, target, params, c), x.core.channels[target])
  {
    hide ModeEffect, Send;
    ApplyLeaves(x, fd, target, ModeEffect(x, nick, target, params, c));
  }

  lemma LimitValueIs(text: string)
    requires AllDigits(text)
    ensures Atoi(text) == LimitValue(text)
  {
  }

  lemma SettingsStep(a: Channel, x: Scan, fd: int, nick: string, target: string, params: seq<string>, text: string, n: nat)
    requires n < |text| && AtPlace(x, text, params, n) && |params| >= 2 && target in x.core.channels
    requires SettingsAre(a, x.core.channels[target], text, params, n)
    ensures
      var y := ModeStep(x, fd, nick, target, params, text[n]);
      target in y.core.channels && SettingsAre(a, y.core.channels[target], text, params, n + 1)
  {
    hide ModeStep, FindClientByNick, Atoi, Digits, AllDigits, DecimalValue, LimitValue;
    TakesIsAsks(x, text, params, n);
    StepLeaves(x, fd, nick, target, params, text[n]);
    if x.cursor < |params| && AllDigits(params[x.cursor]) { LimitValueIs(params[x.cursor]); }
  }

  // --------------------------------------------------------------- the operators

  /** Everyone but the issuer is as in the state the request came in; the issuer has at most died. */
  ghost predicate OnlyIssuerHeard(s: Core, t: Core, fd: int) {
    t.clients.Keys == s.clients.Keys && fd in s.clients
    && (forall x :: x in s.clients && x != fd ==> t.clients[x] == s.clients[x])
    && t.clients[fd].nickname == s.clients[fd].nickname && (s.clients[fd].dead ==> t.clients[fd].dead)
  }

  /** A lookup during the request: as at its start, but a dead issuer is nobody. */
  lemma LookupDuring(s: Core, t: Core, fd: int, nick: string, x: int)
    requires NicksOk(t) && OnlyIssuerHeard(s, t, fd)
    ensures FindClientByNick(t, nick) == Some(x) <==> Called(s, nick, x) && !(x == fd && t.clients[fd].dead)
  {
    hide FindClientByNick, Lower, NicksOk;
    if nick != "" { FindIsUnique(t, nick, x); } else { NobodyIsNameless(t); }
  }

  lemma NobodyIsNameless(t: Core)
    ensures FindClientByNick(t, "").None?
  {
  }

  ghost predicate OperatorsAre(s: Core, a: Channel, b: Channel, fd: int, issuerToo: bool, text: string, params: seq<string>, n: nat)
    requires n <= |text|
  {
    b.members == a.members
    && forall x: int :: x != fd || issuerToo ==> OperatorIs(s, a, b, x, text, params, n)
  }

  ghost predicate OperatorIs(s: Core, a: Channel, b: Channel, x: int, text: string, params: seq<string>, n: nat)
    requires n <= |text|
  {
    x in b.operators <==> OperatorAfter(s, a.members, text, params, n, x, x in a.operators)
  }

  /** What o does to the operator list. */
  lemma OperatorChange(peer: Option<int>, plus: bool, nick: string, target: string, ch: Channel, peerNick: string, x: int)
    requires NoDup(ch.operators)
    ensures
      var b := Left(OperatorEffect(peer, plus, nick, target, ch, peerNick), ch);
      b.members == ch.members
      && (x in b.operators <==> if peer == Some(x) && x in ch.members then plus else x in ch.operators)
  {
    if peer.Some? {
      AddOnceElements(ch.operators, peer.value);
      EraseElements(ch.operators, peer.value);
    }
  }

  /** The other letters leave it alone. */
  lemma OperatorsKept(x: Scan, nick: string, target: string, params: seq<string>, c: char)
    requires target in x.core.channels && (c != 'o' || x.cursor >= |params|)
    ensures
      var ch := x.core.channels[target];
      var b := Left(ModeEffect(x, nick, target, params, c), ch);
      b.members == ch.members && b.operators == ch.operators
  {
    hide Atoi, Digits, AllDigits, FindClientByNick;
  }

  lemma OperatorArgument(x: Scan, nick: string, target: string, params: seq<string>)
    requires target in x.core.channels && x.cursor < |params|
    ensures ModeEffect(x, nick, target, params, 'o') ==
      OperatorEffect(FindClientByNick(x.core, params[x.cursor]), x.plus, nick, target, x.core.channels[target], params[x.cursor])
  {
    hide FindClientByNick;
  }

  lemma OperatorStep(s: Core, x: Scan, fd: int, nick: string, target: string, params: seq<string>, text: string, n: nat, who: int)
    requires n < |text| && AtPlace(x, text, params, n) && |params| >= 2
    requires target in s.channels && target in x.core.channels && NoDup(x.core.channels[target].operators)
    requires NicksOk(x.core) && OnlyIssuerHeard(s, x.core, fd) && (who == fd ==> !x.core.clients[fd].dead)
    requires x.core.channels[target].members == s.channels[target].members
    requires OperatorIs(s, s.channels[target], x.core.channels[target], who, text, params, n)
    ensures
      var y := ModeStep(x, fd, nick, target, params, text[n]);
      target in y.core.channels && OperatorIs(s, s.channels[target], y.core.channels[target], who, text, params, n + 1)
  {
    hide ModeStep, ModeEffect, OperatorEffect, FindClientByNick, Lower, NicksOk, OnlyIssuerHeard, Called;
    TakesIsAsks(x, text, params, n);
    StepLeaves(x, fd, nick, target, params, text[n]);
    if text[n] == 'o' && x.cursor < |params| {
      var arg := params[x.cursor];
      OperatorArgument(x, nick, target, params);
      OperatorChange(FindClientByNick(x.core, arg), x.plus, nick, target, x.core.channels[target], arg, who);
      LookupDuring(s, x.core, fd, arg, who);
    } else {
      OperatorsKept(x, nick, target, params, text[n]);
    }
  }

  lemma HeardStep(s: Core, x: Scan, fd: int, nick: string, target: string, params: seq<string>, c: char)
    requires target in x.core.channels && OnlyIssuerHeard(s, x.core, fd)
    ensures OnlyIssuerHeard(s, ModeStep(x, fd, nick, target, params, c).core, fd)
    ensures x.core.clients[fd].dead ==> ModeStep(x, fd, nick, target, params, c).core.clients[fd].dead
  {
    hide ModeEffect, Client.SendMessage, TakesArgument, Scan.Announced;
    var e := ModeEffect(x, nick, target, params, c);
    if e.Tell? { SendKeeps(x.core.clients[fd], e.reply, x.core.wire); }
  }

  /** A dead issuer is no longer found: its own status stays. */
  lemma DeadIssuerKept(s: Core, x: Scan, fd: int, nick: string, target: string, params: seq<string>, c: char)
    requires target in x.core.channels && NoDup(x.core.channels[target].operators)
    requires NicksOk(x.core) && OnlyIssuerHeard(s, x.core, fd) && x.core.clients[fd].dead
    ensures
      var y := ModeStep(x, fd, nick, target, params, c);
      target in y.core.channels && (fd in y.core.channels[target].operators <==> fd in x.core.channels[target].operators)
  {
    hide ModeStep, ModeEffect, OperatorEffect, FindClientByNick, Lower, NicksOk, OnlyIssuerHeard, Called;
    StepLeaves(x, fd, nick, target, params, c);
    if c == 'o' && x.cursor < |params| {
      var arg := params[x.cursor];
      OperatorArgument(x, nick, target, params);
      OperatorChange(FindClientByNick(x.core, arg), x.plus, nick, target, x.core.channels[target], arg, fd);
      LookupDuring(s, x.core, fd, arg, fd);
    } else {
      OperatorsKept(x, nick, target, params, c);
    }
  }

  // ------------------------------------------------- what is said about a request

  /** An o that names no member. */
  ghost predicate NamesMember(s: Core, members: seq<int>, nick: string) {
    exists x :: x in members && Called(s, nick, x)
  }

  /** The complaint a letter draws: an ill-formed key or limit, a key where there is one, a nickname that
      is no member's. */
  ghost function ComplaintAt(s: Core, a: Channel, nick: string, target: string, text: string, params: seq<string>, i: nat): seq<Reply>
    requires i < |text|
  {
    var arg := ArgOf(text, params, i);
    if arg.None? then []
    else if text[i] == 'k' && SignAt(text, i) then
      if ' ' in arg.value || '\t' in arg.value || ',' in arg.value then [BadKey(nick, target, arg.value)]
      else if KeyAfter(text, params, i, a.key) != "" then [Numeric(467, [nick, target])]
      else []
    else if text[i] == 'l' && SignAt(text, i) then
      if arg.value == "" || !AllDigits(arg.value) then [BadLimit(nick, target, arg.value)] else []
    else if text[i] == 'o' then
      if NamesMember(s, a.members, arg.value) then [] else [Numeric(441, [nick, arg.value, target])]
    else []
  }

  ghost function Complaints(s: Core, a: Channel, nick: string, target: string, text: string, params: seq<string>, n: nat): seq<Reply>
    requires n <= |text|
  {
    if n == 0 then []
    else Complaints(s, a, nick, target, text, params, n - 1) + ComplaintAt(s, a, nick, target, text, params, n - 1)
  }

  /** A letter that changes something, or accepts a key, is announced. */
  ghost predicate Counts(s: Core, a: Channel, text: string, params: seq<string>, i: nat)
    requires i < |text|
  {
    var c, plus, arg := text[i], SignAt(text, i), ArgOf(text, params, i);
    if c == 'i' then FlagAfter(text, 'i', i, a.inviteOnly) != plus
    else if c == 't' then FlagAfter(text, 't', i, a.topicRestricted) != plus
    else if c == 'l' && !plus then LimitAfter(text, params, i, a.limit) > 0
    else if arg.None? then false
    else if c == 'l' then GoodLimit(arg.value) && LimitAfter(text, params, i, a.limit) != LimitValue(arg.value)
    else if c == 'k' then
      var key := KeyAfter(text, params, i, a.key);
      if plus then key == "" && ' ' !in arg.value && '\t' !in arg.value && ',' !in arg.value else arg.value == key
    else c == 'o' && exists x :: x in a.members && Called(s, arg.value, x)
                                 && OperatorAfter(s, a.members, text, params, i, x, x in a.operators) != plus
  }

  /** The argument it is announced with: a removed key as a star, a limit in decimal. */
  function SaidArg(text: string, params: seq<string>, i: nat): seq<string>
    requires i < |text|
  {
    var arg := ArgOf(text, params, i);
    if !Asks(text, i) || arg.None? then []
    else if text[i] == 'k' && !SignAt(text, i) then ["*"]
    else if text[i] == 'l' && AllDigits(arg.value) && LimitValue(arg.value) > 0 then [Digits(LimitValue(arg.value))]
    else [arg.value]
  }

  ghost function SaidLetters(s: Core, a: Channel, text: string, params: seq<string>, n: nat): string
    requires n <= |text|
  {
    if n == 0 then ""
    else SaidLetters(s, a, text, params, n - 1) + if Counts(s, a, text, params, n - 1) then [text[n - 1]] else ""
  }

  ghost function SaidArgs(s: Core, a: Channel, text: string, params: seq<string>, n: nat): seq<string>
    requires n <= |text|
  {
    if n == 0 then []
    else SaidArgs(s, a, text, params, n - 1) + if Counts(s, a, text, params, n - 1) then SaidArg(text, params, n - 1) else []
  }

  /** A mode text without its signs. */
  function Unsigned(modes: string): string {
    if modes == "" then ""
    else
      var n := |modes| - 1;
      Unsigned(modes[..n]) + if modes[n] == '+' || modes[n] == '-' then "" else [modes[n]]
  }

  lemma UnsignedSnoc(modes: string, c: char)
    ensures Unsigned(modes + [c]) == Unsigned(modes) + if c == '+' || c == '-' then "" else [c]
  {
    assert (modes + [c])[..|modes|] == modes;
  }

  lemma UnsignedAnnounced(x: Scan, letter: char)
    requires letter != '+' && letter != '-'
    ensures Unsigned(x.Announced(letter)) == Unsigned(x.modes) + [letter]
  {
    UnsignedSnoc(x.modes, x.Sign());
    UnsignedSnoc(x.modes, letter);
    UnsignedSnoc(x.modes + [x.Sign()], letter);
    assert x.modes + "" == x.modes;
  }

  /** What one character's effect says: to the issuer, and in the announcement. */
  ghost predicate Says(e: Effect, c: char, complaint: seq<Reply>, counts: bool, arg: seq<string>) {
    && complaint == (if e.Tell? then [e.reply] else [])
    && (counts <==> e.Put?)
    && (e.Put? ==> e.letter == c && e.arg == arg)
  }

  lemma PlainSays(s: Core, a: Channel, x: Scan, nick: string, target: string, params: seq<string>, text: string, n: nat)
    requires n < |text| && AtPlace(x, text, params, n) && |params| >= 2 && target in x.core.channels
    requires SettingsAre(a, x.core.channels[target], text, params, n) && !Asks(text, n)
    ensures Says(ModeEffect(x, nick, target, params, text[n]), text[n], ComplaintAt(s, a, nick, target, text, params, n),
                 Counts(s, a, text, params, n), SaidArg(text, params, n))
  {
    hide FlagAfter, KeyAfter, LimitAfter, ArgumentEffect, Asked;
    TakesIsAsks(x, text, params, n);
  }

  lemma KeySays(s: Core, a: Channel, x: Scan, nick: string, target: string, params: seq<string>, text: string, n: nat)
    requires n < |text| && AtPlace(x, text, params, n) && |params| >= 2 && target in x.core.channels
    requires SettingsAre(a, x.core.channels[target], text, params, n) && text[n] == 'k'
    ensures Says(ModeEffect(x, nick, target, params, text[n]), text[n], ComplaintAt(s, a, nick, target, text, params, n),
                 Counts(s, a, text, params, n), SaidArg(text, params, n))
  {
    hide FlagAfter, KeyAfter, LimitAfter, OperatorEffect, LimitEffect, PlainEffect, Asked, Digits;
    TakesIsAsks(x, text, params, n);
  }

  lemma LimitSays(s: Core, a: Channel, x: Scan, nick: string, target: string, params: seq<string>, text: string, n: nat)
    requires n < |text| && AtPlace(x, text, params, n) && |params| >= 2 && target in x.core.channels
    requires SettingsAre(a, x.core.channels[target], text, params, n) && text[n] == 'l' && SignAt(text, n)
    ensures Says(ModeEffect(x, nick, target, params, text[n]), text[n], ComplaintAt(s, a, nick, target, text, params, n),
                 Counts(s, a, text, params, n), SaidArg(text, params, n))
  {
    hide FlagAfter, KeyAfter, LimitAfter, OperatorEffect, KeyEffect, PlainEffect, Asked, Digits, AllDigits, Atoi, LimitValue;
    TakesIsAsks(x, text, params, n);
    if x.cursor < |params| && AllDigits(params[x.cursor]) { LimitValueIs(params[x.cursor]); }
  }

  lemma OperatorSays(s: Core, a: Channel, x: Scan, fd: int, nick: string, target: string, params: seq<string>, text: string, n: nat)
    requires n < |text| && AtPlace(x, text, params, n) && |params| >= 2 && target in x.core.channels && text[n] == 'o'
    requires NicksOk(x.core) && OnlyIssuerHeard(s, x.core, fd) && !x.core.clients[fd].dead
    requires OperatorsAre(s, a, x.core.channels[target], fd, true, text, params, n)
    ensures Says(ModeEffect(x, nick, target, params, text[n]), text[n], ComplaintAt(s, a, nick, target, text, params, n),
                 Counts(s, a, text, params, n), SaidArg(text, params, n))
  {
    hide ModeEffect, FindClientByNick, Lower, NicksOk, OnlyIssuerHeard, Called, OperatorAfter, Digits, Asked;
    TakesIsAsks(x, text, params, n);
    if x.cursor < |params| {
      var arg := params[x.cursor];
      var peer := FindClientByNick(x.core, arg);
      OperatorArgument(x, nick, target, params);
      NamedIs(s, x.core, fd, arg);
      if peer.Some? {
        assert OperatorIs(s, a, x.core.channels[target], peer.value, text, params, n);
      }
    } else {
      NoArgument(x, nick, target, params);
    }
  }

  lemma NoArgument(x: Scan, nick: string, target: string, params: seq<string>)
    requires target in x.core.channels && x.cursor >= |params|
    ensures ModeEffect(x, nick, target, params, 'o') == Skip
  {
  }

  /** While the issuer lives, a nickname names whoever it named at the start, and at most one. */
  lemma NamedIs(s: Core, t: Core, fd: int, nick: string)
    requires NicksOk(t) && OnlyIssuerHeard(s, t, fd) && !t.clients[fd].dead
    ensures forall x :: Called(s, nick, x) <==> FindClientByNick(t, nick) == Some(x)
  {
    hide FindClientByNick, Lower, NicksOk, OnlyIssuerHeard, Called;
    forall x ensures Called(s, nick, x) <==> FindClientByNick(t, nick) == Some(x) { LookupDuring(s, t, fd, nick, x); }
  }

  lemma EffectSays(s: Core, a: Channel, x: Scan, fd: int, nick: string, target: string, params: seq<string>, text: string, n: nat)
    requires n < |text| && AtPlace(x, text, params, n) && |params| >= 2 && target in x.core.channels
    requires NicksOk(x.core) && OnlyIssuerHeard(s, x.core, fd) && !x.core.clients[fd].dead
    requires OperatorsAre(s, a, x.core.channels[target], fd, true, text, params, n)
    requires SettingsAre(a, x.core.channels[target], text, params, n)
    ensures Says(ModeEffect(x, nick, target, params, text[n]), text[n], ComplaintAt(s, a, nick, target, text, params, n),
                 Counts(s, a, text, params, n), SaidArg(text, params, n))
  {
    hide Says, ModeEffect, ComplaintAt, Counts, SaidArg, NicksOk, OnlyIssuerHeard, OperatorsAre, SettingsAre, AtPlace;
    if text[n] == 'o' {
      OperatorSays(s, a, x, fd, nick, target, params, text, n);
    } else if text[n] == 'k' {
      KeySays(s, a, x, nick, target, params, text, n);
    } else if Asks(text, n) {
      LimitSays(s, a, x, nick, target, params, text, n);
    } else {
      PlainSays(s, a, x, nick, target, params, text, n);
    }
  }

  /** The issuer has been told exactly the complaints, and the announcement holds exactly what counted. */
  ghost predicate SaidSoFar(s: Core, a: Channel, x: Scan, fd: int, nick: string, target: string, params: seq<string>, text: string, n: nat)
    requires n <= |text|
  {
    fd in s.clients && fd in x.core.clients && x.core.wire == s.wire
    && x.core.clients[fd] == s.clients[fd].SendAll(Complaints(s, a, nick, target, text, params, n), s.wire)
    && Unsigned(x.modes) == SaidLetters(s, a, text, params, n)
    && x.margs == SaidArgs(s, a, text, params, n)
  }

  lemma SaidStep(s: Core, a: Channel, x: Scan, fd: int, nick: string, target: string, params: seq<string>, text: string, n: nat)
    requires n < |text| && target in x.core.channels && SaidSoFar(s, a, x, fd, nick, target, params, text, n)
    requires Says(ModeEffect(x, nick, target, params, text[n]), text[n], ComplaintAt(s, a, nick, target, text, params, n),
                  Counts(s, a, text, params, n), SaidArg(text, params, n))
    ensures SaidSoFar(s, a, ModeStep(x, fd, nick, target, params, text[n]), fd, nick, target, params, text, n + 1)
  {
    hide ModeEffect, ModeStep, ComplaintAt, Counts, SaidArg, Unsigned, Client.SendMessage, Client.SendAll;
    var e := ModeEffect(x, nick, target, params, text[n]);
    StepSays(x, fd, nick, target, params, text[n]);
    var told := Complaints(s, a, nick, target, text, params, n);
    if e.Tell? {
      SendAllSnoc(s.clients[fd], told, e.reply, s.wire);
    } else {
      assert told + [] == told;
    }
    if e.Put? {
      PutLetters(x, nick, target, params, text[n]);
      UnsignedAnnounced(x, text[n]);
    } else {
      assert SaidLetters(s, a, text, params, n) + "" == SaidLetters(s, a, text, params, n);
      assert SaidArgs(s, a, text, params, n) + [] == SaidArgs(s, a, text, params, n);
    }
  }

  lemma StepSays(x: Scan, fd: int, nick: string, target: string, params: seq<string>, c: char)
    requires target in x.core.channels && fd in x.core.clients
    ensures
      var e := ModeEffect(x, nick, target, params, c);
      var y := ModeStep(x, fd, nick, target, params, c);
      && y.modes == (if e.Put? then x.Announced(e.letter) else x.modes)
      && y.margs == (if e.Put? then x.margs + e.arg else x.margs)
      && fd in y.core.clients && y.core.wire == x.core.wire
      && y.core.clients[fd] == if e.Tell? then x.core.clients[fd].SendMessage(e.reply, x.core.wire) else x.core.clients[fd]
  {
    hide ModeEffect, Client.SendMessage;
  }

  lemma PutLetters(x: Scan, nick: string, target: string, params: seq<string>, c: char)
    requires target in x.core.channels && ModeEffect(x, nick, target, params, c).Put?
    ensures c != '+' && c != '-'
  {
  }

  // ---------------------------------------------------------------- whole requests

  /** Everything the characters so far have done. */
  ghost predicate DoneSoFar(s: Core, x: Scan, fd: int, nick: string, target: string, params: seq<string>, text: string, n: nat)
    requires n <= |text|
  {
    && target in s.channels && target in x.core.channels && fd in s.clients && fd in x.core.clients
    && AtPlace(x, text, params, n) && OnlyIssuerHeard(s, x.core, fd)
    && SettingsAre(s.channels[target], x.core.channels[target], text, params, n)
    && OperatorsAre(s, s.channels[target], x.core.channels[target], fd, !x.core.clients[fd].dead, text, params, n)
    && (!x.core.clients[fd].dead ==> SaidSoFar(s, s.channels[target], x, fd, nick, target, params, text, n))
    && (exists m: nat :: IssuerUpTo(s, x.core, fd, target, params, text, m) && m <= n)
  }

  /** The issuer's own status is what the first `m` characters ask for. */
  ghost predicate IssuerUpTo(s: Core, t: Core, fd: int, target: string, params: seq<string>, text: string, m: nat) {
    m <= |text| && target in s.channels && target in t.channels
    && OperatorIs(s, s.channels[target], t.channels[target], fd, text, params, m)
  }

  lemma ScanSnoc(x: Scan, fd: int, nick: string, target: string, params: seq<string>, text: string, n: nat)
    requires n < |text|
    ensures ModeScan(x, fd, nick, target, params, text[..n + 1])
      == ModeStep(ModeScan(x, fd, nick, target, params, text[..n]), fd, nick, target, params, text[n])
  {
    hide ModeStep;
    assert text[..n + 1] == text[..n] + [text[n]];
    QueryRestore.ModeScanSplit(x, fd, nick, target, params, text[..n], [text[n]]);
    QueryRestore.ModeScanOne(ModeScan(x, fd, nick, target, params, text[..n]), fd, nick, target, params, text[n]);
  }

  lemma DoneAtFirst(s: Core, fd: int, nick: string, target: string, params: seq<string>, text: string)
    requires target in s.channels && fd in s.clients && |params| >= 2
    ensures DoneSoFar(s, Scan(s, true, 2, NO_SIGN, "", []), fd, nick, target, params, text, 0)
  {
    var x := Scan(s, true, 2, NO_SIGN, "", []);
    assert IssuerUpTo(s, x.core, fd, target, params, text, 0);
  }

  lemma DoneNext(s: Core, x: Scan, fd: int, nick: string, target: string, params: seq<string>, text: string, n: nat)
    requires n < |text| && |params| >= 2 && DoneSoFar(s, x, fd, nick, target, params, text, n)
    requires NicksOk(x.core) && NoDup(x.core.channels[target].operators)
    ensures DoneSoFar(s, ModeStep(x, fd, nick, target, params, text[n]), fd, nick, target, params, text, n + 1)
  {
    hide ModeStep, ModeEffect, AtPlace, OnlyIssuerHeard, SettingsAre, SaidSoFar, Says, OperatorIs, NicksOk;
    var y := ModeStep(x, fd, nick, target, params, text[n]);
    var a := s.channels[target];
    PlaceStep(x, fd, nick, target, params, text, n);
    HeardStep(s, x, fd, nick, target, params, text[n]);
    SettingsStep(a, x, fd, nick, target, params, text, n);
    HeardKeys(s, y.core, fd);
    MembersKept(x, fd, nick, target, params, text[n]);
    var next := n + 1;
    forall who: int | who != fd || !y.core.clients[fd].dead ensures OperatorIs(s, a, y.core.channels[target], who, text, params, next) {
      assert OperatorIs(s, a, x.core.channels[target], who, text, params, n);
      OperatorStep(s, x, fd, nick, target, params, text, n, who);
    }
    if !x.core.clients[fd].dead {
      EffectSays(s, a, x, fd, nick, target, params, text, n);
      SaidStep(s, a, x, fd, nick, target, params, text, n);
      assert OperatorIs(s, a, x.core.channels[target], fd, text, params, n);
      OperatorStep(s, x, fd, nick, target, params, text, n, fd);
      assert IssuerUpTo(s, y.core, fd, target, params, text, n + 1);
    } else {
      var m: nat :| IssuerUpTo(s, x.core, fd, target, params, text, m) && m <= n;
      DeadIssuerKept(s, x, fd, nick, target, params, text[n]);
      SameStatus(s, x.core.channels[target], y.core.channels[target], a, fd, text, params, m);
      assert IssuerUpTo(s, y.core, fd, target, params, text, m);
    }
  }

  lemma SameStatus(s: Core, b: Channel, c: Channel, a: Channel, x: int, text: string, params: seq<string>, m: nat)
    requires m <= |text| && OperatorIs(s, a, b, x, text, params, m) && (x in b.operators <==> x in c.operators)
    ensures OperatorIs(s, a, c, x, text, params, m)
  {
  }

  lemma HeardKeys(s: Core, t: Core, fd: int)
    requires OnlyIssuerHeard(s, t, fd)
    ensures fd in t.clients
  {
  }

  lemma MembersKept(x: Scan, fd: int, nick: string, target: string, params: seq<string>, c: char)
    requires target in x.core.channels
    ensures
      var y := ModeStep(x, fd, nick, target, params, c);
      target in y.core.channels && y.core.channels[target].members == x.core.channels[target].members
  {
    hide ModeStep, ModeEffect, FindClientByNick, OperatorEffect;
    StepLeaves(x, fd, nick, target, params, c);
    if c == 'o' && x.cursor < |params| {
      var arg := params[x.cursor];
      OperatorArgument(x, nick, target, params);
      OperatorMembers(FindClientByNick(x.core, arg), x.plus, nick, target, x.core.channels[target], arg);
    } else {
      OperatorsKept(x, nick, target, params, c);
    }
  }

  lemma OperatorMembers(peer: Option<int>, plus: bool, nick: string, target: string, ch: Channel, peerNick: string)
    ensures Left(OperatorEffect(peer, plus, nick, target, ch, peerNick), ch).members == ch.members
  {
  }

  lemma InterpretedSoFar(s: Core, fd: int, nick: string, target: string, params: seq<string>, text: string, n: nat)
    requires Inv(s) && fd in s.clients && target in s.channels && |params| >= 2 && n <= |text|
    ensures
      var x := ModeScan(Scan(s, true, 2, NO_SIGN, "", []), fd, nick, target, params, text[..n]);
      DoneSoFar(s, x, fd, nick, target, params, text, n) && NicksOk(x.core) && NoDup(x.core.channels[target].operators)
  {
    hide ModeStep, DoneSoFar, Inv, NicksOk;
    var start := Scan(s, true, 2, NO_SIGN, "", []);
    ScannedOk(s, start, fd, nick, target, params, text[..n]);
    if n == 0 {
      DoneAtFirst(s, fd, nick, target, params, text);
      assert text[..0] == "";
    } else {
      InterpretedSoFar(s, fd, nick, target, params, text, n - 1);
      ScanSnoc(start, fd, nick, target, params, text, n - 1);
      DoneNext(s, ModeScan(start, fd, nick, target, params, text[..n - 1]), fd, nick, target, params, text, n - 1);
      DoneThere(s, ModeScan(start, fd, nick, target, params, text[..n]), fd, nick, target, params, text, n);
    }
  }

  lemma DoneThere(s: Core, x: Scan, fd: int, nick: string, target: string, params: seq<string>, text: string, n: nat)
    requires n <= |text| && DoneSoFar(s, x, fd, nick, target, params, text, n)
    ensures target in x.core.channels
  {
  }

  lemma ScannedOk(s: Core, start: Scan, fd: int, nick: string, target: string, params: seq<string>, text: string)
    requires Inv(s) && fd in s.clients && target in s.channels && start == Scan(s, true, 2, NO_SIGN, "", [])
    ensures
      var x := ModeScan(start, fd, nick, target, params, text);
      target in x.core.channels && NicksOk(x.core) && NoDup(x.core.channels[target].operators)
  {
    hide ModeStep, SessionsOk, PollOk, NicksOk;
    SameClientsQuiet(s, s);
    assert s.channels == s.channels[target := s.channels[target]];
    ModeProofs.ModeScanScanning(s, start, fd, nick, target, params, text);
    var x := ModeScan(start, fd, nick, target, params, text);
    assert EntryOk(x.core, target, x.core.channels[target]);
  }

  /** A request carried out: from `s` to `u`, to be announced as `modes` with `margs`. Each flag has the sign
      of its last letter, or is as it was; key and limit are what the k and l letters with their arguments
      leave; every client but the issuer is operator exactly as the last o naming it says, or as before; and
      so is the issuer, read up to its last breath if a complaint overflowed its queue. Nothing else about
      any channel changes and nobody but the issuer has heard anything yet. If the issuer lives, it has been
      told exactly the complaints the letters draw, in order, and what is to be announced is exactly the
      letters that counted, with their arguments. */
  ghost predicate CarriedOut(s: Core, u: Core, fd: int, target: string, params: seq<string>, modes: string, margs: seq<string>)
    requires fd in s.clients && target in s.channels && |params| >= 2
  {
    target in u.channels && fd in u.clients &&
    var nick, text, a, b := s.clients[fd].nickname, params[1], s.channels[target], u.channels[target];
    && b.inviteOnly == FlagAfter(text, 'i', |text|, a.inviteOnly)
    && b.topicRestricted == FlagAfter(text, 't', |text|, a.topicRestricted)
    && b.key == KeyAfter(text, params, |text|, a.key)
    && b.limit == LimitAfter(text, params, |text|, a.limit)
    && (forall who: int :: who != fd || !u.clients[fd].dead ==>
          (who in b.operators <==> OperatorAfter(s, a.members, text, params, |text|, who, who in a.operators)))
    && (exists m: nat :: m <= |text| && (fd in b.operators <==> OperatorAfter(s, a.members, text, params, m, fd, fd in a.operators)))
    && SettingsOnly(a, b) && u.channels == s.channels[target := b]
    && u == s.(clients := s.clients[fd := u.clients[fd]], channels := u.channels)
    && (!u.clients[fd].dead ==>
          u.clients[fd] == s.clients[fd].SendAll(Complaints(s, a, nick, target, text, params, |text|), s.wire)
          && Unsigned(modes) == SaidLetters(s, a, text, params, |text|)
          && margs == SaidArgs(s, a, text, params, |text|))
  }

  /** Name, topic, members, invitations and identity are as they were. */
  ghost predicate SettingsOnly(a: Channel, b: Channel) {
    b == a.(inviteOnly := b.inviteOnly, topicRestricted := b.topicRestricted, key := b.key, limit := b.limit,
            operators := b.operators, limitBase := b.limitBase)
  }

  lemma EffectTouches(x: Scan, nick: string, target: string, params: seq<string>, c: char)
    requires target in x.core.channels
    ensures SettingsOnly(x.core.channels[target], Left(ModeEffect(x, nick, target, params, c), x.core.channels[target]))
  {
    hide FindClientByNick, Digits, Atoi, Free, AllDigits, AddOnce, Erase;
  }

  lemma {:induction false} ScanTouches(a: Channel, x: Scan, fd: int, nick: string, target: string, params: seq<string>, text: string)
    requires target in x.core.channels && SettingsOnly(a, x.core.channels[target])
    ensures
      var y := ModeScan(x, fd, nick, target, params, text).core;
      target in y.channels && SettingsOnly(a, y.channels[target])
    decreases |text|
  {
    hide ModeStep, ModeEffect;
    if text != "" {
      StepLeaves(x, fd, nick, target, params, text[0]);
      EffectTouches(x, nick, target, params, text[0]);
      ScanTouches(a, ModeStep(x, fd, nick, target, params, text[0]), fd, nick, target, params, text[1..]);
    }
  }

  /** The request's state differs in the issuer and in the channel only. */
  lemma InterpretedFrame(s: Core, fd: int, nick: string, target: string, params: seq<string>)
    requires Inv(s) && fd in s.clients && target in s.channels && |params| >= 2
    ensures
      var u := Interpret(s, fd, nick, target, params).core;
      target in u.channels && fd in u.clients && SettingsOnly(s.channels[target], u.channels[target])
      && u.channels == s.channels[target := u.channels[target]]
      && u == s.(clients := u.clients, channels := u.channels)
  {
    hide SessionsOk, NicksOk, PollOk, ChannelsOk, ModeScan;
    ModeProofs.InterpretScanning(s, fd, nick, target, params);
    ScanTouches(s.channels[target], Scan(s, true, 2, NO_SIGN, "", []), fd, nick, target, params, params[1]);
  }

  lemma OnlyOneChanged(s: Core, u: Core, fd: int)
    requires fd in s.clients && OnlyIssuerHeard(s, u, fd)
    ensures fd in u.clients && u.clients == s.clients[fd := u.clients[fd]]
  {
    var same := s.clients[fd := u.clients[fd]];
    assert same.Keys == u.clients.Keys;
    assert forall x :: x in same ==> u.clients[x] == same[x];
  }

  /** Main result: every change request in every reachable state is carried out. */
  lemma RequestCarriedOut(s: Core, fd: int, target: string, params: seq<string>)
    requires Inv(s) && fd in s.clients && target in s.channels && |params| >= 2
    ensures
      var x := Interpret(s, fd, s.clients[fd].nickname, target, params);
      CarriedOut(s, x.core, fd, target, params, x.modes, x.margs)
  {
    hide Inv, NicksOk, ModeScan, Complaints, SaidLetters, SaidArgs, KeyAfter, LimitAfter, FlagAfter, OperatorAfter, Unsigned, OnlyIssuerHeard, SettingsOnly;
    var text, nick := params[1], s.clients[fd].nickname;
    InterpretedSoFar(s, fd, nick, target, params, text, |text|);
    InterpretedFrame(s, fd, nick, target, params);
    assert text[..|text|] == text;
    var x := Interpret(s, fd, nick, target, params);
    OnlyOneChanged(s, x.core, fd);
    var m: nat :| IssuerUpTo(s, x.core, fd, target, params, text, m) && m <= |text|;
    assert fd in x.core.channels[target].operators <==>
      OperatorAfter(s, s.channels[target].members, text, params, m, fd, fd in s.channels[target].operators);
    forall who: int | who != fd || !x.core.clients[fd].dead
      ensures who in x.core.channels[target].operators <==>
        OperatorAfter(s, s.channels[target].members, text, params, |text|, who, who in s.channels[target].operators)
    {
      assert OperatorIs(s, s.channels[target], x.core.channels[target], who, text, params, |text|);
    }
  }
}
