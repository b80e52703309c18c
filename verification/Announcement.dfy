/** What a MODE announcement means to those who hear it, and that it is a faithful delta. */
module Announcement {
  import opened Text
  import opened Replies
  import opened Channels
  import opened State
  import opened Invariant
  import opened Modes
  import opened ModeProofs
  import opened FanOut
  import CommandProofs

  /** The part of a channel MODE can change. */
  datatype ModeState = ModeState(inviteOnly: bool, topicRestricted: bool, key: string, limit: nat, operators: seq<int>)

  function StateOf(ch: Channel): ModeState {
    ModeState(ch.inviteOnly, ch.topicRestricted, ch.key, ch.limit, ch.operators)
  }

  /** A reader part way through: the state it believes in, the sign in force, the arguments used. */
  datatype Reader = Reader(state: ModeState, sign: char, used: nat)

  predicate IsSign(c: char) { c == '+' || c == '-' }

  /** A reader takes one character. Nicknames mean the clients they named in `s`. */
  function ReadLetter(s: Core, r: Reader, c: char, margs: seq<string>): Option<Reader> {
    if IsSign(c) then Some(r.(sign := c))
    else if !IsSign(r.sign) then None
    else if c == 'i' then Some(r.(state := r.state.(inviteOnly := r.sign == '+')))
    else if c == 't' then Some(r.(state := r.state.(topicRestricted := r.sign == '+')))
    else if c == 'l' && r.sign == '-' then Some(r.(state := r.state.(limit := 0)))
    else if r.used >= |margs| then None
    else
      var arg := margs[r.used];
      var next := r.(used := r.used + 1);
      if c == 'k' then Some(next.(state := r.state.(key := if r.sign == '+' then arg else "")))
      else if c == 'l' then
        if AllDigits(arg) then Some(next.(state := r.state.(limit := DecimalValue(arg)))) else None
      else if c == 'o' then ReadOperator(next, FindClientByNick(s, arg))
      else None
  }

  function ReadOperator(r: Reader, peer: Option<int>): Option<Reader> {
    if peer.None? then None
    else if r.sign == '+' then Some(r.(state := r.state.(operators := AddOnce(r.state.operators, peer.value))))
    else Some(r.(state := r.state.(operators := Erase(r.state.operators, peer.value))))
  }

  /** Replaying an announcement on the state before it. */
  function Replay(s: Core, before: ModeState, modes: string, margs: seq<string>): Option<Reader>
    decreases |modes|
  {
    if modes == "" then Some(Reader(before, NO_SIGN, 0))
    else
      match Replay(s, before, modes[..|modes| - 1], margs)
      case None => None
      case Some(r) => ReadLetter(s, r, modes[|modes| - 1], margs)
  }

  lemma ReplaySnoc(s: Core, before: ModeState, modes: string, c: char, margs: seq<string>)
    requires Replay(s, before, modes, margs).Some?
    ensures Replay(s, before, modes + [c], margs) == ReadLetter(s, Replay(s, before, modes, margs).value, c, margs)
  {
    assert (modes + [c])[..|modes|] == modes;
  }

  /** Arguments added at the end do not change what was read. */
  lemma {:induction false} ReplayMoreArgs(s: Core, before: ModeState, modes: string, margs: seq<string>, more: seq<string>)
    requires Replay(s, before, modes, margs).Some?
    ensures Replay(s, before, modes, margs + more) == Replay(s, before, modes, margs)
    decreases |modes|
  {
    if modes != "" {
      ReplayMoreArgs(s, before, modes[..|modes| - 1], margs, more);
      var r := Replay(s, before, modes[..|modes| - 1], margs).value;
      assert r.used < |margs| ==> (margs + more)[r.used] == margs[r.used];
    }
  }

  // ------------------------------------------------------------------ grammar

  /** The sign in force at the end of a mode text. */
  function LastSign(modes: string): char {
    if modes == "" then NO_SIGN
    else if IsSign(modes[|modes| - 1]) then modes[|modes| - 1]
    else LastSign(modes[..|modes| - 1])
  }

  /** A sign comes first, every sign is followed at once by a letter, and signs strictly alternate. */
  ghost predicate WellSigned(modes: string) {
    && (modes != "" ==> IsSign(modes[0]) && !IsSign(modes[|modes| - 1]))
    && (forall i :: 0 < i < |modes| && IsSign(modes[i]) ==> !IsSign(modes[i - 1]))
    && (forall i :: 0 <= i < |modes| && IsSign(modes[i]) ==> modes[i] != LastSign(modes[..i]))
  }

  lemma LastSignSnoc(modes: string, c: char)
    ensures LastSign(modes + [c]) == if IsSign(c) then c else LastSign(modes)
  {
    assert (modes + [c])[..|modes|] == modes;
  }

  lemma WellSignedSnoc(modes: string, letter: char)
    requires WellSigned(modes) && modes != "" && !IsSign(letter)
    ensures WellSigned(modes + [letter])
  {
    var m := modes + [letter];
    forall i | 0 <= i < |m| && IsSign(m[i]) ensures m[i] != LastSign(m[..i]) {
      assert m[..i] == modes[..i];
    }
  }

  lemma WellSignedTurn(modes: string, sign: char, letter: char)
    requires WellSigned(modes) && IsSign(sign) && !IsSign(letter) && LastSign(modes) != sign
    ensures WellSigned(modes + [sign] + [letter])
  {
    hide LastSign;
    var m := modes + [sign] + [letter];
    forall i | 0 <= i < |m| && IsSign(m[i]) ensures m[i] != LastSign(m[..i]) {
      if i < |modes| {
        assert m[..i] == modes[..i] && m[i] == modes[i];
      } else {
        assert i == |modes| && m[..i] == modes;
      }
    }
    forall i | 0 < i < |m| && IsSign(m[i]) ensures !IsSign(m[i - 1]) {
      if i < |modes| { assert m[i] == modes[i] && m[i - 1] == modes[i - 1]; }
    }
  }

  // -------------------------------------------------------------- faithfulness

  /** The announcement so far, replayed on the channel as it was in `s`, gives the channel as it is. */
  ghost predicate Faithful(s: Core, x: Scan, target: string)
    requires target in s.channels && target in x.core.channels
  {
    && Replay(s, StateOf(s.channels[target]), x.modes, x.margs)
       == Some(Reader(StateOf(x.core.channels[target]), x.lastSign, |x.margs|))
    && x.lastSign == LastSign(x.modes)
    && (x.modes == "" <==> !IsSign(x.lastSign))
    && WellSigned(x.modes)
  }

  /** A reader with the right sign understands the letter as the rewrite it announces. */
  ghost predicate Announces(s: Core, ch: Channel, sign: char, margs: seq<string>, e: Effect) {
    e.Put? ==>
      && !IsSign(e.letter)
      && ReadLetter(s, Reader(StateOf(ch), sign, |margs|), e.letter, margs + e.arg)
         == Some(Reader(StateOf(e.channel), sign, |margs + e.arg|))
  }

  lemma PlainAnnounces(s: Core, plus: bool, ch: Channel, c: char, sign: char, margs: seq<string>)
    requires sign == if plus then '+' else '-'
    ensures Announces(s, ch, sign, margs, PlainEffect(plus, ch, c))
  {
  }

  lemma KeyAnnounces(s: Core, plus: bool, nick: string, target: string, ch: Channel, key: string, sign: char, margs: seq<string>)
    requires sign == if plus then '+' else '-'
    ensures Announces(s, ch, sign, margs, KeyEffect(plus, nick, target, ch, key))
  {
    var e := KeyEffect(plus, nick, target, ch, key);
    if e.Put? { assert (margs + e.arg)[|margs|] == e.arg[0]; }
  }

  lemma LimitAnnounces(s: Core, nick: string, target: string, ch: Channel, text: string, margs: seq<string>)
    ensures Announces(s, ch, '+', margs, LimitEffect(nick, target, ch, text))
  {
    var e := LimitEffect(nick, target, ch, text);
    if e.Put? {
      assert (margs + e.arg)[|margs|] == e.arg[0];
      DigitsRoundTrip(Atoi(text));
    }
  }

  lemma OperatorReads(ch: Channel, d: Channel, peer: int, sign: char, used: nat)
    requires d == if sign == '+' then ch.AddOperator(peer) else ch.RemoveOperator(peer)
    ensures ReadOperator(Reader(StateOf(ch), sign, used), Some(peer)) == Some(Reader(StateOf(d), sign, used))
  {
  }

  lemma OperatorLetter(s: Core, ch: Channel, d: Channel, peer: int, peerNick: string, sign: char, margs: seq<string>)
    requires IsSign(sign) && FindClientByNick(s, peerNick) == Some(peer)
    requires d == if sign == '+' then ch.AddOperator(peer) else ch.RemoveOperator(peer)
    ensures ReadLetter(s, Reader(StateOf(ch), sign, |margs|), 'o', margs + [peerNick])
      == Some(Reader(StateOf(d), sign, |margs| + 1))
  {
    hide FindClientByNick, ReadOperator, StateOf;
    var r := Reader(StateOf(ch), sign, |margs|);
    assert (margs + [peerNick])[|margs|] == peerNick;
    assert ReadLetter(s, r, 'o', margs + [peerNick]) == ReadOperator(r.(used := |margs| + 1), Some(peer));
    OperatorReads(ch, d, peer, sign, |margs| + 1);
  }

  lemma OperatorAnnounces(s: Core, peer: Option<int>, plus: bool, nick: string, target: string, ch: Channel, peerNick: string,
                          sign: char, margs: seq<string>)
    requires sign == if plus then '+' else '-'
    requires peer.Some? ==> FindClientByNick(s, peerNick) == peer
    ensures Announces(s, ch, sign, margs, OperatorEffect(peer, plus, nick, target, ch, peerNick))
  {
    var e := OperatorEffect(peer, plus, nick, target, ch, peerNick);
    if e.Put? {
      assert e.letter == 'o' && e.arg == [peerNick];
      OperatorLetter(s, ch, e.channel, peer.value, peerNick, sign, margs);
      assert |margs + [peerNick]| == |margs| + 1;
    }
  }

  lemma EffectAnnounces(s: Core, x: Scan, nick: string, target: string, params: seq<string>, c: char)
    requires NicksOk(s) && Quiet(s, x.core) && target in x.core.channels
    ensures Announces(s, x.core.channels[target], x.Sign(), x.margs, ModeEffect(x, nick, target, params, c))
  {
    var ch := x.core.channels[target];
    if !TakesArgument(c, x.plus) {
      PlainAnnounces(s, x.plus, ch, c, x.Sign(), x.margs);
    } else if x.cursor < |params| {
      var arg := params[x.cursor];
      if c == 'k' {
        KeyAnnounces(s, x.plus, nick, target, ch, arg, x.Sign(), x.margs);
      } else if c == 'l' {
        LimitAnnounces(s, nick, target, ch, arg, x.margs);
      } else {
        FindBefore(s, x.core, arg);
        OperatorAnnounces(s, FindClientByNick(x.core, arg), x.plus, nick, target, ch, arg, x.Sign(), x.margs);
      }
    }
  }

  lemma ApplyFaithful(s: Core, x: Scan, fd: int, target: string, e: Effect)
    requires target in s.channels && target in x.core.channels && Faithful(s, x, target)
    requires Announces(s, x.core.channels[target], x.Sign(), x.margs, e)
    requires target in x.Apply(fd, target, e).core.channels
    ensures Faithful(s, x.Apply(fd, target, e), target)
  {
    if e.Put? {
      var before := StateOf(s.channels[target]);
      var margs := x.margs + e.arg;
      ReplayMoreArgs(s, before, x.modes, x.margs, e.arg);
      if x.lastSign == x.Sign() {
        assert x.Announced(e.letter) == x.modes + [e.letter];
        ReplaySnoc(s, before, x.modes, e.letter, margs);
        LastSignSnoc(x.modes, e.letter);
        WellSignedSnoc(x.modes, e.letter);
      } else {
        var turned := x.modes + [x.Sign()];
        assert x.Announced(e.letter) == turned + [e.letter];
        ReplaySnoc(s, before, x.modes, x.Sign(), margs);
        ReplaySnoc(s, before, turned, e.letter, margs);
        LastSignSnoc(x.modes, x.Sign());
        LastSignSnoc(turned, e.letter);
        WellSignedTurn(x.modes, x.Sign(), e.letter);
      }
    }
  }

  lemma ModeStepFaithful(s: Core, x: Scan, fd: int, nick: string, target: string, params: seq<string>, c: char)
    requires NicksOk(s) && Scanning(s, x.core, target) && Local(s, x.core, target) && fd in s.clients
    requires Faithful(s, x, target)
    ensures target in ModeStep(x, fd, nick, target, params, c).core.channels
    ensures Faithful(s, ModeStep(x, fd, nick, target, params, c), target)
  {
    ModeStepScanning(s, x, fd, nick, target, params, c);
    EffectAnnounces(s, x, nick, target, params, c);
    ApplyFaithful(s, x, fd, target, ModeEffect(x, nick, target, params, c));
  }

  lemma {:induction false} ModeScanFaithful(s: Core, x: Scan, fd: int, nick: string, target: string, params: seq<string>, text: string)
    requires NicksOk(s) && Scanning(s, x.core, target) && Local(s, x.core, target) && fd in s.clients
    requires Faithful(s, x, target)
    ensures target in ModeScan(x, fd, nick, target, params, text).core.channels
    ensures Faithful(s, ModeScan(x, fd, nick, target, params, text), target)
    decreases |text|
  {
    if text != "" {
      ModeStepScanning(s, x, fd, nick, target, params, text[0]);
      ModeStepFaithful(s, x, fd, nick, target, params, text[0]);
      ModeScanFaithful(s, ModeStep(x, fd, nick, target, params, text[0]), fd, nick, target, params, text[1..]);
    }
  }

  /** Main result: for every request in every reachable state, the announced mode text and arguments,
      read with the nicknames as they were before the command, turn the old settings and operator list
      into exactly the new ones, using every argument once; the text is well signed; and when anything
      was announced every member is sent that announcement once and nobody else is. */
  lemma ModeAnnouncementFaithful(s: Core, fd: int, target: string, params: seq<string>)
    requires Inv(s) && fd in s.clients && target in s.channels && |params| >= 2
    ensures
      var c := s.clients[fd];
      var x := Interpret(s, fd, c.nickname, target, params);
      target in x.core.channels
      && Replay(s, StateOf(s.channels[target]), x.modes, x.margs)
         == Some(Reader(StateOf(x.core.channels[target]), x.lastSign, |x.margs|))
      && WellSigned(x.modes)
      && if x.modes == "" then ChangeModes(s, fd, target, params) == x.core
         else Reached(x.core, ChangeModes(s, fd, target, params), Listeners(s.channels[target].members, None),
                      ModeSet(c.nickname, c.username, target, x.modes, x.margs))
  {
    var c := s.clients[fd];
    var start := Scan(s, true, 2, NO_SIGN, "", []);
    var x := Interpret(s, fd, c.nickname, target, params);
    SameClientsQuiet(s, s);
    assert s.channels == s.channels[target := s.channels[target]];
    assert Faithful(s, start, target);
    ModeScanFaithful(s, start, fd, c.nickname, target, params, params[1]);
    InterpretScanning(s, fd, c.nickname, target, params);
    var members := x.core.channels[target].members;
    assert EntryOk(x.core, target, x.core.channels[target]);
    CommandProofs.MembersConnected(x.core, target);
    BroadcastExact(x.core, members, None, ModeSet(c.nickname, c.username, target, x.modes, x.margs));
  }
}
