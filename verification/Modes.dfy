/** The MODE command (ModeCommand.cpp): query, change interpreter, announcement. */
module Modes {
  import opened Text
  import opened Replies
  import opened Channels
  import opened State

  const KEY_STOPS: set<char> := {' ', '\t', ','}
  const NO_SIGN := '\0'

  /** The 324 mode letters: one per active setting, after a plus sign. */
  function ActiveLetters(ch: Channel): string {
    (if ch.inviteOnly then "i" else "") + (if ch.topicRestricted then "t" else "")
    + (if ch.key != "" then "k" else "") + (if ch.limit > 0 then "l" else "")
  }

  function ActiveModes(ch: Channel): string {
    if ActiveLetters(ch) == "" then "" else "+" + ActiveLetters(ch)
  }

  function ActiveArgs(ch: Channel): seq<string> {
    (if ch.key != "" then [ch.key] else []) + (if ch.limit > 0 then [Digits(ch.limit)] else [])
  }

  predicate IsAlpha(c: char) { 'A' <= c <= 'Z' || 'a' <= c <= 'z' }

  predicate KnownMode(c: char) { c in {'+', '-', 'i', 't', 'k', 'l', 'o'} }

  /** The first letter that is no mode; it rejects the whole command before anything changes. */
  function UnknownLetter(modes: string): Option<char> {
    if modes == "" then None
    else if !KnownMode(modes[0]) && IsAlpha(modes[0]) then Some(modes[0])
    else UnknownLetter(modes[1..])
  }

  /** What one character asks for: nothing, a new sign, a complaint to the issuer, or a channel with
      one setting rewritten, announced by a letter and perhaps an argument. */
  datatype Effect =
    | Skip
    | Turn(plus: bool)
    | Tell(reply: Reply)
    | Put(channel: Channel, letter: char, arg: seq<string>)

  function KeyEffect(plus: bool, nick: string, target: string, ch: Channel, key: string): Effect {
    if plus then
      if !Free(key, KEY_STOPS) then Tell(BadKey(nick, target, key))
      else if ch.key == "" then Put(ch.(key := key), 'k', [key])
      else Tell(Numeric(467, [nick, target]))
    else if ch.key == key then Put(ch.(key := ""), 'k', ["*"])
    else Skip
  }

  function LimitEffect(nick: string, target: string, ch: Channel, text: string): Effect {
    if !AllDigits(text) || text == "" then Tell(BadLimit(nick, target, text))
    else
      var limit := Atoi(text);
      if limit > 0 && ch.limit != limit then Put(ch.SetLimit(limit), 'l', [Digits(limit)]) else Skip
  }

  function OperatorEffect(peer: Option<int>, plus: bool, nick: string, target: string, ch: Channel, peerNick: string): Effect {
    if peer.None? || peer.value !in ch.members then Tell(Numeric(441, [nick, peerNick, target]))
    else if plus && peer.value !in ch.operators then Put(ch.AddOperator(peer.value), 'o', [peerNick])
    else if !plus && peer.value in ch.operators then Put(ch.RemoveOperator(peer.value), 'o', [peerNick])
    else Skip
  }

  /** The letters that consume an argument when one is left. */
  predicate TakesArgument(c: char, plus: bool) { c == 'k' || c == 'o' || (c == 'l' && plus) }

  function PlainEffect(plus: bool, ch: Channel, c: char): Effect {
    if c == '+' then Turn(true)
    else if c == '-' then Turn(false)
    else if c == 'i' then if ch.inviteOnly != plus then Put(ch.(inviteOnly := plus), 'i', []) else Skip
    else if c == 't' then if ch.topicRestricted != plus then Put(ch.(topicRestricted := plus), 't', []) else Skip
    else if c == 'l' && !plus && ch.limit > 0 then Put(ch.SetLimit(0), 'l', [])
    else Skip
  }

  function ArgumentEffect(s: Core, plus: bool, nick: string, target: string, ch: Channel, c: char, arg: string): Effect {
    if c == 'k' then KeyEffect(plus, nick, target, ch, arg)
    else if c == 'l' then LimitEffect(nick, target, ch, arg)
    else OperatorEffect(FindClientByNick(s, arg), plus, nick, target, ch, arg)
  }

  /** The interpreter's variables: the state it changes, the sign in force, the argument cursor,
      the last sign announced, the announcement so far and its arguments. */
  datatype Scan = Scan(core: Core, plus: bool, cursor: nat, lastSign: char, modes: string, margs: seq<string>)
  {
    function Sign(): char { if plus then '+' else '-' }

    /** One letter of the announcement, with its sign when the sign changes. */
    function Announced(letter: char): string {
      modes + (if lastSign != Sign() then [Sign()] else "") + [letter]
    }

    function Apply(fd: int, target: string, e: Effect): Scan {
      match e
      case Skip => this
      case Turn(p) => this.(plus := p)
      case Tell(r) => this.(core := Send(core, fd, r))
      case Put(ch, letter, arg) =>
        this.(core := SetChannel(core, target, ch), lastSign := Sign(), modes := Announced(letter), margs := margs + arg)
    }
  }

  function ModeEffect(x: Scan, nick: string, target: string, params: seq<string>, c: char): Effect
    requires target in x.core.channels
  {
    var ch := x.core.channels[target];
    if !TakesArgument(c, x.plus) then PlainEffect(x.plus, ch, c)
    else if x.cursor >= |params| then Skip
    else ArgumentEffect(x.core, x.plus, nick, target, ch, c, params[x.cursor])
  }

  /** One character of the mode string. */
  function ModeStep(x: Scan, fd: int, nick: string, target: string, params: seq<string>, c: char): Scan {
    if target !in x.core.channels then x.(core := x.core.(fault := true))
    else
      var y := x.Apply(fd, target, ModeEffect(x, nick, target, params, c));
      if TakesArgument(c, x.plus) && x.cursor < |params| then y.(cursor := x.cursor + 1) else y
  }

  function ModeScan(x: Scan, fd: int, nick: string, target: string, params: seq<string>, text: string): Scan
    decreases |text|
  {
    if text == "" then x
    else ModeScan(ModeStep(x, fd, nick, target, params, text[0]), fd, nick, target, params, text[1..])
  }

  /** The interpreter's result on a channel change request, before the announcement is sent. */
  function Interpret(s: Core, fd: int, nick: string, target: string, params: seq<string>): Scan
    requires |params| >= 2
  {
    ModeScan(Scan(s, true, 2, NO_SIGN, "", []), fd, nick, target, params, params[1])
  }

  function ChangeModes(s: Core, fd: int, target: string, params: seq<string>): Core
    requires fd in s.clients && |params| >= 2
  {
    var c := s.clients[fd];
    var x := Interpret(s, fd, c.nickname, target, params);
    if x.modes == "" then x.core
    else if target !in x.core.channels then x.core.(fault := true)
    else Broadcast(x.core, x.core.channels[target].members, None,
                   ModeSet(c.nickname, c.username, target, x.modes, x.margs))
  }

  function Mode(s: Core, fd: int, params: seq<string>): Core
    requires fd in s.clients
  {
    var nick := s.clients[fd].nickname;
    if params == [] then Send(s, fd, Numeric(461, [nick, "MODE"]))
    else
      var target := params[0];
      if target == "" || (target[0] != '#' && target[0] != '&') then s
      else if target !in s.channels then Send(s, fd, Numeric(403, [nick, target]))
      else
        var ch := s.channels[target];
        if |params| == 1 then Send(s, fd, ModesAre(nick, target, ActiveModes(ch), ActiveArgs(ch)))
        else if fd !in ch.operators then Send(s, fd, Numeric(482, [nick, target]))
        else
          var unknown := UnknownLetter(params[1]);
          if unknown.Some? then Send(s, fd, Numeric(472, [nick, [unknown.value]]))
          else ChangeModes(s, fd, target, params)
  }
}
