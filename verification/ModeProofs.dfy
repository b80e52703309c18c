/** MODE keeps the invariant, and changes one channel only. */
module ModeProofs {
  import opened Text
  import opened Replies
  import opened Channels
  import opened State
  import opened Invariant
  import opened CommandProofs
  import opened Modes

  /** Where the interpreter can be after some characters of a request made in state `s`. */
  ghost predicate Scanning(s: Core, t: Core, target: string) {
    Inv(t) && Quiet(s, t) && target in t.channels
  }

  /** Only the target channel differs, and it is still the same object with the same members. */
  ghost predicate Local(s: Core, t: Core, target: string) {
    && target in s.channels && target in t.channels
    && t.nextSerial == s.nextSerial
    && t.channels == s.channels[target := t.channels[target]]
    && t.channels[target].serial == s.channels[target].serial
    && t.channels[target].members == s.channels[target].members
  }

  lemma TellScanning(s: Core, t: Core, target: string, fd: int, r: Reply)
    requires Scanning(s, t, target) && fd in s.clients && !r.Welcome?
    ensures Scanning(s, Send(t, fd, r), target)
  {
    SendSound(t, fd, r);
    QuietTransitive(s, t, Send(t, fd, r));
  }

  lemma ChangeScanning(s: Core, t: Core, target: string, ch: Channel)
    requires Scanning(s, t, target) && EntryOk(t, target, ch)
    ensures Scanning(s, SetChannel(t, target, ch), target)
  {
    SetChannelInv(t, target, ch);
    QuietTransitive(s, t, SetChannel(t, target, ch));
  }

  /** A settings change that EntryOk allows. */
  lemma SettingsEntry(s: Core, target: string, ch: Channel, d: Channel)
    requires EntryOk(s, target, ch)
    requires d == ch.(inviteOnly := d.inviteOnly, topicRestricted := d.topicRestricted,
                      key := d.key, limit := d.limit, limitBase := d.limitBase)
    requires d.limit > 0 ==> |d.members| <= Max(d.limit, d.limitBase)
    requires Free(d.key, KEY_STOPS) && d.limit <= INT_MAX
    ensures EntryOk(s, target, d)
  {
    SameListsOk(ch, d, s.clients.Keys);
  }

  lemma OperatorEntry(s: Core, target: string, ch: Channel, x: int)
    requires EntryOk(s, target, ch) && x in ch.members
    ensures EntryOk(s, target, ch.AddOperator(x)) && EntryOk(s, target, ch.RemoveOperator(x))
  {
    AddOperatorOk(ch, x, s.clients.Keys);
    RemoveOperatorOk(ch, x, s.clients.Keys);
  }

  /** Whatever a character asks for, a rewritten channel is in order and is the same object. */
  ghost predicate EffectOk(s: Core, target: string, ch: Channel, e: Effect) {
    && (e.Tell? ==> !e.reply.Welcome?)
    && (e.Put? ==> EntryOk(s, target, e.channel) && e.channel.serial == ch.serial && e.channel.members == ch.members)
  }

  lemma PlainEffectOk(s: Core, target: string, ch: Channel, plus: bool, c: char)
    requires EntryOk(s, target, ch)
    ensures EffectOk(s, target, ch, PlainEffect(plus, ch, c))
  {
    SettingsEntry(s, target, ch, ch.(inviteOnly := plus));
    SettingsEntry(s, target, ch, ch.(topicRestricted := plus));
    SettingsEntry(s, target, ch, ch.SetLimit(0));
  }

  lemma KeyEffectOk(s: Core, target: string, ch: Channel, plus: bool, nick: string, key: string)
    requires EntryOk(s, target, ch)
    ensures EffectOk(s, target, ch, KeyEffect(plus, nick, target, ch, key))
  {
    SettingsEntry(s, target, ch, ch.(key := ""));
    if Free(key, KEY_STOPS) { SettingsEntry(s, target, ch, ch.(key := key)); }
  }

  lemma LimitEffectOk(s: Core, target: string, ch: Channel, nick: string, text: string)
    requires EntryOk(s, target, ch)
    ensures EffectOk(s, target, ch, LimitEffect(nick, target, ch, text))
  {
    if AllDigits(text) && Atoi(text) > 0 {
      SettingsEntry(s, target, ch, ch.SetLimit(Atoi(text)));
    }
  }

  lemma ModeEffectOk(s: Core, x: Scan, nick: string, target: string, params: seq<string>, c: char)
    requires target in x.core.channels && EntryOk(s, target, x.core.channels[target])
    ensures EffectOk(s, target, x.core.channels[target], ModeEffect(x, nick, target, params, c))
  {
    var ch := x.core.channels[target];
    if !TakesArgument(c, x.plus) {
      PlainEffectOk(s, target, ch, x.plus, c);
    } else if x.cursor < |params| {
      var arg := params[x.cursor];
      if c == 'k' {
        KeyEffectOk(s, target, ch, x.plus, nick, arg);
      } else if c == 'l' {
        LimitEffectOk(s, target, ch, nick, arg);
      } else {
        var peer := FindClientByNick(x.core, arg);
        if peer.Some? && peer.value in ch.members { OperatorEntry(s, target, ch, peer.value); }
      }
    }
  }

  lemma ApplyScanning(s: Core, x: Scan, fd: int, target: string, e: Effect)
    requires Scanning(s, x.core, target) && fd in s.clients
    requires EffectOk(x.core, target, x.core.channels[target], e)
    ensures Scanning(s, x.Apply(fd, target, e).core, target)
  {
    hide SessionsOk, NicksOk, ChannelsOk, PollOk, Quiet;
    match e
    case Tell(r) => TellScanning(s, x.core, target, fd, r);
    case Put(ch, _, _) => ChangeScanning(s, x.core, target, ch);
    case _ =>
  }

  lemma ApplyLocal(s: Core, x: Scan, fd: int, target: string, e: Effect)
    requires Local(s, x.core, target)
    requires e.Put? ==> e.channel.serial == s.channels[target].serial && e.channel.members == s.channels[target].members
    ensures Local(s, x.Apply(fd, target, e).core, target)
  {
  }

  lemma ModeStepScanning(s: Core, x: Scan, fd: int, nick: string, target: string, params: seq<string>, c: char)
    requires Scanning(s, x.core, target) && Local(s, x.core, target) && fd in s.clients
    ensures Scanning(s, ModeStep(x, fd, nick, target, params, c).core, target)
    ensures Local(s, ModeStep(x, fd, nick, target, params, c).core, target)
  {
    assert EntryOk(x.core, target, x.core.channels[target]);
    var e := ModeEffect(x, nick, target, params, c);
    ModeEffectOk(x.core, x, nick, target, params, c);
    ApplyScanning(s, x, fd, target, e);
    ApplyLocal(s, x, fd, target, e);
  }

  lemma {:induction false} ModeScanScanning(s: Core, x: Scan, fd: int, nick: string, target: string, params: seq<string>, text: string)
    requires Scanning(s, x.core, target) && Local(s, x.core, target) && fd in s.clients
    ensures Scanning(s, ModeScan(x, fd, nick, target, params, text).core, target)
    ensures Local(s, ModeScan(x, fd, nick, target, params, text).core, target)
    decreases |text|
  {
    if text != "" {
      ModeStepScanning(s, x, fd, nick, target, params, text[0]);
      ModeScanScanning(s, ModeStep(x, fd, nick, target, params, text[0]), fd, nick, target, params, text[1..]);
    }
  }

  lemma InterpretScanning(s: Core, fd: int, nick: string, target: string, params: seq<string>)
    requires Inv(s) && fd in s.clients && target in s.channels && |params| >= 2
    ensures Scanning(s, Interpret(s, fd, nick, target, params).core, target)
    ensures Local(s, Interpret(s, fd, nick, target, params).core, target)
  {
    SameClientsQuiet(s, s);
    assert s.channels == s.channels[target := s.channels[target]];
    ModeScanScanning(s, Scan(s, true, 2, NO_SIGN, "", []), fd, nick, target, params, params[1]);
  }

  /** The issuer was operator at the start; even if it gives that up on the way, nothing outside its
      authority at the start changes. */
  lemma ScannedSound(s: Core, t: Core, fd: int, target: string)
    requires Scanning(s, t, target) && Local(s, t, target) && fd in s.channels[target].operators
    ensures Sound(s, t, fd)
  {
    QuietAged(s, t);
    forall n | n in t.channels ensures AuthorityAt(s, t, fd, n) {
      assert n != target ==> t.channels[n] == s.channels[n];
    }
  }

  lemma ChangeModesSound(s: Core, fd: int, target: string, params: seq<string>)
    requires Inv(s) && fd in s.clients && |params| >= 2
    requires target in s.channels && fd in s.channels[target].operators
    ensures Sound(s, ChangeModes(s, fd, target, params), fd)
  {
    var c := s.clients[fd];
    var x := Interpret(s, fd, c.nickname, target, params);
    InterpretScanning(s, fd, c.nickname, target, params);
    ScannedSound(s, x.core, fd, target);
    if x.modes != "" {
      var r := ModeSet(c.nickname, c.username, target, x.modes, x.margs);
      var t := Broadcast(x.core, x.core.channels[target].members, None, r);
      MembersConnected(x.core, target);
      BroadcastQuiet(x.core, x.core.channels[target].members, None, r);
      OutputSound(x.core, t, fd);
      SoundTransitive(s, x.core, t, fd);
    }
  }

  lemma ModeSound(s: Core, fd: int, params: seq<string>)
    requires Inv(s) && fd in s.clients
    ensures Sound(s, Mode(s, fd, params), fd)
  {
    var nick := s.clients[fd].nickname;
    if params == [] {
      SendSound(s, fd, Numeric(461, [nick, "MODE"]));
    } else {
      var target := params[0];
      if target == "" || (target[0] != '#' && target[0] != '&') {
        NothingSound(s, fd);
      } else if target !in s.channels {
        SendSound(s, fd, Numeric(403, [nick, target]));
      } else {
        var ch := s.channels[target];
        if |params| == 1 {
          SendSound(s, fd, ModesAre(nick, target, ActiveModes(ch), ActiveArgs(ch)));
        } else if fd !in ch.operators {
          SendSound(s, fd, Numeric(482, [nick, target]));
        } else if UnknownLetter(params[1]).Some? {
          SendSound(s, fd, Numeric(472, [nick, [UnknownLetter(params[1]).value]]));
        } else {
          ChangeModesSound(s, fd, target, params);
        }
      }
    }
  }
}
