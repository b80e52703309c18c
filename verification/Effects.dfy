/** What every command but MODE and JOIN does: who hears what, and what changes, with nothing left over. */
module Effects {
  import opened Text
  import opened Replies
  import opened Clients
  import opened Channels
  import opened State
  import opened Commands
  import opened Invariant
  import opened FanOut
  import opened CommandProofs
  import opened Membership

  /** One client hears one reply; that is all. */
  ghost predicate Told(s: Core, t: Core, fd: int, r: Reply) { Reached(s, t, {fd}, r) }

  /** How a client is addressed: by its nickname, or by a star. */
  function Title(c: Client): string { if c.nickname == "" then "*" else c.nickname }

  lemma Tells(s: Core, fd: int, r: Reply)
    requires fd in s.clients
    ensures Told(s, Send(s, fd, r), fd, r)
  {
    hide Client.SendMessage;
  }

  /** Nobody is called by an empty nickname, and a name calls at most one client. */
  lemma CalledIs(s: Core, nick: string)
    requires NicksOk(s)
    ensures FindClientByNick(s, nick).Some? ==> Called(s, nick, FindClientByNick(s, nick).value)
    ensures forall x :: Called(s, nick, x) ==> FindClientByNick(s, nick) == Some(x)
  {
    hide NicksOk, Called, FindClientByNick;
    if FindClientByNick(s, nick).Some? { FindIsCalled(s, nick, FindClientByNick(s, nick).value); }
    forall x | Called(s, nick, x) ensures FindClientByNick(s, nick) == Some(x) { FindIsCalled(s, nick, x); }
  }

  // ----------------------------------------------------------------- PASS

  /** PASS: refused once accepted; without a parameter an error; with the password accepted; with another
      counted and told, and the third time the client closes. */
  ghost predicate PassDone(s: Core, t: Core, fd: int, params: seq<string>)
    requires fd in s.clients
  {
    var c := s.clients[fd];
    if c.passOk then Told(s, t, fd, Numeric(462, [Title(c)]))
    else if params == [] || params[0] == "" then Told(s, t, fd, Numeric(461, [Title(c), "PASS"]))
    else if params[0] == s.password then t == SetClient(s, fd, c.(passOk := true))
    else
      var d := c.(failedPass := c.failedPass + 1).SendMessage(Numeric(464, [Title(c)]), s.wire);
      t == SetClient(s, fd, if c.failedPass + 1 < 3 || d.dead then d else d.(closing := true, deadReason := TooManyPasses))
  }

  lemma PassEffect(s: Core, fd: int, params: seq<string>)
    requires Inv(s) && fd in s.clients && s.clients[fd].Active()
    ensures PassDone(s, Pass(s, fd, params), fd, params)
  {
    hide Inv, Reached, Client.SendMessage;
    var c := s.clients[fd];
    FewFailures(s, fd);
    Tells(s, fd, Numeric(462, [c.Shown()]));
    Tells(s, fd, Numeric(461, [c.Shown(), "PASS"]));
    SendKeeps(c.RecordFailedPass(), Numeric(464, [c.Shown()]), s.wire);
  }

  lemma FewFailures(s: Core, fd: int)
    requires Inv(s) && fd in s.clients && s.clients[fd].Active()
    ensures s.clients[fd].failedPass < MAX_FAILED_PASS
  {
    hide NicksOk, ChannelsOk, PollOk;
    assert SessionOk(s.clients[fd]);
  }

  // ------------------------------------------------------- NICK and USER

  /** NICK: no nickname, a bad one, or one that is a live other's is refused. Otherwise the client has it;
      whoever shares a channel with a registered client, and the client itself, hear of the change from the
      old name; one whose registration it completes is welcomed; nobody else hears anything. */
  ghost predicate NickDone(s: Core, t: Core, fd: int, params: seq<string>)
    requires fd in s.clients
  {
    var c := s.clients[fd];
    if params == [] || params[0] == "" then Told(s, t, fd, Numeric(431, ["*"]))
    else
      var nick := params[0];
      if !ValidNickname(nick) then Told(s, t, fd, Numeric(432, [Title(c), nick]))
      else if exists x :: x != fd && Called(s, nick, x) then Told(s, t, fd, Numeric(433, [Title(c), nick]))
      else
        var u := SetClient(s, fd, c.(nickname := nick, nickSet := true));
        if c.Registered() && nick != c.nickname then
          Reached(u, t, Sharers(s, fd) + {fd}, NickChanged(c.nickname, c.username, nick))
        else if !c.Registered() && c.passOk && c.userSet then Told(u, t, fd, Welcome(nick, c.username))
        else t == u
  }

  lemma SameSharers(s: Core, t: Core, fd: int)
    requires t.channels == s.channels && t.clients.Keys == s.clients.Keys
    ensures Sharers(t, fd) == Sharers(s, fd)
  {
    forall x ensures Shares(t, fd, x) <==> Shares(s, fd, x) {}
  }

  lemma RenamedChannels(s: Core, fd: int, nick: string)
    requires ChannelsOk(s) && fd in s.clients
    ensures ChannelsOk(SetClient(s, fd, s.clients[fd].(nickname := nick, nickSet := true)))
  {
    SetClientChannels(s, fd, s.clients[fd].(nickname := nick, nickSet := true));
  }

  lemma TakeNickEffect(s: Core, fd: int, nick: string)
    requires Inv(s) && fd in s.clients && nick != ""
    ensures
      var c := s.clients[fd];
      var t := TakeNick(s, fd, nick);
      var u := SetClient(s, fd, c.(nickname := nick, nickSet := true));
      if c.Registered() && nick != c.nickname then
        Reached(u, t, Sharers(s, fd) + {fd}, NickChanged(c.nickname, c.username, nick))
      else if !c.Registered() && c.passOk && c.userSet then Told(u, t, fd, Welcome(nick, c.username))
      else t == u
  {
    hide NicksOk, ChannelsOk, PollOk, Reached, Sharers, Client.SendMessage, Client.OutputOk, NickRecipients, SendEach;
    var c := s.clients[fd];
    var u := SetClient(s, fd, c.(nickname := nick, nickSet := true));
    assert SessionOk(c);
    Tells(u, fd, Welcome(nick, c.username));
    RenamedChannels(s, fd, nick);
    if c.Registered() {
      NickReached(u, fd, NickChanged(c.nickname, c.username, nick));
      assert u.clients.Keys == s.clients.Keys;
      SameSharers(s, u, fd);
    }
  }

  lemma NickEffect(s: Core, fd: int, params: seq<string>)
    requires Inv(s) && fd in s.clients
    ensures NickDone(s, Nick(s, fd, params), fd, params)
  {
    hide SessionsOk, NicksOk, ChannelsOk, PollOk, Reached, Client.SendMessage, TakeNick, FindClientByNick, Called, ValidNickname, Sharers;
    var c := s.clients[fd];
    Tells(s, fd, Numeric(431, ["*"]));
    if params != [] && params[0] != "" {
      var nick := params[0];
      Tells(s, fd, Numeric(432, [c.Shown(), nick]));
      Tells(s, fd, Numeric(433, [c.Shown(), nick]));
      CalledIs(s, nick);
      TakeNickEffect(s, fd, nick);
    }
  }

  /** USER: at most once, four parameters, a good username; then the client has it, and is welcomed if that
      completes its registration. */
  ghost predicate UserDone(s: Core, t: Core, fd: int, params: seq<string>)
    requires fd in s.clients
  {
    var c := s.clients[fd];
    if c.userSet then Told(s, t, fd, Numeric(462, [Title(c)]))
    else if |params| < 4 then Told(s, t, fd, Numeric(461, [Title(c), "USER"]))
    else if !ValidUsername(params[0]) then Told(s, t, fd, Numeric(468, [Title(c), params[0]]))
    else
      var u := SetClient(s, fd, c.(username := params[0], userSet := true));
      if c.passOk && c.nickSet then Told(u, t, fd, Welcome(c.nickname, params[0])) else t == u
  }

  lemma UserEffect(s: Core, fd: int, params: seq<string>)
    requires fd in s.clients
    ensures UserDone(s, User(s, fd, params), fd, params)
  {
    hide Reached, Client.SendMessage, ValidUsername;
    var c := s.clients[fd];
    Tells(s, fd, Numeric(462, [c.Shown()]));
    Tells(s, fd, Numeric(461, [c.Shown(), "USER"]));
    if |params| >= 4 {
      Tells(s, fd, Numeric(468, [c.Shown(), params[0]]));
      Tells(SetClient(s, fd, c.(username := params[0], userSet := true)), fd, Welcome(c.nickname, params[0]));
    }
  }

  // ----------------------------------------------------------------- KICK

  /** One pair of a KICK: the first obstacle is told to the issuer; without one every member, the target
      included, hears of it, and the target is neither member nor operator any more. */
  ghost predicate KickedOne(s: Core, t: Core, fd: int, name: string, nick: string, reason: string)
    requires fd in s.clients
  {
    var c := s.clients[fd];
    if name !in s.channels then Told(s, t, fd, Numeric(403, [c.nickname, name]))
    else
      var a := s.channels[name];
      if fd !in a.members then Told(s, t, fd, Numeric(442, [c.nickname, name]))
      else if fd !in a.operators then Told(s, t, fd, Numeric(482, [c.nickname, name]))
      else if !exists x :: x in a.members && Called(s, nick, x) then Told(s, t, fd, Numeric(441, [c.nickname, nick, name]))
      else
        OnlyAt(s, t, name) && Reached(s, t.(channels := s.channels), Listeners(a.members, None), Kicked(c.nickname, c.username, name, nick, reason))
        && exists x :: x in a.members && Called(s, nick, x) && Expelled(a, t.channels[name], x)
  }

  lemma KickOneEffect(s: Core, fd: int, name: string, nick: string, reason: string)
    requires Inv(s) && fd in s.clients
    ensures KickedOne(s, KickOne(s, fd, name, nick, reason), fd, name, nick, reason)
  {
    hide SessionsOk, NicksOk, PollOk, ChannelsOk, Reached, Listeners, Client.SendMessage, FindClientByNick, Called, OnlyAt, Expelled;
    var c := s.clients[fd];
    KickExact(s, fd, name, nick, reason);
    CalledIs(s, nick);
    if !MayKick(s, fd, name, nick) { KickRefusedTold(s, fd, name, nick, reason); }
    if name in s.channels { OperatorsJoined(s, name); }
  }

  lemma OperatorsJoined(s: Core, name: string)
    requires ChannelsOk(s) && name in s.channels
    ensures forall x :: x in s.channels[name].operators ==> x in s.channels[name].members
  {
    assert EntryOk(s, name, s.channels[name]);
  }

  lemma KickRefusedTold(s: Core, fd: int, name: string, nick: string, reason: string)
    requires ChannelsOk(s) && fd in s.clients && !MayKick(s, fd, name, nick)
    ensures
      var c := s.clients[fd];
      var code :=
        if name !in s.channels then 403
        else if fd !in s.channels[name].members then 442
        else if fd !in s.channels[name].operators then 482
        else 441;
      Told(s, KickOne(s, fd, name, nick, reason), fd,
           Numeric(code, if code == 441 then [c.nickname, nick, name] else [c.nickname, name]))
  {
    hide ChannelsOk, Reached, Client.SendMessage, FindClientByNick;
    var c := s.clients[fd];
    Tells(s, fd, Numeric(403, [c.nickname, name]));
    Tells(s, fd, Numeric(442, [c.nickname, name]));
    Tells(s, fd, Numeric(482, [c.nickname, name]));
    Tells(s, fd, Numeric(441, [c.nickname, nick, name]));
  }

  /** The pairs of a KICK, in turn from pair `i` on: each is judged on the state the ones before it left. */
  ghost predicate KickedInTurn(s: Core, t: Core, fd: int, names: seq<string>, nicks: seq<string>, i: nat, reason: string)
    requires |names| == 1 || |names| == |nicks|
    decreases |nicks| - i
  {
    if i >= |nicks| then t == s
    else
      var name, nick, next := if |names| == 1 then names[0] else names[i], nicks[i], i + 1;
      fd in s.clients && exists u :: KickedOne(s, u, fd, name, nick, reason) && KickedInTurn(u, t, fd, names, nicks, next, reason)
  }

  lemma {:induction false} KickEachEffect(s: Core, fd: int, names: seq<string>, nicks: seq<string>, i: nat, reason: string)
    requires Inv(s) && fd in s.clients && (|names| == 1 || |names| == |nicks|)
    ensures KickedInTurn(s, KickEach(s, fd, names, nicks, i, reason), fd, names, nicks, i, reason)
    decreases |nicks| - i
  {
    hide Inv, KickOne, KickedOne, Authority, Aged, Bystanders;
    if i < |nicks| {
      var name := if |names| == 1 then names[0] else names[i];
      var u := KickOne(s, fd, name, nicks[i], reason);
      KickOneEffect(s, fd, name, nicks[i], reason);
      KickOneSound(s, fd, name, nicks[i], reason);
      KickEachEffect(u, fd, names, nicks, i + 1, reason);
    }
  }

  /** KICK: one channel for every nickname, or as many channels as nicknames; every pair in order. */
  ghost predicate KickDone(s: Core, t: Core, fd: int, params: seq<string>)
    requires fd in s.clients
  {
    var c := s.clients[fd];
    if |params| < 2 then Told(s, t, fd, Numeric(461, [c.nickname, "KICK"]))
    else
      var names, nicks := Tokens(params[0], {','}), Tokens(params[1], {','});
      if |names| == 1 || |names| == |nicks| then
        KickedInTurn(s, t, fd, names, nicks, 0, if |params| == 2 then "No reason given" else params[2])
      else Told(s, t, fd, Numeric(461, [c.nickname, "KICK"]))
  }

  lemma KickEffect(s: Core, fd: int, params: seq<string>)
    requires Inv(s) && fd in s.clients
    ensures KickDone(s, Kick(s, fd, params), fd, params)
  {
    hide Inv, KickEach, KickedInTurn, Reached, Tokens, Client.SendMessage;
    Tells(s, fd, Numeric(461, [s.clients[fd].nickname, "KICK"]));
    if |params| >= 2 {
      var names, nicks := Tokens(params[0], COMMA), Tokens(params[1], COMMA);
      if |names| == 1 || |names| == |nicks| {
        KickEachEffect(s, fd, names, nicks, 0, if |params| > 2 then params[2] else "No reason given");
      }
    }
  }

  // ------------------------------------------------------- INVITE and TOPIC

  /** Two clients hear one reply each. */
  ghost predicate BothTold(s: Core, t: Core, a: int, ra: Reply, b: int, rb: Reply)
    requires a in s.clients && b in s.clients
  {
    t == s.(clients := s.clients[a := s.clients[a].SendMessage(ra, s.wire)][b := s.clients[b].SendMessage(rb, s.wire)])
  }

  /** What an invitation does to a channel. */
  ghost predicate InvitedTo(a: Channel, b: Channel, x: int) {
    b == a.(invited := b.invited, invitations := a.invitations[x := Count(a.invitations, x) + 1])
    && forall y :: y in b.invited <==> y in a.invited || y == x
  }

  /** INVITE: the first obstacle is told to the issuer; without one the client called so is invited, the
      issuer has its confirmation and the invited client its invitation, and nobody else hears anything. */
  ghost predicate InviteDone(s: Core, t: Core, fd: int, params: seq<string>)
    requires fd in s.clients
  {
    var c := s.clients[fd];
    if |params| < 2 then Told(s, t, fd, Numeric(461, [c.nickname, "INVITE"]))
    else
      var nick, name := params[0], params[1];
      if !exists x :: Called(s, nick, x) then Told(s, t, fd, Numeric(401, [c.nickname, nick]))
      else if name !in s.channels then Told(s, t, fd, Numeric(403, [c.nickname, name]))
      else
        var a := s.channels[name];
        if fd !in a.members then Told(s, t, fd, Numeric(442, [c.nickname, name]))
        else if exists x :: x in a.members && Called(s, nick, x) then Told(s, t, fd, Numeric(443, [c.nickname, nick, name]))
        else if a.inviteOnly && fd !in a.operators then Told(s, t, fd, Numeric(482, [c.nickname, name]))
        else
          OnlyAt(s, t, name)
          && (exists x :: Called(s, nick, x) && InvitedTo(a, t.channels[name], x)
               && BothTold(s, t.(channels := s.channels), fd, Inviting(c.nickname, nick, name), x, Invited(c.nickname, c.username, nick, name)))
  }

  lemma InviteGranted(s: Core, fd: int, params: seq<string>)
    requires Inv(s) && fd in s.clients && |params| >= 2 && MayInvite(s, fd, params[0], params[1])
    ensures
      var c := s.clients[fd];
      var nick, name := params[0], params[1];
      var x := FindClientByNick(s, nick).value;
      var t := Invite(s, fd, params);
      x in s.clients && OnlyAt(s, t, name) && InvitedTo(s.channels[name], t.channels[name], x)
      && BothTold(s, t.(channels := s.channels), fd, Inviting(c.nickname, nick, name), x, Invited(c.nickname, c.username, nick, name))
  {
    hide Inv, FindClientByNick, OnlyAt, Client.SendMessage;
    InviteExact(s, fd, params);
    FindLive(s, params[0]);
  }

  lemma InviteRefused(s: Core, fd: int, params: seq<string>)
    requires fd in s.clients && |params| >= 2 && !MayInvite(s, fd, params[0], params[1])
    ensures
      var c := s.clients[fd];
      var nick, name, x := params[0], params[1], FindClientByNick(s, params[0]);
      var code :=
        if x.None? then 401
        else if name !in s.channels then 403
        else if fd !in s.channels[name].members then 442
        else if x.value in s.channels[name].members then 443
        else 482;
      Told(s, Invite(s, fd, params), fd,
           Numeric(code, if code == 401 then [c.nickname, nick] else if code == 443 then [c.nickname, nick, name] else [c.nickname, name]))
  {
    hide Reached, Client.SendMessage, FindClientByNick;
    var c := s.clients[fd];
    Tells(s, fd, Numeric(401, [c.nickname, params[0]]));
    Tells(s, fd, Numeric(403, [c.nickname, params[1]]));
    Tells(s, fd, Numeric(442, [c.nickname, params[1]]));
    Tells(s, fd, Numeric(443, [c.nickname, params[0], params[1]]));
    Tells(s, fd, Numeric(482, [c.nickname, params[1]]));
  }

  lemma InviteEffect(s: Core, fd: int, params: seq<string>)
    requires Inv(s) && fd in s.clients
    ensures InviteDone(s, Invite(s, fd, params), fd, params)
  {
    hide SessionsOk, NicksOk, PollOk, ChannelsOk, Reached, Client.SendMessage, FindClientByNick, Called, OnlyAt, InvitedTo, BothTold;
    Tells(s, fd, Numeric(461, [s.clients[fd].nickname, "INVITE"]));
    if |params| >= 2 {
      CalledIs(s, params[0]);
      if MayInvite(s, fd, params[0], params[1]) { InviteGranted(s, fd, params); } else { InviteRefused(s, fd, params); }
    }
  }

  /** TOPIC: the first obstacle, or the topic there is, is told to the issuer; a change is in the channel and
      every member hears of it. */
  ghost predicate TopicDone(s: Core, t: Core, fd: int, params: seq<string>)
    requires fd in s.clients
  {
    var c := s.clients[fd];
    if params == [] then Told(s, t, fd, Numeric(461, [c.nickname, "TOPIC"]))
    else
      var name := params[0];
      if name !in s.channels then Told(s, t, fd, Numeric(403, [c.nickname, name]))
      else
        var a := s.channels[name];
        if fd !in a.members then Told(s, t, fd, Numeric(442, [c.nickname, name]))
        else if |params| == 1 then
          Told(s, t, fd, if a.topic == "" then Numeric(331, [c.nickname, name]) else TopicIs(c.nickname, name, a.topic))
        else if a.topicRestricted && fd !in a.operators then Told(s, t, fd, Numeric(482, [c.nickname, name]))
        else
          t.channels == s.channels[name := a.(topic := params[1])]
          && Reached(s, t.(channels := s.channels), Listeners(a.members, None), TopicSet(c.nickname, c.username, name, params[1]))
  }

  lemma TopicChanged(s: Core, fd: int, name: string, topic: string)
    requires Inv(s) && fd in s.clients && name in s.channels && fd in s.channels[name].members
    ensures
      var a := s.channels[name];
      var r := TopicSet(s.clients[fd].nickname, s.clients[fd].username, name, topic);
      var u := SetChannel(s, name, a.(topic := topic));
      var t := Send(Broadcast(u, a.members, Some(fd), r), fd, r);
      t.channels == u.channels && Reached(s, t.(channels := s.channels), Listeners(a.members, None), r)
  {
    hide SessionsOk, NicksOk, PollOk, ChannelsOk, Listeners, Client.SendMessage, Broadcast, Send;
    var a := s.channels[name];
    var r := TopicSet(s.clients[fd].nickname, s.clients[fd].username, name, topic);
    var u := SetChannel(s, name, a.(topic := topic));
    NewTopicSound(s, fd, name, topic);
    assert u.channels[name].members == a.members && u.clients == s.clients;
    EveryoneHears(u, name, fd, r);
  }

  lemma TopicRefused(s: Core, fd: int, params: seq<string>)
    requires fd in s.clients && params != []
    requires !(params[0] in s.channels && fd in s.channels[params[0]].members && |params| > 1)
             || (s.channels[params[0]].topicRestricted && fd !in s.channels[params[0]].operators)
    ensures TopicDone(s, Topic(s, fd, params), fd, params)
  {
    hide Reached, Client.SendMessage, Listeners;
    var c := s.clients[fd];
    Tells(s, fd, Numeric(403, [c.nickname, params[0]]));
    Tells(s, fd, Numeric(442, [c.nickname, params[0]]));
    Tells(s, fd, Numeric(331, [c.nickname, params[0]]));
    Tells(s, fd, Numeric(482, [c.nickname, params[0]]));
    if params[0] in s.channels { Tells(s, fd, TopicIs(c.nickname, params[0], s.channels[params[0]].topic)); }
  }

  lemma TopicEffect(s: Core, fd: int, params: seq<string>)
    requires Inv(s) && fd in s.clients
    ensures TopicDone(s, Topic(s, fd, params), fd, params)
  {
    hide Inv, Reached, Client.SendMessage, Listeners, Broadcast;
    Tells(s, fd, Numeric(461, [s.clients[fd].nickname, "TOPIC"]));
    if params != [] {
      var name := params[0];
      if name in s.channels && fd in s.channels[name].members && |params| > 1
         && (s.channels[name].topicRestricted ==> fd in s.channels[name].operators) {
        TopicChanged(s, fd, name, params[1]);
      } else {
        TopicRefused(s, fd, params);
      }
    }
  }

  // --------------------------------------------------------------- PRIVMSG

  /** One target of a PRIVMSG: the other members of a channel the sender is in, or the one client called
      so, hear the text; otherwise the sender hears an error. */
  ghost predicate SaidOne(s: Core, t: Core, fd: int, target: string, text: string)
    requires fd in s.clients
  {
    var c := s.clients[fd];
    var said := Said(c.nickname, c.username, target, text);
    if target != "" && (target[0] == '#' || target[0] == '&') then
      if target !in s.channels then Told(s, t, fd, Numeric(401, [c.nickname, target]))
      else if fd !in s.channels[target].members then Told(s, t, fd, Numeric(404, [c.nickname, target]))
      else Reached(s, t, Listeners(s.channels[target].members, Some(fd)), said)
    else
      if exists x :: Called(s, target, x) then exists x :: Called(s, target, x) && Told(s, t, x, said)
      else Told(s, t, fd, Numeric(401, [c.nickname, target]))
  }

  lemma SayOneEffect(s: Core, fd: int, target: string, text: string)
    requires Inv(s) && fd in s.clients
    ensures SaidOne(s, SayOne(s, fd, target, text), fd, target, text)
  {
    hide SessionsOk, NicksOk, PollOk, ChannelsOk, Reached, Listeners, FindClientByNick, Called, SayOne;
    SayExact(s, fd, target, text);
    CalledIs(s, target);
  }

  /** The targets of a PRIVMSG in turn. */
  ghost predicate SaidInTurn(s: Core, t: Core, fd: int, targets: seq<string>, text: string)
    decreases |targets|
  {
    if targets == [] then t == s
    else fd in s.clients && exists u :: SaidOne(s, u, fd, targets[0], text) && SaidInTurn(u, t, fd, targets[1..], text)
  }

  lemma {:induction false} SayEachEffect(s: Core, fd: int, targets: seq<string>, text: string)
    requires Inv(s) && fd in s.clients
    ensures SaidInTurn(s, SayEach(s, fd, targets, text), fd, targets, text)
    decreases |targets|
  {
    hide Inv, SayOne, SaidOne, Authority, Aged, Bystanders;
    if targets != [] {
      SayOneEffect(s, fd, targets[0], text);
      SayOneSound(s, fd, targets[0], text);
      SayEachEffect(SayOne(s, fd, targets[0], text), fd, targets[1..], text);
    }
  }

  /** PRIVMSG: every target in order, each with the second parameter as text. */
  ghost predicate PrivmsgDone(s: Core, t: Core, fd: int, params: seq<string>)
    requires fd in s.clients
  {
    var c := s.clients[fd];
    if params == [] then Told(s, t, fd, Numeric(411, [c.nickname]))
    else if |params| == 1 then Told(s, t, fd, Numeric(412, [c.nickname]))
    else SaidInTurn(s, t, fd, Tokens(params[0], {','}), params[1])
  }

  lemma PrivmsgEffect(s: Core, fd: int, params: seq<string>)
    requires Inv(s) && fd in s.clients
    ensures PrivmsgDone(s, Privmsg(s, fd, params), fd, params)
  {
    hide Inv, SayEach, SaidInTurn, Reached, Tokens, Client.SendMessage;
    Tells(s, fd, Numeric(411, [s.clients[fd].nickname]));
    Tells(s, fd, Numeric(412, [s.clients[fd].nickname]));
    if |params| >= 2 { SayEachEffect(s, fd, Tokens(params[0], COMMA), params[1]); }
  }
}
