/** The commands that are not MODE: registration, channel membership, messages. */
module Commands {
  import opened Text
  import opened Ordering
  import opened Replies
  import opened Clients
  import opened Channels
  import opened State

  const MAX_NICKNAME := 9
  const MAX_USERNAME := 32
  const MAX_CHANNEL_NAME := 50
  const COMMA: set<char> := {','}

  // --------------------------------------------------------------- validation

  predicate NickStart(c: char) {
    'A' <= c <= '}'  // letters and [ \ ] ^ _ ` { | }
  }

  predicate NickPart(c: char) { NickStart(c) || IsDigit(c) || c == '-' }

  predicate ValidNickname(n: string) {
    1 <= |n| <= MAX_NICKNAME && NickStart(n[0]) && forall i :: 1 <= i < |n| ==> NickPart(n[i])
  }

  const USERNAME_STOPS: set<char> := {'@', '!', ' ', '\0', '\r', '\n'}

  predicate ValidUsername(u: string) { 1 <= |u| <= MAX_USERNAME && Free(u, USERNAME_STOPS) }

  const NAME_STOPS: set<char> := {' ', ',', 7 as char}

  predicate IsChannelTarget(t: string) { t != "" && (t[0] == '#' || t[0] == '&') }

  predicate ValidChannelName(n: string) {
    IsChannelTarget(n) && |n| <= MAX_CHANNEL_NAME && Free(n, NAME_STOPS)
  }

  // ------------------------------------------------------------- registration

  function Pass(s: Core, fd: int, params: seq<string>): Core
    requires fd in s.clients
  {
    var c := s.clients[fd];
    if c.passOk then Send(s, fd, Numeric(462, [c.Shown()]))
    else if params == [] || params[0] == "" then Send(s, fd, Numeric(461, [c.Shown(), "PASS"]))
    else if params[0] == s.password then SetClient(s, fd, c.(passOk := true))
    else
      var d := c.RecordFailedPass().SendMessage(Numeric(464, [c.Shown()]), s.wire);
      SetClient(s, fd, if d.failedPass >= MAX_FAILED_PASS then d.MarkClosing(TooManyPasses) else d)
  }

  function BroadcastNick(s: Core, fd: int, oldNick: string, newNick: string): Core
    requires fd in s.clients
  {
    if oldNick == "" || newNick == "" then s
    else SendEach(s, NickRecipients(s, fd), NickChanged(oldNick, s.clients[fd].username, newNick))
  }

  /** NICK once the nickname is valid and free. */
  function TakeNick(s: Core, fd: int, nick: string): Core
    requires fd in s.clients
  {
    var c := s.clients[fd];
    var d := c.(nickname := nick, nickSet := true);
    var t := SetClient(s, fd, d);
    if c.Registered() then
      if c.nickname != nick then BroadcastNick(t, fd, c.nickname, nick) else t
    else if d.Registered() then Send(t, fd, Welcome(nick, d.username))
    else t
  }

  /** NICK once the nickname is valid. */
  function ClaimNick(s: Core, fd: int, nick: string): Core
    requires fd in s.clients
  {
    var owner := FindClientByNick(s, nick);
    if owner.Some? && owner.value != fd then Send(s, fd, Numeric(433, [s.clients[fd].Shown(), nick]))
    else TakeNick(s, fd, nick)
  }

  function Nick(s: Core, fd: int, params: seq<string>): Core
    requires fd in s.clients
  {
    if params == [] || params[0] == "" then Send(s, fd, Numeric(431, ["*"]))
    else if !ValidNickname(params[0]) then Send(s, fd, Numeric(432, [s.clients[fd].Shown(), params[0]]))
    else ClaimNick(s, fd, params[0])
  }

  function User(s: Core, fd: int, params: seq<string>): Core
    requires fd in s.clients
  {
    var c := s.clients[fd];
    if c.userSet then Send(s, fd, Numeric(462, [c.Shown()]))
    else if |params| < 4 then Send(s, fd, Numeric(461, [c.Shown(), "USER"]))
    else if !ValidUsername(params[0]) then Send(s, fd, Numeric(468, [c.Shown(), params[0]]))
    else
      var d := c.(username := params[0], userSet := true);
      var t := SetClient(s, fd, d);
      if d.Registered() then Send(t, fd, Welcome(d.nickname, d.username)) else t
  }

  // --------------------------------------------------------------------- JOIN

  /** The admission checks on an existing channel, in the source's order. */
  function Refusal(ch: Channel, fd: int, key: string): Option<nat> {
    if ch.key != "" && ch.key != key then Some(475)
    else if ch.inviteOnly && fd !in ch.invited then Some(473)
    else if ch.limit > 0 && |ch.members| >= ch.limit then Some(471)
    else None
  }

  /** Admission into an existing channel: membership, and the invitation is used up. */
  function Admit(ch: Channel, fd: int): Channel {
    var joined := ch.AddMember(fd);
    var counted := if ch.inviteOnly
                   then joined.(guardedJoins := ch.guardedJoins[fd := Count(ch.guardedJoins, fd) + 1])
                   else joined;
    counted.RemoveInvited(fd)
  }

  /** Admission keeps the channel in order: lists, the limit bound and the invitation account. */
  lemma AdmitOk(ch: Channel, fd: int, key: string, live: set<int>)
    requires ChannelOk(ch, live) && fd in live && fd !in ch.members && Refusal(ch, fd, key).None?
    ensures ChannelOk(Admit(ch, fd), live)
  {
    AddOnceElements(ch.members, fd);
    EraseElements(ch.invited, fd);
    forall y ensures Admitted(Admit(ch, fd), y) { assert Admitted(ch, y); }
  }

  /** One entry of the 353 list; all but the last end in a space. */
  function NamesEntry(s: Core, ch: Channel, fd: int, last: bool): string {
    (if fd in ch.operators then "@" else "")
    + (if fd in s.clients then s.clients[fd].nickname else "")
    + (if last then "" else " ")
  }

  /** The 353 list: members in order, operators marked. */
  function NamesList(s: Core, ch: Channel, members: seq<int>): string
    decreases |members|
  {
    if members == [] then ""
    else NamesEntry(s, ch, members[0], |members| == 1) + NamesList(s, ch, members[1..])
  }

  /** The member list, once the newcomer is in it. */
  function TellRoster(s: Core, fd: int, name: string): Core
    requires fd in s.clients && name in s.channels
  {
    var nick, ch := s.clients[fd].nickname, s.channels[name];
    Send(Send(s, fd, NamesAre(nick, name, NamesList(s, ch, ch.members))), fd, Numeric(366, [nick, name]))
  }

  /** The newcomer announced to the others and to itself, the fresh modes, the topic. */
  function AnnounceArrival(s: Core, fd: int, name: string, isNew: bool): (t: Core)
    requires fd in s.clients && name in s.channels
  {
    var c, ch := s.clients[fd], s.channels[name];
    var joined := Joined(c.nickname, c.username, name);
    var s1 := Send(Broadcast(s, ch.members, Some(fd), joined), fd, joined);
    var s2 := if isNew then Send(s1, fd, FreshModes(name)) else s1;
    if ch.topic != "" then Send(s2, fd, TopicIs(c.nickname, name, ch.topic)) else s2
  }

  /** What is said after a JOIN. */
  function AnnounceJoin(s: Core, fd: int, name: string, isNew: bool): Core
    requires fd in s.clients && name in s.channels
  {
    var t := AnnounceArrival(s, fd, name, isNew);
    if fd in t.clients && name in t.channels then TellRoster(t, fd, name) else t.(fault := true)
  }

  /** The founder's channel: one member, one operator, topic protected. */
  function Founded(name: string, serial: nat, fd: int): Channel {
    NewChannel(name, serial).(topicRestricted := true).AddMember(fd).AddOperator(fd)
  }

  function Found(s: Core, fd: int, name: string): Core {
    SetChannel(CreateChannel(s, name), name, Founded(name, s.nextSerial, fd))
  }

  lemma FoundIs(s: Core, fd: int, name: string)
    requires name !in s.channels
    ensures Found(s, fd, name) ==
      s.(channels := s.channels[name := Founded(name, s.nextSerial, fd)], nextSerial := s.nextSerial + 1)
  {
    var a, b := NewChannel(name, s.nextSerial), Founded(name, s.nextSerial, fd);
    assert s.channels[name := a][name := b] == s.channels[name := b];
  }

  /** JOIN of a channel that does not exist. */
  function EnterNew(s: Core, fd: int, name: string): Core
    requires fd in s.clients
  {
    AnnounceJoin(Found(s, fd, name), fd, name, true)
  }

  /** JOIN of an existing channel the client is not in. */
  function EnterOne(s: Core, fd: int, name: string, key: string): Core
    requires fd in s.clients && name in s.channels
  {
    var ch := s.channels[name];
    var refusal := Refusal(ch, fd, key);
    if refusal.Some? then Send(s, fd, Numeric(refusal.value, [s.clients[fd].nickname, name]))
    else AnnounceJoin(SetChannel(s, name, Admit(ch, fd)), fd, name, false)
  }

  /** JOIN of one validly named channel. */
  function JoinNamed(s: Core, fd: int, name: string, key: string): Core
    requires fd in s.clients
  {
    if name !in s.channels then EnterNew(s, fd, name)
    else if fd in s.channels[name].members then s
    else EnterOne(s, fd, name, key)
  }

  function JoinOne(s: Core, fd: int, name: string, key: string): Core
    requires fd in s.clients
  {
    if ValidChannelName(name) then JoinNamed(s, fd, name, key)
    else Send(s, fd, Numeric(403, [s.clients[fd].nickname, name]))
  }

  function JoinList(s: Core, fd: int, names: seq<string>, keys: seq<string>): Core
    decreases |names|
  {
    if names == [] then s
    else if fd !in s.clients then s.(fault := true)
    else
      var t := JoinOne(s, fd, names[0], if keys == [] then "" else keys[0]);
      JoinList(t, fd, names[1..], if keys == [] then [] else keys[1..])
  }

  /** JOIN 0 at one entry of its snapshot; an entry whose channel is gone would be a stale pointer. */
  function LeaveOne(s: Core, fd: int, name: string): Core {
    if fd !in s.clients || name !in s.channels then s.(fault := true)
    else
      var ch := s.channels[name];
      if fd !in ch.members then s
      else
        var parted := Parted(s.clients[fd].nickname, s.clients[fd].username, ch.name);
        var t := Send(Broadcast(s, ch.members, Some(fd), parted), fd, parted);
        var left := ch.RemoveMember(fd);
        if |left.members| == 0 then RemoveChannel(t, ch.name) else SetChannel(t, name, left)
  }

  function LeaveEach(s: Core, fd: int, snapshot: seq<string>): Core
    decreases |snapshot|
  {
    if snapshot == [] then s else LeaveEach(LeaveOne(s, fd, snapshot[0]), fd, snapshot[1..])
  }

  function Join(s: Core, fd: int, params: seq<string>): Core
    requires fd in s.clients
  {
    if params == [] then Send(s, fd, Numeric(461, [s.clients[fd].nickname, "JOIN"]))
    else if params[0] == "0" then LeaveEach(s, fd, Names(s.channels.Keys))
    else JoinList(s, fd, Tokens(params[0], COMMA), if |params| > 1 then Tokens(params[1], COMMA) else [])
  }

  // --------------------------------------------------------------------- KICK

  function KickOne(s: Core, fd: int, name: string, nick: string, reason: string): Core
    requires fd in s.clients
  {
    var c := s.clients[fd];
    if name !in s.channels then Send(s, fd, Numeric(403, [c.nickname, name]))
    else
      var ch := s.channels[name];
      if fd !in ch.members then Send(s, fd, Numeric(442, [c.nickname, name]))
      else if fd !in ch.operators then Send(s, fd, Numeric(482, [c.nickname, name]))
      else
        var target := FindClientByNick(s, nick);
        if target.None? || target.value !in ch.members then Send(s, fd, Numeric(441, [c.nickname, nick, name]))
        else
          var kicked := Kicked(c.nickname, c.username, name, nick, reason);
          var t := Send(Broadcast(s, ch.members, Some(fd), kicked), fd, kicked);
          SetChannel(t, name, ch.RemoveMember(target.value))
  }

  /** One channel for every user, or channels and users in pairs. */
  function KickEach(s: Core, fd: int, names: seq<string>, nicks: seq<string>, i: nat, reason: string): Core
    requires |names| == 1 || |names| == |nicks|
    decreases |nicks| - i
  {
    if i >= |nicks| then s
    else if fd !in s.clients then s.(fault := true)
    else
      var name := if |names| == 1 then names[0] else names[i];
      KickEach(KickOne(s, fd, name, nicks[i], reason), fd, names, nicks, i + 1, reason)
  }

  function Kick(s: Core, fd: int, params: seq<string>): Core
    requires fd in s.clients
  {
    if |params| < 2 then Send(s, fd, Numeric(461, [s.clients[fd].nickname, "KICK"]))
    else
      var names := Tokens(params[0], COMMA);
      var nicks := Tokens(params[1], COMMA);
      var reason := if |params| > 2 then params[2] else "No reason given";
      if |names| != 1 && |names| != |nicks| then Send(s, fd, Numeric(461, [s.clients[fd].nickname, "KICK"]))
      else KickEach(s, fd, names, nicks, 0, reason)
  }

  // ------------------------------------------------------------------- INVITE

  function Invite(s: Core, fd: int, params: seq<string>): Core
    requires fd in s.clients
  {
    var c := s.clients[fd];
    if |params| < 2 then Send(s, fd, Numeric(461, [c.nickname, "INVITE"]))
    else
      var nick, name := params[0], params[1];
      var target := FindClientByNick(s, nick);
      if target.None? then Send(s, fd, Numeric(401, [c.nickname, nick]))
      else if name !in s.channels then Send(s, fd, Numeric(403, [c.nickname, name]))
      else
        var ch := s.channels[name];
        if fd !in ch.members then Send(s, fd, Numeric(442, [c.nickname, name]))
        else if target.value in ch.members then Send(s, fd, Numeric(443, [c.nickname, nick, name]))
        else if ch.inviteOnly && fd !in ch.operators then Send(s, fd, Numeric(482, [c.nickname, name]))
        else
          var s1 := SetChannel(s, name, ch.AddInvited(target.value));
          var s2 := Send(s1, fd, Inviting(c.nickname, nick, name));
          Send(s2, target.value, Invited(c.nickname, c.username, nick, name))
  }

  // -------------------------------------------------------------------- TOPIC

  function Topic(s: Core, fd: int, params: seq<string>): Core
    requires fd in s.clients
  {
    var c := s.clients[fd];
    if params == [] then Send(s, fd, Numeric(461, [c.nickname, "TOPIC"]))
    else if params[0] !in s.channels then Send(s, fd, Numeric(403, [c.nickname, params[0]]))
    else
      var name := params[0];
      var ch := s.channels[name];
      if fd !in ch.members then Send(s, fd, Numeric(442, [c.nickname, name]))
      else if |params| == 1 then
        if ch.topic == "" then Send(s, fd, Numeric(331, [c.nickname, name]))
        else Send(s, fd, TopicIs(c.nickname, name, ch.topic))
      else if ch.topicRestricted && fd !in ch.operators then Send(s, fd, Numeric(482, [c.nickname, name]))
      else
        var said := TopicSet(c.nickname, c.username, name, params[1]);
        var t := SetChannel(s, name, ch.(topic := params[1]));
        Send(Broadcast(t, ch.members, Some(fd), said), fd, said)
  }

  // ------------------------------------------------------------------ PRIVMSG

  function SayOne(s: Core, fd: int, target: string, text: string): Core
    requires fd in s.clients
  {
    var c := s.clients[fd];
    var said := Said(c.nickname, c.username, target, text);
    if IsChannelTarget(target) then
      if target !in s.channels then Send(s, fd, Numeric(401, [c.nickname, target]))
      else if fd !in s.channels[target].members then Send(s, fd, Numeric(404, [c.nickname, target]))
      else Broadcast(s, s.channels[target].members, Some(fd), said)
    else
      var peer := FindClientByNick(s, target);
      if peer.None? then Send(s, fd, Numeric(401, [c.nickname, target]))
      else Send(s, peer.value, said)
  }

  function SayEach(s: Core, fd: int, targets: seq<string>, text: string): Core
    decreases |targets|
  {
    if targets == [] then s
    else if fd !in s.clients then s.(fault := true)
    else SayEach(SayOne(s, fd, targets[0], text), fd, targets[1..], text)
  }

  function Privmsg(s: Core, fd: int, params: seq<string>): Core
    requires fd in s.clients
  {
    if params == [] then Send(s, fd, Numeric(411, [s.clients[fd].nickname]))
    else if |params| < 2 then Send(s, fd, Numeric(412, [s.clients[fd].nickname]))
    else SayEach(s, fd, Tokens(params[0], COMMA), params[1])
  }
}
