/** Who is in, who is out and who is told, command by command: exactly when, and nothing else. */
module Membership {
  import opened Text
  import opened Ordering
  import opened Replies
  import opened Clients
  import opened Channels
  import opened State
  import opened Commands
  import opened Invariant
  import opened FanOut
  import opened CommandProofs

  /** A channel line sent to the others and then to the issuer reaches every member once. */
  lemma EveryoneHears(s: Core, name: string, fd: int, r: Reply)
    requires ChannelsOk(s) && name in s.channels && fd in s.channels[name].members
    ensures
      var members := s.channels[name].members;
      Reached(s, Send(Broadcast(s, members, Some(fd), r), fd, r), Listeners(members, None), r)
  {
    hide Broadcast, ChannelsOk, EntryOk, Send;
    var members := s.channels[name].members;
    MembersDistinct(s, name);
    MembersConnected(s, name);
    BroadcastExact(s, members, Some(fd), r);
    var i :| 0 <= i < |members| && members[i] == fd;
    ReachedMore(s, Broadcast(s, members, Some(fd), r), Listeners(members, Some(fd)), fd, r);
    assert Listeners(members, Some(fd)) + {fd} == Listeners(members, None);
  }

  lemma MembersDistinct(s: Core, name: string)
    requires ChannelsOk(s) && name in s.channels
    ensures NoDup(s.channels[name].members)
  {
    assert EntryOk(s, name, s.channels[name]);
  }

  // --------------------------------------------------------------------- JOIN

  /** The key is absent or given, the door open or the client invited, and there is room. */
  predicate MayEnter(ch: Channel, fd: int, key: string) {
    (ch.key == "" || key == ch.key) && (ch.inviteOnly ==> fd in ch.invited) && (ch.limit == 0 || |ch.members| < ch.limit)
  }

  /** Every other channel is as it was. */
  ghost predicate OnlyAt(s: Core, t: Core, name: string) {
    t.channels.Keys == s.channels.Keys && forall n :: n in s.channels && n != name ==> t.channels[n] == s.channels[n]
  }

  lemma SetChannelOnlyAt(s: Core, name: string, ch: Channel)
    requires name in s.channels
    ensures OnlyAt(s, SetChannel(s, name, ch), name) && SetChannel(s, name, ch).channels[name] == ch
  {
    assert SetChannel(s, name, ch).channels.Keys == s.channels.Keys;
  }

  lemma MayEnterIs(ch: Channel, fd: int, key: string)
    ensures Refusal(ch, fd, key).None? <==> MayEnter(ch, fd, key)
  {
  }

  /** What admission does to a channel in order. */
  ghost predicate Entered(a: Channel, b: Channel, fd: int) {
    b == a.(members := a.members + [fd], invited := b.invited, guardedJoins := b.guardedJoins)
    && forall x :: x in b.invited <==> x in a.invited && x != fd
  }

  lemma AdmitEntered(a: Channel, fd: int, live: set<int>)
    requires ChannelOk(a, live) && fd !in a.members
    ensures Entered(a, Admit(a, fd), fd)
  {
    hide Admitted, Count;
    EraseElements(a.invited, fd);
  }

  lemma AdmittedQuiet(s: Core, fd: int, name: string, key: string)
    requires Inv(s) && fd in s.clients && s.clients[fd].Registered()
    requires name in s.channels && fd !in s.channels[name].members && Refusal(s.channels[name], fd, key).None?
    ensures
      var u := SetChannel(s, name, Admit(s.channels[name], fd));
      name in u.channels && AnnounceJoin(u, fd, name, false).channels == u.channels
  {
    hide Quiet, Refusal, Admit, AnnounceJoin, SessionsOk, NicksOk, PollOk, EntryOk;
    AdmitSound(s, fd, name, key);
    AnnounceJoinQuiet(SetChannel(s, name, Admit(s.channels[name], fd)), fd, name, false);
  }

  /** Admission is exact: a newcomer enters an existing channel if and only if it may; then it is the last
      member, no operator, its invitation is used up, and nothing else about the channel changes. */
  lemma AdmissionExact(s: Core, fd: int, name: string, key: string)
    requires Inv(s) && fd in s.clients && s.clients[fd].Registered()
    requires name in s.channels && fd !in s.channels[name].members
    ensures
      var t := JoinOne(s, fd, name, key);
      OnlyAt(s, t, name) &&
      var a, b := s.channels[name], t.channels[name];
      && (fd in b.members <==> MayEnter(a, fd, key))
      && (if fd in b.members then Entered(a, b, fd) else b == a)
  {
    hide Refusal, MayEnter, Admit, AnnounceJoin, SessionsOk, NicksOk, PollOk, ValidChannelName, OnlyAt, Send;
    var a := s.channels[name];
    assert EntryOk(s, name, a);
    MayEnterIs(a, fd, key);
    if Refusal(a, fd, key).Some? {
      SameOnlyAt(s, fd, Numeric(Refusal(a, fd, key).value, [s.clients[fd].nickname, name]), name);
    } else {
      AdmitEntered(a, fd, s.clients.Keys);
      SetChannelOnlyAt(s, name, Admit(a, fd));
      AdmittedQuiet(s, fd, name, key);
      OnlyAtSame(s, SetChannel(s, name, Admit(a, fd)), JoinOne(s, fd, name, key), name);
    }
  }

  /** A reply to one client changes no channel. */
  lemma SameOnlyAt(s: Core, fd: int, r: Reply, name: string)
    requires fd in s.clients
    ensures OnlyAt(s, Send(s, fd, r), name) && Send(s, fd, r).channels == s.channels
  {
  }

  lemma OnlyAtSame(s: Core, t: Core, u: Core, name: string)
    requires OnlyAt(s, t, name) && u.channels == t.channels
    ensures OnlyAt(s, u, name)
  {
  }

  /** JOIN of one name founds the channel if and only if the name is valid and no channel has exactly that
      name, byte for byte; the founder is its only member and only operator. */
  lemma FoundingExact(s: Core, fd: int, name: string, key: string)
    requires Inv(s) && fd in s.clients && s.clients[fd].Registered() && Clean(name)
    ensures
      var t := JoinOne(s, fd, name, key);
      t.channels.Keys == s.channels.Keys + (if ValidChannelName(name) then {name} else {})
      && (name !in s.channels && ValidChannelName(name) ==> t.channels[name].members == [fd] && t.channels[name].operators == [fd])
  {
    hide Refusal, MayEnter, Admit, Entered, AnnounceJoin, SessionsOk, NicksOk, PollOk, ValidChannelName, Quiet, EnterOne;
    if ValidChannelName(name) && name !in s.channels {
      FoundedOk(s, name, fd);
      AnnounceJoinQuiet(Found(s, fd, name), fd, name, true);
      FoundIs(s, fd, name);
    } else if ValidChannelName(name) && fd !in s.channels[name].members {
      AdmissionExact(s, fd, name, key);
    }
    assert ValidChannelName(name) && name in s.channels ==> s.channels.Keys + {name} == s.channels.Keys;
  }

  /** No two channels have names that differ in case only. */
  ghost predicate CaseDistinct(s: Core) {
    forall a, b :: a in s.channels && b in s.channels && a != b ==> Lower(a) != Lower(b)
  }

  /** Names are looked up byte for byte, so a JOIN keeps channel names distinct up to casemapping exactly
      when it does not found a channel beside one that differs from it in case only. */
  lemma CaseDistinctExactly(s: Core, fd: int, name: string, key: string)
    requires Inv(s) && fd in s.clients && s.clients[fd].Registered() && Clean(name) && CaseDistinct(s)
    ensures
      CaseDistinct(JoinOne(s, fd, name, key)) <==>
        !(ValidChannelName(name) && name !in s.channels && exists other :: other in s.channels && Lower(other) == Lower(name))
  {
    hide Inv, JoinOne, ValidChannelName, Lower;
    FoundingExact(s, fd, name, key);
    var t := JoinOne(s, fd, name, key);
    assert forall n :: n in t.channels <==> n in t.channels.Keys;
    if ValidChannelName(name) && name !in s.channels {
      assert name in t.channels;
      if other :| other in s.channels && Lower(other) == Lower(name) {
        assert other in t.channels && other != name;
      }
    }
  }

  // --------------------------------------------------------------------- KICK

  /** The issuer operates the channel and the nickname is a member's. */
  predicate MayKick(s: Core, fd: int, name: string, nick: string) {
    name in s.channels && fd in s.channels[name].operators
    && var target := FindClientByNick(s, nick);
    target.Some? && target.value in s.channels[name].members
  }

  /** What being kicked does to a channel. */
  ghost predicate Expelled(a: Channel, b: Channel, target: int) {
    && (forall x :: x in b.members <==> x in a.members && x != target)
    && (forall x :: x in b.operators <==> x in a.operators && x != target)
    && b == a.(members := b.members, operators := b.operators)
  }

  lemma KickRefused(s: Core, fd: int, name: string, nick: string, reason: string)
    requires Inv(s) && fd in s.clients && !MayKick(s, fd, name, nick)
    ensures KickOne(s, fd, name, nick, reason).channels == s.channels
  {
    hide SessionsOk, NicksOk, PollOk, Broadcast, FindClientByNick;
    if name in s.channels { assert EntryOk(s, name, s.channels[name]); }
  }

  /** KICK is exact: membership and operator status change for the target, in that channel, if and only if
      the issuer may; every member, the target included, is told once before it goes. */
  lemma KickExact(s: Core, fd: int, name: string, nick: string, reason: string)
    requires Inv(s) && fd in s.clients
    ensures
      var t := KickOne(s, fd, name, nick, reason);
      if MayKick(s, fd, name, nick) then
        OnlyAt(s, t, name) && Expelled(s.channels[name], t.channels[name], FindClientByNick(s, nick).value)
        && Reached(s, t.(channels := s.channels), Listeners(s.channels[name].members, None),
                   Kicked(s.clients[fd].nickname, s.clients[fd].username, name, nick, reason))
      else t.channels == s.channels
  {
    hide Reached, Listeners, SessionsOk, NicksOk, PollOk, Broadcast, Send, Quiet, FindClientByNick, Erase, OnlyAt;
    var c := s.clients[fd];
    if !MayKick(s, fd, name, nick) {
      KickRefused(s, fd, name, nick, reason);
    } else {
      var a := s.channels[name];
      assert EntryOk(s, name, a);
      var target := FindClientByNick(s, nick).value;
      var r := Kicked(c.nickname, c.username, name, nick, reason);
      EveryoneHears(s, name, fd, r);
      var u := Send(Broadcast(s, a.members, Some(fd), r), fd, r);
      BroadcastAndTell(s, name, Some(fd), fd, r);
      EraseElements(a.members, target);
      EraseElements(a.operators, target);
      SetChannelOnlyAt(u, name, a.RemoveMember(target));
      SameBase(s, u, KickOne(s, fd, name, nick, reason), name);
      assert KickOne(s, fd, name, nick, reason).(channels := s.channels) == u;
    }
  }

  lemma SameBase(s: Core, u: Core, t: Core, name: string)
    requires u.channels == s.channels && OnlyAt(u, t, name)
    ensures OnlyAt(s, t, name)
  {
  }

  /** Authority is read anew for each pair of a list: once the issuer operates none of the named channels, in
      particular after kicking itself from them, nothing further in the list changes any channel. */
  lemma {:induction false} NoAuthorityNoKicks(s: Core, fd: int, names: seq<string>, nicks: seq<string>, i: nat, reason: string)
    requires Inv(s) && fd in s.clients && (|names| == 1 || |names| == |nicks|)
    requires forall j :: 0 <= j < |names| && names[j] in s.channels ==> fd !in s.channels[names[j]].operators
    ensures KickEach(s, fd, names, nicks, i, reason).channels == s.channels
    decreases |nicks| - i
  {
    hide KickOne, Inv, Authority, Aged, Bystanders, Reached, Listeners, Expelled, FindClientByNick;
    if i < |nicks| {
      var name := if |names| == 1 then names[0] else names[i];
      var t := KickOne(s, fd, name, nicks[i], reason);
      KickExact(s, fd, name, nicks[i], reason);
      KickOneSound(s, fd, name, nicks[i], reason);
      NoAuthorityNoKicks(t, fd, names, nicks, i + 1, reason);
    }
  }

  /** A kick that goes through takes authority with it: it is read again for the next pair. */
  lemma KickedHasNoAuthority(s: Core, fd: int, name: string, nick: string, reason: string)
    requires Inv(s) && fd in s.clients && MayKick(s, fd, name, nick)
    ensures
      var t := KickOne(s, fd, name, nick, reason);
      var target := FindClientByNick(s, nick).value;
      name in t.channels && forall other :: !MayKick(t, target, name, other)
  {
    hide KickOne, SessionsOk, NicksOk, PollOk, Reached, ChannelOk;
    KickExact(s, fd, name, nick, reason);
  }

  /** KICK can leave a channel empty, and it stays in the map: exactly when its only member kicks itself. */
  lemma KickEmpties(s: Core, fd: int, name: string, nick: string, reason: string)
    requires Inv(s) && fd in s.clients && MayKick(s, fd, name, nick)
    ensures
      var t := KickOne(s, fd, name, nick, reason);
      name in t.channels && (t.channels[name].members == [] <==>
        FindClientByNick(s, nick) == Some(fd) && forall x :: x in s.channels[name].members ==> x == fd)
  {
    hide KickOne, FindClientByNick, SessionsOk, NicksOk, PollOk, Reached;
    KickExact(s, fd, name, nick, reason);
    var a, b := s.channels[name], KickOne(s, fd, name, nick, reason).channels[name];
    var target := FindClientByNick(s, nick).value;
    assert EntryOk(s, name, a);
    assert fd in a.members;
    if b.members == [] {
      assert target == fd;
    } else {
      var x := b.members[0];
      assert x in b.members && x in a.members && x != target;
    }
  }

  // ------------------------------------------------------- INVITE and PRIVMSG

  predicate MayInvite(s: Core, fd: int, nick: string, name: string) {
    var target := FindClientByNick(s, nick);
    target.Some? && name in s.channels &&
    var ch := s.channels[name];
    fd in ch.members && target.value !in ch.members && (ch.inviteOnly ==> fd in ch.operators)
  }

  /** INVITE is exact: the named client becomes invited, and nothing else about any channel changes, if and
      only if the issuer may. */
  lemma InviteExact(s: Core, fd: int, params: seq<string>)
    requires Inv(s) && fd in s.clients && |params| >= 2
    ensures
      var t := Invite(s, fd, params);
      var nick, name := params[0], params[1];
      if MayInvite(s, fd, nick, name) then
        var target := FindClientByNick(s, nick).value;
        OnlyAt(s, t, name) &&
        var a, b := s.channels[name], t.channels[name];
        b == a.(invited := b.invited, invitations := a.invitations[target := Count(a.invitations, target) + 1])
        && forall x :: x in b.invited <==> x in a.invited || x == target
      else t.channels == s.channels
  {
    hide Inv, FindClientByNick, OnlyAt;
    var nick, name := params[0], params[1];
    if MayInvite(s, fd, nick, name) {
      var target := FindClientByNick(s, nick).value;
      var a := s.channels[name];
      var u := SetChannel(s, name, a.AddInvited(target));
      InvitedMore(a.invited, target);
      SetChannelOnlyAt(s, name, a.AddInvited(target));
      OnlyAtSame(s, u, Invite(s, fd, params), name);
    }
  }

  lemma InvitedMore(q: seq<int>, x: int)
    ensures forall y :: y in AddOnce(q, x) <==> y in q || y == x
  {
  }

  lemma TellOne(s: Core, x: int, r: Reply)
    requires x in s.clients
    ensures Reached(s, Send(s, x, r), {x}, r)
  {
  }

  /** PRIVMSG is exact: a channel message reaches every other member once and nobody else when the sender
      is a member; a private one reaches the one live client that answers to the nickname; otherwise only
      the sender hears, one error. No channel changes. */
  lemma SayExact(s: Core, fd: int, target: string, text: string)
    requires Inv(s) && fd in s.clients
    ensures
      var c := s.clients[fd];
      var said := Said(c.nickname, c.username, target, text);
      var t := SayOne(s, fd, target, text);
      if IsChannelTarget(target) then
        if target !in s.channels then Reached(s, t, {fd}, Numeric(401, [c.nickname, target]))
        else if fd !in s.channels[target].members then Reached(s, t, {fd}, Numeric(404, [c.nickname, target]))
        else Reached(s, t, Listeners(s.channels[target].members, Some(fd)), said)
      else
        var peer := FindClientByNick(s, target);
        if peer.None? then Reached(s, t, {fd}, Numeric(401, [c.nickname, target])) else Reached(s, t, {peer.value}, said)
  {
    hide SessionsOk, NicksOk, PollOk, FindClientByNick, Broadcast, Send, Reached, Listeners;
    var c := s.clients[fd];
    var said := Said(c.nickname, c.username, target, text);
    TellOne(s, fd, Numeric(401, [c.nickname, target]));
    TellOne(s, fd, Numeric(404, [c.nickname, target]));
    if IsChannelTarget(target) && target in s.channels && fd in s.channels[target].members {
      assert EntryOk(s, target, s.channels[target]);
      MembersConnected(s, target);
      BroadcastExact(s, s.channels[target].members, Some(fd), said);
    } else if !IsChannelTarget(target) && FindClientByNick(s, target).Some? {
      FindLive(s, target);
      TellOne(s, FindClientByNick(s, target).value, said);
    }
  }
}
