/** JOIN in full: who enters, who hears of it, and what the newcomer is told. */
module Arrivals {
  import opened Text
  import opened Ordering
  import opened Replies
  import opened Clients
  import opened Channels
  import opened State
  import opened Commands
  import opened Invariant
  import opened FanOut
  import opened CommandProofs
  import opened Membership
  import opened Effects
  import LeaveAll
  import Parsing

  // ----------------------------------------------------------------- the roster

  function NickOf(s: Core, x: int): string { if x in s.clients then s.clients[x].nickname else "" }

  /** One entry per member, in order: the nickname, after an at sign exactly for operators. */
  function Entries(s: Core, ch: Channel, members: seq<int>): (es: seq<string>)
    ensures |es| == |members|
    ensures forall i :: 0 <= i < |members| ==>
      es[i] == if members[i] in ch.operators then "@" + NickOf(s, members[i]) else NickOf(s, members[i])
  {
    if members == [] then []
    else [if members[0] in ch.operators then "@" + NickOf(s, members[0]) else NickOf(s, members[0])] + Entries(s, ch, members[1..])
  }

  /** The list is the entries with one space between each and the next. */
  lemma {:induction false} RosterIs(s: Core, ch: Channel, members: seq<int>)
    ensures NamesList(s, ch, members) == Parsing.JoinWords(Entries(s, ch, members))
    decreases |members|
  {
    if members != [] {
      RosterIs(s, ch, members[1..]);
      var es := Entries(s, ch, members);
      var rest := Entries(s, ch, members[1..]);
      assert es == [es[0]] + rest;
      if rest != [] {
        Parsing.JoinWordsCons(es);
        assert es[1..] == rest;
      }
    }
  }

  lemma {:induction false} SameEntries(s: Core, t: Core, ch: Channel, members: seq<int>)
    requires forall x :: NickOf(s, x) == NickOf(t, x)
    ensures Entries(s, ch, members) == Entries(t, ch, members)
    decreases |members|
  {
    if members != [] { SameEntries(s, t, ch, members[1..]); }
  }

  // ----------------------------------------------------------------- arrivals

  /** The members have heard of the newcomer, which has heard `told`. */
  ghost predicate ToldSoFar(u: Core, t: Core, fd: int, members: seq<int>, joined: Reply, told: seq<Reply>)
    requires fd in u.clients
  {
    && t == u.(clients := t.clients) && t.clients.Keys == u.clients.Keys
    && forall x :: x in u.clients ==>
      t.clients[x] ==
        if x == fd then u.clients[fd].SendAll(told, u.wire)
        else if x in members then u.clients[x].SendMessage(joined, u.wire)
        else u.clients[x]
  }

  lemma ToldMore(u: Core, t: Core, fd: int, members: seq<int>, joined: Reply, told: seq<Reply>, r: Reply)
    requires fd in u.clients && ToldSoFar(u, t, fd, members, joined, told)
    ensures ToldSoFar(u, Send(t, fd, r), fd, members, joined, told + [r])
  {
    hide Client.SendMessage, Client.SendAll;
    SendAllSnoc(u.clients[fd], told, r, u.wire);
  }

  /** What a newcomer is told: its own arrival, the modes of a new channel, the topic if there is one, the
      list of members with operators marked, and the end of the list. */
  function Greetings(u: Core, fd: int, name: string, isNew: bool): seq<Reply>
    requires fd in u.clients && name in u.channels
  {
    var c, ch := u.clients[fd], u.channels[name];
    [Joined(c.nickname, c.username, name)] + (if isNew then [FreshModes(name)] else [])
    + (if ch.topic != "" then [TopicIs(c.nickname, name, ch.topic)] else [])
    + [NamesAre(c.nickname, name, Parsing.JoinWords(Entries(u, ch, ch.members)))] + [Numeric(366, [c.nickname, name])]
  }

  /** After the newcomer entered in `u`: every other member hears of it once, it hears its greetings, and
      nobody else hears anything. */
  ghost predicate Arrived(u: Core, t: Core, fd: int, name: string, isNew: bool)
    requires fd in u.clients && name in u.channels
  {
    ToldSoFar(u, t, fd, u.channels[name].members, Joined(u.clients[fd].nickname, u.clients[fd].username, name),
              Greetings(u, fd, name, isNew))
  }

  lemma ArrivalHeard(u: Core, fd: int, name: string)
    requires ChannelsOk(u) && fd in u.clients && name in u.channels && fd in u.channels[name].members
    ensures
      var members := u.channels[name].members;
      var joined := Joined(u.clients[fd].nickname, u.clients[fd].username, name);
      ToldSoFar(u, Send(Broadcast(u, members, Some(fd), joined), fd, joined), fd, members, joined, [joined])
  {
    hide ChannelsOk, Broadcast, Send, Client.Queue;
    var joined := Joined(u.clients[fd].nickname, u.clients[fd].username, name);
    EveryoneHears(u, name, fd, joined);
    assert u.clients[fd].SendAll([joined], u.wire) == u.clients[fd].SendMessage(joined, u.wire);
  }

  lemma AnnouncedArrival(u: Core, fd: int, name: string, isNew: bool)
    requires ChannelsOk(u) && fd in u.clients && name in u.channels && fd in u.channels[name].members
    ensures
      var c, ch := u.clients[fd], u.channels[name];
      ToldSoFar(u, AnnounceArrival(u, fd, name, isNew), fd, ch.members, Joined(c.nickname, c.username, name),
                [Joined(c.nickname, c.username, name)] + (if isNew then [FreshModes(name)] else [])
                + (if ch.topic != "" then [TopicIs(c.nickname, name, ch.topic)] else []))
  {
    hide ChannelsOk, Broadcast, Send, ToldSoFar;
    var c, ch := u.clients[fd], u.channels[name];
    var joined := Joined(c.nickname, c.username, name);
    var s1 := Send(Broadcast(u, ch.members, Some(fd), joined), fd, joined);
    ArrivalHeard(u, fd, name);
    var told := [joined] + (if isNew then [FreshModes(name)] else []);
    assert [joined] + [] == [joined];
    if isNew { ToldMore(u, s1, fd, ch.members, joined, [joined], FreshModes(name)); }
    var s2 := if isNew then Send(s1, fd, FreshModes(name)) else s1;
    assert told + [] == told;
    if ch.topic != "" { ToldMore(u, s2, fd, ch.members, joined, told, TopicIs(c.nickname, name, ch.topic)); }
  }

  lemma SameAfter(u: Core, t: Core, fd: int, members: seq<int>, joined: Reply, told: seq<Reply>)
    requires fd in u.clients && ToldSoFar(u, t, fd, members, joined, told)
    ensures t.channels == u.channels && fd in t.clients && forall x :: NickOf(t, x) == NickOf(u, x)
  {
    hide Client.SendMessage, Client.SendAll;
    forall x ensures NickOf(t, x) == NickOf(u, x) {
      if x in u.clients {
        SendKeeps(u.clients[x], joined, u.wire);
        SendAllKeeps(u.clients[x], told, u.wire);
      }
    }
  }

  lemma {:induction false} SendAllKeeps(c: Client, rs: seq<Reply>, wire: Encoding)
    ensures c.SendAll(rs, wire).nickname == c.nickname
    decreases |rs|
  {
    hide Client.SendMessage;
    if rs != [] {
      SendKeeps(c, rs[0], wire);
      SendAllKeeps(c.SendMessage(rs[0], wire), rs[1..], wire);
    }
  }

  lemma JoinAnnounced(u: Core, fd: int, name: string, isNew: bool)
    requires ChannelsOk(u) && fd in u.clients && name in u.channels && fd in u.channels[name].members
    ensures Arrived(u, AnnounceJoin(u, fd, name, isNew), fd, name, isNew)
  {
    hide ChannelsOk, Send, ToldSoFar, AnnounceArrival;
    var c, ch := u.clients[fd], u.channels[name];
    var joined := Joined(c.nickname, c.username, name);
    var told := [joined] + (if isNew then [FreshModes(name)] else []) + (if ch.topic != "" then [TopicIs(c.nickname, name, ch.topic)] else []);
    var t := AnnounceArrival(u, fd, name, isNew);
    AnnouncedArrival(u, fd, name, isNew);
    SameAfter(u, t, fd, ch.members, joined, told);
    assert NickOf(t, fd) == NickOf(u, fd);
    RosterIs(t, ch, ch.members);
    SameEntries(u, t, ch, ch.members);
    var roster := NamesAre(c.nickname, name, Parsing.JoinWords(Entries(u, ch, ch.members)));
    ToldMore(u, t, fd, ch.members, joined, told, roster);
    ToldMore(u, Send(t, fd, roster), fd, ch.members, joined, told + [roster], Numeric(366, [c.nickname, name]));
  }

  // ------------------------------------------------------------------- one channel

  /** The state with a channel founded by `fd`: it is the only member and operator, the topic is protected,
      nothing else is set. */
  function NewlyFounded(s: Core, fd: int, name: string): Core {
    s.(channels := s.channels[name := Channel(name, "", [fd], [fd], [], false, true, "", 0, s.nextSerial, 0, map[], map[])],
       nextSerial := s.nextSerial + 1)
  }

  /** JOIN of one name. A bad name, a wrong key, a closed door and a full channel are told to the client;
      a channel it is in stays as it is; a new channel is founded; otherwise the client enters. */
  ghost predicate JoinedOne(s: Core, t: Core, fd: int, name: string, key: string)
    requires fd in s.clients
  {
    var nick := s.clients[fd].nickname;
    if !ValidChannelName(name) then Told(s, t, fd, Numeric(403, [nick, name]))
    else if name !in s.channels then Arrived(NewlyFounded(s, fd, name), t, fd, name, true)
    else
      var a := s.channels[name];
      if fd in a.members then t == s
      else if a.key != "" && key != a.key then Told(s, t, fd, Numeric(475, [nick, name]))
      else if a.inviteOnly && fd !in a.invited then Told(s, t, fd, Numeric(473, [nick, name]))
      else if a.limit > 0 && |a.members| >= a.limit then Told(s, t, fd, Numeric(471, [nick, name]))
      else
        OnlyAt(s, t, name) && Entered(a, t.channels[name], fd) && Arrived(s.(channels := t.channels), t, fd, name, false)
  }

  lemma FoundedSpelled(s: Core, fd: int, name: string)
    requires name !in s.channels
    ensures Found(s, fd, name) == NewlyFounded(s, fd, name)
  {
    FoundIs(s, fd, name);
    assert AddOnce([], fd) == [fd];
  }

  lemma FoundingHeard(s: Core, fd: int, name: string)
    requires Inv(s) && fd in s.clients && s.clients[fd].Registered() && Clean(name) && ValidChannelName(name) && name !in s.channels
    ensures Arrived(NewlyFounded(s, fd, name), EnterNew(s, fd, name), fd, name, true)
  {
    hide SessionsOk, NicksOk, PollOk, ChannelsOk, Quiet, ToldSoFar, ValidChannelName, AnnounceJoin, Found;
    FoundedSpelled(s, fd, name);
    FoundedOk(s, name, fd);
    JoinAnnounced(NewlyFounded(s, fd, name), fd, name, true);
  }

  lemma EntryHeard(s: Core, fd: int, name: string, key: string)
    requires Inv(s) && fd in s.clients && s.clients[fd].Registered()
    requires name in s.channels && fd !in s.channels[name].members && Refusal(s.channels[name], fd, key).None?
    ensures
      var t := EnterOne(s, fd, name, key);
      OnlyAt(s, t, name) && Entered(s.channels[name], t.channels[name], fd)
      && Arrived(s.(channels := t.channels), t, fd, name, false)
  {
    hide SessionsOk, NicksOk, PollOk, ChannelsOk, EntryOk, Quiet, ToldSoFar, AnnounceJoin, Admit, Entered, Refusal, OnlyAt, Authority, Aged, Bystanders;
    var a := s.channels[name];
    var u := SetChannel(s, name, Admit(a, fd));
    var t := EnterOne(s, fd, name, key);
    AdmitSound(s, fd, name, key);
    AdmittedIs(s, fd, name);
    AdmittedQuiet(s, fd, name, key);
    SetChannelOnlyAt(s, name, Admit(a, fd));
    OnlyAtSame(s, u, t, name);
    JoinAnnounced(u, fd, name, false);
  }

  lemma AdmittedIs(s: Core, fd: int, name: string)
    requires ChannelsOk(s) && name in s.channels && fd !in s.channels[name].members
    ensures Entered(s.channels[name], Admit(s.channels[name], fd), fd) && fd in Admit(s.channels[name], fd).members
  {
    hide ChannelOk;
    assert EntryOk(s, name, s.channels[name]);
    AdmitEntered(s.channels[name], fd, s.clients.Keys);
  }

  lemma RefusedTold(s: Core, fd: int, name: string, key: string)
    requires fd in s.clients && name in s.channels && Refusal(s.channels[name], fd, key).Some?
    ensures Told(s, EnterOne(s, fd, name, key), fd, Numeric(Refusal(s.channels[name], fd, key).value, [s.clients[fd].nickname, name]))
  {
    hide Reached, Refusal, Client.SendMessage;
    Tells(s, fd, Numeric(Refusal(s.channels[name], fd, key).value, [s.clients[fd].nickname, name]));
  }

  lemma JoinOneEffect(s: Core, fd: int, name: string, key: string)
    requires Inv(s) && fd in s.clients && s.clients[fd].Registered() && Clean(name)
    ensures JoinedOne(s, JoinOne(s, fd, name, key), fd, name, key)
  {
    hide Inv, Reached, ValidChannelName, EnterNew, EnterOne, Arrived, OnlyAt, Entered, Client.SendMessage;
    Tells(s, fd, Numeric(403, [s.clients[fd].nickname, name]));
    if ValidChannelName(name) {
      if name !in s.channels {
        FoundingHeard(s, fd, name);
      } else if fd !in s.channels[name].members {
        if Refusal(s.channels[name], fd, key).Some? { RefusedTold(s, fd, name, key); } else { EntryHeard(s, fd, name, key); }
      }
    }
  }

  // --------------------------------------------------------------------- whole lists

  /** The channels of a JOIN in turn, each with its own key as long as there are keys. */
  ghost predicate JoinedInTurn(s: Core, t: Core, fd: int, names: seq<string>, keys: seq<string>)
    decreases |names|
  {
    if names == [] then t == s
    else
      var key, rest := if keys == [] then "" else keys[0], if keys == [] then [] else keys[1..];
      fd in s.clients && exists u :: JoinedOne(s, u, fd, names[0], key) && JoinedInTurn(u, t, fd, names[1..], rest)
  }

  lemma {:induction false} JoinListEffect(s: Core, fd: int, names: seq<string>, keys: seq<string>)
    requires Inv(s) && fd in s.clients && s.clients[fd].Registered()
    requires forall i :: 0 <= i < |names| ==> Clean(names[i])
    ensures JoinedInTurn(s, JoinList(s, fd, names, keys), fd, names, keys)
    decreases |names|
  {
    hide Inv, JoinOne, JoinedOne, Authority, Bystanders, Clean;
    if names != [] {
      var key, rest := if keys == [] then "" else keys[0], if keys == [] then [] else keys[1..];
      var u := JoinOne(s, fd, names[0], key);
      JoinOneEffect(s, fd, names[0], key);
      JoinOneSound(s, fd, names[0], key);
      assert Older(s.clients[fd], u.clients[fd]);
      JoinListEffect(u, fd, names[1..], rest);
    }
  }

  /** JOIN 0 at one channel: every member hears of the departure; a channel without others is gone, any
      other loses the client. */
  ghost predicate LeftOne(s: Core, t: Core, fd: int, name: string)
    requires fd in s.clients
  {
    name in s.channels &&
    var a := s.channels[name];
    if fd !in a.members then t == s
    else
      Reached(s, t.(channels := s.channels), Listeners(a.members, None), Parted(s.clients[fd].nickname, s.clients[fd].username, name))
      && t.channels == if a.members == [fd] then s.channels - {name} else s.channels[name := LeaveAll.LeftOne(a, fd)]
  }

  lemma LeaveOneEffect(s: Core, fd: int, name: string)
    requires Inv(s) && fd in s.clients && name in s.channels
    ensures LeftOne(s, LeaveOne(s, fd, name), fd, name)
  {
    hide SessionsOk, NicksOk, PollOk, ChannelsOk, Reached, Listeners, Send, Broadcast, Erase, Without;
    var a := s.channels[name];
    if fd in a.members {
      var parted := Parted(s.clients[fd].nickname, s.clients[fd].username, name);
      OwnName(s, name);
      EveryoneHears(s, name, fd, parted);
      ReachedChannels(s, Send(Broadcast(s, a.members, Some(fd), parted), fd, parted), Listeners(a.members, None), parted);
      LeaveAll.AloneIffEmpty(a, fd);
      EraseIsWithout(a.members, fd);
      EraseIsWithout(a.operators, fd);
    }
  }

  lemma OwnName(s: Core, name: string)
    requires ChannelsOk(s) && name in s.channels
    ensures s.channels[name].name == name && NoDup(s.channels[name].members) && NoDup(s.channels[name].operators)
  {
    assert EntryOk(s, name, s.channels[name]);
  }

  lemma ReachedChannels(s: Core, t: Core, who: set<int>, r: Reply)
    requires Reached(s, t, who, r)
    ensures t.channels == s.channels
  {
  }

  ghost predicate LeftInTurn(s: Core, t: Core, fd: int, names: seq<string>)
    decreases |names|
  {
    if names == [] then t == s
    else fd in s.clients && exists u :: LeftOne(s, u, fd, names[0]) && LeftInTurn(u, t, fd, names[1..])
  }

  lemma {:induction false} LeaveEachEffect(s: Core, fd: int, snapshot: seq<string>)
    requires Inv(s) && fd in s.clients && NoDup(snapshot)
    requires forall i :: 0 <= i < |snapshot| ==> snapshot[i] in s.channels
    ensures LeftInTurn(s, LeaveEach(s, fd, snapshot), fd, snapshot)
    decreases |snapshot|
  {
    hide SessionsOk, NicksOk, PollOk, ChannelsOk, LeaveOne, LeftOne, Authority, Aged, Bystanders;
    if snapshot != [] {
      LeaveOneEffect(s, fd, snapshot[0]);
      LeaveOneSound(s, fd, snapshot[0]);
      LeaveOneLocal(s, fd, snapshot[0]);
      LeaveEachEffect(LeaveOne(s, fd, snapshot[0]), fd, snapshot[1..]);
    }
  }

  /** JOIN: nothing to join is an error; 0 leaves every channel in the map's order; otherwise every name of
      the first list in order, with the key in the same place of the second. */
  ghost predicate JoinDone(s: Core, t: Core, fd: int, params: seq<string>)
    requires fd in s.clients
  {
    if params == [] then Told(s, t, fd, Numeric(461, [s.clients[fd].nickname, "JOIN"]))
    else if params[0] == "0" then LeftInTurn(s, t, fd, Names(s.channels.Keys))
    else JoinedInTurn(s, t, fd, Tokens(params[0], {','}), if |params| == 1 then [] else Tokens(params[1], {','}))
  }

  lemma JoinEffect(s: Core, fd: int, params: seq<string>)
    requires Inv(s) && fd in s.clients && s.clients[fd].Registered()
    requires forall i :: 0 <= i < |params| ==> Clean(params[i])
    ensures JoinDone(s, Join(s, fd, params), fd, params)
  {
    hide Inv, Reached, JoinList, JoinedInTurn, LeaveEach, LeftInTurn, Tokens, Client.SendMessage, Clean;
    Tells(s, fd, Numeric(461, [s.clients[fd].nickname, "JOIN"]));
    if params != [] {
      TokensClean(params[0]);
      SnapshotPresent(s);
      if params[0] == "0" { LeaveEachEffect(s, fd, Names(s.channels.Keys)); }
      else { JoinListEffect(s, fd, Tokens(params[0], COMMA), if |params| > 1 then Tokens(params[1], COMMA) else []); }
    }
  }
}
