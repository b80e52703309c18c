/** Every command keeps the invariant and stays within its issuer's authority. */
module CommandProofs {
  import opened Text
  import opened Ordering
  import opened Replies
  import opened Clients
  import opened Channels
  import opened State
  import opened Commands
  import opened Invariant
  import opened FanOut

  // ------------------------------------------------------------- registration

  lemma SetClientChannels(s: Core, fd: int, d: Client)
    requires ChannelsOk(s) && fd in s.clients && Older(s.clients[fd], d)
    ensures ChannelsOk(SetClient(s, fd, d))
  {
    var t := SetClient(s, fd, d);
    assert t.clients.Keys == s.clients.Keys;
    assert Aged(s, t);
    forall name | name in t.channels ensures EntryOk(t, name, t.channels[name]) {
      EntryCarries(s, t, name, t.channels[name]);
    }
  }

  lemma SetClientPoll(s: Core, fd: int, d: Client)
    requires PollOk(s) && fd in s.clients
    requires d.ip == s.clients[fd].ip && (s.clients[fd].dead ==> d.dead)
    ensures PollOk(SetClient(s, fd, d))
  {
    var t := SetClient(s, fd, d);
    assert t.clients.Keys == s.clients.Keys;
    assert |t.clients| == |t.clients.Keys| == |s.clients|;
    forall ip ensures |LiveFrom(t, ip)| <= MAX_CLIENTS_PER_IP {
      SubsetSize(LiveFrom(t, ip), LiveFrom(s, ip));
    }
  }

  /** The state and the identity of `fd` may change, not its address or its vital signs for the worse. */
  ghost predicate Successor(c: Client, d: Client) {
    SessionOk(d) && d.ip == c.ip && (c.dead ==> d.dead) && Older(c, d)
  }

  lemma ReplaceSound(s: Core, fd: int, d: Client)
    requires Inv(s) && fd in s.clients && Successor(s.clients[fd], d)
    requires NicksOk(SetClient(s, fd, d))
    ensures Orderly(s, SetClient(s, fd, d), fd)
    ensures d.sent == s.clients[fd].sent ==> Sound(s, SetClient(s, fd, d), fd)
  {
    var t := SetClient(s, fd, d);
    assert t.clients.Keys == s.clients.Keys;
    SetClientChannels(s, fd, d);
    SetClientPoll(s, fd, d);
    AuthorityReflexive(s, t, fd);
  }

  lemma SetClientSound(s: Core, fd: int, d: Client)
    requires Inv(s) && fd in s.clients && Successor(s.clients[fd], d)
    requires d.nickname == s.clients[fd].nickname
    ensures Orderly(s, SetClient(s, fd, d), fd)
    ensures d.sent == s.clients[fd].sent ==> Sound(s, SetClient(s, fd, d), fd)
  {
    assert NicksOk(SetClient(s, fd, d));
    ReplaceSound(s, fd, d);
  }

  /** A wrong password: at most three, the third closes. */
  function AfterWrongPass(c: Client, r: Reply, wire: Encoding): Client {
    var d := c.RecordFailedPass().SendMessage(r, wire);
    if d.failedPass >= MAX_FAILED_PASS then d.MarkClosing(TooManyPasses) else d
  }

  lemma WrongPassOk(c: Client, r: Reply, wire: Encoding)
    requires SessionOk(c) && c.Active() && !c.passOk && !r.Welcome?
    ensures Successor(c, AfterWrongPass(c, r, wire)) && AfterWrongPass(c, r, wire).nickname == c.nickname
    ensures AfterWrongPass(c, r, wire).sent == c.sent
  {
    SendHeard(c.RecordFailedPass(), r, wire);
  }

  lemma RightPassOk(c: Client)
    requires SessionOk(c) && !c.passOk
    ensures Successor(c, c.(passOk := true))
  {
  }

  lemma SessionThere(s: Core, fd: int)
    requires SessionsOk(s) && fd in s.clients
    ensures SessionOk(s.clients[fd])
  {
  }

  lemma PassSound(s: Core, fd: int, params: seq<string>)
    requires Inv(s) && fd in s.clients && s.clients[fd].Active()
    ensures Sound(s, Pass(s, fd, params), fd)
  {
    hide SessionsOk, NicksOk, ChannelsOk, PollOk, SessionOk, Successor, Sound, OutputOnly, Client.SendMessage;
    var c := s.clients[fd];
    SessionThere(s, fd);
    if c.passOk {
      SendSound(s, fd, Numeric(462, [c.Shown()]));
    } else if params == [] || params[0] == "" {
      SendSound(s, fd, Numeric(461, [c.Shown(), "PASS"]));
    } else if params[0] == s.password {
      RightPassOk(c);
      SetClientSound(s, fd, c.(passOk := true));
    } else {
      var r := Numeric(464, [c.Shown()]);
      WrongPassOk(c, r, s.wire);
      SetClientSound(s, fd, AfterWrongPass(c, r, s.wire));
    }
  }

  /** The client after NICK or USER wrote `d`: the welcome, if this completed registration. */
  function AfterIdentity(c: Client, d: Client, wire: Encoding): Client {
    if !c.Registered() && d.Registered() then d.SendMessage(Welcome(d.nickname, d.username), wire) else d
  }

  /** The welcome completes registration: it is issued once, to a client that had none. */
  lemma IdentityOk(c: Client, d: Client, wire: Encoding)
    requires SessionOk(c) && c.passOk
    requires d == c.(nickname := d.nickname, nickSet := d.nickSet, username := d.username, userSet := d.userSet)
    requires d.nickSet <==> d.nickname != ""
    requires c.nickSet ==> d.nickSet
    requires c.userSet ==> d.userSet
    requires d.nickSet ==> ValidNickname(d.nickname)
    requires d.userSet ==> ValidUsername(d.username) && Free(d.username, BLANKS)
    ensures Successor(c, AfterIdentity(c, d, wire)) && AfterIdentity(c, d, wire).nickname == d.nickname
  {
    assert d.OutputOk();
    if !c.Registered() && d.Registered() {
      QueueKeepsOutput(d, wire(Welcome(d.nickname, d.username)));
      WelcomesSnoc(d.issued, Welcome(d.nickname, d.username));
    }
  }

  lemma UserSound(s: Core, fd: int, params: seq<string>)
    requires Inv(s) && fd in s.clients && s.clients[fd].Active() && s.clients[fd].passOk
    requires |params| >= 2 ==> Free(params[0], BLANKS)
    ensures Sound(s, User(s, fd, params), fd)
  {
    var c := s.clients[fd];
    if c.userSet {
      SendSound(s, fd, Numeric(462, [c.Shown()]));
    } else if |params| < 4 {
      SendSound(s, fd, Numeric(461, [c.Shown(), "USER"]));
    } else if !ValidUsername(params[0]) {
      SendSound(s, fd, Numeric(468, [c.Shown(), params[0]]));
    } else {
      var d := c.(username := params[0], userSet := true);
      IdentityOk(c, d, s.wire);
      SetClientTwice(s, fd, d, AfterIdentity(c, d, s.wire));
      SetClientSound(s, fd, AfterIdentity(c, d, s.wire));
    }
  }

  lemma SetClientTwice(s: Core, fd: int, d: Client, e: Client)
    ensures SetClient(SetClient(s, fd, d), fd, e) == SetClient(s, fd, e)
  {
    assert s.clients[fd := d][fd := e] == s.clients[fd := e];
  }

  /** Taking a nickname nobody live holds. */
  lemma RenameNicks(s: Core, fd: int, d: Client)
    requires NicksOk(s) && fd in s.clients && d.nickname != ""
    requires var owner := FindClientByNick(s, d.nickname); owner.Some? ==> owner.value == fd
    ensures NicksOk(SetClient(s, fd, d))
  {
    forall a | a in s.clients && a != fd && !s.clients[a].dead
      ensures Lower(s.clients[a].nickname) != Lower(d.nickname)
    {
      FindIsUnique(s, d.nickname, a);
    }
  }

  lemma RenameSound(s: Core, fd: int, d: Client)
    requires Inv(s) && fd in s.clients && Successor(s.clients[fd], d) && d.nickname != ""
    requires var owner := FindClientByNick(s, d.nickname); owner.Some? ==> owner.value == fd
    requires d.sent == s.clients[fd].sent
    ensures Sound(s, SetClient(s, fd, d), fd)
  {
    RenameNicks(s, fd, d);
    ReplaceSound(s, fd, d);
  }

  // --------------------------------------------------------- nickname changes

  lemma SharersConnected(s: Core, fd: int, x: int)
    requires ChannelsOk(s) && Shares(s, fd, x)
    ensures x in s.clients
  {
    var name :| name in s.channels && fd in s.channels[name].members && x in s.channels[name].members;
    assert EntryOk(s, name, s.channels[name]);
  }

  /** The announcement of a change reaches the changer and its sharers. */
  lemma NickReached(s: Core, fd: int, r: Reply)
    requires ChannelsOk(s) && fd in s.clients
    ensures NoDup(NickRecipients(s, fd))
    ensures Reached(s, SendEach(s, NickRecipients(s, fd), r), Sharers(s, fd) + {fd}, r)
  {
    var fds := NickRecipients(s, fd);
    NickRecipientsExact(s, fd);
    forall i | 0 <= i < |fds| ensures fds[i] in s.clients {
      var x := fds[i];
      assert x in fds;
      if x != fd { SharersConnected(s, fd, x); }
    }
    SendEachExact(s, fds, r);
    var who := Sharers(s, fd) + {fd};
    forall x ensures x in Listeners(fds, None) <==> x in who {
      if x in fds && x != fd { SharersConnected(s, fd, x); }
    }
    assert Listeners(fds, None) == who;
  }

  lemma BroadcastNickSound(s: Core, fd: int, oldNick: string, newNick: string)
    requires Inv(s) && fd in s.clients
    ensures Sound(s, BroadcastNick(s, fd, oldNick, newNick), fd)
  {
    if oldNick == "" || newNick == "" {
      NothingSound(s, fd);
    } else {
      var fds := NickRecipients(s, fd);
      var r := NickChanged(oldNick, s.clients[fd].username, newNick);
      NickRecipientsExact(s, fd);
      forall i | 0 <= i < |fds| ensures fds[i] in s.clients {
        assert fds[i] in fds;
        if fds[i] != fd {
          var name :| name in s.channels && fd in s.channels[name].members && fds[i] in s.channels[name].members;
          assert EntryOk(s, name, s.channels[name]);
        }
      }
      SendEachQuiet(s, fds, r);
      OutputSound(s, SendEach(s, fds, r), fd);
    }
  }

  lemma TakeNickSound(s: Core, fd: int, nick: string)
    requires Inv(s) && fd in s.clients && s.clients[fd].passOk && ValidNickname(nick)
    requires var owner := FindClientByNick(s, nick); owner.Some? ==> owner.value == fd
    ensures Sound(s, TakeNick(s, fd, nick), fd)
  {
    hide SessionsOk, NicksOk, ChannelsOk, PollOk, Successor, Client.OutputOk, BroadcastNick, FindClientByNick, Aged, Authority, Bystanders;
    var c := s.clients[fd];
    var d := c.(nickname := nick, nickSet := true);
    var t := SetClient(s, fd, d);
    var e := AfterIdentity(c, d, s.wire);
    SessionThere(s, fd);
    IdentityOk(c, d, s.wire);
    SetClientTwice(s, fd, d, e);
    RenameSound(s, fd, e);
    if c.Registered() && c.nickname != nick {
      BroadcastNickSound(t, fd, c.nickname, nick);
      SoundTransitive(s, t, BroadcastNick(t, fd, c.nickname, nick), fd);
    }
  }

  lemma NickSound(s: Core, fd: int, params: seq<string>)
    requires Inv(s) && fd in s.clients && s.clients[fd].passOk
    ensures Sound(s, Nick(s, fd, params), fd)
  {
    var c := s.clients[fd];
    if params == [] || params[0] == "" {
      SendSound(s, fd, Numeric(431, ["*"]));
    } else if !ValidNickname(params[0]) {
      SendSound(s, fd, Numeric(432, [c.Shown(), params[0]]));
    } else {
      var owner := FindClientByNick(s, params[0]);
      if owner.Some? && owner.value != fd {
        SendSound(s, fd, Numeric(433, [c.Shown(), params[0]]));
      } else {
        TakeNickSound(s, fd, params[0]);
      }
    }
  }

  // --------------------------------------------------------------------- JOIN

  /** Members of a channel are connected: talking to them dereferences nothing stale. */
  lemma MembersConnected(s: Core, name: string)
    requires ChannelsOk(s) && name in s.channels
    ensures forall i :: 0 <= i < |s.channels[name].members| ==> s.channels[name].members[i] in s.clients
  {
    assert EntryOk(s, name, s.channels[name]);
    var members := s.channels[name].members;
    forall i | 0 <= i < |members| ensures members[i] in s.clients {
      var x := members[i];
      assert x in members;
    }
  }

  /** A channel broadcast, then the same line to one client. */
  lemma BroadcastAndTell(s: Core, name: string, except: Option<int>, fd: int, r: Reply)
    requires ChannelsOk(s) && name in s.channels && fd in s.clients && !r.Welcome?
    ensures OutputOnly(s, Send(Broadcast(s, s.channels[name].members, except, r), fd, r))
  {
    var members := s.channels[name].members;
    MembersConnected(s, name);
    BroadcastQuiet(s, members, except, r);
    var t := Broadcast(s, members, except, r);
    SendQuiet(t, fd, r);
    QuietTransitive(s, t, Send(t, fd, r));
  }

  lemma TellMore(s: Core, t: Core, fd: int, r: Reply)
    requires OutputOnly(s, t) && fd in s.clients && !r.Welcome?
    ensures OutputOnly(s, Send(t, fd, r))
  {
    SendQuiet(t, fd, r);
    QuietTransitive(s, t, Send(t, fd, r));
  }

  lemma AnnounceArrivalQuiet(s: Core, fd: int, name: string, isNew: bool)
    requires ChannelsOk(s) && fd in s.clients && name in s.channels
    ensures OutputOnly(s, AnnounceArrival(s, fd, name, isNew))
  {
    var c, ch := s.clients[fd], s.channels[name];
    var joined := Joined(c.nickname, c.username, name);
    var s1 := Send(Broadcast(s, ch.members, Some(fd), joined), fd, joined);
    BroadcastAndTell(s, name, Some(fd), fd, joined);
    var s2 := if isNew then Send(s1, fd, FreshModes(name)) else s1;
    if isNew { TellMore(s, s1, fd, FreshModes(name)); }
    if ch.topic != "" { TellMore(s, s2, fd, TopicIs(c.nickname, name, ch.topic)); }
  }

  lemma AnnounceJoinQuiet(s: Core, fd: int, name: string, isNew: bool)
    requires ChannelsOk(s) && fd in s.clients && name in s.channels
    ensures OutputOnly(s, AnnounceJoin(s, fd, name, isNew))
  {
    var t := AnnounceArrival(s, fd, name, isNew);
    AnnounceArrivalQuiet(s, fd, name, isNew);
    var nick, ch := t.clients[fd].nickname, t.channels[name];
    var list := NamesAre(nick, name, NamesList(t, ch, ch.members));
    TellMore(s, t, fd, list);
    TellMore(s, Send(t, fd, list), fd, Numeric(366, [nick, name]));
  }

  lemma FoundedOk(s: Core, name: string, fd: int)
    requires Inv(s) && fd in s.clients && s.clients[fd].Registered()
    requires name !in s.channels && ValidChannelName(name) && Clean(name)
    ensures Sound(s, Found(s, fd, name), fd) && Quiet(s, Found(s, fd, name))
  {
    var ch := Founded(name, s.nextSerial, fd);
    assert ch.members == [fd] && ch.operators == [fd];
    var t := Found(s, fd, name);
    assert t.channels == s.channels[name := ch];
    SameClientsQuiet(s, t);
    forall n | n in t.channels ensures EntryOk(s, n, t.channels[n]) || EntryOk(t, n, t.channels[n]) {
      if n == name {
        forall y ensures Admitted(ch, y) {}
        assert ChannelOk(ch, t.clients.Keys);
        assert EntryOk(t, name, ch);
      } else {
        assert EntryOk(s, n, s.channels[n]);
      }
    }
    QuietInv(s, t);
    QuietAged(s, t);
    forall n | n in t.channels ensures AuthorityAt(s, t, fd, n) {
      assert n != name ==> t.channels[n] == s.channels[n];
    }
  }

  lemma AdmitEntry(s: Core, fd: int, name: string, ch: Channel, key: string)
    requires EntryOk(s, name, ch) && fd in s.clients && s.clients[fd].Registered()
    requires fd !in ch.members && Refusal(ch, fd, key).None?
    ensures EntryOk(s, name, Admit(ch, fd))
  {
    AdmitOk(ch, fd, key, s.clients.Keys);
    assert forall x :: x in Admit(ch, fd).members ==> x in ch.members || x == fd;
  }

  lemma AdmitSound(s: Core, fd: int, name: string, key: string)
    requires Inv(s) && fd in s.clients && s.clients[fd].Registered()
    requires name in s.channels && fd !in s.channels[name].members && Refusal(s.channels[name], fd, key).None?
    ensures
      var t := SetChannel(s, name, Admit(s.channels[name], fd));
      Sound(s, t, fd) && Quiet(s, t)
  {
    AdmitEntry(s, fd, name, s.channels[name], key);
    SetChannelSound(s, name, Admit(s.channels[name], fd), fd);
  }

  lemma AnnouncedSound(s: Core, t: Core, fd: int, name: string, isNew: bool)
    requires Sound(s, t, fd) && fd in s.clients && name in t.channels
    ensures Sound(s, AnnounceJoin(t, fd, name, isNew), fd)
  {
    AnnounceJoinQuiet(t, fd, name, isNew);
    OutputSound(t, AnnounceJoin(t, fd, name, isNew), fd);
    SoundTransitive(s, t, AnnounceJoin(t, fd, name, isNew), fd);
  }

  lemma JoinOneSound(s: Core, fd: int, name: string, key: string)
    requires Inv(s) && fd in s.clients && s.clients[fd].Registered() && Clean(name)
    ensures Sound(s, JoinOne(s, fd, name, key), fd)
  {
    var nick := s.clients[fd].nickname;
    if !ValidChannelName(name) {
      SendSound(s, fd, Numeric(403, [nick, name]));
    } else if name !in s.channels {
      FoundedOk(s, name, fd);
      AnnouncedSound(s, Found(s, fd, name), fd, name, true);
    } else if fd in s.channels[name].members {
      NothingSound(s, fd);
    } else {
      var refusal := Refusal(s.channels[name], fd, key);
      if refusal.Some? {
        SendSound(s, fd, Numeric(refusal.value, [nick, name]));
      } else {
        AdmitSound(s, fd, name, key);
        AnnouncedSound(s, SetChannel(s, name, Admit(s.channels[name], fd)), fd, name, false);
      }
    }
  }

  lemma {:induction false} JoinListSound(s: Core, fd: int, names: seq<string>, keys: seq<string>)
    requires Inv(s) && fd in s.clients && s.clients[fd].Registered()
    requires forall i :: 0 <= i < |names| ==> Clean(names[i])
    ensures Sound(s, JoinList(s, fd, names, keys), fd)
    decreases |names|
  {
    if names == [] {
      NothingSound(s, fd);
    } else {
      var key := if keys == [] then "" else keys[0];
      var rest := if keys == [] then [] else keys[1..];
      var t := JoinOne(s, fd, names[0], key);
      JoinOneSound(s, fd, names[0], key);
      JoinListSound(t, fd, names[1..], rest);
      SoundTransitive(s, t, JoinList(t, fd, names[1..], rest), fd);
    }
  }

  /** Dropping a channel object frees nothing anyone else refers to. */
  lemma RemoveChannelSound(s: Core, name: string, fd: int)
    requires Inv(s)
    ensures Sound(s, RemoveChannel(s, name), fd)
  {
    var t := RemoveChannel(s, name);
    SameClientsQuiet(s, t);
    QuietAged(s, t);
    forall n | n in t.channels ensures EntryOk(s, n, t.channels[n]) {
      assert EntryOk(s, n, s.channels[n]);
    }
    QuietInv(s, t);
    forall n | n in t.channels ensures AuthorityAt(s, t, fd, n) {}
  }

  /** A membership removed, after some talking. */
  lemma RemoveMemberSound(s: Core, t: Core, fd: int, name: string, x: int)
    requires Inv(s) && OutputOnly(s, t) && name in s.channels
    ensures Sound(s, SetChannel(t, name, s.channels[name].RemoveMember(x)), fd)
  {
    var ch := s.channels[name];
    var left := ch.RemoveMember(x);
    OutputSound(s, t, fd);
    assert EntryOk(t, name, ch);
    RemoveMemberOk(ch, x, t.clients.Keys);
    EraseElements(ch.members, x);
    EraseElements(ch.operators, x);
    SetChannelSound(t, name, left, fd);
    SoundTransitive(s, t, SetChannel(t, name, left), fd);
  }

  lemma LeaveOneSound(s: Core, fd: int, name: string)
    requires Inv(s) && fd in s.clients && name in s.channels
    ensures Sound(s, LeaveOne(s, fd, name), fd)
  {
    var ch := s.channels[name];
    assert EntryOk(s, name, ch);
    if fd !in ch.members {
      NothingSound(s, fd);
    } else {
      var parted := Parted(s.clients[fd].nickname, s.clients[fd].username, ch.name);
      var t := Send(Broadcast(s, ch.members, Some(fd), parted), fd, parted);
      BroadcastAndTell(s, name, Some(fd), fd, parted);
      OutputSound(s, t, fd);
      if |ch.RemoveMember(fd).members| == 0 {
        RemoveChannelSound(t, name, fd);
        SoundTransitive(s, t, RemoveChannel(t, name), fd);
      } else {
        RemoveMemberSound(s, t, fd, name, fd);
      }
    }
  }

  /** One visit touches no other entry of the map. */
  lemma LeaveOneLocal(s: Core, fd: int, name: string)
    requires ChannelsOk(s) && fd in s.clients && name in s.channels
    ensures
      var t := LeaveOne(s, fd, name);
      var ch := s.channels[name];
      t.clients.Keys == s.clients.Keys
      && t.channels == if fd !in ch.members then s.channels
                       else if |ch.RemoveMember(fd).members| == 0 then s.channels - {name}
                       else s.channels[name := ch.RemoveMember(fd)]
  {
    var ch := s.channels[name];
    assert EntryOk(s, name, ch);
    if fd in ch.members {
      BroadcastAndTell(s, name, Some(fd), fd, Parted(s.clients[fd].nickname, s.clients[fd].username, ch.name));
    }
  }

  /** The snapshot loop: entries not visited yet are still there, so no deleted channel is revisited. */
  lemma {:induction false} LeaveEachSound(s: Core, fd: int, snapshot: seq<string>)
    requires Inv(s) && fd in s.clients && NoDup(snapshot)
    requires forall i :: 0 <= i < |snapshot| ==> snapshot[i] in s.channels
    ensures Sound(s, LeaveEach(s, fd, snapshot), fd)
    decreases |snapshot|
  {
    if snapshot == [] {
      NothingSound(s, fd);
    } else {
      var t := LeaveOne(s, fd, snapshot[0]);
      LeaveOneSound(s, fd, snapshot[0]);
      LeaveOneLocal(s, fd, snapshot[0]);
      LeaveEachSound(t, fd, snapshot[1..]);
      SoundTransitive(s, t, LeaveEach(t, fd, snapshot[1..]), fd);
    }
  }

  lemma SnapshotPresent(s: Core)
    ensures NoDup(Names(s.channels.Keys))
    ensures forall i :: 0 <= i < |Names(s.channels.Keys)| ==> Names(s.channels.Keys)[i] in s.channels
  {
    var names := Names(s.channels.Keys);
    forall i | 0 <= i < |names| ensures names[i] in s.channels {
      assert names[i] in names;
    }
  }

  lemma TokensClean(text: string)
    requires Clean(text)
    ensures forall i :: 0 <= i < |Tokens(text, COMMA)| ==> Clean(Tokens(text, COMMA)[i])
  {
    var ts := Tokens(text, COMMA);
    forall i, k | 0 <= i < |ts| && 0 <= k < |ts[i]| ensures ts[i][k] !in FORBIDDEN {
      TokensChars(text, COMMA, ts[i], ts[i][k]);
    }
  }

  lemma JoinSound(s: Core, fd: int, params: seq<string>)
    requires Inv(s) && fd in s.clients && s.clients[fd].Registered()
    requires params != [] ==> Clean(params[0])
    ensures Sound(s, Join(s, fd, params), fd)
  {
    if params == [] {
      SendSound(s, fd, Numeric(461, [s.clients[fd].nickname, "JOIN"]));
    } else if params[0] == "0" {
      SnapshotPresent(s);
      LeaveEachSound(s, fd, Names(s.channels.Keys));
    } else {
      TokensClean(params[0]);
      JoinListSound(s, fd, Tokens(params[0], COMMA), if |params| > 1 then Tokens(params[1], COMMA) else []);
    }
  }

  // --------------------------------------------------------------------- KICK

  lemma KickOneSound(s: Core, fd: int, name: string, nick: string, reason: string)
    requires Inv(s) && fd in s.clients
    ensures Sound(s, KickOne(s, fd, name, nick, reason), fd)
  {
    var c := s.clients[fd];
    if name !in s.channels {
      SendSound(s, fd, Numeric(403, [c.nickname, name]));
    } else {
      var ch := s.channels[name];
      if fd !in ch.members {
        SendSound(s, fd, Numeric(442, [c.nickname, name]));
      } else if fd !in ch.operators {
        SendSound(s, fd, Numeric(482, [c.nickname, name]));
      } else {
        var target := FindClientByNick(s, nick);
        if target.None? || target.value !in ch.members {
          SendSound(s, fd, Numeric(441, [c.nickname, nick, name]));
        } else {
          var kicked := Kicked(c.nickname, c.username, name, nick, reason);
          BroadcastAndTell(s, name, Some(fd), fd, kicked);
          RemoveMemberSound(s, Send(Broadcast(s, ch.members, Some(fd), kicked), fd, kicked), fd, name, target.value);
        }
      }
    }
  }

  lemma {:induction false} KickEachSound(s: Core, fd: int, names: seq<string>, nicks: seq<string>, i: nat, reason: string)
    requires Inv(s) && fd in s.clients
    requires |names| == 1 || |names| == |nicks|
    ensures Sound(s, KickEach(s, fd, names, nicks, i, reason), fd)
    decreases |nicks| - i
  {
    if i >= |nicks| {
      NothingSound(s, fd);
    } else {
      var name := if |names| == 1 then names[0] else names[i];
      var t := KickOne(s, fd, name, nicks[i], reason);
      KickOneSound(s, fd, name, nicks[i], reason);
      KickEachSound(t, fd, names, nicks, i + 1, reason);
      SoundTransitive(s, t, KickEach(t, fd, names, nicks, i + 1, reason), fd);
    }
  }

  lemma KickSound(s: Core, fd: int, params: seq<string>)
    requires Inv(s) && fd in s.clients
    ensures Sound(s, Kick(s, fd, params), fd)
  {
    if |params| < 2 {
      SendSound(s, fd, Numeric(461, [s.clients[fd].nickname, "KICK"]));
    } else {
      var names := Tokens(params[0], COMMA);
      var nicks := Tokens(params[1], COMMA);
      if |names| != 1 && |names| != |nicks| {
        SendSound(s, fd, Numeric(461, [s.clients[fd].nickname, "KICK"]));
      } else {
        KickEachSound(s, fd, names, nicks, 0, if |params| > 2 then params[2] else "No reason given");
      }
    }
  }

  // ---------------------------------------------------- INVITE, TOPIC, PRIVMSG

  lemma InvitedSound(s: Core, fd: int, name: string, target: int)
    requires Inv(s) && name in s.channels && target in s.clients && target !in s.channels[name].members
    ensures Sound(s, SetChannel(s, name, s.channels[name].AddInvited(target)), fd)
  {
    var ch := s.channels[name];
    assert EntryOk(s, name, ch);
    AddInvitedOk(ch, target, s.clients.Keys);
    SetChannelSound(s, name, ch.AddInvited(target), fd);
  }

  lemma InviteSound(s: Core, fd: int, params: seq<string>)
    requires Inv(s) && fd in s.clients
    ensures Sound(s, Invite(s, fd, params), fd)
  {
    var c := s.clients[fd];
    if |params| < 2 {
      SendSound(s, fd, Numeric(461, [c.nickname, "INVITE"]));
    } else {
      var nick, name := params[0], params[1];
      var target := FindClientByNick(s, nick);
      FindLive(s, nick);
      if target.None? {
        SendSound(s, fd, Numeric(401, [c.nickname, nick]));
      } else if name !in s.channels {
        SendSound(s, fd, Numeric(403, [c.nickname, name]));
      } else {
        var ch := s.channels[name];
        if fd !in ch.members {
          SendSound(s, fd, Numeric(442, [c.nickname, name]));
        } else if target.value in ch.members {
          SendSound(s, fd, Numeric(443, [c.nickname, nick, name]));
        } else if ch.inviteOnly && fd !in ch.operators {
          SendSound(s, fd, Numeric(482, [c.nickname, name]));
        } else {
          var s1 := SetChannel(s, name, ch.AddInvited(target.value));
          var r2, r3 := Inviting(c.nickname, nick, name), Invited(c.nickname, c.username, nick, name);
          InvitedSound(s, fd, name, target.value);
          SendSound(s1, fd, r2);
          SendQuiet(Send(s1, fd, r2), target.value, r3);
          OutputSound(Send(s1, fd, r2), Send(Send(s1, fd, r2), target.value, r3), fd);
          SoundTransitive(s, s1, Send(s1, fd, r2), fd);
          SoundTransitive(s, Send(s1, fd, r2), Send(Send(s1, fd, r2), target.value, r3), fd);
        }
      }
    }
  }

  lemma NewTopicSound(s: Core, fd: int, name: string, topic: string)
    requires Inv(s) && name in s.channels
    ensures Sound(s, SetChannel(s, name, s.channels[name].(topic := topic)), fd)
  {
    var ch := s.channels[name];
    assert EntryOk(s, name, ch);
    SameListsOk(ch, ch.(topic := topic), s.clients.Keys);
    SetChannelSound(s, name, ch.(topic := topic), fd);
  }

  lemma TopicSound(s: Core, fd: int, params: seq<string>)
    requires Inv(s) && fd in s.clients
    ensures Sound(s, Topic(s, fd, params), fd)
  {
    var c := s.clients[fd];
    if params == [] {
      SendSound(s, fd, Numeric(461, [c.nickname, "TOPIC"]));
    } else if params[0] !in s.channels {
      SendSound(s, fd, Numeric(403, [c.nickname, params[0]]));
    } else {
      var name := params[0];
      var ch := s.channels[name];
      if fd !in ch.members {
        SendSound(s, fd, Numeric(442, [c.nickname, name]));
      } else if |params| == 1 {
        if ch.topic == "" {
          SendSound(s, fd, Numeric(331, [c.nickname, name]));
        } else {
          SendSound(s, fd, TopicIs(c.nickname, name, ch.topic));
        }
      } else if ch.topicRestricted && fd !in ch.operators {
        SendSound(s, fd, Numeric(482, [c.nickname, name]));
      } else {
        var said := TopicSet(c.nickname, c.username, name, params[1]);
        var t := SetChannel(s, name, ch.(topic := params[1]));
        NewTopicSound(s, fd, name, params[1]);
        BroadcastAndTell(t, name, Some(fd), fd, said);
        OutputSound(t, Send(Broadcast(t, ch.members, Some(fd), said), fd, said), fd);
        SoundTransitive(s, t, Send(Broadcast(t, ch.members, Some(fd), said), fd, said), fd);
      }
    }
  }

  lemma SayOneSound(s: Core, fd: int, target: string, text: string)
    requires Inv(s) && fd in s.clients
    ensures Sound(s, SayOne(s, fd, target, text), fd)
  {
    var c := s.clients[fd];
    var said := Said(c.nickname, c.username, target, text);
    if IsChannelTarget(target) {
      if target !in s.channels {
        SendSound(s, fd, Numeric(401, [c.nickname, target]));
      } else if fd !in s.channels[target].members {
        SendSound(s, fd, Numeric(404, [c.nickname, target]));
      } else {
        MembersConnected(s, target);
        BroadcastQuiet(s, s.channels[target].members, Some(fd), said);
        OutputSound(s, Broadcast(s, s.channels[target].members, Some(fd), said), fd);
      }
    } else {
      FindLive(s, target);
      var peer := FindClientByNick(s, target);
      if peer.None? {
        SendSound(s, fd, Numeric(401, [c.nickname, target]));
      } else {
        SendQuiet(s, peer.value, said);
        OutputSound(s, Send(s, peer.value, said), fd);
      }
    }
  }

  lemma {:induction false} SayEachSound(s: Core, fd: int, targets: seq<string>, text: string)
    requires Inv(s) && fd in s.clients
    ensures Sound(s, SayEach(s, fd, targets, text), fd)
    decreases |targets|
  {
    if targets == [] {
      NothingSound(s, fd);
    } else {
      var t := SayOne(s, fd, targets[0], text);
      SayOneSound(s, fd, targets[0], text);
      SayEachSound(t, fd, targets[1..], text);
      SoundTransitive(s, t, SayEach(t, fd, targets[1..], text), fd);
    }
  }

  lemma PrivmsgSound(s: Core, fd: int, params: seq<string>)
    requires Inv(s) && fd in s.clients
    ensures Sound(s, Privmsg(s, fd, params), fd)
  {
    if params == [] {
      SendSound(s, fd, Numeric(411, [s.clients[fd].nickname]));
    } else if |params| < 2 {
      SendSound(s, fd, Numeric(412, [s.clients[fd].nickname]));
    } else {
      SayEachSound(s, fd, Tokens(params[0], COMMA), params[1]);
    }
  }
}
