/** The inductive invariant of the server, and the relations every command respects. */
module Invariant {
  import opened Text
  import opened Ordering
  import opened Replies
  import opened Clients
  import opened Channels
  import opened State
  import Commands
  import Modes

  const MAX_CLIENTS_PER_IP := 128
  const MAX_TOTAL_CLIENTS := 512

  /** Registration: flags follow PASS, the welcome is issued exactly when registration completes. */
  ghost predicate SessionOk(c: Client) {
    && (c.nickSet || c.userSet ==> c.passOk)
    && (c.nickSet <==> c.nickname != "") && (c.nickSet ==> Commands.ValidNickname(c.nickname))
    && (c.userSet ==> Commands.ValidUsername(c.username) && Free(c.username, BLANKS))
    && Welcomes(c.issued) == (if c.Registered() then 1 else 0)
    && c.failedPass <= MAX_FAILED_PASS && (c.failedPass == MAX_FAILED_PASS ==> !c.Active())
    && c.OutputOk()
  }

  ghost predicate SessionsOk(s: Core) {
    forall fd :: fd in s.clients ==> SessionOk(s.clients[fd])
  }

  /** Section 2.2 of RFC 2812: two live clients never share a casemapped nickname. */
  ghost predicate NicksOk(s: Core) {
    forall a, b :: a in s.clients && b in s.clients && a != b && !s.clients[a].dead && !s.clients[b].dead
      && s.clients[a].nickname != ""
      ==> Lower(s.clients[a].nickname) != Lower(s.clients[b].nickname)
  }

  /** A channel under its name: membership lists refer to connected, registered clients. */
  ghost predicate EntryOk(s: Core, name: string, ch: Channel) {
    && ch.name == name && Commands.ValidChannelName(name) && Clean(name)
    && ChannelOk(ch, s.clients.Keys)
    && (forall x :: x in ch.members ==> x in s.clients && s.clients[x].Registered())
    && Free(ch.key, Modes.KEY_STOPS) && ch.limit <= INT_MAX
    && ch.serial < s.nextSerial
  }

  ghost predicate ChannelsOk(s: Core) {
    forall name :: name in s.channels ==> EntryOk(s, name, s.channels[name])
  }

  function LiveFrom(s: Core, ip: string): set<int> {
    set fd | fd in s.clients && !s.clients[fd].dead && s.clients[fd].ip == ip
  }

  ghost predicate PollOk(s: Core) {
    && NoDup(s.pollFds)
    && s.listenFd !in s.clients
    && (forall fd :: fd in s.pollFds <==> fd == s.listenFd || fd in s.clients)
    && |s.clients| <= MAX_TOTAL_CLIENTS
    && (forall ip :: |LiveFrom(s, ip)| <= MAX_CLIENTS_PER_IP)
  }

  ghost predicate Inv(s: Core) {
    !s.fault && SessionsOk(s) && NicksOk(s) && ChannelsOk(s) && PollOk(s)
  }

  // ---------------------------------------------------------------- relations

  /** Everything but channels is as before, up to messages heard. */
  ghost predicate Quiet(s: Core, t: Core) {
    && t == s.(clients := t.clients, channels := t.channels, nextSerial := t.nextSerial)
    && t.clients.Keys == s.clients.Keys
    && forall fd :: fd in s.clients ==> Heard(s.clients[fd], t.clients[fd])
  }

  ghost predicate OutputOnly(s: Core, t: Core) {
    Quiet(s, t) && t.channels == s.channels && t.nextSerial == s.nextSerial
  }

  /** The same channel object: settings untouched and no operator added. */
  ghost predicate Kept(a: Channel, b: Channel) {
    b.Settings() == a.Settings() && forall x :: x in b.operators ==> x in a.operators
  }

  /** `fd` gained nothing it had no authority for: a channel object is new, or it is an old one whose
      settings and operator set `fd` could change only as one of its operators. */
  ghost predicate AuthorityAt(s: Core, t: Core, fd: int, name: string)
    requires name in t.channels
  {
    var b := t.channels[name];
    b.serial >= s.nextSerial
    || (name in s.channels && s.channels[name].serial == b.serial
        && (fd !in s.channels[name].operators ==> Kept(s.channels[name], b)))
  }

  ghost predicate Authority(s: Core, t: Core, fd: int) {
    s.nextSerial <= t.nextSerial && forall name :: name in t.channels ==> AuthorityAt(s, t, fd, name)
  }

  lemma AuthorityTransitive(s: Core, t: Core, u: Core, fd: int)
    requires Authority(s, t, fd) && Authority(t, u, fd)
    ensures Authority(s, u, fd)
  {
    forall name | name in u.channels ensures AuthorityAt(s, u, fd, name) {
      assert AuthorityAt(t, u, fd, name);
      if u.channels[name].serial < t.nextSerial {
        assert AuthorityAt(s, t, fd, name);
      }
    }
  }

  lemma AuthorityReflexive(s: Core, t: Core, fd: int)
    requires t.channels == s.channels && t.nextSerial == s.nextSerial
    ensures Authority(s, t, fd)
  {
    forall name | name in t.channels ensures AuthorityAt(s, t, fd, name) {}
  }

  /** Every client but `fd` has at most heard something. */
  ghost predicate Bystanders(s: Core, t: Core, fd: int)
    requires s.clients.Keys == t.clients.Keys
  {
    forall x :: x in s.clients && x != fd ==> Heard(s.clients[x], t.clients[x])
  }

  /** What every change by client `fd` guarantees. */
  ghost predicate Orderly(s: Core, t: Core, fd: int) {
    Inv(t) && Authority(s, t, fd) && t.clients.Keys == s.clients.Keys && Aged(s, t) && Bystanders(s, t, fd)
    && t.password == s.password && t.wire == s.wire && t.listenFd == s.listenFd
  }

  /** What a command of client `fd` guarantees: no byte leaves a queue in a command. */
  ghost predicate Sound(s: Core, t: Core, fd: int) {
    Orderly(s, t, fd) && forall x :: x in s.clients ==> t.clients[x].sent == s.clients[x].sent
  }

  /** Registration is never lost, a client that stopped being served never starts again, and an accepted
      password settles the password question. */
  ghost predicate Older(c: Client, d: Client) {
    (c.Registered() ==> d.Registered()) && (d.Active() ==> c.Active())
    && (c.passOk ==> d.passOk && d.failedPass == c.failedPass)
  }

  ghost predicate Aged(s: Core, t: Core)
    requires s.clients.Keys == t.clients.Keys
  {
    forall fd :: fd in s.clients ==> Older(s.clients[fd], t.clients[fd])
  }

  lemma SoundTransitive(s: Core, t: Core, u: Core, fd: int)
    requires Sound(s, t, fd) && Sound(t, u, fd)
    ensures Sound(s, u, fd)
  {
    AuthorityTransitive(s, t, u, fd);
    forall x | x in s.clients && x != fd ensures Heard(s.clients[x], u.clients[x]) {
      HeardTransitive(s.clients[x], t.clients[x], u.clients[x]);
    }
    forall x | x in s.clients ensures Older(s.clients[x], u.clients[x]) {
      assert Older(s.clients[x], t.clients[x]) && Older(t.clients[x], u.clients[x]);
    }
  }

  // ------------------------------------------------------------------ sending

  lemma QuietTransitive(s: Core, t: Core, u: Core)
    requires Quiet(s, t) && Quiet(t, u)
    ensures Quiet(s, u)
  {
    forall fd | fd in s.clients ensures Heard(s.clients[fd], u.clients[fd]) {
      HeardTransitive(s.clients[fd], t.clients[fd], u.clients[fd]);
    }
  }

  lemma HeardReflexive(c: Client)
    ensures Heard(c, c)
  {
  }

  lemma SetClientQuiet(s: Core, fd: int, d: Client)
    requires fd in s.clients && Heard(s.clients[fd], d)
    ensures OutputOnly(s, SetClient(s, fd, d))
  {
    var t := SetClient(s, fd, d);
    assert t.clients.Keys == s.clients.Keys;
    forall x | x in s.clients ensures Heard(s.clients[x], t.clients[x]) {
      HeardReflexive(s.clients[x]);
    }
  }

  lemma SendQuiet(s: Core, fd: int, r: Reply)
    requires fd in s.clients && !r.Welcome?
    ensures OutputOnly(s, Send(s, fd, r))
  {
    var d := s.clients[fd].SendMessage(r, s.wire);
    SendHeard(s.clients[fd], r, s.wire);
    SetClientQuiet(s, fd, d);
  }

  lemma SameClientsQuiet(s: Core, t: Core)
    requires t == s.(channels := t.channels, nextSerial := t.nextSerial)
    ensures Quiet(s, t)
  {
    forall x | x in s.clients ensures Heard(s.clients[x], t.clients[x]) {
      HeardReflexive(s.clients[x]);
    }
  }

  /** Broadcasting to connected clients changes nothing but their output. */
  lemma {:induction false} BroadcastQuiet(s: Core, members: seq<int>, except: Option<int>, r: Reply)
    requires !r.Welcome? && forall i :: 0 <= i < |members| ==> members[i] in s.clients
    ensures OutputOnly(s, Broadcast(s, members, except, r))
    decreases |members|
  {
    if members != [] {
      if except == Some(members[0]) {
        BroadcastQuiet(s, members[1..], except, r);
      } else {
        var t := Send(s, members[0], r);
        SendQuiet(s, members[0], r);
        BroadcastQuiet(t, members[1..], except, r);
        QuietTransitive(s, t, Broadcast(t, members[1..], except, r));
      }
    }
  }

  lemma {:induction false} SendEachQuiet(s: Core, fds: seq<int>, r: Reply)
    requires !r.Welcome? && forall i :: 0 <= i < |fds| ==> fds[i] in s.clients
    ensures OutputOnly(s, SendEach(s, fds, r))
    decreases |fds|
  {
    if fds != [] {
      var t := Send(s, fds[0], r);
      SendQuiet(s, fds[0], r);
      SendEachQuiet(t, fds[1..], r);
      QuietTransitive(s, t, SendEach(t, fds[1..], r));
    }
  }

  // ----------------------------------------------------- preservation by parts

  lemma QuietSessions(s: Core, t: Core)
    requires Quiet(s, t) && SessionsOk(s)
    ensures SessionsOk(t)
  {
    forall fd | fd in t.clients ensures SessionOk(t.clients[fd]) {
      assert SessionOk(s.clients[fd]) && Heard(s.clients[fd], t.clients[fd]);
    }
  }

  lemma QuietNicks(s: Core, t: Core)
    requires Quiet(s, t) && NicksOk(s)
    ensures NicksOk(t)
  {
    forall a, b | a in t.clients && b in t.clients && a != b && !t.clients[a].dead && !t.clients[b].dead && t.clients[a].nickname != ""
      ensures Lower(t.clients[a].nickname) != Lower(t.clients[b].nickname)
    {
      assert Heard(s.clients[a], t.clients[a]) && Heard(s.clients[b], t.clients[b]);
    }
  }

  lemma SubsetSize(a: set<int>, b: set<int>)
    requires a <= b
    ensures |a| <= |b|
  {
    assert b == a + (b - a);
  }

  /** Deaths only lower the per-address counts. */
  lemma QuietPoll(s: Core, t: Core)
    requires Quiet(s, t) && PollOk(s)
    ensures PollOk(t)
  {
    assert |t.clients| == |t.clients.Keys| == |s.clients|;
    forall ip ensures |LiveFrom(t, ip)| <= MAX_CLIENTS_PER_IP {
      forall fd | fd in LiveFrom(t, ip) ensures fd in LiveFrom(s, ip) {
        assert Heard(s.clients[fd], t.clients[fd]);
      }
      SubsetSize(LiveFrom(t, ip), LiveFrom(s, ip));
    }
  }

  lemma EntryCarries(s: Core, t: Core, name: string, ch: Channel)
    requires EntryOk(s, name, ch)
    requires t.clients.Keys == s.clients.Keys && s.nextSerial <= t.nextSerial
    requires Aged(s, t)
    ensures EntryOk(t, name, ch)
  {
    forall x | x in ch.members ensures x in t.clients && t.clients[x].Registered() {
      assert Older(s.clients[x], t.clients[x]);
    }
  }

  lemma QuietAged(s: Core, t: Core)
    requires Quiet(s, t)
    ensures Aged(s, t)
  {
    forall fd | fd in s.clients ensures Older(s.clients[fd], t.clients[fd]) {
      assert Heard(s.clients[fd], t.clients[fd]);
    }
  }

  /** A step that only talks, up to channels that are themselves in order, keeps the invariant. */
  lemma QuietInv(s: Core, t: Core)
    requires Inv(s) && Quiet(s, t) && s.nextSerial <= t.nextSerial
    requires forall name :: name in t.channels ==>
      EntryOk(s, name, t.channels[name]) || EntryOk(t, name, t.channels[name])
    ensures Inv(t)
  {
    QuietSessions(s, t);
    QuietNicks(s, t);
    QuietPoll(s, t);
    QuietAged(s, t);
    forall name | name in t.channels ensures EntryOk(t, name, t.channels[name]) {
      if EntryOk(s, name, t.channels[name]) {
        EntryCarries(s, t, name, t.channels[name]);
      }
    }
  }

  lemma OutputSound(s: Core, t: Core, fd: int)
    requires Inv(s) && OutputOnly(s, t)
    ensures Sound(s, t, fd)
  {
    QuietInv(s, t);
    QuietAged(s, t);
    AuthorityReflexive(s, t, fd);
  }

  lemma NothingSound(s: Core, fd: int)
    requires Inv(s)
    ensures Sound(s, s, fd)
  {
    AuthorityReflexive(s, s, fd);
  }

  lemma SendSound(s: Core, fd: int, r: Reply)
    requires Inv(s) && fd in s.clients && !r.Welcome?
    ensures Sound(s, Send(s, fd, r), fd)
    ensures OutputOnly(s, Send(s, fd, r))
  {
    SendQuiet(s, fd, r);
    OutputSound(s, Send(s, fd, r), fd);
  }

  lemma SetChannelAuthority(s: Core, name: string, ch: Channel, fd: int)
    requires name in s.channels && ch.serial == s.channels[name].serial
    requires fd !in s.channels[name].operators ==> Kept(s.channels[name], ch)
    ensures Authority(s, SetChannel(s, name, ch), fd)
  {
    var t := SetChannel(s, name, ch);
    forall n | n in t.channels ensures AuthorityAt(s, t, fd, n) {
      assert n != name ==> t.channels[n] == s.channels[n];
    }
  }

  lemma SetChannelInv(s: Core, name: string, ch: Channel)
    requires Inv(s) && EntryOk(s, name, ch)
    ensures Inv(SetChannel(s, name, ch)) && Quiet(s, SetChannel(s, name, ch))
  {
    var t := SetChannel(s, name, ch);
    SameClientsQuiet(s, t);
    forall n | n in t.channels ensures EntryOk(s, n, t.channels[n]) {
      if n != name { assert EntryOk(s, n, s.channels[n]); }
    }
    QuietInv(s, t);
  }

  /** Replacing one channel by another that is in order. */
  lemma SetChannelSound(s: Core, name: string, ch: Channel, fd: int)
    requires Inv(s) && name in s.channels && EntryOk(s, name, ch)
    requires ch.serial == s.channels[name].serial
    requires fd !in s.channels[name].operators ==> Kept(s.channels[name], ch)
    ensures Sound(s, SetChannel(s, name, ch), fd)
    ensures Quiet(s, SetChannel(s, name, ch))
  {
    SetChannelInv(s, name, ch);
    QuietAged(s, SetChannel(s, name, ch));
    SetChannelAuthority(s, name, ch, fd);
  }

  // ------------------------------------------------------------------- lookup

  lemma {:induction false} FirstMatchIs(s: Core, fds: seq<int>, wanted: string)
    ensures FirstMatch(s, fds, wanted).Some? ==>
      var x := FirstMatch(s, fds, wanted).value;
      x in fds && x in s.clients && !s.clients[x].dead && Lower(s.clients[x].nickname) == wanted
    ensures FirstMatch(s, fds, wanted).None? ==>
      forall x :: x in fds && x in s.clients && !s.clients[x].dead ==> Lower(s.clients[x].nickname) != wanted
    decreases |fds|
  {
    if fds != [] {
      assert fds == [fds[0]] + fds[1..];
      FirstMatchIs(s, fds[1..], wanted);
    }
  }

  /** The first-match scan returns the only match, whatever the map order: it finds `x` exactly when
      `x` is the live client whose casemapped nickname is the one asked for. */
  lemma FindIsUnique(s: Core, nick: string, x: int)
    requires NicksOk(s) && nick != ""
    ensures FindClientByNick(s, nick) == Some(x) <==>
      x in s.clients && !s.clients[x].dead && Lower(s.clients[x].nickname) == Lower(nick)
  {
    var fds := Fds(s.clients.Keys);
    FirstMatchIs(s, fds, Lower(nick));
    if x in s.clients && !s.clients[x].dead && Lower(s.clients[x].nickname) == Lower(nick) {
      assert x in fds;
      var y := FirstMatch(s, fds, Lower(nick)).value;
      assert |Lower(s.clients[x].nickname)| == |nick|;
      assert s.clients[x].nickname != "";
    }
  }

  /** `x` is the live client called `nick`, up to casemapping. */
  predicate Called(s: Core, nick: string, x: int) {
    nick != "" && x in s.clients && !s.clients[x].dead && Lower(s.clients[x].nickname) == Lower(nick)
  }

  lemma FindIsCalled(s: Core, nick: string, x: int)
    requires NicksOk(s)
    ensures FindClientByNick(s, nick) == Some(x) <==> Called(s, nick, x)
  {
    hide NicksOk, Lower, FirstMatch;
    if nick != "" { FindIsUnique(s, nick, x); }
  }

  /** A lookup never finds someone who was not there before some deaths. */
  lemma FindBefore(s: Core, t: Core, nick: string)
    requires NicksOk(s) && Quiet(s, t)
    ensures FindClientByNick(t, nick).Some? ==> FindClientByNick(s, nick) == FindClientByNick(t, nick)
  {
    if nick != "" && FindClientByNick(t, nick).Some? {
      var x := FindClientByNick(t, nick).value;
      QuietNicks(s, t);
      FindIsUnique(t, nick, x);
      assert Heard(s.clients[x], t.clients[x]);
      FindIsUnique(s, nick, x);
    }
  }

  lemma FindLive(s: Core, nick: string)
    ensures FindClientByNick(s, nick).Some? ==>
      FindClientByNick(s, nick).value in s.clients && !s.clients[FindClientByNick(s, nick).value].dead
  {
    FirstMatchIs(s, Fds(s.clients.Keys), Lower(nick));
  }
}
