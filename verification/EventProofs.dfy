/** Every step of the poll loop keeps the invariant; so every run does. */
module EventProofs {
  import opened Text
  import opened Ordering
  import opened Replies
  import opened Clients
  import opened Channels
  import opened State
  import opened Invariant
  import opened FanOut
  import opened CommandProofs
  import opened ModeProofs
  import opened EventLoop
  import Commands
  import Parsing

  // ----------------------------------------------------------------- commands

  lemma ExecuteSound(s: Core, fd: int, command: string, params: seq<string>)
    requires Inv(s) && Listening(s, fd)
    requires command != "PASS" ==> s.clients[fd].passOk
    requires command in GUARDED ==> s.clients[fd].Registered()
    requires params != [] ==> Clean(params[0])
    requires |params| >= 2 ==> Free(params[0], BLANKS)
    ensures Sound(s, Execute(s, fd, command, params), fd)
  {
    if command == "PASS" {
      PassSound(s, fd, params);
    } else if command == "NICK" {
      NickSound(s, fd, params);
    } else if command == "USER" {
      UserSound(s, fd, params);
    } else if command == "JOIN" {
      JoinSound(s, fd, params);
    } else if command == "PRIVMSG" {
      PrivmsgSound(s, fd, params);
    } else if command == "KICK" {
      KickSound(s, fd, params);
    } else if command == "INVITE" {
      InviteSound(s, fd, params);
    } else if command == "TOPIC" {
      TopicSound(s, fd, params);
    } else {
      ModeSound(s, fd, params);
    }
  }

  /** Dying, closing and draining keep a client in order. */
  lemma FateOk(c: Client, why: Reason, n: nat)
    requires SessionOk(c)
    ensures Successor(c, c.MarkDead(why)) && Successor(c, c.MarkClosing(why)) && Successor(c, c.ConsumeSendBuffer(n))
  {
    DyingOk(c, why);
    DrainingOk(c, n);
  }

  lemma DyingOk(c: Client, why: Reason)
    requires SessionOk(c)
    ensures Successor(c, c.MarkDead(why)) && Successor(c, c.MarkClosing(why))
  {
    hide Flatten, ValidOutbound, Welcomes, Commands.ValidNickname, Commands.ValidUsername;
    assert c.MarkDead(why).OutputOk() && c.MarkClosing(why).OutputOk();
  }

  lemma DrainingOk(c: Client, n: nat)
    requires SessionOk(c)
    ensures Successor(c, c.ConsumeSendBuffer(n))
  {
    hide Flatten, ValidOutbound, Welcomes, Commands.ValidNickname, Commands.ValidUsername;
    ConsumeKeepsOutput(c, n);
  }

  lemma DispatchSound(s: Core, fd: int, m: Parsing.Message)
    requires Inv(s) && Listening(s, fd)
    requires m.params != [] ==> Clean(m.params[0])
    requires |m.params| >= 2 ==> Free(m.params[0], BLANKS)
    ensures Sound(s, Dispatch(s, fd, m), fd)
  {
    var c := s.clients[fd];
    if m.command == "" {
      NothingSound(s, fd);
    } else if m.command == "CAP" {
      NothingSound(s, fd);
      SendSound(s, fd, CapList);
    } else if m.command == "PING" {
      SendSound(s, fd, Pong(if m.params == [] then "ft_irc" else m.params[0]));
    } else if m.command == "QUIT" {
      var why := UserQuit(if m.params == [] then "Client Quit" else m.params[0]);
      FateOk(c, why, 0);
      SetClientSound(s, fd, c.MarkClosing(why));
    } else if m.command !in {"PASS", "NICK", "USER"} + GUARDED {
      SendSound(s, fd, Numeric(421, [c.Shown(), m.command]));
    } else if m.command != "PASS" && !c.passOk {
      SendSound(s, fd, Numeric(451, ["*"]));
    } else if m.command in GUARDED && !c.Registered() {
      SendSound(s, fd, Numeric(451, [c.Shown()]));
    } else {
      ExecuteSound(s, fd, m.command, m.params);
    }
  }

  /** Lines that leave the framing layer hold no NUL, CR or LF. */
  lemma ExtractedClean(buffer: string)
    ensures Extract(buffer).Line? ==> Clean(Extract(buffer).line)
  {
  }

  lemma ProcessLineSound(s: Core, fd: int, line: string)
    requires Inv(s) && Listening(s, fd) && Clean(line)
    ensures Sound(s, ProcessLine(s, fd, line), fd)
  {
    Parsing.ParseClean(line);
    Parsing.FirstParamSolid(line);
    DispatchSound(s, fd, Parsing.Parse(line));
  }

  lemma SessionAt(s: Core, fd: int)
    requires Inv(s) && fd in s.clients
    ensures SessionOk(s.clients[fd])
  {
  }

  lemma KillSound(s: Core, fd: int, why: Reason)
    requires Inv(s) && fd in s.clients
    ensures Sound(s, Kill(s, fd, why), fd)
  {
    FateOk(s.clients[fd], why, 0);
    SetClientSound(s, fd, s.clients[fd].MarkDead(why));
  }

  lemma DrainEndSound(s: Core, fd: int, buffer: string)
    requires Inv(s) && fd in s.clients && !Extract(buffer).Line?
    ensures Sound(s, Drain(s, fd, buffer).core, fd)
  {
    NothingSound(s, fd);
    KillSound(s, fd, LineTooLong);
    KillSound(s, fd, ControlByte);
  }

  lemma {:induction false} DrainSound(s: Core, fd: int, buffer: string)
    requires Inv(s) && Listening(s, fd)
    ensures Sound(s, Drain(s, fd, buffer).core, fd)
    decreases |buffer|
  {
    var e := Extract(buffer);
    if e.Line? {
      var t := ProcessLine(s, fd, e.line);
      ExtractedClean(buffer);
      ProcessLineSound(s, fd, e.line);
      if Listening(t, fd) {
        DrainSound(t, fd, e.rest);
        SoundTransitive(s, t, Drain(t, fd, e.rest).core, fd);
      }
    } else {
      DrainEndSound(s, fd, buffer);
    }
  }

  lemma ReceiveSound(s: Core, fd: int, buffer: string, chunk: string)
    requires Inv(s) && fd in s.clients
    ensures Sound(s, Receive(s, fd, buffer, chunk).core, fd)
  {
    if !Listening(s, fd) {
      NothingSound(s, fd);
    } else if Append(buffer, chunk).1 {
      DrainSound(s, fd, buffer + chunk);
    } else {
      KillSound(s, fd, InputFlood);
    }
  }

  // ------------------------------------------------------------ receive bound

  /** What a client that is still served can have buffered between reads. */
  ghost predicate InboxOk(buffer: string) { |buffer| < RECV_CHUNK && '\n' !in buffer }

  /** A drained buffer is what followed the last newline. */
  lemma {:induction false} DrainResidue(s: Core, fd: int, buffer: string)
    requires Inv(s) && Listening(s, fd)
    ensures
      var d := Drain(s, fd, buffer);
      fd in d.core.clients && (Listening(d.core, fd) ==>
        '\n' !in d.buffer
        && if '\n' in buffer then |d.buffer| < |buffer| - IndexOf(buffer, '\n') else d.buffer == buffer)
    decreases |buffer|
  {
    hide Inv, ProcessLine, Authority, Aged;
    match Extract(buffer)
    case Line(line, rest) =>
      var t := ProcessLine(s, fd, line);
      ExtractedClean(buffer);
      ProcessLineSound(s, fd, line);
      if Listening(t, fd) { DrainResidue(t, fd, rest); }
    case _ =>
  }

  /** The 8192-byte capacity is never what rejects a chunk, and what stays buffered fits the bound. */
  lemma ReceiveBound(s: Core, fd: int, buffer: string, chunk: string)
    requires Inv(s) && Listening(s, fd) && InboxOk(buffer) && 1 <= |chunk| <= RECV_CHUNK
    ensures |buffer| + |chunk| <= MAX_RECV_BUFFER
    ensures
      var d := Receive(s, fd, buffer, chunk);
      fd in d.core.clients && (Listening(d.core, fd) ==> InboxOk(d.buffer))
  {
    var all := buffer + chunk;
    if Append(buffer, chunk).1 {
      DrainResidue(s, fd, all);
      IndexOfAppend(buffer, '\n', chunk);
    }
  }

  /** A residue of 512 bytes or more is fatal: the next non-empty read hands over no line and kills. */
  lemma LargeResidueFatal(s: Core, fd: int, buffer: string, chunk: string)
    requires Listening(s, fd) && InboxOk(buffer) && |buffer| >= MAX_MESSAGE && 1 <= |chunk| <= RECV_CHUNK
    ensures
      var d := Receive(s, fd, buffer, chunk);
      d.lines == [] && (d.core == Kill(s, fd, InputFlood) || d.core == Kill(s, fd, LineTooLong))
  {
    var all := buffer + chunk;
    IndexOfAppend(buffer, '\n', chunk);
  }

  // --------------------------------------------------------------- connecting

  lemma NewClientOk(ip: string)
    ensures SessionOk(NewClient(ip))
  {
  }

  lemma AcceptChannels(s: Core, t: Core, fd: int, c: Client)
    requires ChannelsOk(s) && fd !in s.clients
    requires t.clients == s.clients[fd := c] && t.channels == s.channels && t.nextSerial == s.nextSerial
    ensures ChannelsOk(t)
  {
    forall name | name in t.channels ensures EntryOk(t, name, t.channels[name]) {
      EntryGrows(s, t, name, t.channels[name]);
    }
  }

  /** Accepting adds a client nobody refers to yet. */
  lemma AcceptInv(s: Core, fd: int, ip: string)
    requires Inv(s) && fd !in s.clients && fd != s.listenFd
    requires |s.clients| < MAX_TOTAL_CLIENTS && |LiveFrom(s, ip)| < MAX_CLIENTS_PER_IP
    ensures Inv(SetClient(s, fd, NewClient(ip)).(pollFds := s.pollFds + [fd]))
  {
    var t := SetClient(s, fd, NewClient(ip)).(pollFds := s.pollFds + [fd]);
    NewClientOk(ip);
    AcceptPoll(s, fd, ip);
    AcceptChannels(s, t, fd, NewClient(ip));
    assert SessionsOk(t) && NicksOk(t);
  }

  lemma EntryGrows(s: Core, t: Core, name: string, ch: Channel)
    requires EntryOk(s, name, ch) && t.nextSerial == s.nextSerial
    requires s.clients.Keys <= t.clients.Keys && forall fd :: fd in s.clients ==> t.clients[fd] == s.clients[fd]
    ensures EntryOk(t, name, ch)
  {
  }

  lemma AcceptLive(s: Core, t: Core, fd: int, ip: string, address: string)
    requires fd !in s.clients && t.clients == s.clients[fd := NewClient(ip)]
    ensures |LiveFrom(t, address)| <= |LiveFrom(s, address)| + if address == ip then 1 else 0
  {
    if address == ip {
      assert LiveFrom(t, ip) == LiveFrom(s, ip) + {fd};
    } else {
      SubsetSize(LiveFrom(t, address), LiveFrom(s, address));
    }
  }

  lemma AcceptPoll(s: Core, fd: int, ip: string)
    requires PollOk(s) && fd !in s.clients && fd != s.listenFd
    requires |s.clients| < MAX_TOTAL_CLIENTS && |LiveFrom(s, ip)| < MAX_CLIENTS_PER_IP
    ensures PollOk(SetClient(s, fd, NewClient(ip)).(pollFds := s.pollFds + [fd]))
  {
    var t := SetClient(s, fd, NewClient(ip)).(pollFds := s.pollFds + [fd]);
    assert |t.clients| == |t.clients.Keys| && t.clients.Keys == s.clients.Keys + {fd};
    forall address ensures |LiveFrom(t, address)| <= MAX_CLIENTS_PER_IP {
      AcceptLive(s, t, fd, ip, address);
    }
  }

  /** No list of any channel mentions `fd`. */
  ghost predicate Unmentioned(s: Core, fd: int) {
    forall name :: name in s.channels ==>
      var ch := s.channels[name];
      fd !in ch.members && fd !in ch.operators && fd !in ch.invited && fd !in ch.invitations && fd !in ch.guardedJoins
  }

  /** A connection on a reused descriptor inherits nothing: no membership, operator status or
      invitation, no buffered input or output, no registration. */
  lemma AcceptInheritsNothing(v: Server, fd: int, ip: string)
    requires ServerOk(v) && Possible(v, Accept(fd, ip))
    ensures
      var w := AcceptClient(v, fd, ip);
      Unmentioned(w.core, fd) && w.core.channels == v.core.channels
      && (fd in w.core.clients ==> w.core.clients[fd] == NewClient(ip) && w.inbox[fd] == "")
  {
    forall name | name in v.core.channels
      ensures var ch := v.core.channels[name];
        fd !in ch.members && fd !in ch.operators && fd !in ch.invited && fd !in ch.invitations && fd !in ch.guardedJoins
    {
      assert EntryOk(v.core, name, v.core.channels[name]);
    }
  }

  // ------------------------------------------------------------ disconnecting

  lemma ForgetEntry(s: Core, t: Core, fd: int, name: string, ch: Channel)
    requires EntryOk(s, name, ch) && t.nextSerial == s.nextSerial && t.clients.Keys == s.clients.Keys - {fd}
    requires forall x :: x in t.clients && s.clients[x].Registered() ==> t.clients[x].Registered()
    ensures EntryOk(t, name, ch.Forget(fd))
  {
    ForgetOk(ch, fd, s.clients.Keys);
    EraseElements(ch.members, fd);
  }

  /** Everything but the clients' output stays, minus one client and every reference to it. */
  ghost predicate Removed(s: Core, t: Core, fd: int) {
    && t == s.(clients := t.clients, channels := t.channels, pollFds := Erase(s.pollFds, fd))
    && t.clients.Keys == s.clients.Keys - {fd}
    && (forall x :: x in t.clients ==> Heard(s.clients[x], t.clients[x]))
    && t.channels == ForgetAll(s.channels, fd)
  }

  lemma RecipientsConnected(s: Core, fd: int)
    requires ChannelsOk(s)
    ensures NoDup(QuitRecipients(s, fd))
    ensures forall i :: 0 <= i < |QuitRecipients(s, fd)| ==> QuitRecipients(s, fd)[i] in s.clients
  {
    QuitRecipientsExact(s, fd);
    var fds := QuitRecipients(s, fd);
    forall i | 0 <= i < |fds| ensures fds[i] in s.clients {
      var x := fds[i];
      assert x in fds;
      var name :| name in s.channels && fd in s.channels[name].members && x in s.channels[name].members;
      assert EntryOk(s, name, s.channels[name]);
    }
  }

  lemma ForgetRemoves(s: Core, t: Core, fd: int)
    requires OutputOnly(s, t) && fd in s.clients
    ensures Removed(s, ForgetClient(t, fd), fd)
  {
    var u := ForgetClient(t, fd);
    assert u.clients.Keys == s.clients.Keys - {fd};
    forall x | x in u.clients ensures Heard(s.clients[x], u.clients[x]) {
      assert u.clients[x] == t.clients[x];
    }
  }

  lemma DisconnectRemoves(s: Core, fd: int)
    requires ChannelsOk(s) && fd in s.clients
    ensures Removed(s, Disconnect(s, fd), fd)
  {
    var c := s.clients[fd];
    if c.Registered() {
      RecipientsConnected(s, fd);
      SendEachQuiet(s, QuitRecipients(s, fd), QuitNotice(c));
      ForgetRemoves(s, SendEach(s, QuitRecipients(s, fd), QuitNotice(c)), fd);
    } else {
      SameClientsQuiet(s, s);
      ForgetRemoves(s, s, fd);
    }
  }

  lemma RemovedPoll(s: Core, t: Core, fd: int)
    requires PollOk(s) && Removed(s, t, fd) && fd in s.clients
    ensures PollOk(t)
  {
    EraseElements(s.pollFds, fd);
    assert |t.clients| == |t.clients.Keys| <= |s.clients.Keys| by { SubsetSize(t.clients.Keys, s.clients.Keys); }
    forall ip ensures |LiveFrom(t, ip)| <= MAX_CLIENTS_PER_IP {
      forall x | x in LiveFrom(t, ip) ensures x in LiveFrom(s, ip) {
        assert Heard(s.clients[x], t.clients[x]);
      }
      SubsetSize(LiveFrom(t, ip), LiveFrom(s, ip));
    }
  }

  lemma RemovedSessions(s: Core, t: Core, fd: int)
    requires SessionsOk(s) && NicksOk(s) && Removed(s, t, fd)
    ensures SessionsOk(t) && NicksOk(t)
  {
    forall x | x in t.clients ensures SessionOk(t.clients[x]) {
      assert SessionOk(s.clients[x]) && Heard(s.clients[x], t.clients[x]);
    }
    forall a, b | a in t.clients && b in t.clients && a != b && !t.clients[a].dead && !t.clients[b].dead && t.clients[a].nickname != ""
      ensures Lower(t.clients[a].nickname) != Lower(t.clients[b].nickname)
    {
      assert Heard(s.clients[a], t.clients[a]) && Heard(s.clients[b], t.clients[b]);
    }
  }

  lemma RemovedInv(s: Core, t: Core, fd: int)
    requires Inv(s) && Removed(s, t, fd) && fd in s.clients
    ensures Inv(t)
  {
    RemovedSessions(s, t, fd);
    RemovedPoll(s, t, fd);
    forall x | x in t.clients && s.clients[x].Registered() ensures t.clients[x].Registered() {
      assert Heard(s.clients[x], t.clients[x]);
    }
    forall name | name in t.channels ensures EntryOk(t, name, t.channels[name]) {
      ForgetEntry(s, t, fd, name, s.channels[name]);
    }
  }

  /** A channel object, while it exists without operators, gets none and keeps its settings. */
  ghost predicate FrozenAt(s: Core, t: Core, name: string)
    requires name in t.channels
  {
    var b := t.channels[name];
    b.serial >= s.nextSerial
    || (name in s.channels && s.channels[name].serial == b.serial
        && StaysFrozen(s.channels[name], b))
  }

  ghost predicate Frozen(s: Core, t: Core) {
    s.nextSerial <= t.nextSerial && forall name :: name in t.channels ==> FrozenAt(s, t, name)
  }

  lemma OperatorFrom(a: Channel, b: Channel)
    requires Kept(a, b) && b.operators != []
    ensures a.operators != []
  {
    var x := b.operators[0];
    assert x in b.operators;
  }

  lemma AuthorityFrozen(s: Core, t: Core, fd: int)
    requires Authority(s, t, fd)
    ensures Frozen(s, t)
  {
    forall name | name in t.channels ensures FrozenAt(s, t, name) {
      assert AuthorityAt(s, t, fd, name);
      var b := t.channels[name];
      if b.serial < s.nextSerial && fd !in s.channels[name].operators && b.operators != [] {
        OperatorFrom(s.channels[name], b);
      }
    }
  }

  lemma FrozenTransitive(s: Core, t: Core, u: Core)
    requires Frozen(s, t) && Frozen(t, u)
    ensures Frozen(s, u)
  {
    forall name | name in u.channels ensures FrozenAt(s, u, name) {
      assert FrozenAt(t, u, name);
      if u.channels[name].serial < t.nextSerial {
        assert FrozenAt(s, t, name);
      }
    }
  }

  lemma SameChannelsFrozen(s: Core, t: Core)
    requires t.channels == s.channels && t.nextSerial == s.nextSerial
    ensures Frozen(s, t)
  {
    forall name | name in t.channels ensures FrozenAt(s, t, name) {}
  }

  lemma RemovedFrozen(s: Core, t: Core, fd: int)
    requires Removed(s, t, fd)
    ensures Frozen(s, t)
  {
    forall name | name in t.channels ensures FrozenAt(s, t, name) {
      assert t.channels[name] == s.channels[name].Forget(fd);
      ForgetKeeps(s.channels[name], fd);
    }
  }

  lemma DisconnectSound(s: Core, fd: int)
    requires Inv(s) && fd in s.clients
    ensures Inv(Disconnect(s, fd)) && Frozen(s, Disconnect(s, fd)) && Removed(s, Disconnect(s, fd), fd)
  {
    DisconnectRemoves(s, fd);
    RemovedInv(s, Disconnect(s, fd), fd);
    RemovedFrozen(s, Disconnect(s, fd), fd);
  }

  lemma {:induction false} DisconnectEachSound(s: Core, fds: seq<int>)
    requires Inv(s) && NoDup(fds) && forall i :: 0 <= i < |fds| ==> fds[i] in s.clients
    ensures
      var t := DisconnectEach(s, fds);
      Inv(t) && Frozen(s, t)
    decreases |fds|
  {
    if fds == [] {
      SameChannelsFrozen(s, s);
    } else {
      var t := Disconnect(s, fds[0]);
      DisconnectSound(s, fds[0]);
      DisconnectEachSound(t, fds[1..]);
      FrozenTransitive(s, t, DisconnectEach(t, fds[1..]));
    }
  }

  lemma {:induction false} SendEachKeys(s: Core, fds: seq<int>, r: Reply)
    ensures SendEach(s, fds, r).clients.Keys == s.clients.Keys
    decreases |fds|
  {
    if fds != [] { SendEachKeys(Send(s, fds[0], r), fds[1..], r); }
  }

  lemma {:induction false} DisconnectEachKeys(s: Core, fds: seq<int>)
    ensures DisconnectEach(s, fds).clients.Keys == s.clients.Keys - Listeners(fds, None)
    decreases |fds|
  {
    if fds == [] {
      assert Listeners(fds, None) == {};
    } else {
      if fds[0] in s.clients {
        SendEachKeys(s, QuitRecipients(s, fds[0]), QuitNotice(s.clients[fds[0]]));
      }
      ListenersCons(fds, None);
      DisconnectEachKeys(Disconnect(s, fds[0]), fds[1..]);
    }
  }

  lemma {:induction false} DisconnectEachHeard(s: Core, fds: seq<int>)
    requires Inv(s) && NoDup(fds) && forall i :: 0 <= i < |fds| ==> fds[i] in s.clients
    ensures forall x :: x in DisconnectEach(s, fds).clients ==>
      x in s.clients && Heard(s.clients[x], DisconnectEach(s, fds).clients[x])
    decreases |fds|
  {
    if fds == [] {
      forall x | x in s.clients ensures Heard(s.clients[x], s.clients[x]) { HeardReflexive(s.clients[x]); }
    } else {
      var t := Disconnect(s, fds[0]);
      DisconnectSound(s, fds[0]);
      DisconnectEachHeard(t, fds[1..]);
      var u := DisconnectEach(t, fds[1..]);
      forall x | x in u.clients ensures x in s.clients && Heard(s.clients[x], u.clients[x]) {
        HeardTransitive(s.clients[x], t.clients[x], u.clients[x]);
      }
    }
  }

  lemma CondemnInv(s: Core)
    requires Inv(s)
    ensures Inv(Condemn(s)) && Condemn(s).clients.Keys == s.clients.Keys && Condemn(s).channels == s.channels
    ensures Aged(s, Condemn(s)) && Frozen(s, Condemn(s))
    ensures forall fd :: fd in s.clients ==> (Condemn(s).clients[fd].dead <==> Finished(s.clients[fd]))
  {
    var t := Condemn(s);
    assert t.clients.Keys == s.clients.Keys;
    forall fd | fd in t.clients ensures SessionOk(t.clients[fd]) && Older(s.clients[fd], t.clients[fd]) {
      FateOk(s.clients[fd], s.clients[fd].deadReason, 0);
    }
    CondemnPoll(s);
    CondemnNicks(s);
    SameChannelsOk(s, t);
    SameChannelsFrozen(s, t);
  }

  lemma CondemnNicks(s: Core)
    requires NicksOk(s)
    ensures NicksOk(Condemn(s))
  {
  }

  lemma SameChannelsOk(s: Core, t: Core)
    requires ChannelsOk(s) && t.channels == s.channels && t.nextSerial == s.nextSerial
    requires t.clients.Keys == s.clients.Keys && Aged(s, t)
    ensures ChannelsOk(t)
  {
    forall name | name in t.channels ensures EntryOk(t, name, t.channels[name]) {
      EntryCarries(s, t, name, t.channels[name]);
    }
  }

  lemma CondemnPoll(s: Core)
    requires PollOk(s)
    ensures PollOk(Condemn(s))
  {
    var t := Condemn(s);
    assert t.clients.Keys == s.clients.Keys;
    assert |t.clients| == |t.clients.Keys| == |s.clients|;
    forall ip ensures |LiveFrom(t, ip)| <= MAX_CLIENTS_PER_IP {
      forall fd | fd in LiveFrom(t, ip) ensures fd in LiveFrom(s, ip) {
        assert t.clients[fd].ip == s.clients[fd].ip;
      }
      SubsetSize(LiveFrom(t, ip), LiveFrom(s, ip));
    }
  }

  lemma DeadFdsListed(s: Core)
    ensures NoDup(DeadFds(s)) && forall i :: 0 <= i < |DeadFds(s)| ==> DeadFds(s)[i] in s.clients
    ensures Listeners(DeadFds(s), None) == set fd | fd in s.clients && s.clients[fd].dead
  {
    var fds := DeadFds(s);
    forall i | 0 <= i < |fds| ensures fds[i] in s.clients {
      assert fds[i] in fds;
    }
  }

  lemma ReapKeeps(s: Core)
    requires Inv(s)
    ensures forall x :: x in ReapDead(s).clients ==>
      x in s.clients && Older(s.clients[x], ReapDead(s).clients[x])
      && ReapDead(s).clients[x].closing == s.clients[x].closing
      && (s.clients[x].closing ==> ReapDead(s).clients[x].sendBuffer == s.clients[x].sendBuffer)
  {
    var t := Condemn(s);
    CondemnInv(s);
    DeadFdsListed(t);
    DisconnectEachHeard(t, DeadFds(t));
    var u := ReapDead(s);
    forall x | x in u.clients
      ensures x in s.clients && Older(s.clients[x], u.clients[x])
        && u.clients[x].closing == s.clients[x].closing
        && (s.clients[x].closing ==> u.clients[x].sendBuffer == s.clients[x].sendBuffer)
    {
      assert Heard(t.clients[x], u.clients[x]) && Older(s.clients[x], t.clients[x]);
    }
  }

  lemma ReapSound(s: Core)
    requires Inv(s)
    ensures Inv(ReapDead(s)) && Frozen(s, ReapDead(s))
  {
    var t := Condemn(s);
    CondemnInv(s);
    DeadFdsListed(t);
    DisconnectEachSound(t, DeadFds(t));
    FrozenTransitive(s, t, ReapDead(s));
  }

  /** After a reap, exactly the clients that were not finished are left. */
  lemma ReapKeys(s: Core)
    requires Inv(s)
    ensures ReapDead(s).clients.Keys == set fd | fd in s.clients && !Finished(s.clients[fd])
  {
    var t := Condemn(s);
    CondemnInv(s);
    DeadFdsListed(t);
    DisconnectEachKeys(t, DeadFds(t));
    var left := set fd | fd in s.clients && !Finished(s.clients[fd]);
    forall fd ensures fd in ReapDead(s).clients.Keys <==> fd in left {}
  }

  // --------------------------------------------------------------------- runs

  /** The invariant of the whole server between steps. */
  ghost predicate ServerOk(v: Server) {
    && Inv(v.core)
    && v.inbox.Keys == v.core.clients.Keys
    && forall fd :: Listening(v.core, fd) ==> InboxOk(v.inbox[fd])
  }

  /** A step on the shared state that leaves every buffer alone. */
  lemma CoreStepOk(v: Server, t: Core, fd: int)
    requires ServerOk(v) && Orderly(v.core, t, fd)
    ensures ServerOk(v.(core := t)) && Frozen(v.core, t)
  {
    AuthorityFrozen(v.core, t, fd);
    forall x | Listening(t, x) ensures InboxOk(v.inbox[x]) {
      assert Older(v.core.clients[x], t.clients[x]);
    }
  }

  lemma ReadOk(v: Server, fd: int, chunk: string)
    requires ServerOk(v) && 1 <= |chunk| <= RECV_CHUNK
    ensures ServerOk(ReadClient(v, fd, chunk)) && Frozen(v.core, ReadClient(v, fd, chunk).core)
  {
    if fd in v.core.clients {
      var d := Receive(v.core, fd, v.inbox[fd], chunk);
      ReceiveSound(v.core, fd, v.inbox[fd], chunk);
      AuthorityFrozen(v.core, d.core, fd);
      forall x | Listening(d.core, x) ensures InboxOk(v.inbox[fd := d.buffer][x]) {
        assert Older(v.core.clients[x], d.core.clients[x]);
        if x == fd { ReceiveBound(v.core, fd, v.inbox[fd], chunk); }
      }
    } else {
      SameChannelsFrozen(v.core, v.core);
    }
  }

  lemma AcceptOk(v: Server, fd: int, ip: string)
    requires ServerOk(v) && Possible(v, Accept(fd, ip))
    ensures ServerOk(AcceptClient(v, fd, ip)) && Frozen(v.core, AcceptClient(v, fd, ip).core)
  {
    hide Inv, LiveFrom, Frozen;
    SameChannelsFrozen(v.core, AcceptClient(v, fd, ip).core);
    if |v.core.clients| < MAX_TOTAL_CLIENTS && |LiveFrom(v.core, ip)| < MAX_CLIENTS_PER_IP {
      AcceptInv(v.core, fd, ip);
    }
  }

  lemma WriteSound(s: Core, fd: int, count: nat)
    requires Inv(s)
    ensures Orderly(s, WriteClient(s, fd, count), fd)
  {
    NothingSound(s, fd);
    if HasOutput(s, fd) {
      KillSound(s, fd, SentNothing);
      FateOk(s.clients[fd], SentNothing, count);
      SetClientSound(s, fd, s.clients[fd].ConsumeSendBuffer(count));
    }
  }

  lemma FailureSound(s: Core, fd: int, error: string)
    requires Inv(s)
    ensures Sound(s, EndRead(s, fd), fd) && Sound(s, FailRead(s, fd, error), fd) && Sound(s, FailWrite(s, fd, error), fd)
  {
    hide Inv, Sound, Successor;
    NothingSound(s, fd);
    if fd in s.clients {
      assert SessionOk(s.clients[fd]) by { SessionAt(s, fd); }
      KillSound(s, fd, RecvFailed(error));
      KillSound(s, fd, SendFailed(error));
      FateOk(s.clients[fd], PeerClosed, 0);
      SetClientSound(s, fd, s.clients[fd].MarkClosing(PeerClosed));
    }
  }

  lemma ReapOk(v: Server)
    requires ServerOk(v)
    ensures ServerOk(Next(v, Reap)) && Frozen(v.core, Next(v, Reap).core)
  {
    ReapSound(v.core);
    ReapKeys(v.core);
    ReapKeeps(v.core);
    var w := Next(v, Reap);
    assert w.inbox.Keys == w.core.clients.Keys;
    forall x | Listening(w.core, x) ensures InboxOk(w.inbox[x]) {
      assert Older(v.core.clients[x], w.core.clients[x]);
    }
  }

  /** Main result, one step: whatever the operating system delivers, the invariant holds after. */
  lemma NextOk(v: Server, e: Step)
    requires ServerOk(v) && Possible(v, e)
    ensures ServerOk(Next(v, e)) && Frozen(v.core, Next(v, e).core)
  {
    match e
    case Accept(fd, ip) => AcceptOk(v, fd, ip);
    case Read(fd, chunk) => ReadOk(v, fd, chunk);
    case ReadEnd(fd) =>
      FailureSound(v.core, fd, "");
      CoreStepOk(v, EndRead(v.core, fd), fd);
    case ReadError(fd, error) =>
      FailureSound(v.core, fd, error);
      CoreStepOk(v, FailRead(v.core, fd, error), fd);
    case Write(fd, count) =>
      WriteSound(v.core, fd, count);
      CoreStepOk(v, WriteClient(v.core, fd, count), fd);
    case WriteError(fd, error) =>
      FailureSound(v.core, fd, error);
      CoreStepOk(v, FailWrite(v.core, fd, error), fd);
    case SocketError(fd) =>
      SameChannelsFrozen(v.core, v.core);
      if fd in v.core.clients {
        KillSound(v.core, fd, SocketFailed);
        CoreStepOk(v, Kill(v.core, fd, SocketFailed), fd);
      }
    case Reap => ReapOk(v);
  }

  /** Main result, every run: from any state in order, any possible sequence of steps ends in order,
      and a channel object that had lost its operators still has none and the same settings. */
  lemma {:induction false} RunOk(v: Server, steps: seq<Step>)
    requires ServerOk(v) && PossibleRun(v, steps)
    ensures ServerOk(Run(v, steps)) && Frozen(v.core, Run(v, steps).core)
    decreases |steps|
  {
    if steps == [] {
      SameChannelsFrozen(v.core, v.core);
    } else {
      var w := Next(v, steps[0]);
      NextOk(v, steps[0]);
      RunOk(w, steps[1..]);
      FrozenTransitive(v.core, w.core, Run(w, steps[1..]).core);
    }
  }

  lemma StartOk(password: string, wire: Encoding, listenFd: int)
    ensures ServerOk(Start(password, wire, listenFd))
  {
    var s := Start(password, wire, listenFd).core;
    forall ip ensures |LiveFrom(s, ip)| <= MAX_CLIENTS_PER_IP {
      assert LiveFrom(s, ip) == {};
    }
  }

  /** Every state a server can reach after it starts listening. */
  ghost predicate Reachable(v: Server) {
    exists password, wire, listenFd, steps ::
      PossibleRun(Start(password, wire, listenFd), steps) && v == Run(Start(password, wire, listenFd), steps)
  }

  lemma ReachableOk(v: Server)
    requires Reachable(v)
    ensures ServerOk(v)
  {
    var password, wire, listenFd, steps :|
      PossibleRun(Start(password, wire, listenFd), steps) && v == Run(Start(password, wire, listenFd), steps);
    StartOk(password, wire, listenFd);
    RunOk(Start(password, wire, listenFd), steps);
  }

  // ------------------------------------------------------------ the loop head

  /** At the loop head nobody is closing with nothing left to send. */
  lemma ReapedPending(s: Core)
    requires Inv(s)
    ensures forall x :: x in ReapDead(s).clients && ReapDead(s).clients[x].closing ==> ReapDead(s).clients[x].sendBuffer != ""
  {
    ReapKeeps(s);
    ReapKeys(s);
  }

  lemma {:induction false} RefreshOk(s: Core, fds: seq<int>)
    requires forall i :: 0 <= i < |fds| ==> fds[i] == s.listenFd || fds[i] in s.clients
    requires s.listenFd !in s.clients
    requires forall x :: x in s.clients && s.clients[x].closing ==> s.clients[x].sendBuffer != ""
    ensures
      var r := Refresh(s, fds);
      r.Some? && |r.value| == |fds|
      && forall i :: 0 <= i < |fds| ==> r.value[i].fd == fds[i] && (r.value[i].input || r.value[i].output)
    decreases |fds|
  {
    if fds != [] {
      RefreshOk(s, fds[1..]);
    }
  }

  /** At every loop head of every run the poll list is the listening descriptor and each client once, the
      throw for a descriptor without a client is unreachable, and every entry asks for some event. */
  lemma LoopHeadPolls(v: Server, steps: seq<Step>)
    requires ServerOk(v) && PossibleRun(v, steps)
    ensures
      var s := Next(Run(v, steps), Reap).core;
      var r := Refresh(s, s.pollFds);
      Lists(s.pollFds, {s.listenFd} + s.clients.Keys)
      && r.Some? && |r.value| == |s.pollFds|
      && (forall i :: 0 <= i < |r.value| ==> r.value[i].fd == s.pollFds[i] && (r.value[i].input || r.value[i].output))
  {
    RunOk(v, steps);
    var w := Run(v, steps);
    NextOk(w, Reap);
    ReapedPending(w.core);
    var s := Next(w, Reap).core;
    var fds := s.pollFds;
    forall i | 0 <= i < |fds| ensures fds[i] == s.listenFd || fds[i] in s.clients {
      assert fds[i] in fds;
    }
    RefreshOk(s, fds);
  }
}
