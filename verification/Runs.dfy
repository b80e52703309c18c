/** What holds in every state of every run, spelled out. */
module Runs {
  import opened Text
  import opened Ordering
  import opened Replies
  import opened Clients
  import opened Channels
  import opened State
  import opened Invariant
  import opened EventLoop
  import opened EventProofs
  import opened FanOut
  import Commands
  import CommandProofs
  import BotPeer
  import Greeting
  import Lifecycle

  /** Referential integrity: no step of any run dereferenced a freed client or channel, and between steps
      every list of every channel refers to connected clients, without duplicates; operators are members,
      members are registered, the invited are not members. */
  lemma ReferencesLive(v: Server, name: string)
    requires Reachable(v)
    ensures !v.core.fault
    ensures name in v.core.channels ==>
      var ch := v.core.channels[name];
      ch.name == name && NoDup(ch.members) && NoDup(ch.operators) && NoDup(ch.invited)
      && (forall x :: x in ch.members ==> x in v.core.clients && v.core.clients[x].Registered())
      && (forall x :: x in ch.operators ==> x in ch.members)
      && (forall x :: x in ch.invited ==> x in v.core.clients && x !in ch.members)
  {
    ReachableOk(v);
    if name in v.core.channels {
      assert EntryOk(v.core, name, v.core.channels[name]);
    }
  }

  /** Section 2.2 of RFC 2812 in every reachable state: live clients have distinct casemapped nicknames, so
      the lookup finds a client exactly when it is the one live holder of the name. */
  lemma NicknamesUnique(v: Server, a: int, b: int, nick: string)
    requires Reachable(v) && nick != ""
    ensures a in v.core.clients && b in v.core.clients && a != b
      && !v.core.clients[a].dead && !v.core.clients[b].dead && v.core.clients[a].nickname != ""
      ==> Lower(v.core.clients[a].nickname) != Lower(v.core.clients[b].nickname)
    ensures FindClientByNick(v.core, nick) == Some(a) <==>
      a in v.core.clients && !v.core.clients[a].dead && Lower(v.core.clients[a].nickname) == Lower(nick)
  {
    ReachableOk(v);
    FindIsUnique(v.core, nick, a);
  }

  /** Registration in every reachable state: a nickname or username implies an accepted password, the
      welcome was issued once to each registered client and never to another, and at most three passwords
      were wrong, the third ending service. */
  lemma RegistrationSound(v: Server, fd: int)
    requires Reachable(v) && fd in v.core.clients
    ensures
      var c := v.core.clients[fd];
      (c.nickSet || c.userSet ==> c.passOk)
      && Welcomes(c.issued) == (if c.Registered() then 1 else 0)
      && c.failedPass <= 3 && (c.failedPass == 3 ==> !c.Active())
  {
    ReachableOk(v);
    assert SessionOk(v.core.clients[fd]);
  }

  /** An accepted password never completes a registration: that happens inside NICK or USER. */
  lemma PassNeverRegisters(v: Server, fd: int, params: seq<string>)
    requires Reachable(v) && Listening(v.core, fd)
    ensures
      var t := Commands.Pass(v.core, fd, params);
      fd in t.clients && (t.clients[fd].Registered() <==> v.core.clients[fd].Registered())
  {
    hide Commands.Pass;
    ReachableOk(v);
    Lifecycle.PassKeepsRegistration(v.core, fd, params);
  }

  /** Registration is completed inside NICK or USER and nowhere else: if any step from any reachable state
      leaves a client registered that was not, the step was a read of that very client, and one of the lines
      it handed over is a NICK or a USER line before which the client was not registered and after which it
      was. */
  lemma OnlyNickAndUserRegister(v: Server, e: Step, x: int)
    requires Reachable(v) && Possible(v, e)
    requires x in Next(v, e).core.clients && Next(v, e).core.clients[x].Registered()
    requires x in v.core.clients ==> !v.core.clients[x].Registered()
    ensures Lifecycle.CompletedIn(v, e, x)
  {
    hide Next, Possible, ServerOk, Lifecycle.CompletedIn;
    ReachableOk(v);
    Lifecycle.OnlyNickAndUserComplete(v, e, x);
  }

  /** A closing or dead client executes nothing more, over every continuation of every run in which its
      connection is not yet removed: it stays so, its buffered input stays unread, and the run in which it
      is silent is possible too and ends in the same state. */
  lemma StoppedStaysStopped(v: Server, steps: seq<Step>, fd: int)
    requires Reachable(v) && PossibleRun(v, steps) && Lifecycle.Stays(v, steps, fd)
    requires fd in v.core.clients && !v.core.clients[fd].Active()
    ensures
      var w := Run(v, steps);
      fd in w.core.clients && !w.core.clients[fd].Active()
      && fd in v.inbox && fd in w.inbox && w.inbox[fd] == v.inbox[fd]
    ensures
      var silent := Lifecycle.Unheard(steps, fd);
      PossibleRun(v, silent) && Run(v, silent) == Run(v, steps)
  {
    hide ServerOk;
    ReachableOk(v);
    Lifecycle.StoppedForever(v, steps, fd);
  }

  /** Between reads a served client has at most 4095 bytes buffered and no newline among them. */
  lemma ReceiveBuffersBounded(v: Server, fd: int)
    requires Reachable(v) && Listening(v.core, fd)
    ensures fd in v.inbox && |v.inbox[fd]| <= 4095 && '\n' !in v.inbox[fd]
  {
    ReachableOk(v);
  }

  /** Server bounds: total clients, live clients of one address, and every client's queue. */
  lemma ServerBounds(v: Server, ip: string, fd: int)
    requires Reachable(v)
    ensures |v.core.clients| <= 512 && |LiveFrom(v.core, ip)| <= 128
    ensures fd in v.core.clients ==>
      var c := v.core.clients[fd];
      |c.sendBuffer| <= 65536 && c.sent + c.sendBuffer == Flatten(c.accepted) && BotPeer.Valid(c.accepted)
  {
    ReachableOk(v);
    if fd in v.core.clients {
      var c := v.core.clients[fd];
      assert SessionOk(c);
      forall i | 0 <= i < |c.accepted| ensures ValidOutbound(c.accepted[i]) {
        assert c.accepted[i] in c.accepted;
      }
    }
  }

  /** End to end, in every reachable state and under any schedule of partial writes: whatever part of the
      bytes sent to a client the peer has received, in any chunks, the peer's lines are exactly the bodies of
      the first accepted messages, and its framing never faults. */
  lemma EndToEnd(v: Server, fd: int, throws: BotPeer.Verdict, chunks: seq<string>)
    requires Reachable(v) && fd in v.core.clients
    requires BotPeer.Chunks(chunks) && Flatten(chunks) <= v.core.clients[fd].sent
    ensures BotPeer.TrueTo(throws, BotPeer.ReceiveAll(throws, "", chunks), Flatten(chunks), v.core.clients[fd].accepted)
  {
    var c := v.core.clients[fd];
    ServerBounds(v, "", fd);
    BotPeer.PrefixDelivers(throws, chunks, c.sent, c.sendBuffer, c.accepted);
  }

  /** When everything was sent and received, the peer's lines are all the accepted messages, in order, if and
      only if processing none of them but perhaps the last makes it throw; and it is still receiving if and
      only if none does. With `BotPeer.Throwing(channel)` the peer is the program's bot. */
  lemma EverythingArrives(v: Server, fd: int, throws: BotPeer.Verdict, chunks: seq<string>)
    requires Reachable(v) && fd in v.core.clients && BotPeer.Chunks(chunks)
    requires v.core.clients[fd].sendBuffer == "" && Flatten(chunks) == v.core.clients[fd].sent
    ensures
      var accepted := v.core.clients[fd].accepted;
      var r := BotPeer.ReceiveAll(throws, "", chunks);
      && (r.lines == BotPeer.Bodies(accepted) <==> forall i :: 0 <= i < |accepted| - 1 ==> !throws(BotPeer.BodyOf(accepted[i])))
      && (r.status.Running? <==> forall i :: 0 <= i < |accepted| ==> !throws(BotPeer.BodyOf(accepted[i])))
  {
    hide Reachable, Flatten, BotPeer.Valid, BotPeer.TrueTo, BotPeer.ReceiveAll, BotPeer.Chunks, BotPeer.Bodies;
    var c := v.core.clients[fd];
    ServerBounds(v, "", fd);
    EndToEnd(v, fd, throws, chunks);
    assert c.sent + "" == c.sent;
    BotPeer.AllReceivedExactly(throws, BotPeer.ReceiveAll(throws, "", chunks), c.accepted);
  }

  /** In every reachable state, the JOIN line of any member of any channel is a valid message, and the bot
      takes it for what it is. */
  lemma JoinsUnderstood(v: Server, name: string, fd: int, mine: string)
    requires Reachable(v) && name in v.core.channels && fd in v.core.channels[name].members
    ensures fd in v.core.clients
    ensures
      var c := v.core.clients[fd];
      var m := Wire(Joined(c.nickname, c.username, name));
      ValidOutbound(m) && BotPeer.React(mine, BotPeer.BodyOf(m)) ==
        if c.nickname == BotPeer.BOT_NICKNAME || name != mine then BotPeer.Silent
        else BotPeer.Says(BotPeer.Greeting(name, c.nickname))
  {
    ReachableOk(v);
    assert EntryOk(v.core, name, v.core.channels[name]);
    var c := v.core.clients[fd];
    assert SessionOk(c);
    Greeting.JoinWireValid(c.nickname, c.username, name);
    Greeting.JoinUnderstood(mine, c.nickname, c.username, name);
  }

  /** Operator authority is never created from nothing: after any line a client sends, each operator of
      each channel was one before on the same channel object, or the sender was an operator of that object
      at the start, or this line created the object. The same goes for the four settings. */
  lemma AuthorityNeedsAuthority(s: Core, fd: int, line: string, name: string)
    requires Inv(s) && Listening(s, fd) && Clean(line)
    requires name in ProcessLine(s, fd, line).channels
    ensures
      var b := ProcessLine(s, fd, line).channels[name];
      b.serial >= s.nextSerial
      || (name in s.channels && s.channels[name].serial == b.serial
          && (fd in s.channels[name].operators
              || (b.Settings() == s.channels[name].Settings()
                  && forall x :: x in b.operators ==> x in s.channels[name].operators)))
  {
    ProcessLineSound(s, fd, line);
    assert AuthorityAt(s, ProcessLine(s, fd, line), fd, name);
  }

  /** A channel that has lost its operators keeps none, its settings frozen, as long as the object exists:
      over every continuation of every run. */
  lemma OrphanedChannelFrozen(v: Server, steps: seq<Step>, name: string)
    requires Reachable(v) && PossibleRun(v, steps)
    requires name in v.core.channels && v.core.channels[name].operators == []
    requires name in Run(v, steps).core.channels && Run(v, steps).core.channels[name].serial == v.core.channels[name].serial
    ensures
      var ch := Run(v, steps).core.channels[name];
      ch.operators == [] && ch.Settings() == v.core.channels[name].Settings()
  {
    ReachableOk(v);
    RunOk(v, steps);
    assert EntryOk(v.core, name, v.core.channels[name]);
    assert FrozenAt(v.core, Run(v, steps).core, name);
  }

  /** Admission accounts in every reachable state: a limited channel holds at most its limit, or as many as
      it held when the limit was written; no client has joined through an invite-only door more often than
      it was invited to that channel. */
  lemma AdmissionAccounts(v: Server, name: string, fd: int)
    requires Reachable(v) && name in v.core.channels
    ensures
      var ch := v.core.channels[name];
      (ch.limit > 0 ==> |ch.members| <= Max(ch.limit, ch.limitBase))
      && Count(ch.guardedJoins, fd) + (if fd in ch.invited then 1 else 0) <= Count(ch.invitations, fd)
  {
    ReachableOk(v);
    assert EntryOk(v.core, name, v.core.channels[name]);
    assert Admitted(v.core.channels[name], fd);
  }

  /** Any key a reachable channel can have passes unchanged through JOIN's comma split, so a client that
      gives it is not refused for its key. */
  lemma KeySurvivesJoin(v: Server, name: string, fd: int)
    requires Reachable(v) && name in v.core.channels && v.core.channels[name].key != ""
    ensures
      var ch := v.core.channels[name];
      Tokens(ch.key, Commands.COMMA) == [ch.key] && Commands.Refusal(ch, fd, Tokens(ch.key, Commands.COMMA)[0]) != Some(475)
  {
    ReachableOk(v);
    assert EntryOk(v.core, name, v.core.channels[name]);
    TokensSingle(v.core.channels[name].key, Commands.COMMA);
  }

  /** The QUIT and NICK announcements: exactly the clients sharing a channel, each once; a broadcast reaches
      every member but the sender once and nobody else. */
  lemma AnnouncementsExact(v: Server, fd: int, name: string, r: Reply)
    requires Reachable(v) && fd in v.core.clients
    ensures NoDup(QuitRecipients(v.core, fd)) && NoDup(NickRecipients(v.core, fd))
    ensures Reached(v.core, SendEach(v.core, QuitRecipients(v.core, fd), r),
                    Sharers(v.core, fd), r)
    ensures Reached(v.core, SendEach(v.core, NickRecipients(v.core, fd), r),
                    Sharers(v.core, fd) + {fd}, r)
    ensures name in v.core.channels ==>
      var members := v.core.channels[name].members;
      Reached(v.core, Broadcast(v.core, members, Some(fd), r), Listeners(members, Some(fd)), r)
  {
    ReachableOk(v);
    var s := v.core;
    QuitReached(s, fd, r);
    CommandProofs.NickReached(s, fd, r);
    if name in s.channels {
      assert EntryOk(s, name, s.channels[name]);
      CommandProofs.MembersConnected(s, name);
      var members := s.channels[name].members;
      BroadcastExact(s, members, Some(fd), r);
    }
  }

  lemma QuitReached(s: Core, fd: int, r: Reply)
    requires ChannelsOk(s) && fd in s.clients
    ensures NoDup(QuitRecipients(s, fd))
    ensures Reached(s, SendEach(s, QuitRecipients(s, fd), r), Sharers(s, fd), r)
  {
    var fds := QuitRecipients(s, fd);
    RecipientsConnected(s, fd);
    QuitRecipientsExact(s, fd);
    SendEachExact(s, fds, r);
    var who := Sharers(s, fd);
    forall x ensures x in Listeners(fds, None) <==> x in who {
      if x in fds { CommandProofs.SharersConnected(s, fd, x); }
    }
    assert Listeners(fds, None) == who;
  }
}
