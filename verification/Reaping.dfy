/** Reaping is exact: who goes, what is forgotten, and what the survivors hear. */
module Reaping {
  import opened Text
  import opened Ordering
  import opened Replies
  import opened Clients
  import opened Channels
  import opened State
  import opened Invariant
  import opened FanOut
  import opened EventLoop
  import opened EventProofs

  // ------------------------------------------------------------ what is heard

  /** The QUIT lines, with the leaver's nickname, username and reason, client `x` is owed when the clients `fds` of `s` leave, in that order. */
  ghost function QuitsFor(s: Core, fds: seq<int>, x: int): seq<Reply>
    requires forall i :: 0 <= i < |fds| ==> fds[i] in s.clients
    decreases |fds|
  {
    if fds == [] then []
    else Owed(s, fds[0], x) + QuitsFor(s, fds[1..], x)
  }

  ghost function Owed(s: Core, fd: int, x: int): seq<Reply>
    requires fd in s.clients
  {
    var c := s.clients[fd];
    if c.Registered() && Shares(s, fd, x) then [Quit(c.nickname, c.username, c.deadReason)] else []
  }

  lemma {:induction false} SendAllSplit(c: Client, a: seq<Reply>, b: seq<Reply>, wire: Encoding)
    ensures c.SendAll(a + b, wire) == c.SendAll(a, wire).SendAll(b, wire)
    decreases |a|
  {
    if a == [] {
      assert a + b == b;
    } else {
      assert (a + b)[0] == a[0] && (a + b)[1..] == a[1..] + b;
      SendAllSplit(c.SendMessage(a[0], wire), a[1..], b, wire);
    }
  }

  lemma SendAllOne(c: Client, r: Reply, wire: Encoding)
    ensures c.SendAll([r], wire) == c.SendMessage(r, wire)
  {
    assert [r][1..] == [];
  }

  /** One departure: every other client hears exactly what it is owed. */
  lemma DisconnectHeard(s: Core, fd: int)
    requires ChannelsOk(s) && fd in s.clients
    ensures Disconnect(s, fd).clients.Keys == s.clients.Keys - {fd}
    ensures forall x :: x in Disconnect(s, fd).clients ==>
      Disconnect(s, fd).clients[x] == s.clients[x].SendAll(Owed(s, fd, x), s.wire)
  {
    var c := s.clients[fd];
    var t := Disconnect(s, fd);
    if c.Registered() {
      var fds := QuitRecipients(s, fd);
      RecipientsConnected(s, fd);
      QuitRecipientsExact(s, fd);
      SendEachExact(s, fds, QuitNotice(c));
      forall x | x in t.clients ensures t.clients[x] == s.clients[x].SendAll(Owed(s, fd, x), s.wire) {
        SendAllOne(s.clients[x], QuitNotice(c), s.wire);
        assert x in fds <==> Shares(s, fd, x);
      }
    }
  }

  /** Forgetting one client changes nobody else's company. */
  lemma MembersAfter(s: Core, fd: int, name: string)
    requires ChannelsOk(s) && fd in s.clients && name in s.channels
    ensures name in Disconnect(s, fd).channels
    ensures forall x :: x != fd ==> (x in Disconnect(s, fd).channels[name].members <==> x in s.channels[name].members)
  {
    DisconnectRemoves(s, fd);
    assert EntryOk(s, name, s.channels[name]);
    EraseElements(s.channels[name].members, fd);
    assert Disconnect(s, fd).channels[name] == s.channels[name].Forget(fd);
  }

  lemma SharesAfter(s: Core, fd: int, a: int, b: int)
    requires ChannelsOk(s) && fd in s.clients && a != fd && b != fd
    ensures Shares(Disconnect(s, fd), a, b) <==> Shares(s, a, b)
  {
    var t := Disconnect(s, fd);
    DisconnectRemoves(s, fd);
    assert t.channels.Keys == s.channels.Keys;
    forall name | name in s.channels
      ensures (a in t.channels[name].members <==> a in s.channels[name].members)
           && (b in t.channels[name].members <==> b in s.channels[name].members)
    {
      MembersAfter(s, fd, name);
    }
  }

  /** A client that is already dead is announced the same way whoever left before it. */
  lemma OwedAfter(s: Core, fd: int, a: int, x: int)
    requires ChannelsOk(s) && fd in s.clients && a in s.clients && a != fd && x != fd && s.clients[a].dead
    ensures a in Disconnect(s, fd).clients && Disconnect(s, fd).clients[a].dead
    ensures Owed(Disconnect(s, fd), a, x) == Owed(s, a, x)
  {
    DisconnectHeard(s, fd);
    SendAllDead(s.clients[a], Owed(s, fd, a), s.wire);
    SharesAfter(s, fd, a, x);
  }

  ghost predicate AllDead(s: Core, fds: seq<int>) {
    NoDup(fds) && forall i :: 0 <= i < |fds| ==> fds[i] in s.clients && s.clients[fds[i]].dead
  }

  lemma {:induction false} QuitsAfter(s: Core, fd: int, fds: seq<int>, x: int)
    requires ChannelsOk(s) && fd in s.clients && AllDead(s, fds) && x != fd
    requires forall i :: 0 <= i < |fds| ==> fds[i] != fd
    ensures AllDead(Disconnect(s, fd), fds)
    ensures QuitsFor(Disconnect(s, fd), fds, x) == QuitsFor(s, fds, x)
    decreases |fds|
  {
    forall i | 0 <= i < |fds| ensures fds[i] in Disconnect(s, fd).clients && Disconnect(s, fd).clients[fds[i]].dead {
      OwedAfter(s, fd, fds[i], x);
    }
    if fds != [] {
      OwedAfter(s, fd, fds[0], x);
      QuitsAfter(s, fd, fds[1..], x);
    }
  }

  lemma HeardOne(s: Core, fd: int, x: int)
    requires ChannelsOk(s) && fd in s.clients && x in s.clients && x != fd
    ensures x in Disconnect(s, fd).clients && Disconnect(s, fd).wire == s.wire
    ensures Disconnect(s, fd).clients[x] == s.clients[x].SendAll(Owed(s, fd, x), s.wire)
  {
    DisconnectHeard(s, fd);
    DisconnectRemoves(s, fd);
  }

  /** A row of departures: every survivor hears one QUIT for each registered leaver it shared a channel
      with, in the order of leaving, and nothing else happens to it. */
  lemma {:induction false} DepartureHeard(s: Core, fds: seq<int>, x: int)
    requires Inv(s) && AllDead(s, fds) && x in s.clients && forall i :: 0 <= i < |fds| ==> fds[i] != x
    ensures x in DisconnectEach(s, fds).clients
    ensures DisconnectEach(s, fds).clients[x] == s.clients[x].SendAll(QuitsFor(s, fds, x), s.wire)
    decreases |fds|
  {
    if fds != [] {
      var t := Disconnect(s, fds[0]);
      DisconnectInv(s, fds[0]);
      HeardOne(s, fds[0], x);
      QuitsAfter(s, fds[0], fds[1..], x);
      DepartureHeard(t, fds[1..], x);
      SendAllSplit(s.clients[x], Owed(s, fds[0], x), QuitsFor(s, fds[1..], x), s.wire);
    }
  }

  // ------------------------------------------------------- what is forgotten

  /** A channel after a set of clients is gone: order kept, everything else kept. */
  function Purged(ch: Channel, gone: set<int>): Channel {
    ch.(members := Without(ch.members, gone), operators := Without(ch.operators, gone),
        invited := Without(ch.invited, gone),
        invitations := ch.invitations - gone, guardedJoins := ch.guardedJoins - gone)
  }

  lemma ForgetPurges(ch: Channel, fd: int, live: set<int>)
    requires ChannelOk(ch, live)
    ensures ch.Forget(fd) == Purged(ch, {fd})
  {
    EraseIsWithout(ch.members, fd);
    EraseIsWithout(ch.operators, fd);
    EraseIsWithout(ch.invited, fd);
  }

  lemma PurgedTwice(ch: Channel, a: set<int>, b: set<int>)
    ensures Purged(Purged(ch, a), b) == Purged(ch, a + b)
  {
    WithoutTwice(ch.members, a, b);
    WithoutTwice(ch.operators, a, b);
    WithoutTwice(ch.invited, a, b);
    assert ch.invitations - a - b == ch.invitations - (a + b);
    assert ch.guardedJoins - a - b == ch.guardedJoins - (a + b);
  }

  lemma PurgedNothing(ch: Channel)
    ensures Purged(ch, {}) == ch
  {
    WithoutNothing(ch.members, {});
    WithoutNothing(ch.operators, {});
    WithoutNothing(ch.invited, {});
    assert ch.invitations - {} == ch.invitations && ch.guardedJoins - {} == ch.guardedJoins;
  }

  function PurgeAll(channels: map<string, Channel>, gone: set<int>): map<string, Channel> {
    map name | name in channels :: Purged(channels[name], gone)
  }

  lemma PurgeAllTwice(channels: map<string, Channel>, a: set<int>, b: set<int>)
    ensures PurgeAll(PurgeAll(channels, a), b) == PurgeAll(channels, a + b)
  {
    forall name | name in channels ensures PurgeAll(PurgeAll(channels, a), b)[name] == PurgeAll(channels, a + b)[name] {
      PurgedTwice(channels[name], a, b);
    }
  }

  lemma PurgeAllNothing(channels: map<string, Channel>)
    ensures PurgeAll(channels, {}) == channels
  {
    forall name | name in channels ensures PurgeAll(channels, {})[name] == channels[name] {
      PurgedNothing(channels[name]);
    }
  }

  lemma DisconnectInv(s: Core, fd: int)
    requires Inv(s) && fd in s.clients
    ensures Inv(Disconnect(s, fd)) && Disconnect(s, fd).clients.Keys == s.clients.Keys - {fd}
  {
    DisconnectSound(s, fd);
  }

  /** One departure: out of the poll list and out of every list, order kept. */
  lemma DisconnectPurges(s: Core, fd: int)
    requires ChannelsOk(s) && NoDup(s.pollFds) && fd in s.clients
    ensures Disconnect(s, fd).pollFds == Without(s.pollFds, {fd})
    ensures Disconnect(s, fd).channels == PurgeAll(s.channels, {fd})
  {
    DisconnectRemoves(s, fd);
    EraseIsWithout(s.pollFds, fd);
    ForgetAllPurges(s, fd);
  }

  lemma EntryPurges(s: Core, name: string, fd: int)
    requires ChannelsOk(s) && name in s.channels
    ensures s.channels[name].Forget(fd) == Purged(s.channels[name], {fd})
  {
    assert EntryOk(s, name, s.channels[name]);
    ForgetPurges(s.channels[name], fd, s.clients.Keys);
  }

  lemma ForgetAllPurges(s: Core, fd: int)
    requires ChannelsOk(s)
    ensures ForgetAll(s.channels, fd) == PurgeAll(s.channels, {fd})
  {
    var a, b := ForgetAll(s.channels, fd), PurgeAll(s.channels, {fd});
    forall name | name in a ensures a[name] == b[name] {
      EntryPurges(s, name, fd);
    }
  }

  lemma {:induction false} DepartureForgotten(s: Core, fds: seq<int>)
    requires Inv(s) && NoDup(fds) && (forall i :: 0 <= i < |fds| ==> fds[i] in s.clients)
    ensures DisconnectEach(s, fds).channels == PurgeAll(s.channels, Listeners(fds, None))
    decreases |fds|
  {
    if fds == [] {
      assert Listeners(fds, None) == {};
      PurgeAllNothing(s.channels);
    } else {
      DisconnectInv(s, fds[0]);
      DisconnectPurges(s, fds[0]);
      DepartureForgotten(Disconnect(s, fds[0]), fds[1..]);
      ListenersCons(fds, None);
      PurgeAllTwice(s.channels, {fds[0]}, Listeners(fds[1..], None));
    }
  }

  lemma {:induction false} DepartureUnpolled(s: Core, fds: seq<int>)
    requires Inv(s) && NoDup(fds) && forall i :: 0 <= i < |fds| ==> fds[i] in s.clients
    ensures DisconnectEach(s, fds).pollFds == Without(s.pollFds, Listeners(fds, None))
    decreases |fds|
  {
    if fds == [] {
      assert Listeners(fds, None) == {};
      WithoutNothing(s.pollFds, {});
    } else {
      DisconnectInv(s, fds[0]);
      DisconnectPurges(s, fds[0]);
      DepartureUnpolled(Disconnect(s, fds[0]), fds[1..]);
      ListenersCons(fds, None);
      WithoutTwice(s.pollFds, {fds[0]}, Listeners(fds[1..], None));
    }
  }

  // -------------------------------------------------------------- the whole reap

  function Victims(s: Core): set<int> {
    set fd | fd in s.clients && Finished(s.clients[fd])
  }

  lemma VictimsCondemned(s: Core)
    requires Inv(s)
    ensures DeadFds(Condemn(s)) == Fds(Victims(s)) && AllDead(Condemn(s), Fds(Victims(s)))
    ensures Listeners(Fds(Victims(s)), None) == Victims(s)
    ensures forall i :: 0 <= i < |Fds(Victims(s))| ==> Fds(Victims(s))[i] in s.clients
  {
    var t := Condemn(s);
    CondemnInv(s);
    var dead := set fd | fd in t.clients && t.clients[fd].dead;
    forall fd ensures fd in dead <==> fd in Victims(s) {}
    assert dead == Victims(s);
    var fds := Fds(Victims(s));
    forall i | 0 <= i < |fds| ensures fds[i] in Victims(s) {
      var x := fds[i];
      assert x in fds;
    }
  }

  lemma {:induction false} QuitsCondemned(s: Core, fds: seq<int>, x: int)
    requires forall i :: 0 <= i < |fds| ==> fds[i] in s.clients
    ensures QuitsFor(Condemn(s), fds, x) == QuitsFor(s, fds, x)
    decreases |fds|
  {
    if fds != [] {
      assert Shares(Condemn(s), fds[0], x) <==> Shares(s, fds[0], x);
      QuitsCondemned(s, fds[1..], x);
    }
  }

  /** Main result: a reap removes exactly the clients that were dead, or closing and drained, from the
      client map, the poll list and every list of every channel; each survivor is as before, plus one
      QUIT for each registered victim it shared a channel with, in descriptor order. */
  lemma ReapExact(s: Core)
    requires Inv(s)
    ensures
      var u := ReapDead(s);
      var gone := Victims(s);
      u.clients.Keys == s.clients.Keys - gone
      && u.pollFds == Without(s.pollFds, gone)
      && u.channels == PurgeAll(s.channels, gone)
      && (forall i :: 0 <= i < |Fds(gone)| ==> Fds(gone)[i] in s.clients)
      && (forall x :: x in u.clients ==> u.clients[x] == s.clients[x].SendAll(QuitsFor(s, Fds(gone), x), s.wire))
  {
    var t := Condemn(s);
    var fds := Fds(Victims(s));
    VictimsCondemned(s);
    CondemnInv(s);
    ReapKeys(s);
    assert ReapDead(s).clients.Keys == s.clients.Keys - Victims(s);
    DepartureUnpolled(t, fds);
    DepartureForgotten(t, fds);
    forall x | x in ReapDead(s).clients
      ensures ReapDead(s).clients[x] == s.clients[x].SendAll(QuitsFor(s, fds, x), s.wire)
    {
      assert x !in fds;
      forall i | 0 <= i < |fds| ensures fds[i] != x {
        var y := fds[i];
        assert y in fds;
      }
      DepartureHeard(t, fds, x);
      QuitsCondemned(s, fds, x);
    }
  }
}
