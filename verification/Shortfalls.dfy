/** What the server does not promise, with the exact condition under which it holds all the same. */
module Shortfalls {
  import opened Text
  import opened Ordering
  import opened Replies
  import opened Clients
  import opened Channels
  import opened State
  import opened Invariant
  import opened EventLoop
  import opened EventProofs
  import opened Reaping
  import Commands

  // ------------------------------------------------------------ replies can be lost

  /** A reply is queued exactly when the client is served, the line is valid and it fits; one that does not
      fit kills the client; everything else is dropped without a trace. */
  lemma QueuedExactly(c: Client, r: Reply, wire: Encoding)
    ensures
      var d := c.SendMessage(r, wire);
      var fits := |c.sendBuffer| + |wire(r)| <= 65536;
      && (d.accepted == c.accepted + [wire(r)] <==> c.Active() && ValidOutbound(wire(r)) && fits)
      && (if d.accepted == c.accepted + [wire(r)] then d.sendBuffer == c.sendBuffer + wire(r)
          else d.accepted == c.accepted && d.sendBuffer == c.sendBuffer)
      && (d.dead <==> c.dead || (c.Active() && ValidOutbound(wire(r)) && !fits))
      && d.sent == c.sent && d.closing == c.closing
  {
    assert c.accepted != c.accepted + [wire(r)];
  }

  lemma {:induction false} NamesListClean(s: Core, ch: Channel, members: seq<int>)
    requires SessionsOk(s)
    ensures Clean(Commands.NamesList(s, ch, members))
    decreases |members|
  {
    if members != [] {
      NamesListClean(s, ch, members[1..]);
      NamesEntryClean(s, ch, members[0], |members| == 1);
    }
  }

  lemma NamesEntryClean(s: Core, ch: Channel, fd: int, last: bool)
    requires SessionsOk(s)
    ensures Clean(Commands.NamesEntry(s, ch, fd, last))
  {
    if fd in s.clients { assert SessionOk(s.clients[fd]); }
  }

  lemma CleanParts(a: string, b: string)
    requires Clean(a) && Clean(b)
    ensures Clean(a + b)
  {
  }

  /** A 353 line is a valid message exactly when its three texts are at most 493 bytes together; a longer
      list is never sent, in whole or in part. */
  lemma RosterFits(nick: string, name: string, list: string)
    requires Clean(nick) && Clean(name) && Clean(list)
    ensures ValidOutbound(Wire(NamesAre(nick, name, list))) <==> |nick| + |name| + |list| <= 493
  {
    var m := Wire(NamesAre(nick, name, list));
    var head := ":server 353" + Spaced([nick, "=", name]) + " :";
    SpacedThree(nick, "=", name);
    CleanParts(":server 353" + (" " + nick + " "), "=");
    CleanParts(":server 353" + (" " + nick + " ") + "=", " ");
    assert head == ":server 353" + (" " + nick + " ") + "=" + " " + name + " :";
    CleanParts(":server 353" + (" " + nick + " ") + "=" + " ", name);
    CleanParts(":server 353" + (" " + nick + " ") + "=" + " " + name, " :");
    CleanParts(head, list);
    assert m == (head + list) + CRLF && m[..|m| - 2] == head + list;
  }

  lemma SpacedThree(a: string, b: string, c: string)
    ensures Spaced([a, b, c]) == " " + a + " " + b + " " + c
  {
    assert [a, b, c][1..] == [b, c] && [b, c][1..] == [c] && [c][1..] == [];
    assert Spaced([c]) == " " + c + Spaced([]);
    assert Spaced([b, c]) == " " + b + Spaced([c]);
    assert Spaced([a, b, c]) == " " + a + Spaced([b, c]);
    assert " " + a + (" " + b + (" " + c + "")) == " " + a + " " + b + " " + c;
  }

  /** In every run: a newcomer is sent the member list exactly when the nicknames, marks, its own nickname
      and the channel name fit 493 bytes. */
  lemma RosterDelivered(s: Core, fd: int, name: string)
    requires Inv(s) && fd in s.clients && s.clients[fd].nickSet && name in s.channels
    ensures
      var nick, ch := s.clients[fd].nickname, s.channels[name];
      var list := Commands.NamesList(s, ch, ch.members);
      ValidOutbound(Wire(NamesAre(nick, name, list))) <==> |nick| + |name| + |list| <= 493
  {
    hide Wire, Body, ValidOutbound, Commands.NamesList, NicksOk, PollOk;
    assert SessionOk(s.clients[fd]) && EntryOk(s, name, s.channels[name]);
    NamesListClean(s, s.channels[name], s.channels[name].members);
    RosterFits(s.clients[fd].nickname, name, Commands.NamesList(s, s.channels[name], s.channels[name].members));
  }

  // -------------------------------------------------- a survivor of a reap can be dead

  function ValidBytes(rs: seq<Reply>, wire: Encoding): nat {
    if rs == [] then 0 else (if ValidOutbound(wire(rs[0])) then |wire(rs[0])| else 0) + ValidBytes(rs[1..], wire)
  }

  /** Sending a list of replies kills a served client exactly when the valid ones do not fit its queue. */
  lemma {:induction false} SendAllKills(c: Client, rs: seq<Reply>, wire: Encoding)
    requires c.Active() && |c.sendBuffer| <= MAX_SEND_BUFFER
    ensures c.SendAll(rs, wire).dead <==> |c.sendBuffer| + ValidBytes(rs, wire) > MAX_SEND_BUFFER
    decreases |rs|
  {
    hide ValidOutbound;
    if rs != [] {
      var d := c.SendMessage(rs[0], wire);
      if d.dead {
        SendAllDead(d, rs[1..], wire);
      } else {
        SendAllKills(d, rs[1..], wire);
      }
    }
  }

  lemma {:induction false} SendAllClosing(c: Client, rs: seq<Reply>, wire: Encoding)
    requires !c.Active()
    ensures c.SendAll(rs, wire).dead == c.dead
    decreases |rs|
  {
    if rs != [] { SendAllClosing(c.SendMessage(rs[0], wire), rs[1..], wire); }
  }

  /** A client that survives a reap is dead after it exactly when it was still served and the QUIT lines it
      is owed do not fit its queue. */
  lemma SurvivorDies(s: Core, x: int)
    requires Inv(s) && x in ReapDead(s).clients
    ensures x in s.clients && forall i :: 0 <= i < |Fds(Victims(s))| ==> Fds(Victims(s))[i] in s.clients
    ensures ReapDead(s).clients[x].dead <==>
      s.clients[x].Active() && |s.clients[x].sendBuffer| + ValidBytes(QuitsFor(s, Fds(Victims(s)), x), s.wire) > MAX_SEND_BUFFER
  {
    hide ReapDead, QuitsFor, ValidBytes, Fds, NicksOk, PollOk, ChannelsOk;
    ReapExact(s);
    var c := s.clients[x];
    var rs := QuitsFor(s, Fds(Victims(s)), x);
    assert SessionOk(c);
    assert !Finished(c);
    if c.Active() { SendAllKills(c, rs, s.wire); } else { SendAllClosing(c, rs, s.wire); }
  }

  // ------------------------------------------------------ a channel can be left empty

  /** A disconnect leaves a channel in the map, and empty exactly when nobody else was in it. */
  lemma DisconnectEmpties(s: Core, fd: int, name: string)
    requires Inv(s) && fd in s.clients && name in s.channels
    ensures name in Disconnect(s, fd).channels
    ensures Disconnect(s, fd).channels[name].members == [] <==> forall x :: x in s.channels[name].members ==> x == fd
  {
    hide Disconnect, SessionsOk, NicksOk, PollOk, Erase, Heard;
    DisconnectRemoves(s, fd);
    var a := s.channels[name];
    assert EntryOk(s, name, a);
    EraseElements(a.members, fd);
    var left := Disconnect(s, fd).channels[name].members;
    assert left == Erase(a.members, fd);
    if left != [] {
      var x := left[0];
      assert x in left && x in a.members;
    }
  }
}
