/** Who hears an announcement: exactly the right clients, each once. */
module FanOut {
  import opened Text
  import opened Ordering
  import opened Replies
  import opened State

  lemma {:induction false} GatherElements(found: seq<int>, members: seq<int>, except: Option<int>)
    requires NoDup(found)
    ensures NoDup(Gather(found, members, except)) && found <= Gather(found, members, except)
    ensures forall x :: x in Gather(found, members, except) <==> x in found || (x in members && except != Some(x))
    decreases |members|
  {
    if members != [] {
      assert members == [members[0]] + members[1..];
      if except == Some(members[0]) || members[0] in found {
        GatherElements(found, members[1..], except);
      } else {
        GatherElements(found + [members[0]], members[1..], except);
      }
    }
  }

  /** `x` is in one of the named channels together with `fd`. */
  ghost predicate SharesOneOf(s: Core, names: seq<string>, fd: int, x: int) {
    exists name :: name in names && name in s.channels && fd in s.channels[name].members && x in s.channels[name].members
  }

  ghost predicate Shares(s: Core, fd: int, x: int) {
    exists name :: name in s.channels && fd in s.channels[name].members && x in s.channels[name].members
  }

  /** The other connected clients sharing a channel with `fd`. */
  ghost function Sharers(s: Core, fd: int): set<int> {
    set x | x in s.clients && x != fd && Shares(s, fd, x)
  }

  lemma {:induction false} GatherPeersElements(s: Core, fd: int, names: seq<string>, found: seq<int>, except: Option<int>)
    requires NoDup(found)
    ensures NoDup(GatherPeers(s, fd, names, found, except)) && found <= GatherPeers(s, fd, names, found, except)
    ensures forall x :: x in GatherPeers(s, fd, names, found, except) <==>
      (x in found || (SharesOneOf(s, names, fd, x) && except != Some(x)))
    decreases |names|
  {
    if names != [] {
      var n := names[0];
      assert names == [n] + names[1..];
      var next := if n in s.channels && fd in s.channels[n].members then Gather(found, s.channels[n].members, except) else found;
      if n in s.channels && fd in s.channels[n].members {
        GatherElements(found, s.channels[n].members, except);
      }
      GatherPeersElements(s, fd, names[1..], next, except);
      forall x ensures SharesOneOf(s, names, fd, x) <==>
        (n in s.channels && fd in s.channels[n].members && x in s.channels[n].members) || SharesOneOf(s, names[1..], fd, x)
      {
        if SharesOneOf(s, names, fd, x) {
          var k :| k in names && k in s.channels && fd in s.channels[k].members && x in s.channels[k].members;
          assert k == n || k in names[1..];
        }
      }
    }
  }

  /** The QUIT recipients are exactly the other clients sharing a channel, each once. */
  lemma QuitRecipientsExact(s: Core, fd: int)
    ensures NoDup(QuitRecipients(s, fd))
    ensures forall x :: x in QuitRecipients(s, fd) <==> x != fd && Shares(s, fd, x)
  {
    var names := Names(s.channels.Keys);
    GatherPeersElements(s, fd, names, [], Some(fd));
    forall x ensures SharesOneOf(s, names, fd, x) <==> Shares(s, fd, x) {
      if Shares(s, fd, x) {
        var k :| k in s.channels && fd in s.channels[k].members && x in s.channels[k].members;
        assert k in names;
      }
    }
  }

  /** The NICK recipients are exactly the changer, first, and the clients sharing a channel, each once. */
  lemma NickRecipientsExact(s: Core, fd: int)
    ensures NoDup(NickRecipients(s, fd)) && [fd] <= NickRecipients(s, fd)
    ensures forall x :: x in NickRecipients(s, fd) <==> x == fd || Shares(s, fd, x)
  {
    var names := Names(s.channels.Keys);
    GatherPeersElements(s, fd, names, [fd], None);
    forall x ensures SharesOneOf(s, names, fd, x) <==> Shares(s, fd, x) {
      if Shares(s, fd, x) {
        var k :| k in s.channels && fd in s.channels[k].members && x in s.channels[k].members;
        assert k in names;
      }
    }
  }

  function Listeners(members: seq<int>, except: Option<int>): set<int> {
    set x | x in members && except != Some(x)
  }

  lemma ListenersCons(members: seq<int>, except: Option<int>)
    requires members != []
    ensures Listeners(members, except) ==
      (if except == Some(members[0]) then {} else {members[0]}) + Listeners(members[1..], except)
  {
    assert members == [members[0]] + members[1..];
  }

  /** What a client is after a message that reached exactly the clients of a set. */
  ghost predicate Reached(s: Core, t: Core, who: set<int>, r: Reply) {
    && t == s.(clients := t.clients) && t.clients.Keys == s.clients.Keys
    && forall x :: x in s.clients ==>
      t.clients[x] == if x in who then s.clients[x].SendMessage(r, s.wire) else s.clients[x]
  }

  lemma ReachedMore(s: Core, t: Core, who: set<int>, x: int, r: Reply)
    requires Reached(s, t, who, r) && x in s.clients && x !in who
    ensures Reached(s, Send(t, x, r), who + {x}, r)
  {
  }

  /** Fan-out is exact: broadcastMessage calls sendMessage once per member other than the sender and
      touches no other client. */
  lemma {:induction false} BroadcastExact(s: Core, members: seq<int>, except: Option<int>, r: Reply)
    requires NoDup(members) && forall i :: 0 <= i < |members| ==> members[i] in s.clients
    ensures Reached(s, Broadcast(s, members, except, r), Listeners(members, except), r)
    decreases |members|
  {
    BroadcastFrom(s, s, {}, members, except, r);
    assert {} + Listeners(members, except) == Listeners(members, except);
  }

  lemma {:induction false} BroadcastFrom(s: Core, t: Core, who: set<int>, members: seq<int>, except: Option<int>, r: Reply)
    requires Reached(s, t, who, r) && NoDup(members)
    requires forall i :: 0 <= i < |members| ==> members[i] in s.clients && members[i] !in who
    ensures Reached(s, Broadcast(t, members, except, r), who + Listeners(members, except), r)
    decreases |members|
  {
    var all := who + Listeners(members, except);
    if members != [] {
      var m := members[0];
      ListenersCons(members, except);
      if except == Some(m) {
        BroadcastFrom(s, t, who, members[1..], except, r);
        assert all == who + Listeners(members[1..], except);
      } else {
        ReachedMore(s, t, who, m, r);
        BroadcastFrom(s, Send(t, m, r), who + {m}, members[1..], except, r);
        assert all == who + {m} + Listeners(members[1..], except);
      }
    } else {
      assert all == who;
    }
  }

  lemma {:induction false} SendEachFrom(s: Core, t: Core, who: set<int>, fds: seq<int>, r: Reply)
    requires Reached(s, t, who, r) && NoDup(fds)
    requires forall i :: 0 <= i < |fds| ==> fds[i] in s.clients && fds[i] !in who
    ensures Reached(s, SendEach(t, fds, r), who + Listeners(fds, None), r)
    decreases |fds|
  {
    if fds != [] {
      assert fds == [fds[0]] + fds[1..];
      ReachedMore(s, t, who, fds[0], r);
      SendEachFrom(s, Send(t, fds[0], r), who + {fds[0]}, fds[1..], r);
      assert who + Listeners(fds, None) == who + {fds[0]} + Listeners(fds[1..], None);
    } else {
      assert who + Listeners(fds, None) == who;
    }
  }

  lemma SendEachExact(s: Core, fds: seq<int>, r: Reply)
    requires NoDup(fds) && forall i :: 0 <= i < |fds| ==> fds[i] in s.clients
    ensures Reached(s, SendEach(s, fds, r), Listeners(fds, None), r)
  {
    SendEachFrom(s, s, {}, fds, r);
    assert {} + Listeners(fds, None) == Listeners(fds, None);
  }
}
