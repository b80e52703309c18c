/** Server.cpp and the command files as an object updated in place: maps of client and channel
    objects, loops over them, proved against the functions the theorems are about. */
module ServerObject {
  import opened Text
  import opened Ordering
  import opened Replies
  import opened Clients
  import opened Channels
  import opened ClientObject
  import opened ChannelObject
  import State
  import Commands
  import Modes
  import Parsing
  import EventLoop
  import Invariant
  import EventProofs
  import opened LoopSteps

  /** `fault` records a dereference of a freed object, `nextSerial` numbers channel objects, `conns` and
      `rooms` hold every client and channel object ever made. */
  class IrcServer {
    const password: string
    const wire: Encoding
    const listenFd: int
    var clients: map<int, Connection>
    var pollFds: seq<int>
    var channels: map<string, Room>
    ghost var conns: set<Connection>
    ghost var rooms: set<Room>
    ghost var nextSerial: nat
    ghost var fault: bool

    /** Client objects are filed under their descriptors, channel objects under their names. */
    ghost predicate Valid()
      reads this`clients, this`channels, this`conns, this`rooms
    {
      && (forall fd :: fd in clients ==> clients[fd].fd == fd)
      && (forall name :: name in channels ==> channels[name].name == name && channels[name] in rooms)
      && clients.Values <= conns
    }

    ghost function ClientValues(): map<int, Client>
      reads this`clients, clients.Values
    {
      map fd | fd in clients :: clients[fd].Value()
    }

    ghost function ChannelValues(): map<string, Channel>
      reads this`channels, channels.Values
    {
      map name | name in channels :: channels[name].Value()
    }

    /** The shared state this object represents. */
    ghost function Shared(): State.Core
      reads this, clients.Values, channels.Values
    {
      State.Core(password, wire, listenFd, ClientValues(), pollFds, ChannelValues(), nextSerial, fault)
    }

    /** The receive buffers. */
    ghost function Inbox(): map<int, string>
      reads this`clients, clients.Values
    {
      map fd | fd in clients :: clients[fd].recvBuffer
    }

    twostate lemma SameInbox()
      requires unchanged(this`clients) && forall x :: x in clients ==> clients[x].recvBuffer == old(clients[x].recvBuffer)
      ensures Inbox() == old(Inbox())
    {
      forall x | x in clients ensures Inbox()[x] == old(Inbox())[x] {}
    }

    twostate lemma SameClients()
      requires unchanged(this`clients) && forall x :: x in clients ==> unchanged(clients[x])
      ensures ClientValues() == old(ClientValues()) && Inbox() == old(Inbox())
    {
      forall x | x in clients
        ensures clients[x].Value() == old(clients[x].Value()) && clients[x].recvBuffer == old(clients[x].recvBuffer) {}
      assert Inbox() == old(Inbox());
    }

    twostate lemma SameChannels()
      requires unchanged(this`channels) && forall n :: n in channels ==> unchanged(channels[n])
      ensures ChannelValues() == old(ChannelValues())
    {
      forall n | n in channels ensures channels[n].Value() == old(channels[n].Value()) {}
    }

    /** After one channel object was entered under a new name. */
    twostate lemma Inserted(name: string)
      requires name !in old(channels) && channels.Keys == old(channels).Keys + {name}
      requires forall n :: n in old(channels) ==> channels[n] == old(channels)[n] && unchanged(old(channels)[n])
      ensures ChannelValues() == old(ChannelValues())[name := channels[name].Value()]
    {
      forall n | n in channels && n != name ensures channels[n].Value() == old(channels[n].Value()) {}
    }

    /** After one client object was entered under a new descriptor. */
    twostate lemma Connected(fd: int)
      requires fd !in old(clients) && clients.Keys == old(clients).Keys + {fd}
      requires forall x :: x in old(clients) ==> clients[x] == old(clients)[x] && unchanged(old(clients)[x])
      ensures ClientValues() == old(ClientValues())[fd := clients[fd].Value()]
    {
      forall x | x in clients && x != fd ensures clients[x].Value() == old(clients[x].Value()) {}
    }

    twostate lemma ConnectedInbox(fd: int)
      requires fd !in old(clients) && clients.Keys == old(clients).Keys + {fd}
      requires forall x :: x in old(clients) ==> clients[x] == old(clients)[x] && unchanged(old(clients)[x])
      ensures Inbox() == old(Inbox())[fd := clients[fd].recvBuffer]
    {
      forall x | x in clients && x != fd ensures clients[x].recvBuffer == old(clients[x].recvBuffer) {}
    }

    twostate lemma Forgotten(new names: seq<string>, fd: int)
      requires unchanged(this)
      requires forall name :: name in channels ==> name in names
      requires forall k :: 0 <= k < |names| ==> names[k] in channels
      requires forall k :: 0 <= k < |names| ==> channels[names[k]].Value() == old(channels[names[k]].Value()).Forget(fd)
      requires forall x :: x in clients ==> unchanged(clients[x])
      ensures Shared() == old(Shared()).(channels := EventLoop.ForgetAll(old(Shared()).channels, fd)) && Inbox() == old(Inbox())
    {
      SameClients();
      forall name | name in channels ensures channels[name].Value() == old(channels[name].Value()).Forget(fd) {
        assert name in names;
      }
    }

    /** After nothing but reading. */
    twostate lemma Untouched()
      requires unchanged(this)
      requires forall x :: x in clients ==> unchanged(clients[x])
      requires forall n :: n in channels ==> unchanged(channels[n])
      ensures Shared() == old(Shared()) && Inbox() == old(Inbox())
    {
      SameClients();
      SameChannels();
    }

    twostate lemma PutClient(fd: int)
      requires unchanged(this`clients) && fd in clients
      requires forall x :: x in clients && x != fd ==> unchanged(clients[x])
      ensures ClientValues() == old(ClientValues())[fd := clients[fd].Value()]
    {
      forall x | x in clients && x != fd ensures clients[x].Value() == old(clients[x].Value()) {}
    }

    /** After a change to one client object only. */
    twostate lemma OneClient(fd: int)
      requires unchanged(this) && fd in clients
      requires forall x :: x in clients && x != fd ==> unchanged(clients[x])
      requires forall name :: name in channels ==> unchanged(channels[name])
      requires clients[fd].recvBuffer == old(clients[fd].recvBuffer)
      ensures Shared() == State.SetClient(old(Shared()), fd, clients[fd].Value()) && Inbox() == old(Inbox())
    {
      SameInbox();
      PutClient(fd);
      SameChannels();
    }

    /** After a change to one channel object only. */
    twostate lemma OneChannel(name: string)
      requires unchanged(this) && name in channels
      requires forall n :: n in channels && n != name ==> unchanged(channels[n])
      requires forall x :: x in clients ==> unchanged(clients[x])
      ensures Shared() == State.SetChannel(old(Shared()), name, channels[name].Value()) && Inbox() == old(Inbox())
    {
      forall n | n in channels && n != name ensures channels[n].Value() == old(channels[n].Value()) {}
      assert ChannelValues() == old(ChannelValues())[name := channels[name].Value()];
      SameClients();
    }

    lemma SeeClient(fd: int)
      requires fd in clients
      ensures fd in Shared().clients && Shared().clients[fd] == clients[fd].Value()
    {
    }

    lemma SeeBuffer(fd: int)
      requires fd in clients
      ensures fd in Inbox() && Inbox()[fd] == clients[fd].recvBuffer && Inbox() == Inbox()[fd := clients[fd].recvBuffer]
    {
    }

    lemma SeeChannel(name: string)
      requires name in channels
      ensures name in Shared().channels && Shared().channels[name] == channels[name].Value()
    {
    }

    lemma SeeListener()
      ensures Shared().listenFd == listenFd
    {
    }

    lemma SeeKeys()
      ensures Shared().clients.Keys == clients.Keys && Shared().channels.Keys == channels.Keys
    {
    }

    // ---------------------------------------------------------------- talking

    method Send(fd: int, r: Reply)
      requires Valid()
      modifies this`fault, clients.Values
      ensures Valid() && Shared() == State.Send(old(Shared()), fd, r) && Inbox() == old(Inbox())
    {
      if fd in clients {
        clients[fd].SendMessage(wire(r), r);
        OneClient(fd);
        assert clients[fd].Value() == old(Shared()).clients[fd].SendMessage(r, wire);
      } else {
        Fault();
      }
    }

    /** A dereference of a freed object. */
    method Fault()
      requires Valid()
      modifies this`fault
      ensures Valid() && Shared() == old(Shared()).(fault := true) && Inbox() == old(Inbox())
    {
      fault := true;
    }

    /** Channel::broadcastMessage. */
    method Broadcast(members: seq<int>, except: Option<int>, r: Reply)
      requires Valid()
      modifies this`fault, clients.Values
      ensures Valid() && Shared() == State.Broadcast(old(Shared()), members, except, r) && Inbox() == old(Inbox())
    {
      var i := 0;
      assert members[0..] == members;
      while i < |members|
        invariant i <= |members| && Valid() && Inbox() == old(Inbox())
        invariant State.Broadcast(Shared(), members[i..], except, r) == State.Broadcast(old(Shared()), members, except, r)
      {
        assert members[i..][1..] == members[i + 1..];
        if except != Some(members[i]) {
          Send(members[i], r);
        }
        i := i + 1;
      }
    }

    /** The sending loop of the QUIT and NICK announcements. */
    method SendEach(fds: seq<int>, r: Reply)
      requires Valid()
      modifies this`fault, clients.Values
      ensures Valid() && Shared() == State.SendEach(old(Shared()), fds, r) && Inbox() == old(Inbox())
    {
      var i := 0;
      assert fds[0..] == fds;
      while i < |fds|
        invariant i <= |fds| && Valid() && Inbox() == old(Inbox())
        invariant State.SendEach(Shared(), fds[i..], r) == State.SendEach(old(Shared()), fds, r)
      {
        assert fds[i..][1..] == fds[i + 1..];
        Send(fds[i], r);
        i := i + 1;
      }
    }

    // ----------------------------------------------------------------- lookup

    method Answers(fd: int, wanted: string) returns (yes: bool)
      requires fd in clients
      ensures yes == State.Answers(Shared(), fd, wanted)
    {
      var lowered := ToIrcLowerCase(clients[fd].nickname);
      SeeClient(fd);
      yes := !clients[fd].dead && lowered == wanted;
    }

    method FindClientByNick(nickname: string) returns (found: Option<int>)
      ensures found == State.FindClientByNick(Shared(), nickname)
    {
      if nickname == "" { return None; }
      var wanted := ToIrcLowerCase(nickname);
      var fds := Fds(clients.Keys);
      assert clients.Keys == Shared().clients.Keys;
      forall i | 0 <= i < |fds| ensures fds[i] in clients {
        var x := fds[i];
        assert x in fds;
      }
      found := FirstMatch(fds, wanted);
    }

    /** The scan in map order. */
    method FirstMatch(fds: seq<int>, wanted: string) returns (found: Option<int>)
      requires forall i :: 0 <= i < |fds| ==> fds[i] in clients
      ensures found == State.FirstMatch(Shared(), fds, wanted)
    {
      ghost var s := Shared();
      var i := 0;
      assert fds[0..] == fds;
      while i < |fds|
        invariant i <= |fds|
        invariant State.FirstMatch(s, fds[i..], wanted) == State.FirstMatch(s, fds, wanted)
      {
        ghost var rest := fds[i..];
        assert rest[0] == fds[i] && rest[1..] == fds[i + 1..];
        var yes := Answers(fds[i], wanted);
        if yes { return Some(fds[i]); }
        i := i + 1;
      }
      return None;
    }

    /** Channel members not listed yet, appended in order. */
    method Gather(found: seq<int>, members: seq<int>, except: Option<int>) returns (all: seq<int>)
      ensures all == State.Gather(found, members, except)
    {
      all := found;
      var i := 0;
      assert members[0..] == members;
      while i < |members|
        invariant i <= |members|
        invariant State.Gather(all, members[i..], except) == State.Gather(found, members, except)
      {
        assert members[i..][1..] == members[i + 1..];
        if except != Some(members[i]) && members[i] !in all {
          all := all + [members[i]];
        }
        i := i + 1;
      }
    }

    /** The recipient scan over every channel that holds `fd`, in map order. */
    method GatherPeers(fd: int, start: seq<int>, except: Option<int>) returns (found: seq<int>)
      ensures found == State.GatherPeers(Shared(), fd, Names(Shared().channels.Keys), start, except)
    {
      var names := Names(channels.Keys);
      assert channels.Keys == Shared().channels.Keys;
      forall i | 0 <= i < |names| ensures names[i] in channels {
        assert names[i] in names;
      }
      found := GatherFrom(fd, names, start, except);
    }

    method GatherFrom(fd: int, names: seq<string>, start: seq<int>, except: Option<int>) returns (found: seq<int>)
      requires forall i :: 0 <= i < |names| ==> names[i] in channels
      ensures found == State.GatherPeers(Shared(), fd, names, start, except)
    {
      ghost var s := Shared();
      assert channels.Keys == s.channels.Keys;
      found := start;
      var i := 0;
      assert names[0..] == names;
      while i < |names|
        invariant i <= |names|
        invariant State.GatherPeers(s, fd, names[i..], found, except) == State.GatherPeers(s, fd, names, start, except)
      {
        var room := channels[names[i]];
        assert s.channels[names[i]] == room.Value();
        GatherStep(s, fd, names, i, found, except);
        if fd in room.members {
          found := Gather(found, room.members, except);
        }
        i := i + 1;
      }
    }

    // ----------------------------------------------------------- registration

    method Pass(fd: int, params: seq<string>)
      requires Valid() && fd in clients
      modifies this`fault, clients.Values
      ensures Valid() && Shared() == Commands.Pass(old(Shared()), fd, params) && Inbox() == old(Inbox())
    {
      var c := clients[fd];
      SeeClient(fd);
      var shown := if c.nickname == "" then "*" else c.nickname;
      if c.passOk {
        Send(fd, Numeric(462, [shown]));
      } else if params == [] || params[0] == "" {
        Send(fd, Numeric(461, [shown, "PASS"]));
      } else if params[0] == password {
        c.passOk := true;
        OneClient(fd);
      } else {
        c.RecordFailedPassAttempt();
        var r := Numeric(464, [shown]);
        c.SendMessage(wire(r), r);
        if c.failedPass >= MAX_FAILED_PASS { c.MarkClosing(TooManyPasses); }
        OneClient(fd);
      }
    }

    method User(fd: int, params: seq<string>)
      requires Valid() && fd in clients
      modifies this`fault, clients.Values
      ensures Valid() && Shared() == Commands.User(old(Shared()), fd, params) && Inbox() == old(Inbox())
    {
      hide Inbox, State.Send, Commands.ValidUsername;
      var c := clients[fd];
      SeeClient(fd);
      var shown := if c.nickname == "" then "*" else c.nickname;
      if c.userSet {
        Send(fd, Numeric(462, [shown]));
        return;
      }
      if |params| < 4 {
        Send(fd, Numeric(461, [shown, "USER"]));
        return;
      }
      var valid := IsValidUsername(params[0]);
      Untouched();
      if !valid {
        Send(fd, Numeric(468, [shown, params[0]]));
        return;
      }
      c.username := params[0];
      c.userSet := true;
      OneClient(fd);
      if c.passOk && c.nickSet && c.userSet {
        Send(fd, Welcome(c.nickname, c.username));
      }
    }

    method BroadcastNicknameChange(fd: int, oldNick: string, newNick: string)
      requires Valid() && fd in clients
      modifies this`fault, clients.Values
      ensures Valid() && Shared() == Commands.BroadcastNick(old(Shared()), fd, oldNick, newNick) && Inbox() == old(Inbox())
    {
      if oldNick == "" || newNick == "" { return; }
      SeeClient(fd);
      var recipients := GatherPeers(fd, [fd], None);
      SendEach(recipients, NickChanged(oldNick, clients[fd].username, newNick));
    }

    method DisplayName(fd: int) returns (shown: string)
      requires fd in clients
      ensures shown == Shared().clients[fd].Shown()
    {
      SeeClient(fd);
      shown := if clients[fd].nickname == "" then "*" else clients[fd].nickname;
    }

    method Nick(fd: int, params: seq<string>)
      requires Valid() && fd in clients
      modifies this`fault, clients.Values
      ensures Valid() && Shared() == Commands.Nick(old(Shared()), fd, params) && Inbox() == old(Inbox())
    {
      ghost var s := Shared();
      if params == [] || params[0] == "" {
        Send(fd, Numeric(431, ["*"]));
        return;
      }
      var valid := IsValidNickname(params[0]);
      var shown := DisplayName(fd);
      Untouched();
      if valid {
        ClaimNick(fd, params[0]);
        assert Shared() == Commands.ClaimNick(s, fd, params[0]);
      } else {
        Send(fd, Numeric(432, [shown, params[0]]));
        assert Shared() == State.Send(s, fd, Numeric(432, [s.clients[fd].Shown(), params[0]]));
      }
    }

    method ClaimNick(fd: int, nick: string)
      requires Valid() && fd in clients
      modifies this`fault, clients.Values
      ensures Valid() && Shared() == Commands.ClaimNick(old(Shared()), fd, nick) && Inbox() == old(Inbox())
    {
      hide Valid, Inbox, State.FindClientByNick, Commands.TakeNick, State.Send;
      ghost var s := Shared();
      var owner := FindClientByNick(nick);
      var shown := DisplayName(fd);
      Untouched();
      if owner.Some? && owner.value != fd {
        Send(fd, Numeric(433, [shown, nick]));
        assert Shared() == State.Send(s, fd, Numeric(433, [s.clients[fd].Shown(), nick]));
      } else {
        TakeNick(fd, nick);
        assert Shared() == Commands.TakeNick(s, fd, nick);
      }
    }

    method TakeNick(fd: int, nick: string)
      requires Valid() && fd in clients
      modifies this`fault, clients.Values
      ensures Valid() && Shared() == Commands.TakeNick(old(Shared()), fd, nick) && Inbox() == old(Inbox())
    {
      var c := clients[fd];
      SeeClient(fd);
      var wasRegistered := c.passOk && c.nickSet && c.userSet;
      var oldNick := c.nickname;
      c.nickname := nick;
      c.nickSet := true;
      OneClient(fd);
      if wasRegistered && oldNick != nick {
        BroadcastNicknameChange(fd, oldNick, nick);
      } else if !wasRegistered && c.passOk && c.nickSet && c.userSet {
        Send(fd, Welcome(c.nickname, c.username));
      }
    }

    // ------------------------------------------------------------------- JOIN

    /** A new channel object with its founder. */
    method NewRoom(name: string, ghost serial: nat, fd: int) returns (room: Room)
      ensures fresh(room) && room.Value() == Commands.Founded(name, serial, fd) && room.name == name
    {
      room := new Room(name, serial);
      room.topicRestricted := true;
      room.AddMember(fd);
      room.AddOperator(fd);
    }

    /** createChannel and the founder's status. */
    method FoundChannel(fd: int, name: string)
      requires Valid() && name !in channels
      modifies this`channels, this`rooms, this`nextSerial
      ensures Valid() && Shared() == Commands.Found(old(Shared()), fd, name) && Inbox() == old(Inbox())
      ensures name in channels && name in Shared().channels && fresh(rooms - old(rooms))
    {
      ghost var s := Shared();
      assert name !in s.channels;
      var room := NewRoom(name, nextSerial, fd);
      channels := channels[name := room];
      rooms := rooms + {room};
      nextSerial := nextSerial + 1;
      SameClients();
      Inserted(name);
      Commands.FoundIs(s, fd, name);
    }

    method EnterNew(fd: int, name: string)
      requires Valid() && fd in clients && name !in channels
      modifies this`fault, this`channels, this`rooms, this`nextSerial, clients.Values
      ensures Valid() && Shared() == Commands.EnterNew(old(Shared()), fd, name) && Inbox() == old(Inbox())
      ensures fresh(rooms - old(rooms))
    {
      hide Valid, Inbox, Shared, Commands.AnnounceJoin, Commands.Found;
      SeeClient(fd);
      FoundChannel(fd, name);
      AnnounceJoin(fd, name, true);
    }

    /** The 353 list. */
    method NamesList(room: Room) returns (list: string)
      ensures list == Commands.NamesList(Shared(), room.Value(), room.members)
    {
      list := "";
      ghost var s, ch := Shared(), room.Value();
      assert forall x :: x in clients ==> s.clients[x] == clients[x].Value();
      var members := room.members;
      var j := 0;
      assert members[0..] == members;
      while j < |members|
        invariant j <= |members|
        invariant list + Commands.NamesList(s, ch, members[j..]) == Commands.NamesList(s, ch, members)
      {
        var entry := (if members[j] in room.operators then "@" else "")
          + (if members[j] in clients then clients[members[j]].nickname else "")
          + (if j + 1 == |members| then "" else " ");
        assert entry == Commands.NamesEntry(s, ch, members[j], j + 1 == |members|);
        NamesListStep(s, ch, members, j, list, entry);
        list := list + entry;
        j := j + 1;
      }
    }

    method AnnounceArrival(fd: int, name: string, isNew: bool)
      requires Valid() && fd in clients && name in channels
      modifies this`fault, clients.Values
      ensures Valid() && Shared() == Commands.AnnounceArrival(old(Shared()), fd, name, isNew) && Inbox() == old(Inbox())
    {
      hide Valid, Inbox, Shared, State.Send, State.Broadcast;
      var c, room := clients[fd], channels[name];
      SeeClient(fd);
      SeeChannel(name);
      var nick, user := c.nickname, c.username;
      Broadcast(room.members, Some(fd), Joined(nick, user, name));
      Send(fd, Joined(nick, user, name));
      if isNew { Send(fd, FreshModes(name)); }
      if room.topic != "" { Send(fd, TopicIs(nick, name, room.topic)); }
    }

    method TellRoster(fd: int, name: string)
      requires Valid() && fd in clients && name in channels
      modifies this`fault, clients.Values
      ensures Valid() && Shared() == Commands.TellRoster(old(Shared()), fd, name) && Inbox() == old(Inbox())
    {
      hide Valid, Inbox, Commands.NamesList, State.Send;
      SeeClient(fd);
      SeeChannel(name);
      var nick := clients[fd].nickname;
      var list := NamesList(channels[name]);
      Untouched();
      Send(fd, NamesAre(nick, name, list));
      Send(fd, Numeric(366, [nick, name]));
    }

    method AnnounceJoin(fd: int, name: string, isNew: bool)
      requires Valid() && fd in clients && name in channels
      modifies this`fault, clients.Values
      ensures Valid() && Shared() == Commands.AnnounceJoin(old(Shared()), fd, name, isNew) && Inbox() == old(Inbox())
    {
      hide Valid, Inbox, Commands.AnnounceArrival, Commands.TellRoster;
      SeeClient(fd);
      SeeChannel(name);
      AnnounceArrival(fd, name, isNew);
      SeeClient(fd);
      SeeChannel(name);
      TellRoster(fd, name);
    }

    /** The admission checks, in the source's order. */
    method Refusal(room: Room, fd: int, key: string) returns (refusal: Option<nat>)
      ensures refusal == Commands.Refusal(room.Value(), fd, key)
    {
      if room.key != "" && room.key != key { return Some(475); }
      if room.inviteOnly {
        if fd !in room.invited { return Some(473); }
      }
      if room.limit > 0 && |room.members| >= room.limit { return Some(471); }
      return None;
    }

    method AdmitMember(fd: int, name: string)
      requires Valid() && name in channels
      modifies rooms
      ensures Shared() == State.SetChannel(old(Shared()), name, Commands.Admit(old(Shared()).channels[name], fd))
      ensures Inbox() == old(Inbox())
    {
      SeeChannel(name);
      channels[name].Admit(fd);
      OneChannel(name);
    }

    method EnterOne(fd: int, name: string, key: string)
      requires Valid() && fd in clients && name in channels
      modifies this`fault, clients.Values, rooms
      ensures Valid() && Shared() == Commands.EnterOne(old(Shared()), fd, name, key) && Inbox() == old(Inbox())
    {
      hide Valid, Inbox, Shared, State.Send, State.SetChannel, Commands.AnnounceJoin, Commands.Refusal, Commands.Admit;
      ghost var s := Shared();
      SeeClient(fd);
      SeeChannel(name);
      var refusal := Refusal(channels[name], fd, key);
      Untouched();
      if refusal.Some? {
        Send(fd, Numeric(refusal.value, [clients[fd].nickname, name]));
      } else {
        AdmitMember(fd, name);
        AnnounceJoin(fd, name, false);
      }
    }

    method JoinNamed(fd: int, name: string, key: string)
      requires Valid() && fd in clients
      modifies this`fault, this`channels, this`rooms, this`nextSerial, clients.Values, rooms
      ensures Valid() && Shared() == Commands.JoinNamed(old(Shared()), fd, name, key) && Inbox() == old(Inbox())
      ensures fresh(rooms - old(rooms))
    {
      hide Valid, Inbox, Shared, Commands.EnterNew, Commands.EnterOne;
      SeeClient(fd);
      SeeKeys();
      if name !in channels {
        EnterNew(fd, name);
        return;
      }
      SeeChannel(name);
      if fd !in channels[name].members {
        EnterOne(fd, name, key);
      }
    }

    method JoinOne(fd: int, name: string, key: string)
      requires Valid() && fd in clients
      modifies this`fault, this`channels, this`rooms, this`nextSerial, clients.Values, rooms
      ensures Valid() && Shared() == Commands.JoinOne(old(Shared()), fd, name, key) && Inbox() == old(Inbox())
      ensures fresh(rooms - old(rooms))
    {
      hide Valid, Inbox, Commands.JoinNamed, Commands.ValidChannelName;
      SeeClient(fd);
      var valid := IsValidChannelName(name);
      Untouched();
      if valid {
        JoinNamed(fd, name, key);
      } else {
        Send(fd, Numeric(403, [clients[fd].nickname, name]));
      }
    }

    method JoinNext(fd: int, names: seq<string>, keys: seq<string>, i: nat)
      requires Valid() && fd in clients && i < |names|
      modifies this`fault, this`channels, this`rooms, this`nextSerial, clients.Values, rooms
      ensures Valid() && Inbox() == old(Inbox())
      ensures Commands.JoinList(Shared(), fd, names[i + 1..], After(keys, i + 1)) ==
        Commands.JoinList(old(Shared()), fd, names[i..], After(keys, i))
      ensures fresh(rooms - old(rooms))
    {
      SeeClient(fd);
      JoinListStep(Shared(), fd, names, keys, i);
      JoinOne(fd, names[i], if i < |keys| then keys[i] else "");
    }

    method JoinList(fd: int, names: seq<string>, keys: seq<string>)
      requires Valid() && fd in clients
      modifies this`fault, this`channels, this`rooms, this`nextSerial, clients.Values, rooms
      ensures Valid() && Shared() == Commands.JoinList(old(Shared()), fd, names, keys) && Inbox() == old(Inbox())
      ensures fresh(rooms - old(rooms))
    {
      hide Valid, Inbox, Commands.JoinOne;
      var i := 0;
      assert names[0..] == names && After(keys, 0) == keys;
      while i < |names|
        invariant i <= |names| && Valid() && Inbox() == old(Inbox())
        invariant fresh(rooms - old(rooms))
        invariant Commands.JoinList(Shared(), fd, names[i..], After(keys, i)) == Commands.JoinList(old(Shared()), fd, names, keys)
      {
        JoinNext(fd, names, keys, i);
        i := i + 1;
      }
    }

    method RemoveChannel(name: string)
      requires Valid()
      modifies this`channels
      ensures Valid() && Shared() == State.RemoveChannel(old(Shared()), name) && Inbox() == old(Inbox())
      ensures channels == old(channels) - {name}
    {
      channels := channels - {name};
      assert ChannelValues() == old(ChannelValues()) - {name};
      SameClients();
    }

    method DropMember(name: string, x: int)
      requires Valid() && name in channels
      modifies rooms
      ensures Valid() && Inbox() == old(Inbox()) && name in old(Shared()).channels
      ensures Shared() == State.SetChannel(old(Shared()), name, old(Shared()).channels[name].RemoveMember(x))
    {
      SeeChannel(name);
      channels[name].RemoveMember(x);
      OneChannel(name);
    }

    /** The membership goes; a channel left empty is deleted. */
    method PartChannel(fd: int, name: string)
      requires Valid() && name in channels
      modifies this`channels, rooms
      ensures Valid() && Inbox() == old(Inbox()) && name in old(Shared()).channels
      ensures
        var s := old(Shared());
        var left := s.channels[name].RemoveMember(fd);
        Shared() == if |left.members| == 0 then State.RemoveChannel(s, s.channels[name].name) else State.SetChannel(s, name, left)
    {
      hide Inbox;
      ghost var s := Shared();
      assert s.channels[name] == channels[name].Value();
      DropMember(name, fd);
      ghost var left := channels[name].Value();
      assert Shared().channels[name] == left;
      if |channels[name].members| == 0 {
        RemoveChannel(channels[name].name);
        Overwritten(s, name, left);
      }
    }

    method LeaveOne(fd: int, name: string)
      requires Valid()
      modifies this`fault, this`channels, clients.Values, rooms
      ensures Valid() && Shared() == Commands.LeaveOne(old(Shared()), fd, name) && Inbox() == old(Inbox())
    {
      hide Valid, Inbox, Shared, State.Send, State.Broadcast, State.SetChannel, State.RemoveChannel;
      SeeKeys();
      if fd !in clients || name !in channels {
        Fault();
        return;
      }
      SeeClient(fd);
      SeeChannel(name);
      var c, room := clients[fd], channels[name];
      if fd !in room.members { return; }
      var parted := Parted(c.nickname, c.username, room.name);
      Broadcast(room.members, Some(fd), parted);
      Send(fd, parted);
      SeeChannel(name);
      PartChannel(fd, name);
    }

    /** JOIN 0 over its snapshot of the channel map. */
    method LeaveEach(fd: int, snapshot: seq<string>)
      requires Valid()
      modifies this`fault, this`channels, clients.Values, rooms
      ensures Valid() && Shared() == Commands.LeaveEach(old(Shared()), fd, snapshot) && Inbox() == old(Inbox())
    {
      hide Valid, Inbox, Shared, Commands.LeaveOne;
      var i := 0;
      assert snapshot[0..] == snapshot;
      while i < |snapshot|
        invariant i <= |snapshot| && Valid() && Inbox() == old(Inbox())
        invariant Commands.LeaveEach(Shared(), fd, snapshot[i..]) == Commands.LeaveEach(old(Shared()), fd, snapshot)
      {
        assert snapshot[i..][1..] == snapshot[i + 1..];
        LeaveOne(fd, snapshot[i]);
        i := i + 1;
      }
    }

    method Join(fd: int, params: seq<string>)
      requires Valid() && fd in clients
      modifies this`fault, this`channels, this`rooms, this`nextSerial, clients.Values, rooms
      ensures Valid() && Shared() == Commands.Join(old(Shared()), fd, params) && Inbox() == old(Inbox())
      ensures fresh(rooms - old(rooms))
    {
      hide Valid, Inbox, Shared, State.Send, Commands.LeaveEach, Commands.JoinList, Tokens;
      SeeClient(fd);
      SeeKeys();
      if params == [] {
        Send(fd, Numeric(461, [clients[fd].nickname, "JOIN"]));
      } else if params[0] == "0" {
        LeaveEach(fd, Names(channels.Keys));
      } else {
        var names := Tokenise(params[0], Commands.COMMA);
        var keys: seq<string> := [];
        if |params| > 1 { keys := Tokenise(params[1], Commands.COMMA); }
        Untouched();
        JoinList(fd, names, keys);
      }
    }

    // ------------------------------------------------------------------- KICK

    method KickOne(fd: int, name: string, nick: string, reason: string)
      requires Valid() && fd in clients
      modifies this`fault, clients.Values, rooms
      ensures Valid() && Shared() == Commands.KickOne(old(Shared()), fd, name, nick, reason) && Inbox() == old(Inbox())
    {
      hide Valid, Inbox, Shared, State.Send, State.SetChannel, State.Broadcast, State.FindClientByNick;
      SeeKeys();
      SeeClient(fd);
      var asker := clients[fd].nickname;
      if name !in channels {
        Send(fd, Numeric(403, [asker, name]));
        return;
      }
      SeeChannel(name);
      if fd !in channels[name].members {
        Send(fd, Numeric(442, [asker, name]));
        return;
      }
      if fd !in channels[name].operators {
        Send(fd, Numeric(482, [asker, name]));
        return;
      }
      var target := FindClientByNick(nick);
      Untouched();
      if target.None? || target.value !in channels[name].members {
        Send(fd, Numeric(441, [asker, nick, name]));
      } else {
        Eject(fd, name, target.value, Kicked(asker, clients[fd].username, name, nick, reason));
      }
    }

    /** Everyone is told, the target included; then it is a member no more. */
    method Eject(fd: int, name: string, target: int, kicked: Reply)
      requires Valid() && name in channels
      modifies this`fault, clients.Values, rooms
      ensures name in old(Shared()).channels && Inbox() == old(Inbox())
      ensures
        var s := old(Shared());
        var ch := s.channels[name];
        Shared() == State.SetChannel(State.Send(State.Broadcast(s, ch.members, Some(fd), kicked), fd, kicked), name, ch.RemoveMember(target))
    {
      hide Valid, Inbox, Shared, State.Send, State.Broadcast, State.SetChannel;
      SeeChannel(name);
      Broadcast(channels[name].members, Some(fd), kicked);
      Send(fd, kicked);
      SeeChannel(name);
      DropMember(name, target);
    }

    method KickEach(fd: int, names: seq<string>, nicks: seq<string>, reason: string)
      requires Valid() && fd in clients && (|names| == 1 || |names| == |nicks|)
      modifies this`fault, clients.Values, rooms
      ensures Valid() && Shared() == Commands.KickEach(old(Shared()), fd, names, nicks, 0, reason) && Inbox() == old(Inbox())
    {
      hide Inbox, Commands.KickOne;
      var i := 0;
      while i < |nicks|
        invariant i <= |nicks| && Valid() && Inbox() == old(Inbox())
        invariant Commands.KickEach(Shared(), fd, names, nicks, i, reason) == Commands.KickEach(old(Shared()), fd, names, nicks, 0, reason)
      {
        SeeClient(fd);
        KickOne(fd, if |names| == 1 then names[0] else names[i], nicks[i], reason);
        i := i + 1;
      }
    }

    method Kick(fd: int, params: seq<string>)
      requires Valid() && fd in clients
      modifies this`fault, clients.Values, rooms
      ensures Valid() && Shared() == Commands.Kick(old(Shared()), fd, params) && Inbox() == old(Inbox())
    {
      hide Valid, Inbox, Commands.KickEach, Tokens;
      SeeClient(fd);
      var asker := clients[fd].nickname;
      if |params| < 2 {
        Send(fd, Numeric(461, [asker, "KICK"]));
        return;
      }
      var names := Tokenise(params[0], Commands.COMMA);
      var nicks := Tokenise(params[1], Commands.COMMA);
      Untouched();
      if |names| != 1 && |names| != |nicks| {
        Send(fd, Numeric(461, [asker, "KICK"]));
      } else {
        KickEach(fd, names, nicks, if |params| > 2 then params[2] else "No reason given");
      }
    }

    // ------------------------------------------------------- INVITE and TOPIC

    method AddInvitation(name: string, x: int)
      requires Valid() && name in channels
      modifies rooms
      ensures Valid() && Inbox() == old(Inbox()) && name in old(Shared()).channels
      ensures Shared() == State.SetChannel(old(Shared()), name, old(Shared()).channels[name].AddInvited(x))
    {
      SeeChannel(name);
      channels[name].AddInvited(x);
      OneChannel(name);
    }

    /** The invitation is recorded, then both sides are told. */
    method Summon(fd: int, target: int, name: string, inviting: Reply, invited: Reply)
      requires Valid() && name in channels
      modifies this`fault, clients.Values, rooms
      ensures Valid() && Inbox() == old(Inbox()) && name in old(Shared()).channels
      ensures
        var s := old(Shared());
        Shared() == State.Send(State.Send(State.SetChannel(s, name, s.channels[name].AddInvited(target)), fd, inviting), target, invited)
    {
      hide Valid, Inbox, Shared, State.Send, State.SetChannel;
      SeeChannel(name);
      AddInvitation(name, target);
      Send(fd, inviting);
      Send(target, invited);
    }

    method Invite(fd: int, params: seq<string>)
      requires Valid() && fd in clients
      modifies this`fault, clients.Values, rooms
      ensures Valid() && Shared() == Commands.Invite(old(Shared()), fd, params) && Inbox() == old(Inbox())
    {
      hide Valid, Inbox, Shared, State.Send, State.SetChannel, State.FindClientByNick;
      SeeKeys();
      SeeClient(fd);
      var asker, user := clients[fd].nickname, clients[fd].username;
      if |params| < 2 {
        Send(fd, Numeric(461, [asker, "INVITE"]));
        return;
      }
      var nick, name := params[0], params[1];
      var target := FindClientByNick(nick);
      Untouched();
      if target.None? {
        Send(fd, Numeric(401, [asker, nick]));
        return;
      }
      if name !in channels {
        Send(fd, Numeric(403, [asker, name]));
        return;
      }
      SeeChannel(name);
      var room := channels[name];
      if fd !in room.members {
        Send(fd, Numeric(442, [asker, name]));
      } else if target.value in room.members {
        Send(fd, Numeric(443, [asker, nick, name]));
      } else if room.inviteOnly && fd !in room.operators {
        Send(fd, Numeric(482, [asker, name]));
      } else {
        Summon(fd, target.value, name, Inviting(asker, nick, name), Invited(asker, user, nick, name));
      }
    }

    method SetTopic(name: string, topic: string)
      requires Valid() && name in channels
      modifies rooms
      ensures Valid() && Inbox() == old(Inbox()) && name in old(Shared()).channels
      ensures Shared() == State.SetChannel(old(Shared()), name, old(Shared()).channels[name].(topic := topic))
    {
      SeeChannel(name);
      channels[name].topic := topic;
      OneChannel(name);
    }

    /** The new topic, told to every member once. */
    method Retitle(fd: int, name: string, topic: string, said: Reply)
      requires Valid() && name in channels
      modifies this`fault, clients.Values, rooms
      ensures Valid() && Inbox() == old(Inbox()) && name in old(Shared()).channels
      ensures
        var s := old(Shared());
        var ch := s.channels[name];
        Shared() == State.Send(State.Broadcast(State.SetChannel(s, name, ch.(topic := topic)), ch.members, Some(fd), said), fd, said)
    {
      hide Valid, Inbox, Shared, State.Send, State.SetChannel, State.Broadcast;
      SeeChannel(name);
      var members := channels[name].members;
      SetTopic(name, topic);
      Broadcast(members, Some(fd), said);
      Send(fd, said);
    }

    method Topic(fd: int, params: seq<string>)
      requires Valid() && fd in clients
      modifies this`fault, clients.Values, rooms
      ensures Valid() && Shared() == Commands.Topic(old(Shared()), fd, params) && Inbox() == old(Inbox())
    {
      hide Valid, Inbox, Shared, State.Send, State.SetChannel, State.Broadcast;
      SeeKeys();
      SeeClient(fd);
      var asker, user := clients[fd].nickname, clients[fd].username;
      if params == [] {
        Send(fd, Numeric(461, [asker, "TOPIC"]));
        return;
      }
      var name := params[0];
      if name !in channels {
        Send(fd, Numeric(403, [asker, name]));
        return;
      }
      SeeChannel(name);
      var room := channels[name];
      if fd !in room.members {
        Send(fd, Numeric(442, [asker, name]));
      } else if |params| == 1 {
        if room.topic == "" {
          Send(fd, Numeric(331, [asker, name]));
        } else {
          Send(fd, TopicIs(asker, name, room.topic));
        }
      } else if room.topicRestricted && fd !in room.operators {
        Send(fd, Numeric(482, [asker, name]));
      } else {
        Retitle(fd, name, params[1], TopicSet(asker, user, name, params[1]));
      }
    }

    // ---------------------------------------------------------------- PRIVMSG

    method SayOne(fd: int, target: string, text: string)
      requires Valid() && fd in clients
      modifies this`fault, clients.Values
      ensures Valid() && Shared() == Commands.SayOne(old(Shared()), fd, target, text) && Inbox() == old(Inbox())
    {
      hide Valid, Inbox, Shared, State.Send, State.Broadcast, State.FindClientByNick;
      SeeKeys();
      SeeClient(fd);
      var asker := clients[fd].nickname;
      var said := Said(asker, clients[fd].username, target, text);
      if Commands.IsChannelTarget(target) {
        if target !in channels {
          Send(fd, Numeric(401, [asker, target]));
          return;
        }
        SeeChannel(target);
        if fd !in channels[target].members {
          Send(fd, Numeric(404, [asker, target]));
        } else {
          Broadcast(channels[target].members, Some(fd), said);
        }
      } else {
        var peer := FindClientByNick(target);
        Untouched();
        if peer.None? {
          Send(fd, Numeric(401, [asker, target]));
        } else {
          Send(peer.value, said);
        }
      }
    }

    method SayEach(fd: int, targets: seq<string>, text: string)
      requires Valid() && fd in clients
      modifies this`fault, clients.Values
      ensures Valid() && Shared() == Commands.SayEach(old(Shared()), fd, targets, text) && Inbox() == old(Inbox())
    {
      hide Inbox, Commands.SayOne;
      var i := 0;
      assert targets[0..] == targets;
      while i < |targets|
        invariant i <= |targets| && Valid() && Inbox() == old(Inbox())
        invariant Commands.SayEach(Shared(), fd, targets[i..], text) == Commands.SayEach(old(Shared()), fd, targets, text)
      {
        assert targets[i..][1..] == targets[i + 1..] && fd in Shared().clients;
        SayOne(fd, targets[i], text);
        i := i + 1;
      }
    }

    method Privmsg(fd: int, params: seq<string>)
      requires Valid() && fd in clients
      modifies this`fault, clients.Values
      ensures Valid() && Shared() == Commands.Privmsg(old(Shared()), fd, params) && Inbox() == old(Inbox())
    {
      hide Inbox, Commands.SayEach, Tokens;
      SeeClient(fd);
      if params == [] {
        Send(fd, Numeric(411, [clients[fd].nickname]));
      } else if |params| < 2 {
        Send(fd, Numeric(412, [clients[fd].nickname]));
      } else {
        var targets := Tokenise(params[0], Commands.COMMA);
        Untouched();
        SayEach(fd, targets, params[1]);
      }
    }

    // ------------------------------------------------------------------- MODE

    /** The 324 letters and arguments. */
    method ActiveSettings(room: Room) returns (modes: string, args: seq<string>)
      ensures modes == Modes.ActiveModes(room.Value()) && args == Modes.ActiveArgs(room.Value())
    {
      modes, args := "+", [];
      if room.inviteOnly { modes := modes + "i"; }
      if room.topicRestricted { modes := modes + "t"; }
      if room.key != "" { modes, args := modes + "k", args + [room.key]; }
      if room.limit > 0 { modes, args := modes + "l", args + [Digits(room.limit)]; }
      assert modes == "+" + Modes.ActiveLetters(room.Value());
      if modes == "+" { modes := ""; }
    }

    method QueryModes(fd: int, target: string)
      requires Valid() && fd in clients && target in channels
      modifies this`fault, clients.Values
      ensures Valid() && Inbox() == old(Inbox()) && fd in old(Shared()).clients && target in old(Shared()).channels
      ensures
        var s := old(Shared());
        var ch := s.channels[target];
        Shared() == State.Send(s, fd, ModesAre(s.clients[fd].nickname, target, Modes.ActiveModes(ch), Modes.ActiveArgs(ch)))
    {
      hide Valid, Inbox, Shared, State.Send, Modes.ActiveModes, Modes.ActiveArgs;
      SeeClient(fd);
      SeeChannel(target);
      var modes, args := ActiveSettings(channels[target]);
      Untouched();
      Send(fd, ModesAre(clients[fd].nickname, target, modes, args));
    }

    /** Setters of Channel reached from the interpreter. */
    method SetInviteOnly(target: string, on: bool)
      requires Valid() && target in channels
      modifies rooms
      ensures Valid() && Inbox() == old(Inbox()) && target in old(Shared()).channels
      ensures Shared() == State.SetChannel(old(Shared()), target, old(Shared()).channels[target].(inviteOnly := on))
    {
      SeeChannel(target);
      channels[target].inviteOnly := on;
      OneChannel(target);
    }

    method SetTopicRestricted(target: string, on: bool)
      requires Valid() && target in channels
      modifies rooms
      ensures Valid() && Inbox() == old(Inbox()) && target in old(Shared()).channels
      ensures Shared() == State.SetChannel(old(Shared()), target, old(Shared()).channels[target].(topicRestricted := on))
    {
      SeeChannel(target);
      channels[target].topicRestricted := on;
      OneChannel(target);
    }

    method SetPassword(target: string, key: string)
      requires Valid() && target in channels
      modifies rooms
      ensures Valid() && Inbox() == old(Inbox()) && target in old(Shared()).channels
      ensures Shared() == State.SetChannel(old(Shared()), target, old(Shared()).channels[target].(key := key))
    {
      SeeChannel(target);
      channels[target].key := key;
      OneChannel(target);
    }

    method SetUserLimit(target: string, limit: nat)
      requires Valid() && target in channels
      modifies rooms
      ensures Valid() && Inbox() == old(Inbox()) && target in old(Shared()).channels
      ensures Shared() == State.SetChannel(old(Shared()), target, old(Shared()).channels[target].SetLimit(limit))
    {
      SeeChannel(target);
      channels[target].SetUserLimit(limit);
      OneChannel(target);
    }

    method SetOperator(target: string, x: int, on: bool)
      requires Valid() && target in channels
      modifies rooms
      ensures Valid() && Inbox() == old(Inbox()) && target in old(Shared()).channels
      ensures
        var ch := old(Shared()).channels[target];
        Shared() == State.SetChannel(old(Shared()), target, if on then ch.AddOperator(x) else ch.RemoveOperator(x))
    {
      SeeChannel(target);
      if on { channels[target].AddOperator(x); } else { channels[target].RemoveOperator(x); }
      OneChannel(target);
    }

    /** i, t and -l: whether the letter is announced. */
    method PlainMode(fd: int, target: string, plus: bool, c: char) returns (changed: bool)
      requires Valid() && target in channels && c in {'i', 't', 'l'} && !Modes.TakesArgument(c, plus)
      modifies this`fault, clients.Values, rooms
      ensures Valid() && Inbox() == old(Inbox()) && target in old(Shared()).channels
      ensures Took(old(Shared()), Shared(), fd, target, Modes.PlainEffect(plus, old(Shared()).channels[target], c), changed, c, [])
    {
      hide Valid, Inbox, Shared, State.Send, State.SetChannel;
      SeeChannel(target);
      var room := channels[target];
      if c == 'i' {
        changed := room.inviteOnly != plus;
        if changed { SetInviteOnly(target, plus); }
      } else if c == 't' {
        changed := room.topicRestricted != plus;
        if changed { SetTopicRestricted(target, plus); }
      } else {
        changed := room.limit > 0;
        if changed { SetUserLimit(target, 0); }
      }
    }

    method KeyMode(fd: int, nick: string, target: string, plus: bool, key: string) returns (changed: bool, arg: seq<string>)
      requires Valid() && target in channels
      modifies this`fault, clients.Values, rooms
      ensures Valid() && Inbox() == old(Inbox()) && target in old(Shared()).channels
      ensures Took(old(Shared()), Shared(), fd, target, Modes.KeyEffect(plus, nick, target, old(Shared()).channels[target], key),
                   changed, 'k', arg)
    {
      hide Valid, Inbox, Shared, State.Send, State.SetChannel;
      SeeChannel(target);
      changed, arg := false, [];
      if plus {
        if ' ' in key || '\t' in key || ',' in key {
          Send(fd, BadKey(nick, target, key));
        } else if channels[target].key == "" {
          SetPassword(target, key);
          changed, arg := true, [key];
        } else {
          Send(fd, Numeric(467, [nick, target]));
        }
      } else if channels[target].key == key {
        SetPassword(target, "");
        changed, arg := true, ["*"];
      }
    }

    method LimitMode(fd: int, nick: string, target: string, text: string) returns (changed: bool, arg: seq<string>)
      requires Valid() && target in channels
      modifies this`fault, clients.Values, rooms
      ensures Valid() && Inbox() == old(Inbox()) && target in old(Shared()).channels
      ensures Took(old(Shared()), Shared(), fd, target, Modes.LimitEffect(nick, target, old(Shared()).channels[target], text),
                   changed, 'l', arg)
    {
      hide Valid, Inbox, Shared, State.Send, State.SetChannel, Digits;
      SeeChannel(target);
      changed, arg := false, [];
      var number := IsNumber(text);
      Untouched();
      if !number || text == "" {
        Send(fd, BadLimit(nick, target, text));
      } else {
        var limit := Atoi(text);
        if limit > 0 && channels[target].limit != limit {
          SetUserLimit(target, limit);
          changed, arg := true, [Digits(limit)];
        }
      }
    }

    method OperatorMode(fd: int, nick: string, target: string, plus: bool, peerNick: string)
      returns (changed: bool, arg: seq<string>)
      requires Valid() && target in channels
      modifies this`fault, clients.Values, rooms
      ensures Valid() && Inbox() == old(Inbox()) && target in old(Shared()).channels
      ensures Took(old(Shared()), Shared(), fd, target,
        Modes.OperatorEffect(State.FindClientByNick(old(Shared()), peerNick), plus, nick, target, old(Shared()).channels[target], peerNick),
        changed, 'o', arg)
    {
      hide Valid, Inbox, Shared, State.Send, State.SetChannel, State.FindClientByNick;
      SeeChannel(target);
      changed, arg := false, [];
      var peer := FindClientByNick(peerNick);
      Untouched();
      if peer.Some? && peer.value in channels[target].members {
        var isOperator := peer.value in channels[target].operators;
        if plus != isOperator {
          SetOperator(target, peer.value, plus);
          changed, arg := true, [peerNick];
        }
      } else {
        Send(fd, Numeric(441, [nick, peerNick, target]));
      }
    }

    /** One character of the mode string. */
    method ModeCharacter(fd: int, nick: string, target: string, params: seq<string>, c: char, ghost x: Modes.Scan,
                         plus: bool, cursor: nat, lastSign: char, modes: string, margs: seq<string>)
      returns (plus': bool, cursor': nat, lastSign': char, modes': string, margs': seq<string>)
      requires Valid() && target in channels && x == Modes.Scan(Shared(), plus, cursor, lastSign, modes, margs)
      modifies this`fault, clients.Values, rooms
      ensures Valid() && Inbox() == old(Inbox())
      ensures Modes.Scan(Shared(), plus', cursor', lastSign', modes', margs') == Modes.ModeStep(x, fd, nick, target, params, c)
    {
      hide Valid, Inbox, Shared, State.Send, State.SetChannel, State.FindClientByNick, Modes.PlainEffect, Modes.KeyEffect,
        Modes.LimitEffect, Modes.OperatorEffect;
      SeeChannel(target);
      plus', cursor', lastSign', modes', margs' := plus, cursor, lastSign, modes, margs;
      var changed, arg := false, [];
      if c == '+' || c == '-' {
        plus' := c == '+';
        TurnStep(x, fd, nick, target, params, c);
        return;
      }
      if c in {'i', 't', 'l'} && !Modes.TakesArgument(c, plus) {
        changed := PlainMode(fd, target, plus, c);
      } else if Modes.TakesArgument(c, plus) && cursor < |params| {
        cursor' := cursor + 1;
        if c == 'k' {
          changed, arg := KeyMode(fd, nick, target, plus, params[cursor]);
        } else if c == 'l' {
          changed, arg := LimitMode(fd, nick, target, params[cursor]);
        } else {
          changed, arg := OperatorMode(fd, nick, target, plus, params[cursor]);
        }
      } else {
        IdleStep(x, fd, nick, target, params, c);
        return;
      }
      TookStep(x, Shared(), fd, nick, target, params, c, changed, arg);
      if changed {
        var sign := if plus then '+' else '-';
        if lastSign != sign {
          lastSign' := sign;
          modes' := modes' + [sign];
        }
        modes', margs' := modes' + [c], margs' + arg;
      }
    }

    /** The interpreter's loop over the mode string. */
    method InterpretModes(fd: int, nick: string, target: string, params: seq<string>) returns (modes: string, margs: seq<string>)
      requires Valid() && target in channels && |params| >= 2
      modifies this`fault, clients.Values, rooms
      ensures Valid() && Inbox() == old(Inbox())
      ensures
        var x := Modes.Interpret(old(Shared()), fd, nick, target, params);
        x.core == Shared() && x.modes == modes && x.margs == margs
    {
      hide Valid, Inbox, Shared, Modes.ModeStep;
      var text := params[1];
      var plus, cursor, lastSign := true, 2, Modes.NO_SIGN;
      modes, margs := "", [];
      var i := 0;
      assert text[0..] == text;
      while i < |text|
        invariant i <= |text| && Valid() && Inbox() == old(Inbox())
        invariant Modes.ModeScan(Modes.Scan(Shared(), plus, cursor, lastSign, modes, margs), fd, nick, target, params, text[i..])
          == Modes.Interpret(old(Shared()), fd, nick, target, params)
      {
        assert text[i..][0] == text[i] && text[i..][1..] == text[i + 1..];
        plus, cursor, lastSign, modes, margs := ModeCharacter(fd, nick, target, params, text[i],
          Modes.Scan(Shared(), plus, cursor, lastSign, modes, margs), plus, cursor, lastSign, modes, margs);
        i := i + 1;
      }
    }

    method ChangeModes(fd: int, target: string, params: seq<string>)
      requires Valid() && fd in clients && target in channels && |params| >= 2
      modifies this`fault, clients.Values, rooms
      ensures Valid() && Shared() == Modes.ChangeModes(old(Shared()), fd, target, params) && Inbox() == old(Inbox())
    {
      hide Valid, Inbox, Shared, State.Broadcast, Modes.Interpret;
      SeeClient(fd);
      var nick, user := clients[fd].nickname, clients[fd].username;
      var modes, margs := InterpretModes(fd, nick, target, params);
      SeeChannel(target);
      if modes != "" {
        Broadcast(channels[target].members, None, ModeSet(nick, user, target, modes, margs));
      }
    }

    method Mode(fd: int, params: seq<string>)
      requires Valid() && fd in clients
      modifies this`fault, clients.Values, rooms
      ensures Valid() && Shared() == Modes.Mode(old(Shared()), fd, params) && Inbox() == old(Inbox())
    {
      hide Valid, Inbox, Shared, State.Send, Modes.ChangeModes, Modes.UnknownLetter, Modes.ActiveModes, Modes.ActiveArgs;
      SeeClient(fd);
      SeeKeys();
      var nick := clients[fd].nickname;
      if params == [] {
        Send(fd, Numeric(461, [nick, "MODE"]));
        return;
      }
      var target := params[0];
      if target == "" || (target[0] != '#' && target[0] != '&') { return; }
      if target !in channels {
        Send(fd, Numeric(403, [nick, target]));
        return;
      }
      SeeChannel(target);
      if |params| == 1 {
        QueryModes(fd, target);
      } else if fd !in channels[target].operators {
        Send(fd, Numeric(482, [nick, target]));
      } else {
        var unknown := FindUnknown(params[1]);
        Untouched();
        if unknown.Some? {
          Send(fd, Numeric(472, [nick, [unknown.value]]));
        } else {
          ChangeModes(fd, target, params);
        }
      }
    }

    // --------------------------------------------------------------- dispatch

    method Execute(fd: int, command: string, params: seq<string>)
      requires Valid() && fd in clients
      modifies this`fault, this`channels, this`rooms, this`nextSerial, clients.Values, rooms
      ensures Valid() && Shared() == EventLoop.Execute(old(Shared()), fd, command, params) && Inbox() == old(Inbox())
      ensures fresh(rooms - old(rooms))
    {
      hide Valid, Inbox, Shared, Commands.Pass, Commands.Nick, Commands.User, Commands.Join, Commands.Privmsg, Commands.Kick,
        Commands.Invite, Commands.Topic, Modes.Mode;
      SeeClient(fd);
      if command == "PASS" { Pass(fd, params); }
      else if command == "NICK" { Nick(fd, params); }
      else if command == "USER" { User(fd, params); }
      else if command == "JOIN" { Join(fd, params); }
      else if command == "PRIVMSG" { Privmsg(fd, params); }
      else if command == "KICK" { Kick(fd, params); }
      else if command == "INVITE" { Invite(fd, params); }
      else if command == "TOPIC" { Topic(fd, params); }
      else { Mode(fd, params); }
    }

    method StartClosing(fd: int, why: string)
      requires Valid() && fd in clients
      modifies clients.Values
      ensures Valid() && Inbox() == old(Inbox()) && fd in old(Shared()).clients
      ensures Shared() == State.SetClient(old(Shared()), fd, old(Shared()).clients[fd].MarkClosing(UserQuit(why)))
    {
      SeeClient(fd);
      clients[fd].MarkClosing(UserQuit(why));
      OneClient(fd);
    }

    /** processLine: built-in commands, then the two registration gates. */
    method ProcessLine(fd: int, line: string)
      requires Valid() && fd in clients
      modifies this`fault, this`channels, this`rooms, this`nextSerial, clients.Values, rooms
      ensures Valid() && Inbox() == old(Inbox()) && fresh(rooms - old(rooms))
      ensures fd in old(Shared()).clients && Shared() == EventLoop.ProcessLine(old(Shared()), fd, line)
    {
      hide Valid, Inbox, Shared, Parsing.Parse, State.Send, State.SetClient, EventLoop.Execute;
      SeeClient(fd);
      var m := Parsing.ParseLine(line);
      Untouched();
      SeeClient(fd);
      var c := clients[fd];
      if m.command == "" { return; }
      var shown := if c.nickname == "" then "*" else c.nickname;
      if m.command == "CAP" {
        if m.params != [] && Upper(m.params[0]) == "LS" { Send(fd, CapList); }
      } else if m.command == "PING" {
        Send(fd, Pong(if m.params == [] then "ft_irc" else m.params[0]));
      } else if m.command == "QUIT" {
        StartClosing(fd, if m.params == [] then "Client Quit" else m.params[0]);
      } else if m.command !in {"PASS", "NICK", "USER"} + EventLoop.GUARDED {
        Send(fd, Numeric(421, [shown, m.command]));
      } else if m.command != "PASS" && !c.passOk {
        Send(fd, Numeric(451, ["*"]));
      } else if m.command in EventLoop.GUARDED && !(c.passOk && c.nickSet && c.userSet) {
        Send(fd, Numeric(451, [shown]));
      } else {
        Execute(fd, m.command, m.params);
      }
    }

    // ---------------------------------------------------------------- reading

    /** The server as the theorems about runs see it. */
    ghost function Whole(): EventLoop.Server
      reads this, clients.Values, channels.Values
    {
      EventLoop.Server(Shared(), Inbox())
    }

    /** After a change to one client object, its receive buffer included. */
    twostate lemma OneConnection(fd: int)
      requires unchanged(this) && fd in clients
      requires forall x :: x in clients && x != fd ==> unchanged(clients[x])
      requires forall name :: name in channels ==> unchanged(channels[name])
      ensures Shared() == State.SetClient(old(Shared()), fd, clients[fd].Value())
      ensures Inbox() == old(Inbox())[fd := clients[fd].recvBuffer]
    {
      forall x | x in clients && x != fd ensures clients[x].recvBuffer == old(clients[x].recvBuffer) {}
      assert Inbox() == old(Inbox())[fd := clients[fd].recvBuffer];
      PutClient(fd);
      SameChannels();
    }

    /** extractLine in place. */
    method PullLine(fd: int) returns (ok: bool, line: string)
      requires Valid() && fd in clients
      modifies clients.Values
      ensures Valid() && fd in old(Shared()).clients && Inbox() == old(Inbox())[fd := clients[fd].recvBuffer]
      ensures Pulled(old(Shared()), fd, old(clients[fd].recvBuffer), Shared(), clients[fd].recvBuffer, ok, line)
    {
      SeeClient(fd);
      ghost var s := Shared();
      ok, line := clients[fd].ExtractLine();
      OneConnection(fd);
      assert s.clients[fd := s.clients[fd]] == s.clients;
    }

    /** One turn of the extract-and-process loop. */
    method ReadLine(fd: int) returns (more: bool)
      requires Valid() && fd in clients
      modifies this`fault, this`channels, this`rooms, this`nextSerial, clients.Values, rooms
      ensures Valid() && fresh(rooms - old(rooms)) && fd in Shared().clients && fd in old(Shared()).clients
      ensures Inbox() == old(Inbox())[fd := clients[fd].recvBuffer]
      ensures more ==> |clients[fd].recvBuffer| < |old(clients[fd].recvBuffer)|
      ensures Turned(old(Shared()), fd, old(clients[fd].recvBuffer), Shared(), clients[fd].recvBuffer, more)
    {
      hide Valid, Inbox, Shared, EventLoop.ProcessLine, EventLoop.Extract, EventLoop.Kill;
      SeeBuffer(fd);
      var ok, line := PullLine(fd);
      SeeClient(fd);
      if !ok { return false; }
      ProcessLine(fd, line);
      SeeClient(fd);
      SeeBuffer(fd);
      more := !clients[fd].dead && !clients[fd].closing;
    }

    method DrainBuffer(fd: int)
      requires Valid() && fd in clients
      modifies this`fault, this`channels, this`rooms, this`nextSerial, clients.Values, rooms
      ensures Valid() && fresh(rooms - old(rooms)) && fd in old(Shared()).clients
      ensures
        var d := EventLoop.Drain(old(Shared()), fd, old(clients[fd].recvBuffer));
        Shared() == d.core && Inbox() == old(Inbox())[fd := d.buffer]
    {
      hide Valid, Inbox, Shared, EventLoop.Drain;
      SeeClient(fd);
      SeeBuffer(fd);
      var more := true;
      while more
        invariant Valid() && fresh(rooms - old(rooms)) && fd in Shared().clients
        invariant Inbox() == old(Inbox())[fd := clients[fd].recvBuffer]
        invariant Turned(old(Shared()), fd, old(clients[fd].recvBuffer), Shared(), clients[fd].recvBuffer, more)
        decreases more, |clients[fd].recvBuffer|
      {
        ghost var t, buffer := Shared(), clients[fd].recvBuffer;
        more := ReadLine(fd);
        TurnedTwice(old(Shared()), fd, old(clients[fd].recvBuffer), t, buffer, Shared(), clients[fd].recvBuffer, more);
      }
    }

    /** The chunk joins the receive buffer, or is refused. */
    method TakeChunk(fd: int, chunk: string) returns (ok: bool)
      requires Valid() && fd in clients
      modifies clients.Values
      ensures Valid() && Shared() == old(Shared()) && Inbox() == old(Inbox())[fd := clients[fd].recvBuffer]
      ensures (clients[fd].recvBuffer, ok) == EventLoop.Append(old(clients[fd].recvBuffer), chunk)
    {
      ghost var s := Shared();
      SeeClient(fd);
      ok := clients[fd].AppendToRecvBuffer(chunk);
      OneConnection(fd);
      assert s.clients[fd := s.clients[fd]] == s.clients;
    }

    method Kill(fd: int, why: Reason)
      requires Valid() && fd in clients
      modifies clients.Values
      ensures Valid() && Inbox() == old(Inbox()) && fd in old(Shared()).clients
      ensures Shared() == EventLoop.Kill(old(Shared()), fd, why)
    {
      SeeClient(fd);
      clients[fd].MarkDead(why);
      OneClient(fd);
    }

    /** handleClientRead on a non-empty recv. */
    method HandleClientRead(fd: int, chunk: string)
      requires Valid()
      modifies this`fault, this`channels, this`rooms, this`nextSerial, clients.Values, rooms
      ensures Valid() && fresh(rooms - old(rooms)) && Whole() == EventLoop.ReadClient(old(Whole()), fd, chunk)
    {
      hide Valid, Inbox, Shared, EventLoop.Drain, EventLoop.Append, EventLoop.Kill;
      SeeKeys();
      if fd !in clients { return; }
      SeeClient(fd);
      SeeBuffer(fd);
      if clients[fd].dead || clients[fd].closing { return; }
      var ok := TakeChunk(fd, chunk);
      SeeBuffer(fd);
      if ok {
        DrainBuffer(fd);
      } else {
        Kill(fd, InputFlood);
      }
    }

    /** handleClientRead when recv returned zero or failed. */
    method HandleReadEnd(fd: int)
      requires Valid()
      modifies clients.Values
      ensures Valid() && Shared() == EventLoop.EndRead(old(Shared()), fd) && Inbox() == old(Inbox())
    {
      SeeKeys();
      if fd !in clients { return; }
      SeeClient(fd);
      if clients[fd].dead || clients[fd].closing { return; }
      clients[fd].MarkClosing(PeerClosed);
      OneClient(fd);
    }

    method HandleReadError(fd: int, error: string)
      requires Valid()
      modifies clients.Values
      ensures Valid() && Shared() == EventLoop.FailRead(old(Shared()), fd, error) && Inbox() == old(Inbox())
    {
      hide Valid, Inbox, Shared, EventLoop.Kill;
      SeeKeys();
      if fd !in clients { return; }
      SeeClient(fd);
      if clients[fd].dead || clients[fd].closing { return; }
      Kill(fd, RecvFailed(error));
    }

    // ---------------------------------------------------------------- writing

    method Consume(fd: int, count: nat)
      requires Valid() && fd in clients
      modifies clients.Values
      ensures Valid() && Inbox() == old(Inbox()) && fd in old(Shared()).clients
      ensures Shared() == State.SetClient(old(Shared()), fd, old(Shared()).clients[fd].ConsumeSendBuffer(count))
    {
      SeeClient(fd);
      clients[fd].ConsumeSendBuffer(count);
      OneClient(fd);
    }

    /** handleClientWrite when send took `count` bytes. */
    method HandleClientWrite(fd: int, count: nat)
      requires Valid()
      modifies clients.Values
      ensures Valid() && Shared() == EventLoop.WriteClient(old(Shared()), fd, count) && Inbox() == old(Inbox())
    {
      hide Valid, Inbox, Shared, EventLoop.Kill, State.SetClient;
      SeeKeys();
      if fd !in clients { return; }
      SeeClient(fd);
      if clients[fd].dead || clients[fd].sendBuffer == "" { return; }
      if count == 0 {
        Kill(fd, SentNothing);
      } else {
        Consume(fd, count);
      }
    }

    method HandleWriteError(fd: int, error: string)
      requires Valid()
      modifies clients.Values
      ensures Valid() && Shared() == EventLoop.FailWrite(old(Shared()), fd, error) && Inbox() == old(Inbox())
    {
      hide Valid, Inbox, Shared, EventLoop.Kill;
      SeeKeys();
      if fd !in clients { return; }
      SeeClient(fd);
      if clients[fd].dead || clients[fd].sendBuffer == "" { return; }
      Kill(fd, SendFailed(error));
    }

    // -------------------------------------------------------------- accepting

    /** countClientsFromIp: clients not yet dead. */
    method CountClientsFromIp(ip: string) returns (count: nat)
      ensures count == |Invariant.LiveFrom(Shared(), ip)|
    {
      hide Shared, Invariant.LiveFrom, CountFrom;
      SeeKeys();
      var fds := Fds(clients.Keys);
      forall i | 0 <= i < |fds| ensures fds[i] in clients {
        var x := fds[i];
        assert x in fds;
      }
      count := CountAmong(fds, ip);
      CountFromIs(Shared(), fds, ip, clients.Keys);
      LiveAreClients(Shared(), ip);
    }

    method CountAmong(fds: seq<int>, ip: string) returns (count: nat)
      requires forall i :: 0 <= i < |fds| ==> fds[i] in clients
      ensures count == CountFrom(Shared(), fds, ip)
    {
      hide Shared;
      count := 0;
      var i := 0;
      assert fds[0..] == fds;
      while i < |fds|
        invariant i <= |fds| && count + CountFrom(Shared(), fds[i..], ip) == CountFrom(Shared(), fds, ip)
      {
        assert fds[i..][0] == fds[i] && fds[i..][1..] == fds[i + 1..];
        SeeClient(fds[i]);
        if !clients[fds[i]].dead && clients[fds[i]].ip == ip { count := count + 1; }
        i := i + 1;
      }
    }

    /** acceptNewClient, once the descriptor and the address are known. */
    method AcceptNewClient(fd: int, ip: string)
      requires Valid() && fd !in clients && ip != ""
      modifies this`clients, this`pollFds, this`conns
      ensures Valid() && Whole() == EventLoop.AcceptClient(old(Whole()), fd, ip)
      ensures fresh(conns - old(conns))
    {
      SeeKeys();
      if |clients| >= Invariant.MAX_TOTAL_CLIENTS { return; }
      var count := CountClientsFromIp(ip);
      Untouched();
      if count >= Invariant.MAX_CLIENTS_PER_IP { return; }
      Register(fd, ip);
    }

    method Register(fd: int, ip: string)
      requires Valid() && fd !in clients
      modifies this`clients, this`pollFds, this`conns
      ensures Valid() && Inbox() == old(Inbox())[fd := ""]
      ensures Shared() == State.SetClient(old(Shared()), fd, NewClient(ip)).(pollFds := old(pollFds) + [fd])
      ensures fresh(conns - old(conns))
    {
      var connection := new Connection(fd, ip);
      clients := clients[fd := connection];
      conns := conns + {connection};
      pollFds := pollFds + [fd];
      Connected(fd);
      ConnectedInbox(fd);
      SameChannels();
    }

    // ---------------------------------------------------------------- reaping

    /** removeMember and removeInvited on each channel. */
    method ForgetIn(names: seq<string>, fd: int)
      requires Valid() && NoDup(names) && forall k :: 0 <= k < |names| ==> names[k] in channels
      modifies rooms
      ensures forall k :: 0 <= k < |names| ==> channels[names[k]].Value() == old(channels[names[k]].Value()).Forget(fd)
    {
      var i := 0;
      while i < |names|
        invariant i <= |names|
        invariant forall k :: 0 <= k < i ==> channels[names[k]].Value() == old(channels[names[k]].Value()).Forget(fd)
        invariant forall k :: i <= k < |names| ==> channels[names[k]].Value() == old(channels[names[k]].Value())
      {
        channels[names[i]].Forget(fd);
        i := i + 1;
      }
    }

    lemma NamesIn(names: seq<string>)
      requires Lists(names, channels.Keys)
      ensures forall k :: 0 <= k < |names| ==> names[k] in channels
      ensures forall name :: name in channels ==> name in names
    {
      forall k | 0 <= k < |names| ensures names[k] in channels { assert names[k] in names; }
    }

    /** Every channel forgets the client. */
    method ForgetEverywhere(fd: int)
      requires Valid()
      modifies rooms
      ensures Valid() && Inbox() == old(Inbox())
      ensures Shared() == old(Shared()).(channels := EventLoop.ForgetAll(old(Shared()).channels, fd))
    {
      hide Inbox, Shared, EventLoop.ForgetAll;
      var names := Names(channels.Keys);
      NamesIn(names);
      ForgetIn(names, fd);
      Forgotten(names, fd);
    }

    method DropConnection(fd: int)
      requires Valid()
      modifies this`clients
      ensures Valid() && clients == old(clients) - {fd} && Inbox() == old(Inbox()) - {fd}
      ensures Shared() == old(Shared()).(clients := old(Shared()).clients - {fd})
    {
      clients := clients - {fd};
      assert ClientValues() == old(ClientValues()) - {fd};
      assert Inbox() == old(Inbox()) - {fd};
    }

    method DropPollFd(fd: int)
      requires Valid()
      modifies this`pollFds
      ensures Valid() && Inbox() == old(Inbox())
      ensures Shared() == old(Shared()).(pollFds := Erase(old(Shared()).pollFds, fd))
    {
      hide Erase;
      ghost var s := Shared();
      var left := EraseFirst(pollFds, fd);
      Untouched();
      pollFds := left;
    }

    /** The connection object, its poll entry and every reference to it go. */
    method ForgetClient(fd: int)
      requires Valid() && fd in clients
      modifies this`clients, this`pollFds, rooms
      ensures Valid() && clients == old(clients) - {fd}
      ensures Shared() == EventLoop.ForgetClient(old(Shared()), fd) && Inbox() == old(Inbox()) - {fd}
    {
      hide Valid, Inbox, Shared, EventLoop.ForgetAll, Erase;
      ForgetEverywhere(fd);
      DropPollFd(fd);
      DropConnection(fd);
    }

    method DisconnectClient(fd: int)
      requires Valid()
      modifies this`fault, this`clients, this`pollFds, clients.Values, rooms
      ensures Valid() && clients == old(clients) - {fd}
      ensures Shared() == EventLoop.Disconnect(old(Shared()), fd) && Inbox() == old(Inbox()) - {fd}
    {
      hide Valid, Shared, State.SendEach, State.GatherPeers, EventLoop.ForgetClient;
      SeeKeys();
      if fd !in clients { return; }
      SeeClient(fd);
      var c := clients[fd];
      if c.passOk && c.nickSet && c.userSet {
        var recipients := GatherPeers(fd, [], Some(fd));
        Untouched();
        SendEach(recipients, Quit(c.nickname, c.username, c.deadReason));
      }
      ForgetClient(fd);
    }

    method DisconnectEach(fds: seq<int>)
      requires Valid()
      modifies this`fault, this`clients, this`pollFds, clients.Values, rooms
      ensures Valid() && clients.Keys <= old(clients.Keys)
      ensures Shared() == EventLoop.DisconnectEach(old(Shared()), fds) && Inbox() == EventLoop.Restrict(old(Inbox()), clients.Keys)
    {
      hide Valid, Shared, EventLoop.Disconnect;
      var i := 0;
      assert fds[0..] == fds;
      while i < |fds|
        invariant i <= |fds| && Valid() && clients.Keys <= old(clients.Keys) && clients.Values <= old(clients.Values)
        invariant Inbox() == EventLoop.Restrict(old(Inbox()), clients.Keys)
        invariant EventLoop.DisconnectEach(Shared(), fds[i..]) == EventLoop.DisconnectEach(old(Shared()), fds)
      {
        assert fds[i..][0] == fds[i] && fds[i..][1..] == fds[i + 1..];
        DisconnectClient(fds[i]);
        i := i + 1;
      }
    }

    /** The first pass: drained closing clients die; the dead are collected in map order. */
    method Condemn() returns (deadFds: seq<int>)
      requires Valid()
      modifies clients.Values
      ensures Valid() && Shared() == EventLoop.Condemn(old(Shared())) && Inbox() == old(Inbox())
      ensures deadFds == EventLoop.DeadFds(Shared())
    {
      hide Valid, Inbox, Shared, EventLoop.Condemn, EventLoop.DeadFds, EventLoop.Sentenced, DeadAmong;
      SeeKeys();
      var fds := Fds(clients.Keys);
      FdsIn(fds);
      deadFds := CondemnEach(fds);
      Condemned(fds);
      DeadAmongIs(old(Shared()), fds);
    }

    method CondemnOne(c: Connection) returns (gone: bool)
      modifies c`dead, c`deadReason
      ensures c.Value() == EventLoop.Sentenced(old(c.Value())) && gone == c.Value().dead
    {
      if c.closing && c.sendBuffer == "" { c.MarkDead(c.deadReason); }
      gone := c.dead;
    }

    method CondemnEach(fds: seq<int>) returns (deadFds: seq<int>)
      requires Valid() && NoDup(fds) && forall k :: 0 <= k < |fds| ==> fds[k] in clients
      modifies clients.Values`dead, clients.Values`deadReason
      ensures Valid() && forall k :: 0 <= k < |fds| ==> fds[k] in old(Shared()).clients
      ensures forall k :: 0 <= k < |fds| ==> clients[fds[k]].Value() == EventLoop.Sentenced(old(Shared()).clients[fds[k]])
      ensures deadFds == DeadAmong(old(Shared()), fds)
    {
      hide Shared, EventLoop.Sentenced, DeadAmong;
      ghost var s := Shared();
      forall k | 0 <= k < |fds|
        ensures fds[k] in s.clients && s.clients[fds[k]] == clients[fds[k]].Value() && clients[fds[k]].fd == fds[k]
      {
        SeeClient(fds[k]);
      }
      deadFds := [];
      var i := 0;
      assert fds[0..] == fds;
      DeadAmongNone(s);
      while i < |fds|
        invariant i <= |fds| && deadFds + DeadAmong(s, fds[i..]) == DeadAmong(s, fds)
        invariant forall k :: 0 <= k < i ==> clients[fds[k]].Value() == EventLoop.Sentenced(s.clients[fds[k]])
        invariant forall k :: i <= k < |fds| ==> clients[fds[k]].Value() == s.clients[fds[k]]
      {
        DeadAmongStep(s, fds, i);
        var gone := CondemnOne(clients[fds[i]]);
        if gone { deadFds := deadFds + [fds[i]]; }
        i := i + 1;
      }
      assert fds[i..] == [];
    }

    lemma FdsIn(fds: seq<int>)
      requires Lists(fds, clients.Keys)
      ensures forall k :: 0 <= k < |fds| ==> fds[k] in clients
      ensures forall x :: x in clients ==> exists k :: 0 <= k < |fds| && fds[k] == x
    {
      forall k | 0 <= k < |fds| ensures fds[k] in clients {
        var x := fds[k];
        assert x in fds;
      }
      forall x | x in clients ensures exists k :: 0 <= k < |fds| && fds[k] == x { assert x in fds; }
    }

    twostate lemma Condemned(new fds: seq<int>)
      requires unchanged(this) && (forall name :: name in channels ==> unchanged(channels[name]))
      requires forall x :: x in clients ==> clients[x].recvBuffer == old(clients[x].recvBuffer)
      requires forall k :: 0 <= k < |fds| ==> fds[k] in clients
      requires forall k :: 0 <= k < |fds| ==> fds[k] in old(Shared()).clients
      requires forall k :: 0 <= k < |fds| ==> clients[fds[k]].Value() == EventLoop.Sentenced(old(Shared()).clients[fds[k]])
      requires forall x :: x in clients ==> exists k :: 0 <= k < |fds| && fds[k] == x
      ensures Shared() == EventLoop.Condemn(old(Shared())) && Inbox() == old(Inbox())
    {
      SameInbox();
      SameChannels();
      forall x | x in clients ensures clients[x].Value() == EventLoop.Sentenced(old(Shared()).clients[x]) {
        var k :| 0 <= k < |fds| && fds[k] == x;
      }
    }

    method ReapDeadClients()
      requires Valid()
      modifies this`fault, this`clients, this`pollFds, clients.Values, rooms
      ensures Valid() && Shared() == EventLoop.ReapDead(old(Shared())) && Inbox() == EventLoop.Restrict(old(Inbox()), clients.Keys)
    {
      hide Valid, Inbox, Shared, EventLoop.Condemn, EventLoop.DeadFds, EventLoop.DisconnectEach;
      var deadFds := Condemn();
      DisconnectEach(deadFds);
    }

    // ------------------------------------------------------------------- runs

    /** refreshPollEvents: the events asked for; None is the throw for a descriptor without a client. */
    method RefreshPollEvents() returns (interests: Option<seq<EventLoop.Interest>>)
      ensures interests == EventLoop.Refresh(Shared(), pollFds)
    {
      hide Shared;
      SeeKeys();
      var found: seq<EventLoop.Interest> := [];
      var i := 0;
      assert pollFds[0..] == pollFds;
      SeeListener();
      PrefixedEmpty(EventLoop.Refresh(Shared(), pollFds));
      while i < |pollFds|
        invariant i <= |pollFds|
        invariant EventLoop.Refresh(Shared(), pollFds) == Prefixed(found, EventLoop.Refresh(Shared(), pollFds[i..]))
      {
        var fd := pollFds[i];
        assert pollFds[i..][0] == fd && pollFds[i..][1..] == pollFds[i + 1..];
        var first := EventLoop.Interest(fd, true, false);
        if fd != listenFd {
          if fd !in clients { return None; }
          SeeClient(fd);
          first := EventLoop.Interest(fd, !clients[fd].closing, clients[fd].sendBuffer != "");
        }
        PrefixedMore(found, first, EventLoop.Refresh(Shared(), pollFds[i + 1..]));
        found := found + [first];
        i := i + 1;
      }
      assert found + [] == found;
      return Some(found);
    }

    /** After setupSocket. */
    constructor (password: string, wire: Encoding, listenFd: int)
      ensures Valid() && Whole() == EventLoop.Start(password, wire, listenFd)
      ensures conns == {} && rooms == {}
    {
      this.password, this.wire, this.listenFd := password, wire, listenFd;
      clients, channels, pollFds := map[], map[], [listenFd];
      conns, rooms, nextSerial, fault := {}, {}, 0, false;
    }

    lemma OwnConnections()
      requires Valid()
      ensures clients.Values <= conns
    {
    }

    /** One event of the poll loop. */
    method Perform(e: EventLoop.Step)
      requires Valid() && EventLoop.Possible(Whole(), e)
      modifies this, conns, rooms
      ensures Valid() && fresh(conns - old(conns)) && fresh(rooms - old(rooms))
      ensures Whole() == EventLoop.Next(old(Whole()), e)
    {
      hide Valid, Inbox, Shared, EventLoop.AcceptClient, EventLoop.ReadClient, EventLoop.EndRead, EventLoop.FailRead,
        EventLoop.WriteClient, EventLoop.FailWrite, EventLoop.Kill, EventLoop.ReapDead, EventLoop.Restrict;
      OwnConnections();
      SeeKeys();
      match e
      case Accept(fd, ip) => AcceptNewClient(fd, ip);
      case Read(fd, chunk) => HandleClientRead(fd, chunk);
      case ReadEnd(fd) => HandleReadEnd(fd);
      case ReadError(fd, error) => HandleReadError(fd, error);
      case Write(fd, count) => HandleClientWrite(fd, count);
      case WriteError(fd, error) => HandleWriteError(fd, error);
      case SocketError(fd) => if fd in clients { Kill(fd, SocketFailed); }
      case Reap =>
        ReapDeadClients();
        SeeKeys();
    }

    /** The poll loop over any possible sequence of events is the run the theorems are about; the
        invariant of all runs therefore holds of the object. */
    method Serve(steps: seq<EventLoop.Step>)
      requires Valid() && EventLoop.PossibleRun(Whole(), steps) && EventProofs.ServerOk(Whole())
      modifies this, conns, rooms
      ensures Valid() && fresh(conns - old(conns)) && fresh(rooms - old(rooms))
      ensures Whole() == EventLoop.Run(old(Whole()), steps) && EventProofs.ServerOk(Whole())
    {
      hide Valid, Whole, EventLoop.Next, EventLoop.Possible, EventProofs.ServerOk;
      var i := 0;
      assert steps[0..] == steps;
      while i < |steps|
        invariant i <= |steps| && Valid() && fresh(conns - old(conns)) && fresh(rooms - old(rooms))
        invariant EventLoop.PossibleRun(Whole(), steps[i..])
        invariant EventLoop.Run(Whole(), steps[i..]) == EventLoop.Run(old(Whole()), steps)
      {
        assert steps[i..][0] == steps[i] && steps[i..][1..] == steps[i + 1..];
        Perform(steps[i]);
        i := i + 1;
      }
      EventProofs.RunOk(old(Whole()), steps);
    }
  }
}
