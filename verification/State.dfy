/** The server's shared state (Server.cpp) and the operations every command is made of. */
module State {
  import opened Text
  import opened Ordering
  import opened Replies
  import opened Clients
  import opened Channels

  /** `fault` records a dereference of a freed client or channel: the model's undefined behaviour. */
  datatype Core = Core(
    password: string,
    wire: Encoding,
    listenFd: int,
    clients: map<int, Client>,
    pollFds: seq<int>,
    channels: map<string, Channel>,
    nextSerial: nat,
    fault: bool)

  function SetClient(s: Core, fd: int, c: Client): (t: Core) {
    s.(clients := s.clients[fd := c])
  }

  function SetChannel(s: Core, name: string, ch: Channel): Core {
    s.(channels := s.channels[name := ch])
  }

  /** client->sendMessage(...) through a pointer. */
  function Send(s: Core, fd: int, r: Reply): Core {
    if fd in s.clients then SetClient(s, fd, s.clients[fd].SendMessage(r, s.wire))
    else s.(fault := true)
  }

  /** One message to each pointer of a list, in order. */
  function SendEach(s: Core, fds: seq<int>, r: Reply): Core
    decreases |fds|
  {
    if fds == [] then s else SendEach(Send(s, fds[0], r), fds[1..], r)
  }

  /** Channel::broadcastMessage over a member list. */
  function Broadcast(s: Core, members: seq<int>, except: Option<int>, r: Reply): Core
    decreases |members|
  {
    if members == [] then s
    else if except == Some(members[0]) then Broadcast(s, members[1..], except, r)
    else Broadcast(Send(s, members[0], r), members[1..], except, r)
  }

  /** A live client whose casemapped nickname is `wanted`. */
  predicate Answers(s: Core, fd: int, wanted: string) {
    fd in s.clients && !s.clients[fd].dead && Lower(s.clients[fd].nickname) == wanted
  }

  /** The first live client, in map order, whose casemapped nickname matches. */
  function FirstMatch(s: Core, fds: seq<int>, wanted: string): Option<int>
    decreases |fds|
  {
    if fds == [] then None
    else if Answers(s, fds[0], wanted) then Some(fds[0])
    else FirstMatch(s, fds[1..], wanted)
  }

  function FindClientByNick(s: Core, nick: string): Option<int> {
    if nick == "" then None else FirstMatch(s, Fds(s.clients.Keys), Lower(nick))
  }

  function CreateChannel(s: Core, name: string): Core {
    if name in s.channels then s
    else SetChannel(s, name, NewChannel(name, s.nextSerial)).(nextSerial := s.nextSerial + 1)
  }

  function RemoveChannel(s: Core, name: string): Core {
    s.(channels := s.channels - {name})
  }

  /** Channel members not listed yet, appended in order. */
  function Gather(found: seq<int>, members: seq<int>, except: Option<int>): seq<int>
    decreases |members|
  {
    if members == [] then found
    else if except == Some(members[0]) || members[0] in found then Gather(found, members[1..], except)
    else Gather(found + [members[0]], members[1..], except)
  }

  /** The recipient scan shared by the QUIT and NICK announcements: every channel holding `fd`. */
  function GatherPeers(s: Core, fd: int, names: seq<string>, found: seq<int>, except: Option<int>): seq<int>
    decreases |names|
  {
    if names == [] then found
    else if names[0] in s.channels && fd in s.channels[names[0]].members then
      GatherPeers(s, fd, names[1..], Gather(found, s.channels[names[0]].members, except), except)
    else GatherPeers(s, fd, names[1..], found, except)
  }

  /** QUIT goes to everyone who shares a channel, never to the leaver. */
  function QuitRecipients(s: Core, fd: int): seq<int> {
    GatherPeers(s, fd, Names(s.channels.Keys), [], Some(fd))
  }

  /** NICK goes to the changer first, then to everyone who shares a channel. */
  function NickRecipients(s: Core, fd: int): seq<int> {
    GatherPeers(s, fd, Names(s.channels.Keys), [fd], None)
  }
}
