/** The poll loop (Server.cpp): reading and framing, dispatch, writing, accepting, reaping. */
module EventLoop {
  import opened Text
  import opened Ordering
  import opened Replies
  import opened Clients
  import opened Channels
  import opened State
  import Commands
  import Modes
  import Parsing
  import opened Invariant

  const RECV_CHUNK := 4096

  // ----------------------------------------------------------------- dispatch

  const GUARDED: set<string> := {"JOIN", "PRIVMSG", "KICK", "INVITE", "TOPIC", "MODE"}

  function Execute(s: Core, fd: int, command: string, params: seq<string>): Core
    requires fd in s.clients
  {
    if command == "PASS" then Commands.Pass(s, fd, params)
    else if command == "NICK" then Commands.Nick(s, fd, params)
    else if command == "USER" then Commands.User(s, fd, params)
    else if command == "JOIN" then Commands.Join(s, fd, params)
    else if command == "PRIVMSG" then Commands.Privmsg(s, fd, params)
    else if command == "KICK" then Commands.Kick(s, fd, params)
    else if command == "INVITE" then Commands.Invite(s, fd, params)
    else if command == "TOPIC" then Commands.Topic(s, fd, params)
    else Modes.Mode(s, fd, params)
  }

  /** The gates of processLine on a parsed message. */
  function Dispatch(s: Core, fd: int, m: Parsing.Message): Core
    requires fd in s.clients
  {
    var c := s.clients[fd];
    if m.command == "" then s
    else if m.command == "CAP" then
      if m.params != [] && Upper(m.params[0]) == "LS" then Send(s, fd, CapList) else s
    else if m.command == "PING" then Send(s, fd, Pong(if m.params == [] then "ft_irc" else m.params[0]))
    else if m.command == "QUIT" then
      SetClient(s, fd, c.MarkClosing(UserQuit(if m.params == [] then "Client Quit" else m.params[0])))
    else if m.command !in {"PASS", "NICK", "USER"} + GUARDED then Send(s, fd, Numeric(421, [c.Shown(), m.command]))
    else if m.command != "PASS" && !c.passOk then Send(s, fd, Numeric(451, ["*"]))
    else if m.command in GUARDED && !c.Registered() then Send(s, fd, Numeric(451, [c.Shown()]))
    else Execute(s, fd, m.command, m.params)
  }

  function ProcessLine(s: Core, fd: int, line: string): Core
    requires fd in s.clients
  {
    Dispatch(s, fd, Parsing.Parse(line))
  }

  // ------------------------------------------------------------------ framing

  /** appendToRecvBuffer: the new buffer and whether the chunk is accepted. */
  function Append(buffer: string, chunk: string): (string, bool) {
    if |buffer| > MAX_RECV_BUFFER || |chunk| > MAX_RECV_BUFFER - |buffer| then (buffer, false)
    else
      var all := buffer + chunk;
      (all, '\n' in all || |all| < MAX_MESSAGE)
  }

  /** What extractLine finds at the head of the buffer; `rest` is the buffer it leaves. */
  datatype Extraction =
    | NoLine
    | TooLong(rest: string)
    | Control(rest: string)
    | Line(line: string, rest: string)

  /** The verdict on the bytes before a newline. */
  function Judge(head: string, rest: string): Extraction {
    var line := Parsing.StripCr(head);
    if |head| + 1 > MAX_MESSAGE then TooLong(rest)
    else if '\0' in line || '\r' in line then Control(rest)
    else Line(line, rest)
  }

  function Extract(buffer: string): (e: Extraction)
    ensures !e.NoLine? ==> |e.rest| < |buffer|
  {
    var i := IndexOf(buffer, '\n');
    if i == |buffer| then NoLine else Judge(buffer[..i], buffer[i + 1..])
  }

  /** The outcome of draining a buffer: the state, what stays buffered, and the lines handed to
      processLine. */
  datatype Drained = Drained(core: Core, buffer: string, lines: seq<string>)

  function Kill(s: Core, fd: int, why: Reason): Core
    requires fd in s.clients
  {
    SetClient(s, fd, s.clients[fd].MarkDead(why))
  }

  predicate Listening(s: Core, fd: int) { fd in s.clients && s.clients[fd].Active() }

  /** The extract-and-process loop of handleClientRead. */
  function Drain(s: Core, fd: int, buffer: string): Drained
    requires fd in s.clients
    decreases |buffer|
  {
    match Extract(buffer)
    case NoLine => Drained(s, buffer, [])
    case TooLong(rest) => Drained(Kill(s, fd, LineTooLong), rest, [])
    case Control(rest) => Drained(Kill(s, fd, ControlByte), rest, [])
    case Line(line, rest) =>
      var t := ProcessLine(s, fd, line);
      if !Listening(t, fd) then Drained(t, rest, [line])
      else
        var d := Drain(t, fd, rest);
        d.(lines := [line] + d.lines)
  }

  /** One non-empty recv on a client's buffer. */
  function Receive(s: Core, fd: int, buffer: string, chunk: string): Drained
    requires fd in s.clients
  {
    if !Listening(s, fd) then Drained(s, buffer, [])
    else
      var (all, ok) := Append(buffer, chunk);
      if ok then Drain(s, fd, all) else Drained(Kill(s, fd, InputFlood), all, [])
  }

  // -------------------------------------------------------------------- steps

  /** The whole server: shared state and the receive buffers, which no command can reach. */
  datatype Server = Server(core: Core, inbox: map<int, string>)

  datatype Step =
    | Accept(fd: int, ip: string)
    | Read(fd: int, chunk: string)
    | ReadEnd(fd: int)
    | ReadError(fd: int, error: string)
    | Write(fd: int, count: nat)
    | WriteError(fd: int, error: string)
    | SocketError(fd: int)
    | Reap

  /** What the operating system can deliver: accept returns a descriptor not in use, recv returns 1 to
      4096 bytes, send takes at most what was offered. Empty reads and writes that would block change
      nothing and are not steps. */
  predicate Possible(v: Server, e: Step) {
    match e
    case Accept(fd, ip) => fd >= 0 && fd != v.core.listenFd && fd !in v.core.clients && ip != ""
    case Read(_, chunk) => 1 <= |chunk| <= RECV_CHUNK
    case Write(fd, count) => fd in v.core.clients ==> count <= |v.core.clients[fd].sendBuffer|
    case _ => true
  }

  function AcceptClient(v: Server, fd: int, ip: string): Server {
    if |v.core.clients| >= MAX_TOTAL_CLIENTS || |LiveFrom(v.core, ip)| >= MAX_CLIENTS_PER_IP then v
    else Server(SetClient(v.core, fd, NewClient(ip)).(pollFds := v.core.pollFds + [fd]), v.inbox[fd := ""])
  }

  function ReadClient(v: Server, fd: int, chunk: string): Server {
    if fd !in v.core.clients || fd !in v.inbox then v
    else
      var d := Receive(v.core, fd, v.inbox[fd], chunk);
      Server(d.core, v.inbox[fd := d.buffer])
  }

  /** recv returned zero: the client may still be sent what is queued. */
  function EndRead(s: Core, fd: int): Core {
    if Listening(s, fd) then SetClient(s, fd, s.clients[fd].MarkClosing(PeerClosed)) else s
  }

  function FailRead(s: Core, fd: int, error: string): Core {
    if Listening(s, fd) then Kill(s, fd, RecvFailed(error)) else s
  }

  function HasOutput(s: Core, fd: int): bool {
    fd in s.clients && !s.clients[fd].dead && s.clients[fd].sendBuffer != ""
  }

  /** One send of `count` bytes; zero bytes taken is an error of its own. */
  function WriteClient(s: Core, fd: int, count: nat): Core {
    if !HasOutput(s, fd) then s
    else if count == 0 then Kill(s, fd, SentNothing)
    else SetClient(s, fd, s.clients[fd].ConsumeSendBuffer(count))
  }

  function FailWrite(s: Core, fd: int, error: string): Core {
    if HasOutput(s, fd) then Kill(s, fd, SendFailed(error)) else s
  }

  // ------------------------------------------------------------------ reaping

  /** The first pass: closing clients with nothing left to send die of the reason they carry. */
  predicate Finished(c: Client) { c.dead || (c.closing && c.sendBuffer == "") }

  function Sentenced(c: Client): Client {
    if c.closing && c.sendBuffer == "" then c.MarkDead(c.deadReason) else c
  }

  function Condemn(s: Core): Core {
    s.(clients := map fd | fd in s.clients :: Sentenced(s.clients[fd]))
  }

  function DeadFds(s: Core): seq<int> {
    Fds(set fd | fd in s.clients && s.clients[fd].dead)
  }

  function QuitNotice(c: Client): Reply { Quit(c.nickname, c.username, c.deadReason) }

  function ForgetAll(channels: map<string, Channel>, fd: int): map<string, Channel> {
    map name | name in channels :: channels[name].Forget(fd)
  }

  function ForgetClient(s: Core, fd: int): Core {
    s.(channels := ForgetAll(s.channels, fd), pollFds := Erase(s.pollFds, fd), clients := s.clients - {fd})
  }

  function Disconnect(s: Core, fd: int): Core {
    if fd !in s.clients then s
    else
      var c := s.clients[fd];
      ForgetClient(if c.Registered() then SendEach(s, QuitRecipients(s, fd), QuitNotice(c)) else s, fd)
  }

  function DisconnectEach(s: Core, fds: seq<int>): Core
    decreases |fds|
  {
    if fds == [] then s else DisconnectEach(Disconnect(s, fds[0]), fds[1..])
  }

  function ReapDead(s: Core): Core {
    var t := Condemn(s);
    DisconnectEach(t, DeadFds(t))
  }

  // --------------------------------------------------------------------- runs

  /** The buffers of the clients that are left. */
  function Restrict(m: map<int, string>, keys: set<int>): map<int, string> {
    map x | x in m && x in keys :: m[x]
  }

  function Next(v: Server, e: Step): Server {
    match e
    case Accept(fd, ip) => AcceptClient(v, fd, ip)
    case Read(fd, chunk) => ReadClient(v, fd, chunk)
    case ReadEnd(fd) => v.(core := EndRead(v.core, fd))
    case ReadError(fd, error) => v.(core := FailRead(v.core, fd, error))
    case Write(fd, count) => v.(core := WriteClient(v.core, fd, count))
    case WriteError(fd, error) => v.(core := FailWrite(v.core, fd, error))
    case SocketError(fd) => if fd in v.core.clients then v.(core := Kill(v.core, fd, SocketFailed)) else v
    case Reap =>
      var t := ReapDead(v.core);
      Server(t, Restrict(v.inbox, t.clients.Keys))
  }

  function Run(v: Server, steps: seq<Step>): Server
    decreases |steps|
  {
    if steps == [] then v else Run(Next(v, steps[0]), steps[1..])
  }

  predicate PossibleRun(v: Server, steps: seq<Step>)
    decreases |steps|
  {
    steps == [] || (Possible(v, steps[0]) && PossibleRun(Next(v, steps[0]), steps[1..]))
  }

  /** After setupSocket: only the listening socket is polled. */
  function Start(password: string, wire: Encoding, listenFd: int): Server {
    Server(Core(password, wire, listenFd, map[], [listenFd], map[], 0, false), map[])
  }

  // ------------------------------------------------------------- poll interest

  datatype Interest = Interest(fd: int, input: bool, output: bool)

  /** refreshPollEvents: the events asked for, or the throw for a descriptor without a client. */
  function Refresh(s: Core, fds: seq<int>): Option<seq<Interest>>
    decreases |fds|
  {
    if fds == [] then Some([])
    else if fds[0] != s.listenFd && fds[0] !in s.clients then None
    else
      match Refresh(s, fds[1..])
      case None => None
      case Some(rest) =>
        var first :=
          if fds[0] == s.listenFd then Interest(fds[0], true, false)
          else
            var c := s.clients[fds[0]];
            Interest(fds[0], !c.closing, c.sendBuffer != "");
        Some([first] + rest)
  }
}
