/** Accepting, and the ends of a connection: what each of these events changes. */
module SocketSteps {
  import opened Replies
  import opened Clients
  import opened State
  import opened Invariant
  import opened EventLoop
  import opened EventProofs

  /** One client's record is replaced; nothing else in the server is. */
  ghost predicate OnlyClient(v: Server, w: Server, fd: int, d: Client) {
    w == v.(core := v.core.(clients := v.core.clients[fd := d]))
  }

  /** Dead of `why`, unless it was dying of something already. */
  function Struck(c: Client, why: Reason): Client {
    c.(dead := true, deadReason := if c.deadReason == Alive then why else c.deadReason)
  }

  /** A connection is taken on exactly while there are fewer than 512 clients, and fewer than 128 living ones
      of its address; then it is a client without identity, password or data, last in the poll list. */
  lemma AcceptExact(v: Server, fd: int, ip: string)
    requires ServerOk(v) && Possible(v, Accept(fd, ip))
    ensures
      var s, w := v.core, Next(v, Accept(fd, ip));
      var neighbours := set x | x in s.clients && !s.clients[x].dead && s.clients[x].ip == ip;
      if |s.clients| < 512 && |neighbours| < 128 then
        w == Server(s.(clients := s.clients[fd := Client(ip, "", "", "", false, false, false, 0, false, false, Alive, [], [], "")],
                       pollFds := s.pollFds + [fd]),
                    v.inbox[fd := ""])
      else w == v
  {
    hide Inv;
    assert LiveFrom(v.core, ip) == set x | x in v.core.clients && !v.core.clients[x].dead && v.core.clients[x].ip == ip;
  }

  /** An end of input closes a served client; a failed receive, a send that takes nothing or fails while there
      is output, and a socket error strike a living one dead. Otherwise these events change nothing. */
  lemma EndsExact(v: Server, fd: int, error: string)
    requires ServerOk(v)
    ensures
      var s := v.core;
      if fd !in s.clients || s.clients[fd].dead then
        Next(v, ReadEnd(fd)) == v && Next(v, ReadError(fd, error)) == v && Next(v, Write(fd, 0)) == v
        && Next(v, WriteError(fd, error)) == v && Next(v, SocketError(fd)) == v
      else
        var c := s.clients[fd];
        && (if c.closing then Next(v, ReadEnd(fd)) == v && Next(v, ReadError(fd, error)) == v
            else OnlyClient(v, Next(v, ReadEnd(fd)), fd, c.(closing := true, deadReason := PeerClosed))
                 && OnlyClient(v, Next(v, ReadError(fd, error)), fd, Struck(c, RecvFailed(error))))
        && (if c.sendBuffer == "" then Next(v, Write(fd, 0)) == v && Next(v, WriteError(fd, error)) == v
            else OnlyClient(v, Next(v, Write(fd, 0)), fd, Struck(c, SentNothing))
                 && OnlyClient(v, Next(v, WriteError(fd, error)), fd, Struck(c, SendFailed(error))))
        && OnlyClient(v, Next(v, SocketError(fd)), fd, Struck(c, SocketFailed))
  {
    hide Inv;
    if fd in v.core.clients { SameRecord(v.core, fd); }
  }

  lemma SameRecord(s: Core, fd: int)
    requires fd in s.clients
    ensures SetClient(s, fd, s.clients[fd]) == s
  {
    assert s.clients[fd := s.clients[fd]] == s.clients;
  }

  /** What a client has sent and not yet had read as lines stays as it is, and its own, through every event but
      its own reads. */
  lemma BuffersKept(v: Server, e: Step, x: int)
    requires ServerOk(v) && Possible(v, e) && x in v.core.clients && x in Next(v, e).core.clients
    requires !(e.Read? && e.fd == x)
    ensures x in v.inbox && x in Next(v, e).inbox && Next(v, e).inbox[x] == v.inbox[x]
  {
    hide Inv, Receive, ReapDead, LiveFrom;
  }
}
