/** One connection along a run: how it becomes registered, and that it never comes back to service. */
module Lifecycle {
  import opened Replies
  import opened Clients
  import opened State
  import opened Invariant
  import opened EventLoop
  import opened EventProofs
  import Commands
  import Parsing

  // ------------------------------------------------------------------ one step

  /** The connections two states have in common: registration is kept, service is not regained, and the
      input of a client that is no longer served stays as it was. */
  ghost predicate Carried(v: Server, w: Server) {
    forall x :: x in v.core.clients && x in w.core.clients ==> CarriedAt(v, w, x)
  }

  ghost predicate CarriedAt(v: Server, w: Server, x: int)
    requires x in v.core.clients && x in w.core.clients
  {
    Older(v.core.clients[x], w.core.clients[x])
    && (!v.core.clients[x].Active() ==> x in v.inbox && x in w.inbox && w.inbox[x] == v.inbox[x])
  }

  lemma CoreCarries(v: Server, t: Core, fd: int)
    requires ServerOk(v) && Orderly(v.core, t, fd)
    ensures Carried(v, v.(core := t))
  {
    hide Inv, Authority, Bystanders;
    forall x | x in v.core.clients ensures CarriedAt(v, v.(core := t), x) {
      assert Older(v.core.clients[x], t.clients[x]);
    }
  }

  lemma ReadCarries(v: Server, fd: int, chunk: string)
    requires ServerOk(v)
    ensures Carried(v, ReadClient(v, fd, chunk))
  {
    hide Inv, Authority, Bystanders, Drain, Append;
    var w := ReadClient(v, fd, chunk);
    if fd in v.core.clients {
      ReceiveSound(v.core, fd, v.inbox[fd], chunk);
      forall x | x in v.core.clients ensures CarriedAt(v, w, x) {
        assert Older(v.core.clients[x], w.core.clients[x]);
      }
    }
  }

  lemma ReapCarries(v: Server)
    requires ServerOk(v)
    ensures Carried(v, Next(v, Reap))
  {
    hide Inv, ReapDead;
    ReapKeeps(v.core);
  }

  lemma NextCarries(v: Server, e: Step)
    requires ServerOk(v) && Possible(v, e)
    ensures Carried(v, Next(v, e))
  {
    hide Inv, Orderly, CarriedAt, Receive, ReapDead, LiveFrom;
    Unchanged(v);
    match e
    case Accept(fd, ip) => AcceptCarries(v, fd, ip);
    case Read(fd, chunk) => ReadCarries(v, fd, chunk);
    case ReadEnd(fd) =>
      FailureSound(v.core, fd, "");
      CoreCarries(v, EndRead(v.core, fd), fd);
    case ReadError(fd, error) =>
      FailureSound(v.core, fd, error);
      CoreCarries(v, FailRead(v.core, fd, error), fd);
    case Write(fd, count) =>
      WriteSound(v.core, fd, count);
      CoreCarries(v, WriteClient(v.core, fd, count), fd);
    case WriteError(fd, error) =>
      FailureSound(v.core, fd, error);
      CoreCarries(v, FailWrite(v.core, fd, error), fd);
    case SocketError(fd) =>
      if fd in v.core.clients {
        KillSound(v.core, fd, SocketFailed);
        CoreCarries(v, Kill(v.core, fd, SocketFailed), fd);
      }
    case Reap => ReapCarries(v);
  }

  lemma Unchanged(v: Server)
    requires ServerOk(v)
    ensures Carried(v, v)
  {
  }

  lemma AcceptCarries(v: Server, fd: int, ip: string)
    requires ServerOk(v) && fd !in v.core.clients
    ensures Carried(v, AcceptClient(v, fd, ip))
  {
    hide Inv, LiveFrom;
  }

  // ------------------------------------------------------------------ being done

  /** The connection on `fd` is there in every state of the run: no reap takes it. */
  predicate Stays(v: Server, steps: seq<Step>, fd: int)
    decreases |steps|
  {
    fd in v.core.clients && (steps == [] || Stays(Next(v, steps[0]), steps[1..], fd))
  }

  /** Bytes, end of input or an input error on `fd`. */
  predicate InputOf(e: Step, fd: int) {
    match e
    case Read(x, _) => x == fd
    case ReadEnd(x) => x == fd
    case ReadError(x, _) => x == fd
    case _ => false
  }

  /** The same run without anything coming in on `fd`. */
  function Unheard(steps: seq<Step>, fd: int): seq<Step> {
    if steps == [] then []
    else (if InputOf(steps[0], fd) then [] else [steps[0]]) + Unheard(steps[1..], fd)
  }

  lemma StoppedIsDeaf(v: Server, e: Step, fd: int)
    requires ServerOk(v) && fd in v.core.clients && !v.core.clients[fd].Active() && InputOf(e, fd)
    ensures Next(v, e) == v
  {
    hide Inv, Drain;
    assert v.inbox[fd := v.inbox[fd]] == v.inbox;
  }

  /** A client that is closing or dead is so for as long as its connection is there, keeps its buffered
      input unread, and nothing it still sends makes any difference to any part of the server. */
  lemma {:induction false} StoppedForever(v: Server, steps: seq<Step>, fd: int)
    requires ServerOk(v) && PossibleRun(v, steps) && Stays(v, steps, fd) && !v.core.clients[fd].Active()
    ensures
      var w := Run(v, steps);
      fd in w.core.clients && !w.core.clients[fd].Active()
      && fd in v.inbox && fd in w.inbox && w.inbox[fd] == v.inbox[fd]
    ensures PossibleRun(v, Unheard(steps, fd)) && Run(v, Unheard(steps, fd)) == Run(v, steps)
    decreases |steps|
  {
    hide Inv, Next, Possible;
    if steps != [] {
      var e := steps[0];
      var w := Next(v, e);
      NextOk(v, e);
      NextCarries(v, e);
      assert CarriedAt(v, w, fd);
      StoppedForever(w, steps[1..], fd);
      if InputOf(e, fd) {
        StoppedIsDeaf(v, e, fd);
        assert [] + Unheard(steps[1..], fd) == Unheard(steps[1..], fd);
      } else {
        assert Unheard(steps, fd)[1..] == Unheard(steps[1..], fd);
      }
    }
  }

  // ----------------------------------------------------------------- registering

  /** The state after some lines of one client. */
  function Processed(s: Core, fd: int, lines: seq<string>): Core
    decreases |lines|
  {
    if lines == [] || fd !in s.clients then s else Processed(ProcessLine(s, fd, lines[0]), fd, lines[1..])
  }

  predicate Registered(s: Core, fd: int) { fd in s.clients && s.clients[fd].Registered() }

  /** Line `k` is the one that completes the registration, and it is a NICK or a USER. */
  predicate CompletedBy(s: Core, fd: int, lines: seq<string>, k: nat) {
    k < |lines| &&
    var t := Processed(s, fd, lines[..k]);
    fd in t.clients && !Registered(t, fd) && Registered(ProcessLine(t, fd, lines[k]), fd)
    && Parsing.Parse(lines[k]).command in {"NICK", "USER"}
  }

  lemma PassKeepsRegistration(s: Core, fd: int, params: seq<string>)
    requires fd in s.clients && SessionOk(s.clients[fd])
    ensures
      var t := Commands.Pass(s, fd, params);
      fd in t.clients && (t.clients[fd].Registered() <==> s.clients[fd].Registered())
  {
    hide Welcomes, Commands.ValidNickname, Commands.ValidUsername, ValidOutbound;
  }

  lemma SendKeepsRegistration(s: Core, fd: int, r: Reply)
    requires fd in s.clients
    ensures Registered(Send(s, fd, r), fd) == Registered(s, fd)
  {
  }

  lemma LineCompletes(s: Core, fd: int, line: string)
    requires fd in s.clients && SessionOk(s.clients[fd]) && !Registered(s, fd) && Registered(ProcessLine(s, fd, line), fd)
    ensures Parsing.Parse(line).command in {"NICK", "USER"}
  {
    hide Parsing.Parse, SessionOk, Send, Commands.Pass, Commands.Nick, Commands.User, Commands.Join, Commands.Kick,
      Commands.Invite, Commands.Topic, Commands.Privmsg;
    var m := Parsing.Parse(line);
    var c := s.clients[fd];
    PassKeepsRegistration(s, fd, m.params);
    SendKeepsRegistration(s, fd, CapList);
    SendKeepsRegistration(s, fd, Pong(if m.params == [] then "ft_irc" else m.params[0]));
    SendKeepsRegistration(s, fd, Numeric(421, [c.Shown(), m.command]));
    SendKeepsRegistration(s, fd, Numeric(451, ["*"]));
    SendKeepsRegistration(s, fd, Numeric(451, [c.Shown()]));
  }

  lemma {:induction false} DrainCompletes(s: Core, fd: int, buffer: string)
    requires Inv(s) && Listening(s, fd) && !Registered(s, fd) && Registered(Drain(s, fd, buffer).core, fd)
    ensures exists k: nat :: CompletedBy(s, fd, Drain(s, fd, buffer).lines, k)
    decreases |buffer|
  {
    hide Authority, Aged, Bystanders, ProcessLine, NicksOk, ChannelsOk, PollOk, SessionOk;
    match Extract(buffer)
    case Line(line, rest) =>
      var t := ProcessLine(s, fd, line);
      ExtractedClean(buffer);
      ProcessLineSound(s, fd, line);
      var lines := Drain(s, fd, buffer).lines;
      if Registered(t, fd) {
        LineCompletes(s, fd, line);
        assert lines[..0] == [] && lines[0] == line;
        assert CompletedBy(s, fd, lines, 0);
      } else {
        DrainCompletes(t, fd, rest);
        var more := Drain(t, fd, rest).lines;
        var k: nat :| CompletedBy(t, fd, more, k);
        assert lines == [line] + more;
        LaterLine(s, fd, line, more, k);
      }
    case _ =>
  }

  lemma LaterLine(s: Core, fd: int, line: string, more: seq<string>, k: nat)
    requires fd in s.clients && CompletedBy(ProcessLine(s, fd, line), fd, more, k)
    ensures CompletedBy(s, fd, [line] + more, k + 1)
  {
    hide ProcessLine, Parsing.Parse;
    var lines := [line] + more;
    assert lines[..k + 1][1..] == more[..k] && lines[k + 1] == more[k];
  }

  /** What a step can do to registrations: only a read completes one, the reader's own, by a NICK or a USER
      line among those it handed over. */
  ghost predicate CompletedIn(v: Server, e: Step, x: int) {
    e.Read? && e.fd == x && x in v.core.clients && x in v.inbox
    && exists k: nat :: CompletedBy(v.core, x, Receive(v.core, x, v.inbox[x], e.chunk).lines, k)
  }

  lemma ReadCompletes(v: Server, fd: int, chunk: string, x: int)
    requires ServerOk(v) && !Registered(v.core, x) && Registered(ReadClient(v, fd, chunk).core, x)
    ensures CompletedIn(v, Read(fd, chunk), x)
  {
    hide Drain, Append, CompletedBy, Authority, Aged, NicksOk, ChannelsOk, PollOk, SessionsOk;
    ReceiveSound(v.core, fd, v.inbox[fd], chunk);
    if x == fd && Listening(v.core, fd) && Append(v.inbox[fd], chunk).1 {
      AllAppended(v.inbox[fd], chunk);
      DrainCompletes(v.core, fd, v.inbox[fd] + chunk);
    }
  }

  lemma AllAppended(buffer: string, chunk: string)
    requires Append(buffer, chunk).1
    ensures Append(buffer, chunk).0 == buffer + chunk
  {
  }

  lemma ReapCompletes(s: Core, x: int)
    requires Inv(s) && Registered(ReapDead(s), x)
    ensures Registered(s, x)
  {
    hide Inv, DisconnectEach;
    CondemnInv(s);
    var t := Condemn(s);
    DeadFdsListed(t);
    DisconnectEachHeard(t, DeadFds(t));
    assert Heard(t.clients[x], ReapDead(s).clients[x]);
  }

  /** Registration is completed inside NICK or USER and nowhere else, whatever the step. */
  lemma OnlyNickAndUserComplete(v: Server, e: Step, x: int)
    requires ServerOk(v) && Possible(v, e) && !Registered(v.core, x) && Registered(Next(v, e).core, x)
    ensures CompletedIn(v, e, x)
  {
    hide Inv, CompletedIn, Receive, ReapDead, LiveFrom;
    match e
    case Read(fd, chunk) => ReadCompletes(v, fd, chunk, x);
    case Reap => ReapCompletes(v.core, x);
    case _ =>
  }
}
