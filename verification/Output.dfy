/** What a client's socket takes, step by step and over runs. */
module Output {
  import opened Text
  import opened Clients
  import opened State
  import opened Invariant
  import opened EventLoop
  import opened EventProofs
  import opened Lifecycle

  /** A write of some bytes on a client that has bytes to give. */
  predicate Takes(v: Server, e: Step, fd: int) {
    e.Write? && e.fd == fd && e.count > 0
    && fd in v.core.clients && !v.core.clients[fd].dead && v.core.clients[fd].sendBuffer != ""
  }

  /** One write: exactly its bytes move from the head of the queue to the socket, and nothing else about
      the server changes. */
  lemma WriteExact(v: Server, e: Step, fd: int)
    requires ServerOk(v) && Possible(v, e) && Takes(v, e, fd)
    ensures
      var c := v.core.clients[fd];
      var w := Next(v, e);
      e.count <= |c.sendBuffer| && fd in w.core.clients &&
      var d := w.core.clients[fd];
      && d.sent == c.sent + c.sendBuffer[..e.count] && c.sendBuffer == c.sendBuffer[..e.count] + d.sendBuffer
      && |d.sent| == |c.sent| + e.count && d.sent <= Flatten(c.accepted)
      && d == c.(sent := d.sent, sendBuffer := d.sendBuffer)
      && w == v.(core := v.core.(clients := v.core.clients[fd := d]))
  {
    hide NicksOk, ChannelsOk, PollOk;
    var c := v.core.clients[fd];
    assert SessionOk(c);
    assert Flatten(c.accepted) == c.sent + c.sendBuffer;
    assert c.sent + c.sendBuffer == (c.sent + c.sendBuffer[..e.count]) + c.sendBuffer[e.count..];
  }

  lemma CoreSends(s: Core, t: Core, fd: int, x: int)
    requires Sound(s, t, fd) && x in s.clients
    ensures x in t.clients && t.clients[x].sent == s.clients[x].sent
  {
    hide Inv, Authority, Aged, Bystanders;
  }

  lemma ReapSends(s: Core, x: int)
    requires Inv(s) && x in ReapDead(s).clients
    ensures x in s.clients && ReapDead(s).clients[x].sent == s.clients[x].sent
  {
    hide Inv, DisconnectEach;
    CondemnInv(s);
    var t := Condemn(s);
    DeadFdsListed(t);
    DisconnectEachHeard(t, DeadFds(t));
    assert Heard(t.clients[x], ReapDead(s).clients[x]);
  }

  /** Nothing but a write sends. */
  lemma OnlyWritesSend(v: Server, e: Step, x: int)
    requires ServerOk(v) && Possible(v, e) && x in v.core.clients && x in Next(v, e).core.clients && !Takes(v, e, x)
    ensures Next(v, e).core.clients[x].sent == v.core.clients[x].sent
  {
    hide Inv, Receive, ReapDead, LiveFrom, Sound;
    match e
    case Read(fd, chunk) =>
      if fd in v.core.clients {
        ReceiveSound(v.core, fd, v.inbox[fd], chunk);
        CoreSends(v.core, ReadClient(v, fd, chunk).core, fd, x);
      }
    case Reap => ReapSends(v.core, x);
    case _ =>
  }

  /** The bytes a run's writes take from one client. */
  function Taken(v: Server, steps: seq<Step>, fd: int): nat
    decreases |steps|
  {
    if steps == [] then 0
    else (if Takes(v, steps[0], fd) then steps[0].count else 0) + Taken(Next(v, steps[0]), steps[1..], fd)
  }

  /** Main result: over any run in which the connection stays, what its socket has taken grows by exactly
      the bytes its writes took, and is always the beginning of the accepted messages. */
  lemma {:induction false} SentIsTaken(v: Server, steps: seq<Step>, fd: int)
    requires ServerOk(v) && PossibleRun(v, steps) && Stays(v, steps, fd)
    ensures
      var w := Run(v, steps);
      fd in w.core.clients &&
      var c, d := v.core.clients[fd], w.core.clients[fd];
      |d.sent| == |c.sent| + Taken(v, steps, fd) && d.sent <= Flatten(d.accepted)
    decreases |steps|
  {
    hide Next, Possible, Takes, NicksOk, ChannelsOk, PollOk;
    SentIsPrefix(v, fd);
    if steps != [] {
      var w := Next(v, steps[0]);
      NextOk(v, steps[0]);
      SentIsTaken(w, steps[1..], fd);
      StepSends(v, steps[0], fd);
    }
  }

  lemma SentIsPrefix(v: Server, fd: int)
    requires ServerOk(v) && fd in v.core.clients
    ensures v.core.clients[fd].sent <= Flatten(v.core.clients[fd].accepted)
  {
    hide NicksOk, ChannelsOk, PollOk;
    assert SessionOk(v.core.clients[fd]);
  }

  lemma StepSends(v: Server, e: Step, fd: int)
    requires ServerOk(v) && Possible(v, e) && fd in v.core.clients && fd in Next(v, e).core.clients
    ensures |Next(v, e).core.clients[fd].sent| == |v.core.clients[fd].sent| + if Takes(v, e, fd) then e.count else 0
  {
    hide Next, Possible, ServerOk;
    if Takes(v, e, fd) { WriteExact(v, e, fd); } else { OnlyWritesSend(v, e, fd); }
  }

  // ------------------------------------------------------------------- draining

  /** The queue of a client that is no longer served only shrinks, by what is taken. */
  lemma StoppedQueue(v: Server, e: Step, fd: int)
    requires ServerOk(v) && Possible(v, e) && fd in v.core.clients && fd in Next(v, e).core.clients
    requires !v.core.clients[fd].Active() && !Takes(v, e, fd)
    ensures Next(v, e).core.clients[fd].sendBuffer == v.core.clients[fd].sendBuffer
    ensures Next(v, e).core.clients[fd].closing == v.core.clients[fd].closing
  {
    hide Inv, ReapDead, LiveFrom, Drain, Append;
    match e
    case Read(x, chunk) =>
      if x in v.core.clients && x != fd {
        ReceiveSound(v.core, x, v.inbox[x], chunk);
        OthersQueue(v.core, ReadClient(v, x, chunk).core, x, fd);
      }
    case Reap => ReapQueue(v.core, fd);
    case _ =>
  }

  lemma OthersQueue(s: Core, t: Core, x: int, fd: int)
    requires Sound(s, t, x) && fd in s.clients && x != fd && !s.clients[fd].Active()
    ensures fd in t.clients && t.clients[fd].sendBuffer == s.clients[fd].sendBuffer && t.clients[fd].closing == s.clients[fd].closing
  {
    hide Inv, Authority, Aged;
    assert Heard(s.clients[fd], t.clients[fd]);
  }

  lemma ReapQueue(s: Core, x: int)
    requires Inv(s) && x in ReapDead(s).clients
    ensures x in s.clients && ReapDead(s).clients[x].closing == s.clients[x].closing
    ensures !s.clients[x].Active() ==> ReapDead(s).clients[x].sendBuffer == s.clients[x].sendBuffer
  {
    hide Inv, DisconnectEach;
    CondemnInv(s);
    var t := Condemn(s);
    DeadFdsListed(t);
    DisconnectEachHeard(t, DeadFds(t));
    assert Heard(t.clients[x], ReapDead(s).clients[x]);
  }

  /** A client that is no longer served owes exactly what its writes have not taken. */
  lemma {:induction false} StoppedDrains(v: Server, steps: seq<Step>, fd: int)
    requires ServerOk(v) && PossibleRun(v, steps) && Stays(v, steps, fd) && !v.core.clients[fd].Active()
    ensures
      var w := Run(v, steps);
      fd in w.core.clients &&
      |w.core.clients[fd].sendBuffer| + Taken(v, steps, fd) == |v.core.clients[fd].sendBuffer|
      && w.core.clients[fd].closing == v.core.clients[fd].closing
    decreases |steps|
  {
    hide Next, Possible, Takes, Inv;
    if steps != [] {
      var w := Next(v, steps[0]);
      NextOk(v, steps[0]);
      NextCarries(v, steps[0]);
      assert CarriedAt(v, w, fd);
      StoppedStep(v, steps[0], fd);
      StoppedDrains(w, steps[1..], fd);
    }
  }

  lemma StoppedStep(v: Server, e: Step, fd: int)
    requires ServerOk(v) && Possible(v, e) && fd in v.core.clients && fd in Next(v, e).core.clients && !v.core.clients[fd].Active()
    ensures |Next(v, e).core.clients[fd].sendBuffer| + (if Takes(v, e, fd) then e.count else 0) == |v.core.clients[fd].sendBuffer|
    ensures Next(v, e).core.clients[fd].closing == v.core.clients[fd].closing
  {
    hide Next, Possible, ServerOk;
    if Takes(v, e, fd) { WriteExact(v, e, fd); } else { StoppedQueue(v, e, fd); }
  }

  /** Main result: a closing client is gone after the next reap as soon as writes have taken everything it
      was still owed, and not before unless it dies. */
  lemma DrainedIsReaped(v: Server, steps: seq<Step>, fd: int)
    requires ServerOk(v) && PossibleRun(v, steps) && Stays(v, steps, fd) && v.core.clients[fd].closing
    ensures
      var w := Run(v, steps);
      fd in w.core.clients &&
      (fd !in Next(w, Reap).core.clients <==>
        w.core.clients[fd].dead || Taken(v, steps, fd) == |v.core.clients[fd].sendBuffer|)
  {
    hide Inv, Frozen, ReapDead, Possible, Takes;
    StoppedDrains(v, steps, fd);
    RunOk(v, steps);
    ReapKeys(Run(v, steps).core);
  }

  // --------------------------------------------------------- what poll is asked for

  /** Every entry of the poll list must be the listening socket or a client; then each asks for input unless
      its client is closing, and for output exactly when its client has some queued. */
  lemma {:induction false} RefreshExact(s: Core, fds: seq<int>)
    ensures
      var r := Refresh(s, fds);
      (r.Some? <==> forall i :: 0 <= i < |fds| ==> fds[i] == s.listenFd || fds[i] in s.clients)
      && (r.Some? ==> |r.value| == |fds| && forall i :: 0 <= i < |fds| ==>
            r.value[i].fd == fds[i]
            && (r.value[i].input <==> fds[i] == s.listenFd || !s.clients[fds[i]].closing)
            && (r.value[i].output <==> fds[i] != s.listenFd && s.clients[fds[i]].sendBuffer != ""))
    decreases |fds|
  {
    if fds != [] {
      RefreshExact(s, fds[1..]);
      assert fds == [fds[0]] + fds[1..];
    }
  }
}
