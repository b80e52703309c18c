/** The password: what one line does about it, and what a connection's flags say of all its lines. */
module Passwords {
  import opened Replies
  import opened Clients
  import opened State
  import opened Invariant
  import opened EventLoop
  import opened EventProofs
  import opened Lifecycle
  import opened Chunking
  import Commands
  import Parsing

  /** A PASS line whose first parameter is the server's password, byte for byte, and not empty. */
  predicate RightPass(password: string, line: string) {
    var m := Parsing.Parse(line);
    m.command == "PASS" && m.params != [] && m.params[0] != "" && m.params[0] == password
  }

  /** A PASS line with another non-empty first parameter. */
  predicate WrongPass(password: string, line: string) {
    var m := Parsing.Parse(line);
    m.command == "PASS" && m.params != [] && m.params[0] != "" && m.params[0] != password
  }

  /** What is left of the password question. */
  ghost predicate Settled(c: Client, d: Client, right: bool, wrong: nat) {
    (d.passOk <==> c.passOk || right) && d.failedPass == c.failedPass + if c.passOk then 0 else wrong
  }

  /** Everything about the command itself: the flag, the count, the third failure, the replies; nothing else
      about the client, and no other client, changes. */
  lemma PassExact(s: Core, fd: int, params: seq<string>)
    requires fd in s.clients && s.clients[fd].Active() && s.clients[fd].failedPass < MAX_FAILED_PASS
    ensures
      var c := s.clients[fd];
      var t := Commands.Pass(s, fd, params);
      var given := params != [] && params[0] != "";
      fd in t.clients && t == s.(clients := s.clients[fd := t.clients[fd]]) &&
      var d := t.clients[fd];
      && (d.passOk <==> c.passOk || (given && params[0] == s.password))
      && (d.failedPass == c.failedPass + if !c.passOk && given && params[0] != s.password then 1 else 0)
      && (d.closing <==> !d.dead && d.failedPass == MAX_FAILED_PASS)
      && d.issued == c.issued + (
           if c.passOk then [Numeric(462, [c.Shown()])]
           else if !given then [Numeric(461, [c.Shown(), "PASS"])]
           else if params[0] == s.password then []
           else [Numeric(464, [c.Shown()])])
      && d.nickname == c.nickname && d.username == c.username && d.nickSet == c.nickSet && d.userSet == c.userSet
  {
    hide Client.Queue;
    var c := s.clients[fd];
    assert s.clients[fd := s.clients[fd]] == s.clients;
    SendKeeps(c, Numeric(462, [c.Shown()]), s.wire);
    SendKeeps(c, Numeric(461, [c.Shown(), "PASS"]), s.wire);
    SendKeeps(c.RecordFailedPass(), Numeric(464, [c.Shown()]), s.wire);
  }

  lemma ServedCount(c: Client)
    requires SessionOk(c) && c.Active()
    ensures c.failedPass < MAX_FAILED_PASS
  {
  }

  /** A client without an accepted password gets no further than PASS. */
  lemma UngatedLine(s: Core, fd: int, line: string)
    requires fd in s.clients && s.clients[fd].Active() && SessionOk(s.clients[fd]) && !s.clients[fd].passOk
    ensures
      var t := ProcessLine(s, fd, line);
      fd in t.clients
      && Settled(s.clients[fd], t.clients[fd], RightPass(s.password, line), if WrongPass(s.password, line) then 1 else 0)
  {
    hide Parsing.Parse, SessionOk, Commands.Pass, ProcessLine;
    ServedCount(s.clients[fd]);
    if Parsing.Parse(line).command == "PASS" {
      PassRuns(s, fd, line);
      PassExact(s, fd, Parsing.Parse(line).params);
    } else {
      NoPassLine(s, fd, line);
    }
  }

  lemma PassRuns(s: Core, fd: int, line: string)
    requires fd in s.clients && Parsing.Parse(line).command == "PASS"
    ensures ProcessLine(s, fd, line) == Commands.Pass(s, fd, Parsing.Parse(line).params)
  {
    hide Parsing.Parse, Commands.Pass;
  }

  lemma NoPassLine(s: Core, fd: int, line: string)
    requires fd in s.clients && !s.clients[fd].passOk && Parsing.Parse(line).command != "PASS"
    ensures
      var t := ProcessLine(s, fd, line);
      fd in t.clients && !t.clients[fd].passOk && t.clients[fd].failedPass == s.clients[fd].failedPass
  {
    hide Parsing.Parse, Send, Execute;
    var m := Parsing.Parse(line);
    var c := s.clients[fd];
    ReplyOnly(s, fd, CapList);
    ReplyOnly(s, fd, Pong(if m.params == [] then "ft_irc" else m.params[0]));
    ReplyOnly(s, fd, Numeric(421, [c.Shown(), m.command]));
    ReplyOnly(s, fd, Numeric(451, ["*"]));
  }

  lemma ReplyOnly(s: Core, fd: int, r: Reply)
    requires fd in s.clients
    ensures fd in Send(s, fd, r).clients
    ensures Send(s, fd, r).clients[fd].passOk == s.clients[fd].passOk && Send(s, fd, r).clients[fd].failedPass == s.clients[fd].failedPass
  {
  }

  /** What any line does about the password. */
  lemma LineSettles(s: Core, fd: int, line: string)
    requires Inv(s) && Listening(s, fd) && Clean(line)
    ensures
      var t := ProcessLine(s, fd, line);
      fd in t.clients
      && Settled(s.clients[fd], t.clients[fd], RightPass(s.password, line), if WrongPass(s.password, line) then 1 else 0)
  {
    hide ProcessLine, RightPass, WrongPass, Authority, Bystanders, NicksOk, ChannelsOk, PollOk;
    if s.clients[fd].passOk {
      ProcessLineSound(s, fd, line);
      assert Older(s.clients[fd], ProcessLine(s, fd, line).clients[fd]);
    } else {
      assert SessionOk(s.clients[fd]);
      UngatedLine(s, fd, line);
    }
  }

  // ----------------------------------------------------------------- many lines

  predicate AnyRight(password: string, lines: seq<string>) {
    exists i :: 0 <= i < |lines| && RightPass(password, lines[i])
  }

  /** The wrong attempts before the right one, if there is one. */
  function WrongPasses(password: string, lines: seq<string>): nat {
    if lines == [] || RightPass(password, lines[0]) then 0
    else (if WrongPass(password, lines[0]) then 1 else 0) + WrongPasses(password, lines[1..])
  }

  lemma AnyRightCons(password: string, line: string, more: seq<string>)
    ensures AnyRight(password, [line] + more) <==> RightPass(password, line) || AnyRight(password, more)
  {
    hide RightPass;
    var all := [line] + more;
    assert all[0] == line;
    if i :| 0 <= i < |more| && RightPass(password, more[i]) { assert all[i + 1] == more[i]; }
    if i :| 0 <= i < |all| && RightPass(password, all[i]) { assert i > 0 ==> all[i] == more[i - 1]; }
  }

  lemma {:induction false} SettledAppend(password: string, a: seq<string>, b: seq<string>)
    ensures AnyRight(password, a + b) <==> AnyRight(password, a) || AnyRight(password, b)
    ensures WrongPasses(password, a + b) == WrongPasses(password, a) + if AnyRight(password, a) then 0 else WrongPasses(password, b)
    decreases |a|
  {
    hide RightPass, WrongPass, AnyRight;
    if a == [] {
      assert a + b == b;
      NoneRight(password);
    } else {
      assert (a + b)[0] == a[0] && (a + b)[1..] == a[1..] + b;
      assert a + b == [a[0]] + (a[1..] + b) && a == [a[0]] + a[1..];
      SettledAppend(password, a[1..], b);
      AnyRightCons(password, a[0], a[1..] + b);
      AnyRightCons(password, a[0], a[1..]);
    }
  }

  lemma NoneRight(password: string)
    ensures !AnyRight(password, [])
  {
  }

  lemma WrongOne(password: string, line: string, more: seq<string>)
    ensures WrongPasses(password, [line] + more) ==
      if RightPass(password, line) then 0
      else (if WrongPass(password, line) then 1 else 0) + WrongPasses(password, more)
  {
    hide RightPass, WrongPass;
    assert ([line] + more)[1..] == more;
  }

  ghost predicate SettledBy(c: Client, d: Client, password: string, lines: seq<string>) {
    Settled(c, d, AnyRight(password, lines), WrongPasses(password, lines))
  }

  lemma SettledNothing(c: Client, d: Client, password: string)
    requires d.passOk == c.passOk && d.failedPass == c.failedPass
    ensures SettledBy(c, d, password, [])
  {
    NoneRight(password);
  }

  lemma SettledCons(c: Client, d: Client, e: Client, password: string, line: string, more: seq<string>)
    requires Settled(c, d, RightPass(password, line), if WrongPass(password, line) then 1 else 0)
    requires SettledBy(d, e, password, more)
    ensures SettledBy(c, e, password, [line] + more)
  {
    hide RightPass, WrongPass, AnyRight, WrongPasses;
    AnyRightCons(password, line, more);
    WrongOne(password, line, more);
    RightIsNotWrong(password, line);
  }

  lemma RightIsNotWrong(password: string, line: string)
    ensures !(RightPass(password, line) && WrongPass(password, line))
  {
  }

  lemma SettledJoin(c: Client, d: Client, e: Client, password: string, a: seq<string>, b: seq<string>)
    requires SettledBy(c, d, password, a) && SettledBy(d, e, password, b)
    ensures SettledBy(c, e, password, a + b)
  {
    hide AnyRight, WrongPasses;
    SettledAppend(password, a, b);
  }

  lemma {:induction false} DrainSettles(s: Core, fd: int, buffer: string)
    requires Inv(s) && Listening(s, fd)
    ensures
      var d := Drain(s, fd, buffer);
      fd in d.core.clients && SettledBy(s.clients[fd], d.core.clients[fd], s.password, d.lines)
    decreases |buffer|
  {
    hide Inv, ProcessLine, Settled, SettledBy, Authority, Aged, Bystanders;
    match Extract(buffer)
    case Line(line, rest) =>
      var t := ProcessLine(s, fd, line);
      ExtractedClean(buffer);
      ProcessLineSound(s, fd, line);
      LineSettles(s, fd, line);
      if Listening(t, fd) {
        DrainSettles(t, fd, rest);
        var d := Drain(t, fd, rest);
        SettledCons(s.clients[fd], t.clients[fd], d.core.clients[fd], s.password, line, d.lines);
      } else {
        SettledNothing(t.clients[fd], t.clients[fd], s.password);
        SettledCons(s.clients[fd], t.clients[fd], t.clients[fd], s.password, line, []);
        assert [line] + [] == [line];
      }
    case _ =>
      SettledNothing(s.clients[fd], Drain(s, fd, buffer).core.clients[fd], s.password);
  }

  lemma ReceiveSettles(s: Core, fd: int, buffer: string, chunk: string)
    requires Inv(s) && fd in s.clients
    ensures
      var d := Receive(s, fd, buffer, chunk);
      fd in d.core.clients && SettledBy(s.clients[fd], d.core.clients[fd], s.password, d.lines)
  {
    hide Inv, Drain, Append, SettledBy;
    if Listening(s, fd) && Append(buffer, chunk).1 {
      DrainSettles(s, fd, Append(buffer, chunk).0);
    } else {
      SettledNothing(s.clients[fd], Receive(s, fd, buffer, chunk).core.clients[fd], s.password);
    }
  }

  /** Nobody else's step settles anything. */
  lemma OtherStepsSettleNothing(v: Server, e: Step, fd: int)
    requires ServerOk(v) && Possible(v, e) && fd in v.core.clients && fd in Next(v, e).core.clients
    requires !(e.Read? && e.fd == fd)
    ensures
      var c, d := v.core.clients[fd], Next(v, e).core.clients[fd];
      d.passOk == c.passOk && d.failedPass == c.failedPass && Next(v, e).core.password == v.core.password
  {
    hide Inv, Receive, ReapDead, LiveFrom;
    match e
    case Read(x, chunk) =>
      if x in v.core.clients {
        ReceiveSound(v.core, x, v.inbox[x], chunk);
        OthersPass(v.core, ReadClient(v, x, chunk).core, x, fd);
      }
    case Reap => ReapPass(v.core, fd);
    case _ =>
  }

  lemma OthersPass(s: Core, t: Core, x: int, fd: int)
    requires Sound(s, t, x) && fd in s.clients && x != fd
    ensures fd in t.clients && t.clients[fd].passOk == s.clients[fd].passOk && t.clients[fd].failedPass == s.clients[fd].failedPass
    ensures t.password == s.password
  {
    hide Inv, Authority, Aged;
    assert Heard(s.clients[fd], t.clients[fd]);
  }

  lemma ReapPass(s: Core, x: int)
    requires Inv(s) && x in ReapDead(s).clients
    ensures x in s.clients && ReapDead(s).clients[x].passOk == s.clients[x].passOk
    ensures ReapDead(s).clients[x].failedPass == s.clients[x].failedPass && ReapDead(s).password == s.password
  {
    hide Inv, DisconnectEach;
    CondemnInv(s);
    var t := Condemn(s);
    DeadFdsListed(t);
    DisconnectEachHeard(t, DeadFds(t));
    DisconnectEachPassword(t, DeadFds(t));
    assert Heard(t.clients[x], ReapDead(s).clients[x]);
  }

  lemma {:induction false} DisconnectEachPassword(s: Core, fds: seq<int>)
    requires Inv(s) && (forall i, j :: 0 <= i < j < |fds| ==> fds[i] != fds[j])
    requires forall i :: 0 <= i < |fds| ==> fds[i] in s.clients
    ensures DisconnectEach(s, fds).password == s.password
    decreases |fds|
  {
    hide Inv, Disconnect, Frozen;
    if fds != [] {
      DisconnectSound(s, fds[0]);
      DisconnectEachPassword(Disconnect(s, fds[0]), fds[1..]);
    }
  }

  lemma StepSettles(v: Server, e: Step, fd: int)
    requires ServerOk(v) && Possible(v, e) && fd in v.core.clients && fd in Next(v, e).core.clients
    ensures SettledBy(v.core.clients[fd], Next(v, e).core.clients[fd], v.core.password, HandedNow(v, e, fd))
    ensures Next(v, e).core.password == v.core.password
  {
    hide Inv, Receive, SettledBy, Settled;
    if e.Read? && e.fd == fd {
      ReceiveSettles(v.core, fd, v.inbox[fd], e.chunk);
      ReceiveSound(v.core, fd, v.inbox[fd], e.chunk);
    } else {
      OtherStepsSettleNothing(v, e, fd);
      SettledNothing(v.core.clients[fd], Next(v, e).core.clients[fd], v.core.password);
    }
  }

  /** Main result: over any run in which the connection stays, its password is accepted if and only if it
      was, or one of the lines it handed over is a PASS line with exactly the server's password; and its
      count of failures grows by exactly the PASS lines with another non-empty parameter before that. */
  lemma {:induction false} RunSettles(v: Server, steps: seq<Step>, fd: int)
    requires ServerOk(v) && PossibleRun(v, steps) && Stays(v, steps, fd)
    ensures
      var w := Run(v, steps);
      fd in w.core.clients
      && SettledBy(v.core.clients[fd], w.core.clients[fd], v.core.password, HandedOver(v, steps, fd))
    decreases |steps|
  {
    hide Next, Possible, SettledBy, Inv, HandedNow, Frozen;
    if steps == [] {
      SettledNothing(v.core.clients[fd], v.core.clients[fd], v.core.password);
    } else {
      var w := Next(v, steps[0]);
      NextOk(v, steps[0]);
      StepSettles(v, steps[0], fd);
      RunSettles(w, steps[1..], fd);
      SettledJoin(v.core.clients[fd], w.core.clients[fd], Run(w, steps[1..]).core.clients[fd], v.core.password,
                  HandedNow(v, steps[0], fd), HandedOver(w, steps[1..], fd));
    }
  }

  /** From its acceptance on: a connection's flag and count are those of the lines it handed over. */
  lemma SinceAccept(v: Server, fd: int, ip: string, steps: seq<Step>)
    requires ServerOk(v) && Possible(v, Accept(fd, ip)) && fd in Next(v, Accept(fd, ip)).core.clients
    requires PossibleRun(Next(v, Accept(fd, ip)), steps) && Stays(Next(v, Accept(fd, ip)), steps, fd)
    ensures
      var w := Next(v, Accept(fd, ip));
      var u := Run(w, steps);
      var lines := HandedOver(w, steps, fd);
      fd in u.core.clients
      && (u.core.clients[fd].passOk <==> AnyRight(v.core.password, lines))
      && u.core.clients[fd].failedPass == WrongPasses(v.core.password, lines)
  {
    hide Inv, AnyRight, WrongPasses, HandedOver, Frozen, Stays, Run, PossibleRun, LiveFrom;
    var w := Next(v, Accept(fd, ip));
    NextOk(v, Accept(fd, ip));
    RunSettles(w, steps, fd);
    assert w.core.clients[fd] == NewClient(ip) && w.core.password == v.core.password;
  }
}
