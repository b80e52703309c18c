/** The bot (Bot.cpp): the peer at the other end of a client's output. */
module BotPeer {
  import opened Text
  import opened Clients
  import Parsing

  const BOT_NICKNAME := "ft_bot"
  const RECEIVE_CHUNK := 4096
  const MAX_RECEIVE_BUFFER := 8192

  // ---------------------------------------------------------------- reactions

  /** What processing one line does: nothing, one line sent, or an exception. */
  datatype Reaction = Silent | Says(line: string) | Throws

  /** sendLine's own checks. */
  function SendLine(line: string): Reaction {
    if line == "" || |line| + 2 > MAX_MESSAGE || !Clean(line) then Throws else Says(line)
  }

  function Greeting(channel: string, nick: string): string {
    "PRIVMSG " + channel + " :Hello @" + nick
  }

  function DropColon(s: string): string { if s != "" && s[0] == ':' then s[1..] else s }

  function GreetJoinedUser(channel: string, line: string): Reaction {
    if line == "" || line[0] != ':' then Silent
    else
      var join := Find(line, " JOIN ");
      var bang := IndexOf(line, '!');
      if join.None? || bang == |line| || bang > join.value then Silent
      else
        var nick := line[1..bang];
        if nick == "" || nick == BOT_NICKNAME then Silent
        else if DropColon(line[join.value + 6..]) != channel then Silent
        else SendLine(Greeting(channel, nick))
  }

  function React(channel: string, line: string): Reaction {
    if "PING " <= line then SendLine("PONG " + line[5..])
    else if Find(line, " 001 ").Some? then SendLine("JOIN " + channel)
    else if Find(line, " 433 ").Some? || Find(line, " 464 ").Some? then Throws
    else GreetJoinedUser(channel, line)
  }

  // ------------------------------------------------------------------ framing

  datatype Status = Running | FramingFault | Thrown

  /** The receive loop so far: what is buffered, the lines extracted, how it stands. */
  datatype Reception = Reception(buffer: string, lines: seq<string>, status: Status)

  datatype Cut = More | Oversized | Forbidden(rest: string) | Got(line: string, rest: string)

  function CutLine(buffer: string): (c: Cut)
    ensures c.Got? ==> |c.rest| < |buffer|
  {
    var i := IndexOf(buffer, '\n');
    if i == |buffer| then if |buffer| >= MAX_MESSAGE then Oversized else More
    else if i + 1 > MAX_MESSAGE then Oversized
    else
      var line := Parsing.StripCr(buffer[..i]);
      if '\0' in line || '\r' in line then Forbidden(buffer[i + 1..]) else Got(line, buffer[i + 1..])
  }

  /** Which lines make processLine throw; framing is the same for any of them. */
  type Verdict = string -> bool

  function Throwing(channel: string): Verdict { line => React(channel, line).Throws? }

  function Drain(throws: Verdict, buffer: string): Reception
    decreases |buffer|
  {
    match CutLine(buffer)
    case More => Reception(buffer, [], Running)
    case Got(line, rest) =>
      if throws(line) then Reception(rest, [line], Thrown)
      else
        var r := Drain(throws, rest);
        r.(lines := [line] + r.lines)
    case Forbidden(rest) => Reception(rest, [], FramingFault)
    case Oversized => Reception(buffer, [], FramingFault)
  }

  /** One recv of the receive loop, with its capacity check. */
  function Receive(throws: Verdict, buffer: string, chunk: string): Reception {
    if |buffer| > MAX_RECEIVE_BUFFER || |chunk| > MAX_RECEIVE_BUFFER - |buffer| then Reception(buffer, [], FramingFault)
    else Drain(throws, buffer + chunk)
  }

  function ReceiveAll(throws: Verdict, buffer: string, chunks: seq<string>): Reception
    decreases |chunks|
  {
    if chunks == [] then Reception(buffer, [], Running)
    else
      var r := Receive(throws, buffer, chunks[0]);
      if !r.status.Running? then r
      else
        var q := ReceiveAll(throws, r.buffer, chunks[1..]);
        q.(lines := r.lines + q.lines)
  }

  // ----------------------------------------------------------------- delivery

  /** A message without its CRLF. */
  function BodyOf(m: string): string { if |m| < 2 then m else m[..|m| - 2] }

  function Bodies(messages: seq<string>): (bodies: seq<string>)
    ensures |bodies| == |messages| && forall i :: 0 <= i < |messages| ==> bodies[i] == BodyOf(messages[i])
  {
    seq(|messages|, i requires 0 <= i < |messages| => BodyOf(messages[i]))
  }

  lemma BodiesAppend(a: seq<string>, b: seq<string>)
    ensures Bodies(a + b) == Bodies(a) + Bodies(b)
  {
  }

  ghost predicate Valid(messages: seq<string>) {
    forall i :: 0 <= i < |messages| ==> ValidOutbound(messages[i])
  }

  /** The lines are the bodies of the first messages. */
  ghost predicate LinesTrue(lines: seq<string>, messages: seq<string>) {
    |lines| <= |messages| && lines == Bodies(messages[..|lines|])
  }

  /** Nothing is lost between the lines and the buffer. */
  ghost predicate DataTrue(r: Reception, data: string, messages: seq<string>) {
    r.status.Running? ==>
      |r.lines| <= |messages| && data == Flatten(messages[..|r.lines|]) + r.buffer
      && '\n' !in r.buffer && |r.buffer| < MAX_MESSAGE
  }

  /** It stopped exactly at the first line whose processing throws, if there was one. */
  ghost predicate StopTrue(throws: Verdict, r: Reception) {
    && !r.status.FramingFault?
    && (r.status.Running? ==> forall i :: 0 <= i < |r.lines| ==> !throws(r.lines[i]))
    && (r.status.Thrown? ==> r.lines != [] && throws(r.lines[|r.lines| - 1]))
    && (r.status.Thrown? ==> forall i :: 0 <= i < |r.lines| - 1 ==> !throws(r.lines[i]))
  }

  /** The reception `r` of some bytes `data` is true to the messages they begin. */
  ghost predicate TrueTo(throws: Verdict, r: Reception, data: string, messages: seq<string>) {
    LinesTrue(r.lines, messages) && DataTrue(r, data, messages) && StopTrue(throws, r)
  }

  /** The first newline of a message stream ends the first message. */
  lemma FirstNewline(m: string, after: string)
    requires ValidOutbound(m)
    ensures IndexOf(m + after, '\n') == |m| - 1
  {
    var head := m[..|m| - 1];
    assert m == m[..|m| - 2] + ['\r', '\n'];
    assert head == m[..|m| - 2] + ['\r'];
    assert m + after == head + (['\n'] + after);
    IndexOfAppend(head, '\n', ['\n'] + after);
  }

  /** A complete message at the head of the buffer is cut out whole. */
  lemma CutMessage(buffer: string, m: string, after: string)
    requires ValidOutbound(m) && buffer == m + after
    ensures CutLine(buffer) == Got(BodyOf(m), after)
  {
    FirstNewline(m, after);
    var i := |m| - 1;
    assert buffer[..i] == m[..|m| - 2] + ['\r'];
    assert Parsing.StripCr(buffer[..i]) == m[..|m| - 2];
    assert buffer[i + 1..] == after;
  }

  /** Fewer bytes than a message hold no newline. */
  lemma NoNewlineYet(buffer: string, more: string, m: string, after: string)
    requires ValidOutbound(m) && buffer + more == m + after && |buffer| < |m|
    ensures '\n' !in buffer
  {
    FirstNewline(m, after);
    assert (buffer + more)[..|m| - 1][..|buffer|] == buffer;
  }

  // Continuing a reception `r` by a reception `q` of the bytes that follow.

  lemma LinesContinue(r: seq<string>, q: seq<string>, ms: seq<string>)
    requires LinesTrue(r, ms) && LinesTrue(q, ms[|r|..])
    ensures LinesTrue(r + q, ms)
  {
    assert ms[..|r| + |q|] == ms[..|r|] + ms[|r|..][..|q|];
    BodiesAppend(ms[..|r|], ms[|r|..][..|q|]);
  }

  lemma DataContinue(r: Reception, q: Reception, data: string, next: string, all: string, ms: seq<string>)
    requires |r.lines| <= |ms| && all == Flatten(ms[..|r.lines|]) + next
    requires DataTrue(q, next, ms[|r.lines|..])
    ensures DataTrue(q.(lines := r.lines + q.lines), all, ms)
  {
    if q.status.Running? {
      var k, j := |r.lines|, |q.lines|;
      assert ms[..k + j] == ms[..k] + ms[k..][..j];
      FlattenAppend(ms[..k], ms[k..][..j]);
      assert Flatten(ms[..k]) + (Flatten(ms[k..][..j]) + q.buffer) == Flatten(ms[..k]) + Flatten(ms[k..][..j]) + q.buffer;
    }
  }

  lemma StopContinue(throws: Verdict, lines: seq<string>, q: Reception)
    requires (forall i :: 0 <= i < |lines| ==> !throws(lines[i])) && StopTrue(throws, q)
    ensures StopTrue(throws, q.(lines := lines + q.lines))
  {
  }

  /** Draining any beginning of a message stream. */
  lemma {:induction false} DrainDelivers(throws: Verdict, buffer: string, more: string, ms: seq<string>)
    requires Valid(ms) && buffer + more == Flatten(ms)
    ensures TrueTo(throws, Drain(throws, buffer), buffer, ms)
    decreases |ms|
  {
    if ms == [] {
      assert buffer == "";
      assert ms[..0] == [];
    } else {
      var m, rest := ms[0], Flatten(ms[1..]);
      if |buffer| < |m| {
        NoNewlineYet(buffer, more, m, rest);
        assert CutLine(buffer) == Cut.More;
        assert ms[..0] == [] && Flatten(ms[..0]) + buffer == buffer;
      } else {
        var after := buffer[|m|..];
        assert buffer == m + after by { assert (buffer + more)[..|m|] == m; }
        assert after + more == rest by { assert (buffer + more)[|m|..] == after + more; }
        CutMessage(buffer, m, after);
        assert ms[..1] == [m];
        if !throws(BodyOf(m)) {
          DrainDelivers(throws, after, more, ms[1..]);
          MessageThenRest(throws, Drain(throws, after), after, ms, buffer);
        }
      }
    }
  }

  lemma MessageThenRest(throws: Verdict, q: Reception, next: string, ms: seq<string>, all: string)
    requires ms != [] && all == ms[0] + next && !throws(BodyOf(ms[0])) && TrueTo(throws, q, next, ms[1..])
    ensures TrueTo(throws, q.(lines := [BodyOf(ms[0])] + q.lines), all, ms)
  {
    var first := Reception("", [BodyOf(ms[0])], Running);
    assert ms[..1] == [ms[0]] && Flatten([ms[0]]) == ms[0];
    LinesContinue(first.lines, q.lines, ms);
    DataContinue(first, q, ms[0], next, all, ms);
    StopContinue(throws, first.lines, q);
  }

  ghost predicate Chunks(chunks: seq<string>) {
    forall i :: 0 <= i < |chunks| ==> 1 <= |chunks[i]| <= RECEIVE_CHUNK
  }

  /** What is still to come after the messages already cut. */
  lemma Remaining(ms: seq<string>, k: nat, data: string, buffer: string, later: string)
    requires k <= |ms| && data + later == Flatten(ms) && data == Flatten(ms[..k]) + buffer
    ensures buffer + later == Flatten(ms[k..])
  {
    hide Flatten;
    var done := Flatten(ms[..k]);
    assert ms == ms[..k] + ms[k..];
    FlattenAppend(ms[..k], ms[k..]);
    Cancel(done, buffer, later, Flatten(ms[k..]));
  }

  lemma Cancel(done: string, a: string, b: string, c: string)
    requires (done + a) + b == done + c
    ensures a + b == c
  {
    assert ((done + a) + b)[|done|..] == a + b;
    assert (done + c)[|done|..] == c;
  }

  lemma Regroup(a: string, b: string, c: string, d: string)
    ensures a + (b + c) == (a + b) + c && a + (b + c) + d == (a + b) + (c + d)
    ensures a + c + d == a + (c + d)
  {
  }

  /** Main result: whatever prefix of a stream of valid messages the bot has received, in chunks of any
      size recv can return, its lines are exactly the bodies of the messages it has got in full, up to
      the first whose processing throws; it never faults on size, control bytes or capacity. */
  lemma {:induction false} ReceiveDelivers(throws: Verdict, buffer: string, chunks: seq<string>, more: string, ms: seq<string>)
    requires Valid(ms) && Chunks(chunks) && buffer + Flatten(chunks) + more == Flatten(ms)
    requires '\n' !in buffer && |buffer| < MAX_MESSAGE
    ensures TrueTo(throws, ReceiveAll(throws, buffer, chunks), buffer + Flatten(chunks), ms)
    decreases |chunks|
  {
    if chunks == [] {
      assert buffer + Flatten(chunks) == buffer;
      assert ms[..0] == [] && Flatten(ms[..0]) + buffer == buffer;
    } else {
      var rest := Flatten(chunks[1..]);
      var data := buffer + chunks[0];
      Regroup(buffer, chunks[0], rest, more);
      DrainDelivers(throws, data, rest + more, ms);
      var r := Drain(throws, data);
      if r.status.Running? {
        Remaining(ms, |r.lines|, data, r.buffer, rest + more);
        Regroup(r.buffer, "", rest, more);
        ReceiveDelivers(throws, r.buffer, chunks[1..], more, ms[|r.lines|..]);
        ReceptionThenRest(throws, r, ReceiveAll(throws, r.buffer, chunks[1..]), data, rest, ms);
      }
    }
  }

  lemma ReceptionThenRest(throws: Verdict, r: Reception, q: Reception, data: string, rest: string, ms: seq<string>)
    requires r.status.Running? && TrueTo(throws, r, data, ms) && TrueTo(throws, q, r.buffer + rest, ms[|r.lines|..])
    ensures TrueTo(throws, q.(lines := r.lines + q.lines), data + rest, ms)
  {
    LinesContinue(r.lines, q.lines, ms);
    assert data + rest == Flatten(ms[..|r.lines|]) + (r.buffer + rest);
    DataContinue(r, q, data, r.buffer + rest, data + rest, ms);
    StopContinue(throws, r.lines, q);
  }

  /** The same for a sender that has sent some of its accepted messages' bytes and queued the others. */
  lemma PrefixDelivers(throws: Verdict, chunks: seq<string>, sent: string, queued: string, ms: seq<string>)
    requires Valid(ms) && Chunks(chunks) && sent + queued == Flatten(ms) && Flatten(chunks) <= sent
    ensures TrueTo(throws, ReceiveAll(throws, "", chunks), Flatten(chunks), ms)
  {
    hide TrueTo, ReceiveAll, Flatten, Valid, Chunks;
    var got := Flatten(chunks);
    var more := sent[|got|..] + queued;
    assert "" + got == got;
    assert got + more == sent + queued;
    ReceiveDelivers(throws, "", chunks, more, ms);
  }

  lemma NewlineAhead(ms: seq<string>)
    requires Valid(ms)
    ensures ms != [] ==> '\n' in Flatten(ms)
  {
    if ms != [] { FirstNewline(ms[0], Flatten(ms[1..])); }
  }

  /** Once every byte is in, every message is. */
  lemma AllReceived(throws: Verdict, r: Reception, ms: seq<string>)
    requires Valid(ms) && r.status.Running? && TrueTo(throws, r, Flatten(ms), ms)
    ensures r.lines == Bodies(ms)
  {
    var k := |r.lines|;
    assert Flatten(ms) + "" == Flatten(ms);
    Remaining(ms, k, Flatten(ms), r.buffer, "");
    assert r.buffer + "" == r.buffer;
    NewlineAhead(ms[k..]);
    assert ms[..|ms|] == ms;
  }

  /** Once every byte is in, every message has become a line if and only if processing none of them but
      perhaps the last throws; and the peer is still receiving if and only if processing none throws. */
  lemma AllReceivedExactly(throws: Verdict, r: Reception, ms: seq<string>)
    requires Valid(ms) && TrueTo(throws, r, Flatten(ms), ms)
    ensures r.lines == Bodies(ms) <==> forall i :: 0 <= i < |ms| - 1 ==> !throws(BodyOf(ms[i]))
    ensures r.status.Running? <==> forall i :: 0 <= i < |ms| ==> !throws(BodyOf(ms[i]))
  {
    hide Valid, Flatten, DataTrue, BodyOf;
    var k := |r.lines|;
    assert forall i :: 0 <= i < k ==> r.lines[i] == BodyOf(ms[..k][i]) == BodyOf(ms[i]);
    if r.status.Running? {
      AllReceived(throws, r, ms);
    } else {
      assert throws(BodyOf(ms[k - 1]));
      assert k == |ms| ==> ms[..k] == ms;
    }
  }
}
