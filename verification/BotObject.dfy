/** Bot.cpp as an object updated in place, proved against the functions of module BotPeer. */
module BotObject {
  import opened Text
  import opened Replies
  import Clients
  import ClientObject
  import Parsing
  import opened BotPeer

  /** What a loop adds in front of the outcome of the rest. */
  function Before(lines: seq<string>, r: Reception): Reception { r.(lines := lines + r.lines) }

  lemma BeforeTwice(a: seq<string>, line: string, r: Reception)
    ensures Before(a, Before([line], r)) == Before(a + [line], r)
    ensures Before([], r) == r
  {
    assert a + ([line] + r.lines) == (a + [line]) + r.lines;
  }

  lemma BeforeJoined(a: seq<string>, b: seq<string>, r: Reception)
    ensures Before(a, Before(b, r)) == Before(a + b, r)
  {
    assert a + (b + r.lines) == (a + b) + r.lines;
  }

  /** `said` and `sent` record what went out: the lines, and the bytes. */
  class Bot {
    const channel: string
    var receiveBuffer: string
    ghost var said: seq<string>
    ghost var sent: string

    constructor (channel: string)
      ensures this.channel == channel && receiveBuffer == "" && said == [] && sent == ""
    {
      this.channel, receiveBuffer, said, sent := channel, "", [], "";
    }

    /** The checks, then the send loop: whatever each send takes, the bytes sent are the line and CRLF. */
    method SendLine(line: string) returns (ok: bool)
      modifies this`said, this`sent
      ensures ok == BotPeer.SendLine(line).Says?
      ensures said == (if ok then old(said) + [line] else old(said))
      ensures sent == (if ok then old(sent) + (line + CRLF) else old(sent))
    {
      if line == "" || |line| + 2 > Clients.MAX_MESSAGE { return false; }
      var i := 0;
      while i < |line|
        invariant i <= |line| && forall k :: 0 <= k < i ==> line[k] !in Clients.FORBIDDEN
      {
        if line[i] == '\0' || line[i] == '\r' || line[i] == '\n' { return false; }
        i := i + 1;
      }
      var message := line + CRLF;
      var sentBytes := 0;
      while sentBytes < |message|
        invariant sentBytes <= |message| && said == old(said) && sent == old(sent) + message[..sentBytes]
      {
        var taken: nat :| 1 <= taken <= |message| - sentBytes;
        sent := sent + message[sentBytes..sentBytes + taken];
        sentBytes := sentBytes + taken;
      }
      said := said + [line];
      return true;
    }

    /** A line leaves the buffer with its newline; the rest of a refused line never matters. */
    method ExtractLine() returns (cut: Cut)
      modifies this`receiveBuffer
      ensures cut == CutLine(old(receiveBuffer))
      ensures receiveBuffer == if cut.Got? || cut.Forbidden? then cut.rest else old(receiveBuffer)
    {
      var newline := IndexOf(receiveBuffer, '\n');
      if newline == |receiveBuffer| { return if |receiveBuffer| >= Clients.MAX_MESSAGE then Oversized else More; }
      if newline + 1 > Clients.MAX_MESSAGE { return Oversized; }
      var line := Parsing.StripCr(receiveBuffer[..newline]);
      receiveBuffer := receiveBuffer[newline + 1..];
      var bad := ClientObject.HasControlByte(line);
      return if bad then Forbidden(receiveBuffer) else Got(line, receiveBuffer);
    }

    method GreetJoinedUser(line: string) returns (ok: bool)
      modifies this`said, this`sent
      ensures Did(BotPeer.GreetJoinedUser(channel, line), ok, old(said), said)
    {
      if line == "" || line[0] != ':' { return true; }
      var join := Find(line, " JOIN ");
      var bang := IndexOf(line, '!');
      if join.None? || bang == |line| || bang > join.value { return true; }
      var nick := line[1..bang];
      if nick == "" || nick == BOT_NICKNAME { return true; }
      if DropColon(line[join.value + 6..]) != channel { return true; }
      ok := SendLine(Greeting(channel, nick));
    }

    method ProcessLine(line: string) returns (ok: bool)
      modifies this`said, this`sent
      ensures Did(React(channel, line), ok, old(said), said)
    {
      if "PING " <= line {
        ok := SendLine("PONG " + line[5..]);
      } else if Find(line, " 001 ").Some? {
        ok := SendLine("JOIN " + channel);
      } else if Find(line, " 433 ").Some? || Find(line, " 464 ").Some? {
        return false;
      } else {
        ok := GreetJoinedUser(line);
      }
    }

    /** The inner loop of receiveMessages. */
    method DrainBuffer() returns (lines: seq<string>, status: Status)
      modifies this`receiveBuffer, this`said, this`sent
      ensures Reception(receiveBuffer, lines, status) == Drain(Throwing(channel), old(receiveBuffer))
    {
      lines, status := [], Running;
      ghost var all := Drain(Throwing(channel), receiveBuffer);
      BeforeTwice([], "", all);
      var more := true;
      while more
        invariant more ==> status == Running && Before(lines, Drain(Throwing(channel), receiveBuffer)) == all
        invariant !more ==> Reception(receiveBuffer, lines, status) == all
        decreases more, |receiveBuffer|
      {
        var cut := ExtractLine();
        match cut
        case More =>
          more := false;
        case Got(line, _) =>
          BeforeTwice(lines, line, Drain(Throwing(channel), receiveBuffer));
          lines := lines + [line];
          var ok := ProcessLine(line);
          if !ok { more, status := false, Thrown; }
        case _ =>
          more, status := false, FramingFault;
      }
    }

    /** One recv. */
    method Receive(chunk: string) returns (lines: seq<string>, status: Status)
      modifies this`receiveBuffer, this`said, this`sent
      ensures Reception(receiveBuffer, lines, status) == BotPeer.Receive(Throwing(channel), old(receiveBuffer), chunk)
    {
      if |receiveBuffer| > MAX_RECEIVE_BUFFER || |chunk| > MAX_RECEIVE_BUFFER - |receiveBuffer| { return [], FramingFault; }
      receiveBuffer := receiveBuffer + chunk;
      lines, status := DrainBuffer();
    }

    /** receiveMessages: the outer loop over what recv returns. */
    method ReceiveMessages(chunks: seq<string>) returns (lines: seq<string>, status: Status)
      modifies this`receiveBuffer, this`said, this`sent
      ensures Reception(receiveBuffer, lines, status) == ReceiveAll(Throwing(channel), old(receiveBuffer), chunks)
    {
      lines, status := [], Running;
      ghost var all := ReceiveAll(Throwing(channel), receiveBuffer, chunks);
      BeforeTwice([], "", all);
      assert chunks[0..] == chunks;
      var i := 0;
      while i < |chunks| && status == Running
        invariant i <= |chunks|
        invariant status == Running ==> Before(lines, ReceiveAll(Throwing(channel), receiveBuffer, chunks[i..])) == all
        invariant status != Running ==> Reception(receiveBuffer, lines, status) == all
      {
        assert chunks[i..][0] == chunks[i] && chunks[i..][1..] == chunks[i + 1..];
        var got;
        got, status := Receive(chunks[i]);
        BeforeJoined(lines, got, ReceiveAll(Throwing(channel), receiveBuffer, chunks[i + 1..]));
        lines := lines + got;
        i := i + 1;
      }
    }
  }

  /** What processing a line did, against the reaction the specification gives it. */
  ghost predicate Did(r: Reaction, ok: bool, before: seq<string>, after: seq<string>) {
    match r
    case Silent => ok && after == before
    case Says(line) => ok && after == before + [line]
    case Throws => !ok && after == before
  }
}
