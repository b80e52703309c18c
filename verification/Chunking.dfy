/** However a stream is cut into reads, the same lines reach processLine. */
module Chunking {
  import opened Text
  import opened Replies
  import opened State
  import opened Invariant
  import opened EventLoop
  import opened EventProofs

  /** The reference: the lines of the whole stream, in order, up to the first that is oversized, holds
      a forbidden byte, or stops the client; and the state after processing them. */
  function Stream(s: Core, fd: int, stream: string): (r: (Core, seq<string>))
    requires fd in s.clients
    decreases |stream|
  {
    match Extract(stream)
    case Line(line, rest) =>
      var t := ProcessLine(s, fd, line);
      if !Listening(t, fd) then (t, [line])
      else
        var r := Stream(t, fd, rest);
        (r.0, [line] + r.1)
    case _ => (s, [])
  }

  /** Consecutive reads of one client. */
  function FeedAll(s: Core, fd: int, buffer: string, chunks: seq<string>): Drained
    decreases |chunks|
  {
    if chunks == [] || fd !in s.clients then Drained(s, buffer, [])
    else
      var d := Receive(s, fd, buffer, chunks[0]);
      var e := FeedAll(d.core, fd, d.buffer, chunks[1..]);
      e.(lines := d.lines + e.lines)
  }

  /** The framing layer may add one thing to the state the lines produced: the client's death. */
  ghost predicate UpToDeath(c: Core, d: Core, fd: int)
    requires fd in c.clients
  {
    d == c || (Listening(c, fd) && d in {Kill(c, fd, InputFlood), Kill(c, fd, LineTooLong), Kill(c, fd, ControlByte)})
  }

  lemma {:induction false} IndexOfPrefix(s: string, c: char, more: string)
    requires c in s
    ensures IndexOf(s + more, c) == IndexOf(s, c)
  {
    assert (s + more)[0] == s[0];
    if s[0] != c {
      assert s == [s[0]] + s[1..] && (s + more)[1..] == s[1..] + more;
      IndexOfPrefix(s[1..], c, more);
    }
  }

  /** The same extraction with bytes that came later. */
  function Followed(e: Extraction, more: string): Extraction {
    match e
    case NoLine => NoLine
    case TooLong(rest) => TooLong(rest + more)
    case Control(rest) => Control(rest + more)
    case Line(line, rest) => Line(line, rest + more)
  }

  /** A line already complete is not changed by bytes that come later. */
  lemma ExtractMore(buffer: string, more: string)
    requires '\n' in buffer
    ensures !Extract(buffer).NoLine? && Extract(buffer + more) == Followed(Extract(buffer), more)
  {
    var i := IndexOf(buffer, '\n');
    IndexOfPrefix(buffer, '\n', more);
    assert (buffer + more)[..i] == buffer[..i];
    assert (buffer + more)[i + 1..] == buffer[i + 1..] + more;
  }

  /** A buffer drained early, and what the reference `r` sees of it when `more` follows. */
  ghost predicate AgreesWith(d: Drained, r: (Core, seq<string>), fd: int, more: string) {
    fd in d.core.clients &&
    if Listening(d.core, fd) then
      var e := Stream(d.core, fd, d.buffer + more);
      r == (e.0, d.lines + e.1)
    else fd in r.0.clients && r.1 == d.lines && UpToDeath(r.0, d.core, fd)
  }

  ghost predicate Agrees(s: Core, fd: int, buffer: string, more: string)
    requires fd in s.clients
  {
    AgreesWith(Drain(s, fd, buffer), Stream(s, fd, buffer + more), fd, more)
  }

  lemma PrependAgrees(d: Drained, r: (Core, seq<string>), fd: int, more: string, line: string)
    requires AgreesWith(d, r, fd, more)
    ensures AgreesWith(d.(lines := [line] + d.lines), (r.0, [line] + r.1), fd, more)
  {
    if Listening(d.core, fd) {
      var e := Stream(d.core, fd, d.buffer + more);
      assert [line] + (d.lines + e.1) == ([line] + d.lines) + e.1;
    }
  }

  lemma DrainLine(s: Core, fd: int, buffer: string, line: string, rest: string)
    requires fd in s.clients && Extract(buffer) == Line(line, rest)
    ensures
      var t := ProcessLine(s, fd, line);
      Drain(s, fd, buffer) ==
        if Listening(t, fd) then Drain(t, fd, rest).(lines := [line] + Drain(t, fd, rest).lines)
        else Drained(t, rest, [line])
  {
  }

  lemma StreamLine(s: Core, fd: int, stream: string, line: string, rest: string)
    requires fd in s.clients && Extract(stream) == Line(line, rest)
    ensures
      var t := ProcessLine(s, fd, line);
      Stream(s, fd, stream) ==
        if Listening(t, fd) then (Stream(t, fd, rest).0, [line] + Stream(t, fd, rest).1) else (t, [line])
  {
  }

  lemma NoLineAgrees(s: Core, fd: int, buffer: string, more: string)
    requires Listening(s, fd)
    ensures AgreesWith(Drained(s, buffer, []), Stream(s, fd, buffer + more), fd, more)
  {
    var e := Stream(s, fd, buffer + more);
    assert [] + e.1 == e.1;
  }

  lemma KilledAgrees(s: Core, fd: int, buffer: string, more: string)
    requires Listening(s, fd) && (Extract(buffer).TooLong? || Extract(buffer).Control?)
    ensures Agrees(s, fd, buffer, more)
  {
    ExtractMore(buffer, more);
  }

  lemma LineAgrees(s: Core, fd: int, buffer: string, line: string, rest: string, more: string)
    requires fd in s.clients && Extract(buffer) == Line(line, rest)
    requires fd in ProcessLine(s, fd, line).clients
    requires Listening(ProcessLine(s, fd, line), fd) ==> Agrees(ProcessLine(s, fd, line), fd, rest, more)
    ensures Agrees(s, fd, buffer, more)
  {
    var t := ProcessLine(s, fd, line);
    ExtractMore(buffer, more);
    DrainLine(s, fd, buffer, line, rest);
    StreamLine(s, fd, buffer + more, line, rest + more);
    if Listening(t, fd) {
      PrependAgrees(Drain(t, fd, rest), Stream(t, fd, rest + more), fd, more, line);
    }
  }

  /** Draining a buffer early agrees with the reference on everything that may still follow. */
  lemma {:induction false} DrainAgrees(s: Core, fd: int, buffer: string, more: string)
    requires Inv(s) && Listening(s, fd)
    ensures Agrees(s, fd, buffer, more)
    decreases |buffer|
  {
    var e := Extract(buffer);
    if e.Line? {
      var t := ProcessLine(s, fd, e.line);
      ExtractedClean(buffer);
      ProcessLineSound(s, fd, e.line);
      if Listening(t, fd) { DrainAgrees(t, fd, e.rest, more); }
      LineAgrees(s, fd, buffer, e.line, e.rest, more);
    } else if e.NoLine? {
      NoLineAgrees(s, fd, buffer, more);
    } else {
      KilledAgrees(s, fd, buffer, more);
    }
  }

  /** A client that stopped listening takes nothing more. */
  lemma {:induction false} FeedDeaf(s: Core, fd: int, buffer: string, chunks: seq<string>)
    requires fd in s.clients && !Listening(s, fd)
    ensures FeedAll(s, fd, buffer, chunks).core == s && FeedAll(s, fd, buffer, chunks).lines == []
    decreases |chunks|
  {
    if chunks != [] { FeedDeaf(s, fd, buffer, chunks[1..]); }
  }

  /** A rejected chunk is the start of a line that would have been too long anyway. */
  lemma RejectedChunk(s: Core, fd: int, buffer: string, chunk: string, more: string)
    requires fd in s.clients && InboxOk(buffer) && 1 <= |chunk| <= RECV_CHUNK && !Append(buffer, chunk).1
    ensures Stream(s, fd, buffer + chunk + more) == (s, [])
  {
    var all := buffer + chunk;
    IndexOfAppend(all, '\n', more);
  }

  ghost predicate Chunks(chunks: seq<string>) {
    forall i :: 0 <= i < |chunks| ==> 1 <= |chunks[i]| <= RECV_CHUNK
  }

  /** Main result: for every stream and every cut of it into reads, the lines handed to processLine are
      the reference lines of the whole stream, and the final state is the state those lines produce, up
      to the framing layer's own kill of this client. */
  lemma {:induction false} FeedAgrees(s: Core, fd: int, buffer: string, chunks: seq<string>)
    requires Inv(s) && Listening(s, fd) && InboxOk(buffer) && Chunks(chunks)
    ensures
      var d := FeedAll(s, fd, buffer, chunks);
      var r := Stream(s, fd, buffer + Flatten(chunks));
      fd in r.0.clients && d.lines == r.1 && UpToDeath(r.0, d.core, fd)
    decreases |chunks|
  {
    if chunks == [] {
      assert buffer + Flatten(chunks) == buffer;
    } else {
      var chunk, rest := chunks[0], Flatten(chunks[1..]);
      var all := buffer + chunk;
      assert buffer + Flatten(chunks) == all + rest;
      var d := Receive(s, fd, buffer, chunk);
      ReceiveSound(s, fd, buffer, chunk);
      ReceiveBound(s, fd, buffer, chunk);
      if !Append(buffer, chunk).1 {
        RejectedChunk(s, fd, buffer, chunk, rest);
        FeedDeaf(d.core, fd, d.buffer, chunks[1..]);
      } else {
        DrainAgrees(s, fd, all, rest);
        if Listening(d.core, fd) {
          FeedAgrees(d.core, fd, d.buffer, chunks[1..]);
        } else {
          FeedDeaf(d.core, fd, d.buffer, chunks[1..]);
          assert d.lines + [] == d.lines;
        }
      }
    }
  }

  /** Chunking independence: two cuts of the same stream hand over the same lines and differ at most in
      whether, and for which framing reason, the client has already been killed. */
  lemma ChunkingIndependence(v: Server, fd: int, a: seq<string>, b: seq<string>)
    requires ServerOk(v) && Listening(v.core, fd) && Chunks(a) && Chunks(b) && Flatten(a) == Flatten(b)
    ensures
      var x, y := FeedAll(v.core, fd, v.inbox[fd], a), FeedAll(v.core, fd, v.inbox[fd], b);
      var c := Stream(v.core, fd, v.inbox[fd] + Flatten(a)).0;
      x.lines == Stream(v.core, fd, v.inbox[fd] + Flatten(a)).1 && y.lines == x.lines && fd in c.clients && UpToDeath(c, x.core, fd) && UpToDeath(c, y.core, fd)
  {
    FeedAgrees(v.core, fd, v.inbox[fd], a);
    FeedAgrees(v.core, fd, v.inbox[fd], b);
  }

  function Reads(fd: int, chunks: seq<string>): seq<Step> {
    if chunks == [] then [] else [Read(fd, chunks[0])] + Reads(fd, chunks[1..])
  }

  /** The lines of client `fd` that a run hands to processLine. */
  function HandedOver(v: Server, steps: seq<Step>, fd: int): seq<string>
    decreases |steps|
  {
    if steps == [] then []
    else HandedNow(v, steps[0], fd) + HandedOver(Next(v, steps[0]), steps[1..], fd)
  }

  function HandedNow(v: Server, e: Step, fd: int): seq<string> {
    if e.Read? && e.fd == fd && fd in v.core.clients && fd in v.inbox then Receive(v.core, fd, v.inbox[fd], e.chunk).lines
    else []
  }

  /** FeedAll is what a run of read steps does: to the shared state, to the buffer, and in the lines it
      hands over; no other buffer changes. */
  lemma {:induction false} ReadsAreFed(v: Server, fd: int, chunks: seq<string>)
    requires ServerOk(v) && fd in v.core.clients && Chunks(chunks)
    ensures
      var d := FeedAll(v.core, fd, v.inbox[fd], chunks);
      var w := Run(v, Reads(fd, chunks));
      w.core == d.core && w.inbox == v.inbox[fd := d.buffer] && HandedOver(v, Reads(fd, chunks), fd) == d.lines
    decreases |chunks|
  {
    hide Inv, InboxOk, Receive, Authority, Aged, Bystanders;
    if chunks == [] {
      assert v.inbox[fd := v.inbox[fd]] == v.inbox;
    } else {
      var w := ReadClient(v, fd, chunks[0]);
      ReadOk(v, fd, chunks[0]);
      ReceiveSound(v.core, fd, v.inbox[fd], chunks[0]);
      assert Reads(fd, chunks)[1..] == Reads(fd, chunks[1..]);
      ReadsAreFed(w, fd, chunks[1..]);
      var d := FeedAll(w.core, fd, w.inbox[fd], chunks[1..]);
      assert w.inbox[fd := d.buffer] == v.inbox[fd := d.buffer];
    }
  }
}
