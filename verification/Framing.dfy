/** What a line of the stream is: the bytes between line ends, however they are cut into reads. */
module Framing {
  import opened Text
  import opened Clients
  import opened State
  import opened Replies
  import opened Invariant
  import opened EventLoop
  import opened EventProofs
  import opened Chunking
  import opened Lines
  import Parsing

  // ------------------------------------------------------------------ the stream

  function LineEnd(crlf: bool): string { if crlf then "\r\n" else "\n" }

  /** Lines as a client writes them, each with its own line end. */
  function Written(lines: seq<string>, crlf: seq<bool>): string
    requires |lines| == |crlf|
  {
    if lines == [] then "" else lines[0] + LineEnd(crlf[0]) + Written(lines[1..], crlf[1..])
  }

  /** No control byte in the line, and at most 512 bytes with the line end. */
  predicate Fitting(line: string, crlf: bool) {
    Clean(line) && |line| + |LineEnd(crlf)| <= 512
  }

  predicate AllFit(lines: seq<string>, crlf: seq<bool>) {
    |lines| == |crlf| && forall i :: 0 <= i < |lines| ==> Fitting(lines[i], crlf[i])
  }

  // ------------------------------------------------------------- the lines served

  /** Lines processed in turn, as long as the client is served. */
  function After(s: Core, fd: int, lines: seq<string>): Core
    decreases |lines|
  {
    if lines == [] || fd !in s.clients then s
    else
      var t := ProcessLine(s, fd, lines[0]);
      if Listening(t, fd) then After(t, fd, lines[1..]) else t
  }

  /** The lines up to the first that stops the client. */
  function Served(s: Core, fd: int, lines: seq<string>): seq<string>
    decreases |lines|
  {
    if lines == [] || fd !in s.clients then []
    else
      var t := ProcessLine(s, fd, lines[0]);
      [lines[0]] + if Listening(t, fd) then Served(t, fd, lines[1..]) else []
  }

  /** They are the first lines, and all of them if the client is still served. */
  lemma {:induction false} ServedFirst(s: Core, fd: int, lines: seq<string>)
    requires Listening(s, fd)
    ensures Served(s, fd, lines) <= lines
    ensures Listening(After(s, fd, lines), fd) ==> Served(s, fd, lines) == lines
    decreases |lines|
  {
    hide ProcessLine;
    if lines != [] {
      var t := ProcessLine(s, fd, lines[0]);
      if Listening(t, fd) { ServedFirst(t, fd, lines[1..]); }
      assert lines == [lines[0]] + lines[1..];
    }
  }

  lemma {:induction false} ServedSplit(s: Core, fd: int, a: seq<string>, b: seq<string>)
    requires Listening(s, fd)
    ensures
      var t := After(s, fd, a);
      After(s, fd, a + b) == (if Listening(t, fd) then After(t, fd, b) else t)
      && Served(s, fd, a + b) == Served(s, fd, a) + if Listening(t, fd) then Served(t, fd, b) else []
    decreases |a|
  {
    hide ProcessLine;
    if a == [] {
      assert a + b == b;
    } else {
      var t := ProcessLine(s, fd, a[0]);
      assert (a + b)[0] == a[0] && (a + b)[1..] == a[1..] + b;
      if Listening(t, fd) {
        ServedSplit(t, fd, a[1..], b);
        var u := After(t, fd, a[1..]);
        var more := if Listening(u, fd) then Served(u, fd, b) else [];
        assert [a[0]] + (Served(t, fd, a[1..]) + more) == ([a[0]] + Served(t, fd, a[1..])) + more;
      }
    }
  }

  // -------------------------------------------------------------------- one line

  /** The bytes before the first newline are what is judged. */
  lemma HeadFound(head: string, rest: string)
    requires '\n' !in head
    ensures Extract(head + "\n" + rest) == Judge(head, rest)
  {
    hide Judge, IndexOf;
    var buffer := head + "\n" + rest;
    var after := "\n" + rest;
    assert buffer == head + after;
    assert IndexOf(after, '\n') == 0 by { assert after[0] == '\n'; }
    IndexOfAppend(head, '\n', after);
    assert buffer[..|head|] == head && buffer[|head| + 1..] == rest;
  }

  lemma JudgedFitting(line: string, crlf: bool, rest: string)
    requires Fitting(line, crlf)
    ensures Judge(if crlf then line + "\r" else line, rest) == Line(line, rest)
  {
    var head := if crlf then line + "\r" else line;
    assert crlf ==> head[..|head| - 1] == line;
    assert '\0' !in line && '\r' !in line;
  }

  /** A fitting line at the head of the buffer is the line found there. */
  lemma LineFound(line: string, crlf: bool, rest: string)
    requires Fitting(line, crlf)
    ensures Extract(line + LineEnd(crlf) + rest) == Line(line, rest)
  {
    hide Judge, Extract;
    var head := if crlf then line + "\r" else line;
    assert line + LineEnd(crlf) == head + "\n";
    HeadFound(head, rest);
    JudgedFitting(line, crlf, rest);
  }

  /** Draining starts with the lines at the head. */
  lemma {:induction false} DrainWritten(s: Core, fd: int, lines: seq<string>, crlf: seq<bool>, rest: string)
    requires Listening(s, fd) && AllFit(lines, crlf)
    ensures
      var t := After(s, fd, lines);
      var d := Drain(s, fd, Written(lines, crlf) + rest);
      if Listening(t, fd) then d == Drain(t, fd, rest).(lines := Served(s, fd, lines) + Drain(t, fd, rest).lines)
      else d.core == t && d.lines == Served(s, fd, lines)
    decreases |lines|
  {
    hide ProcessLine, Fitting, Extract;
    if lines == [] {
      assert Written(lines, crlf) + rest == rest;
      assert [] + Drain(s, fd, rest).lines == Drain(s, fd, rest).lines;
    } else {
      var more := Written(lines[1..], crlf[1..]) + rest;
      var t := ProcessLine(s, fd, lines[0]);
      assert Written(lines, crlf) + rest == lines[0] + LineEnd(crlf[0]) + more;
      LineFound(lines[0], crlf[0], more);
      DrainLine(s, fd, lines[0] + LineEnd(crlf[0]) + more, lines[0], more);
      if Listening(t, fd) {
        DrainWritten(t, fd, lines[1..], crlf[1..], rest);
        var u := After(t, fd, lines[1..]);
        if Listening(u, fd) {
          assert [lines[0]] + (Served(t, fd, lines[1..]) + Drain(u, fd, rest).lines)
              == ([lines[0]] + Served(t, fd, lines[1..])) + Drain(u, fd, rest).lines;
        }
      } else {
        assert [lines[0]] + [] == [lines[0]];
      }
    }
  }

  // -------------------------------------------------------------------- the cuts

  /** Where a read ends: after some whole lines and less than 512 bytes of the next, or in the tail. */
  lemma {:induction false} CutFalls(all: string, more: string, lines: seq<string>, crlf: seq<bool>, tail: string)
    returns (k: nat, part: string)
    requires AllFit(lines, crlf) && all + more == Written(lines, crlf) + tail
    ensures k <= |lines| && all == Written(lines[..k], crlf[..k]) + part
    ensures part + more == Written(lines[k..], crlf[k..]) + tail
    ensures k < |lines| ==> '\n' !in part && |part| < 512
    decreases |lines|
  {
    if lines == [] {
      k, part := 0, all;
      assert all == "" + part;
    } else {
      var first := lines[0] + LineEnd(crlf[0]);
      var others := Written(lines[1..], crlf[1..]) + tail;
      assert Written(lines, crlf) + tail == first + others;
      if |all| < |first| {
        k, part := 0, all;
        assert lines[0..] == lines && crlf[0..] == crlf && lines[..0] == [] && crlf[..0] == [];
        FirstUnfinished(all, more, first, others);
        assert Fitting(lines[0], crlf[0]);
      } else {
        var left := all[|first|..];
        Stripped(all, more, first, others);
        var j;
        j, part := CutFalls(left, more, lines[1..], crlf[1..], tail);
        k := j + 1;
        CutShifts(lines, crlf, j, part);
      }
    }
  }

  lemma Stripped(all: string, more: string, first: string, others: string)
    requires all + more == first + others && |first| <= |all|
    ensures all == first + all[|first|..] && all[|first|..] + more == others
  {
    assert first == (first + others)[..|first|] == (all + more)[..|first|] == all[..|first|];
    assert all[|first|..] + more == (all + more)[|first|..] == (first + others)[|first|..] == others;
  }

  lemma CutShifts(lines: seq<string>, crlf: seq<bool>, j: nat, part: string)
    requires |lines| == |crlf| && j < |lines|
    ensures Written(lines[..j + 1], crlf[..j + 1]) + part == lines[0] + LineEnd(crlf[0]) + (Written(lines[1..][..j], crlf[1..][..j]) + part)
    ensures lines[j + 1..] == lines[1..][j..] && crlf[j + 1..] == crlf[1..][j..]
  {
    assert lines[..j + 1][0] == lines[0] && lines[..j + 1][1..] == lines[1..][..j];
    assert crlf[..j + 1][0] == crlf[0] && crlf[..j + 1][1..] == crlf[1..][..j];
  }

  lemma FirstUnfinished(all: string, more: string, first: string, others: string)
    requires all + more == first + others && |all| < |first|
    ensures all == first[..|all|]
  {
    assert all == (all + more)[..|all|] == (first + others)[..|all|] == first[..|all|];
  }

  lemma SplitFits(lines: seq<string>, crlf: seq<bool>, k: nat)
    requires AllFit(lines, crlf) && k <= |lines|
    ensures AllFit(lines[..k], crlf[..k]) && AllFit(lines[k..], crlf[k..]) && lines == lines[..k] + lines[k..]
  {
    hide Fitting;
  }

  lemma {:induction false} WrittenEnds(lines: seq<string>, crlf: seq<bool>, rest: string)
    requires AllFit(lines, crlf) && lines != []
    ensures '\n' in Written(lines, crlf) + rest
  {
    hide Fitting;
    var n := |lines[0]| + |LineEnd(crlf[0])| - 1;
    assert (Written(lines, crlf) + rest)[n] == '\n';
  }

  lemma DrainNothing(s: Core, fd: int, part: string)
    requires fd in s.clients && '\n' !in part
    ensures Drain(s, fd, part) == Drained(s, part, [])
  {
  }

  /** One read of whole lines and the beginning of another. */
  lemma ReceiveWritten(s: Core, fd: int, buffer: string, chunk: string, lines: seq<string>, crlf: seq<bool>, part: string)
    requires Listening(s, fd) && |buffer| < RECV_CHUNK && |chunk| <= RECV_CHUNK && AllFit(lines, crlf)
    requires buffer + chunk == Written(lines, crlf) + part && '\n' !in part && (|part| < 512 || lines != [])
    ensures
      var d := Receive(s, fd, buffer, chunk);
      d.core == After(s, fd, lines) && d.lines == Served(s, fd, lines) && (Listening(d.core, fd) ==> d.buffer == part)
  {
    hide ProcessLine, Drain, Fitting;
    if lines != [] { WrittenEnds(lines, crlf, part); } else { assert Written(lines, crlf) + part == part; }
    DrainWritten(s, fd, lines, crlf, part);
    var t := After(s, fd, lines);
    if Listening(t, fd) {
      DrainNothing(t, fd, part);
      assert Served(s, fd, lines) + [] == Served(s, fd, lines);
    }
  }

  lemma Deaf(s: Core, fd: int, buffer: string, chunks: seq<string>)
    requires !Listening(s, fd)
    ensures FeedAll(s, fd, buffer, chunks).core == s && FeedAll(s, fd, buffer, chunks).lines == []
  {
    hide Receive;
    if fd in s.clients { FeedDeaf(s, fd, buffer, chunks); }
  }

  /** Main result: lines that fit, each ended by CRLF or LF and followed by the beginning of another, cut into
      reads in any way: what is handed over is exactly these lines, without their ends, up to the first that
      stops the client; the state is what they make it; the beginning stays buffered. */
  lemma {:induction false} LinesArrive(s: Core, fd: int, buffer: string, chunks: seq<string>, lines: seq<string>, crlf: seq<bool>, tail: string)
    requires Listening(s, fd) && '\n' !in buffer && Chunks(chunks)
    requires AllFit(lines, crlf) && '\n' !in tail && |tail| < 512
    requires buffer + Flatten(chunks) == Written(lines, crlf) + tail
    ensures
      var d := FeedAll(s, fd, buffer, chunks);
      d.lines == Served(s, fd, lines) && d.core == After(s, fd, lines) && (Listening(d.core, fd) ==> d.buffer == tail)
    decreases |chunks|
  {
    hide ProcessLine, Receive, Fitting, Served, After;
    if chunks == [] {
      assert buffer + Flatten(chunks) == buffer;
      NoneWritten(s, fd, buffer, lines, crlf, tail);
    } else {
      var more := Flatten(chunks[1..]);
      assert buffer + Flatten(chunks) == (buffer + chunks[0]) + more;
      var k, part := CutFalls(buffer + chunks[0], more, lines, crlf, tail);
      PartShort(part, more, lines[k..], crlf[k..], tail, k < |lines|);
      SplitFits(lines, crlf, k);
      BufferShort(buffer, chunks[0] + more, lines, crlf, tail);
      ReceiveWritten(s, fd, buffer, chunks[0], lines[..k], crlf[..k], part);
      ServedSplit(s, fd, lines[..k], lines[k..]);
      var d := Receive(s, fd, buffer, chunks[0]);
      if Listening(d.core, fd) {
        LinesArrive(d.core, fd, part, chunks[1..], lines[k..], crlf[k..], tail);
      } else {
        Deaf(d.core, fd, d.buffer, chunks[1..]);
      }
    }
  }

  /** Bytes without a line end hold no line. */
  lemma NoneWritten(s: Core, fd: int, buffer: string, lines: seq<string>, crlf: seq<bool>, tail: string)
    requires AllFit(lines, crlf) && buffer == Written(lines, crlf) + tail && '\n' !in buffer
    ensures lines == [] && buffer == tail && Served(s, fd, lines) == [] && After(s, fd, lines) == s
  {
    if lines != [] {
      WrittenEnds(lines, crlf, tail);
    }
  }

  lemma NewlineLater(buffer: string, more: string, n: nat)
    requires '\n' !in buffer && n < |buffer + more| && (buffer + more)[n] == '\n'
    ensures n >= |buffer|
  {
  }

  lemma ShortBefore(buffer: string, more: string, lines: seq<string>, crlf: seq<bool>, tail: string)
    requires AllFit(lines, crlf) && lines != [] && buffer + more == Written(lines, crlf) + tail && '\n' !in buffer
    ensures |buffer| < 512
  {
    var n := |lines[0]| + |LineEnd(crlf[0])| - 1;
    assert (Written(lines, crlf) + tail)[n] == '\n';
    NewlineLater(buffer, more, n);
    assert Fitting(lines[0], crlf[0]);
  }

  lemma BufferShort(buffer: string, more: string, lines: seq<string>, crlf: seq<bool>, tail: string)
    requires AllFit(lines, crlf) && buffer + more == Written(lines, crlf) + tail && '\n' !in buffer && |tail| < 512
    ensures |buffer| < 512
  {
    if lines == [] {
      assert Written(lines, crlf) + tail == tail;
    } else {
      ShortBefore(buffer, more, lines, crlf, tail);
    }
  }

  lemma PartShort(part: string, more: string, lines: seq<string>, crlf: seq<bool>, tail: string, inLines: bool)
    requires |lines| == |crlf| && part + more == Written(lines, crlf) + tail && (lines == [] <==> !inLines)
    requires inLines ==> '\n' !in part && |part| < 512
    requires '\n' !in tail && |tail| < 512
    ensures '\n' !in part && |part| < 512
  {
    if !inLines {
      assert Written(lines, crlf) + tail == tail;
      assert part == tail[..|part|];
    }
  }

  // ------------------------------------------------------------------- bad pieces

  /** The text of a piece: the bytes before a newline, without one final CR. */
  function Content(piece: string): string {
    if piece != "" && piece[|piece| - 1] == '\r' then piece[..|piece| - 1] else piece
  }

  /** A piece is good if it has at most 512 bytes with its newline and no NUL or inner CR. */
  predicate Good(piece: string) {
    |piece| + 1 <= 512 && '\0' !in piece && '\r' !in Content(piece)
  }

  /** The client killed, and nothing else: for its size, or for its bytes. */
  ghost predicate KilledFor(s: Core, t: Core, fd: int, piece: string)
    requires fd in s.clients
  {
    fd in t.clients &&
    var c, d := s.clients[fd], t.clients[fd];
    t == SetClient(s, fd, c.(dead := true, deadReason := d.deadReason)) &&
    if c.deadReason != Alive then d.deadReason == c.deadReason
    else if |piece| >= 512 then d.deadReason in {InputFlood, LineTooLong}
    else d.deadReason == ControlByte
  }

  lemma KillsFor(s: Core, fd: int, why: Reason, piece: string)
    requires Listening(s, fd)
    requires if |piece| >= 512 then why in {InputFlood, LineTooLong} else why == ControlByte
    ensures KilledFor(s, Kill(s, fd, why), fd, piece)
  {
  }

  lemma BadFound(s: Core, fd: int, piece: string, rest: string)
    requires Listening(s, fd) && '\n' !in piece && !Good(piece)
    ensures
      var d := Drain(s, fd, piece + "\n" + rest);
      d.lines == [] && KilledFor(s, d.core, fd, piece)
  {
    hide ProcessLine, KilledFor, Extract;
    HeadFound(piece, rest);
    BadJudged(piece, rest);
    KillsFor(s, fd, if |piece| >= 512 then LineTooLong else ControlByte, piece);
  }

  lemma BadJudged(piece: string, rest: string)
    requires '\n' !in piece && !Good(piece)
    ensures Judge(piece, rest) == if |piece| >= 512 then TooLong(rest) else Control(rest)
  {
    if '\0' in piece { assert '\0' in Content(piece); }
  }

  /** One read of whole lines and more than the bad piece after them. */
  lemma ReceiveBad(s: Core, fd: int, buffer: string, chunk: string, lines: seq<string>, crlf: seq<bool>, piece: string, rest: string)
    requires Listening(s, fd) && |buffer| < RECV_CHUNK && |chunk| <= RECV_CHUNK && AllFit(lines, crlf)
    requires buffer + chunk == Written(lines, crlf) + (piece + "\n" + rest) && '\n' !in piece && !Good(piece)
    ensures
      var t := After(s, fd, lines);
      var d := Receive(s, fd, buffer, chunk);
      d.lines == Served(s, fd, lines) && if Listening(t, fd) then KilledFor(t, d.core, fd, piece) else d.core == t
  {
    hide ProcessLine, Drain, Fitting, KilledFor, Good;
    var after := piece + "\n" + rest;
    NewlineThere(Written(lines, crlf), piece, rest);
    DrainWritten(s, fd, lines, crlf, after);
    var t := After(s, fd, lines);
    if Listening(t, fd) {
      BadFound(t, fd, piece, rest);
      assert Served(s, fd, lines) + [] == Served(s, fd, lines);
    }
  }

  /** One read of 512 bytes or more without a newline. */
  lemma ReceiveFlood(s: Core, fd: int, buffer: string, chunk: string, piece: string)
    requires Listening(s, fd) && '\n' !in buffer + chunk && 512 <= |buffer + chunk| <= |piece|
    ensures
      var d := Receive(s, fd, buffer, chunk);
      d.lines == [] && KilledFor(s, d.core, fd, piece)
  {
    hide Drain, KilledFor;
    KillsFor(s, fd, InputFlood, piece);
  }

  /** A cut after the lines is in the bad piece, or behind it. */
  lemma CutInPiece(part: string, more: string, piece: string, rest: string) returns (left: string)
    requires part + more == piece + "\n" + rest && '\n' !in piece
    ensures '\n' !in part ==> |part| <= |piece|
    ensures '\n' in part ==> part == piece + "\n" + left
  {
    var all := piece + "\n" + rest;
    left := if |part| > |piece| then part[|piece| + 1..] else "";
    assert part == all[..|part|];
    if |part| > |piece| {
      assert all[|piece|] == '\n' && part[|piece|] == '\n';
      assert all[..|piece| + 1] == piece + "\n";
      assert part == all[..|piece| + 1] + left;
    } else {
      assert part == piece[..|part|];
    }
  }

  lemma NewlineThere(before: string, piece: string, rest: string)
    ensures '\n' in before + (piece + "\n" + rest)
  {
    assert (before + (piece + "\n" + rest))[|before| + |piece|] == '\n';
  }

  /** What is left after a read that took newlines is shorter than the read. */
  lemma PartOfChunk(buffer: string, chunk: string, lines: seq<string>, crlf: seq<bool>, part: string)
    requires AllFit(lines, crlf) && lines != [] && '\n' !in buffer && buffer + chunk == Written(lines, crlf) + part
    ensures |part| < |chunk|
  {
    hide Fitting;
    var n := |lines[0]| + |LineEnd(crlf[0])| - 1;
    assert (Written(lines, crlf) + part)[n] == '\n';
    NewlineLater(buffer, chunk, n);
  }

  /** Main result: after fitting lines, a bad piece and whatever follows hand over nothing more, and the client,
      if the lines have not stopped it, is killed for it, whatever the cuts. */
  lemma {:induction false} BadPieceKills(s: Core, fd: int, buffer: string, chunks: seq<string>, lines: seq<string>, crlf: seq<bool>,
                                         piece: string, rest: string)
    requires Listening(s, fd) && InboxOk(buffer) && Chunks(chunks) && AllFit(lines, crlf)
    requires '\n' !in piece && !Good(piece)
    requires buffer + Flatten(chunks) == Written(lines, crlf) + (piece + "\n" + rest)
    ensures
      var t := After(s, fd, lines);
      var d := FeedAll(s, fd, buffer, chunks);
      d.lines == Served(s, fd, lines) && if Listening(t, fd) then KilledFor(t, d.core, fd, piece) else d.core == t
    decreases |chunks|
  {
    hide ProcessLine, Receive, Fitting, Served, After, KilledFor, Good;
    var after := piece + "\n" + rest;
    if chunks == [] {
      assert buffer + Flatten(chunks) == buffer;
      NewlineThere(Written(lines, crlf), piece, rest);
    } else {
      var more := Flatten(chunks[1..]);
      var all := buffer + chunks[0];
      assert buffer + Flatten(chunks) == all + more;
      var k, part := CutFalls(all, more, lines, crlf, after);
      BadCut(s, fd, buffer, chunks[0], more, lines, crlf, k, part, piece, rest);
      SplitFits(lines, crlf, k);
      var d := Receive(s, fd, buffer, chunks[0]);
      if Listening(d.core, fd) {
        BadPieceKills(d.core, fd, part, chunks[1..], lines[k..], crlf[k..], piece, rest);
      } else {
        Deaf(d.core, fd, d.buffer, chunks[1..]);
      }
    }
  }

  /** What one read of the induction achieves: the client still waits and everything but the lines handed over
      is still to come, or the matter is decided. */
  ghost predicate Decided(s: Core, fd: int, d: Drained, lines: seq<string>, crlf: seq<bool>, k: nat, part: string, piece: string)
    requires fd in s.clients && |lines| == |crlf| && k <= |lines|
  {
    var t := After(s, fd, lines);
    if Listening(d.core, fd) then
      InboxOk(part) && d.buffer == part
      && t == After(d.core, fd, lines[k..]) && Served(s, fd, lines) == d.lines + Served(d.core, fd, lines[k..])
    else d.lines == Served(s, fd, lines) && if Listening(t, fd) then KilledFor(t, d.core, fd, piece) else d.core == t
  }

  /** The read ends before the newline of the bad piece, with less than 512 bytes since a line end or with some
      lines read. */
  lemma StillComing(s: Core, fd: int, buffer: string, chunk: string, lines: seq<string>, crlf: seq<bool>, k: nat, part: string, piece: string)
    requires Listening(s, fd) && InboxOk(buffer) && |chunk| <= RECV_CHUNK && AllFit(lines, crlf) && k <= |lines|
    requires buffer + chunk == Written(lines[..k], crlf[..k]) + part && '\n' !in part && (|part| < 512 || k > 0)
    ensures Decided(s, fd, Receive(s, fd, buffer, chunk), lines, crlf, k, part, piece)
  {
    hide ProcessLine, Receive, Fitting, Served, After, KilledFor;
    SplitFits(lines, crlf, k);
    ServedSplit(s, fd, lines[..k], lines[k..]);
    ReceiveWritten(s, fd, buffer, chunk, lines[..k], crlf[..k], part);
    if |part| >= 512 { PartOfChunk(buffer, chunk, lines[..k], crlf[..k], part); }
    assert Served(s, fd, lines[..k]) + [] == Served(s, fd, lines[..k]);
  }

  lemma BadCut(s: Core, fd: int, buffer: string, chunk: string, more: string, lines: seq<string>, crlf: seq<bool>,
               k: nat, part: string, piece: string, rest: string)
    requires Listening(s, fd) && InboxOk(buffer) && |chunk| <= RECV_CHUNK && AllFit(lines, crlf) && k <= |lines|
    requires '\n' !in piece && !Good(piece)
    requires buffer + chunk == Written(lines[..k], crlf[..k]) + part
    requires part + more == Written(lines[k..], crlf[k..]) + (piece + "\n" + rest)
    requires k < |lines| ==> '\n' !in part && |part| < 512
    ensures Decided(s, fd, Receive(s, fd, buffer, chunk), lines, crlf, k, part, piece)
  {
    hide ProcessLine, Receive, Fitting, Served, After, KilledFor, Good, Decided;
    if '\n' !in part && (|part| < 512 || k > 0) {
      StillComing(s, fd, buffer, chunk, lines, crlf, k, part, piece);
    } else {
      assert lines[..k] == lines && crlf[..k] == crlf;
      assert Written(lines[k..], crlf[k..]) + (piece + "\n" + rest) == piece + "\n" + rest;
      var left := CutInPiece(part, more, piece, rest);
      if '\n' in part {
        ReceiveBad(s, fd, buffer, chunk, lines, crlf, piece, left);
      } else {
        assert lines == [] && buffer + chunk == part;
        NoLines(s, fd);
        ReceiveFlood(s, fd, buffer, chunk, piece);
      }
      NowDecided(s, fd, Receive(s, fd, buffer, chunk), lines, crlf, k, part, piece);
    }
  }

  lemma NoLines(s: Core, fd: int)
    ensures After(s, fd, []) == s && Served(s, fd, []) == []
  {
  }

  lemma NowDecided(s: Core, fd: int, d: Drained, lines: seq<string>, crlf: seq<bool>, k: nat, part: string, piece: string)
    requires Listening(s, fd) && |lines| == |crlf| && k == |lines|
    requires var t := After(s, fd, lines);
      d.lines == Served(s, fd, lines) && if Listening(t, fd) then KilledFor(t, d.core, fd, piece) else d.core == t
    ensures Decided(s, fd, d, lines, crlf, k, part, piece)
  {
    hide ProcessLine;
  }

  // ------------------------------------------------------------ the next piece, exactly

  lemma Regroup(a: string, b: string, c: string, d: string)
    ensures a + (b + c + d) == a + b + c + d
  {
  }

  lemma WrittenCons(lines: seq<string>, crlf: seq<bool>, line: string, end: bool)
    requires |lines| == |crlf|
    ensures Written([line] + lines, [end] + crlf) == line + LineEnd(end) + Written(lines, crlf)
  {
    hide LineEnd;
    assert ([line] + lines)[1..] == lines && ([end] + crlf)[1..] == crlf;
  }

  lemma {:induction false} WrittenSnoc(lines: seq<string>, crlf: seq<bool>, line: string, end: bool)
    requires |lines| == |crlf|
    ensures Written(lines + [line], crlf + [end]) == Written(lines, crlf) + line + LineEnd(end)
    decreases |lines|
  {
    hide LineEnd;
    if lines == [] {
      assert lines + [line] == [line] + [] && crlf + [end] == [end] + [];
      WrittenCons([], [], line, end);
    } else {
      assert lines + [line] == [lines[0]] + (lines[1..] + [line]) && crlf + [end] == [crlf[0]] + (crlf[1..] + [end]);
      WrittenCons(lines[1..] + [line], crlf[1..] + [end], lines[0], crlf[0]);
      WrittenSnoc(lines[1..], crlf[1..], line, end);
      Regroup(lines[0] + LineEnd(crlf[0]), Written(lines[1..], crlf[1..]), line, LineEnd(end));
    }
  }

  predicate EndsInCr(piece: string) { piece != "" && piece[|piece| - 1] == '\r' }

  lemma GoodFits(piece: string)
    requires Good(piece) && '\n' !in piece
    ensures Fitting(Content(piece), EndsInCr(piece)) && Content(piece) + LineEnd(EndsInCr(piece)) == piece + "\n"
  {
  }

  /** Main result: the bytes up to the next newline are handed over as a line, without their one final CR, if and
      only if they are good; if they are not, the client is killed. */
  lemma NextPieceExact(s: Core, fd: int, buffer: string, chunks: seq<string>, lines: seq<string>, crlf: seq<bool>,
                       piece: string, tail: string)
    requires Listening(s, fd) && InboxOk(buffer) && Chunks(chunks) && AllFit(lines, crlf)
    requires '\n' !in piece && '\n' !in tail && |tail| < 512
    requires buffer + Flatten(chunks) == Written(lines, crlf) + (piece + "\n" + tail)
    requires Listening(After(s, fd, lines), fd)
    ensures
      var t := After(s, fd, lines);
      var d := FeedAll(s, fd, buffer, chunks);
      if Good(piece) then d.lines == lines + [Content(piece)] && d.core == ProcessLine(t, fd, Content(piece))
      else d.lines == lines && KilledFor(t, d.core, fd, piece)
  {
    hide ProcessLine, FeedAll, Served, After, KilledFor, Good, Content, EndsInCr;
    ServedFirst(s, fd, lines);
    if Good(piece) {
      var line, end := Content(piece), EndsInCr(piece);
      GoodFits(piece);
      WrittenSnoc(lines, crlf, line, end);
      FitsSnoc(lines, crlf, line, end);
      var written := Written(lines, crlf);
      assert written + (piece + "\n" + tail) == written + (piece + "\n") + tail;
      assert written + (line + LineEnd(end)) == written + line + LineEnd(end);
      LinesArrive(s, fd, buffer, chunks, lines + [line], crlf + [end], tail);
      ServedSplit(s, fd, lines, [line]);
      OneLine(After(s, fd, lines), fd, line);
    } else {
      BadPieceKills(s, fd, buffer, chunks, lines, crlf, piece, tail);
    }
  }

  lemma FitsSnoc(lines: seq<string>, crlf: seq<bool>, line: string, end: bool)
    requires AllFit(lines, crlf) && Fitting(line, end)
    ensures AllFit(lines + [line], crlf + [end])
  {
    hide Fitting;
  }

  lemma OneLine(s: Core, fd: int, line: string)
    requires Listening(s, fd)
    ensures After(s, fd, [line]) == ProcessLine(s, fd, line) && Served(s, fd, [line]) == [line]
  {
    hide ProcessLine;
    var none: seq<string> := [];
    assert [line][1..] == none;
  }

  // -------------------------------------------------------------- from bytes to effects

  lemma {:induction false} ServedDone(s: Core, fd: int, lines: seq<string>)
    requires Inv(s) && Listening(s, fd) && forall i :: 0 <= i < |lines| ==> Clean(lines[i])
    ensures AllDone(s, After(s, fd, lines), fd, Served(s, fd, lines))
    decreases |lines|
  {
    hide Inv, ProcessLine, LineDone, Clean, Authority, Aged, Bystanders;
    if lines != [] {
      var u := ProcessLine(s, fd, lines[0]);
      LineExact(s, fd, lines[0]);
      ProcessLineSound(s, fd, lines[0]);
      if Listening(u, fd) {
        ServedDone(u, fd, lines[1..]);
        DoneCons(s, u, After(u, fd, lines[1..]), fd, lines[0], Served(u, fd, lines[1..]));
      } else {
        DoneCons(s, u, u, fd, lines[0], []);
      }
    }
  }

  lemma DoneCons(s: Core, u: Core, t: Core, fd: int, line: string, more: seq<string>)
    requires fd in s.clients && LineDone(s, u, fd, Parsing.Parse(line)) && AllDone(u, t, fd, more)
    ensures AllDone(s, t, fd, [line] + more)
  {
    hide LineDone, Parsing.Parse;
    assert ([line] + more)[1..] == more;
  }

  lemma FittingClean(lines: seq<string>, crlf: seq<bool>)
    requires AllFit(lines, crlf)
    ensures forall i :: 0 <= i < |lines| ==> Clean(lines[i])
  {
    hide Clean;
    forall i | 0 <= i < |lines| ensures Clean(lines[i]) { assert Fitting(lines[i], crlf[i]); }
  }

  /** Main result, from bytes to effects: in a server in order, a served client's fitting lines, in any cut into
      reads, are handed over up to the first that stops it, and take the server from state to state by exactly
      what each of them says; what follows the last line end stays in its buffer. */
  lemma BytesDone(v: Server, fd: int, chunks: seq<string>, lines: seq<string>, crlf: seq<bool>, tail: string)
    requires ServerOk(v) && Listening(v.core, fd) && Chunks(chunks)
    requires AllFit(lines, crlf) && '\n' !in tail && |tail| < 512
    requires v.inbox[fd] + Flatten(chunks) == Written(lines, crlf) + tail
    ensures
      var w := Run(v, Reads(fd, chunks));
      var served := HandedOver(v, Reads(fd, chunks), fd);
      served <= lines && AllDone(v.core, w.core, fd, served) && fd in w.inbox
      && (Listening(w.core, fd) ==> served == lines && w.inbox[fd] == tail)
  {
    hide Inv, ProcessLine, FeedAll, Run, HandedOver, Served, After, AllDone, Fitting, Clean;
    ReadsAreFed(v, fd, chunks);
    LinesArrive(v.core, fd, v.inbox[fd], chunks, lines, crlf, tail);
    FittingClean(lines, crlf);
    ServedDone(v.core, fd, lines);
    ServedFirst(v.core, fd, lines);
  }
}
