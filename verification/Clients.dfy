/** One connection (Client.cpp): identity, registration flags, output queue, life cycle. */
module Clients {
  import opened Text
  import opened Replies

  const MAX_SEND_BUFFER := 65536
  const MAX_RECV_BUFFER := 8192
  const MAX_MESSAGE := 512
  const MAX_FAILED_PASS := 3
  const UINT_MAX := 0xffff_ffff

  const FORBIDDEN: set<char> := {'\0', '\r', '\n'}

  /** No NUL, CR or LF. */
  predicate Clean(s: string) { Free(s, FORBIDDEN) }

  predicate EndsWithCrlf(m: string) {
    |m| >= 2 && m[|m| - 2] == '\r' && m[|m| - 1] == '\n'
  }

  /** One complete message of section 2.3 of RFC 2812: at most 512 octets, CRLF at its end only. */
  predicate ValidOutbound(m: string) {
    |m| <= MAX_MESSAGE && EndsWithCrlf(m) && Clean(m[..|m| - 2])
  }

  /** The last three fields are history: every reply passed to sendMessage, the messages it
      queued, and the bytes the socket has taken. No decision reads them. */
  datatype Client = Client(
    ip: string,
    sendBuffer: string,
    nickname: string,
    username: string,
    passOk: bool,
    nickSet: bool,
    userSet: bool,
    failedPass: nat,
    dead: bool,
    closing: bool,
    deadReason: Reason,
    issued: seq<Reply>,
    accepted: seq<string>,
    sent: string)
  {
    predicate Registered() { passOk && nickSet && userSet }

    /** Neither dead nor closing: the only clients whose input is read and whose queue grows. */
    predicate Active() { !dead && !closing }

    function Shown(): string { if nickname == "" then "*" else nickname }

    function MarkDead(why: Reason): Client {
      if dead then this
      else this.(dead := true, deadReason := if deadReason == Alive then why else deadReason)
    }

    function MarkClosing(why: Reason): Client {
      if dead || closing then this else this.(closing := true, deadReason := why)
    }

    /** The effect of sendMessage on the queue, for any bytes. */
    function Queue(m: string): Client {
      if !Active() || !ValidOutbound(m) then this
      else if |m| > MAX_SEND_BUFFER - |sendBuffer| then
        MarkDead(QueueOverflow)
      else this.(sendBuffer := sendBuffer + m, accepted := accepted + [m])
    }

    /** sendMessage of a reply whose bytes are `wire(r)`. */
    function SendMessage(r: Reply, wire: Encoding): Client { Queue(wire(r)).(issued := issued + [r]) }

    function SendAll(rs: seq<Reply>, wire: Encoding): Client
      decreases |rs|
    {
      if rs == [] then this else SendMessage(rs[0], wire).SendAll(rs[1..], wire)
    }

    function ConsumeSendBuffer(n: nat): Client {
      if n > |sendBuffer| then MarkDead(BadAccounting)
      else this.(sendBuffer := sendBuffer[n..], sent := sent + sendBuffer[..n])
    }

    function RecordFailedPass(): Client {
      this.(failedPass := if failedPass < UINT_MAX then failedPass + 1 else failedPass)
    }

    /** Conservation of output: what the socket took and what is queued is exactly what was
        accepted, message by message, within the queue bound. */
    ghost predicate OutputOk() {
      && sent + sendBuffer == Flatten(accepted)
      && |sendBuffer| <= MAX_SEND_BUFFER
      && forall m :: m in accepted ==> ValidOutbound(m)
    }
  }

  function NewClient(ip: string): Client {
    Client(ip, "", "", "", false, false, false, 0, false, false, Alive, [], [], "")
  }

  /** `d` is `c` after some calls of sendMessage, none of them a welcome. */
  ghost predicate Heard(c: Client, d: Client) {
    && d == c.(sendBuffer := d.sendBuffer, accepted := d.accepted, issued := d.issued,
               dead := d.dead, deadReason := d.deadReason)
    && (c.dead ==> d.dead)
    && (!c.Active() ==> d.sendBuffer == c.sendBuffer)
    && (c.OutputOk() ==> d.OutputOk())
    && Welcomes(d.issued) == Welcomes(c.issued)
  }

  function Welcomes(rs: seq<Reply>): nat {
    if rs == [] then 0
    else Welcomes(rs[..|rs| - 1]) + if rs[|rs| - 1].Welcome? then 1 else 0
  }

  lemma WelcomesSnoc(rs: seq<Reply>, r: Reply)
    ensures Welcomes(rs + [r]) == Welcomes(rs) + if r.Welcome? then 1 else 0
  {
    assert (rs + [r])[..|rs|] == rs;
  }

  /** sendMessage conserves output whatever bytes it is given. */
  lemma QueueKeepsOutput(c: Client, m: string)
    requires c.OutputOk()
    ensures c.Queue(m).OutputOk()
  {
    FlattenAppend(c.accepted, [m]);
    assert Flatten([m]) == m;
    assert c.sent + (c.sendBuffer + m) == (c.sent + c.sendBuffer) + m;
  }

  lemma QueueFrame(c: Client, m: string)
    ensures
      var d := c.Queue(m);
      d == c.(sendBuffer := d.sendBuffer, accepted := d.accepted, dead := d.dead, deadReason := d.deadReason)
      && (c.dead ==> d.dead) && (!c.Active() ==> d.sendBuffer == c.sendBuffer)
  {
  }

  lemma SendHeard(c: Client, r: Reply, wire: Encoding)
    requires !r.Welcome?
    ensures Heard(c, c.SendMessage(r, wire))
  {
    WelcomesSnoc(c.issued, r);
    QueueFrame(c, wire(r));
    assert c.OutputOk() ==> c.SendMessage(r, wire).OutputOk() by {
      if c.OutputOk() { QueueKeepsOutput(c, wire(r)); }
    }
  }

  /** What sendMessage leaves alone. */
  lemma SendKeeps(c: Client, r: Reply, wire: Encoding)
    ensures
      var d := c.SendMessage(r, wire);
      d == c.(sendBuffer := d.sendBuffer, accepted := d.accepted, issued := c.issued + [r], dead := d.dead, deadReason := d.deadReason)
      && (c.dead ==> d.dead)
  {
  }

  lemma HeardTransitive(c: Client, d: Client, e: Client)
    requires Heard(c, d) && Heard(d, e)
    ensures Heard(c, e)
  {
  }

  /** Any partial write the socket can make conserves output, and moves exactly its bytes. */
  lemma ConsumeKeepsOutput(c: Client, n: nat)
    requires c.OutputOk()
    ensures c.ConsumeSendBuffer(n).OutputOk()
    ensures n <= |c.sendBuffer| ==> |c.ConsumeSendBuffer(n).sent| == |c.sent| + n && |c.ConsumeSendBuffer(n).sendBuffer| == |c.sendBuffer| - n
  {
    if n <= |c.sendBuffer| {
      assert (c.sent + c.sendBuffer[..n]) + c.sendBuffer[n..] == c.sent + c.sendBuffer;
    }
  }

  lemma {:induction false} SendAllSnoc(c: Client, rs: seq<Reply>, r: Reply, wire: Encoding)
    ensures c.SendAll(rs + [r], wire) == c.SendAll(rs, wire).SendMessage(r, wire)
    decreases |rs|
  {
    if rs != [] {
      assert (rs + [r])[1..] == rs[1..] + [r];
      SendAllSnoc(c.SendMessage(rs[0], wire), rs[1..], r, wire);
    } else {
      assert (rs + [r])[1..] == [];
    }
  }

  /** A dead client is deaf: only the history grows. */
  lemma {:induction false} SendAllDead(c: Client, rs: seq<Reply>, wire: Encoding)
    requires c.dead
    ensures c.SendAll(rs, wire) == c.(issued := c.issued + rs)
    decreases |rs|
  {
    if rs != [] {
      SendAllDead(c.SendMessage(rs[0], wire), rs[1..], wire);
      assert c.issued + rs == c.issued + [rs[0]] + rs[1..];
    } else {
      assert c.issued + rs == c.issued;
    }
  }
}
