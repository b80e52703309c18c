/** Client.cpp as an object updated in place, proved against the values of module Clients. */
module ClientObject {
  import opened Text
  import opened Replies
  import opened Clients
  import Commands
  import Parsing
  import EventLoop

  /** isValidOutboundMessage: the byte loop. */
  method IsValidOutboundMessage(message: string) returns (ok: bool)
    ensures ok == ValidOutbound(message)
  {
    if message == "" || |message| > MAX_MESSAGE { return false; }
    if |message| < 2 || message[|message| - 2] != '\r' || message[|message| - 1] != '\n' { return false; }
    var i := 0;
    while i + 2 < |message|
      invariant 0 <= i <= |message| - 2
      invariant Clean(message[..i])
    {
      if message[i] == '\0' || message[i] == '\r' || message[i] == '\n' {
        assert message[..|message| - 2][i] in FORBIDDEN;
        return false;
      }
      assert message[..i + 1] == message[..i] + [message[i]];
      i := i + 1;
    }
    return true;
  }

  /** The control-byte loop of extractLine. */
  method HasControlByte(line: string) returns (found: bool)
    ensures found <==> '\0' in line || '\r' in line
  {
    var i := 0;
    while i < |line|
      invariant i <= |line|
      invariant '\0' !in line[..i] && '\r' !in line[..i]
    {
      if line[i] == '\0' || line[i] == '\r' { return true; }
      assert line[..i + 1] == line[..i] + [line[i]];
      i := i + 1;
    }
    assert line[..i] == line;
    return false;
  }

  /** isValidNickname: the character loop. */
  method IsValidNickname(nickname: string) returns (ok: bool)
    ensures ok == Commands.ValidNickname(nickname)
  {
    if nickname == "" || |nickname| > Commands.MAX_NICKNAME { return false; }
    if !Commands.NickStart(nickname[0]) { return false; }
    var index := 1;
    while index < |nickname|
      invariant 1 <= index <= |nickname|
      invariant forall i :: 1 <= i < index ==> Commands.NickPart(nickname[i])
    {
      if !Commands.NickPart(nickname[index]) { return false; }
      index := index + 1;
    }
    return true;
  }

  /** isValidUsername: the character loop. */
  method IsValidUsername(username: string) returns (ok: bool)
    ensures ok == Commands.ValidUsername(username)
  {
    if username == "" || |username| > Commands.MAX_USERNAME { return false; }
    var i := 0;
    while i < |username|
      invariant i <= |username|
      invariant forall k :: 0 <= k < i ==> username[k] !in Commands.USERNAME_STOPS
    {
      if username[i] in Commands.USERNAME_STOPS { return false; }
      i := i + 1;
    }
    return true;
  }

  /** isValidChannelName: the character loop. */
  method IsValidChannelName(name: string) returns (ok: bool)
    ensures ok == Commands.ValidChannelName(name)
  {
    if name == "" || |name| > Commands.MAX_CHANNEL_NAME { return false; }
    if name[0] != '#' && name[0] != '&' { return false; }
    var i := 0;
    while i < |name|
      invariant i <= |name|
      invariant forall k :: 0 <= k < i ==> name[k] !in Commands.NAME_STOPS
    {
      if name[i] in Commands.NAME_STOPS { return false; }
      i := i + 1;
    }
    return true;
  }

  /** The ghost fields are the history of module Clients. */
  class Connection {
    const fd: int
    const ip: string
    var recvBuffer: string
    var sendBuffer: string
    var nickname: string
    var username: string
    var passOk: bool
    var nickSet: bool
    var userSet: bool
    var failedPass: nat
    var dead: bool
    var closing: bool
    var deadReason: Reason
    ghost var issued: seq<Reply>
    ghost var accepted: seq<string>
    ghost var sent: string

    ghost function Value(): Client
      reads this
    {
      Client(ip, sendBuffer, nickname, username, passOk, nickSet, userSet, failedPass, dead, closing, deadReason,
             issued, accepted, sent)
    }

    constructor (fd: int, ip: string)
      ensures this.fd == fd && Value() == NewClient(ip) && recvBuffer == ""
    {
      this.fd, this.ip := fd, ip;
      recvBuffer, sendBuffer, nickname, username := "", "", "", "";
      passOk, nickSet, userSet, failedPass := false, false, false, 0;
      dead, closing, deadReason := false, false, Alive;
      issued, accepted, sent := [], [], "";
    }

    /** One reply whose bytes are `message`. */
    method SendMessage(message: string, ghost r: Reply)
      modifies this
      ensures Value() == old(Value()).Queue(message).(issued := old(issued) + [r])
      ensures recvBuffer == old(recvBuffer)
    {
      issued := issued + [r];
      if dead || closing { return; }
      var valid := IsValidOutboundMessage(message);
      if !valid { return; }
      if |sendBuffer| > MAX_SEND_BUFFER || |message| > MAX_SEND_BUFFER - |sendBuffer| {
        MarkDead(QueueOverflow);
        return;
      }
      sendBuffer := sendBuffer + message;
      accepted := accepted + [message];
    }

    method AppendToRecvBuffer(data: string) returns (ok: bool)
      modifies this`recvBuffer
      ensures (recvBuffer, ok) == EventLoop.Append(old(recvBuffer), data)
    {
      if |recvBuffer| > MAX_RECV_BUFFER || |data| > MAX_RECV_BUFFER - |recvBuffer| { return false; }
      recvBuffer := recvBuffer + data;
      if IndexOf(recvBuffer, '\n') == |recvBuffer| && |recvBuffer| >= MAX_MESSAGE { return false; }
      return true;
    }

    /** The buffer loses exactly the bytes of the line; a bad line kills the client instead. */
    method ExtractLine() returns (ok: bool, line: string)
      modifies this
      ensures
        match EventLoop.Extract(old(recvBuffer))
        case NoLine => !ok && recvBuffer == old(recvBuffer) && Value() == old(Value())
        case TooLong(rest) => !ok && recvBuffer == rest && Value() == old(Value()).MarkDead(LineTooLong)
        case Control(rest) => !ok && recvBuffer == rest && Value() == old(Value()).MarkDead(Reason.ControlByte)
        case Line(text, rest) => ok && line == text && recvBuffer == rest && Value() == old(Value())
    {
      line := "";
      var newline := IndexOf(recvBuffer, '\n');
      if newline == |recvBuffer| { return false, line; }
      var wireSize := newline + 1;
      if wireSize > MAX_MESSAGE {
        recvBuffer := recvBuffer[wireSize..];
        MarkDead(LineTooLong);
        return false, line;
      }
      line := recvBuffer[..newline];
      recvBuffer := recvBuffer[wireSize..];
      line := Parsing.StripCr(line);
      var bad := HasControlByte(line);
      if bad {
        MarkDead(Reason.ControlByte);
        return false, "";
      }
      return true, line;
    }

    method ConsumeSendBuffer(bytesSent: nat)
      modifies this
      ensures Value() == old(Value()).ConsumeSendBuffer(bytesSent) && recvBuffer == old(recvBuffer)
      ensures bytesSent <= |old(sendBuffer)| ==>
        old(sendBuffer) == old(sendBuffer)[..bytesSent] + sendBuffer && sent == old(sent) + old(sendBuffer)[..bytesSent]
    {
      if bytesSent > |sendBuffer| {
        MarkDead(BadAccounting);
        return;
      }
      sent := sent + sendBuffer[..bytesSent];
      sendBuffer := if bytesSent == |sendBuffer| then "" else sendBuffer[bytesSent..];
    }

    method MarkDead(why: Reason)
      modifies this`dead, this`deadReason
      ensures Value() == old(Value()).MarkDead(why)
    {
      if dead { return; }
      dead := true;
      if deadReason == Alive { deadReason := why; }
    }

    method MarkClosing(why: Reason)
      modifies this`closing, this`deadReason
      ensures Value() == old(Value()).MarkClosing(why)
    {
      if dead || closing { return; }
      closing := true;
      deadReason := why;
    }

    method RecordFailedPassAttempt()
      modifies this`failedPass
      ensures Value() == old(Value()).RecordFailedPass()
    {
      if failedPass < UINT_MAX { failedPass := failedPass + 1; }
    }
  }
}
