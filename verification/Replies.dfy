/** Everything the server says, and its exact bytes on the wire. */
module Replies {
  import opened Text

  /** Why a connection ends; `Alive` is the empty reason. */
  datatype Reason =
    | Alive
    | QueueOverflow
    | InputFlood
    | LineTooLong
    | ControlByte
    | SocketFailed
    | RecvFailed(error: string)
    | SendFailed(error: string)
    | SentNothing
    | BadAccounting
    | PeerClosed
    | TooManyPasses
    | UserQuit(text: string)

  function ReasonText(why: Reason): string {
    match why
    case Alive => "Client Quit"
    case QueueOverflow => "send buffer overflow (slow or stuck client)"
    case InputFlood => "input flood: recv buffer overflow"
    case LineTooLong => "IRC message exceeds 512-byte limit"
    case ControlByte => "forbidden control byte in IRC message"
    case SocketFailed => "socket error (POLLERR/POLLHUP)"
    case RecvFailed(error) => "recv() failed: " + error
    case SendFailed(error) => "send() failed: " + error
    case SentNothing => "send() returned zero bytes"
    case BadAccounting => "invalid send-buffer accounting"
    case PeerClosed => "client closed the connection"
    case TooManyPasses => "too many invalid PASS attempts"
    case UserQuit(text) => "Quit: " + text
  }

  datatype Reply =
    | Welcome(nick: string, user: string)
    | Numeric(code: nat, args: seq<string>)
    | BadKey(nick: string, target: string, key: string)
    | BadLimit(nick: string, target: string, limit: string)
    | TopicIs(nick: string, channel: string, topic: string)
    | NamesAre(nick: string, channel: string, names: string)
    | Inviting(nick: string, target: string, channel: string)
    | ModesAre(nick: string, target: string, modes: string, margs: seq<string>)
    | CapList
    | Pong(token: string)
    | FreshModes(channel: string)
    | NickChanged(nick: string, user: string, newNick: string)
    | Quit(nick: string, user: string, why: Reason)
    | Joined(nick: string, user: string, channel: string)
    | Parted(nick: string, user: string, channel: string)
    | Kicked(nick: string, user: string, channel: string, target: string, reason: string)
    | Invited(nick: string, user: string, target: string, channel: string)
    | TopicSet(nick: string, user: string, channel: string, topic: string)
    | Said(nick: string, user: string, target: string, text: string)
    | ModeSet(nick: string, user: string, target: string, modes: string, margs: seq<string>)

  const CRLF: string := "\r\n"

  function Source(nick: string, user: string): string {
    ":" + nick + "!" + user + "@localhost"
  }

  /** The JOIN announcement without its line end. */
  function JoinLine(nick: string, user: string, channel: string): string {
    Source(nick, user) + " JOIN :" + channel
  }

  /** The words after a numeric's arguments. */
  function Explanation(code: nat): string {
    match code
    case 331 => "No topic is set"
    case 366 => "End of /NAMES list"
    case 401 => "No such nick/channel"
    case 403 => "No such channel"
    case 404 => "Cannot send to channel"
    case 411 => "No recipient given (PRIVMSG)"
    case 412 => "No text to send"
    case 421 => "Unknown command"
    case 431 => "No nickname given"
    case 432 => "Erroneous nickname"
    case 433 => "Nickname is already in use"
    case 441 => "They aren't on that channel"
    case 442 => "You're not on that channel"
    case 443 => "is already on channel"
    case 451 => "You have not registered"
    case 461 => "Not enough parameters"
    case 462 => "You may not reregister"
    case 464 => "Password incorrect"
    case 467 => "Channel key already set"
    case 468 => "Invalid username"
    case 471 => "Cannot join channel (+l) - channel is full"
    case 472 => "is not a recognised channel mode."
    case 473 => "Cannot join channel (+i) - you must be invited"
    case 475 => "Cannot join channel (+k) - bad key"
    case 482 => "You're not channel operator"
    case _ => ""
  }

  function NumericText(code: nat): string {
    if Explanation(code) == "" then "" else " :" + Explanation(code)
  }

  function Body(r: Reply): string {
    match r
    case Welcome(n, u) => ":server 001 " + n + " :Welcome to the ft_irc Network, " + n + "!" + u + "@localhost"
    case Numeric(code, args) => ":server " + Digits(code) + Spaced(args) + NumericText(code)
    case BadKey(n, t, k) => ":server 696" + Spaced([n, t, "k", k]) + " :Invalid channel key (cannot contain spaces)"
    case BadLimit(n, t, l) => ":server 696" + Spaced([n, t, "l", l]) + " :Invalid limit mode parameter. Syntax: <limit>."
    case TopicIs(n, c, t) => ":server 332" + Spaced([n, c]) + " :" + t
    case NamesAre(n, c, names) => ":server 353" + Spaced([n, "=", c]) + " :" + names
    case Inviting(n, t, c) => ":server 341" + Spaced([n, t, c])
    case ModesAre(n, t, modes, margs) => ":server 324" + Spaced([n, t, modes] + margs)
    case CapList => ":server CAP * LS :"
    case Pong(token) => ":server PONG server :" + token
    case FreshModes(c) => ":server MODE " + c + " +t"
    case NickChanged(n, u, nn) => Source(n, u) + " NICK :" + nn
    case Quit(n, u, why) => Source(n, u) + " QUIT :" + ReasonText(why)
    case Joined(n, u, c) => JoinLine(n, u, c)
    case Parted(n, u, c) => Source(n, u) + " PART " + c + " :Left all channels"
    case Kicked(n, u, c, t, reason) => Source(n, u) + " KICK " + c + " " + t + " :" + reason
    case Invited(n, u, t, c) => Source(n, u) + " INVITE " + t + " :" + c
    case TopicSet(n, u, c, t) => Source(n, u) + " TOPIC " + c + " :" + t
    case Said(n, u, t, text) => Source(n, u) + " PRIVMSG " + t + " :" + text
    case ModeSet(n, u, t, modes, margs) => Source(n, "~" + u) + " MODE" + Spaced([t, modes] + margs)
  }

  /** How replies become bytes. The server's own encoding is `Wire`; what is proved of the server's
      state holds for every encoding. */
  type Encoding = Reply -> string

  /** The bytes handed to sendMessage. */
  function Wire(r: Reply): string { Body(r) + CRLF }
}
