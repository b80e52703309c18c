/** What a line does, by its command word: every line of every served client, in effects. */
module Lines {
  import opened Text
  import opened Replies
  import opened Clients
  import opened State
  import opened Invariant
  import opened EventLoop
  import opened FanOut
  import opened Effects
  import opened Arrivals
  import opened ModeEffects
  import Commands
  import Modes
  import Parsing

  const COMMAND_WORDS: set<string> := {"PASS", "NICK", "USER", "JOIN", "PRIVMSG", "KICK", "INVITE", "TOPIC", "MODE"}

  /** From `s` to `t` by message `m` of client `fd`. An empty message does nothing; CAP LS and PING have one
      answer; QUIT closes; another unknown word is an error. PASS is open to all, NICK and USER to those with
      an accepted password, the rest to registered clients. */
  ghost predicate LineDone(s: Core, t: Core, fd: int, m: Parsing.Message)
    requires fd in s.clients
  {
    var c, word, params := s.clients[fd], m.command, m.params;
    if word == "" then t == s
    else if word == "CAP" then if params != [] && Upper(params[0]) == "LS" then Told(s, t, fd, CapList) else t == s
    else if word == "PING" then Told(s, t, fd, Pong(if params == [] then "ft_irc" else params[0]))
    else if word == "QUIT" then
      t == SetClient(s, fd, c.(closing := true, deadReason := UserQuit(if params == [] then "Client Quit" else params[0])))
    else if word !in COMMAND_WORDS then Told(s, t, fd, Numeric(421, [Title(c), word]))
    else if word == "PASS" then PassDone(s, t, fd, params)
    else if !c.passOk then Told(s, t, fd, Numeric(451, ["*"]))
    else if word == "NICK" then NickDone(s, t, fd, params)
    else if word == "USER" then UserDone(s, t, fd, params)
    else if !c.Registered() then Told(s, t, fd, Numeric(451, [Title(c)]))
    else CommandDone(s, t, fd, word, params)
  }

  /** The commands of registered clients. */
  ghost predicate CommandDone(s: Core, t: Core, fd: int, word: string, params: seq<string>)
    requires fd in s.clients
  {
    match word
    case "JOIN" => JoinDone(s, t, fd, params)
    case "PRIVMSG" => PrivmsgDone(s, t, fd, params)
    case "KICK" => KickDone(s, t, fd, params)
    case "INVITE" => InviteDone(s, t, fd, params)
    case "TOPIC" => TopicDone(s, t, fd, params)
    case _ => ModeDone(s, t, fd, params)
  }

  /** The words answered without a command object. */
  lemma BuiltIns(s: Core, fd: int, m: Parsing.Message)
    requires fd in s.clients && s.clients[fd].Active() && m.command in {"", "CAP", "PING", "QUIT"}
    ensures LineDone(s, Dispatch(s, fd, m), fd, m)
  {
    hide Reached, Execute, Client.SendMessage, Upper;
    Tells(s, fd, CapList);
    Tells(s, fd, Pong(if m.params == [] then "ft_irc" else m.params[0]));
  }

  /** The words and the clients that are turned away. */
  lemma TurnedAway(s: Core, fd: int, m: Parsing.Message)
    requires fd in s.clients && m.command !in {"", "CAP", "PING", "QUIT"}
    requires m.command !in COMMAND_WORDS
             || (m.command != "PASS" && !s.clients[fd].passOk)
             || (m.command !in {"PASS", "NICK", "USER"} && !s.clients[fd].Registered())
    ensures LineDone(s, Dispatch(s, fd, m), fd, m)
  {
    hide Reached, Execute, Client.SendMessage, Upper;
    var c := s.clients[fd];
    Tells(s, fd, Numeric(421, [c.Shown(), m.command]));
    Tells(s, fd, Numeric(451, ["*"]));
    Tells(s, fd, Numeric(451, [c.Shown()]));
  }

  /** The others reach their command. */
  lemma Admits(s: Core, fd: int, m: Parsing.Message)
    requires fd in s.clients && m.command in COMMAND_WORDS
    requires m.command == "PASS" || s.clients[fd].passOk
    requires m.command in {"PASS", "NICK", "USER"} || s.clients[fd].Registered()
    ensures Dispatch(s, fd, m) == Execute(s, fd, m.command, m.params)
  {
    hide Execute;
  }

  lemma RegistrationExecuted(s: Core, fd: int, word: string, params: seq<string>)
    requires Inv(s) && Listening(s, fd)
    ensures word == "PASS" ==> PassDone(s, Execute(s, fd, word, params), fd, params)
    ensures word == "NICK" ==> NickDone(s, Execute(s, fd, word, params), fd, params)
    ensures word == "USER" ==> UserDone(s, Execute(s, fd, word, params), fd, params)
  {
    hide Inv, Commands.Pass, Commands.Nick, Commands.User, PassDone, NickDone, UserDone;
    PassEffect(s, fd, params);
    NickEffect(s, fd, params);
    UserEffect(s, fd, params);
  }

  lemma CommandExecuted(s: Core, fd: int, word: string, params: seq<string>)
    requires Inv(s) && fd in s.clients && s.clients[fd].Registered() && word in GUARDED
    requires forall i :: 0 <= i < |params| ==> Clean(params[i])
    ensures CommandDone(s, Execute(s, fd, word, params), fd, word, params)
  {
    hide Inv, Commands.Join, Commands.Privmsg, Commands.Kick, Commands.Invite, Commands.Topic, Modes.Mode,
         JoinDone, PrivmsgDone, KickDone, InviteDone, TopicDone, ModeDone, Clean;
    JoinEffect(s, fd, params);
    PrivmsgEffect(s, fd, params);
    KickEffect(s, fd, params);
    InviteEffect(s, fd, params);
    TopicEffect(s, fd, params);
    ModeIsDone(s, fd, params);
  }

  lemma MessageDone(s: Core, fd: int, m: Parsing.Message)
    requires Inv(s) && Listening(s, fd) && forall i :: 0 <= i < |m.params| ==> Clean(m.params[i])
    ensures LineDone(s, Dispatch(s, fd, m), fd, m)
  {
    hide Inv, Execute, Dispatch, PassDone, NickDone, UserDone, CommandDone, Reached, Upper, Clean;
    var c, word := s.clients[fd], m.command;
    if word in {"", "CAP", "PING", "QUIT"} {
      BuiltIns(s, fd, m);
    } else if word !in COMMAND_WORDS || (word != "PASS" && !c.passOk) || (word !in {"PASS", "NICK", "USER"} && !c.Registered()) {
      TurnedAway(s, fd, m);
    } else {
      Admits(s, fd, m);
      RegistrationExecuted(s, fd, word, m.params);
      if word !in {"PASS", "NICK", "USER"} { CommandExecuted(s, fd, word, m.params); }
    }
  }

  /** Main result: every clean line of every served client does exactly what its command word says. */
  lemma LineExact(s: Core, fd: int, line: string)
    requires Inv(s) && Listening(s, fd) && Clean(line)
    ensures LineDone(s, ProcessLine(s, fd, line), fd, Parsing.Parse(line))
  {
    hide Inv, Dispatch, LineDone, Clean, Parsing.Parse;
    Parsing.ParseClean(line);
    MessageDone(s, fd, Parsing.Parse(line));
  }

  /** A message as it is written on the wire: its line does what the message says. */
  lemma WrittenExact(s: Core, fd: int, m: Parsing.Message)
    requires Inv(s) && Listening(s, fd) && Parsing.WellFormed(m) && Clean(Parsing.Print(m))
    ensures LineDone(s, ProcessLine(s, fd, Parsing.Print(m)), fd, m)
  {
    hide Inv, ProcessLine, LineDone, Clean, Parsing.Parse, Parsing.Print, Parsing.WellFormed;
    LineExact(s, fd, Parsing.Print(m));
    Parsing.PrintParse(m);
  }

  // ---------------------------------------------------------------- several lines

  /** Lines of one client in turn: each does what it says to the state the ones before it left. */
  ghost predicate AllDone(s: Core, t: Core, fd: int, lines: seq<string>)
    decreases |lines|
  {
    if lines == [] then t == s
    else fd in s.clients && exists u :: LineDone(s, u, fd, Parsing.Parse(lines[0])) && AllDone(u, t, fd, lines[1..])
  }
}
