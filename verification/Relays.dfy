/** What the server's lines say: the receiver's parse of each message that is passed on. */
module Relays {
  import opened Text
  import opened Replies
  import opened Clients
  import opened Commands
  import opened Parsing

  function Who(nick: string, user: string): string { nick + "!" + user + "@localhost" }

  /** Messages passed on from one client to others. */
  predicate Relayed(r: Reply) {
    r.Said? || r.Kicked? || r.TopicSet? || r.Invited? || r.NickChanged? || r.Quit? || r.Joined? || r.Parted?
  }

  /** What each is meant to say. */
  function Meaning(r: Reply): (m: Message)
    requires Relayed(r)
    ensures m.params != []
  {
    match r
    case Said(n, u, target, text) => Message(Who(n, u), "PRIVMSG", [target, text])
    case Kicked(n, u, c, target, reason) => Message(Who(n, u), "KICK", [c, target, reason])
    case TopicSet(n, u, c, topic) => Message(Who(n, u), "TOPIC", [c, topic])
    case Invited(n, u, target, c) => Message(Who(n, u), "INVITE", [target, c])
    case NickChanged(n, u, nick) => Message(Who(n, u), "NICK", [nick])
    case Quit(n, u, why) => Message(Who(n, u), "QUIT", [ReasonText(why)])
    case Joined(n, u, c) => Message(Who(n, u), "JOIN", [c])
    case Parted(n, u, c) => Message(Who(n, u), "PART", [c, "Left all channels"])
  }

  lemma PrintOne(prefix: string, command: string, last: string)
    requires prefix != ""
    ensures Print(Message(prefix, command, [last])) == ":" + prefix + (" " + command + " :") + last
  {
    var m := Message(prefix, command, [last]);
    assert m.params[..0] == [];
    assert HeadWords(m) == [":" + prefix, command];
    SpacedOne(command);
    assert HeadWords(m)[1..] == [command];
    Glue(":" + prefix, " " + command, " :", last);
  }

  lemma PrintTwo(prefix: string, command: string, a: string, last: string)
    requires prefix != ""
    ensures Print(Message(prefix, command, [a, last])) == ":" + prefix + (" " + command + " ") + a + " :" + last
  {
    var m := Message(prefix, command, [a, last]);
    assert m.params[..1] == [a];
    assert HeadWords(m) == [":" + prefix, command, a];
    assert HeadWords(m)[1..] == [command, a];
    SpacedTwo(command, a);
    assert ":" + prefix + (" " + command + " " + a) == ":" + prefix + (" " + command + " ") + a;
  }

  lemma PrintThree(prefix: string, command: string, a: string, b: string, last: string)
    requires prefix != ""
    ensures Print(Message(prefix, command, [a, b, last])) == ":" + prefix + (" " + command + " ") + a + " " + b + " :" + last
  {
    var m := Message(prefix, command, [a, b, last]);
    assert m.params[..2] == [a, b];
    assert HeadWords(m) == [":" + prefix, command, a, b];
    assert HeadWords(m)[1..] == [command, a, b];
    SpacedThree(command, a, b);
    assert ":" + prefix + (" " + command + " " + a + " " + b) == ":" + prefix + (" " + command + " ") + a + " " + b;
  }

  lemma SpacedOne(a: string)
    ensures Spaced([a]) == " " + a
  {
    assert [a][1..] == [];
  }

  lemma SpacedTwo(a: string, b: string)
    ensures Spaced([a, b]) == " " + a + " " + b
  {
    assert [a, b][1..] == [b];
    SpacedOne(b);
  }

  lemma SpacedThree(a: string, b: string, c: string)
    ensures Spaced([a, b, c]) == " " + a + " " + b + " " + c
  {
    assert [a, b, c][1..] == [b, c];
    SpacedTwo(b, c);
    assert " " + a + (" " + b + " " + c) == " " + a + " " + b + " " + c;
  }

  lemma Glue(a: string, b: string, c: string, d: string)
    ensures a + b + c + d == a + (b + c) + d
  {
  }

  lemma SourceIs(nick: string, user: string)
    ensures Source(nick, user) == ":" + Who(nick, user) && Who(nick, user) != ""
  {
    assert ":" + (nick + "!" + user + "@localhost") == ":" + nick + "!" + user + "@localhost";
  }

  // The command words between their spaces.

  lemma Spaces()
    ensures " " + "PRIVMSG" + " " == " PRIVMSG " && " " + "KICK" + " " == " KICK "
    ensures " " + "TOPIC" + " " == " TOPIC " && " " + "INVITE" + " " == " INVITE " && " " + "PART" + " " == " PART "
    ensures " " + "NICK" + " :" == " NICK :" && " " + "QUIT" + " :" == " QUIT :" && " " + "JOIN" + " :" == " JOIN :"
  {
  }

  lemma PartSpelled(head: string)
    ensures head + " :Left all channels" == head + " :" + "Left all channels"
  {
  }

  /** The line is the printed message. */
  lemma Spelled(r: Reply)
    requires Relayed(r)
    ensures Body(r) == Print(Meaning(r))
  {
    hide Print, Source, Who;
    SourceIs(r.nick, r.user);
    Spaces();
    match r
    case Said(n, u, target, text) => PrintTwo(Who(n, u), "PRIVMSG", target, text);
    case Kicked(n, u, c, target, reason) => PrintThree(Who(n, u), "KICK", c, target, reason);
    case TopicSet(n, u, c, topic) => PrintTwo(Who(n, u), "TOPIC", c, topic);
    case Invited(n, u, target, c) => PrintTwo(Who(n, u), "INVITE", target, c);
    case NickChanged(n, u, nick) => PrintOne(Who(n, u), "NICK", nick);
    case Quit(n, u, why) => PrintOne(Who(n, u), "QUIT", ReasonText(why));
    case Joined(n, u, c) => PrintOne(Who(n, u), "JOIN", c);
    case Parted(n, u, c) =>
      PrintTwo(Who(n, u), "PART", c, "Left all channels");
      PartSpelled(Source(n, u) + " PART " + c);
  }

  predicate Wordlike(w: string) { w != "" && forall i :: 0 <= i < |w| ==> 'A' <= w[i] <= 'Z' || '0' <= w[i] <= '9' }

  lemma WordlikeSolid(w: string)
    requires Wordlike(w)
    ensures Middle(w) && Upper(w) == w
  {
    assert forall i :: 0 <= i < |w| ==> Upper(w)[i] == w[i];
  }

  lemma CommandWord(r: Reply)
    requires Relayed(r)
    ensures Wordlike(Meaning(r).command)
  {
    hide Who, ReasonText;
  }

  lemma SenderSolid(r: Reply)
    requires Relayed(r) && ValidNickname(r.nick) && Free(r.user, BLANKS)
    ensures Free(Meaning(r).prefix, BLANKS) && Meaning(r).params != []
  {
    hide Who, ReasonText, ValidNickname;
    WhoSolid(r.nick, r.user);
  }

  lemma WhoSolid(nick: string, user: string)
    requires ValidNickname(nick) && Free(user, BLANKS)
    ensures Free(Who(nick, user), BLANKS)
  {
  }

  lemma CleanEnd(w: string)
    requires Clean(w)
    ensures StripCr(w) == w
  {
  }

  /** All parameters but the last can stand between spaces. */
  predicate Separable(m: Message) {
    forall i :: 0 <= i < |m.params| - 1 ==> Middle(m.params[i])
  }

  lemma SolidWellFormed(m: Message)
    requires Middle(m.command) && Upper(m.command) == m.command && Free(m.prefix, BLANKS) && m.params != []
    requires StripCr(m.params[|m.params| - 1]) == m.params[|m.params| - 1]
    ensures WellFormed(m) <==> Separable(m)
  {
    hide Middle, StripCr;
  }

  /** Main result: a message passed on from a client with an identity parses at the receiver to exactly what it
      is meant to say, sender, command, target and text, if and only if its target can stand between spaces. */
  lemma RelayUnderstood(r: Reply)
    requires Relayed(r) && ValidNickname(r.nick) && Free(r.user, BLANKS)
    requires Clean(Meaning(r).params[|Meaning(r).params| - 1])
    ensures Parse(Body(r)) == Meaning(r) <==> Separable(Meaning(r))
  {
    hide Parse, Print, Body, Meaning, ValidNickname, Clean, StripCr, WellFormed, Separable, Middle;
    var m := Meaning(r);
    SenderSolid(r);
    Spelled(r);
    CommandWord(r);
    WordlikeSolid(m.command);
    CleanEnd(m.params[|m.params| - 1]);
    SolidWellFormed(m);
    PrintParseExact(m);
  }

  // ----------------------------------------------------------------- numerics

  lemma PrintMany(prefix: string, command: string, args: seq<string>, last: string)
    requires prefix != ""
    ensures Print(Message(prefix, command, args + [last])) == ":" + prefix + (" " + command) + Spaced(args) + " :" + last
  {
    var m := Message(prefix, command, args + [last]);
    assert m.params[..|args|] == args && m.params[|args|] == last;
    assert HeadWords(m) == [":" + prefix] + ([command] + args);
    assert HeadWords(m)[1..] == [command] + args;
    assert ([command] + args)[1..] == args;
    Tack(":" + prefix, " " + command, Spaced(args), " :" + last);
  }

  lemma Tack(a: string, b: string, c: string, d: string)
    ensures a + (b + c) + d == a + b + c + d
  {
  }

  lemma LowerEnds(code: nat)
    requires code <= 431 && Explanation(code) != ""
    ensures Explanation(code)[|Explanation(code)| - 1] != '\r'
  {
  }

  lemma MiddleEnds(code: nat)
    requires 431 < code <= 461 && Explanation(code) != ""
    ensures Explanation(code)[|Explanation(code)| - 1] != '\r'
  {
  }

  lemma UpperEnds(code: nat)
    requires 461 < code && Explanation(code) != ""
    ensures Explanation(code)[|Explanation(code)| - 1] != '\r'
  {
  }

  lemma Explained(code: nat)
    requires Explanation(code) != ""
    ensures StripCr(Explanation(code)) == Explanation(code)
  {
    hide Explanation;
    if code <= 431 { LowerEnds(code); } else if code <= 461 { MiddleEnds(code); } else { UpperEnds(code); }
  }

  /** A numeric with an explanation is the printed message. */
  lemma NumericSpelled(code: nat, args: seq<string>)
    requires Explanation(code) != ""
    ensures Body(Numeric(code, args)) == Print(Message("server", Digits(code), args + [Explanation(code)]))
  {
    hide Print, Digits, Explanation, Spaced;
    PrintMany("server", Digits(code), args, Explanation(code));
    assert ":server " == ":" + "server" + " ";
    Numbered(":" + "server", Digits(code), Spaced(args), Explanation(code));
  }

  lemma Numbered(a: string, b: string, c: string, d: string)
    ensures a + " " + b + c + (" :" + d) == a + (" " + b) + c + " :" + d
  {
  }

  lemma DigitsSolid(code: nat)
    ensures Middle(Digits(code)) && Upper(Digits(code)) == Digits(code)
  {
    hide Digits;
    var w := Digits(code);
    assert forall i :: 0 <= i < |w| ==> IsDigit(w[i]);
    assert forall i :: 0 <= i < |w| ==> Upper(w)[i] == w[i];
  }

  /** Main result: a numeric with an explanation parses at the receiver to its number, its arguments and the
      explanation if and only if every argument can stand between spaces. */
  lemma NumericUnderstood(code: nat, args: seq<string>)
    requires Explanation(code) != ""
    ensures
      Parse(Body(Numeric(code, args))) == Message("server", Digits(code), args + [Explanation(code)]) <==>
        forall i :: 0 <= i < |args| ==> Middle(args[i])
  {
    hide Parse, Print, Body, Digits, Explanation, StripCr, WellFormed, Middle;
    var m := Message("server", Digits(code), args + [Explanation(code)]);
    Explained(code);
    NumericSpelled(code, args);
    DigitsSolid(code);
    SolidWellFormed(m);
    PrintParseExact(m);
    assert forall i :: 0 <= i < |args| ==> m.params[i] == args[i];
  }

  // ------------------------------------------------------------------- answers

  /** Answers whose last part is free text. */
  predicate Answered(r: Reply) { r.Welcome? || r.TopicIs? || r.NamesAre? || r.Pong? }

  function Answer(r: Reply): (m: Message)
    requires Answered(r)
    ensures m.params != [] && m.prefix == "server"
  {
    match r
    case Welcome(n, u) => Message("server", "001", [n, "Welcome to the ft_irc Network, " + Who(n, u)])
    case TopicIs(n, c, topic) => Message("server", "332", [n, c, topic])
    case NamesAre(n, c, names) => Message("server", "353", [n, "=", c, names])
    case Pong(token) => Message("server", "PONG", ["server", token])
  }

  lemma Headings()
    ensures ":" + "server" + (" " + "001" + " ") == ":server 001 " && ":" + "server" + (" " + "PONG" + " ") + "server" + " :" == ":server PONG server :"
    ensures ":" + "server" + (" " + "332") == ":server 332" && ":" + "server" + (" " + "353") == ":server 353"
  {
  }

  lemma WelcomeMark()
    ensures " :" + "Welcome to the ft_irc Network, " == " :Welcome to the ft_irc Network, "
  {
  }

  lemma WelcomeSpelled(n: string, u: string)
    ensures Body(Welcome(n, u)) == Print(Answer(Welcome(n, u)))
  {
    hide Print, Who;
    Headings();
    PrintTwo("server", "001", n, "Welcome to the ft_irc Network, " + Who(n, u));
    WelcomeMark();
    WelcomeGlue(":server 001 ", n, " :", "Welcome to the ft_irc Network, ", u);
  }

  lemma WelcomeGlue(a: string, n: string, b: string, w: string, u: string)
    ensures a + n + (b + w) + n + "!" + u + "@localhost" == a + n + b + (w + Who(n, u))
  {
  }

  lemma AnswerSpelled(r: Reply)
    requires Answered(r)
    ensures Body(r) == Print(Answer(r))
  {
    hide Print, Spaced, Who;
    match r
    case Welcome(n, u) => WelcomeSpelled(n, u);
    case TopicIs(n, c, topic) =>
      Headings();
      PrintMany("server", "332", [n, c], topic);
      assert [n, c] + [topic] == [n, c, topic];
    case NamesAre(n, c, names) =>
      Headings();
      PrintMany("server", "353", [n, "=", c], names);
      assert [n, "=", c] + [names] == [n, "=", c, names];
    case Pong(token) =>
      Headings();
      PrintTwo("server", "PONG", "server", token);
  }

  lemma AnswerCommand(r: Reply)
    requires Answered(r)
    ensures Wordlike(Answer(r).command) && Free("server", BLANKS)
  {
    hide Who;
  }

  /** The welcome, the topic, the member list and PONG parse at their receiver to what they are meant to say if and
      only if all their words but the last can stand between spaces. */
  lemma AnswerUnderstood(r: Reply)
    requires Answered(r) && Clean(Answer(r).params[|Answer(r).params| - 1])
    ensures Parse(Body(r)) == Answer(r) <==> Separable(Answer(r))
  {
    hide Parse, Print, Body, Answer, Clean, StripCr, WellFormed, Separable, Middle;
    var m := Answer(r);
    AnswerCommand(r);
    WordlikeSolid(m.command);
    AnswerSpelled(r);
    CleanEnd(m.params[|m.params| - 1]);
    SolidWellFormed(m);
    PrintParseExact(m);
  }
}
