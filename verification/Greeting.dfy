/** The server prints, the bot parses: JOIN announcements are understood. */
module Greeting {
  import opened Text
  import opened Replies
  import opened Clients
  import opened Commands
  import opened BotPeer

  /** A line with no space but the two around its JOIN. */
  ghost predicate TwoSpaces(line: string, p: nat) {
    p + 6 < |line| && forall j :: 0 <= j < |line| && line[j] == ' ' ==> j == p || j == p + 5
  }

  lemma SourceSpaceless(nick: string, user: string)
    requires ValidNickname(nick) && ValidUsername(user)
    ensures ' ' !in Source(nick, user)
  {
  }

  /** The announcement taken apart. */
  lemma JoinLineShape(nick: string, user: string, channel: string)
    requires ValidNickname(nick) && ValidUsername(user) && ValidChannelName(channel)
    ensures
      var line := JoinLine(nick, user, channel);
      var p := |Source(nick, user)|;
      TwoSpaces(line, p) && OccursAt(line, " JOIN ", p) && line[p + 6..] == ":" + channel && line[0] == ':'
  {
    var src := Source(nick, user);
    var line := JoinLine(nick, user, channel);
    SourceSpaceless(nick, user);
    assert line == src + " JOIN :" + channel;
    assert line[|src|..|src| + 6] == " JOIN ";
    assert line[|src| + 6..] == ":" + channel;
    assert forall j :: 0 <= j < |src| ==> line[j] == src[j] && src[j] in src;
    assert forall j :: |src| + 7 <= j < |line| ==> line[j] == channel[j - |src| - 7];
  }

  /** No numeric of three characters between spaces can hide in it. */
  lemma NoNumeric(line: string, p: nat, pat: string)
    requires TwoSpaces(line, p) && |pat| == 5 && pat[0] == ' ' && pat[4] == ' '
    requires line[p + 4] != ' '
    ensures Find(line, pat).None?
  {
    forall j: nat ensures !OccursAt(line, pat, j) {
      if j + 5 <= |line| {
        assert line[j..j + 5][0] == line[j] && line[j..j + 5][4] == line[j + 4];
      }
    }
  }

  lemma JoinFound(line: string, p: nat)
    requires TwoSpaces(line, p) && OccursAt(line, " JOIN ", p)
    ensures Find(line, " JOIN ") == Some(p)
  {
    forall j: nat | j < p ensures !OccursAt(line, " JOIN ", j) {
      if j + 6 <= |line| { assert line[j..j + 6][0] == line[j]; }
    }
    FindIs(line, " JOIN ", p);
  }

  lemma BangFound(nick: string, user: string, channel: string)
    requires ValidNickname(nick)
    ensures
      var line := JoinLine(nick, user, channel);
      IndexOf(line, '!') == 1 + |nick| && line[1..1 + |nick|] == nick && 1 + |nick| < |Source(nick, user)|
  {
    var line := JoinLine(nick, user, channel);
    var before := ":" + nick;
    var after := "!" + user + "@localhost JOIN :" + channel;
    assert line == before + after;
    assert '!' !in before;
    IndexOfAppend(before, '!', after);
  }

  /** The greeting always passes sendLine's checks. */
  lemma GreetingSendable(channel: string, nick: string)
    requires ValidNickname(nick) && ValidChannelName(channel) && Clean(channel)
    ensures SendLine(BotPeer.Greeting(channel, nick)) == Says(BotPeer.Greeting(channel, nick))
  {
    assert Clean(nick);
    assert Clean("PRIVMSG ") && Clean(" :Hello @");
  }

  /** Main result: from the announcement of any registered client joining any valid channel the bot
      recovers exactly the nickname and the channel. It greets that nickname if and only if the channel is
      its own and the nickname is not its own; it never takes the line for a PING, 001, 433 or 464, and
      the greeting always passes sendLine's checks. */
  lemma JoinUnderstood(mine: string, nick: string, user: string, channel: string)
    requires ValidNickname(nick) && ValidUsername(user) && ValidChannelName(channel) && Clean(channel)
    ensures
      var line := JoinLine(nick, user, channel);
      React(mine, line) ==
        if nick == BOT_NICKNAME || channel != mine then Silent else Says(BotPeer.Greeting(channel, nick))
  {
    hide Find, IndexOf, JoinLine, Source, ValidNickname, ValidUsername, ValidChannelName, TwoSpaces, OccursAt, SendLine,
      BotPeer.Greeting;
    var line := JoinLine(nick, user, channel);
    var p := |Source(nick, user)|;
    JoinLineShape(nick, user, channel);
    JoinUnmistaken(line, p);
    JoinFound(line, p);
    BangFound(nick, user, channel);
    ColonDropped(channel);
    GreetingSendable(channel, nick);
    NickNonEmpty(nick);
  }

  lemma NickNonEmpty(nick: string)
    requires ValidNickname(nick)
    ensures nick != ""
  {
  }

  lemma ColonDropped(channel: string)
    ensures DropColon(":" + channel) == channel
  {
  }

  /** The line is no PING and holds no numeric the bot listens for. */
  lemma JoinUnmistaken(line: string, p: nat)
    requires TwoSpaces(line, p) && OccursAt(line, " JOIN ", p) && line[0] == ':'
    ensures !("PING " <= line)
    ensures Find(line, " 001 ").None? && Find(line, " 433 ").None? && Find(line, " 464 ").None?
    ensures p + 6 <= |line|
  {
    hide Find;
    assert line[p..p + 6][4] == line[p + 4];
    NoNumeric(line, p, " 001 ");
    NoNumeric(line, p, " 433 ");
    NoNumeric(line, p, " 464 ");
    assert "PING "[0] != line[0];
  }

  /** The announcement itself is never refused as an invalid message. */
  lemma JoinWireValid(nick: string, user: string, channel: string)
    requires ValidNickname(nick) && ValidUsername(user) && ValidChannelName(channel) && Clean(channel)
    ensures ValidOutbound(Wire(Joined(nick, user, channel)))
    ensures BodyOf(Wire(Joined(nick, user, channel))) == JoinLine(nick, user, channel)
  {
    var line := JoinLine(nick, user, channel);
    var m := Wire(Joined(nick, user, channel));
    assert m == line + CRLF && m[..|m| - 2] == line;
    CleanJoin(":", nick);
    CleanJoin(":" + nick, "!");
    CleanJoin(":" + nick + "!", user);
    CleanJoin(":" + nick + "!" + user, "@localhost");
    CleanJoin(Source(nick, user), " JOIN :");
    CleanJoin(Source(nick, user) + " JOIN :", channel);
  }

  lemma CleanJoin(a: string, b: string)
    requires Clean(a) && Clean(b)
    ensures Clean(a + b)
  {
  }
}
