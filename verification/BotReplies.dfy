/** How the bot takes what it receives: the registration replies, PING, and lines from any sender. */
module BotReplies {
  import opened Text
  import opened Replies
  import opened Clients
  import opened Commands
  import opened BotPeer

  /** What the bot can send: not empty, at most 510 bytes, no control byte. */
  predicate CanSay(line: string) { line != "" && |line| <= 510 && Clean(line) }

  function Answer(line: string): Reaction { if CanSay(line) then Says(line) else Throws }

  /** A PING is answered with its own token, if that can be sent. */
  lemma PingAnswered(mine: string, token: string)
    ensures React(mine, "PING " + token) == Answer("PONG " + token)
  {
    hide Find, GreetJoinedUser;
    assert ("PING " + token)[5..] == token;
    Opening("PING ", token);
  }

  lemma Opening(head: string, rest: string)
    ensures head <= head + rest
  {
  }

  /** Any line with 001 between spaces that is no PING makes it join its channel. */
  lemma NumericAnswered(mine: string, head: string, rest: string)
    requires head != "" && head[0] == ':'
    ensures React(mine, head + " 001 " + rest) == Answer("JOIN " + mine)
  {
    hide Find, GreetJoinedUser, SendLine;
    var line := head + " 001 " + rest;
    Inside(head, " 001 ", rest);
    assert line[0] == ':';
    Sent("JOIN " + mine);
  }

  lemma Sent(line: string)
    ensures SendLine(line) == Answer(line)
  {
  }

  lemma Inside(head: string, pat: string, rest: string)
    ensures Find(head + pat + rest, pat).Some?
  {
    hide Find;
    var s := head + pat + rest;
    assert OccursAt(s, pat, |head|) by { assert s[|head|..|head| + |pat|] == pat; }
  }

  lemma Regroup(a: string, b: string, n: string, w: string, x: string, u: string, y: string)
    ensures (a + b) + n + w + n + x + u + y == a + b + (n + w + n + x + u + y)
  {
  }

  lemma WelcomeSpelled(nick: string, user: string)
    ensures Body(Welcome(nick, user)) == ":server" + " 001 " + (nick + " :Welcome to the ft_irc Network, " + nick + "!" + user + "@localhost")
  {
    assert ":server 001 " == ":server" + " 001 ";
    Regroup(":server", " 001 ", nick, " :Welcome to the ft_irc Network, ", "!", user, "@localhost");
  }

  /** The welcome of any registration makes it join its channel, if the channel's name can be sent. */
  lemma WelcomeAnswered(mine: string, nick: string, user: string)
    ensures React(mine, Body(Welcome(nick, user))) == Answer("JOIN " + mine)
  {
    hide React, Body, Answer;
    WelcomeSpelled(nick, user);
    NumericAnswered(mine, ":server", nick + " :Welcome to the ft_irc Network, " + nick + "!" + user + "@localhost");
  }

  // ------------------------------------------------------------------- refusals

  /** No space is followed by a zero: there is no 001 in it. */
  ghost predicate NoZero(s: string) {
    forall j :: 0 <= j && j + 1 < |s| && s[j] == ' ' ==> s[j + 1] != '0'
  }

  lemma NoWelcome(line: string)
    requires NoZero(line)
    ensures Find(line, " 001 ").None?
  {
    hide Find;
    forall j: nat ensures !OccursAt(line, " 001 ", j) {
      if j + 5 <= |line| { assert line[j..j + 5][0] == line[j] && line[j..j + 5][1] == line[j + 1]; }
    }
  }

  lemma NoZeroJoin(a: string, b: string)
    requires NoZero(a) && NoZero(b) && (b != "" ==> b[0] != '0')
    ensures NoZero(a + b)
  {
  }

  /** A numeric 433 or 464 ends it. */
  lemma RefusalEnds(mine: string, head: string, pat: string, rest: string)
    requires pat == " 433 " || pat == " 464 "
    requires head != "" && head[0] == ':' && NoZero(head + pat + rest)
    ensures React(mine, head + pat + rest) == Throws
  {
    hide Find, GreetJoinedUser, SendLine;
    var line := head + pat + rest;
    Inside(head, pat, rest);
    NoWelcome(line);
    assert line[0] == ':';
  }

  lemma NickWord(nick: string)
    requires nick == "*" || ValidNickname(nick)
    ensures NoZero(nick) && nick != "" && nick[0] != '0'
  {
  }

  lemma Ends()
    ensures NoZero(" :Nickname is already in use") && NoZero(" :Password incorrect") && NoZero(":server") && NoZero(" 433 ") && NoZero(" 464 ") && NoZero(" ")
  {
  }

  lemma Codes()
    ensures Digits(433) == "433" && Digits(464) == "464"
  {
    assert Digits(4) == "4" && Digits(43) == "43" && Digits(46) == "46";
  }

  lemma SpacedWord(word: string)
    ensures Spaced([word]) == " " + word
  {
    assert [word][1..] == [];
  }

  lemma Numbered(code: string, word: string, text: string)
    ensures ":server " + code + (" " + word) + text == ":server" + (" " + code + " ") + (word + text)
  {
    assert ":server " == ":server" + " ";
  }

  lemma Marks()
    ensures " :" + "Password incorrect" == " :Password incorrect" && " :" + "Nickname is already in use" == " :Nickname is already in use"
  {
  }

  lemma SpacedWords(a: string, b: string)
    ensures Spaced([a, b]) == " " + (a + " " + b)
  {
    assert [a, b][1..] == [b];
    SpacedWord(b);
    assert " " + a + (" " + b) == " " + (a + " " + b);
  }

  lemma Between(code: string)
    requires code == "433" || code == "464"
    ensures " " + code + " " == if code == "433" then " 433 " else " 464 "
  {
  }

  /** The server's answer to a wrong password ends the bot, whatever it is addressed by. */
  lemma WrongPasswordEnds(mine: string, shown: string)
    requires shown == "*" || ValidNickname(shown)
    ensures React(mine, Body(Numeric(464, [shown]))) == Throws
  {
    hide React, Digits, NoZero, Spaced;
    Codes();
    Marks();
    SpacedWord(shown);
    Numbered("464", shown, " :Password incorrect");
    Between("464");
    Ends();
    NickWord(shown);
    NoZeroJoin(shown, " :Password incorrect");
    NoZeroJoin(":server", " 464 ");
    NoZeroJoin(":server" + " 464 ", shown + " :Password incorrect");
    RefusalEnds(mine, ":server", " 464 ", shown + " :Password incorrect");
  }

  /** So does a nickname in use. */
  lemma TakenNicknameEnds(mine: string, shown: string, nick: string)
    requires (shown == "*" || ValidNickname(shown)) && ValidNickname(nick)
    ensures React(mine, Body(Numeric(433, [shown, nick]))) == Throws
  {
    hide React, Digits, NoZero, Spaced;
    var words, text := shown + " " + nick, " :Nickname is already in use";
    Codes();
    Marks();
    SpacedWords(shown, nick);
    Numbered("433", words, text);
    Between("433");
    Ends();
    NickWord(shown);
    NickWord(nick);
    NoZeroJoin(" ", nick);
    NoZeroJoin(shown, " " + nick);
    assert shown + (" " + nick) == words;
    NoZeroJoin(words, text);
    NoZeroJoin(":server", " 433 ");
    NoZeroJoin(":server" + " 433 ", words + text);
    RefusalEnds(mine, ":server", " 433 ", words + text);
  }

  // -------------------------------------------------------------------- framing

  /** The bot's lines from any sender: the bytes up to a newline are a line, without one final CR, if they fit 512
      bytes and hold no NUL or inner CR; 512 bytes without a newline are too many. */
  lemma PieceCut(piece: string, rest: string)
    requires '\n' !in piece
    ensures
      var text := if piece != "" && piece[|piece| - 1] == '\r' then piece[..|piece| - 1] else piece;
      CutLine(piece + "\n" + rest) ==
        if |piece| + 1 > 512 then Oversized
        else if '\0' in text || '\r' in text then Forbidden(rest)
        else Got(text, rest)
    ensures CutLine(piece) == if |piece| >= 512 then Oversized else Cut.More
  {
    hide IndexOf;
    var buffer, after := piece + "\n" + rest, "\n" + rest;
    assert buffer == piece + after;
    assert IndexOf(after, '\n') == 0 by { assert after[0] == '\n'; }
    IndexOfAppend(piece, '\n', after);
    assert buffer[..|piece|] == piece && buffer[|piece| + 1..] == rest;
  }
}
