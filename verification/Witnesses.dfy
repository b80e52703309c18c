/** The shortfalls at concrete states and inputs. */
module Witnesses {
  import opened Text
  import opened Ordering
  import opened Replies
  import opened Clients
  import opened Channels
  import opened State
  import opened Commands
  import opened Invariant
  import opened EventLoop
  import EventProofs
  import FanOut
  import CommandProofs
  import Membership
  import ModeLines
  import Modes
  import Parsing
  import QueryRestore
  import ReadBack
  import Reaping
  import Shortfalls

  // ------------------------------------------------------------------- states

  /** A registered client that has nothing queued. */
  function Person(nick: string): Client {
    NewClient("127.0.0.1").(nickname := nick, username := "u", passOk := true, nickSet := true, userSet := true,
                            issued := [Welcome(nick, "u")])
  }

  lemma PersonOk(nick: string)
    requires ValidNickname(nick)
    ensures SessionOk(Person(nick)) && Person(nick).Registered() && Person(nick).Active()
  {
    assert Person(nick).issued[..0] == [];
  }

  function Fd(i: nat): int { 4 + i }

  function FdsUpTo(n: nat): (q: seq<int>)
    ensures |q| == n && forall i :: 0 <= i < n ==> q[i] == Fd(i)
  {
    seq(n, i requires 0 <= i < n => Fd(i))
  }

  function AllFds(n: nat): (fds: set<int>)
    ensures |fds| == n && forall x :: x in fds <==> 4 <= x < 4 + n
  {
    if n == 0 then {} else AllFds(n - 1) + {3 + n}
  }

  /** Everyone in one channel, the first its operator. */
  function Square(n: nat): Channel {
    NewChannel("#c", 0).(topicRestricted := true, members := FdsUpTo(n), operators := [Fd(0)])
  }

  function People(nicks: seq<string>): (m: map<int, Client>)
    ensures m.Keys == AllFds(|nicks|)
    ensures forall i :: 0 <= i < |nicks| ==> Fd(i) in m && m[Fd(i)] == Person(nicks[i])
  {
    map fd | fd in AllFds(|nicks|) :: Person(nicks[fd - 4])
  }

  function Town(nicks: seq<string>): Core {
    Core("pw", Wire, 3, People(nicks), [3] + FdsUpTo(|nicks|), map["#c" := Square(|nicks|)], 1, false)
  }

  ghost predicate Inhabitants(nicks: seq<string>) {
    && 1 <= |nicks| <= 100
    && (forall i :: 0 <= i < |nicks| ==> ValidNickname(nicks[i]))
    && forall i, j :: 0 <= i < j < |nicks| ==> Lower(nicks[i]) != Lower(nicks[j])
  }

  lemma SquareOk(n: nat, live: set<int>)
    requires n >= 1 && forall x :: x in live <==> 4 <= x < 4 + n
    ensures ChannelOk(Square(n), live)
  {
    var ch := Square(n);
    forall x ensures x in ch.members <==> 4 <= x < 4 + n {
      if 4 <= x < 4 + n { assert ch.members[x - 4] == x; }
    }
    forall x ensures Admitted(ch, x) {}
  }

  lemma PollFdsListed(n: nat)
    ensures NoDup([3] + FdsUpTo(n)) && forall fd :: fd in [3] + FdsUpTo(n) <==> fd == 3 || fd in AllFds(n)
  {
    hide AllFds;
    var q := [3] + FdsUpTo(n);
    forall fd ensures fd in q <==> fd == 3 || fd in AllFds(n) {
      assert q[0] == 3;
      if fd in AllFds(n) { assert q[1 + (fd - 4)] == fd; }
    }
  }

  lemma TownPoll(nicks: seq<string>)
    requires Inhabitants(nicks)
    ensures PollOk(Town(nicks))
  {
    hide AllFds, FdsUpTo, People, Square, Lower, ValidNickname, LiveFrom;
    var s := Town(nicks);
    PollFdsListed(|nicks|);
    assert s.clients.Keys == AllFds(|nicks|) && |s.clients| == |s.clients.Keys|;
    forall ip ensures |LiveFrom(s, ip)| <= MAX_CLIENTS_PER_IP {
      LiveAreConnected(s, ip);
      SubsetSize(LiveFrom(s, ip), s.clients.Keys);
    }
  }

  lemma LiveAreConnected(s: Core, ip: string)
    ensures LiveFrom(s, ip) <= s.clients.Keys
  {
  }

  lemma TownOk(nicks: seq<string>)
    requires Inhabitants(nicks)
    ensures Inv(Town(nicks))
  {
    hide PollOk, SessionOk, ChannelOk, ChannelsOk, NicksOk, Lower, ValidNickname, Square, People, AllFds, Person;
    var s := Town(nicks);
    TownPoll(nicks);
    TownNicks(nicks);
    SquareOk(|nicks|, s.clients.Keys);
    forall fd | fd in s.clients ensures SessionOk(s.clients[fd]) && s.clients[fd].Registered() {
      assert fd in AllFds(|nicks|) && s.clients[Fd(fd - 4)] == Person(nicks[fd - 4]);
      PersonOk(nicks[fd - 4]);
    }
    TownChannels(s, |nicks|);
  }

  lemma TownNicks(nicks: seq<string>)
    requires Inhabitants(nicks)
    ensures NicksOk(Town(nicks))
  {
    hide Lower, ValidNickname, Square, FdsUpTo, People, AllFds, Person;
    var s := Town(nicks);
    forall a, b | a in s.clients && b in s.clients && a != b ensures Lower(s.clients[a].nickname) != Lower(s.clients[b].nickname) {
      assert a in AllFds(|nicks|) && b in AllFds(|nicks|);
      assert s.clients[Fd(a - 4)] == Person(nicks[a - 4]) && s.clients[Fd(b - 4)] == Person(nicks[b - 4]);
      PersonNick(nicks[a - 4]);
      PersonNick(nicks[b - 4]);
      Apart(nicks, a - 4, b - 4);
    }
  }

  lemma PersonNick(nick: string)
    ensures Person(nick).nickname == nick
  {
  }

  lemma Apart(nicks: seq<string>, i: nat, j: nat)
    requires Inhabitants(nicks) && i < |nicks| && j < |nicks| && i != j
    ensures Lower(nicks[i]) != Lower(nicks[j])
  {
    hide Lower, ValidNickname;
    if i > j { Apart(nicks, j, i); }
  }

  lemma TownChannels(s: Core, n: nat)
    requires s.channels == map["#c" := Square(n)] && s.nextSerial == 1 && ChannelOk(Square(n), s.clients.Keys)
    requires forall fd :: fd in s.clients ==> s.clients[fd].Registered()
    ensures ChannelsOk(s)
  {
    hide Admitted;
    assert ValidChannelName("#c") && Clean("#c");
  }

  /** One client, alone in its channel. */
  function Lone(): Core { Town(["ab"]) }

  lemma OneFd()
    ensures AllFds(1) == {4} && FdsUpTo(1) == [4]
  {
    assert AllFds(0) == {};
  }

  lemma SquareOne()
    ensures Square(1).members == [4] && Square(1).operators == [4] && Square(1).key == "" && Square(1).limit == 0
  {
    OneFd();
  }

  lemma PeopleOne(nick: string)
    ensures People([nick]) == map[4 := Person(nick)]
  {
    hide Person, People, AllFds;
    OneFd();
    var m := People([nick]);
    assert m.Keys == {4} && m[Fd(0)] == Person([nick][0]);
  }

  lemma LoneShape()
    ensures Lone().clients == map[4 := Person("ab")] && Lone().channels == map["#c" := Square(1)] && Lone().nextSerial == 1
  {
    hide Person, Square, People;
    PeopleOne("ab");
  }

  lemma LoneFinds(s: Core)
    requires NicksOk(s) && s.clients == map[4 := Person("ab")]
    ensures FindClientByNick(s, "ab") == Some(4)
  {
    hide FindClientByNick, Lower;
    FindIsUnique(s, "ab", 4);
  }

  lemma AbValid()
    ensures Inhabitants(["ab"]) && ValidNickname("ab")
  {
  }

  lemma LoneOk()
    ensures Inv(Lone()) && Lone().clients == map[4 := Person("ab")] && Lone().channels == map["#c" := Square(1)]
    ensures Square(1).members == [4] && Square(1).operators == [4] && Square(1).key == "" && Square(1).limit == 0
    ensures Person("ab").Registered() && Person("ab").Active() && Person("ab").nickname == "ab" && Person("ab").username == "u"
    ensures FindClientByNick(Lone(), "ab") == Some(4)
  {
    hide SessionsOk, NicksOk, ChannelsOk, PollOk, FindClientByNick, SessionOk, Lower, Square, People, Inhabitants, ValidNickname;
    AbValid();
    TownOk(["ab"]);
    PersonOk("ab");
    LoneShape();
    SquareOne();
    LoneFinds(Lone());
  }

  // -------------------------------------------------- channels: empty, and twice

  /** KICK of oneself, alone: the channel is there and has nobody in it. */
  lemma KickLeavesEmpty()
    ensures
      var t := KickOne(Lone(), 4, "#c", "ab", "bye");
      Inv(Lone()) && "#c" in t.channels && t.channels["#c"].members == []
  {
    hide Inv, KickOne, FindClientByNick, Lone, Town, Person, Square;
    LoneOk();
    Membership.KickEmpties(Lone(), 4, "#c", "ab", "bye");
  }

  /** A disconnect does the same. */
  lemma DisconnectLeavesEmpty()
    ensures
      var t := Disconnect(Lone(), 4);
      Inv(Lone()) && "#c" in t.channels && t.channels["#c"].members == []
  {
    hide Inv, Disconnect, FindClientByNick, Lone, Town, Person, Square;
    LoneOk();
    Shortfalls.DisconnectEmpties(Lone(), 4, "#c");
  }

  lemma BigC()
    ensures ValidChannelName("#C") && Clean("#C") && Lower("#C") == Lower("#c") && "#C" != "#c"
  {
    assert "#C"[1] == 'C' && "#c"[1] == 'c';
  }

  /** JOIN of #C beside #c: two channels whose names differ in case only. */
  lemma CaseVariantsCoexist()
    ensures
      var t := JoinOne(Lone(), 4, "#C", "");
      Inv(Lone()) && "#c" in t.channels && "#C" in t.channels && Lower("#C") == Lower("#c")
      && !Membership.CaseDistinct(t)
  {
    hide Inv, JoinOne, FindClientByNick, Lone, Town, Person, Square, ValidChannelName, Lower;
    LoneOk();
    BigC();
    Membership.FoundingExact(Lone(), 4, "#C", "");
    var t := JoinOne(Lone(), 4, "#C", "");
    assert "#c" in t.channels.Keys && "#C" in t.channels.Keys;
  }

  // ------------------------------------------------------- MODE words that are lost

  /** +k with a key on a channel without one: the key is set and announced. */
  lemma KeyIsSet(s: Core, fd: int, nick: string, target: string, key: string)
    requires target in s.channels && s.channels[target].key == "" && Free(key, Modes.KEY_STOPS)
    ensures
      var x := Modes.Interpret(s, fd, nick, target, [target, "+k", key]);
      x.modes == "+k" && x.margs == [key] && target in x.core.channels && x.core.channels[target].key == key
  {
    hide Free;
    var params := [target, "+k", key];
    var start := Modes.Scan(s, true, 2, Modes.NO_SIGN, "", []);
    assert "+k" == ['+'] + ['k'];
    QueryRestore.ModeScanSplit(start, fd, nick, target, params, ['+'], ['k']);
    QueryRestore.ModeScanOne(start, fd, nick, target, params, '+');
    QueryRestore.ModeScanOne(start, fd, nick, target, params, 'k');
    PlusStep(start, fd, nick, target, params);
    KeyStep(start, fd, nick, target, params);
  }

  lemma PlusStep(x: Modes.Scan, fd: int, nick: string, target: string, params: seq<string>)
    requires target in x.core.channels && x.plus
    ensures Modes.ModeStep(x, fd, nick, target, params, '+') == x
  {
  }

  lemma KeyStep(x: Modes.Scan, fd: int, nick: string, target: string, params: seq<string>)
    requires target in x.core.channels && x.plus && x.cursor == 2 && |params| == 3 && x.lastSign == Modes.NO_SIGN
    requires x.core.channels[target].key == "" && Free(params[2], Modes.KEY_STOPS) && x.modes == "" && x.margs == []
    ensures
      var y := Modes.ModeStep(x, fd, nick, target, params, 'k');
      y.modes == "+k" && y.margs == [params[2]] && target in y.core.channels && y.core.channels[target].key == params[2]
  {
    hide Free, FindClientByNick;
    assert "" + ['+'] + ['k'] == "+k";
  }

  function KeyLine(key: string): string { "MODE #c +k :" + key }

  /** The line by which a client asks for a key, the key written as trailing. */
  lemma KeyLineParses(key: string)
    requires Parsing.StripCr(key) == key
    ensures Parsing.Parse(KeyLine(key)) == Parsing.Message("", "MODE", ["#c", "+k", key])
  {
    hide Parsing.Parse, Parsing.StripCr;
    var m := Parsing.Message("", "MODE", ["#c", "+k", key]);
    KeyMessageOk(key);
    Parsing.PrintParse(m);
    ThreeWords("MODE", "#c", "+k");
    assert Parsing.HeadWords(m) == ["MODE", "#c", "+k"];
    var head := Parsing.JoinWords(["MODE", "#c", "+k"]);
    assert head == "MODE #c +k";
    assert Parsing.Print(m) == head + " :" + key == "MODE #c +k :" + key;
  }

  lemma KeyMessageOk(key: string)
    requires Parsing.StripCr(key) == key
    ensures Parsing.WellFormed(Parsing.Message("", "MODE", ["#c", "+k", key]))
  {
  }

  lemma ThreeWords(a: string, b: string, c: string)
    ensures Parsing.JoinWords([a, b, c]) == a + " " + b + " " + c
  {
    assert [a, b, c][1..] == [b, c] && [b, c][1..] == [c] && [c][1..] == [];
    assert Spaced([c]) == " " + c + Spaced([]);
    assert Spaced([b, c]) == " " + b + Spaced([c]);
    assert a + (" " + b + (" " + c + "")) == a + " " + b + " " + c;
  }

  /** What the announcement of a key reads back as. */
  ghost predicate Misread(key: string, sent: string) {
    var params := ["#c", "+k", key];
    var x := Modes.Interpret(Lone(), 4, "ab", "#c", params);
    var prefix := ModeLines.UserPrefix("ab", "u");
    && Parsing.Parse(sent) == Parsing.Message("", "MODE", params)
    && x.modes == "+k" && x.margs == [key]
    && Parsing.Parse(Body(ModeSet("ab", "u", "#c", x.modes, x.margs))) != Parsing.Message(prefix, "MODE", params)
  }

  lemma KeyMisread(key: string)
    requires Parsing.StripCr(key) == key && Free(key, Modes.KEY_STOPS) && !Parsing.Middle(key)
    ensures Inv(Lone()) && Misread(key, KeyLine(key))
  {
    hide Inv, Modes.Interpret, Parsing.Parse, Body, FindClientByNick, Lone, Town, Person, Square, Free, Parsing.Middle,
      KeyLine, Parsing.StripCr, ModeLines.UserPrefix;
    LoneOk();
    KeyLineParses(key);
    KeyIsSet(Lone(), 4, "ab", "#c", key);
    ModeLines.ModeLineReadsBack(Lone(), 4, "#c", ["#c", "+k", key]);
    assert ["#c", "+k"] + [key] == ["#c", "+k", key];
    assert !ReadBack.AllMiddle([key]) by { assert [key][0] == key; }
  }

  /** MODE #c +k ::x sets the key ":x"; its announcement does not read back with that key. */
  lemma ColonKeyEaten()
    ensures KeyLine(":x") == "MODE #c +k ::x" && Inv(Lone()) && Misread(":x", "MODE #c +k ::x")
  {
    hide Inv, Misread, Lone;
    ColonKey();
    KeyMisread(":x");
    assert KeyLine(":x") == "MODE #c +k ::x";
  }

  lemma ColonKey()
    ensures Parsing.StripCr(":x") == ":x" && Free(":x", Modes.KEY_STOPS) && !Parsing.Middle(":x")
  {
  }

  /** What it does read back with: the key without its colon. */
  lemma ColonKeyReadAs()
    ensures Parsing.Parse(Body(ModeSet("ab", "u", "#c", "+k", [":x"])))
      == Parsing.Message(ModeLines.UserPrefix("ab", "u"), "MODE", ["#c", "+k", "x"])
  {
    hide Parsing.Parse, Parsing.JoinWords, Body, ModeLines.UserPrefix;
    var prefix := ModeLines.UserPrefix("ab", "u");
    var m := Parsing.Message(prefix, "MODE", ["#c", "+k", "x"]);
    var ws := ReadBack.LineWords(prefix, "MODE", ["#c", "+k", ":x"]);
    AbPrefix();
    ModeLines.ModeSetLine("ab", "u", "#c", "+k", [":x"]);
    assert ["#c", "+k"] + [":x"] == ["#c", "+k", ":x"];
    ReadBack.EndsInLast(ws);
    assert |ws| == 5 && ws[..4] == Parsing.HeadWords(m) && ws[4] == ":x";
    var head := Parsing.JoinWords(ws[..4]);
    assert Body(ModeSet("ab", "u", "#c", "+k", [":x"])) == head + " " + ":x";
    assert m.params[|m.params| - 1] == "x" && Parsing.Print(m) == head + " :" + "x";
    assert head + " " + ":x" == head + " :" + "x";
    assert Parsing.WellFormed(m);
    Parsing.PrintParse(m);
  }

  lemma AbPrefix()
    ensures ModeLines.UserPrefix("ab", "u") != "" && Free(ModeLines.UserPrefix("ab", "u"), BLANKS)
  {
  }

  /** MODE #c +k with an empty trailing parameter is announced as a key and sets none. */
  lemma EmptyKeyLost()
    ensures Inv(Lone()) && Misread("", "MODE #c +k :")
    ensures
      var x := Modes.Interpret(Lone(), 4, "ab", "#c", ["#c", "+k", ""]);
      "#c" in x.core.channels && x.core.channels["#c"].key == ""
  {
    hide Inv, Misread, Modes.Interpret, Lone, Town, Person, Square, FindClientByNick;
    KeyMisread("");
    LoneOk();
    KeyIsSet(Lone(), 4, "ab", "#c", "");
    assert KeyLine("") == "MODE #c +k :";
  }

  // --------------------------------------------------- a member list that is not sent

  /** Fifty nicknames of nine letters, none like another. */
  function CrowdNick(i: nat): string
    requires i < 50
  {
    ['n', 'n', 'n', 'n', 'n', 'n', 'n', ('a' as int + i / 10) as char, ('a' as int + i % 10) as char]
  }

  function CrowdNicks(): (nicks: seq<string>)
    ensures |nicks| == 50 && forall i :: 0 <= i < 50 ==> nicks[i] == CrowdNick(i)
  {
    seq(50, i requires 0 <= i < 50 => CrowdNick(i))
  }

  lemma CrowdNickOk(i: nat)
    requires i < 50
    ensures ValidNickname(CrowdNick(i)) && Lower(CrowdNick(i)) == CrowdNick(i)
  {
  }

  lemma CrowdNickApart(i: nat, j: nat)
    requires i < j < 50
    ensures CrowdNick(i) != CrowdNick(j)
  {
    assert CrowdNick(i)[7] != CrowdNick(j)[7] || CrowdNick(i)[8] != CrowdNick(j)[8];
  }

  lemma CrowdOk()
    ensures Inhabitants(CrowdNicks()) && Inv(Town(CrowdNicks()))
  {
    hide CrowdNick, ValidNickname, Lower, Inv, Town;
    var nicks := CrowdNicks();
    forall i | 0 <= i < 50 ensures ValidNickname(nicks[i]) && Lower(nicks[i]) == nicks[i] { CrowdNickOk(i); }
    forall i, j | 0 <= i < j < 50 ensures Lower(nicks[i]) != Lower(nicks[j]) { CrowdNickApart(i, j); }
    TownOk(nicks);
  }

  lemma {:induction false} NamesListLong(s: Core, ch: Channel, members: seq<int>)
    requires forall i :: 0 <= i < |members| ==> members[i] in s.clients && |s.clients[members[i]].nickname| == 9
    ensures |NamesList(s, ch, members)| >= 10 * |members| - 1
    decreases |members|
  {
    hide NamesEntry;
    if members != [] {
      NamesListLong(s, ch, members[1..]);
      EntryLong(s, ch, members[0], |members| == 1);
    }
  }

  lemma EntryLong(s: Core, ch: Channel, fd: int, last: bool)
    requires fd in s.clients && |s.clients[fd].nickname| == 9
    ensures |NamesEntry(s, ch, fd, last)| >= if last then 9 else 10
  {
  }

  /** Fifty members with nicknames of nine letters: none of them is ever sent the member list. */
  lemma RosterDropped(fd: int)
    requires fd in AllFds(50)
    ensures Inv(Town(CrowdNicks())) && fd in Town(CrowdNicks()).clients
    ensures
      var s := Town(CrowdNicks());
      var ch := Square(50);
      s.channels == map["#c" := ch] && fd in ch.members
      && !ValidOutbound(Wire(NamesAre(s.clients[fd].nickname, "#c", NamesList(s, ch, ch.members))))
  {
    hide CrowdNick, AllFds, People, Inv, NamesList, Wire, Person;
    CrowdOk();
    var s := Town(CrowdNicks());
    var ch := Square(50);
    forall i | 0 <= i < 50 ensures ch.members[i] in s.clients && |s.clients[ch.members[i]].nickname| == 9 && s.clients[Fd(i)].nickSet {
      assert s.clients[Fd(i)] == Person(CrowdNicks()[i]);
      NineLetters(i);
    }
    assert ch.members[fd - 4] == fd;
    NamesListLong(s, ch, ch.members);
    Shortfalls.RosterDelivered(s, fd, "#c");
  }

  lemma NineLetters(i: nat)
    requires i < 50
    ensures |Person(CrowdNick(i)).nickname| == 9 && Person(CrowdNick(i)).nickSet
  {
  }

  // -------------------------------------------------- a survivor of a reap that is dead

  function Xs(n: nat): (s: string)
    ensures |s| == n && Clean(s)
  {
    if n == 0 then "" else Xs(n - 1) + "x"
  }

  function FullLine(): string { Xs(510) + CRLF }

  lemma FullLineValid()
    ensures ValidOutbound(FullLine()) && |FullLine()| == 512
  {
    hide Xs;
    assert FullLine()[..510] == Xs(510);
  }

  function Backlog(n: nat): (ms: seq<string>)
    ensures |ms| == n && forall i :: 0 <= i < n ==> ms[i] == FullLine()
  {
    if n == 0 then [] else [FullLine()] + Backlog(n - 1)
  }

  lemma {:induction false} BacklogSize(n: nat)
    ensures |Flatten(Backlog(n))| == 512 * n
  {
    hide FullLine;
    FullLineValid();
    if n > 0 {
      assert Backlog(n)[1..] == Backlog(n - 1);
      BacklogSize(n - 1);
    }
  }

  /** A client whose queue is full to the last byte. */
  function Sated(c: Client): Client { c.(accepted := Backlog(128), sendBuffer := Flatten(Backlog(128))) }

  lemma SatedOk(nick: string)
    requires ValidNickname(nick)
    ensures CommandProofs.Successor(Person(nick), Sated(Person(nick)))
    ensures Sated(Person(nick)).Active() && |Sated(Person(nick)).sendBuffer| == MAX_SEND_BUFFER
  {
    hide ValidNickname, Flatten, Backlog, ValidOutbound, Welcomes, FullLine;
    PersonOk(nick);
    BacklogSize(128);
    FullLineValid();
    var d := Sated(Person(nick));
    assert d.sent + d.sendBuffer == d.sendBuffer;
    forall m | m in d.accepted ensures ValidOutbound(m) { var i :| 0 <= i < 128 && Backlog(128)[i] == m; }
  }

  /** Two clients share a channel; one is dead, the other's queue is full. */
  function Doomed(): Core {
    var s := Town(["ab", "cd"]);
    Kill(SetClient(s, 5, Sated(Person("cd"))), 4, SocketFailed)
  }

  lemma PairShape()
    ensures
      var s := Town(["ab", "cd"]);
      Inv(s) && s.clients == map[4 := Person("ab"), 5 := Person("cd")] && s.channels == map["#c" := Square(2)] && s.wire == Wire
      && Square(2).members == [4, 5]
  {
    hide Inv, Person, People, AllFds, ValidNickname, Lower;
    PairInhabits();
    TownOk(["ab", "cd"]);
    PeopleTwo("ab", "cd");
  }

  lemma PairInhabits()
    ensures Inhabitants(["ab", "cd"]) && ValidNickname("ab") && ValidNickname("cd")
  {
    assert Lower("ab")[0] == 'a' && Lower("cd")[0] == 'c';
  }

  lemma PeopleTwo(a: string, b: string)
    ensures People([a, b]) == map[4 := Person(a), 5 := Person(b)]
  {
    hide Person, People;
    OneFd();
    var m := People([a, b]);
    assert m.Keys == AllFds(1) + {5} == {4, 5};
    assert m[Fd(0)] == Person([a, b][0]) && m[Fd(1)] == Person([a, b][1]);
  }

  lemma DoomedShape()
    ensures
      var s := Doomed();
      s.clients == map[4 := Person("ab").MarkDead(SocketFailed), 5 := Sated(Person("cd"))]
      && s.channels == map["#c" := Square(2)] && s.wire == Wire
      && Inv(s)
  {
    hide Inv, Person, Sated, Town, Square, CommandProofs.Successor;
    PairShape();
    PairInhabits();
    var s := Town(["ab", "cd"]);
    SatedOk("cd");
    SameNick("cd");
    CommandProofs.SetClientSound(s, 5, Sated(Person("cd")));
    var t := SetClient(s, 5, Sated(Person("cd")));
    EventProofs.KillSound(t, 4, SocketFailed);
    assert t.clients[4] == Person("ab");
  }

  lemma SameNick(nick: string)
    ensures Sated(Person(nick)).nickname == Person(nick).nickname
  {
  }

  lemma DeadNotice()
    ensures
      var c := Person("ab").MarkDead(SocketFailed);
      c.dead && c.Registered() && Quit(c.nickname, c.username, c.deadReason) == Quit("ab", "u", SocketFailed)
  {
  }

  lemma ValidBody(body: string)
    requires Clean(body) && |body| <= 510
    ensures ValidOutbound(body + CRLF)
  {
    var m := body + CRLF;
    assert m[..|m| - 2] == body;
  }

  lemma NoticeValid()
    ensures ValidOutbound(Wire(Quit("ab", "u", SocketFailed)))
  {
    hide ValidOutbound, Source;
    SourceClean();
    var text := ReasonText(SocketFailed);
    assert Clean(text) && |text| <= 40;
    Shortfalls.CleanParts(Source("ab", "u"), " QUIT :");
    Shortfalls.CleanParts(Source("ab", "u") + " QUIT :", text);
    ValidBody(Source("ab", "u") + " QUIT :" + text);
  }

  lemma SourceClean()
    ensures Clean(Source("ab", "u")) && |Source("ab", "u")| <= 20
  {
  }

  /** One of two clients is finished. */
  lemma OneVictim(s: Core, c: Client, d: Client)
    requires s.clients == map[4 := c, 5 := d] && Finished(c) && !Finished(d)
    ensures Fds(Reaping.Victims(s)) == [4]
  {
    hide Fds, Finished;
    assert Reaping.Victims(s) == {4};
    var fds := [4];
    assert fds[0] == 4;
    AscendingIsFds(fds, {4});
  }

  /** It is registered and shares a channel with the other. */
  lemma OneQuit(s: Core, c: Client, ch: Channel)
    requires 4 in s.clients && s.clients[4] == c && c.Registered()
    requires "#c" in s.channels && s.channels["#c"] == ch && 4 in ch.members && 5 in ch.members
    ensures Reaping.QuitsFor(s, [4], 5) == [Quit(c.nickname, c.username, c.deadReason)]
  {
    assert [4][1..] == [];
    assert FanOut.Shares(s, 4, 5);
  }

  /** What the survivor is owed: one QUIT. */
  lemma OneQuitOwed()
    ensures
      var s := Doomed();
      Fds(Reaping.Victims(s)) == [4] && 4 in s.clients
      && Reaping.QuitsFor(s, [4], 5) == [Quit("ab", "u", SocketFailed)]
  {
    hide Inv, Person, Sated, Doomed, Square, Fds, Reaping.Victims, Reaping.QuitsFor, CommandProofs.Successor;
    var s := Doomed();
    DoomedShape();
    PairShape();
    DeadNotice();
    PairInhabits();
    SatedOk("cd");
    OneVictim(s, Person("ab").MarkDead(SocketFailed), Sated(Person("cd")));
    assert 4 in [4, 5] && 5 in [4, 5];
    OneQuit(s, Person("ab").MarkDead(SocketFailed), Square(2));
  }

  /** A client that survives a reap and is dead after it: the QUIT it is owed does not fit its queue. */
  lemma SurvivorIsDead()
    ensures
      var s := Doomed();
      Inv(s) && 5 in s.clients && !s.clients[5].dead
      && 5 in ReapDead(s).clients && ReapDead(s).clients[5].dead
  {
    hide Inv, Person, Sated, Doomed, Square, ReapDead, Wire, ValidOutbound, Reaping.Victims, Reaping.QuitsFor;
    var s := Doomed();
    DoomedShape();
    DeadNotice();
    PairInhabits();
    SatedOk("cd");
    NoticeValid();
    OneQuitOwed();
    EventProofs.ReapKeys(s);
    Shortfalls.SurvivorDies(s, 5);
    OneReply(Quit("ab", "u", SocketFailed));
  }

  lemma OneReply(r: Reply)
    requires ValidOutbound(Wire(r))
    ensures Shortfalls.ValidBytes([r], Wire) > 0
  {
    hide Wire, Body;
    assert [r][1..] == [];
  }
}
