/** The single steps of the loops of module ServerObject, on values: what one turn of a loop does to
    the specification of the whole loop. */
module LoopSteps {
  import opened Text
  import opened Ordering
  import opened Replies
  import opened Channels
  import State
  import Commands
  import Modes
  import EventLoop
  import Invariant

  /** One more channel of the recipient scan. */
  lemma GatherStep(s: State.Core, fd: int, names: seq<string>, i: nat, found: seq<int>, except: Option<int>)
    requires i < |names| && names[i] in s.channels
    ensures
      var members := s.channels[names[i]].members;
      State.GatherPeers(s, fd, names[i..], found, except) == State.GatherPeers(s, fd, names[i + 1..],
        if fd in members then State.Gather(found, members, except) else found, except)
  {
    assert names[i..][1..] == names[i + 1..];
  }

  function After(keys: seq<string>, i: nat): seq<string> { if i < |keys| then keys[i..] else [] }

  /** One more channel of a JOIN list; a key that is missing is empty. */
  lemma JoinListStep(s: State.Core, fd: int, names: seq<string>, keys: seq<string>, i: nat)
    requires i < |names| && fd in s.clients
    ensures Commands.JoinList(s, fd, names[i..], After(keys, i)) ==
      Commands.JoinList(Commands.JoinOne(s, fd, names[i], if i < |keys| then keys[i] else ""), fd, names[i + 1..], After(keys, i + 1))
  {
    assert names[i..][1..] == names[i + 1..];
    assert i < |keys| ==> After(keys, i)[1..] == After(keys, i + 1);
  }

  /** One more entry of the 353 list. */
  lemma NamesListStep(s: State.Core, ch: Channel, members: seq<int>, j: nat, list: string, entry: string)
    requires j < |members| && entry == Commands.NamesEntry(s, ch, members[j], j + 1 == |members|)
    ensures list + Commands.NamesList(s, ch, members[j..]) == (list + entry) + Commands.NamesList(s, ch, members[j + 1..])
  {
    assert members[j..][1..] == members[j + 1..];
  }

  function Prefixed(first: seq<EventLoop.Interest>, rest: Option<seq<EventLoop.Interest>>): Option<seq<EventLoop.Interest>> {
    match rest
    case None => None
    case Some(more) => Some(first + more)
  }

  lemma PrefixedEmpty(rest: Option<seq<EventLoop.Interest>>)
    ensures Prefixed([], rest) == rest
  {
    if rest.Some? { assert [] + rest.value == rest.value; }
  }

  lemma PrefixedMore(found: seq<EventLoop.Interest>, first: EventLoop.Interest, rest: Option<seq<EventLoop.Interest>>)
    ensures Prefixed(found, Prefixed([first], rest)) == Prefixed(found + [first], rest)
  {
    if rest.Some? { assert found + ([first] + rest.value) == (found + [first]) + rest.value; }
  }

  /** The descriptors collected for disconnection, in the order given. */
  function DeadAmong(s: State.Core, fds: seq<int>): seq<int>
    decreases |fds|
  {
    if fds == [] then []
    else (if fds[0] in s.clients && EventLoop.Sentenced(s.clients[fds[0]]).dead then [fds[0]] else []) + DeadAmong(s, fds[1..])
  }

  lemma DeadAmongStep(s: State.Core, fds: seq<int>, i: nat)
    requires i < |fds| && fds[i] in s.clients
    ensures DeadAmong(s, fds[i..]) ==
      (if EventLoop.Sentenced(s.clients[fds[i]]).dead then [fds[i]] else []) + DeadAmong(s, fds[i + 1..])
  {
    assert fds[i..][1..] == fds[i + 1..];
  }

  lemma DeadAmongNone(s: State.Core)
    ensures DeadAmong(s, []) == []
  {
  }

  lemma {:induction false} DeadAmongAscending(s: State.Core, fds: seq<int>)
    requires forall a, b :: 0 <= a < b < |fds| ==> fds[a] < fds[b]
    ensures
      var q := DeadAmong(s, fds);
      && (forall a, b :: 0 <= a < b < |q| ==> q[a] < q[b])
      && forall x :: x in q <==> x in fds && x in s.clients && EventLoop.Sentenced(s.clients[x]).dead
  {
    if fds != [] {
      DeadAmongAscending(s, fds[1..]);
      assert fds == [fds[0]] + fds[1..];
      var q := DeadAmong(s, fds[1..]);
      forall a | 0 <= a < |q| ensures fds[0] < q[a] {
        var x := q[a];
        assert x in q && x in fds[1..];
      }
    }
  }

  function Doomed(s: State.Core): set<int> {
    set fd | fd in s.clients && EventLoop.Sentenced(s.clients[fd]).dead
  }

  lemma CondemnDooms(s: State.Core)
    ensures EventLoop.DeadFds(EventLoop.Condemn(s)) == Fds(Doomed(s))
  {
    hide EventLoop.Sentenced, Fds;
    var t := EventLoop.Condemn(s);
    assert (set fd | fd in t.clients && t.clients[fd].dead) == Doomed(s);
  }

  lemma DeadAmongIs(s: State.Core, fds: seq<int>)
    requires fds == Fds(s.clients.Keys)
    ensures DeadAmong(s, fds) == EventLoop.DeadFds(EventLoop.Condemn(s))
  {
    hide EventLoop.Sentenced, EventLoop.DeadFds, EventLoop.Condemn, DeadAmong;
    DeadAmongAscending(s, fds);
    var q := DeadAmong(s, fds);
    forall k | 0 <= k < |q| ensures q[k] in Doomed(s) {
      var x := q[k];
      assert x in q;
    }
    forall x | x in Doomed(s) ensures exists k :: 0 <= k < |q| && q[k] == x {
      assert x in fds && x in q;
    }
    AscendingIsFds(q, Doomed(s));
    CondemnDooms(s);
  }

  /** From state `s` and buffer `a`, draining comes to state `t` and buffer `b`; when nothing more is
      to be done that is the outcome. */
  ghost predicate Turned(s: State.Core, fd: int, a: string, t: State.Core, b: string, more: bool)
    requires fd in s.clients && fd in t.clients
  {
    var d := EventLoop.Drain(s, fd, a);
    if more then
      var e := EventLoop.Drain(t, fd, b);
      d.core == e.core && d.buffer == e.buffer
    else d.core == t && d.buffer == b
  }

  lemma TurnedTwice(s: State.Core, fd: int, a: string, t: State.Core, b: string, u: State.Core, c: string, more: bool)
    requires fd in s.clients && fd in t.clients && fd in u.clients
    requires Turned(s, fd, a, t, b, true) && Turned(t, fd, b, u, c, more)
    ensures Turned(s, fd, a, u, c, more)
  {
  }

  /** One extractLine call, on the shared state and the buffer. */
  ghost predicate Pulled(s: State.Core, fd: int, a: string, t: State.Core, b: string, ok: bool, line: string)
    requires fd in s.clients
  {
    match EventLoop.Extract(a)
    case NoLine => !ok && t == s && b == a
    case TooLong(rest) => !ok && t == EventLoop.Kill(s, fd, LineTooLong) && b == rest
    case Control(rest) => !ok && t == EventLoop.Kill(s, fd, Reason.ControlByte) && b == rest
    case Line(text, rest) => ok && line == text && t == s && b == rest
  }

  function CountFrom(s: State.Core, fds: seq<int>, ip: string): nat {
    if fds == [] then 0 else (if fds[0] in Invariant.LiveFrom(s, ip) then 1 else 0) + CountFrom(s, fds[1..], ip)
  }

  /** The tail of a listing lists the rest. */
  lemma TailLists(fds: seq<int>, all: set<int>)
    requires Lists(fds, all) && fds != []
    ensures fds[0] in all && Lists(fds[1..], all - {fds[0]})
  {
    var x := fds[0];
    assert x in fds;
    forall y ensures y in fds[1..] <==> y in all - {x} {
      if y in fds[1..] { var k :| 0 <= k < |fds[1..]| && fds[1..][k] == y; assert fds[k + 1] == y; }
      if y in all - {x} { var k :| 0 <= k < |fds| && fds[k] == y; assert fds[1..][k - 1] == y; }
    }
  }

  lemma CountStep(live: set<int>, all: set<int>, x: int)
    requires x in all
    ensures |live * all| == |live * (all - {x})| + (if x in live then 1 else 0)
  {
    assert live * all == live * (all - {x}) + (if x in live then {x} else {});
  }

  /** Counting along a listing of a set counts the set. */
  lemma {:induction false} CountFromIs(s: State.Core, fds: seq<int>, ip: string, all: set<int>)
    requires Lists(fds, all)
    ensures CountFrom(s, fds, ip) == |Invariant.LiveFrom(s, ip) * all|
  {
    hide Invariant.LiveFrom;
    var live := Invariant.LiveFrom(s, ip);
    if fds == [] {
      assert live * all == {} by { assert forall x :: x in all ==> x in fds; }
    } else {
      TailLists(fds, all);
      CountFromIs(s, fds[1..], ip, all - {fds[0]});
      CountStep(live, all, fds[0]);
    }
  }

  lemma LiveAreClients(s: State.Core, ip: string)
    ensures Invariant.LiveFrom(s, ip) * s.clients.Keys == Invariant.LiveFrom(s, ip)
  {
  }

  lemma TurnStep(x: Modes.Scan, fd: int, nick: string, target: string, params: seq<string>, c: char)
    requires target in x.core.channels && c in {'+', '-'}
    ensures Modes.ModeStep(x, fd, nick, target, params, c) == x.(plus := c == '+')
  {
  }

  lemma IdleStep(x: Modes.Scan, fd: int, nick: string, target: string, params: seq<string>, c: char)
    requires target in x.core.channels && c !in {'+', '-'}
    requires if Modes.TakesArgument(c, x.plus) then x.cursor >= |params| else c !in {'i', 't', 'l'}
    ensures Modes.ModeStep(x, fd, nick, target, params, c) == x
  {
  }

  /** A setting method's report is the interpreter's step. */
  lemma TookStep(x: Modes.Scan, t: State.Core, fd: int, nick: string, target: string, params: seq<string>, c: char,
                 changed: bool, arg: seq<string>)
    requires target in x.core.channels
    requires Took(x.core, t, fd, target, Modes.ModeEffect(x, nick, target, params, c), changed, c, arg)
    ensures
      var cursor := if Modes.TakesArgument(c, x.plus) && x.cursor < |params| then x.cursor + 1 else x.cursor;
      Modes.ModeStep(x, fd, nick, target, params, c) ==
        if changed then Modes.Scan(t, x.plus, cursor, x.Sign(), x.Announced(c), x.margs + arg)
        else x.(core := t, cursor := cursor)
  {
  }

  /** What a setting method reports, against the effect the specification gives the letter. */
  ghost predicate Took(s: State.Core, t: State.Core, fd: int, target: string, e: Modes.Effect,
                       changed: bool, letter: char, arg: seq<string>)
  {
    match e
    case Skip => !changed && t == s
    case Turn(_) => false
    case Tell(r) => !changed && t == State.Send(s, fd, r)
    case Put(ch, l, a) => changed && l == letter && a == arg && t == State.SetChannel(s, target, ch)
  }

  /** The digit loop. */
  method IsNumber(text: string) returns (yes: bool)
    ensures yes == AllDigits(text)
  {
    var j := 0;
    while j < |text|
      invariant j <= |text| && forall k :: 0 <= k < j ==> IsDigit(text[k])
    {
      if !IsDigit(text[j]) { return false; }
      j := j + 1;
    }
    return true;
  }

  /** The scan for a letter that is no mode. */
  method FindUnknown(modes: string) returns (letter: Option<char>)
    ensures letter == Modes.UnknownLetter(modes)
  {
    var i := 0;
    assert modes[0..] == modes;
    while i < |modes|
      invariant i <= |modes| && Modes.UnknownLetter(modes[i..]) == Modes.UnknownLetter(modes)
    {
      assert modes[i..][0] == modes[i] && modes[i..][1..] == modes[i + 1..];
      if !Modes.KnownMode(modes[i]) && Modes.IsAlpha(modes[i]) { return Some(modes[i]); }
      i := i + 1;
    }
    return None;
  }

  /** Deleting a channel makes what was written to it before irrelevant, when it is its own name. */
  lemma Overwritten(s: State.Core, name: string, ch: Channel)
    ensures State.RemoveChannel(State.SetChannel(s, name, ch), name) == State.RemoveChannel(s, name)
  {
    assert s.channels[name := ch] - {name} == s.channels - {name};
  }
}
