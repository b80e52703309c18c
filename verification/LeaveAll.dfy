/** JOIN 0: leaving every channel while deleting from the map the loop started from. */
module LeaveAll {
  import opened Ordering
  import opened Channels
  import opened State
  import opened Commands
  import opened Invariant
  import opened CommandProofs

  /** What leaving everything should do to the channel map: channels the client was alone in are gone,
      other channels of the client lose it, the rest are untouched. */
  function Left(channels: map<string, Channel>, fd: int): map<string, Channel> {
    map name | name in channels && channels[name].members != [fd] :: LeftOne(channels[name], fd)
  }

  function LeftOne(ch: Channel, fd: int): Channel {
    if fd in ch.members then ch.(members := Without(ch.members, {fd}), operators := Without(ch.operators, {fd})) else ch
  }

  /** The same for the channels of a list only. */
  ghost predicate LeftAmong(before: map<string, Channel>, after: map<string, Channel>, fd: int, names: seq<string>) {
    && (forall name :: name in after <==> name in before && (name in names ==> before[name].members != [fd]))
    && (forall name :: name in after ==> after[name] == if name in names then LeftOne(before[name], fd) else before[name])
  }

  lemma AloneIffEmpty(ch: Channel, fd: int)
    requires NoDup(ch.members) && fd in ch.members
    ensures |ch.RemoveMember(fd).members| == 0 <==> ch.members == [fd]
  {
    EraseElements(ch.members, fd);
    if |ch.members| > 1 {
      var other := if ch.members[0] == fd then ch.members[1] else ch.members[0];
      assert other in ch.members && other != fd;
      assert other in Erase(ch.members, fd);
    }
  }

  /** One visit of the loop. */
  lemma LeaveOneExact(s: Core, fd: int, name: string)
    requires ChannelsOk(s) && fd in s.clients && name in s.channels
    ensures LeftAmong(s.channels, LeaveOne(s, fd, name).channels, fd, [name])
  {
    var ch := s.channels[name];
    assert EntryOk(s, name, ch);
    LeaveOneLocal(s, fd, name);
    if fd in ch.members {
      AloneIffEmpty(ch, fd);
      EraseIsWithout(ch.members, fd);
      EraseIsWithout(ch.operators, fd);
    } else {
      assert ch.members != [fd];
    }
  }

  lemma LeftAmongMore(a: map<string, Channel>, b: map<string, Channel>, c: map<string, Channel>, fd: int, names: seq<string>)
    requires names != [] && names[0] !in names[1..]
    requires LeftAmong(a, b, fd, [names[0]]) && LeftAmong(b, c, fd, names[1..])
    ensures LeftAmong(a, c, fd, names)
  {
    assert names == [names[0]] + names[1..];
  }

  lemma {:induction false} LeaveEachExact(s: Core, fd: int, snapshot: seq<string>)
    requires Inv(s) && fd in s.clients && NoDup(snapshot)
    requires forall i :: 0 <= i < |snapshot| ==> snapshot[i] in s.channels
    ensures LeftAmong(s.channels, LeaveEach(s, fd, snapshot).channels, fd, snapshot)
    decreases |snapshot|
  {
    if snapshot != [] {
      var t := LeaveOne(s, fd, snapshot[0]);
      LeaveOneSound(s, fd, snapshot[0]);
      LeaveOneLocal(s, fd, snapshot[0]);
      LeaveOneExact(s, fd, snapshot[0]);
      LeaveEachExact(t, fd, snapshot[1..]);
      LeftAmongMore(s.channels, t.channels, LeaveEach(t, fd, snapshot[1..]).channels, fd, snapshot);
    }
  }

  lemma LeftAmongAll(before: map<string, Channel>, after: map<string, Channel>, fd: int, names: seq<string>)
    requires LeftAmong(before, after, fd, names) && forall name :: name in before ==> name in names
    ensures after == Left(before, fd)
  {
    var all := Left(before, fd);
    forall name ensures name in after <==> name in all {}
    forall name | name in after ensures after[name] == all[name] {}
  }

  lemma NowhereLeft(s: Core, fd: int, name: string)
    requires ChannelsOk(s) && name in s.channels
    ensures
      var ch := LeftOne(s.channels[name], fd);
      fd !in ch.members && fd !in ch.operators
  {
    assert EntryOk(s, name, s.channels[name]);
    WithoutElements(s.channels[name].members, {fd});
    WithoutElements(s.channels[name].operators, {fd});
  }

  /** Main result: JOIN 0 leaves the client in no channel, deletes exactly the channels it was alone in,
      removes it and nobody else from the others, and never dereferences a deleted channel although the
      map shrinks under the snapshot it iterates over. */
  lemma LeaveAllExact(s: Core, fd: int, params: seq<string>)
    requires Inv(s) && fd in s.clients && params != [] && params[0] == "0"
    ensures
      var t := Join(s, fd, params);
      !t.fault && t.channels == Left(s.channels, fd)
      && forall name :: name in t.channels ==> fd !in t.channels[name].members && fd !in t.channels[name].operators
  {
    var names := Names(s.channels.Keys);
    SnapshotPresent(s);
    LeaveEachSound(s, fd, names);
    LeaveEachExact(s, fd, names);
    forall name | name in s.channels ensures name in names {
      assert name in s.channels.Keys;
    }
    LeftAmongAll(s.channels, LeaveEach(s, fd, names).channels, fd, names);
    forall name | name in Left(s.channels, fd)
      ensures var ch := Left(s.channels, fd)[name]; fd !in ch.members && fd !in ch.operators
    {
      NowhereLeft(s, fd, name);
    }
  }
}
