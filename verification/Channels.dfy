/** One channel (Channel.cpp). Client pointers are descriptors, which can be reused. */
module Channels {
  import opened Ordering

  /** std::find followed by erase: the first occurrence goes. */
  function Erase(q: seq<int>, x: int): seq<int> {
    if q == [] then []
    else if q[0] == x then q[1..]
    else [q[0]] + Erase(q[1..], x)
  }

  function AddOnce(q: seq<int>, x: int): seq<int> {
    if x in q then q else q + [x]
  }

  /** `q` without the elements of `gone`, order kept. */
  function Without(q: seq<int>, gone: set<int>): seq<int> {
    if q == [] then []
    else (if q[0] in gone then [] else [q[0]]) + Without(q[1..], gone)
  }

  lemma {:induction false} WithoutElements(q: seq<int>, gone: set<int>)
    ensures forall x :: x in Without(q, gone) <==> x in q && x !in gone
    ensures NoDup(q) ==> NoDup(Without(q, gone))
    ensures |Without(q, gone)| <= |q|
  {
    if q != [] {
      WithoutElements(q[1..], gone);
      assert q == [q[0]] + q[1..];
      if NoDup(q) {
        assert NoDup(q[1..]) && q[0] !in q[1..];
      }
    }
  }

  lemma {:induction false} WithoutTwice(q: seq<int>, a: set<int>, b: set<int>)
    ensures Without(Without(q, a), b) == Without(q, a + b)
  {
    if q != [] {
      WithoutTwice(q[1..], a, b);
      if q[0] in a {
        assert Without(q, a) == Without(q[1..], a);
      } else {
        assert Without(q, a) == [q[0]] + Without(q[1..], a);
        assert Without(q, a)[1..] == Without(q[1..], a);
      }
    }
  }

  lemma {:induction false} WithoutNothing(q: seq<int>, gone: set<int>)
    requires forall i :: 0 <= i < |q| ==> q[i] !in gone
    ensures Without(q, gone) == q
  {
    if q != [] {
      assert q == [q[0]] + q[1..];
      assert q[0] in q;
      WithoutNothing(q[1..], gone);
      assert Without(q, gone) == [q[0]] + q[1..];
    }
  }

  /** On a duplicate-free list, erasing one pointer is filtering it out. */
  lemma {:induction false} EraseIsWithout(q: seq<int>, x: int)
    requires NoDup(q)
    ensures Erase(q, x) == Without(q, {x})
  {
    if q != [] {
      assert q == [q[0]] + q[1..];
      assert NoDup(q[1..]);
      if q[0] == x {
        assert x !in q[1..];
        WithoutNothing(q[1..], {x});
      } else {
        EraseIsWithout(q[1..], x);
      }
    }
  }

  lemma AddOnceElements(q: seq<int>, x: int)
    requires NoDup(q)
    ensures NoDup(AddOnce(q, x)) && forall y :: y in AddOnce(q, x) <==> y in q || y == x
  {
  }

  /** The last four fields are history: an allocation number that tells channel objects of the
      same name apart, the member count when the limit was last written, and per client the
      invitations received and the joins made while the channel was invite-only. */
  datatype Channel = Channel(
    name: string,
    topic: string,
    members: seq<int>,
    operators: seq<int>,
    invited: seq<int>,
    inviteOnly: bool,
    topicRestricted: bool,
    key: string,
    limit: nat,
    serial: nat,
    limitBase: nat,
    invitations: map<int, nat>,
    guardedJoins: map<int, nat>)
  {
    function AddMember(x: int): Channel { this.(members := AddOnce(members, x)) }
    function AddOperator(x: int): Channel { this.(operators := AddOnce(operators, x)) }
    function RemoveOperator(x: int): Channel { this.(operators := Erase(operators, x)) }
    function RemoveMember(x: int): Channel {
      this.(members := Erase(members, x), operators := Erase(operators, x))
    }
    function RemoveInvited(x: int): Channel { this.(invited := Erase(invited, x)) }

    function AddInvited(x: int): Channel {
      this.(invited := AddOnce(invited, x), invitations := invitations[x := Count(invitations, x) + 1])
    }

    function SetLimit(n: nat): Channel { this.(limit := n, limitBase := |members|) }

    /** What a client leaves behind when its connection object is destroyed: nothing. */
    function Forget(x: int): Channel {
      RemoveMember(x).RemoveInvited(x).(invitations := invitations - {x}, guardedJoins := guardedJoins - {x})
    }

    /** The four settings MODE controls. */
    function Settings(): (bool, bool, string, nat) { (inviteOnly, topicRestricted, key, limit) }
  }

  function Count(m: map<int, nat>, x: int): nat { if x in m then m[x] else 0 }

  function NewChannel(name: string, serial: nat): Channel {
    Channel(name, "", [], [], [], false, false, "", 0, serial, 0, map[], map[])
  }

  function Max(a: nat, b: nat): nat { if a < b then b else a }

  /** What every channel keeps between steps, given the connected descriptors. */
  ghost predicate ChannelOk(ch: Channel, live: set<int>) {
    && NoDup(ch.members) && NoDup(ch.operators) && NoDup(ch.invited)
    && (forall x :: x in ch.members ==> x in live)
    && (forall x :: x in ch.operators ==> x in ch.members)
    && (forall x :: x in ch.invited ==> x in live && x !in ch.members)
    && (ch.limit > 0 ==> |ch.members| <= Max(ch.limit, ch.limitBase))
    && (forall x :: x in ch.invitations || x in ch.guardedJoins ==> x in live)
    && (forall x :: Admitted(ch, x))
  }

  /** Joins through an invite-only door never outnumber the invitations; an unused one is in hand. */
  ghost predicate Admitted(ch: Channel, x: int) {
    Count(ch.guardedJoins, x) + (if x in ch.invited then 1 else 0) <= Count(ch.invitations, x)
  }

  lemma EraseElements(q: seq<int>, x: int)
    requires NoDup(q)
    ensures NoDup(Erase(q, x)) && forall y :: y in Erase(q, x) <==> y in q && y != x
    ensures |Erase(q, x)| <= |q|
  {
    EraseIsWithout(q, x);
    WithoutElements(q, {x});
  }

  /** A kick or a part. */
  lemma RemoveMemberOk(ch: Channel, x: int, live: set<int>)
    requires ChannelOk(ch, live)
    ensures ChannelOk(ch.RemoveMember(x), live)
  {
    EraseElements(ch.members, x);
    EraseElements(ch.operators, x);
    forall y ensures Admitted(ch.RemoveMember(x), y) { assert Admitted(ch, y); }
  }

  /** A destroyed connection leaves no pointer behind, so its descriptor can be reused. */
  lemma ForgetOk(ch: Channel, x: int, live: set<int>)
    requires ChannelOk(ch, live)
    ensures ChannelOk(ch.Forget(x), live - {x})
  {
    RemoveMemberOk(ch, x, live);
    EraseElements(ch.members, x);
    EraseElements(ch.invited, x);
    forall y ensures Admitted(ch.Forget(x), y) { assert Admitted(ch, y); }
  }

  /** Without operators there is no authority: none appears and the settings stay. */
  ghost predicate StaysFrozen(a: Channel, b: Channel) {
    a.operators == [] ==> b.operators == [] && b.Settings() == a.Settings()
  }

  lemma ForgetKeeps(ch: Channel, x: int)
    ensures ch.Forget(x).serial == ch.serial && StaysFrozen(ch, ch.Forget(x))
  {
  }

  lemma AddInvitedOk(ch: Channel, x: int, live: set<int>)
    requires ChannelOk(ch, live) && x in live && x !in ch.members
    ensures ChannelOk(ch.AddInvited(x), live)
  {
    AddOnceElements(ch.invited, x);
    forall y ensures Admitted(ch.AddInvited(x), y) { assert Admitted(ch, y); }
  }

  lemma AddOperatorOk(ch: Channel, x: int, live: set<int>)
    requires ChannelOk(ch, live) && x in ch.members
    ensures ChannelOk(ch.AddOperator(x), live)
  {
    AddOnceElements(ch.operators, x);
    forall y ensures Admitted(ch.AddOperator(x), y) { assert Admitted(ch, y); }
  }

  lemma RemoveOperatorOk(ch: Channel, x: int, live: set<int>)
    requires ChannelOk(ch, live)
    ensures ChannelOk(ch.RemoveOperator(x), live)
  {
    EraseElements(ch.operators, x);
    forall y ensures Admitted(ch.RemoveOperator(x), y) { assert Admitted(ch, y); }
  }

  /** Writing settings, topic or limit leaves the lists alone. */
  lemma SameListsOk(ch: Channel, d: Channel, live: set<int>)
    requires ChannelOk(ch, live)
    requires d == ch.(topic := d.topic, inviteOnly := d.inviteOnly, topicRestricted := d.topicRestricted,
                      key := d.key, limit := d.limit, limitBase := d.limitBase)
    requires d.limit > 0 ==> |d.members| <= Max(d.limit, d.limitBase)
    ensures ChannelOk(d, live)
  {
    forall y ensures Admitted(d, y) { assert Admitted(ch, y); }
  }
}
