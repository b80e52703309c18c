/** Channel.cpp as an object updated in place, proved against the values of module Channels. */
module ChannelObject {
  import opened Channels
  import Commands

  /** std::find: the first index holding `x`, or the length. */
  method FindIndex(q: seq<int>, x: int) returns (i: nat)
    ensures i <= |q| && (i < |q| ==> q[i] == x) && x !in q[..i]
  {
    i := 0;
    while i < |q| && q[i] != x
      invariant i <= |q| && x !in q[..i]
    {
      assert q[..i + 1] == q[..i] + [q[i]];
      i := i + 1;
    }
  }

  lemma {:induction false} EraseAt(q: seq<int>, x: int, i: nat)
    requires i < |q| && q[i] == x && x !in q[..i]
    ensures Erase(q, x) == q[..i] + q[i + 1..]
  {
    if i > 0 {
      assert q[..i] == [q[0]] + q[1..][..i - 1];
      EraseAt(q[1..], x, i - 1);
    }
  }

  lemma {:induction false} EraseAbsent(q: seq<int>, x: int)
    requires x !in q
    ensures Erase(q, x) == q
  {
    if q != [] {
      assert q == [q[0]] + q[1..];
      EraseAbsent(q[1..], x);
    }
  }

  /** find, then erase what was found. */
  method EraseFirst(q: seq<int>, x: int) returns (r: seq<int>)
    ensures r == Erase(q, x)
  {
    var i := FindIndex(q, x);
    if i < |q| {
      EraseAt(q, x, i);
      r := q[..i] + q[i + 1..];
    } else {
      assert q[..i] == q;
      EraseAbsent(q, x);
      r := q;
    }
  }

  method Contains(q: seq<int>, x: int) returns (found: bool)
    ensures found <==> x in q
  {
    var i := FindIndex(q, x);
    assert i == |q| ==> q[..i] == q;
    found := i < |q|;
  }

  /** The ghost fields are the history of module Channels. */
  class Room {
    const name: string
    var topic: string
    var members: seq<int>
    var operators: seq<int>
    var invited: seq<int>
    var inviteOnly: bool
    var topicRestricted: bool
    var key: string
    var limit: nat
    ghost const serial: nat
    ghost var limitBase: nat
    ghost var invitations: map<int, nat>
    ghost var guardedJoins: map<int, nat>

    ghost function Value(): Channel
      reads this
    {
      Channel(name, topic, members, operators, invited, inviteOnly, topicRestricted, key, limit,
              serial, limitBase, invitations, guardedJoins)
    }

    constructor (name: string, ghost serial: nat)
      ensures Value() == NewChannel(name, serial)
    {
      this.name, this.serial, topic, key := name, serial, "", "";
      members, operators, invited := [], [], [];
      inviteOnly, topicRestricted, limit, limitBase := false, false, 0, 0;
      invitations, guardedJoins := map[], map[];
    }

    method AddMember(x: int)
      modifies this`members
      ensures Value() == old(Value()).AddMember(x)
    {
      var present := Contains(members, x);
      if !present { members := members + [x]; }
    }

    method AddOperator(x: int)
      modifies this`operators
      ensures Value() == old(Value()).AddOperator(x)
    {
      var present := Contains(operators, x);
      if !present { operators := operators + [x]; }
    }

    method RemoveOperator(x: int)
      modifies this`operators
      ensures Value() == old(Value()).RemoveOperator(x)
    {
      operators := EraseFirst(operators, x);
    }

    /** Membership goes, and operator status with it. */
    method RemoveMember(x: int)
      modifies this`members, this`operators
      ensures Value() == old(Value()).RemoveMember(x)
    {
      members := EraseFirst(members, x);
      var operator := Contains(operators, x);
      if operator {
        RemoveOperator(x);
      } else {
        EraseAbsent(operators, x);
      }
    }

    method AddInvited(x: int)
      modifies this`invited, this`invitations
      ensures Value() == old(Value()).AddInvited(x)
    {
      var present := Contains(invited, x);
      if !present { invited := invited + [x]; }
      invitations := invitations[x := Count(invitations, x) + 1];
    }

    method RemoveInvited(x: int)
      modifies this`invited
      ensures Value() == old(Value()).RemoveInvited(x)
    {
      invited := EraseFirst(invited, x);
    }

    /** A newcomer admitted: a member, its invitation used up. */
    method Admit(x: int)
      modifies this`members, this`invited, this`guardedJoins
      ensures Value() == Commands.Admit(old(Value()), x)
    {
      AddMember(x);
      if inviteOnly { guardedJoins := guardedJoins[x := Count(guardedJoins, x) + 1]; }
      var expected := Contains(invited, x);
      if expected {
        RemoveInvited(x);
      } else {
        EraseAbsent(invited, x);
      }
    }

    /** What disconnectClient does to each channel. */
    method Forget(x: int)
      modifies this
      ensures Value() == old(Value()).Forget(x)
    {
      RemoveMember(x);
      RemoveInvited(x);
      invitations, guardedJoins := invitations - {x}, guardedJoins - {x};
    }

    method SetUserLimit(n: nat)
      modifies this`limit, this`limitBase
      ensures Value() == old(Value()).SetLimit(n)
    {
      limit, limitBase := n, |members|;
    }
  }
}
