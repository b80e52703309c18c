/** The iteration order of std::map: keys ascending. */
module Ordering {

  ghost predicate NoDup<T(!new)>(q: seq<T>) {
    forall i, j :: 0 <= i < j < |q| ==> q[i] != q[j]
  }

  /** `q` lists the elements of `s`, each once. */
  ghost predicate Lists<T(!new)>(q: seq<T>, s: set<T>) {
    NoDup(q) && forall x :: x in q <==> x in s
  }

  lemma Pick<T>(s: set<T>) returns (x: T)
    requires s != {}
    ensures x in s
  {
    x :| x in s;
  }

  /** std::less on strings: lexicographic by character value. */
  predicate StringLe(a: string, b: string) {
    a == "" || (b != "" && (a[0] < b[0] || (a[0] == b[0] && StringLe(a[1..], b[1..]))))
  }

  lemma {:induction false} StringLeTotal(a: string, b: string)
    ensures StringLe(a, b) || StringLe(b, a)
    ensures StringLe(a, b) && StringLe(b, a) ==> a == b
  {
    if a != "" && b != "" && a[0] == b[0] {
      StringLeTotal(a[1..], b[1..]);
      assert a == [a[0]] + a[1..] && b == [b[0]] + b[1..];
    }
  }

  lemma {:induction false} StringLeTransitive(a: string, b: string, c: string)
    requires StringLe(a, b) && StringLe(b, c)
    ensures StringLe(a, c)
  {
    if a != "" && a[0] == b[0] && b[0] == c[0] {
      StringLeTransitive(a[1..], b[1..], c[1..]);
    }
  }

  /** Prepending a least element. */
  lemma LeastOfTwo(a: string, m: string, rest: set<string>)
    requires m in rest && forall x :: x in rest ==> StringLe(m, x)
    ensures exists k :: k in rest + {a} && forall x :: x in rest + {a} ==> StringLe(k, x)
  {
    StringLeTotal(a, m);
    StringLeTotal(a, a);
    if StringLe(a, m) {
      forall x | x in rest ensures StringLe(a, x) { StringLeTransitive(a, m, x); }
      assert a in rest + {a};
    } else {
      assert m in rest + {a};
    }
  }

  lemma {:induction false} LeastName(s: set<string>)
    requires s != {}
    ensures exists m :: m in s && forall x :: x in s ==> StringLe(m, x)
    decreases |s|
  {
    var a := Pick(s);
    var rest := s - {a};
    assert s == rest + {a};
    if rest != {} {
      LeastName(rest);
      var m :| m in rest && forall x :: x in rest ==> StringLe(m, x);
      LeastOfTwo(a, m, rest);
    } else {
      StringLeTotal(a, a);
      assert a in s && forall x :: x in s ==> StringLe(a, x);
    }
  }

  lemma {:induction false} LeastFd(s: set<int>)
    requires s != {}
    ensures exists m :: m in s && forall x :: x in s ==> m <= x
    decreases |s|
  {
    var a := Pick(s);
    var rest := s - {a};
    assert s == rest + {a};
    if rest != {} {
      LeastFd(rest);
      var m :| m in rest && forall x :: x in rest ==> m <= x;
      var k := LowestOfTwo(a, m, rest);
      assert k in s;
    } else {
      assert a in s && forall x :: x in s ==> a <= x;
    }
  }

  lemma LowestOfTwo(a: int, m: int, rest: set<int>) returns (k: int)
    requires m in rest && forall x :: x in rest ==> m <= x
    ensures k in rest + {a} && forall x :: x in rest + {a} ==> k <= x
  {
    k := if a <= m then a else m;
  }

  lemma UniqueLeastName(s: set<string>)
    ensures forall a, b :: a in s && b in s && (forall x :: x in s ==> StringLe(a, x)) && (forall x :: x in s ==> StringLe(b, x)) ==> a == b
  {
    forall a, b | a in s && b in s && (forall x :: x in s ==> StringLe(a, x)) && (forall x :: x in s ==> StringLe(b, x))
      ensures a == b
    {
      StringLeTotal(a, b);
    }
  }

  function First(s: set<string>): (m: string)
    requires s != {}
    ensures m in s && forall x :: x in s ==> StringLe(m, x)
  {
    LeastName(s);
    UniqueLeastName(s);
    var m :| m in s && forall x :: x in s ==> StringLe(m, x);
    m
  }

  /** The names of a set in ascending order. */
  function Names(s: set<string>): (q: seq<string>)
    ensures Lists(q, s)
    ensures forall i, j :: 0 <= i < j < |q| ==> StringLe(q[i], q[j])
    decreases |s|
  {
    if s == {} then []
    else
      var m := First(s);
      [m] + Names(s - {m})
  }

  function Least(s: set<int>): (m: int)
    requires s != {}
    ensures m in s && forall x :: x in s ==> m <= x
  {
    LeastFd(s);
    var m :| m in s && forall x :: x in s ==> m <= x;
    m
  }

  /** The descriptors of a set in ascending order. */
  function Fds(s: set<int>): (q: seq<int>)
    ensures Lists(q, s)
    ensures forall i, j :: 0 <= i < j < |q| ==> q[i] < q[j]
    decreases |s|
  {
    if s == {} then []
    else
      var m := Least(s);
      [m] + Fds(s - {m})
  }

  /** A strictly ascending listing of a set is its enumeration. */
  lemma {:induction false} AscendingIsFds(q: seq<int>, s: set<int>)
    requires forall i, j :: 0 <= i < j < |q| ==> q[i] < q[j]
    requires forall i :: 0 <= i < |q| ==> q[i] in s
    requires forall x :: x in s ==> exists i :: 0 <= i < |q| && q[i] == x
    ensures q == Fds(s)
  {
    if s != {} {
      var m := Least(s);
      var i :| 0 <= i < |q| && q[i] == m;
      assert q[0] == m;
      var rest := s - {m};
      forall x | x in rest ensures exists k :: 0 <= k < |q[1..]| && q[1..][k] == x {
        var j :| 0 <= j < |q| && q[j] == x;
        assert q[1..][j - 1] == x;
      }
      AscendingIsFds(q[1..], rest);
      assert q == [q[0]] + q[1..];
    }
  }
}
