/** Sorted listings of finite sets, as Python's `sorted(set)` gives them. */
module Ordering {

  ghost predicate Increasing(s: seq<int>) {
    forall i, j | 0 <= i < j < |s| :: s[i] < s[j]
  }

  function Elements<T>(s: seq<T>): set<T> {
    set x | x in s
  }

  ghost predicate NoDuplicates<T>(s: seq<T>) {
    forall i, j | 0 <= i < j < |s| :: s[i] != s[j]
  }

  ghost function Some<T>(s: set<T>): (x: T)
    requires s != {}
    ensures x in s
  {
    var x :| x in s;
    x
  }

  lemma {:induction false} LeastExists(s: set<int>) returns (m: int)
    requires s != {}
    ensures m in s && forall y | y in s :: m <= y
    decreases |s|
  {
    m := Some(s);
    var rest := s - {m};
    assert forall y | y in s :: y == m || y in rest;
    if rest != {} {
      var m' := LeastExists(rest);
      m := if m' < m then m' else m;
    }
  }

  function Least(s: set<int>): (m: int)
    requires s != {}
    ensures m in s && forall y | y in s :: m <= y
  {
    assert exists x :: x in s && forall y | y in s :: x <= y by {
      var m := LeastExists(s);
    }
    var x :| x in s && forall y | y in s :: x <= y;
    x
  }

  /** The elements of `s` in increasing order. */
  function Sorted(s: set<int>): (r: seq<int>)
    ensures Increasing(r)
    ensures forall x :: x in r <==> x in s
    ensures |r| == |s|
    decreases |s|
  {
    if s == {} then [] else
      var m := Least(s);
      [m] + Sorted(s - {m})
  }

  function IndexOf<T(==)>(s: seq<T>, x: T): (i: nat)
    requires x in s
    ensures i < |s| && s[i] == x
    ensures forall j | 0 <= j < i :: s[j] != x
  {
    if s[0] == x then 0 else 1 + IndexOf(s[1..], x)
  }

  lemma DistinctCons<T>(x: T, s: seq<T>)
    requires NoDuplicates(s) && forall i | 0 <= i < |s| :: s[i] != x
    ensures NoDuplicates([x] + s)
  {
  }
}
