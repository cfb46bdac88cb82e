/** Python list comprehensions over one list, and permutations of lists. */
module Comprehensions {

  function Filter<T>(p: T -> bool, s: seq<T>): seq<T> {
    if s == [] then [] else (if p(s[0]) then [s[0]] else []) + Filter(p, s[1..])
  }

  lemma {:induction false} FilterIn<T>(p: T -> bool, s: seq<T>, x: T)
    ensures x in Filter(p, s) <==> x in s && p(x)
    decreases |s|
  {
    if s != [] {
      FilterIn(p, s[1..], x);
    }
  }

  lemma FilterMembers<T(!new)>(p: T -> bool, s: seq<T>)
    ensures forall x :: x in Filter(p, s) <==> x in s && p(x)
  {
    forall x ensures x in Filter(p, s) <==> x in s && p(x) {
      FilterIn(p, s, x);
    }
  }

  lemma {:induction false} FilterCounts<T>(p: T -> bool, s: seq<T>, x: T)
    ensures multiset(Filter(p, s))[x] == if p(x) then multiset(s)[x] else 0
    decreases |s|
  {
    if s != [] {
      FilterCounts(p, s[1..], x);
      assert s == [s[0]] + s[1..];
    }
  }

  lemma FilterOfPermutation<T(!new)>(p: T -> bool, s: seq<T>, t: seq<T>)
    requires multiset(s) == multiset(t)
    ensures multiset(Filter(p, s)) == multiset(Filter(p, t)) && |Filter(p, s)| == |Filter(p, t)|
  {
    forall x ensures multiset(Filter(p, s))[x] == multiset(Filter(p, t))[x] {
      FilterCounts(p, s, x);
      FilterCounts(p, t, x);
    }
    SameLength(Filter(p, s), Filter(p, t));
  }

  lemma SameLength<T>(s: seq<T>, t: seq<T>)
    requires multiset(s) == multiset(t)
    ensures |s| == |t|
  {
    assert |multiset(s)| == |s| && |multiset(t)| == |t|;
  }

  lemma InMultiset<T>(s: seq<T>, x: T)
    ensures x in s <==> x in multiset(s)
  {
  }

  lemma FilterCons<T>(p: T -> bool, x: T, s: seq<T>)
    ensures Filter(p, [x] + s) == if p(x) then [x] + Filter(p, s) else Filter(p, s)
  {
    assert ([x] + s)[1..] == s;
  }

  lemma {:induction false} FilterJoins<T>(p: T -> bool, a: seq<T>, b: seq<T>)
    ensures Filter(p, a + b) == Filter(p, a) + Filter(p, b)
    decreases |a|
  {
    if a == [] {
      assert a + b == b;
    } else {
      assert (a + b)[1..] == a[1..] + b;
      FilterJoins(p, a[1..], b);
      Regroup(if p(a[0]) then [a[0]] else [], Filter(p, a[1..]), Filter(p, b));
    }
  }

  lemma Regroup<T>(a: seq<T>, b: seq<T>, c: seq<T>)
    ensures (a + b) + c == a + (b + c)
  {
  }

  lemma FilterAppends<T>(p: T -> bool, s: seq<T>, x: T)
    ensures Filter(p, s + [x]) == Filter(p, s) + if p(x) then [x] else []
  {
    FilterJoins(p, s, [x]);
    FilterCons(p, x, []);
    assert [x] + [] == [x];
  }

  lemma {:induction false} FilterAllOrNone<T>(p: T -> bool, s: seq<T>, all: bool)
    requires forall i | 0 <= i < |s| :: p(s[i]) == all
    ensures Filter(p, s) == if all then s else []
    decreases |s|
  {
    if s != [] {
      FilterAllOrNone(p, s[1..], all);
      FilterCons(p, s[0], s[1..]);
      assert s == [s[0]] + s[1..];
    }
  }

  /** The first element kept, and what is kept without it. */
  lemma FilterHead<T>(p: T -> bool, front: seq<T>, x: T, back: seq<T>)
    requires p(x) && forall i | 0 <= i < |front| :: !p(front[i])
    ensures Filter(p, front + ([x] + back)) == [x] + Filter(p, front + back)
  {
    FilterJoins(p, front, [x] + back);
    FilterJoins(p, front, back);
    FilterAllOrNone(p, front, false);
    FilterCons(p, x, back);
    assert [] + Filter(p, back) == Filter(p, back);
  }

  lemma FilterSkips<T>(p: T -> bool, front: seq<T>, x: T, back: seq<T>)
    requires !p(x)
    ensures Filter(p, front + ([x] + back)) == Filter(p, front + back)
  {
    FilterJoins(p, front, [x] + back);
    FilterJoins(p, front, back);
    FilterCons(p, x, back);
  }

  lemma WithoutOne<T>(x: T, a: seq<T>, front: seq<T>, back: seq<T>)
    requires multiset([x] + a) == multiset(front + ([x] + back))
    ensures multiset(a) == multiset(front + back)
  {
    assert multiset([x] + a) == multiset{x} + multiset(a);
    assert multiset(front + ([x] + back)) == multiset(front) + (multiset{x} + multiset(back));
    assert multiset(front + back) == multiset(front) + multiset(back);
    Cancel(multiset{x}, multiset(a), multiset(front + back));
  }

  lemma Cancel<T>(x: multiset<T>, a: multiset<T>, b: multiset<T>)
    requires x + a == x + b
    ensures a == b
  {
    assert a == (x + a) - x && b == (x + b) - x;
  }

  /** `[s[i] for i in indices]`. */
  function Select<T>(s: seq<T>, indices: seq<nat>): (r: seq<T>)
    requires forall k | 0 <= k < |indices| :: indices[k] < |s|
    ensures |r| == |indices|
  {
    seq(|indices|, k requires 0 <= k < |indices| => s[indices[k]])
  }
}
