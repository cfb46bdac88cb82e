/** Stable sorting by rank, and how it commutes with list comprehensions. */
module Sorting {
  import opened Comprehensions

  datatype Rank = Rank(scope: nat, priority: int)

  /** An earlier scope is better; within a scope, a higher priority. */
  predicate Better(a: Rank, b: Rank) {
    a.scope < b.scope || (a.scope == b.scope && a.priority > b.priority)
  }

  predicate NoWorse(a: Rank, b: Rank) {
    a == b || Better(a, b)
  }

  lemma NoWorseChains(a: Rank, b: Rank, c: Rank)
    requires NoWorse(a, b) && NoWorse(b, c)
    ensures NoWorse(a, c)
  {
  }

  // ------------------------------------------------------------------------- sorting

  /** Placed before every element of equal or worse rank. */
  function Insert<T>(rank: T -> Rank, c: T, rest: seq<T>): seq<T> {
    if rest == [] then [c]
    else if NoWorse(rank(c), rank(rest[0])) then [c] + rest
    else [rest[0]] + Insert(rank, c, rest[1..])
  }

  /** `sorted` by rank, elements of one rank keeping their order. */
  function Ordered<T>(rank: T -> Rank, s: seq<T>): seq<T> {
    if s == [] then [] else Insert(rank, s[0], Ordered(rank, s[1..]))
  }

  lemma {:induction false} InsertPermutes<T>(rank: T -> Rank, c: T, rest: seq<T>)
    ensures multiset(Insert(rank, c, rest)) == multiset(rest) + multiset{c}
    decreases |rest|
  {
    if rest != [] {
      InsertPermutes(rank, c, rest[1..]);
      assert rest == [rest[0]] + rest[1..];
    }
  }

  lemma {:induction false} OrderedPermutes<T>(rank: T -> Rank, s: seq<T>)
    ensures multiset(Ordered(rank, s)) == multiset(s)
    decreases |s|
  {
    if s != [] {
      OrderedPermutes(rank, s[1..]);
      InsertPermutes(rank, s[0], Ordered(rank, s[1..]));
      assert s == [s[0]] + s[1..];
    }
  }

  ghost predicate NoneBetter<T>(rank: T -> Rank, best: Rank, s: seq<T>) {
    forall i | 0 <= i < |s| :: NoWorse(best, rank(s[i]))
  }

  ghost predicate IsOrdered<T>(rank: T -> Rank, s: seq<T>) {
    s != [] ==> NoneBetter(rank, rank(s[0]), s[1..]) && IsOrdered(rank, s[1..])
  }

  lemma {:induction false} InsertIsNoneBetter<T>(rank: T -> Rank, best: Rank, c: T, rest: seq<T>)
    requires NoneBetter(rank, best, rest) && NoWorse(best, rank(c))
    ensures NoneBetter(rank, best, Insert(rank, c, rest))
    decreases |rest|
  {
    if rest != [] {
      assert NoneBetter(rank, best, rest[1..]);
      InsertIsNoneBetter(rank, best, c, rest[1..]);
    }
  }

  lemma NoneBetterChains<T>(rank: T -> Rank, a: Rank, b: Rank, s: seq<T>)
    requires NoWorse(a, b) && NoneBetter(rank, b, s)
    ensures NoneBetter(rank, a, s)
  {
    forall i | 0 <= i < |s| ensures NoWorse(a, rank(s[i])) {
      NoWorseChains(a, b, rank(s[i]));
    }
  }

  lemma {:induction false} InsertKeepsOrder<T>(rank: T -> Rank, c: T, rest: seq<T>)
    requires IsOrdered(rank, rest)
    ensures IsOrdered(rank, Insert(rank, c, rest))
    decreases |rest|
  {
    var r := Insert(rank, c, rest);
    if rest == [] {
      assert r[1..] == [];
    } else if NoWorse(rank(c), rank(rest[0])) {
      assert r[1..] == rest;
      NoneBetterChains(rank, rank(c), rank(rest[0]), rest[1..]);
    } else {
      InsertKeepsOrder(rank, c, rest[1..]);
      assert r[1..] == Insert(rank, c, rest[1..]);
      InsertIsNoneBetter(rank, rank(rest[0]), c, rest[1..]);
    }
  }

  lemma {:induction false} OrderedIsOrdered<T>(rank: T -> Rank, s: seq<T>)
    ensures IsOrdered(rank, Ordered(rank, s))
    decreases |s|
  {
    if s != [] {
      OrderedIsOrdered(rank, s[1..]);
      InsertKeepsOrder(rank, s[0], Ordered(rank, s[1..]));
    }
  }

  // -------------------------------------------------------- sorting and filtering commute

  lemma {:induction false} FilterIsNoneBetter<T>(p: T -> bool, rank: T -> Rank, best: Rank, s: seq<T>)
    requires NoneBetter(rank, best, s)
    ensures NoneBetter(rank, best, Filter(p, s))
    decreases |s|
  {
    if s != [] {
      assert NoneBetter(rank, best, s[1..]);
      FilterIsNoneBetter(p, rank, best, s[1..]);
    }
  }

  lemma InsertInFront<T>(rank: T -> Rank, c: T, s: seq<T>)
    requires NoneBetter(rank, rank(c), s)
    ensures Insert(rank, c, s) == [c] + s
  {
  }

  lemma InsertBehind<T>(rank: T -> Rank, c: T, x: T, s: seq<T>)
    requires !NoWorse(rank(c), rank(x))
    ensures Insert(rank, c, [x] + s) == [x] + Insert(rank, c, s)
  {
    assert ([x] + s)[1..] == s;
  }

  /** Inserting and filtering commute for one element and one list. */
  ghost predicate Commutes<T>(p: T -> bool, rank: T -> Rank, c: T, s: seq<T>) {
    Filter(p, Insert(rank, c, s)) == if p(c) then Insert(rank, c, Filter(p, s)) else Filter(p, s)
  }

  lemma CommutesInFront<T>(p: T -> bool, rank: T -> Rank, c: T, s: seq<T>)
    requires NoneBetter(rank, rank(c), s)
    ensures Commutes(p, rank, c, s)
  {
    InsertInFront(rank, c, s);
    FilterCons(p, c, s);
    FilterIsNoneBetter(p, rank, rank(c), s);
    InsertInFront(rank, c, Filter(p, s));
  }

  lemma CommutesBehind<T>(p: T -> bool, rank: T -> Rank, c: T, x: T, tail: seq<T>)
    requires !NoWorse(rank(c), rank(x)) && Commutes(p, rank, c, tail)
    ensures Commutes(p, rank, c, [x] + tail)
  {
    InsertBehind(rank, c, x, tail);
    FilterCons(p, x, Insert(rank, c, tail));
    FilterCons(p, x, tail);
    InsertBehind(rank, c, x, Filter(p, tail));
  }

  lemma {:induction false} FilterOfInsert<T>(p: T -> bool, rank: T -> Rank, c: T, rest: seq<T>)
    requires IsOrdered(rank, rest)
    ensures Commutes(p, rank, c, rest)
    decreases |rest|
  {
    if rest == [] {
      CommutesInFront(p, rank, c, rest);
    } else if NoWorse(rank(c), rank(rest[0])) {
      NoneBetterChains(rank, rank(c), rank(rest[0]), rest[1..]);
      CommutesInFront(p, rank, c, rest);
    } else {
      FilterOfInsert(p, rank, c, rest[1..]);
      CommutesBehind(p, rank, c, rest[0], rest[1..]);
      assert rest == [rest[0]] + rest[1..];
    }
  }

  /** A comprehension over the sorted list is the sorted comprehension. */
  lemma {:induction false} FilterOfOrdered<T>(p: T -> bool, rank: T -> Rank, s: seq<T>)
    ensures Filter(p, Ordered(rank, s)) == Ordered(rank, Filter(p, s))
    decreases |s|
  {
    if s != [] {
      FilterOfOrdered(p, rank, s[1..]);
      OrderedIsOrdered(rank, s[1..]);
      FilterOfInsert(p, rank, s[0], Ordered(rank, s[1..]));
      assert s == [s[0]] + s[1..];
      FilterCons(p, s[0], s[1..]);
      OrderedCons(rank, s[0], Filter(p, s[1..]));
    }
  }

  lemma OrderedCons<T>(rank: T -> Rank, x: T, s: seq<T>)
    ensures Ordered(rank, [x] + s) == Insert(rank, x, Ordered(rank, s))
  {
    assert ([x] + s)[1..] == s;
  }

  lemma OrderedEmpty<T>(rank: T -> Rank, s: seq<T>)
    ensures Ordered(rank, s) == [] <==> s == []
  {
    OrderedPermutes(rank, s);
    SameLength(Ordered(rank, s), s);
  }

  // --------------------------------------------------------------------- unique best

  function WithRank<T>(rank: T -> Rank, r: Rank): T -> bool {
    (x: T) => rank(x) == r
  }

  /** How many elements have the rank `r`. */
  function Ties<T>(rank: T -> Rank, r: Rank, s: seq<T>): nat {
    |Filter(WithRank(rank, r), s)|
  }

  ghost predicate Best<T>(rank: T -> Rank, s: seq<T>, c: T) {
    c in s && NoneBetter(rank, rank(c), s)
  }

  /** `c` is the one element of the best rank. */
  ghost predicate UniqueBest<T>(rank: T -> Rank, s: seq<T>, c: T) {
    Best(rank, s, c) && Ties(rank, rank(c), s) == 1
  }

  /** The sorted list starts with the first element of the best rank. */
  lemma {:induction false} FirstOfBestRank<T>(rank: T -> Rank, s: seq<T>) returns (i: nat)
    requires s != []
    ensures i < |s| && Ordered(rank, s) != [] && Ordered(rank, s)[0] == s[i]
    ensures forall j | 0 <= j < i :: Better(rank(s[i]), rank(s[j]))
    ensures NoneBetter(rank, rank(s[i]), s)
    decreases |s|
  {
    i := 0;
    if |s| > 1 {
      var tail := s[1..];
      var k := FirstOfBestRank(rank, tail);
      assert forall j | 1 <= j < |s| :: s[j] == tail[j - 1];
      if NoWorse(rank(s[0]), rank(tail[k])) {
        NoneBetterChains(rank, rank(s[0]), rank(tail[k]), tail);
      } else {
        i := k + 1;
      }
    }
  }

  lemma TiesOfPermutation<T(!new)>(rank: T -> Rank, r: Rank, s: seq<T>, t: seq<T>)
    requires multiset(s) == multiset(t)
    ensures Ties(rank, r, s) == Ties(rank, r, t)
  {
    FilterOfPermutation(WithRank(rank, r), s, t);
  }

  lemma TiedIsOne<T>(rank: T -> Rank, s: seq<T>, a: T, b: T)
    requires a in s && b in s && rank(a) == rank(b)
    ensures Ties(rank, rank(a), s) >= 1
    ensures Ties(rank, rank(a), s) == 1 ==> a == b
  {
    FilterIn(WithRank(rank, rank(a)), s, a);
    FilterIn(WithRank(rank, rank(a)), s, b);
  }

  lemma BestOfPermutation<T>(rank: T -> Rank, s: seq<T>, t: seq<T>, c: T)
    requires multiset(s) == multiset(t) && Best(rank, s, c)
    ensures Best(rank, t, c)
  {
    InMultiset(s, c);
    InMultiset(t, c);
    forall i | 0 <= i < |t| ensures NoWorse(rank(c), rank(t[i])) {
      InMultiset(t, t[i]);
      InMultiset(s, t[i]);
      var j :| 0 <= j < |s| && s[j] == t[i];
    }
  }

  lemma UniqueBestOfPermutation<T(!new)>(rank: T -> Rank, s: seq<T>, t: seq<T>, c: T)
    requires multiset(s) == multiset(t) && UniqueBest(rank, s, c)
    ensures UniqueBest(rank, t, c)
  {
    BestOfPermutation(rank, s, t, c);
    TiesOfPermutation(rank, rank(c), s, t);
  }

  lemma SameBestRank<T>(rank: T -> Rank, s: seq<T>, a: T, b: T)
    requires Best(rank, s, a) && Best(rank, s, b)
    ensures rank(a) == rank(b)
  {
    var i :| 0 <= i < |s| && s[i] == a;
    var j :| 0 <= j < |s| && s[j] == b;
    assert NoWorse(rank(a), rank(s[j])) && NoWorse(rank(b), rank(s[i]));
  }

  lemma HeadIsBest<T>(rank: T -> Rank, s: seq<T>)
    requires s != []
    ensures Ordered(rank, s) != [] && Best(rank, s, Ordered(rank, s)[0])
  {
    var i := FirstOfBestRank(rank, s);
    assert s[i] in s;
  }

  /** The head of the sorted list has a rank of its own exactly when it is the
      unique best. */
  lemma HeadIsUniqueBest<T(!new)>(rank: T -> Rank, s: seq<T>, c: T)
    requires s != [] && Ordered(rank, s) != []
    ensures
      var sorted := Ordered(rank, s);
      sorted[0] == c && Ties(rank, rank(sorted[0]), sorted) <= 1 <==> UniqueBest(rank, s, c)
  {
    var sorted := Ordered(rank, s);
    var head := sorted[0];
    HeadIsBest(rank, s);
    OrderedPermutes(rank, s);
    TiesOfPermutation(rank, rank(head), sorted, s);
    TiedIsOne(rank, s, head, head);
    if UniqueBest(rank, s, c) {
      SameBestRank(rank, s, c, head);
      TiedIsOne(rank, s, c, head);
    }
  }
}
