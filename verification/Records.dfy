/** Bounded records by circuit id, oldest out first: the job records of a driver
    and the library each circuit ran through. An ordered dictionary is the
    sequence of its items. */
module Records {
  import opened Prelude

  /** A circuit id as the key text `str(cid)`. */
  type Cid = string

  datatype Entry<V> = Entry(cid: Cid, value: V)

  // ------------------------------------------------------------ ordered dictionaries

  function Keys<V>(d: seq<Entry<V>>): set<Cid> {
    if d == [] then {} else {d[0].cid} + Keys(d[1..])
  }

  ghost predicate Distinct<V>(d: seq<Entry<V>>) {
    d != [] ==> d[0].cid !in Keys(d[1..]) && Distinct(d[1..])
  }

  function Find<V>(d: seq<Entry<V>>, cid: Cid): Option<V> {
    if d == [] then None else if d[0].cid == cid then Some(d[0].value) else Find(d[1..], cid)
  }

  function Without<V>(d: seq<Entry<V>>, cid: Cid): seq<Entry<V>> {
    if d == [] then []
    else if d[0].cid == cid then Without(d[1..], cid)
    else [d[0]] + Without(d[1..], cid)
  }

  /** The last `limit` items. */
  function Newest<V>(d: seq<Entry<V>>, limit: nat): seq<Entry<V>> {
    if |d| <= limit then d else d[|d| - limit..]
  }

  // ----------------------------------------------------------------------- histories

  /** The value of the last put of `cid`. */
  function Latest<V>(history: seq<Entry<V>>, cid: Cid): Option<V> {
    if history == [] then None
    else if history[|history| - 1].cid == cid then Some(history[|history| - 1].value)
    else Latest(history[..|history| - 1], cid)
  }

  /** The distinct other cids put since `cid` was last put. */
  function Since<V>(history: seq<Entry<V>>, cid: Cid): set<Cid> {
    if history == [] || history[|history| - 1].cid == cid then {}
    else Since(history[..|history| - 1], cid) + {history[|history| - 1].cid}
  }

  /** `cid` is among the `limit` most recently put distinct cids. */
  predicate Recent<V>(history: seq<Entry<V>>, cid: Cid, limit: nat) {
    Latest(history, cid).Some? && |Since(history, cid)| < limit
  }

  /** Every cid ever put once, by its last put, oldest first: the records with no bound. */
  function Unbounded<V>(history: seq<Entry<V>>): seq<Entry<V>> {
    if history == [] then []
    else
      var e := history[|history| - 1];
      Without(Unbounded(history[..|history| - 1]), e.cid) + [e]
  }

  // ----------------------------------------------------------- dictionary lemmas

  lemma {:induction false} WithoutKeys<V>(d: seq<Entry<V>>, cid: Cid)
    ensures Keys(Without(d, cid)) == Keys(d) - {cid}
    ensures Distinct(d) ==> Distinct(Without(d, cid))
    decreases |d|
  {
    if d != [] {
      WithoutKeys(d[1..], cid);
      if d[0].cid != cid {
        assert Without(d, cid)[1..] == Without(d[1..], cid);
      }
    }
  }

  lemma {:induction false} KeysAppend<V>(d: seq<Entry<V>>, e: Entry<V>)
    ensures Keys(d + [e]) == Keys(d) + {e.cid}
    ensures Distinct(d) && e.cid !in Keys(d) ==> Distinct(d + [e])
    decreases |d|
  {
    if d == [] {
      assert (d + [e])[1..] == [];
    } else {
      assert (d + [e])[1..] == d[1..] + [e];
      KeysAppend(d[1..], e);
    }
  }

  lemma {:induction false} FindAppend<V>(d: seq<Entry<V>>, e: Entry<V>, cid: Cid)
    ensures Find(d + [e], cid) ==
              if Find(d, cid).Some? then Find(d, cid) else if e.cid == cid then Some(e.value) else None
    decreases |d|
  {
    if d == [] {
      assert (d + [e])[1..] == [];
    } else {
      assert (d + [e])[1..] == d[1..] + [e];
      FindAppend(d[1..], e, cid);
    }
  }

  lemma {:induction false} FindWithout<V>(d: seq<Entry<V>>, cid: Cid, other: Cid)
    ensures Find(Without(d, cid), other) == if other == cid then None else Find(d, other)
    decreases |d|
  {
    if d != [] {
      FindWithout(d[1..], cid, other);
      if d[0].cid != cid {
        assert Without(d, cid)[1..] == Without(d[1..], cid);
      }
    }
  }

  lemma {:induction false} FindIsKey<V>(d: seq<Entry<V>>, cid: Cid)
    ensures Find(d, cid).Some? <==> cid in Keys(d)
    decreases |d|
  {
    if d != [] {
      FindIsKey(d[1..], cid);
    }
  }

  lemma {:induction false} KeysCount<V>(d: seq<Entry<V>>)
    requires Distinct(d)
    ensures |Keys(d)| == |d|
    decreases |d|
  {
    if d != [] {
      KeysCount(d[1..]);
    }
  }

  lemma {:induction false} WithoutAbsent<V>(d: seq<Entry<V>>, cid: Cid)
    requires cid !in Keys(d)
    ensures Without(d, cid) == d
    decreases |d|
  {
    if d != [] {
      WithoutAbsent(d[1..], cid);
    }
  }

  lemma {:induction false} WithoutLength<V>(d: seq<Entry<V>>, cid: Cid)
    requires Distinct(d)
    ensures |d| - 1 <= |Without(d, cid)| <= |d|
    decreases |d|
  {
    if d != [] {
      WithoutLength(d[1..], cid);
      if d[0].cid == cid {
        WithoutAbsent(d[1..], cid);
      }
    }
  }

  lemma {:induction false} WithoutJoins<V>(a: seq<Entry<V>>, b: seq<Entry<V>>, cid: Cid)
    ensures Without(a + b, cid) == Without(a, cid) + Without(b, cid)
    decreases |a|
  {
    if a == [] {
      assert a + b == b;
    } else {
      assert (a + b)[1..] == a[1..] + b;
      WithoutJoins(a[1..], b, cid);
    }
  }

  lemma {:induction false} DistinctTail<V>(d: seq<Entry<V>>, n: nat)
    requires Distinct(d) && n <= |d|
    ensures Distinct(d[n..])
    decreases n
  {
    if n == 0 {
      assert d[n..] == d;
    } else {
      DistinctTail(d[1..], n - 1);
      assert d[1..][n - 1..] == d[n..];
    }
  }

  // ----------------------------------------------------------------- keys behind a key

  /** The keys after `cid` in the dictionary's order. */
  function Behind<V>(d: seq<Entry<V>>, cid: Cid): set<Cid> {
    if d == [] then {} else if d[0].cid == cid then Keys(d[1..]) else Behind(d[1..], cid)
  }

  lemma {:induction false} BehindAfterPut<V>(d: seq<Entry<V>>, e: Entry<V>, cid: Cid)
    requires cid in Keys(d) && cid != e.cid
    ensures Behind(Without(d, e.cid) + [e], cid) == Behind(d, cid) + {e.cid}
    decreases |d|
  {
    var now := Without(d, e.cid) + [e];
    if d[0].cid == e.cid {
      BehindAfterPut(d[1..], e, cid);
    } else {
      assert now[1..] == Without(d[1..], e.cid) + [e];
      if d[0].cid == cid {
        WithoutKeys(d[1..], e.cid);
        KeysAppend(Without(d[1..], e.cid), e);
      } else {
        BehindAfterPut(d[1..], e, cid);
      }
    }
  }

  lemma {:induction false} BehindLast<V>(d: seq<Entry<V>>, e: Entry<V>)
    requires e.cid !in Keys(d)
    ensures Behind(d + [e], e.cid) == {}
    decreases |d|
  {
    if d == [] {
      assert (d + [e])[1..] == [];
    } else {
      assert (d + [e])[1..] == d[1..] + [e];
      BehindLast(d[1..], e);
    }
  }

  /** An item survives in the last `limit` exactly when fewer than `limit` keys
      are behind it. */
  lemma {:induction false} FindInNewest<V>(d: seq<Entry<V>>, cid: Cid, limit: nat)
    requires Distinct(d)
    ensures Find(Newest(d, limit), cid) == if |Behind(d, cid)| < limit then Find(d, cid) else None
    decreases |d|
  {
    if d == [] {
    } else if |d| <= limit {
      BehindIsShort(d, cid);
    } else {
      FindInNewest(d[1..], cid, limit);
      assert Newest(d, limit) == Newest(d[1..], limit);
      if d[0].cid == cid {
        KeysCount(d[1..]);
        FindIsKey(d[1..], cid);
      }
    }
  }

  lemma {:induction false} BehindIsShort<V>(d: seq<Entry<V>>, cid: Cid)
    requires Distinct(d) && d != []
    ensures |Behind(d, cid)| < |d|
    decreases |d|
  {
    if d[0].cid == cid {
      KeysCount(d[1..]);
    } else if d[1..] != [] {
      BehindIsShort(d[1..], cid);
    }
  }

  // ------------------------------------------------------------ the unbounded records

  /** With no bound, a lookup returns the latest put, and the keys behind a cid
      are those put since. */
  lemma {:induction false} UnboundedIsLatest<V>(history: seq<Entry<V>>, cid: Cid)
    ensures Distinct(Unbounded(history))
    ensures Find(Unbounded(history), cid) == Latest(history, cid)
    ensures cid in Keys(Unbounded(history)) ==> Behind(Unbounded(history), cid) == Since(history, cid)
    decreases |history|
  {
    if history != [] {
      var e, before := history[|history| - 1], history[..|history| - 1];
      UnboundedIsLatest(before, cid);
      PutOnce(Unbounded(before), e, cid);
    }
  }

  lemma PutOnce<V>(d: seq<Entry<V>>, e: Entry<V>, cid: Cid)
    requires Distinct(d)
    ensures
      var now := Without(d, e.cid) + [e];
      && Distinct(now)
      && Find(now, cid) == (if e.cid == cid then Some(e.value) else Find(d, cid))
      && Keys(now) == Keys(d) + {e.cid}
      && (cid in Keys(now) ==> Behind(now, cid) == if e.cid == cid then {} else Behind(d, cid) + {e.cid})
  {
    var rest := Without(d, e.cid);
    WithoutKeys(d, e.cid);
    KeysAppend(rest, e);
    FindAppend(rest, e, cid);
    FindWithout(d, e.cid, cid);
    if e.cid == cid {
      BehindLast(rest, e);
    } else if cid in Keys(d) {
      BehindAfterPut(d, e, cid);
    }
  }

  // -------------------------------------------------------------- the bounded records

  /** Putting into the bounded records and into the unbounded ones keep the same
      last `limit` items. */
  lemma PutKeepsNewest<V>(d: seq<Entry<V>>, e: Entry<V>, limit: nat)
    requires Distinct(d)
    ensures Newest(Without(Newest(d, limit), e.cid) + [e], limit) == Newest(Without(d, e.cid) + [e], limit)
  {
    if |d| > limit {
      var a, b := d[..|d| - limit], d[|d| - limit..];
      assert d == a + b;
      DistinctTail(d, |d| - limit);
      SuffixAfterPut(a, b, e, limit);
    }
  }

  lemma SuffixAfterPut<V>(a: seq<Entry<V>>, b: seq<Entry<V>>, e: Entry<V>, limit: nat)
    requires |b| == limit && Distinct(b)
    ensures Newest(Without(b, e.cid) + [e], limit) == Newest(Without(a + b, e.cid) + [e], limit)
  {
    var front, back := Without(a, e.cid), Without(b, e.cid);
    WithoutJoins(a, b, e.cid);
    WithoutLength(b, e.cid);
    assert (front + back) + [e] == front + (back + [e]);
    SuffixDecides(front, back + [e], limit);
  }

  lemma SuffixDecides<V>(a: seq<Entry<V>>, b: seq<Entry<V>>, limit: nat)
    requires |b| >= limit
    ensures Newest(a + b, limit) == Newest(b, limit)
  {
  }

  /** A lookup returns the latest entry of a cid exactly when the cid is among
      the `limit` most recently put distinct ones. */
  lemma LookupIsRecent<V>(history: seq<Entry<V>>, cid: Cid, limit: nat)
    ensures Find(Newest(Unbounded(history), limit), cid) ==
              if Recent(history, cid, limit) then Latest(history, cid) else None
  {
    UnboundedIsLatest(history, cid);
    FindInNewest(Unbounded(history), cid, limit);
    FindIsKey(Unbounded(history), cid);
  }

  /** `history` is every put so far; the items are a bounded window of it. */
  class Bounded<V> {
    const limit: nat
    var items: seq<Entry<V>>
    ghost var history: seq<Entry<V>>

    ghost predicate Valid()
      reads this
    {
      items == Newest(Unbounded(history), limit)
    }

    constructor (limit: nat)
      ensures Valid() && history == [] && this.limit == limit
    {
      this.limit := limit;
      items, history := [], [];
    }

    /** Assigns the item, moves it to the end, and drops the oldest while the
        records are over their limit. A missing cid is ignored. */
    method Put(cid: Option<Cid>, value: V)
      requires Valid()
      modifies this
      ensures Valid()
      ensures history == if cid.None? then old(history) else old(history) + [Entry(cid.value, value)]
    {
      if cid.None? {
        return;
      }
      ghost var before := history;
      var e := Entry(cid.value, value);
      items := Without(Assign(items, e), e.cid) + [e];
      AssignThenMove(old(items), e);
      while |items| > limit
        invariant Newest(items, limit) == Newest(Without(old(items), e.cid) + [e], limit)
        invariant history == before
      {
        items := items[1..];
      }
      history := history + [e];
      assert history[..|history| - 1] == before;
      UnboundedIsLatest(before, e.cid);
      PutKeepsNewest(Unbounded(before), e, limit);
    }

    /** The latest entry of `cid`, exactly when it is recent enough; otherwise
        the lookup fails. */
    method Get(cid: Option<Cid>) returns (r: Option<V>)
      requires Valid()
      ensures r == if cid.Some? && Recent(history, cid.value, limit) then Latest(history, cid.value) else None
    {
      if cid.None? {
        return None;
      }
      LookupIsRecent(history, cid.value, limit);
      r := Find(items, cid.value);
    }
  }

  /** Assigning a key keeps its place, or appends it. */
  function Assign<V>(d: seq<Entry<V>>, e: Entry<V>): seq<Entry<V>> {
    if d == [] then [e] else if d[0].cid == e.cid then [e] + d[1..] else [d[0]] + Assign(d[1..], e)
  }

  lemma {:induction false} AssignThenMove<V>(d: seq<Entry<V>>, e: Entry<V>)
    ensures Without(Assign(d, e), e.cid) == Without(d, e.cid)
    decreases |d|
  {
    if d == [] {
      assert Without([e], e.cid) == Without([e][1..], e.cid);
    } else if d[0].cid == e.cid {
      assert Assign(d, e)[1..] == d[1..];
    } else {
      assert Assign(d, e)[1..] == Assign(d[1..], e);
      AssignThenMove(d[1..], e);
    }
  }
}
