/** The persistent counter of reservation ids: the next free id in 1..UINT64_MAX
    after the last one issued, wrapping at the end. */
module ReservationSequence {
  import opened Prelude

  const UINT64_MAX: nat := 0xFFFF_FFFF_FFFF_FFFF

  predicate IsId(id: int) {
    1 <= id <= UINT64_MAX
  }

  function Next(candidate: nat): nat {
    if candidate == UINT64_MAX then 1 else candidate + 1
  }

  /** The candidate after `k` turns of the search. */
  function Turn(last: nat, k: nat): nat {
    if k == 0 then last else Next(Turn(last, k - 1))
  }

  /** The id `k` places after `last` on the cycle. */
  function At(last: nat, k: nat): nat
    requires last <= UINT64_MAX && k <= UINT64_MAX
  {
    if last + k <= UINT64_MAX then last + k else last + k - UINT64_MAX
  }

  lemma {:induction false} TurnIsAt(last: nat, k: nat)
    requires last <= UINT64_MAX && k <= UINT64_MAX
    ensures Turn(last, k) == At(last, k)
  {
    if k > 0 {
      TurnIsAt(last, k - 1);
    }
  }

  /** The place of an id on the cycle after `last`. */
  function Place(last: nat, id: nat): (k: nat)
    requires last <= UINT64_MAX && IsId(id)
    ensures 1 <= k <= UINT64_MAX && At(last, k) == id
  {
    if id > last then id - last else UINT64_MAX - last + id
  }

  ghost predicate Full(active: set<int>) {
    forall id | IsId(id) :: id in active
  }

  /** The search leaves its loop at turn `k`: a free id, or back at the start. */
  ghost predicate Exits(last: nat, active: set<int>, k: nat) {
    k > 0 && (Turn(last, k) !in active || Turn(last, k) == last)
  }

  lemma {:induction false} TurnIsId(last: nat, k: nat)
    requires last <= UINT64_MAX && k > 0
    ensures IsId(Turn(last, k))
  {
    if k > 1 {
      TurnIsId(last, k - 1);
    }
  }

  /** The search ends exactly when an id is free or one was issued before. On a
      new sequence with every id active it goes round forever. */
  lemma SearchEnds(last: nat, active: set<int>)
    requires last <= UINT64_MAX
    ensures (exists k :: Exits(last, active, k)) <==> last > 0 || !Full(active)
  {
    if last > 0 {
      TurnIsAt(last, UINT64_MAX);
      assert Exits(last, active, UINT64_MAX);
    } else if !Full(active) {
      var id :| IsId(id) && id !in active;
      TurnIsAt(last, Place(last, id));
      assert Exits(last, active, Place(last, id));
    } else {
      forall k ensures !Exits(last, active, k) {
        if k > 0 {
          TurnIsId(last, k);
        }
      }
    }
  }

  /** The id at an absolute position of the counter, which never goes back. */
  function Spot(position: nat): nat {
    if position == 0 then 0 else (position - 1) % UINT64_MAX + 1
  }

  lemma SpotMoves(position: nat, k: nat)
    requires 1 <= k <= UINT64_MAX
    ensures Spot(position) <= UINT64_MAX && Spot(position + k) == At(Spot(position), k)
  {
    if position > 0 {
      var q, r := (position - 1) / UINT64_MAX, (position - 1) % UINT64_MAX;
      assert position - 1 == q * UINT64_MAX + r;
      if r + k < UINT64_MAX {
        assert (q * UINT64_MAX + (r + k)) % UINT64_MAX == r + k;
      } else {
        assert ((q + 1) * UINT64_MAX + (r + k - UINT64_MAX)) % UINT64_MAX == r + k - UINT64_MAX;
      }
    }
  }

  ghost predicate Rising(positions: seq<nat>) {
    forall i, j | 0 <= i < j < |positions| :: positions[i] < positions[j]
  }

  /** `issued` holds the position of every id issued, in order. */
  class Sequence {
    var last: nat
    ghost var position: nat
    ghost var issued: seq<nat>

    ghost predicate Valid()
      reads this
    {
      && last == Spot(position) <= UINT64_MAX
      && Rising(issued)
      && forall i | 0 <= i < |issued| :: 1 <= issued[i] <= position
    }

    /** Opens a stored counter, zero when the file is absent. */
    constructor (stored: nat)
      requires stored <= UINT64_MAX
      ensures Valid() && last == stored && issued == []
    {
      last, position, issued := stored, stored, [];
    }

    /** The next free id after the last one and how far on it is; none when the
        search comes back to where it began. */
    method Search(active: set<int>) returns (r: Option<nat>, ghost k: nat)
      requires Valid() && (last > 0 || !Full(active))
      ensures r.None? <==> Full(active)
      ensures r.Some? ==> 1 <= k <= UINT64_MAX && r.value == At(last, k) && r.value !in active
      ensures r.Some? ==> forall j | 1 <= j < k :: At(last, j) in active
    {
      var candidate := last;
      k := 0;
      while true
        invariant 0 <= k < UINT64_MAX && candidate == At(last, k)
        invariant forall j | 1 <= j <= k :: At(last, j) in active
        decreases UINT64_MAX - k
      {
        candidate := Next(candidate);
        k := k + 1;
        if candidate !in active {
          return Some(candidate), k;
        }
        if candidate == last {
          AllActive(last, active);
          return None, k;
        }
        if last == 0 && k == UINT64_MAX {
          AllActive(last, active);
          assert false;
        }
      }
    }

    /** The cyclically next free id, or none exactly when every id is active. */
    method Allocate(active: set<int>) returns (r: Option<nat>)
      requires Valid()
      requires last > 0 || !Full(active)
      modifies this
      ensures Valid()
      ensures r.None? <==> Full(active)
      ensures r.None? ==> last == old(last) && issued == old(issued)
      ensures r.Some? ==> IsId(r.value) && r.value !in active && last == r.value
      ensures r.Some? ==> forall k | 1 <= k < Place(old(last), r.value) :: At(old(last), k) in active
      ensures r.Some? ==>
                issued == old(issued) + [position] && Spot(position) == r.value
                    && position <= old(position) + UINT64_MAX
    {
      var found, k := Search(active);
      if found.None? {
        return None;
      }
      SpotMoves(position, k);
      last := found.value;
      position := position + k;
      issued := issued + [position];
      r := found;
    }
  }

  lemma AllActive(last: nat, active: set<int>)
    requires last <= UINT64_MAX && forall j | 1 <= j <= UINT64_MAX :: At(last, j) in active
    ensures Full(active)
  {
    forall id | IsId(id) ensures id in active {
      assert At(last, Place(last, id)) in active;
    }
  }

  /** An id is issued again only after the counter went once round the cycle. */
  lemma ReissueNeedsWrap(p: nat, q: nat)
    requires 1 <= p < q && Spot(p) == Spot(q)
    ensures q - p >= UINT64_MAX
  {
    var a, b := (p - 1) / UINT64_MAX, (q - 1) / UINT64_MAX;
    assert p - 1 == a * UINT64_MAX + (p - 1) % UINT64_MAX;
    assert q - 1 == b * UINT64_MAX + (q - 1) % UINT64_MAX;
    assert q - p == (b - a) * UINT64_MAX;
  }

  /** Over any run, ids issued within one round of the cycle are all different. */
  lemma NoReissueWithinRound(issued: seq<nat>, i: nat, j: nat)
    requires Rising(issued) && i < j < |issued| && issued[i] >= 1
    requires issued[j] - issued[i] < UINT64_MAX
    ensures Spot(issued[i]) != Spot(issued[j])
  {
    if Spot(issued[i]) == Spot(issued[j]) {
      ReissueNeedsWrap(issued[i], issued[j]);
    }
  }
}
