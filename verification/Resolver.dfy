/** Choosing one quantum platform manager among the discovered candidates. The
    candidates are listed in discovery order, so a candidate's discovery index is
    its position. */
module Resolver {
  import opened Prelude
  import opened Comprehensions
  import opened Sorting
  import opened Text

  type Name = string

  const HARDWARE_BIT := 1
  const SIMULATOR_BIT := 2
  const SIMULATOR_PROVIDERS := {"simulator", "nwqsim", "tnqvm", "qb"}

  /** `qpmType` is absent when it is missing or not a number. */
  datatype Candidate = Candidate(
    serviceId: Option<Name>,
    scope: Name,
    identity: Name,
    priority: int,
    provider: Option<Name>,
    simulator: Option<bool>,
    isSimulator: Option<bool>,
    qpmType: Option<int>)

  datatype Request = Request(provider: Option<Name>, qpmType: Option<int>, allowFallback: bool)

  datatype Outcome =
    | NotFound
    | DuplicateId
    | FallbackPolicy
    | ProviderPolicy
    | Ambiguous
    | Chosen(candidate: Candidate)

  // -------------------------------------------------------------------------- policy

  /** `value & bit` is not zero, for a single bit. */
  predicate HasBit(value: int, bit: int)
    requires bit > 0
  {
    (value / bit) % 2 == 1
  }

  predicate ProviderIsSimulator(provider: Option<Name>) {
    provider.Some? && Lower(Strip(provider.value)) in SIMULATOR_PROVIDERS
  }

  predicate RequiresHardware(r: Request) {
    r.qpmType.Some? && r.qpmType.value != -1 && r.qpmType.value != 0 && HasBit(r.qpmType.value, HARDWARE_BIT)
  }

  predicate FallbackAllowed(r: Request) {
    r.allowFallback || ProviderIsSimulator(r.provider) || (r.qpmType.Some? && HasBit(r.qpmType.value, SIMULATOR_BIT))
  }

  predicate IsSimulator(c: Candidate) {
    if c.simulator.Some? then c.simulator.value
    else if c.isSimulator.Some? then c.isSimulator.value
    else
      || ProviderIsSimulator(c.provider)
      || (c.qpmType.Some? && c.qpmType.value != -1 && c.qpmType.value != 0 && HasBit(c.qpmType.value, SIMULATOR_BIT))
  }

  // ------------------------------------------------------------------------- ranking

  function Position(order: seq<Name>, name: Name): (i: nat)
    requires name in order
    ensures i < |order| && order[i] == name
  {
    if order[0] == name then 0 else 1 + Position(order[1..], name)
  }

  function ScopeOrder(order: seq<Name>, c: Candidate): nat {
    if order == [] then 0
    else if c.scope in order then Position(order, c.scope)
    else if c.identity in order then Position(order, c.identity)
    else |order|
  }

  function RankOf(order: seq<Name>): Candidate -> Rank {
    (c: Candidate) => Rank(ScopeOrder(order, c), c.priority)
  }

  // -------------------------------------------------------------- duplicate service ids

  function WithId(id: Option<Name>): Candidate -> bool {
    (c: Candidate) => c.serviceId == id
  }

  ghost predicate HasDuplicate(cands: seq<Candidate>) {
    exists c :: c in cands && c.serviceId.Some? && |Filter(WithId(c.serviceId), cands)| > 1
  }

  function Held(locations: map<Option<Name>, seq<Candidate>>, id: Option<Name>): seq<Candidate> {
    if id in locations then locations[id] else []
  }

  ghost predicate Gathered(locations: map<Option<Name>, seq<Candidate>>, cands: seq<Candidate>) {
    forall id {:trigger GatheredAt(locations, cands, id)} :: GatheredAt(locations, cands, id)
  }

  ghost predicate GatheredAt(locations: map<Option<Name>, seq<Candidate>>, cands: seq<Candidate>, id: Option<Name>) {
    Held(locations, id) == Filter(WithId(id), cands)
  }

  lemma GatherOne(locations: map<Option<Name>, seq<Candidate>>, cands: seq<Candidate>, c: Candidate)
    requires Gathered(locations, cands)
    ensures Gathered(locations[c.serviceId := Held(locations, c.serviceId) + [c]], cands + [c])
  {
    var now := locations[c.serviceId := Held(locations, c.serviceId) + [c]];
    forall id ensures GatheredAt(now, cands + [c], id) {
      FilterAppends(WithId(id), cands, c);
      assert GatheredAt(locations, cands, id);
    }
  }

  predicate SomeIdTwice(locations: map<Option<Name>, seq<Candidate>>) {
    exists id :: id in locations && id.Some? && |locations[id]| > 1
  }

  /** The candidates gathered per service id in a dictionary; the check fails when
      an id that is not absent holds more than one. */
  method RejectDuplicates(cands: seq<Candidate>) returns (found: bool)
    ensures found <==> HasDuplicate(cands)
  {
    var locations: map<Option<Name>, seq<Candidate>> := map[];
    for i := 0 to |cands|
      invariant Gathered(locations, cands[..i])
    {
      GatherOne(locations, cands[..i], cands[i]);
      assert cands[..i + 1] == cands[..i] + [cands[i]];
      locations := locations[cands[i].serviceId := Held(locations, cands[i].serviceId) + [cands[i]]];
    }
    assert cands[..|cands|] == cands;
    found := SomeIdTwice(locations);
    FoundIsDuplicate(locations, cands);
  }

  lemma FoundIsDuplicate(locations: map<Option<Name>, seq<Candidate>>, cands: seq<Candidate>)
    requires Gathered(locations, cands)
    ensures SomeIdTwice(locations) <==> HasDuplicate(cands)
  {
    if id :| id in locations && id.Some? && |locations[id]| > 1 {
      assert GatheredAt(locations, cands, id);
      FilterIn(WithId(id), cands, locations[id][0]);
    }
    if c :| c in cands && c.serviceId.Some? && |Filter(WithId(c.serviceId), cands)| > 1 {
      assert GatheredAt(locations, cands, c.serviceId);
    }
  }

  lemma DuplicateOfPermutation(s: seq<Candidate>, t: seq<Candidate>)
    requires multiset(s) == multiset(t) && HasDuplicate(s)
    ensures HasDuplicate(t)
  {
    var c :| c in s && c.serviceId.Some? && |Filter(WithId(c.serviceId), s)| > 1;
    FilterOfPermutation(WithId(c.serviceId), s, t);
    InMultiset(s, c);
    InMultiset(t, c);
  }

  // ----------------------------------------------------------------------- selection

  function Simulator(): Candidate -> bool {
    (c: Candidate) => IsSimulator(c)
  }

  function NotSimulator(): Candidate -> bool {
    (c: Candidate) => !IsSimulator(c)
  }

  /** The candidates left by the simulator policy; none when only simulators are
      left for a request that needs hardware. */
  function Eligible(cands: seq<Candidate>, r: Request): Option<seq<Candidate>> {
    if FallbackAllowed(r) || !RequiresHardware(r) then Some(cands)
    else if Filter(Simulator(), cands) == [] then Some(cands)
    else if Filter(NotSimulator(), cands) != [] then Some(Filter(NotSimulator(), cands))
    else None
  }

  function FromProvider(provider: Option<Name>): Candidate -> bool {
    (c: Candidate) => c.provider == provider
  }

  /** The first of the ordered candidates, unless its rank is shared. */
  function PickFirst(rank: Candidate -> Rank, ordered: seq<Candidate>, allowAmbiguous: bool): Outcome
    requires ordered != []
  {
    if !allowAmbiguous && Ties(rank, rank(ordered[0]), ordered) > 1 then Ambiguous
    else Chosen(ordered[0])
  }

  /** Whether the request names a provider. */
  predicate NamesProvider(r: Request) {
    r.provider.Some? && r.provider.value != ""
  }

  /** Which candidates compete: the eligible ones, of the named provider if any. */
  function Pool(cands: seq<Candidate>, r: Request): seq<Candidate>
    requires Eligible(cands, r).Some?
  {
    var left := Eligible(cands, r).value;
    if NamesProvider(r) then Filter(FromProvider(r.provider), left) else left
  }

  function SelectUnique(order: seq<Name>, cands: seq<Candidate>, r: Request, allowAmbiguous: bool): Outcome {
    if Eligible(cands, r).None? then FallbackPolicy
    else
      var ordered := Ordered(RankOf(order), Eligible(cands, r).value);
      if NamesProvider(r) then
        var matching := Filter(FromProvider(r.provider), ordered);
        if matching == [] then ProviderPolicy else PickFirst(RankOf(order), matching, allowAmbiguous)
      else if ordered == [] then NotFound
      else PickFirst(RankOf(order), ordered, allowAmbiguous)
  }

  ghost function Resolution(order: seq<Name>, cands: seq<Candidate>, r: Request, allowAmbiguous: bool): Outcome {
    if cands == [] then NotFound
    else if HasDuplicate(cands) then DuplicateId
    else SelectUnique(order, cands, r, allowAmbiguous)
  }

  /** The provider filter may as well come before the sort. */
  lemma SelectFromPool(order: seq<Name>, cands: seq<Candidate>, r: Request, allowAmbiguous: bool)
    requires Eligible(cands, r).Some?
    ensures (Ordered(RankOf(order), Pool(cands, r)) == []) == (Pool(cands, r) == [])
    ensures SelectUnique(order, cands, r, allowAmbiguous) ==
            if Pool(cands, r) == [] then (if NamesProvider(r) then ProviderPolicy else NotFound)
            else PickFirst(RankOf(order), Ordered(RankOf(order), Pool(cands, r)), allowAmbiguous)
  {
    OrderedEmpty(RankOf(order), Pool(cands, r));
    FilterOfOrdered(FromProvider(r.provider), RankOf(order), Eligible(cands, r).value);
  }

  // ------------------------------------------------------------------------ theorems

  lemma PickIsUniqueBest(rank: Candidate -> Rank, pool: seq<Candidate>, c: Candidate)
    requires pool != [] && Ordered(rank, pool) != []
    ensures PickFirst(rank, Ordered(rank, pool), false) == Chosen(c) <==> UniqueBest(rank, pool, c)
  {
    HeadIsUniqueBest(rank, pool, c);
  }

  /** Without a named provider something always competes. */
  lemma SomeoneCompetes(cands: seq<Candidate>, r: Request)
    requires cands != [] && Eligible(cands, r).Some? && !NamesProvider(r)
    ensures Pool(cands, r) != []
  {
  }

  lemma Outcomes(order: seq<Name>, cands: seq<Candidate>, r: Request, allowAmbiguous: bool)
    ensures
      var o := Resolution(order, cands, r, allowAmbiguous);
      && (o == NotFound <==> cands == [])
      && (o == DuplicateId <==> HasDuplicate(cands))
      && (cands != [] && !HasDuplicate(cands) ==>
            && (o == FallbackPolicy <==> Eligible(cands, r).None?)
            && (o == ProviderPolicy <==> Eligible(cands, r).Some? && Pool(cands, r) == [])
            && (Eligible(cands, r).Some? && Pool(cands, r) != [] && !allowAmbiguous ==>
                  && (forall c :: o == Chosen(c) <==> UniqueBest(RankOf(order), Pool(cands, r), c))
                  && (o == Ambiguous <==> forall c :: !UniqueBest(RankOf(order), Pool(cands, r), c))))
  {
    if cands != [] && !HasDuplicate(cands) && Eligible(cands, r).Some? {
      SelectFromPool(order, cands, r, allowAmbiguous);
      if !NamesProvider(r) {
        SomeoneCompetes(cands, r);
      }
      if Pool(cands, r) != [] && !allowAmbiguous {
        PickOutcomes(RankOf(order), Pool(cands, r));
      }
    }
  }

  lemma PickOutcomes(rank: Candidate -> Rank, pool: seq<Candidate>)
    requires pool != [] && Ordered(rank, pool) != []
    ensures
      var o := PickFirst(rank, Ordered(rank, pool), false);
      && (forall c :: o == Chosen(c) <==> UniqueBest(rank, pool, c))
      && (o == Ambiguous <==> forall c :: !UniqueBest(rank, pool, c))
  {
    forall c ensures PickFirst(rank, Ordered(rank, pool), false) == Chosen(c) <==> UniqueBest(rank, pool, c) {
      PickIsUniqueBest(rank, pool, c);
    }
  }

  /** A choice is made exactly for the one best candidate among those that compete,
      and each error exactly for its own reason. */
  method Resolve(order: seq<Name>, cands: seq<Candidate>, r: Request, allowAmbiguous: bool) returns (o: Outcome)
    ensures o == Resolution(order, cands, r, allowAmbiguous)
    ensures o == NotFound <==> cands == []
    ensures o == DuplicateId <==> HasDuplicate(cands)
    ensures cands != [] && !HasDuplicate(cands) ==>
              && (o == FallbackPolicy <==> Eligible(cands, r).None?)
              && (o == ProviderPolicy <==> Eligible(cands, r).Some? && Pool(cands, r) == [])
              && (Eligible(cands, r).Some? && Pool(cands, r) != [] && !allowAmbiguous ==>
                    && (forall c :: o == Chosen(c) <==> UniqueBest(RankOf(order), Pool(cands, r), c))
                    && (o == Ambiguous <==> forall c :: !UniqueBest(RankOf(order), Pool(cands, r), c)))
  {
    Outcomes(order, cands, r, allowAmbiguous);
    if cands == [] {
      return NotFound;
    }
    var duplicate := RejectDuplicates(cands);
    if duplicate {
      return DuplicateId;
    }
    return SelectUnique(order, cands, r, allowAmbiguous);
  }

  /** With ambiguity disallowed a candidate is chosen exactly when it is the one
      candidate of the best rank among those that compete; which error is raised
      otherwise is decided by the same pool. */
  lemma ChoiceIsUniqueBest(order: seq<Name>, cands: seq<Candidate>, r: Request, c: Candidate)
    requires cands != [] && !HasDuplicate(cands)
    ensures Resolution(order, cands, r, false) == Chosen(c) <==>
              Eligible(cands, r).Some? && UniqueBest(RankOf(order), Pool(cands, r), c)
    ensures Resolution(order, cands, r, false) == FallbackPolicy <==> Eligible(cands, r).None?
    ensures Resolution(order, cands, r, false) == ProviderPolicy <==>
              Eligible(cands, r).Some? && NamesProvider(r) && Pool(cands, r) == []
  {
    if Eligible(cands, r).Some? {
      SelectFromPool(order, cands, r, false);
      if Pool(cands, r) != [] {
        PickIsUniqueBest(RankOf(order), Pool(cands, r), c);
      }
    }
  }

  /** A request that needs hardware and does not allow a fallback is never given
      a simulator, and fails on policy exactly when there is nothing else. */
  lemma NoSimulatorForHardware(order: seq<Name>, cands: seq<Candidate>, r: Request, allowAmbiguous: bool)
    requires RequiresHardware(r) && !FallbackAllowed(r) && cands != [] && !HasDuplicate(cands)
    ensures Resolution(order, cands, r, allowAmbiguous) == FallbackPolicy <==> forall c | c in cands :: IsSimulator(c)
    ensures Resolution(order, cands, r, allowAmbiguous).Chosen? ==>
              var c := Resolution(order, cands, r, allowAmbiguous).candidate;
              c in cands && !IsSimulator(c)
  {
    NothingElse(cands, r);
    if Eligible(cands, r).Some? {
      SelectFromPool(order, cands, r, allowAmbiguous);
      if Pool(cands, r) != [] {
        HeadIsBest(RankOf(order), Pool(cands, r));
        var c := Ordered(RankOf(order), Pool(cands, r))[0];
        InPool(cands, r, c);
      }
    }
  }

  lemma InPool(cands: seq<Candidate>, r: Request, c: Candidate)
    requires Eligible(cands, r).Some? && c in Pool(cands, r)
    ensures c in cands && (RequiresHardware(r) && !FallbackAllowed(r) ==> !IsSimulator(c))
  {
    FilterIn(FromProvider(r.provider), Eligible(cands, r).value, c);
    FilterIn(NotSimulator(), cands, c);
    FilterIn(Simulator(), cands, c);
  }

  lemma NothingElse(cands: seq<Candidate>, r: Request)
    requires RequiresHardware(r) && !FallbackAllowed(r) && cands != []
    ensures Eligible(cands, r).None? <==> forall c | c in cands :: IsSimulator(c)
  {
    forall c | c in cands ensures !IsSimulator(c) ==> c in Filter(NotSimulator(), cands) {
      FilterIn(NotSimulator(), cands, c);
    }
    if Filter(NotSimulator(), cands) != [] {
      FilterIn(NotSimulator(), cands, Filter(NotSimulator(), cands)[0]);
    }
    FilterIn(Simulator(), cands, cands[0]);
    assert cands[0] in cands;
  }

  // ------------------------------------------------------------- discovery order

  lemma EligibleOfPermutation(s: seq<Candidate>, t: seq<Candidate>, r: Request)
    requires multiset(s) == multiset(t)
    ensures Eligible(s, r).Some? == Eligible(t, r).Some?
    ensures Eligible(s, r).Some? ==> multiset(Eligible(s, r).value) == multiset(Eligible(t, r).value)
  {
    FilterOfPermutation(Simulator(), s, t);
    FilterOfPermutation(NotSimulator(), s, t);
  }

  lemma PoolOfPermutation(s: seq<Candidate>, t: seq<Candidate>, r: Request)
    requires multiset(s) == multiset(t) && Eligible(s, r).Some?
    ensures Eligible(t, r).Some? && multiset(Pool(s, r)) == multiset(Pool(t, r))
  {
    EligibleOfPermutation(s, t, r);
    FilterOfPermutation(FromProvider(r.provider), Eligible(s, r).value, Eligible(t, r).value);
  }

  /** With ambiguity disallowed, the outcome does not depend on the order in
      which the directories were discovered. */
  lemma DiscoveryOrderIrrelevant(order: seq<Name>, s: seq<Candidate>, t: seq<Candidate>, r: Request)
    requires multiset(s) == multiset(t)
    ensures Resolution(order, s, r, false) == Resolution(order, t, r, false)
  {
    SameLength(s, t);
    if HasDuplicate(s) {
      DuplicateOfPermutation(s, t);
    } else if HasDuplicate(t) {
      DuplicateOfPermutation(t, s);
    } else if s != [] {
      EligibleOfPermutation(s, t, r);
      if Eligible(s, r).Some? {
        PoolOfPermutation(s, t, r);
        SameChoice(order, s, t, r);
      }
    }
  }

  lemma SameChoice(order: seq<Name>, s: seq<Candidate>, t: seq<Candidate>, r: Request)
    requires Eligible(s, r).Some? && Eligible(t, r).Some? && multiset(Pool(s, r)) == multiset(Pool(t, r))
    ensures SelectUnique(order, s, r, false) == SelectUnique(order, t, r, false)
  {
    var a, b := Pool(s, r), Pool(t, r);
    SelectFromPool(order, s, r, false);
    SelectFromPool(order, t, r, false);
    SameLength(a, b);
    if a != [] {
      var x, y := PickFirst(RankOf(order), Ordered(RankOf(order), a), false),
          PickFirst(RankOf(order), Ordered(RankOf(order), b), false);
      if x.Chosen? {
        PickIsUniqueBest(RankOf(order), a, x.candidate);
        UniqueBestOfPermutation(RankOf(order), a, b, x.candidate);
        PickIsUniqueBest(RankOf(order), b, x.candidate);
      } else if y.Chosen? {
        PickIsUniqueBest(RankOf(order), b, y.candidate);
        UniqueBestOfPermutation(RankOf(order), b, a, y.candidate);
        PickIsUniqueBest(RankOf(order), a, y.candidate);
      }
    }
  }

  /** Where a tie is allowed, the first discovered candidate of the best rank wins. */
  lemma FirstDiscoveredWins(order: seq<Name>, cands: seq<Candidate>, r: Request) returns (i: nat)
    requires cands != [] && !HasDuplicate(cands) && Eligible(cands, r).Some? && Pool(cands, r) != []
    ensures i < |Pool(cands, r)| && Resolution(order, cands, r, true) == Chosen(Pool(cands, r)[i])
    ensures
      var pool := Pool(cands, r);
      && (forall j | 0 <= j < i :: Better(RankOf(order)(pool[i]), RankOf(order)(pool[j])))
      && NoneBetter(RankOf(order), RankOf(order)(pool[i]), pool)
  {
    SelectFromPool(order, cands, r, true);
    i := FirstOfBestRank(RankOf(order), Pool(cands, r));
  }
}
