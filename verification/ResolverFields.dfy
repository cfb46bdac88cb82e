/** What the resolver chooses, in terms of the fields of the request and of the
    candidates alone. */
module ResolverFields {
  import opened Prelude
  import opened Comprehensions
  import opened Ordering
  import opened Sorting
  import opened Text
  import opened Resolver

  // -------------------------------------------------------------------------- policy

  ghost predicate SimulatorName(provider: Option<Name>) {
    provider.Some? &&
    var name := Lower(Strip(provider.value));
    name == "simulator" || name == "nwqsim" || name == "tnqvm" || name == "qb"
  }

  /** The first bit of the type asked for is set; -1 asks for nothing. */
  ghost predicate AsksHardware(r: Request) {
    r.qpmType.Some? && r.qpmType.value != -1 && r.qpmType.value % 2 == 1
  }

  /** A simulator may serve the request: it says so, names a simulator, or asks for
      a type with the second bit. */
  ghost predicate PermitsSimulator(r: Request) {
    r.allowFallback || SimulatorName(r.provider) || (r.qpmType.Some? && r.qpmType.value % 4 >= 2)
  }

  /** What a candidate says of itself, the first thing said deciding. */
  ghost predicate Simulates(c: Candidate) {
    if c.simulator.Some? then c.simulator.value
    else if c.isSimulator.Some? then c.isSimulator.value
    else SimulatorName(c.provider) || (c.qpmType.Some? && c.qpmType.value != -1 && c.qpmType.value % 4 >= 2)
  }

  lemma SecondBit(t: int)
    ensures HasBit(t, 2) <==> t % 4 >= 2
  {
  }

  lemma PolicyIs(r: Request, c: Candidate)
    ensures RequiresHardware(r) <==> AsksHardware(r)
    ensures FallbackAllowed(r) <==> PermitsSimulator(r)
    ensures IsSimulator(c) <==> Simulates(c)
  {
    if r.qpmType.Some? {
      SecondBit(r.qpmType.value);
    }
    if c.qpmType.Some? {
      SecondBit(c.qpmType.value);
    }
  }

  /** The request needs hardware and must not be given a simulator. */
  ghost predicate Strict(r: Request) {
    AsksHardware(r) && !PermitsSimulator(r)
  }

  /** The candidate may serve the request. */
  ghost predicate MayServe(r: Request, c: Candidate) {
    && (Strict(r) ==> !Simulates(c))
    && (r.provider.Some? && r.provider.value != "" ==> c.provider == r.provider)
  }

  ghost function Serving(r: Request): Candidate -> bool {
    (c: Candidate) => MayServe(r, c)
  }

  // ----------------------------------------------------------------------------- rank

  /** Where a candidate's scope, or else its directory, is in the order; last if
      neither is there. */
  ghost function Place(order: seq<Name>, c: Candidate): nat {
    if c.scope in order then IndexOf(order, c.scope)
    else if c.identity in order then IndexOf(order, c.identity)
    else |order|
  }

  /** An earlier place beats a later one, and in one place the higher priority. */
  ghost predicate Beats(order: seq<Name>, c: Candidate, d: Candidate) {
    Place(order, c) < Place(order, d) || (Place(order, c) == Place(order, d) && c.priority > d.priority)
  }

  ghost predicate SameRank(order: seq<Name>, c: Candidate, d: Candidate) {
    Place(order, c) == Place(order, d) && c.priority == d.priority
  }

  lemma {:induction false} PositionIsIndex(order: seq<Name>, name: Name)
    requires name in order
    ensures Position(order, name) == IndexOf(order, name)
  {
    if order[0] != name {
      PositionIsIndex(order[1..], name);
    }
  }

  lemma RankIs(order: seq<Name>, c: Candidate, d: Candidate)
    ensures Better(RankOf(order)(c), RankOf(order)(d)) <==> Beats(order, c, d)
    ensures RankOf(order)(c) == RankOf(order)(d) <==> SameRank(order, c, d)
  {
    PlaceIs(order, c);
    PlaceIs(order, d);
  }

  lemma PlaceIs(order: seq<Name>, c: Candidate)
    ensures ScopeOrder(order, c) == Place(order, c)
  {
    if c.scope in order {
      PositionIsIndex(order, c.scope);
    } else if c.identity in order {
      PositionIsIndex(order, c.identity);
    }
  }

  // -------------------------------------------------------------------- kept elements

  lemma {:induction false} FilterSame<T>(p: T -> bool, q: T -> bool, s: seq<T>)
    requires forall i | 0 <= i < |s| :: p(s[i]) == q(s[i])
    ensures Filter(p, s) == Filter(q, s)
    decreases |s|
  {
    if s != [] {
      FilterSame(p, q, s[1..]);
    }
  }

  ghost function Both<T>(p: T -> bool, q: T -> bool): T -> bool {
    (x: T) => p(x) && q(x)
  }

  lemma {:induction false} FilterTwice<T>(p: T -> bool, q: T -> bool, s: seq<T>)
    ensures Filter(p, Filter(q, s)) == Filter(Both(p, q), s)
    decreases |s|
  {
    if s != [] {
      FilterTwice(p, q, s[1..]);
      assert s == [s[0]] + s[1..];
      FilterCons(q, s[0], s[1..]);
      FilterCons(Both(p, q), s[0], s[1..]);
      FilterCons(p, s[0], Filter(q, s[1..]));
    }
  }

  /** Where a kept element was, with what was kept before it. */
  lemma {:induction false} KeptAt<T>(p: T -> bool, s: seq<T>, k: nat) returns (i: nat)
    requires k < |Filter(p, s)|
    ensures i < |s| && s[i] == Filter(p, s)[k] && p(s[i]) && Filter(p, s[..i]) == Filter(p, s)[..k]
    decreases |s|
  {
    var first := if p(s[0]) then 1 else 0;
    if k < first {
      i := 0;
      assert s[..0] == [];
    } else {
      i := KeptAt(p, s[1..], k - first);
      i := i + 1;
      assert s[..i] == [s[0]] + s[1..][..i - 1];
      FilterCons(p, s[0], s[1..][..i - 1]);
    }
  }

  ghost predicate Two<T>(p: T -> bool, s: seq<T>) {
    exists i, j :: 0 <= i < j < |s| && p(s[i]) && p(s[j])
  }

  ghost predicate One<T>(p: T -> bool, s: seq<T>) {
    exists i :: 0 <= i < |s| && p(s[i])
  }

  lemma FilterFinds<T>(p: T -> bool, s: seq<T>)
    ensures |Filter(p, s)| >= 1 <==> One(p, s)
  {
    if Filter(p, s) != [] {
      var i := KeptAt(p, s, 0);
    }
    if One(p, s) {
      var i :| 0 <= i < |s| && p(s[i]);
      FilterIn(p, s, s[i]);
      assert s[i] in s;
    }
  }

  lemma {:induction false} FilterFindsTwo<T>(p: T -> bool, s: seq<T>)
    ensures |Filter(p, s)| >= 2 <==> Two(p, s)
    decreases |s|
  {
    if s != [] {
      var tail := s[1..];
      FilterFindsTwo(p, tail);
      FilterFinds(p, tail);
      if Two(p, tail) {
        var i, j :| 0 <= i < j < |tail| && p(tail[i]) && p(tail[j]);
        assert p(s[i + 1]) && p(s[j + 1]);
      } else if p(s[0]) && One(p, tail) {
        var j :| 0 <= j < |tail| && p(tail[j]);
        assert p(s[0]) && p(s[j + 1]);
      }
      if Two(p, s) {
        var i, j :| 0 <= i < j < |s| && p(s[i]) && p(s[j]);
        assert p(tail[j - 1]);
        if i > 0 {
          assert p(tail[i - 1]) && p(tail[j - 1]);
        }
      }
    }
  }

  // ------------------------------------------------------------------------- the pool

  /** Only simulators are there for a request that must not be given one. */
  ghost predicate OnlySimulators(cands: seq<Candidate>, r: Request) {
    Strict(r) && forall i | 0 <= i < |cands| :: Simulates(cands[i])
  }

  lemma EligibleIs(cands: seq<Candidate>, r: Request)
    requires cands != []
    ensures Eligible(cands, r).None? <==> OnlySimulators(cands, r)
  {
    PolicyIs(r, cands[0]);
    if Strict(r) {
      NothingElse(cands, r);
      forall i | 0 <= i < |cands| ensures cands[i] in cands && (IsSimulator(cands[i]) <==> Simulates(cands[i])) {
        PolicyIs(r, cands[i]);
      }
    }
  }

  lemma PoolIs(cands: seq<Candidate>, r: Request)
    requires cands != [] && Eligible(cands, r).Some?
    ensures Pool(cands, r) == Filter(Serving(r), cands)
  {
    forall i | 0 <= i < |cands| ensures IsSimulator(cands[i]) <==> Simulates(cands[i]) {
      PolicyIs(r, cands[i]);
    }
    PolicyIs(r, cands[0]);
    var named := FromProvider(r.provider);
    if Strict(r) && Filter(Simulator(), cands) != [] {
      FilterTwice(named, NotSimulator(), cands);
      if NamesProvider(r) {
        FilterSame(Both(named, NotSimulator()), Serving(r), cands);
      } else {
        FilterSame(NotSimulator(), Serving(r), cands);
      }
    } else {
      FilterFinds(Simulator(), cands);
      if NamesProvider(r) {
        FilterSame(named, Serving(r), cands);
      } else {
        FilterAllOrNone(Serving(r), cands, true);
      }
    }
  }

  // ------------------------------------------------------------------------- theorems

  /** Two candidates carry the same service id. */
  ghost predicate SharesId(cands: seq<Candidate>) {
    exists i, j :: 0 <= i < j < |cands| && cands[i].serviceId.Some? && cands[i].serviceId == cands[j].serviceId
  }

  lemma {:induction false} DuplicateShares(cands: seq<Candidate>)
    requires HasDuplicate(cands)
    ensures SharesId(cands)
  {
    var c :| c in cands && c.serviceId.Some? && |Filter(WithId(c.serviceId), cands)| > 1;
    FilterFindsTwo(WithId(c.serviceId), cands);
    var i, j :| 0 <= i < j < |cands| && WithId(c.serviceId)(cands[i]) && WithId(c.serviceId)(cands[j]);
    assert cands[i].serviceId == cands[j].serviceId;
  }

  lemma {:induction false} SharedIsDuplicate(cands: seq<Candidate>)
    requires SharesId(cands)
    ensures HasDuplicate(cands)
  {
    var i, j :| 0 <= i < j < |cands| && cands[i].serviceId.Some? && cands[i].serviceId == cands[j].serviceId;
    var id := cands[i].serviceId;
    assert WithId(id)(cands[i]) && WithId(id)(cands[j]) && cands[i] in cands;
    FilterFindsTwo(WithId(id), cands);
  }

  lemma {:induction false} DuplicateIs(cands: seq<Candidate>)
    ensures HasDuplicate(cands) <==> SharesId(cands)
  {
    if HasDuplicate(cands) {
      DuplicateShares(cands);
    }
    if SharesId(cands) {
      SharedIsDuplicate(cands);
    }
  }

  /** Candidate `i` may serve the request and beats every other that may. */
  ghost predicate StandsOut(order: seq<Name>, cands: seq<Candidate>, r: Request, i: int) {
    && 0 <= i < |cands| && MayServe(r, cands[i])
    && forall j | 0 <= j < |cands| && j != i && MayServe(r, cands[j]) :: Beats(order, cands[i], cands[j])
  }

  ghost predicate IsTheBest(order: seq<Name>, cands: seq<Candidate>, r: Request, c: Candidate) {
    exists i :: StandsOut(order, cands, r, i) && cands[i] == c
  }

  ghost function RankedLike(order: seq<Name>, r: Request, c: Candidate): Candidate -> bool {
    (d: Candidate) => SameRank(order, d, c) && MayServe(r, d)
  }

  lemma TiesAre(order: seq<Name>, cands: seq<Candidate>, r: Request, c: Candidate)
    ensures Ties(RankOf(order), RankOf(order)(c), Filter(Serving(r), cands)) == |Filter(RankedLike(order, r, c), cands)|
  {
    var like := WithRank(RankOf(order), RankOf(order)(c));
    FilterTwice(like, Serving(r), cands);
    forall i | 0 <= i < |cands| ensures Both(like, Serving(r))(cands[i]) == RankedLike(order, r, c)(cands[i]) {
      RankIs(order, cands[i], c);
    }
    FilterSame(Both(like, Serving(r)), RankedLike(order, r, c), cands);
  }

  lemma NoneBetterIs(order: seq<Name>, cands: seq<Candidate>, r: Request, c: Candidate)
    ensures NoneBetter(RankOf(order), RankOf(order)(c), Filter(Serving(r), cands)) <==>
              forall j | 0 <= j < |cands| && MayServe(r, cands[j]) ::
                Beats(order, c, cands[j]) || SameRank(order, c, cands[j])
  {
    var pool := Filter(Serving(r), cands);
    if NoneBetter(RankOf(order), RankOf(order)(c), pool) {
      forall j | 0 <= j < |cands| && MayServe(r, cands[j])
        ensures Beats(order, c, cands[j]) || SameRank(order, c, cands[j])
      {
        FilterIn(Serving(r), cands, cands[j]);
        assert cands[j] in cands;
        var k :| 0 <= k < |pool| && pool[k] == cands[j];
        RankIs(order, c, cands[j]);
      }
    } else {
      var k :| 0 <= k < |pool| && !NoWorse(RankOf(order)(c), RankOf(order)(pool[k]));
      var i := KeptAt(Serving(r), cands, k);
      RankIs(order, c, cands[i]);
    }
  }

  lemma BestIs(order: seq<Name>, cands: seq<Candidate>, r: Request, c: Candidate)
    ensures UniqueBest(RankOf(order), Filter(Serving(r), cands), c) <==> IsTheBest(order, cands, r, c)
  {
    FilterIn(Serving(r), cands, c);
    TiesAre(order, cands, r, c);
    NoneBetterIs(order, cands, r, c);
    FilterFinds(RankedLike(order, r, c), cands);
    FilterFindsTwo(RankedLike(order, r, c), cands);
    if UniqueBest(RankOf(order), Filter(Serving(r), cands), c) {
      var i :| 0 <= i < |cands| && cands[i] == c;
      OthersAreBeaten(order, cands, r, i);
    }
    if IsTheBest(order, cands, r, c) {
      var i :| StandsOut(order, cands, r, i) && cands[i] == c;
      assert RankedLike(order, r, c)(cands[i]);
      assert c in cands;
    }
  }

  lemma OthersAreBeaten(order: seq<Name>, cands: seq<Candidate>, r: Request, i: nat)
    requires i < |cands| && MayServe(r, cands[i]) && !Two(RankedLike(order, r, cands[i]), cands)
    requires forall j | 0 <= j < |cands| && MayServe(r, cands[j]) ::
               Beats(order, cands[i], cands[j]) || SameRank(order, cands[i], cands[j])
    ensures StandsOut(order, cands, r, i)
  {
    var like := RankedLike(order, r, cands[i]);
    assert like(cands[i]);
    forall j | 0 <= j < |cands| && j != i && MayServe(r, cands[j]) ensures !SameRank(order, cands[i], cands[j]) {
      assert like(cands[j]) <==> SameRank(order, cands[i], cands[j]);
    }
  }

  /** With ambiguity disallowed: a candidate is chosen exactly when it may serve the
      request and beats every other that may; otherwise the error says why not. */
  lemma ResolvesByFields(order: seq<Name>, cands: seq<Candidate>, r: Request)
    ensures
      var o := Resolution(order, cands, r, false);
      && (o == NotFound <==> cands == [])
      && (o == DuplicateId <==> SharesId(cands))
      && (cands != [] && !SharesId(cands) ==>
            && (o == FallbackPolicy <==> OnlySimulators(cands, r))
            && (o == ProviderPolicy <==> !OnlySimulators(cands, r) && !One(Serving(r), cands))
            && (forall c :: o == Chosen(c) <==> !OnlySimulators(cands, r) && IsTheBest(order, cands, r, c)))
  {
    Outcomes(order, cands, r, false);
    DuplicateIs(cands);
    if cands != [] && !SharesId(cands) {
      EligibleIs(cands, r);
      if Eligible(cands, r).Some? {
        PoolIs(cands, r);
        FilterFinds(Serving(r), cands);
        forall c ensures UniqueBest(RankOf(order), Pool(cands, r), c) <==> IsTheBest(order, cands, r, c) {
          BestIs(order, cands, r, c);
        }
      }
    }
  }

  /** A request for hardware that permits no simulator is never given a candidate that
      says it is one, is of a simulator provider or of a type with the second bit. */
  lemma HardwareIsHardware(order: seq<Name>, cands: seq<Candidate>, r: Request, allowAmbiguous: bool)
    requires Strict(r) && cands != [] && !SharesId(cands)
    ensures Resolution(order, cands, r, allowAmbiguous) == FallbackPolicy <==>
              forall i | 0 <= i < |cands| :: Simulates(cands[i])
    ensures Resolution(order, cands, r, allowAmbiguous).Chosen? ==>
              var c := Resolution(order, cands, r, allowAmbiguous).candidate;
              c in cands && !Simulates(c)
  {
    DuplicateIs(cands);
    EligibleIs(cands, r);
    PolicyIs(r, cands[0]);
    NoSimulatorForHardware(order, cands, r, allowAmbiguous);
    NothingElse(cands, r);
    var o := Resolution(order, cands, r, allowAmbiguous);
    if o.Chosen? {
      PolicyIs(r, o.candidate);
    }
  }

  /** Where a tie is allowed, the first discovered of the best that may serve wins. */
  lemma TiesGoToTheFirst(order: seq<Name>, cands: seq<Candidate>, r: Request) returns (i: nat)
    requires cands != [] && !SharesId(cands) && !OnlySimulators(cands, r) && One(Serving(r), cands)
    ensures i < |cands| && MayServe(r, cands[i]) && Resolution(order, cands, r, true) == Chosen(cands[i])
    ensures forall j | 0 <= j < |cands| && MayServe(r, cands[j]) :: !Beats(order, cands[j], cands[i])
    ensures forall j | 0 <= j < i && MayServe(r, cands[j]) :: Beats(order, cands[i], cands[j])
  {
    DuplicateIs(cands);
    EligibleIs(cands, r);
    PoolIs(cands, r);
    FilterFinds(Serving(r), cands);
    var k := FirstDiscoveredWins(order, cands, r);
    i := KeptAt(Serving(r), cands, k);
    NoneBetterIs(order, cands, r, cands[i]);
    forall j | 0 <= j < i && MayServe(r, cands[j]) ensures Beats(order, cands[i], cands[j]) {
      FilterIn(Serving(r), cands[..i], cands[j]);
      assert cands[..i][j] in cands[..i];
      var l :| 0 <= l < k && Pool(cands, r)[..k][l] == cands[j];
      RankIs(order, cands[i], cands[j]);
    }
  }
}
