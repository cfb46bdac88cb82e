/** The Backline QPM: placements and executors held for reservations. The
    controller that grants reservations and the launcher that starts executors
    are outside: what they answer comes in as arguments, a granted id is one
    not currently held, and a started executor is a new one. */
module Backline {
  import opened Prelude
  import opened Ordering
  import opened Matcher
  import opened Matching
  import opened MatchingTheorems

  type Rid = nat
  type Executor = nat

  datatype Held = Held(placement: Placement, entries: seq<Name>)

  datatype State = State(
    placements: map<Rid, Held>,
    executors: map<Rid, Executor>,
    started: set<Executor>,
    stopped: set<Executor>)

  const NOTHING := State(map[], map[], {}, {})

  /** Entries of different reservations never overlap, none is listed twice, every
      placement has its executor, and the executors running are exactly those of
      held reservations, one each. */
  ghost predicate Sane(s: State) {
    && s.placements.Keys == s.executors.Keys
    && (forall r | r in s.placements :: NoDuplicates(s.placements[r].entries))
    && (forall r, r' | r in s.placements && r' in s.placements && r != r' ::
          Elements(s.placements[r].entries) !! Elements(s.placements[r'].entries))
    && (forall r, r' | r in s.executors && r' in s.executors && r != r' :: s.executors[r] != s.executors[r'])
    && s.stopped <= s.started
    && (forall e :: e in s.started && e !in s.stopped <==> Owned(s.executors, e))
  }

  ghost predicate Owned(executors: map<Rid, Executor>, e: Executor) {
    exists r :: r in executors && executors[r] == e
  }

  // ------------------------------------------------------------------ on values

  /** Give up the placements of `gone` and stop their executors. */
  function Drop(s: State, gone: set<Rid>): State {
    State(
      s.placements - gone,
      s.executors - gone,
      s.started,
      s.stopped + set r | r in s.executors && r in gone :: s.executors[r])
  }

  function BusyEntries(s: State): set<Name> {
    set r, e | r in s.placements && e in s.placements[r].entries :: e
  }

  function Attach(s: State, rid: Rid, held: Held, e: Executor): State {
    State(s.placements[rid := held], s.executors[rid := e], s.started + {e}, s.stopped)
  }

  function EntriesOf(placements: map<Rid, Held>, rids: set<Rid>): set<Name> {
    set r, e | r in rids && r in placements && e in placements[r].entries :: e
  }

  lemma EntriesGrow(placements: map<Rid, Held>, rids: set<Rid>, rid: Rid)
    requires rid in placements
    ensures EntriesOf(placements, rids + {rid}) == EntriesOf(placements, rids) + Elements(placements[rid].entries)
  {
    var all := EntriesOf(placements, rids + {rid});
    forall e | e in placements[rid].entries ensures e in all {
      assert rid in rids + {rid};
    }
    forall e | e in EntriesOf(placements, rids) ensures e in all {
      var r :| r in rids && r in placements && e in placements[r].entries;
      assert r in rids + {rid};
    }
  }

  /** The reservations `gone` lost placement and executor, which was stopped; nothing
      else changed. */
  ghost predicate GaveUp(before: State, after: State, gone: set<Rid>) {
    && after.placements == before.placements - gone && after.executors == before.executors - gone
    && after.started == before.started
    && forall e :: e in after.stopped <==>
         e in before.stopped || exists r :: r in gone && r in before.executors && before.executors[r] == e
  }

  lemma DropGivesUp(s: State, gone: set<Rid>)
    ensures GaveUp(s, Drop(s, gone), gone)
  {
  }

  /** The entry is held for a reservation that is active. */
  ghost predicate Taken(s: State, active: set<Rid>, e: Name) {
    exists r :: r in s.placements && r in active && e in s.placements[r].entries
  }

  lemma BusyIsTaken(s: State, active: set<Rid>)
    ensures GaveUp(s, Reap(s, active), s.placements.Keys - active)
    ensures forall e :: e in BusyEntries(Reap(s, active)) <==> Taken(s, active, e)
  {
    var reaped := Reap(s, active);
    DropGivesUp(s, s.placements.Keys - active);
    forall e ensures e in BusyEntries(reaped) <==> Taken(s, active, e) {
      if e in BusyEntries(reaped) {
        var r :| r in reaped.placements && e in reaped.placements[r].entries;
        assert r in s.placements && r in active;
      }
      if Taken(s, active, e) {
        var r :| r in s.placements && r in active && e in s.placements[r].entries;
        assert r in reaped.placements && e in reaped.placements[r].entries;
      }
    }
  }

  lemma DropNone(s: State)
    ensures Drop(s, {}) == s
  {
    assert s.placements - {} == s.placements && s.executors - {} == s.executors;
  }

  lemma DropInTurn(s: State, a: set<Rid>, b: set<Rid>)
    ensures Drop(Drop(s, a), b) == Drop(s, a + b)
  {
    var once, twice := Drop(s, a + b), Drop(Drop(s, a), b);
    assert once.stopped == twice.stopped;
  }

  lemma DropIsSane(s: State, gone: set<Rid>)
    requires Sane(s)
    ensures Sane(Drop(s, gone))
  {
    var t := Drop(s, gone);
    forall e ensures e in t.started && e !in t.stopped <==> Owned(t.executors, e) {
      if e in t.started && e !in t.stopped {
        assert Owned(s.executors, e);
        var r :| r in s.executors && s.executors[r] == e;
        assert r in t.executors && t.executors[r] == e;
      }
      if r :| r in t.executors && t.executors[r] == e {
        assert r in s.executors && s.executors[r] == e;
        assert Owned(s.executors, e);
      }
    }
    forall e | e in t.stopped ensures e in t.started {
      if e !in s.stopped {
        var r :| r in s.executors && s.executors[r] == e;
        assert Owned(s.executors, e);
      }
    }
  }

  /** A new holder of free entries, with a newly started executor. */
  lemma AttachIsSane(s: State, rid: Rid, held: Held, e: Executor)
    requires Sane(s) && rid !in s.placements && e !in s.started
    requires NoDuplicates(held.entries) && forall x | x in held.entries :: x !in BusyEntries(s)
    ensures Sane(Attach(s, rid, held, e))
  {
    var t := Attach(s, rid, held, e);
    forall r, r' | r in t.placements && r' in t.placements && r != r'
      ensures Elements(t.placements[r].entries) !! Elements(t.placements[r'].entries)
    {
      forall x | x in Elements(t.placements[r].entries) ensures x !in Elements(t.placements[r'].entries) {
        if r == rid {
          assert x !in BusyEntries(s);
        } else if r' == rid {
          assert x in BusyEntries(s);
        }
      }
    }
    ExecutorsMatch(s, rid, e);
  }

  lemma ExecutorsMatch(s: State, rid: Rid, e: Executor)
    requires Sane(s) && rid !in s.executors && e !in s.started
    ensures
      var ex := s.executors[rid := e];
      && (forall r, r' | r in ex && r' in ex && r != r' :: ex[r] != ex[r'])
      && (forall x :: x in s.started + {e} && x !in s.stopped <==> Owned(ex, x))
  {
    var ex := s.executors[rid := e];
    forall r | r in s.executors ensures s.executors[r] != e {
      assert Owned(s.executors, s.executors[r]);
    }
    forall x ensures x in s.started + {e} && x !in s.stopped <==> Owned(ex, x) {
      if x == e {
        assert ex[rid] == e;
      } else {
        if r :| r in s.executors && s.executors[r] == x {
          assert r in ex && ex[r] == x;
        }
        if r :| r in ex && ex[r] == x {
          assert r in s.executors && s.executors[r] == x;
          assert Owned(s.executors, x);
        }
      }
    }
  }

  // ------------------------------------------------------------------ operations

  datatype Response =
    | Granted(rid: Rid, placement: Placement)
    | NoFit(reason: Reason)
    | Invalid
    | Denied
    | StartFailed
    | Done

  /** Reservations that are no longer active lose their placements. */
  function Reap(s: State, active: set<Rid>): State {
    Drop(s, s.placements.Keys - active)
  }

  /** Match against what active reservations leave free, then hold the result for
      the reservation `grant` names, if the executor starts. */
  function Place(s: State, inv: Inventory, intent: Option<Intent>, qubits: Option<int>, active: set<Rid>,
                 grant: Option<Rid>, launch: Option<Executor>): (State, Response)
  {
    var reaped := Reap(s, active);
    var m := Match(inv, intent, qubits, BusyEntries(reaped));
    if m.Rejected? then (reaped, NoFit(m.reason))
    else if grant.None? then (reaped, Denied)
    else if launch.None? then (reaped, StartFailed)
    else (Attach(reaped, grant.value, Held(m.placement, m.entries), launch.value), Granted(grant.value, m.placement))
  }

  /** A reservation as the controller records it, and who asks for it. */
  datatype Claim = Claim(known: bool, owner: Option<Name>, job: Option<Name>, asksOwner: Option<Name>,
      asksJob: Option<Name>)

  predicate Entitled(c: Claim) {
    (c.owner.Some? ==> c.asksOwner == c.owner) && (c.job.Some? ==> c.asksJob == c.job)
  }

  /** An application's request for classical resources against a reservation. */
  function Classical(s: State, inv: Inventory, intent: Option<Intent>, qubits: Option<int>, active: set<Rid>,
                     rid: Rid, claim: Claim, launch: Option<Executor>): (State, Response)
  {
    if intent.None? || !claim.known || rid !in active || rid in s.placements || !Entitled(claim) then (s, Invalid)
    else Place(s, inv, intent, qubits, active, Some(rid), launch)
  }

  datatype Step =
    | Reserves(intent: Option<Intent>, qubits: Option<int>, active: set<Rid>, grant: Option<Rid>,
        launch: Option<Executor>)
    | Requests(intent: Option<Intent>, qubits: Option<int>, active: set<Rid>, rid: Rid, claim: Claim,
        launch: Option<Executor>)
    | Evaluates(intent: Option<Intent>, qubits: Option<int>, active: set<Rid>)
    | Releases(rid: Rid, accepted: bool)
    | ShutsDown

  function Next(s: State, inv: Inventory, step: Step): State {
    match step
    case Reserves(intent, qubits, active, grant, launch) => Place(s, inv, intent, qubits, active, grant, launch).0
    case Requests(intent, qubits, active, rid, claim, launch) =>
      Classical(s, inv, intent, qubits, active, rid, claim, launch).0
    case Evaluates(_, _, active) => Reap(s, active)
    case Releases(rid, accepted) => if accepted then Drop(s, {rid}) else s
    case ShutsDown => Drop(s, s.executors.Keys)
  }

  /** With `s` what the active reservations leave: the controller grants an id that
      is not held, and the launcher starts a new executor. */
  ghost predicate Honest(s: State, grant: Option<Rid>, launch: Option<Executor>) {
    (grant.Some? ==> grant.value !in s.placements) && (launch.Some? ==> launch.value !in s.started)
  }

  ghost predicate Legal(s: State, step: Step) {
    match step
    case Reserves(_, _, active, grant, launch) => Honest(Reap(s, active), grant, launch)
    case Requests(_, _, _, _, _, launch) => Honest(s, None, launch)
    case _ => true
  }

  lemma PlaceIsSane(s: State, inv: Inventory, intent: Option<Intent>, qubits: Option<int>, active: set<Rid>,
                    grant: Option<Rid>, launch: Option<Executor>)
    requires Sane(s) && Honest(Reap(s, active), grant, launch)
    ensures Sane(Place(s, inv, intent, qubits, active, grant, launch).0)
    ensures
      var (t, r) := Place(s, inv, intent, qubits, active, grant, launch);
      r.Granted? ==>
        && r.rid !in Reap(s, active).placements && r.rid in t.placements && t.placements[r.rid].placement == r.placement
        && WellFormed(intent, qubits)
        && Meets(inv, intent.value, qubits.value, BusyEntries(Reap(s, active)), r.placement,
           t.placements[r.rid].entries)
  {
    var reaped := Reap(s, active);
    DropIsSane(s, s.placements.Keys - active);
    var m := Match(inv, intent, qubits, BusyEntries(reaped));
    MatchIsSound(inv, intent, qubits, BusyEntries(reaped));
    if m.Accepted? && grant.Some? && launch.Some? {
      AttachIsSane(reaped, grant.value, Held(m.placement, m.entries), launch.value);
    }
  }

  /** What a request to place does: reservations that are no longer active are given
      up; what is granted is held for the reservation, runs in the new executor, and
      gives the intent what it asks for out of entries no active reservation holds;
      and a request that is not granted holds nothing. */
  ghost predicate Placed(before: State, after: State, r: Response, inv: Inventory, intent: Option<Intent>,
                         qubits: Option<int>, active: set<Rid>, grant: Option<Rid>, launch: Option<Executor>) {
    var gone := before.placements.Keys - active;
    if r.Granted? then
      && grant == Some(r.rid) && launch.Some? && WellFormed(intent, qubits) && r.rid in after.placements
      && after.placements[r.rid].placement == r.placement
      && after.placements == (before.placements - gone)[r.rid := after.placements[r.rid]]
      && after.executors == (before.executors - gone)[r.rid := launch.value]
      && after.started == before.started + {launch.value}
      && after.stopped == before.stopped + (set x | x in gone && x in before.executors :: before.executors[x])
      && Meets(inv, intent.value, qubits.value, {}, r.placement, after.placements[r.rid].entries)
      && (forall e | e in after.placements[r.rid].entries :: !Taken(before, active, e))
    else
      && GaveUp(before, after, gone) && !r.Done? && r != Invalid
      && (r == Denied ==> grant.None?) && (r == StartFailed ==> grant.Some? && launch.None?)
      && (grant.Some? && launch.Some? ==> r.NoFit?)
  }

  lemma PlacePlaces(s: State, inv: Inventory, intent: Option<Intent>, qubits: Option<int>, active: set<Rid>,
                    grant: Option<Rid>, launch: Option<Executor>)
    ensures
      var (t, r) := Place(s, inv, intent, qubits, active, grant, launch);
      Placed(s, t, r, inv, intent, qubits, active, grant, launch)
  {
    var reaped := Reap(s, active);
    BusyIsTaken(s, active);
    var m := Match(inv, intent, qubits, BusyEntries(reaped));
    MatchIsSound(inv, intent, qubits, BusyEntries(reaped));
    if m.Accepted? {
      FreeOfAll(inv, intent.value, qubits.value, BusyEntries(reaped), m.placement, m.entries);
    }
  }

  lemma FreeOfAll(inv: Inventory, i: Intent, qubits: int, busy: set<Name>, p: Placement, entries: seq<Name>)
    requires Meets(inv, i, qubits, busy, p, entries)
    ensures Meets(inv, i, qubits, {}, p, entries) && forall e | e in entries :: e !in busy
  {
  }

  /** The reservation is the asker's, as far as it is recorded whose it is. */
  ghost predicate Owns(c: Claim) {
    (c.owner.Some? ==> c.asksOwner == c.owner) && (c.job.Some? ==> c.asksJob == c.job)
  }

  ghost predicate PlacedSomehow(before: State, after: State, inv: Inventory, intent: Option<Intent>,
                                qubits: Option<int>, active: set<Rid>, grant: Option<Rid>, launch: Option<Executor>) {
    exists r :: Placed(before, after, r, inv, intent, qubits, active, grant, launch)
  }

  /** What a step does to what is held. */
  ghost predicate Does(s: State, t: State, inv: Inventory, step: Step) {
    match step
    case Reserves(intent, qubits, active, grant, launch) =>
      PlacedSomehow(s, t, inv, intent, qubits, active, grant, launch)
    case Requests(intent, qubits, active, rid, claim, launch) =>
      if intent.Some? && claim.known && rid in active && rid !in s.placements && Owns(claim) then
        PlacedSomehow(s, t, inv, intent, qubits, active, Some(rid), launch)
      else t == s
    case Evaluates(_, _, active) => GaveUp(s, t, s.placements.Keys - active)
    case Releases(rid, accepted) => if accepted then GaveUp(s, t, {rid}) else t == s
    case ShutsDown => GaveUp(s, t, s.executors.Keys)
  }

  lemma PlaceIsSome(s: State, inv: Inventory, intent: Option<Intent>, qubits: Option<int>, active: set<Rid>,
                    grant: Option<Rid>, launch: Option<Executor>)
    ensures PlacedSomehow(s, Place(s, inv, intent, qubits, active, grant, launch).0, inv, intent, qubits, active,
                          grant, launch)
  {
    PlacePlaces(s, inv, intent, qubits, active, grant, launch);
  }

  lemma RequestMeans(s: State, inv: Inventory, step: Step)
    requires step.Requests?
    ensures Does(s, Next(s, inv, step), inv, step)
  {
    PlaceIsSome(s, inv, step.intent, step.qubits, step.active, Some(step.rid), step.launch);
  }

  lemma StepMeans(s: State, inv: Inventory, step: Step)
    ensures Does(s, Next(s, inv, step), inv, step)
  {
    match step
    case Reserves(intent, qubits, active, grant, launch) => PlaceIsSome(s, inv, intent, qubits, active, grant, launch);
    case Requests(_, _, _, _, _, _) => RequestMeans(s, inv, step);
    case Evaluates(_, _, active) => DropGivesUp(s, s.placements.Keys - active);
    case Releases(rid, _) => DropGivesUp(s, {rid});
    case ShutsDown => DropGivesUp(s, s.executors.Keys);
  }

  lemma StepIsSane(s: State, inv: Inventory, step: Step)
    requires Sane(s) && Legal(s, step)
    ensures Sane(Next(s, inv, step))
  {
    match step
    case Reserves(intent, qubits, active, grant, launch) =>
      PlaceIsSane(s, inv, intent, qubits, active, grant, launch);
    case Requests(intent, qubits, active, rid, claim, launch) =>
      if rid !in s.placements {
        PlaceIsSane(s, inv, intent, qubits, active, Some(rid), launch);
      }
    case Evaluates(_, _, active) => DropIsSane(s, s.placements.Keys - active);
    case Releases(rid, _) => DropIsSane(s, {rid});
    case ShutsDown => DropIsSane(s, s.executors.Keys);
  }

  function Run(s: State, inv: Inventory, steps: seq<Step>): State
    decreases |steps|
  {
    if steps == [] then s else Run(Next(s, inv, steps[0]), inv, steps[1..])
  }

  ghost predicate LegalRun(s: State, inv: Inventory, steps: seq<Step>)
    decreases |steps|
  {
    steps == [] || (Legal(s, steps[0]) && LegalRun(Next(s, inv, steps[0]), inv, steps[1..]))
  }

  /** Over every run of reservations, classical requests, releases, expiries and
      shutdowns: no inventory entry is held twice and no executor runs that no
      held reservation owns. */
  lemma {:induction false} EveryRunIsSane(s: State, inv: Inventory, steps: seq<Step>)
    requires Sane(s) && LegalRun(s, inv, steps)
    ensures Sane(Run(s, inv, steps))
    decreases |steps|
  {
    if steps != [] {
      StepIsSane(s, inv, steps[0]);
      EveryRunIsSane(Next(s, inv, steps[0]), inv, steps[1..]);
    }
  }

  /** After a shutdown nothing is held and every executor ever started has been
      stopped. */
  lemma ShutdownStopsEverything(s: State, inv: Inventory)
    requires Sane(s)
    ensures
      var t := Next(s, inv, ShutsDown);
      t.placements == map[] && t.executors == map[] && t.started == t.stopped
  {
    var t := Next(s, inv, ShutsDown);
    StepIsSane(s, inv, ShutsDown);
    assert t.executors == map[];
    forall e | e in t.started ensures e in t.stopped {
      assert !Owned(t.executors, e);
    }
  }

  class QPM {
    const inventory: Inventory
    var placements: map<Rid, Held>
    var executors: map<Rid, Executor>
    var started: set<Executor>
    var stopped: set<Executor>

    function View(): State
      reads this
    {
      State(placements, executors, started, stopped)
    }

    constructor (inventory: Inventory)
      ensures this.inventory == inventory && View() == NOTHING && Sane(View())
    {
      this.inventory := inventory;
      placements, executors, started, stopped := map[], map[], {}, {};
    }

    method DropOne(rid: Rid)
      modifies this
      ensures View() == Drop(old(View()), {rid})
      ensures GaveUp(old(View()), View(), {rid})
    {
      DropGivesUp(View(), {rid});
      placements := placements - {rid};
      if rid in executors {
        stopped := stopped + {executors[rid]};
      }
      executors := executors - {rid};
      assert stopped == Drop(old(View()), {rid}).stopped;
    }

    /** Entries of active reservations; the others are dropped on the way. */
    method Busy(active: set<Rid>) returns (busy: set<Name>)
      modifies this
      ensures View() == Reap(old(View()), active)
      ensures busy == BusyEntries(View())
      ensures GaveUp(old(View()), View(), old(placements).Keys - active)
      ensures forall e :: e in busy <==> Taken(old(View()), active, e)
    {
      BusyIsTaken(View(), active);
      ghost var before := View();
      busy := {};
      var todo := placements.Keys;
      ghost var gone: set<Rid> := {};
      DropNone(before);
      while todo != {}
        invariant todo <= placements.Keys && View() == Drop(before, gone)
        invariant before.placements.Keys - active == gone + (todo - active)
        invariant busy == EntriesOf(placements, placements.Keys - todo)
        decreases todo
      {
        var rid :| rid in todo;
        ghost var seen := placements.Keys - todo;
        if rid in active {
          busy := busy + Elements(placements[rid].entries);
          EntriesGrow(placements, seen, rid);
          assert placements.Keys - (todo - {rid}) == seen + {rid};
        } else {
          DropInTurn(before, gone, {rid});
          DropOne(rid);
          gone := gone + {rid};
          assert placements.Keys - (todo - {rid}) == seen;
        }
        todo := todo - {rid};
      }
      assert placements.Keys - {} == placements.Keys;
    }

    /** Reserves on entries no active reservation holds, or leaves nothing behind. */
    method Reserve(intent: Option<Intent>, qubits: Option<int>, active: set<Rid>, grant: Option<Rid>,
                   launch: Option<Executor>) returns (r: Response)
      requires Sane(View()) && Honest(Reap(View(), active), grant, launch)
      modifies this
      ensures (View(), r) == Place(old(View()), inventory, intent, qubits, active, grant, launch)
      ensures Sane(View())
      ensures Placed(old(View()), View(), r, inventory, intent, qubits, active, grant, launch)
    {
      PlacePlaces(View(), inventory, intent, qubits, active, grant, launch);
      PlaceIsSane(View(), inventory, intent, qubits, active, grant, launch);
      var busy := Busy(active);
      var m := Match(inventory, intent, qubits, busy);
      match m
      case Rejected(reason) =>
        return NoFit(reason);
      case Accepted(placement, entries) =>
        if grant.None? {
          return Denied;
        }
        if launch.None? {
          return StartFailed;
        }
        started := started + {launch.value};
        placements := placements[grant.value := Held(placement, entries)];
        executors := executors[grant.value := launch.value];
        return Granted(grant.value, placement);
    }

    /** Classical resources for a reservation of the asker's own that is active and has
        none yet; any other request changes nothing. */
    method ClassicalRequest(intent: Option<Intent>, qubits: Option<int>, active: set<Rid>, rid: Rid, claim: Claim,
                            launch: Option<Executor>) returns (r: Response)
      requires Sane(View()) && Honest(View(), None, launch)
      modifies this
      ensures (View(), r) == Classical(old(View()), inventory, intent, qubits, active, rid, claim, launch)
      ensures Sane(View())
      ensures r == Invalid <==>
                intent.None? || !claim.known || rid !in active || rid in old(placements) || !Owns(claim)
      ensures r == Invalid ==> View() == old(View())
      ensures r != Invalid ==> Placed(old(View()), View(), r, inventory, intent, qubits, active, Some(rid), launch)
      ensures r.Granted? ==> r.rid == rid && Owns(claim)
    {
      if intent.None? || !claim.known || rid !in active || rid in placements || !Entitled(claim) {
        return Invalid;
      }
      r := Reserve(intent, qubits, active, Some(rid), launch);
    }

    method Release(rid: Rid, accepted: bool)
      requires Sane(View())
      modifies this
      ensures View() == Next(old(View()), inventory, Releases(rid, accepted))
      ensures Sane(View())
      ensures if accepted then GaveUp(old(View()), View(), {rid}) else View() == old(View())
    {
      StepIsSane(View(), inventory, Releases(rid, accepted));
      if accepted {
        DropOne(rid);
      }
    }

    method ShutdownProvider()
      requires Sane(View())
      modifies this
      ensures View() == Next(old(View()), inventory, ShutsDown)
      ensures Sane(View()) && started == stopped && placements == map[]
    {
      ShutdownStopsEverything(View(), inventory);
      StepIsSane(View(), inventory, ShutsDown);
      ghost var before := View();
      var todo := executors.Keys;
      ghost var gone: set<Rid> := {};
      DropNone(before);
      while todo != {}
        invariant View() == Drop(before, gone) && gone + todo == before.executors.Keys
        decreases todo
      {
        var rid :| rid in todo;
        DropInTurn(before, gone, {rid});
        DropOne(rid);
        gone := gone + {rid};
        todo := todo - {rid};
      }
    }
  }
}
