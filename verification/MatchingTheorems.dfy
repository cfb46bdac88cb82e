/** What accepted placements guarantee, and exactly when the greedy choice of
    coprocessors can miss a fit. */
module MatchingTheorems {
  import opened Comprehensions
  import opened Prelude
  import opened Ordering
  import opened Matcher
  import opened Matching

  // --------------------------------------------------------- what an intent asks for

  /** The requests that are not refused as invalid. */
  ghost predicate WellFormed(intent: Option<Intent>, qubits: Option<int>) {
    && intent.Some? && intent.value.version == 1 && qubits.Some? && qubits.value >= 1
    && !intent.value.coprocessors.Malformed? && !intent.value.code.Malformed? && !intent.value.transport.Malformed?
    && !intent.value.controllerKind.Malformed? && !intent.value.limit.Malformed?
  }

  /** One decoder of any kind unless coprocessors are listed. */
  ghost function WantsOf(i: Intent): seq<Want> {
    if i.coprocessors.Given? && i.coprocessors.value != [] then i.coprocessors.value else [Want(None, None)]
  }

  ghost function Said<T>(f: Field<Option<T>>): Option<T> {
    if f.Given? then f.value else None
  }

  ghost function AskedBy(i: Intent): Asked {
    Asked(WantsOf(i), Said(i.code), Said(i.transport), Said(i.controllerKind), Said(i.limit))
  }

  lemma ReadIs(intent: Option<Intent>, qubits: Option<int>)
    ensures Read(intent, qubits) == if WellFormed(intent, qubits) then Some(AskedBy(intent.value)) else None
  {
  }

  /** A coprocessor and a decoder meet one want of an intent on transport `t`: the
      code and hardware asked for, the decoder named, and the latency asked for. */
  ghost predicate MeetsWant(inv: Inventory, i: Intent, t: Name, want: Want, c: Coprocessor, d: Decoder) {
    && c in inv.coprocessors && d in inv.decoders && c.hardware == d.hardware && t in c.transports
    && i.code == Given(Some(d.code))
    && (want.kind.Some? ==> d.hardware == want.kind.value)
    && (want.decoder.Some? ==> want.decoder.value == Named(d.code) || want.decoder.value == Named(d.id))
    && (i.limit.Given? && i.limit.value.Some? ==> d.roundTrip.Some? && d.roundTrip.value <= i.limit.value.value)
  }

  ghost predicate MeetsController(inv: Inventory, i: Intent, t: Name, c: Controller) {
    && c in inv.controllers && t in c.transports
    && (i.controllerKind.Given? && i.controllerKind.value.Some? ==> c.hardware == i.controllerKind.value.value)
  }

  ghost predicate PrefersTransport(i: Intent, t: Name) {
    i.transport.Given? && i.transport.value.Some? ==> t == i.transport.value.value
  }

  ghost predicate NodeMeets(inv: Inventory, i: Intent, t: Name, want: Want, n: Node) {
    exists c, d :: MeetsWant(inv, i, t, want, c, d) && n == Node(c.id, c.hardware, d.symbol, d.lib)
  }

  ghost predicate ControllerMeets(inv: Inventory, i: Intent, p: Placement) {
    exists c :: MeetsController(inv, i, p.transport, c) &&
      c.id == p.controller && c.hardware == p.hardware && c.device == p.device
  }

  /** A placement gives an intent what it asks for, one free and distinct entry for
      the controller and for every want. */
  ghost predicate Meets(inv: Inventory, i: Intent, qubits: int, busy: set<Name>, p: Placement, entries: seq<Name>) {
    && i.code == Given(Some(p.code)) && PrefersTransport(i, p.transport) && p.wires == qubits
    && ControllerMeets(inv, i, p)
    && |p.nodes| == |WantsOf(i)|
    && (forall k | 0 <= k < |p.nodes| :: NodeMeets(inv, i, p.transport, WantsOf(i)[k], p.nodes[k]))
    && |entries| == |p.nodes| + 1 && entries[0] == p.controller
    && (forall k | 0 <= k < |p.nodes| :: entries[k + 1] == p.nodes[k].name)
    && NoDuplicates(entries)
    && (forall k | 0 <= k < |entries| :: entries[k] !in busy)
  }

  ghost predicate CanMeet(inv: Inventory, i: Intent, t: Name, want: Want, id: Name) {
    exists c, d :: MeetsWant(inv, i, t, want, c, d) && c.id == id
  }

  ghost predicate CanMeetAll(inv: Inventory, i: Intent, t: Name, busy: set<Name>, f: seq<Name>) {
    && |f| == |WantsOf(i)| && NoDuplicates(f)
    && forall k | 0 <= k < |f| :: f[k] !in busy && CanMeet(inv, i, t, WantsOf(i)[k], f[k])
  }

  /** The intent can be met on transport `t`: a free controller and a distinct free
      coprocessor for every want. */
  ghost predicate CanPlace(inv: Inventory, i: Intent, t: Name, busy: set<Name>) {
    && PrefersTransport(i, t)
    && (exists c :: MeetsController(inv, i, t, c) && c.id !in busy)
    && (exists f :: CanMeetAll(inv, i, t, busy, f))
  }

  lemma ServesIsMeets(inv: Inventory, i: Intent, code: Name, t: Name, want: Want, c: Coprocessor, d: Decoder)
    requires i.code == Given(Some(code))
    ensures Serves(inv, t, code, Said(i.limit), want, (c, d)) <==> MeetsWant(inv, i, t, want, c, d)
  {
  }

  lemma HonoursIsMeets(inv: Inventory, i: Intent, qubits: int, busy: set<Name>, p: Placement, entries: seq<Name>)
    requires Honours(inv, AskedBy(i), qubits, busy, p, entries)
    ensures Meets(inv, i, qubits, busy, p, entries)
  {
    forall k | 0 <= k < |p.nodes| ensures NodeMeets(inv, i, p.transport, WantsOf(i)[k], p.nodes[k]) {
      assert NodeServes(inv, p.transport, p.code, Said(i.limit), WantsOf(i)[k], p.nodes[k]);
      var c, d :| Serves(inv, p.transport, p.code, Said(i.limit), WantsOf(i)[k], (c, d))
          && p.nodes[k] == Node(c.id, c.hardware, d.symbol, d.lib);
      ServesIsMeets(inv, i, p.code, p.transport, WantsOf(i)[k], c, d);
    }
    var c :| c in inv.controllers && (Said(i.controllerKind).None? || Said(i.controllerKind).value == c.hardware)
      && p.transport in c.transports && c.id == p.controller && c.hardware == p.hardware && c.device == p.device;
    assert MeetsController(inv, i, p.transport, c);
  }

  lemma PlaceableIs(inv: Inventory, i: Intent, t: Name, busy: set<Name>)
    ensures Placeable(inv, AskedBy(i), t, busy) <==> CanPlace(inv, i, t, busy)
  {
    var a := AskedBy(i);
    if CanPlace(inv, i, t, busy) {
      var f :| CanMeetAll(inv, i, t, busy, f);
      SomeCode(inv, i, t, busy, f);
      PlacesIs(inv, i, t, busy, f);
      var c :| MeetsController(inv, i, t, c) && c.id !in busy;
      assert FreeController(inv, a, t, busy);
    }
    if Placeable(inv, a, t, busy) {
      var f :| Places(inv, a, t, busy, f);
      PlacesIs(inv, i, t, busy, f);
      var c :| c in inv.controllers && (a.kind.None? || a.kind.value == c.hardware) && t in c.transports
          && c.id !in busy;
      assert MeetsController(inv, i, t, c);
    }
  }

  lemma SomeCode(inv: Inventory, i: Intent, t: Name, busy: set<Name>, f: seq<Name>)
    requires CanMeetAll(inv, i, t, busy, f)
    ensures Said(i.code).Some? && i.code == Given(Said(i.code))
  {
    assert CanMeet(inv, i, t, WantsOf(i)[0], f[0]);
  }

  lemma PlacesIs(inv: Inventory, i: Intent, t: Name, busy: set<Name>, f: seq<Name>)
    requires Said(i.code).Some?
    ensures Places(inv, AskedBy(i), t, busy, f) <==> CanMeetAll(inv, i, t, busy, f)
  {
    if |f| == |WantsOf(i)| {
      forall k | 0 <= k < |f|
        ensures CanServe(inv, AskedBy(i), t, WantsOf(i)[k], f[k]) <==> CanMeet(inv, i, t, WantsOf(i)[k], f[k])
      {
        CanServeIs(inv, i, t, WantsOf(i)[k], f[k]);
      }
    }
  }

  lemma CanServeIs(inv: Inventory, i: Intent, t: Name, want: Want, id: Name)
    requires Said(i.code).Some?
    ensures CanServe(inv, AskedBy(i), t, want, id) <==> CanMeet(inv, i, t, want, id)
  {
    var code := Said(i.code).value;
    if CanServe(inv, AskedBy(i), t, want, id) {
      var p :| Serves(inv, t, code, Said(i.limit), want, p) && p.0.id == id;
      ServesIsMeets(inv, i, code, t, want, p.0, p.1);
      assert p == (p.0, p.1);
    }
    if CanMeet(inv, i, t, want, id) {
      var c, d :| MeetsWant(inv, i, t, want, c, d) && c.id == id;
      ServesIsMeets(inv, i, code, t, want, c, d);
      assert (c, d).0.id == id;
    }
  }

  // ---------------------------------------------------------------------- soundness

  ghost predicate NodeServes(inv: Inventory, transport: Name, code: Name, limit: Option<real>, want: Want, n: Node) {
    exists c, d :: Serves(inv, transport, code, limit, want, (c, d)) && n == Node(c.id, c.hardware, d.symbol, d.lib)
  }

  ghost predicate ControllerServes(inv: Inventory, a: Asked, p: Placement) {
    exists c :: c in inv.controllers && (a.kind.None? || a.kind.value == c.hardware) && p.transport in c.transports
      && c.id == p.controller && c.hardware == p.hardware && c.device == p.device
  }

  /** A placement honours an intent: the right code, kind, transport, hardware
      and latency, one coprocessor per want, and every entry free and distinct. */
  ghost predicate Honours(inv: Inventory, a: Asked, qubits: int, busy: set<Name>, p: Placement, entries: seq<Name>) {
    && a.code == Some(p.code)
    && (a.transport.Some? ==> p.transport == a.transport.value)
    && p.wires == qubits
    && ControllerServes(inv, a, p)
    && |p.nodes| == |a.wanted|
    && (forall i | 0 <= i < |p.nodes| :: NodeServes(inv, p.transport, p.code, a.limit, a.wanted[i], p.nodes[i]))
    && |entries| == |p.nodes| + 1 && entries[0] == p.controller
    && (forall i | 0 <= i < |p.nodes| :: entries[i + 1] == p.nodes[i].name)
    && NoDuplicates(entries)
    && (forall i | 0 <= i < |entries| :: entries[i] !in busy)
  }

  lemma {:induction false} GatheredAt(f: Want -> Options, wanted: seq<Want>, i: nat)
    requires AllOptions(f, wanted).Gathered? && i < |wanted|
    ensures f(wanted[i]) == Options(AllOptions(f, wanted).lists[i])
    decreases |wanted|
  {
    if i < |wanted| - 1 {
      GatheredAt(f, wanted[..|wanted| - 1], i);
    }
  }

  lemma GatheredServe(inv: Inventory, transport: Name, code: Name, limit: Option<real>, wanted: seq<Want>, i: nat,
                      p: Pick)
    requires AllOptions(Chooser(inv, transport, code, limit), wanted).Gathered? && i < |wanted|
    requires p in AllOptions(Chooser(inv, transport, code, limit), wanted).lists[i]
    ensures Serves(inv, transport, code, limit, wanted[i], p)
  {
    GatheredAt(Chooser(inv, transport, code, limit), wanted, i);
    OptionsAreExact(inv, transport, code, limit, wanted[i]);
  }

  lemma MatchOnIsSound(inv: Inventory, transport: Name, a: Asked, qubits: int, busy: set<Name>)
    requires a.code.Some? && (a.transport.Some? ==> a.transport.value == transport)
    ensures
      var r := MatchOn(inv, transport, OfKind(inv, a.kind), a.wanted, a.code.value, a.limit, qubits, busy);
      r.Accepted? ==> Honours(inv, a, qubits, busy, r.placement, r.entries) && r.placement.transport == transport
  {
    var code := a.code.value;
    var r := MatchOn(inv, transport, OfKind(inv, a.kind), a.wanted, code, a.limit, qubits, busy);
    if r.Accepted? {
      var ctrls := Filter(Speaks(transport), OfKind(inv, a.kind));
      FilterMembers(Speaks(transport), OfKind(inv, a.kind));
      FilterMembers(KindIs(a.kind), inv.controllers);
      var ctrl := FirstFree(ctrls, busy).value;
      var lists := AllOptions(Chooser(inv, transport, code, a.limit), a.wanted).lists;
      GreedyIsSound(lists, busy + {ctrl.id});
      var chosen := Greedy(lists, busy + {ctrl.id}).value;
      assert ctrl in inv.controllers;
      assert ControllerServes(inv, a, r.placement);
      forall i | 0 <= i < |a.wanted|
        ensures NodeServes(inv, transport, code, a.limit, a.wanted[i], r.placement.nodes[i])
      {
        GatheredServe(inv, transport, code, a.limit, a.wanted, i, chosen[i]);
        assert chosen[i] == (chosen[i].0, chosen[i].1);
      }
      DistinctCons(ctrl.id, Ids(chosen));
    }
  }

  /** Without a preferred transport the answer comes from the least transport
      that works. */
  lemma {:induction false} LeastTransportWins(on: Name -> Matched, ts: seq<Name>, k: nat)
    requires k < |ts| && on(ts[k]).Accepted? && forall j | 0 <= j < k :: on(ts[j]).Rejected?
    ensures FirstMatch(on, ts) == on(ts[k])
    decreases |ts|
  {
    if k > 0 {
      LeastTransportWins(on, ts[1..], k - 1);
    }
  }

  /** If none works, the least transport's own rejection is reported. */
  lemma {:induction false} FirstRejectionIsReported(on: Name -> Matched, ts: seq<Name>)
    requires forall j | 0 <= j < |ts| :: on(ts[j]).Rejected?
    ensures FirstMatch(on, ts) == if ts == [] then Rejected(UnsupportedTransport) else on(ts[0])
    decreases |ts|
  {
    if ts != [] {
      FirstRejectionIsReported(on, ts[1..]);
    }
  }

  /** An accepted answer is some transport's answer. */
  lemma {:induction false} FirstMatchIsSome(on: Name -> Matched, ts: seq<Name>) returns (t: Name)
    requires FirstMatch(on, ts).Accepted?
    ensures t in ts && on(t) == FirstMatch(on, ts)
    decreases |ts|
  {
    if on(ts[0]).Accepted? {
      t := ts[0];
    } else {
      t := FirstMatchIsSome(on, ts[1..]);
    }
  }

  /** Every placement `match` hands out gives the intent what it asks for. */
  lemma MatchIsSound(inv: Inventory, intent: Option<Intent>, qubits: Option<int>, busy: set<Name>)
    ensures
      var r := Match(inv, intent, qubits, busy);
      r.Accepted? ==>
        WellFormed(intent, qubits) && Meets(inv, intent.value, qubits.value, busy, r.placement, r.entries)
  {
    var r := Match(inv, intent, qubits, busy);
    if r.Accepted? {
      ReadIs(intent, qubits);
      MatchHonours(inv, intent, qubits, busy);
      HonoursIsMeets(inv, intent.value, qubits.value, busy, r.placement, r.entries);
    }
  }

  lemma MatchHonours(inv: Inventory, intent: Option<Intent>, qubits: Option<int>, busy: set<Name>)
    ensures
      var r := Match(inv, intent, qubits, busy);
      r.Accepted? ==>
        && Read(intent, qubits).Some?
        && Honours(inv, Read(intent, qubits).value, qubits.value, busy, r.placement, r.entries)
  {
    var asked, r := Read(intent, qubits), Match(inv, intent, qubits, busy);
    if r.Accepted? {
      var a := asked.value;
      if a.transport.Some? {
        MatchOnIsSound(inv, a.transport.value, a, qubits.value, busy);
      } else {
        var ctrls := OfKind(inv, a.kind);
        var t :=
            FirstMatchIsSome(OnTransport(inv, ctrls, a, a.code.value, qubits.value, busy), Sorted(TransportsOf(ctrls)));
        MatchOnIsSound(inv, t, a, qubits.value, busy);
      }
    }
  }

  // ------------------------------------------------------- completeness of the choice

  /** One free, distinct coprocessor for every want. */
  ghost predicate Assigns(options: seq<seq<Pick>>, taken: set<Name>, f: seq<Name>) {
    && |f| == |options|
    && (forall i | 0 <= i < |f| :: f[i] in Ids(options[i]) && f[i] !in taken)
    && NoDuplicates(f)
  }

  /** Of the coprocessors on `a`, once one also serves `b` all later ones do:
      `a` lists first what `b` cannot use. */
  ghost predicate Defers(a: seq<Name>, b: seq<Name>) {
    forall x, y | x in a && y in a && IndexOf(a, x) < IndexOf(a, y) && x in b :: y in b
  }

  ghost predicate Orderly(options: seq<seq<Pick>>) {
    forall i, j | 0 <= i < j < |options| :: Defers(Ids(options[i]), Ids(options[j]))
  }

  lemma {:induction false} FirstPickIsFirst(ps: seq<Pick>, taken: set<Name>, y: Name)
    requires y in Ids(ps) && y !in taken
    ensures
      var r := FirstPick(ps, taken);
      r.Some? && r.value.0.id in Ids(ps) && (r.value.0.id == y || IndexOf(Ids(ps), r.value.0.id) < IndexOf(Ids(ps), y))
    decreases |ps|
  {
    var ids := Ids(ps);
    assert ids[0] == ps[0].0.id;
    if ps[0].0.id in taken {
      assert Ids(ps[1..]) == ids[1..];
      assert y in ids[1..] by {
        var k := IndexOf(ids, y);
        assert ids[1..][k - 1] == y;
      }
      FirstPickIsFirst(ps[1..], taken, y);
    }
  }

  /** Exchange: when the first want takes `x` instead of `f[0]`, the want that
      had `x` can take `f[0]`. */
  lemma Exchanged(options: seq<seq<Pick>>, taken: set<Name>, f: seq<Name>, x: Name) returns (g: seq<Name>)
    requires options != [] && Orderly(options) && Assigns(options, taken, f)
    requires x in Ids(options[0]) && (x == f[0] || IndexOf(Ids(options[0]), x) < IndexOf(Ids(options[0]), f[0]))
    ensures Assigns(options[1..], taken + {x}, g)
  {
    g := f[1..];
    if x in g {
      var k := IndexOf(g, x);
      assert f[k + 1] == x && f[0] != x;
      assert Defers(Ids(options[0]), Ids(options[k + 1]));
      g := g[k := f[0]];
    }
    forall i | 0 <= i < |g| ensures g[i] in Ids(options[1..][i]) && g[i] !in taken + {x} {
      assert options[1..][i] == options[i + 1] && f[i + 1] in Ids(options[i + 1]);
    }
  }

  lemma OrderlyTail(options: seq<seq<Pick>>)
    requires options != [] && Orderly(options)
    ensures Orderly(options[1..])
  {
    var rest := options[1..];
    forall i, j | 0 <= i < j < |rest| ensures Defers(Ids(rest[i]), Ids(rest[j])) {
      assert rest[i] == options[i + 1] && rest[j] == options[j + 1];
    }
  }

  /** With orderly options the greedy choice finds a fit whenever there is one. */
  lemma {:induction false} GreedyIsComplete(options: seq<seq<Pick>>, taken: set<Name>, f: seq<Name>)
    requires Orderly(options) && Assigns(options, taken, f)
    ensures Greedy(options, taken).Some?
    decreases |options|
  {
    if options != [] {
      FirstPickIsFirst(options[0], taken, f[0]);
      var x := FirstPick(options[0], taken).value.0.id;
      var g := Exchanged(options, taken, f, x);
      OrderlyTail(options);
      GreedyIsComplete(options[1..], taken + {x}, g);
    }
  }

  lemma OneWantIsOrderly(options: seq<seq<Pick>>)
    requires |options| <= 1
    ensures Orderly(options)
  {
  }

  lemma EqualWantsAreOrderly(options: seq<seq<Pick>>)
    requires forall i, j | 0 <= i < j < |options| :: options[i] == options[j]
    ensures Orderly(options)
  {
  }

  /** The condition is exact for two wants: without it some busy set makes the
      greedy choice miss a fit. */
  lemma TwoWantsNeedOrder(a: seq<Pick>, b: seq<Pick>)
    ensures Orderly([a, b]) <==> forall taken, f :: Assigns([a, b], taken, f) ==> Greedy([a, b], taken).Some?
  {
    if Orderly([a, b]) {
      forall taken, f | Assigns([a, b], taken, f) ensures Greedy([a, b], taken).Some? {
        GreedyIsComplete([a, b], taken, f);
      }
    } else {
      var taken, f := GreedyMisses(a, b);
    }
  }

  lemma GreedyMisses(a: seq<Pick>, b: seq<Pick>) returns (taken: set<Name>, f: seq<Name>)
    requires !Orderly([a, b])
    ensures Assigns([a, b], taken, f) && Greedy([a, b], taken).None?
  {
    assert !Defers(Ids(a), Ids(b));
    var x, y :| x in Ids(a) && y in Ids(a) && IndexOf(Ids(a), x) < IndexOf(Ids(a), y) && x in Ids(b) && y !in Ids(b);
    taken := Elements(Ids(a) + Ids(b)) - {x, y};
    f := [y, x];
    SwappedFits(a, b, x, y);
    assert [a, b][1..] == [b];
    FirstTakesShared(a, b, x, y);
    NothingLeft(a, b, x, y);
  }

  lemma SwappedFits(a: seq<Pick>, b: seq<Pick>, x: Name, y: Name)
    requires y in Ids(a) && x in Ids(b) && x != y
    ensures Assigns([a, b], Elements(Ids(a) + Ids(b)) - {x, y}, [y, x])
  {
  }

  lemma FirstTakesShared(a: seq<Pick>, b: seq<Pick>, x: Name, y: Name)
    requires x in Ids(a) && y in Ids(a) && IndexOf(Ids(a), x) < IndexOf(Ids(a), y)
    ensures
      var pick := FirstPick(a, Elements(Ids(a) + Ids(b)) - {x, y});
      pick.Some? && pick.value.0.id == x
  {
    var taken := Elements(Ids(a) + Ids(b)) - {x, y};
    FirstPickIsFirst(a, taken, x);
    var z := FirstPick(a, taken).value.0.id;
    assert z in Ids(a) && z in Elements(Ids(a) + Ids(b));
  }

  lemma NothingLeft(a: seq<Pick>, b: seq<Pick>, x: Name, y: Name)
    requires y !in Ids(b)
    ensures FirstPick(b, Elements(Ids(a) + Ids(b)) - {x, y} + {x}).None?
  {
    var taken := Elements(Ids(a) + Ids(b)) - {x, y} + {x};
    forall p | p in b ensures p.0.id in taken {
      var k := IndexOf(b, p);
      assert Ids(b)[k] == p.0.id;
      assert (Ids(a) + Ids(b))[|a| + k] == p.0.id;
    }
  }

  /** Controllers and coprocessors never share an id. */
  ghost predicate SeparateIds(inv: Inventory) {
    forall c, p | c in inv.controllers && p in inv.coprocessors :: c.id != p.id
  }

  ghost predicate FitExists(inv: Inventory, transport: Name, kindMatches: seq<Controller>, lists: seq<seq<Pick>>,
                            busy: set<Name>) {
    && (exists c :: c in kindMatches && transport in c.transports && c.id !in busy)
    && (exists f :: Assigns(lists, busy, f))
  }

  lemma AvoidsController(inv: Inventory, transport: Name, code: Name, limit: Option<real>, wanted: seq<Want>,
                         busy: set<Name>, f: seq<Name>, ctrl: Controller)
    requires SeparateIds(inv) && ctrl in inv.controllers
    requires AllOptions(Chooser(inv, transport, code, limit), wanted).Gathered?
    requires Assigns(AllOptions(Chooser(inv, transport, code, limit), wanted).lists, busy, f)
    ensures Assigns(AllOptions(Chooser(inv, transport, code, limit), wanted).lists, busy + {ctrl.id}, f)
  {
    var lists := AllOptions(Chooser(inv, transport, code, limit), wanted).lists;
    forall i | 0 <= i < |f| ensures f[i] != ctrl.id {
      var k := IndexOf(Ids(lists[i]), f[i]);
      GatheredServe(inv, transport, code, limit, wanted, i, lists[i][k]);
    }
  }

  /** A free controller and an assignment are enough to be placed. */
  lemma FitIsFound(inv: Inventory, transport: Name, kind: Option<Name>, wanted: seq<Want>, code: Name,
                   limit: Option<real>, qubits: int, busy: set<Name>,
                   c: Controller, f: seq<Name>)
    requires SeparateIds(inv)
    requires AllOptions(Chooser(inv, transport, code, limit), wanted).Gathered?
    requires Orderly(AllOptions(Chooser(inv, transport, code, limit), wanted).lists)
    requires c in OfKind(inv, kind) && transport in c.transports && c.id !in busy
    requires Assigns(AllOptions(Chooser(inv, transport, code, limit), wanted).lists, busy, f)
    ensures MatchOn(inv, transport, OfKind(inv, kind), wanted, code, limit, qubits, busy).Accepted?
  {
    var lists := AllOptions(Chooser(inv, transport, code, limit), wanted).lists;
    var ctrls := Filter(Speaks(transport), OfKind(inv, kind));
    FilterMembers(Speaks(transport), OfKind(inv, kind));
    FilterMembers(KindIs(kind), inv.controllers);
    assert c in ctrls;
    var ctrl := FirstFree(ctrls, busy).value;
    AvoidsController(inv, transport, code, limit, wanted, busy, f, ctrl);
    GreedyIsComplete(lists, busy + {ctrl.id}, f);
  }

  /** A capacity rejection is final: no controller is free, or no choice of
      distinct free coprocessors serves every want. */
  lemma CapacityRejectionIsFinal(inv: Inventory, transport: Name, kind: Option<Name>, wanted: seq<Want>, code: Name,
                                 limit: Option<real>, qubits: int, busy: set<Name>)
    requires SeparateIds(inv)
    requires AllOptions(Chooser(inv, transport, code, limit), wanted).Gathered?
    requires Orderly(AllOptions(Chooser(inv, transport, code, limit), wanted).lists)
    requires MatchOn(inv, transport, OfKind(inv, kind), wanted, code, limit, qubits, busy)
              == Rejected(CapacityExhausted)
    ensures !FitExists(inv, transport, OfKind(inv, kind),
              AllOptions(Chooser(inv, transport, code, limit), wanted).lists, busy)
  {
    var lists := AllOptions(Chooser(inv, transport, code, limit), wanted).lists;
    forall c, f | c in OfKind(inv, kind) && transport in c.transports && c.id !in busy && Assigns(lists, busy, f)
      ensures false
    {
      FitIsFound(inv, transport, kind, wanted, code, limit, qubits, busy, c, f);
    }
  }

  // ---------------------------------------------------------- completeness of `match`

  ghost predicate CanServe(inv: Inventory, a: Asked, t: Name, want: Want, id: Name)
    requires a.code.Some?
  {
    exists p :: Serves(inv, t, a.code.value, a.limit, want, p) && p.0.id == id
  }

  /** One distinct free coprocessor that serves it for every want. */
  ghost predicate Places(inv: Inventory, a: Asked, t: Name, busy: set<Name>, f: seq<Name>)
    requires a.code.Some?
  {
    && |f| == |a.wanted| && NoDuplicates(f)
    && forall i | 0 <= i < |f| :: f[i] !in busy && CanServe(inv, a, t, a.wanted[i], f[i])
  }

  ghost predicate FreeController(inv: Inventory, a: Asked, t: Name, busy: set<Name>) {
    exists c ::
        c in inv.controllers && (a.kind.None? || a.kind.value == c.hardware) && t in c.transports && c.id !in busy
  }

  /** The intent can be met on transport `t`, read off the inventory alone. */
  ghost predicate Placeable(inv: Inventory, a: Asked, t: Name, busy: set<Name>) {
    && a.code.Some? && (a.transport.Some? ==> t == a.transport.value)
    && FreeController(inv, a, t, busy)
    && exists f :: Places(inv, a, t, busy, f)
  }

  function ListsOn(inv: Inventory, a: Asked, t: Name): Gathered
    requires a.code.Some?
  {
    AllOptions(Chooser(inv, t, a.code.value, a.limit), a.wanted)
  }

  /** The options of the wants, where there are any, are in an order that never
      makes the greedy choice miss a fit. */
  ghost predicate OrderlyOn(inv: Inventory, a: Asked, t: Name) {
    a.code.Some? && ListsOn(inv, a, t).Gathered? ==> Orderly(ListsOn(inv, a, t).lists)
  }

  lemma {:induction false} AllServed(f: Want -> Options, wanted: seq<Want>)
    requires forall i | 0 <= i < |wanted| :: f(wanted[i]).Options?
    ensures AllOptions(f, wanted).Gathered?
    decreases |wanted|
  {
    if wanted != [] {
      AllServed(f, wanted[..|wanted| - 1]);
    }
  }

  lemma ServedIsGathered(inv: Inventory, a: Asked, t: Name, busy: set<Name>, f: seq<Name>)
    requires a.code.Some? && Places(inv, a, t, busy, f)
    ensures ListsOn(inv, a, t).Gathered?
  {
    var chooser := Chooser(inv, t, a.code.value, a.limit);
    forall i | 0 <= i < |a.wanted| ensures chooser(a.wanted[i]).Options? {
      assert CanServe(inv, a, t, a.wanted[i], f[i]);
      OptionsAreExact(inv, t, a.code.value, a.limit, a.wanted[i]);
    }
    AllServed(chooser, a.wanted);
  }

  lemma PlaceIsAssignment(inv: Inventory, a: Asked, t: Name, busy: set<Name>, f: seq<Name>)
    requires a.code.Some? && Places(inv, a, t, busy, f) && ListsOn(inv, a, t).Gathered?
    ensures Assigns(ListsOn(inv, a, t).lists, busy, f)
  {
    var lists := ListsOn(inv, a, t).lists;
    forall i | 0 <= i < |f| ensures f[i] in Ids(lists[i]) {
      assert CanServe(inv, a, t, a.wanted[i], f[i]);
      var p :| Serves(inv, t, a.code.value, a.limit, a.wanted[i], p) && p.0.id == f[i];
      GatheredAt(Chooser(inv, t, a.code.value, a.limit), a.wanted, i);
      OptionsAreExact(inv, t, a.code.value, a.limit, a.wanted[i]);
      var k := IndexOf(lists[i], p);
      assert Ids(lists[i])[k] == f[i];
    }
  }

  lemma PlaceableIsMatched(inv: Inventory, a: Asked, t: Name, qubits: int, busy: set<Name>)
    requires SeparateIds(inv) && Placeable(inv, a, t, busy) && OrderlyOn(inv, a, t)
    ensures MatchOn(inv, t, OfKind(inv, a.kind), a.wanted, a.code.value, a.limit, qubits, busy).Accepted?
    ensures t in TransportsOf(OfKind(inv, a.kind)) && OfKind(inv, a.kind) != []
  {
    var f :| Places(inv, a, t, busy, f);
    ServedIsGathered(inv, a, t, busy, f);
    PlaceIsAssignment(inv, a, t, busy, f);
    var c :| c in inv.controllers && (a.kind.None? || a.kind.value == c.hardware) && t in c.transports && c.id !in busy;
    FilterMembers(KindIs(a.kind), inv.controllers);
    assert c in OfKind(inv, a.kind);
    FitIsFound(inv, t, a.kind, a.wanted, a.code.value, a.limit, qubits, busy, c, f);
  }

  lemma {:induction false} FirstMatchFinds(on: Name -> Matched, ts: seq<Name>, t: Name)
    requires t in ts && on(t).Accepted?
    ensures FirstMatch(on, ts).Accepted?
    decreases |ts|
  {
    if t != ts[0] {
      FirstMatchFinds(on, ts[1..], t);
    }
  }

  lemma CodeIsOffered(inv: Inventory, a: Asked, t: Name, busy: set<Name>)
    requires a.wanted != [] && Placeable(inv, a, t, busy)
    ensures exists d :: d in inv.decoders && d.code == a.code.value
  {
    var f :| Places(inv, a, t, busy, f);
    assert CanServe(inv, a, t, a.wanted[0], f[0]);
    var p :| Serves(inv, t, a.code.value, a.limit, a.wanted[0], p) && p.0.id == f[0];
    assert p.1 in inv.decoders && p.1.code == a.code.value;
  }

  lemma HonouredIsPlaceable(inv: Inventory, a: Asked, qubits: int, busy: set<Name>, p: Placement, entries: seq<Name>)
    requires Honours(inv, a, qubits, busy, p, entries)
    ensures Placeable(inv, a, p.transport, busy)
  {
    var f := entries[1..];
    forall i | 0 <= i < |f| ensures f[i] !in busy && CanServe(inv, a, p.transport, a.wanted[i], f[i]) {
      assert f[i] == entries[i + 1];
      assert NodeServes(inv, p.transport, p.code, a.limit, a.wanted[i], p.nodes[i]);
      var c, d :| Serves(inv, p.transport, p.code, a.limit, a.wanted[i], (c, d))
          && p.nodes[i] == Node(c.id, c.hardware, d.symbol, d.lib);
      assert (c, d).0.id == f[i];
    }
    assert Places(inv, a, p.transport, busy, f);
    assert entries[0] !in busy;
  }

  // ----------------------------------------------------------------------- rejections

  ghost predicate OffersCode(inv: Inventory, i: Intent) {
    exists d :: d in inv.decoders && i.code == Given(Some(d.code))
  }

  ghost predicate HasController(inv: Inventory, i: Intent) {
    exists c :: c in inv.controllers &&
      (i.controllerKind.Given? && i.controllerKind.value.Some? ==> c.hardware == i.controllerKind.value.value)
  }

  /** No reason to refuse the want applies. */
  ghost predicate Servable(inv: Inventory, t: Name, code: Name, limit: Option<real>, want: Want) {
    forall reason :: !RefusedFor(inv, t, code, limit, want, reason)
  }

  lemma ServableIs(inv: Inventory, t: Name, code: Name, limit: Option<real>, want: Want)
    ensures OptionsFor(inv, t, code, limit, want).Options? <==> Servable(inv, t, code, limit, want)
  {
    forall reason ensures OptionsFor(inv, t, code, limit, want) == Unfit(reason) <==>
      RefusedFor(inv, t, code, limit, want, reason)
    {
      RefusalsAreExact(inv, t, code, limit, want, reason);
    }
  }

  /** Want `k` is the first of the intent that cannot be served, for `reason`. */
  ghost predicate FirstRefused(inv: Inventory, i: Intent, t: Name, code: Name, k: nat, reason: Reason) {
    && k < |WantsOf(i)| && RefusedFor(inv, t, code, Said(i.limit), WantsOf(i)[k], reason)
    && forall j | 0 <= j < k :: Servable(inv, t, code, Said(i.limit), WantsOf(i)[j])
  }

  ghost predicate NoneRefused(inv: Inventory, i: Intent, t: Name, code: Name) {
    forall k | 0 <= k < |WantsOf(i)| :: Servable(inv, t, code, Said(i.limit), WantsOf(i)[k])
  }

  ghost predicate SomeRefused(inv: Inventory, i: Intent, t: Name, code: Name, reason: Reason) {
    exists k: nat :: FirstRefused(inv, i, t, code, k, reason)
  }

  ghost predicate SomeSpeaks(inv: Inventory, i: Intent, t: Name) {
    exists c :: MeetsController(inv, i, t, c)
  }

  /** What one transport says when it cannot serve an intent: that no controller of
      the kind speaks it, why the first want that cannot be served cannot, or that all
      that could serve is taken. */
  ghost predicate RejectedOn(inv: Inventory, i: Intent, t: Name, code: Name, reason: Reason) {
    if !SomeSpeaks(inv, i, t) then reason == UnsupportedTransport
    else SomeRefused(inv, i, t, code, reason) || (reason == CapacityExhausted && NoneRefused(inv, i, t, code))
  }

  lemma {:induction false} RefusedAt(f: Want -> Options, wanted: seq<Want>) returns (k: nat)
    requires AllOptions(f, wanted).Refused?
    ensures k < |wanted| && f(wanted[k]) == Unfit(AllOptions(f, wanted).reason)
    ensures forall j | 0 <= j < k :: f(wanted[j]).Options?
    decreases |wanted|
  {
    var front := wanted[..|wanted| - 1];
    if AllOptions(f, front).Refused? {
      k := RefusedAt(f, front);
    } else {
      k := |wanted| - 1;
      forall j | 0 <= j < k ensures f(wanted[j]).Options? {
        GatheredAt(f, front, j);
      }
    }
  }

  lemma RefusalIsFirst(inv: Inventory, i: Intent, t: Name, code: Name)
    ensures
      var o := AllOptions(Chooser(inv, t, code, Said(i.limit)), WantsOf(i));
      if o.Refused? then SomeRefused(inv, i, t, code, o.reason) else NoneRefused(inv, i, t, code)
  {
    var f, wanted := Chooser(inv, t, code, Said(i.limit)), WantsOf(i);
    forall k | 0 <= k < |wanted| ensures f(wanted[k]).Options? <==> Servable(inv, t, code, Said(i.limit), wanted[k]) {
      ServableIs(inv, t, code, Said(i.limit), wanted[k]);
    }
    if AllOptions(f, wanted).Refused? {
      var k := RefusedAt(f, wanted);
      RefusalsAreExact(inv, t, code, Said(i.limit), wanted[k], AllOptions(f, wanted).reason);
      assert FirstRefused(inv, i, t, code, k, AllOptions(f, wanted).reason);
    } else {
      forall k | 0 <= k < |wanted| ensures f(wanted[k]).Options? {
        GatheredAt(f, wanted, k);
      }
    }
  }

  lemma MatchOnRejects(inv: Inventory, i: Intent, t: Name, code: Name, qubits: int, busy: set<Name>)
    ensures
      var r := MatchOn(inv, t, OfKind(inv, Said(i.controllerKind)), WantsOf(i), code, Said(i.limit), qubits, busy);
      r.Rejected? ==> RejectedOn(inv, i, t, code, r.reason)
  {
    SpeakersAre(inv, i, t);
    RefusalIsFirst(inv, i, t, code);
  }

  lemma SpeakersAre(inv: Inventory, i: Intent, t: Name)
    ensures Filter(Speaks(t), OfKind(inv, Said(i.controllerKind))) == [] <==> !SomeSpeaks(inv, i, t)
    ensures OfKind(inv, Said(i.controllerKind)) == [] <==> !HasController(inv, i)
  {
    var kind := Said(i.controllerKind);
    FilterMembers(KindIs(kind), inv.controllers);
    FilterMembers(Speaks(t), OfKind(inv, kind));
    EmptyOrNot(OfKind(inv, kind));
    EmptyOrNot(Filter(Speaks(t), OfKind(inv, kind)));
    forall c ensures MeetsController(inv, i, t, c) <==> c in Filter(Speaks(t), OfKind(inv, kind)) {
    }
    forall c
      ensures c in OfKind(inv, kind) <==>
                c in inv.controllers && (kind.Some? ==> c.hardware == kind.value)
    {
    }
  }

  lemma OthersRejectLate(inv: Inventory, i: Intent, code: Name, qubits: int, busy: set<Name>)
    ensures
      var on := OnTransport(inv, OfKind(inv, Said(i.controllerKind)), AskedBy(i), code, qubits, busy);
      forall t :: on(t).Rejected? ==> RejectedOn(inv, i, t, code, on(t).reason) && !EarlyReason(on(t).reason)
  {
    var on := OnTransport(inv, OfKind(inv, Said(i.controllerKind)), AskedBy(i), code, qubits, busy);
    forall t ensures on(t).Rejected? ==> RejectedOn(inv, i, t, code, on(t).reason) && !EarlyReason(on(t).reason) {
      MatchOnRejects(inv, i, t, code, qubits, busy);
    }
  }

  ghost function TransportsFor(inv: Inventory, i: Intent): set<Name> {
    TransportsOf(OfKind(inv, Said(i.controllerKind)))
  }

  lemma CodeOfferedIs(inv: Inventory, i: Intent)
    ensures OffersCode(inv, i) <==> Said(i.code).Some? && CodeOffered(inv, Said(i.code).value)
  {
    if Said(i.code).Some? && CodeOffered(inv, Said(i.code).value) {
      var d :| d in inv.decoders && d.code == Said(i.code).value;
      assert i.code == Given(Some(d.code));
    }
  }

  lemma AskedInStages(inv: Inventory, a: Asked, qubits: int, busy: set<Name>, on: Name -> Matched)
    requires a.code.Some? ==> on == OnTransport(inv, OfKind(inv, a.kind), a, a.code.value, qubits, busy)
    ensures MatchAsked(inv, a, qubits, busy) ==
            if !(a.code.Some? && CodeOffered(inv, a.code.value)) then Rejected(UnsupportedCode)
            else if OfKind(inv, a.kind) == [] then Rejected(NoMatchingController)
            else AnswerOf(on, a.transport, TransportsOf(OfKind(inv, a.kind)))
  {
  }

  lemma MatchInStages(inv: Inventory, i: Intent, qubits: int, busy: set<Name>, on: Name -> Matched)
    requires WellFormed(Some(i), Some(qubits))
    requires Said(i.code).Some? ==>
               on == OnTransport(inv, OfKind(inv, Said(i.controllerKind)), AskedBy(i), Said(i.code).value, qubits, busy)
    ensures Match(inv, Some(i), Some(qubits), busy) ==
            if !OffersCode(inv, i) then Rejected(UnsupportedCode)
            else if !HasController(inv, i) then Rejected(NoMatchingController)
            else AnswerOf(on, Said(i.transport), TransportsFor(inv, i))
  {
    ReadIs(Some(i), Some(qubits));
    SpeakersAre(inv, i, 0);
    CodeOfferedIs(inv, i);
    AskedInStages(inv, AskedBy(i), qubits, busy, on);
  }

  lemma InvalidIs(inv: Inventory, intent: Option<Intent>, qubits: Option<int>, busy: set<Name>)
    requires !WellFormed(intent, qubits)
    ensures Match(inv, intent, qubits, busy) == Rejected(InvalidRequest)
  {
    ReadIs(intent, qubits);
  }

  /** Why a well-formed intent is rejected, each reason exactly where it applies; with
      a preferred transport, what that transport says. */
  ghost predicate RejectedRightly(inv: Inventory, i: Intent, r: Matched) {
    && r != Rejected(InvalidRequest)
    && (r == Rejected(UnsupportedCode) <==> !OffersCode(inv, i))
    && (r == Rejected(NoMatchingController) <==> OffersCode(inv, i) && !HasController(inv, i))
    && (OffersCode(inv, i) && HasController(inv, i) && Said(i.transport).Some? && r.Rejected? ==>
          RejectedOn(inv, i, Said(i.transport).value, Said(i.code).value, r.reason))
  }

  /** A request is rejected as invalid exactly when it is not well formed, and
      otherwise for the reason that applies. */
  lemma RejectionsMean(inv: Inventory, intent: Option<Intent>, qubits: Option<int>, busy: set<Name>)
    ensures
      var r := Match(inv, intent, qubits, busy);
      if WellFormed(intent, qubits) then RejectedRightly(inv, intent.value, r) else r == Rejected(InvalidRequest)
  {
    if WellFormed(intent, qubits) {
      var i := intent.value;
      var code := if Said(i.code).Some? then Said(i.code).value else 0;
      var on := OnTransport(inv, OfKind(inv, Said(i.controllerKind)), AskedBy(i), code, qubits.value, busy);
      CodeOfferedIs(inv, i);
      MatchInStages(inv, i, qubits.value, busy, on);
      OthersRejectLate(inv, i, code, qubits.value, busy);
      FirstMatchSays(on, Sorted(TransportsFor(inv, i)));
      StagesMean(inv, i, code, on, Match(inv, intent, qubits, busy));
    } else {
      InvalidIs(inv, intent, qubits, busy);
    }
  }

  lemma StagesMean(inv: Inventory, i: Intent, code: Name, on: Name -> Matched, r: Matched)
    requires OffersCode(inv, i) ==> Said(i.code) == Some(code)
    requires forall t :: on(t).Rejected? ==> RejectedOn(inv, i, t, code, on(t).reason) && !EarlyReason(on(t).reason)
    requires
      var first := FirstMatch(on, Sorted(TransportsFor(inv, i)));
      first.Rejected? ==> !EarlyReason(first.reason)
    requires r == if !OffersCode(inv, i) then Rejected(UnsupportedCode)
                  else if !HasController(inv, i) then Rejected(NoMatchingController)
                  else AnswerOf(on, Said(i.transport), TransportsFor(inv, i))
    ensures RejectedRightly(inv, i, r)
  {
  }

  ghost predicate EarlyReason(reason: Reason) {
    reason == InvalidRequest || reason == UnsupportedCode || reason == NoMatchingController
  }

  lemma {:induction false} FirstMatchSays(on: Name -> Matched, ts: seq<Name>)
    requires forall t :: on(t).Rejected? ==> !EarlyReason(on(t).reason)
    ensures FirstMatch(on, ts).Rejected? ==> !EarlyReason(FirstMatch(on, ts).reason)
    decreases |ts|
  {
    if ts != [] {
      FirstMatchSays(on, ts[1..]);
    }
  }

  /** With separate ids and orderly options, `match` accepts exactly when some
      transport has a free controller and a distinct free coprocessor that serves
      it for every want; so a rejection of any kind is final. */
  lemma MatchIsComplete(inv: Inventory, intent: Option<Intent>, qubits: Option<int>, busy: set<Name>)
    requires SeparateIds(inv) && WellFormed(intent, qubits)
    requires forall t :: OrderlyOn(inv, AskedBy(intent.value), t)
    ensures Match(inv, intent, qubits, busy).Accepted? <==> exists t :: CanPlace(inv, intent.value, t, busy)
  {
    ReadIs(intent, qubits);
    var a, r := AskedBy(intent.value), Match(inv, intent, qubits, busy);
    if r.Accepted? {
      MatchHonours(inv, intent, qubits, busy);
      HonouredIsPlaceable(inv, a, qubits.value, busy, r.placement, r.entries);
      PlaceableIs(inv, intent.value, r.placement.transport, busy);
    }
    if t :| CanPlace(inv, intent.value, t, busy) {
      PlaceableIs(inv, intent.value, t, busy);
      CodeIsOffered(inv, a, t, busy);
      PlaceableIsMatched(inv, a, t, qubits.value, busy);
      if a.transport.None? {
        var ctrls := OfKind(inv, a.kind);
        FirstMatchFinds(OnTransport(inv, ctrls, a, a.code.value, qubits.value, busy), Sorted(TransportsOf(ctrls)), t);
      }
    }
  }

  /** For one want, or wants that all ask for the same, nothing is needed of the
      inventory but separate ids. */
  lemma AlikeWantsAreComplete(inv: Inventory, intent: Option<Intent>, qubits: Option<int>, busy: set<Name>)
    requires SeparateIds(inv) && WellFormed(intent, qubits)
    requires
      var wanted := WantsOf(intent.value);
      forall i, j | 0 <= i < j < |wanted| :: wanted[i] == wanted[j]
    ensures Match(inv, intent, qubits, busy).Accepted? <==> exists t :: CanPlace(inv, intent.value, t, busy)
  {
    var a := AskedBy(intent.value);
    forall t ensures OrderlyOn(inv, a, t) {
      if a.code.Some? && ListsOn(inv, a, t).Gathered? {
        AlikeOptions(inv, a, t);
      }
    }
    MatchIsComplete(inv, intent, qubits, busy);
  }

  lemma AlikeOptions(inv: Inventory, a: Asked, t: Name)
    requires a.code.Some? && ListsOn(inv, a, t).Gathered?
    requires forall i, j | 0 <= i < j < |a.wanted| :: a.wanted[i] == a.wanted[j]
    ensures Orderly(ListsOn(inv, a, t).lists)
  {
    var f, lists := Chooser(inv, t, a.code.value, a.limit), ListsOn(inv, a, t).lists;
    if |lists| <= 1 {
      OneWantIsOrderly(lists);
    } else {
      forall i, j | 0 <= i < j < |lists| ensures lists[i] == lists[j] {
        GatheredAt(f, a.wanted, i);
        GatheredAt(f, a.wanted, j);
      }
      EqualWantsAreOrderly(lists);
    }
  }

  // --------------------------------------------------------------------- a missed fit

  const ANY := Want(None, None)
  const TEN := Want(Some(10), None)
  const FIRST := Coprocessor(1, 10, [7])
  const SECOND := Coprocessor(2, 20, [7])
  const ON_TEN := Decoder(3, 5, 10, 0, 0, None)
  const ON_TWENTY := Decoder(4, 5, 20, 0, 0, None)
  const LEAD := Controller(0, 30, [7], 0, 0)
  const SMALL := Inventory([ON_TEN, ON_TWENTY], [LEAD], [FIRST, SECOND])

  /** One controller, a coprocessor of hardware 10 and one of hardware 20, each with
      a decoder; one want for any coprocessor and one for hardware 10. */
  const TWO_WANTS := Asked([ANY, TEN], Some(5), Some(7), None, None)
  const TWO_WANTED := Intent(1, Given([ANY, TEN]), Given(Some(5)), Given(Some(7)), Absent, Absent)

  lemma OptionsInSteps(inv: Inventory, t: Name, code: Name, want: Want, decoders: seq<Decoder>, pairs: seq<Pick>)
    requires want.decoder.None? && Filter(Fits(code, want), inv.decoders) == decoders
    requires Pairings(inv.coprocessors, decoders) == pairs && pairs != [] && Filter(Reachable(t), pairs) == pairs
    ensures OptionsFor(inv, t, code, None, want) == Options(pairs)
  {
  }

  lemma AnyOptions()
    ensures OptionsFor(SMALL, 7, 5, None, ANY) == Options([(FIRST, ON_TEN), (SECOND, ON_TWENTY)])
  {
    TwoOf(Fits(5, ANY), ON_TEN, ON_TWENTY);
    SmallPairings();
    TwoOf(Reachable(7), (FIRST, ON_TEN), (SECOND, ON_TWENTY));
    OptionsInSteps(SMALL, 7, 5, ANY, [ON_TEN, ON_TWENTY], [(FIRST, ON_TEN), (SECOND, ON_TWENTY)]);
  }

  lemma TenOptions()
    ensures OptionsFor(SMALL, 7, 5, None, TEN) == Options([(FIRST, ON_TEN)])
  {
    TwoOf(Fits(5, TEN), ON_TEN, ON_TWENTY);
    SmallPairings();
    FilterCons(Reachable(7), (FIRST, ON_TEN), []);
    assert [(FIRST, ON_TEN)] + [] == [(FIRST, ON_TEN)];
    OptionsInSteps(SMALL, 7, 5, TEN, [ON_TEN], [(FIRST, ON_TEN)]);
  }

  lemma TwoOf<T>(p: T -> bool, x: T, y: T)
    ensures Filter(p, [x, y]) == (if p(x) then [x] else []) + if p(y) then [y] else []
  {
    FilterCons(p, x, [y]);
    FilterCons(p, y, []);
    assert [x] + [y] == [x, y] && [y] + [] == [y];
  }

  lemma SmallPairings()
    ensures Pairings([FIRST, SECOND], [ON_TEN, ON_TWENTY]) == [(FIRST, ON_TEN), (SECOND, ON_TWENTY)]
    ensures Pairings([FIRST, SECOND], [ON_TEN]) == [(FIRST, ON_TEN)]
  {
    TwoOf(RunsOn(10), ON_TEN, ON_TWENTY);
    TwoOf(RunsOn(20), ON_TEN, ON_TWENTY);
    FilterCons(RunsOn(10), ON_TEN, []);
    FilterCons(RunsOn(20), ON_TEN, []);
    assert [ON_TEN] + [] == [ON_TEN];
    assert [FIRST, SECOND][1..] == [SECOND] && [SECOND][1..] == [];
    PairingsCons(FIRST, [SECOND], [ON_TEN, ON_TWENTY]);
    PairingsCons(SECOND, [], [ON_TEN, ON_TWENTY]);
    PairingsCons(FIRST, [SECOND], [ON_TEN]);
    PairingsCons(SECOND, [], [ON_TEN]);
  }

  lemma PairingsCons(c: Coprocessor, cs: seq<Coprocessor>, ds: seq<Decoder>)
    ensures
      var mine := Filter(RunsOn(c.hardware), ds);
      Pairings([c] + cs, ds) == seq(|mine|, i requires 0 <= i < |mine| => (c, mine[i])) + Pairings(cs, ds)
  {
    assert ([c] + cs)[1..] == cs;
  }

  lemma SmallLists()
    ensures AllOptions(Chooser(SMALL, 7, 5, None), [ANY, TEN])
            == Gathered([[(FIRST, ON_TEN), (SECOND, ON_TWENTY)], [(FIRST, ON_TEN)]])
  {
    var f := Chooser(SMALL, 7, 5, None);
    AnyOptions();
    TenOptions();
    assert [ANY, TEN][..1] == [ANY] && [ANY][..0] == [];
    assert AllOptions(f, [ANY]) == Gathered([[(FIRST, ON_TEN), (SECOND, ON_TWENTY)]]);
  }

  lemma SmallFits()
    ensures Placeable(SMALL, TWO_WANTS, 7, {})
  {
    assert Serves(SMALL, 7, 5, None, ANY, (SECOND, ON_TWENTY)) && Serves(SMALL, 7, 5, None, TEN, (FIRST, ON_TEN));
    assert CanServe(SMALL, TWO_WANTS, 7, ANY, 2) && CanServe(SMALL, TWO_WANTS, 7, TEN, 1);
    assert Places(SMALL, TWO_WANTS, 7, {}, [2, 1]);
    assert LEAD in SMALL.controllers;
    assert FreeController(SMALL, TWO_WANTS, 7, {});
  }

  /** Matching rejects this intent for want of capacity with nothing busy, although
      it can be placed. */
  lemma GreedyMissesInPractice()
    ensures CanPlace(SMALL, TWO_WANTED, 7, {})
    ensures Match(SMALL, Some(TWO_WANTED), Some(1), {}) == Rejected(CapacityExhausted)
  {
    SmallFits();
    PlaceableIs(SMALL, TWO_WANTED, 7, {});
    SmallRejected();
    FilterCons(KindIs(None), LEAD, []);
    assert ON_TEN in SMALL.decoders && ON_TEN.code == 5;
  }

  lemma SmallRejected()
    ensures MatchOn(SMALL, 7, OfKind(SMALL, None), [ANY, TEN], 5, None, 1, {}) == Rejected(CapacityExhausted)
  {
    SmallLists();
    GreedyTrips();
    FilterCons(KindIs(None), LEAD, []);
    FilterCons(Speaks(7), LEAD, []);
    assert [LEAD] + [] == [LEAD];
    assert Filter(Speaks(7), OfKind(SMALL, None)) == [LEAD];
    assert {} + {LEAD.id} == {0};
  }

  lemma GreedyTrips()
    ensures Greedy([[(FIRST, ON_TEN), (SECOND, ON_TWENTY)], [(FIRST, ON_TEN)]], {0}).None?
  {
    var a, b := [(FIRST, ON_TEN), (SECOND, ON_TWENTY)], [(FIRST, ON_TEN)];
    assert FirstPick(a, {0}) == Some((FIRST, ON_TEN));
    assert FirstPick(b, {0} + {1}).None?;
    assert [a, b][1..] == [b];
  }

  /** Beyond two wants orderly options are enough but not needed: here no
      assignment exists at all, so none is missed. */
  lemma ThreeWantsNeedNoOrder()
    ensures
      var a, b := [(FIRST, ON_TEN), (SECOND, ON_TWENTY)], [(FIRST, ON_TEN)];
      !Orderly([a, b, b]) && forall taken, f :: !Assigns([a, b, b], taken, f)
  {
    var a, b := [(FIRST, ON_TEN), (SECOND, ON_TWENTY)], [(FIRST, ON_TEN)];
    assert Ids(a) == [1, 2] && Ids(b) == [1];
    assert !Defers(Ids(a), Ids(b)) by {
      assert 1 in Ids(a) && 2 in Ids(a) && 1 in Ids(b) && 2 !in Ids(b);
      assert IndexOf([1, 2], 1) == 0 && IndexOf([1, 2], 2) == 1;
    }
    assert [a, b, b][0] == a && [a, b, b][1] == b && [a, b, b][2] == b;
    forall taken, f ensures !Assigns([a, b, b], taken, f) {
      assert |f| == 3 ==> (f[1] in Ids([a, b, b][1]) <==> f[1] == 1) && (f[2] in Ids([a, b, b][2]) <==> f[2] == 1);
    }
  }
}
