/** Resource-intent matching for the Backline QPM. Names (ids, hardware kinds,
    transports, codes) are opaque; only their equality and order matter. */
module Matcher {
  import opened Comprehensions
  import opened Prelude
  import opened Ordering

  type Name = int

  datatype Controller = Controller(id: Name, hardware: Name, transports: seq<Name>, device: Name, deviceLib: Name)
  datatype Coprocessor = Coprocessor(id: Name, hardware: Name, transports: seq<Name>)
  datatype Decoder = Decoder(id: Name, code: Name, hardware: Name, symbol: Name, lib: Name, roundTrip: Option<real>)
  datatype Inventory = Inventory(decoders: seq<Decoder>, controllers: seq<Controller>, coprocessors: seq<Coprocessor>)

  /** A part of the intent: left out, of the wrong type, or given. */
  datatype Field<+T> = Absent | Malformed | Given(value: T)

  datatype DecoderChoice = OwnDecoder | Named(name: Name)
  datatype Want = Want(kind: Option<Name>, decoder: Option<DecoderChoice>)

  datatype Intent = Intent(
    version: int,
    coprocessors: Field<seq<Want>>,
    code: Field<Option<Name>>,
    transport: Field<Option<Name>>,
    controllerKind: Field<Option<Name>>,
    limit: Field<Option<real>>)

  datatype Reason =
    | InvalidRequest | UnsupportedCode | NoMatchingController | UnsupportedTransport
    | ClientDecoderUnsupported | NoMatchingCoprocessor | LatencyUnverified | LatencyUnattainable
    | CapacityExhausted

  datatype Node = Node(name: Name, hardware: Name, symbol: Name, lib: Name)

  datatype Placement = Placement(
    controller: Name, hardware: Name, device: Name, wires: int, nodes: seq<Node>, transport: Name, code: Name)

  datatype Matched = Accepted(placement: Placement, entries: seq<Name>) | Rejected(reason: Reason)

  type Pick = (Coprocessor, Decoder)

  const PLACEMENT_VERSION := 1

  // ------------------------------------------------------------ candidate options

  function RunsOn(hardware: Name): Decoder -> bool {
    (d: Decoder) => hardware == d.hardware
  }

  function Fits(code: Name, want: Want): Decoder -> bool {
    (d: Decoder) => DecoderFits(d, code, want)
  }

  function Reachable(transport: Name): Pick -> bool {
    (p: Pick) => transport in p.0.transports
  }

  function Measured(): Pick -> bool {
    (p: Pick) => p.1.roundTrip.Some?
  }

  function FastEnough(limit: real): Pick -> bool {
    (p: Pick) => p.1.roundTrip.Some? && p.1.roundTrip.value <= limit
  }

  function Speaks(transport: Name): Controller -> bool {
    (c: Controller) => transport in c.transports
  }

  /** Every coprocessor with every decoder built for its hardware. */
  function Pairings(cs: seq<Coprocessor>, ds: seq<Decoder>): (r: seq<Pick>)
    ensures forall c, d :: (c, d) in r <==> c in cs && d in ds && c.hardware == d.hardware
  {
    if cs == [] then []
    else
      var mine := Filter(RunsOn(cs[0].hardware), ds);
      FilterMembers(RunsOn(cs[0].hardware), ds);
      var here := seq(|mine|, i requires 0 <= i < |mine| => (cs[0], mine[i]));
      assert forall i | 0 <= i < |mine| :: here[i] == (cs[0], mine[i]);
      assert forall c, d :: (c, d) in here <==> c == cs[0] && d in mine by { PairedWith(cs[0], mine, here); }
      here + Pairings(cs[1..], ds)
  }

  lemma PairedWith(c: Coprocessor, ds: seq<Decoder>, ps: seq<Pick>)
    requires |ps| == |ds| && forall i | 0 <= i < |ds| :: ps[i] == (c, ds[i])
    ensures forall c', d :: (c', d) in ps <==> c' == c && d in ds
  {
    forall d | d in ds ensures (c, d) in ps {
      var i := IndexOf(ds, d);
      assert ps[i] == (c, d);
    }
  }

  predicate DecoderFits(d: Decoder, code: Name, want: Want) {
    && d.code == code
    && (want.kind.None? || want.kind.value == d.hardware)
    && (want.decoder.None? || want.decoder == Some(Named(d.code)) || want.decoder == Some(Named(d.id)))
  }

  datatype Options = Options(picks: seq<Pick>) | Unfit(reason: Reason)

  /** The coprocessor and decoder pairs that can serve one want, narrowed in the
      order in which failures are reported. */
  function OptionsFor(inv: Inventory, transport: Name, code: Name, limit: Option<real>, want: Want): Options {
    if want.decoder == Some(OwnDecoder) then Unfit(ClientDecoderUnsupported)
    else
      var decoders := Filter(Fits(code, want), inv.decoders);
      var opts := Pairings(inv.coprocessors, decoders);
      if opts == [] then Unfit(NoMatchingCoprocessor)
      else
        var reachable := Filter(Reachable(transport), opts);
        if reachable == [] then Unfit(UnsupportedTransport)
        else if limit.None? then Options(reachable)
        else
          var measured := Filter(Measured(), reachable);
          if measured == [] then Unfit(LatencyUnverified)
          else
            var fast := Filter(FastEnough(limit.value), measured);
            if fast == [] then Unfit(LatencyUnattainable) else Options(fast)
  }

  /** What an intent asks of a decoder for one want. */
  ghost predicate Decodes(d: Decoder, code: Name, want: Want) {
    && d.code == code
    && (want.kind.Some? ==> want.kind.value == d.hardware)
    && (want.decoder.Some? ==> want.decoder.value == Named(d.code) || want.decoder.value == Named(d.id))
  }

  /** What an intent asks of a pair serving one want. */
  ghost predicate Serves(inv: Inventory, transport: Name, code: Name, limit: Option<real>, want: Want, p: Pick) {
    && p.0 in inv.coprocessors && p.1 in inv.decoders
    && p.0.hardware == p.1.hardware
    && Decodes(p.1, code, want)
    && transport in p.0.transports
    && (limit.Some? ==> p.1.roundTrip.Some? && p.1.roundTrip.value <= limit.value)
  }

  /** The options are exactly the pairs that serve the want, and a want is
      refused exactly when no pair does or it brings its own decoder. */
  lemma OptionsAreExact(inv: Inventory, transport: Name, code: Name, limit: Option<real>, want: Want)
    ensures
      var o := OptionsFor(inv, transport, code, limit, want);
      && (o.Options? ==> o.picks != [] && forall p :: p in o.picks <==> Serves(inv, transport, code, limit, want, p))
      && (o.Unfit? && o.reason != ClientDecoderUnsupported ==>
         forall p :: !Serves(inv, transport, code, limit, want, p))
      && (o == Unfit(ClientDecoderUnsupported) <==> want.decoder == Some(OwnDecoder))
  {
    if want.decoder != Some(OwnDecoder) {
      var decoders := Filter(Fits(code, want), inv.decoders);
      var opts := Pairings(inv.coprocessors, decoders);
      var reachable := Filter(Reachable(transport), opts);
      ReachableServe(inv, transport, code, want);
      EmptyOrNot(reachable);
      if limit.Some? {
        FastServe(inv, transport, code, limit.value, want, reachable);
        EmptyOrNot(Filter(Measured(), reachable));
        EmptyOrNot(Filter(FastEnough(limit.value), Filter(Measured(), reachable)));
      }
    }
  }

  /** A coprocessor with a decoder for its hardware that the want accepts. */
  ghost predicate Pairs(inv: Inventory, code: Name, want: Want, p: Pick) {
    p.0 in inv.coprocessors && p.1 in inv.decoders && p.0.hardware == p.1.hardware && Decodes(p.1, code, want)
  }

  ghost predicate SomePairs(inv: Inventory, code: Name, want: Want) {
    exists p :: Pairs(inv, code, want, p)
  }

  ghost predicate SomeReaches(inv: Inventory, transport: Name, code: Name, want: Want) {
    exists p :: Pairs(inv, code, want, p) && transport in p.0.transports
  }

  ghost predicate SomeMeasured(inv: Inventory, transport: Name, code: Name, want: Want) {
    exists p :: Pairs(inv, code, want, p) && transport in p.0.transports && p.1.roundTrip.Some?
  }

  ghost predicate SomeFast(inv: Inventory, transport: Name, code: Name, want: Want, limit: real) {
    exists p :: Pairs(inv, code, want, p) && transport in p.0.transports &&
      p.1.roundTrip.Some? && p.1.roundTrip.value <= limit
  }

  /** Why a want cannot be served, read off the inventory. */
  ghost predicate RefusedFor(inv: Inventory, transport: Name, code: Name, limit: Option<real>, want: Want,
                             reason: Reason)
  {
    if want.decoder == Some(OwnDecoder) then reason == ClientDecoderUnsupported
    else if !SomePairs(inv, code, want) then reason == NoMatchingCoprocessor
    else if !SomeReaches(inv, transport, code, want) then reason == UnsupportedTransport
    else if limit.None? then false
    else if !SomeMeasured(inv, transport, code, want) then reason == LatencyUnverified
    else !SomeFast(inv, transport, code, want, limit.value) && reason == LatencyUnattainable
  }

  lemma NoneKept<T>(p: T -> bool, s: seq<T>)
    ensures Filter(p, s) == [] <==> forall x | x in s :: !p(x)
  {
    if Filter(p, s) != [] {
      FilterIn(p, s, Filter(p, s)[0]);
    }
    forall x | x in s ensures p(x) ==> x in Filter(p, s) {
      FilterIn(p, s, x);
    }
  }

  lemma NonePairs(inv: Inventory, code: Name, want: Want, opts: seq<Pick>)
    requires forall p :: p in opts <==> Pairs(inv, code, want, p)
    ensures opts == [] <==> !SomePairs(inv, code, want)
  {
    EmptyOrNot(opts);
  }

  lemma NoneReaches(inv: Inventory, t: Name, code: Name, want: Want, opts: seq<Pick>)
    requires forall p :: p in opts <==> Pairs(inv, code, want, p)
    ensures Filter(Reachable(t), opts) == [] <==> !SomeReaches(inv, t, code, want)
  {
    NoneKept(Reachable(t), opts);
  }

  lemma NoneMeasured(inv: Inventory, t: Name, code: Name, want: Want, opts: seq<Pick>)
    requires forall p :: p in opts <==> Pairs(inv, code, want, p)
    ensures Filter(Measured(), Filter(Reachable(t), opts)) == [] <==> !SomeMeasured(inv, t, code, want)
  {
    FilterMembers(Reachable(t), opts);
    NoneKept(Measured(), Filter(Reachable(t), opts));
  }

  lemma NoneFast(inv: Inventory, t: Name, code: Name, want: Want, limit: real, opts: seq<Pick>)
    requires forall p :: p in opts <==> Pairs(inv, code, want, p)
    ensures Filter(FastEnough(limit), Filter(Measured(), Filter(Reachable(t), opts))) == [] <==>
              !SomeFast(inv, t, code, want, limit)
  {
    FilterMembers(Reachable(t), opts);
    FilterMembers(Measured(), Filter(Reachable(t), opts));
    NoneKept(FastEnough(limit), Filter(Measured(), Filter(Reachable(t), opts)));
  }

  /** Each refusal names its own reason, and there is one exactly when one applies. */
  lemma RefusalsAreExact(inv: Inventory, transport: Name, code: Name, limit: Option<real>, want: Want, reason: Reason)
    ensures OptionsFor(inv, transport, code, limit, want) == Unfit(reason) <==>
              RefusedFor(inv, transport, code, limit, want, reason)
  {
    var opts := Pairings(inv.coprocessors, Filter(Fits(code, want), inv.decoders));
    if want.decoder != Some(OwnDecoder) {
      PairingsPair(inv, code, want);
      NonePairs(inv, code, want, opts);
      NoneReaches(inv, transport, code, want, opts);
      NoneMeasured(inv, transport, code, want, opts);
      if limit.Some? {
        NoneFast(inv, transport, code, want, limit.value, opts);
      }
    }
  }

  lemma PairingsPair(inv: Inventory, code: Name, want: Want)
    ensures forall p :: p in Pairings(inv.coprocessors, Filter(Fits(code, want), inv.decoders)) <==>
              Pairs(inv, code, want, p)
  {
    var opts := Pairings(inv.coprocessors, Filter(Fits(code, want), inv.decoders));
    FilterMembers(Fits(code, want), inv.decoders);
    forall p: Pick ensures p in opts <==> Pairs(inv, code, want, p) {
      assert p == (p.0, p.1);
    }
  }

  lemma ReachableServe(inv: Inventory, transport: Name, code: Name, want: Want)
    ensures
      var opts := Pairings(inv.coprocessors, Filter(Fits(code, want), inv.decoders));
      && (forall p :: p in Filter(Reachable(transport), opts) <==> Serves(inv, transport, code, None, want, p))
      && (opts == [] ==> Filter(Reachable(transport), opts) == [])
  {
    FilterMembers(Fits(code, want), inv.decoders);
    var opts := Pairings(inv.coprocessors, Filter(Fits(code, want), inv.decoders));
    FilterMembers(Reachable(transport), opts);
    forall p: Pick ensures p in Filter(Reachable(transport), opts) <==> Serves(inv, transport, code, None, want, p) {
      assert p == (p.0, p.1);
    }
  }

  lemma FastServe(inv: Inventory, transport: Name, code: Name, limit: real, want: Want, reachable: seq<Pick>)
    requires forall p :: p in reachable <==> Serves(inv, transport, code, None, want, p)
    ensures
      var measured := Filter(Measured(), reachable);
      && (forall p :: p in Filter(FastEnough(limit), measured) <==> Serves(inv, transport, code, Some(limit), want, p))
      && (measured == [] ==> Filter(FastEnough(limit), measured) == [])
  {
    FilterMembers(Measured(), reachable);
    FilterMembers(FastEnough(limit), Filter(Measured(), reachable));
  }

  lemma EmptyOrNot<T>(s: seq<T>)
    ensures s == [] <==> forall x :: x !in s
  {
    if s != [] {
      assert s[0] in s;
    }
  }

  // -------------------------------------------------------------- the greedy choice

  function FirstFree(cs: seq<Controller>, taken: set<Name>): (r: Option<Controller>)
    ensures r.Some? ==> r.value in cs && r.value.id !in taken
    ensures r.None? ==> forall c | c in cs :: c.id in taken
  {
    if cs == [] then None else if cs[0].id !in taken then Some(cs[0]) else FirstFree(cs[1..], taken)
  }

  /** It is the first listed that is free. */
  lemma {:induction false} FirstFreeIsFirst(cs: seq<Controller>, taken: set<Name>) returns (k: nat)
    requires FirstFree(cs, taken).Some?
    ensures k < |cs| && FirstFree(cs, taken) == Some(cs[k]) && forall j | 0 <= j < k :: cs[j].id in taken
    decreases |cs|
  {
    if cs[0].id !in taken {
      k := 0;
    } else {
      k := FirstFreeIsFirst(cs[1..], taken);
      k := k + 1;
    }
  }

  function FirstPick(ps: seq<Pick>, taken: set<Name>): (r: Option<Pick>)
    ensures r.Some? ==> r.value in ps && r.value.0.id !in taken
    ensures r.None? ==> forall p | p in ps :: p.0.id in taken
  {
    if ps == [] then None else if ps[0].0.id !in taken then Some(ps[0]) else FirstPick(ps[1..], taken)
  }

  /** Each want takes the first of its options that is still free. */
  function Greedy(options: seq<seq<Pick>>, taken: set<Name>): (r: Option<seq<Pick>>)
    ensures r.Some? ==> |r.value| == |options|
  {
    if options == [] then Some([])
    else
      var pick := FirstPick(options[0], taken);
      if pick.None? then None
      else
        Prepend([pick.value], Greedy(options[1..], taken + {pick.value.0.id}))
  }

  function Prepend<T>(front: seq<T>, rest: Option<seq<T>>): Option<seq<T>> {
    if rest.None? then None else Some(front + rest.value)
  }

  lemma PrependTwice<T>(front: seq<T>, x: T, rest: Option<seq<T>>)
    ensures Prepend(front, Prepend([x], rest)) == Prepend(front + [x], rest)
    ensures Prepend([], rest) == rest
  {
    if rest.Some? {
      assert front + ([x] + rest.value) == front + [x] + rest.value;
      assert [] + rest.value == rest.value;
    }
  }

  function Ids(ps: seq<Pick>): (r: seq<Name>)
    ensures |r| == |ps|
    ensures forall i | 0 <= i < |ps| :: r[i] == ps[i].0.id
  {
    seq(|ps|, i requires 0 <= i < |ps| => ps[i].0.id)
  }

  /** The greedy choice takes free, distinct coprocessors from the options. */
  lemma {:induction false} GreedyIsSound(options: seq<seq<Pick>>, taken: set<Name>)
    ensures
      var r := Greedy(options, taken);
      r.Some? ==>
        && (forall i | 0 <= i < |options| :: r.value[i] in options[i] && r.value[i].0.id !in taken)
        && NoDuplicates(Ids(r.value))
    decreases |options|
  {
    if options != [] {
      var pick := FirstPick(options[0], taken);
      if pick.Some? {
        GreedyIsSound(options[1..], taken + {pick.value.0.id});
        var rest := Greedy(options[1..], taken + {pick.value.0.id});
        if rest.Some? {
          OneMorePick(options, taken, pick.value, rest.value);
        }
      }
    }
  }

  lemma OneMorePick(options: seq<seq<Pick>>, taken: set<Name>, pick: Pick, rest: seq<Pick>)
    requires options != [] && pick in options[0] && pick.0.id !in taken
    requires |rest| == |options| - 1 && NoDuplicates(Ids(rest))
    requires forall i | 0 <= i < |rest| :: rest[i] in options[1..][i] && rest[i].0.id !in taken + {pick.0.id}
    ensures
      var all := [pick] + rest;
      NoDuplicates(Ids(all)) && forall i | 0 <= i < |options| :: all[i] in options[i] && all[i].0.id !in taken
  {
    var all := [pick] + rest;
    forall i | 0 <= i < |options| ensures all[i] in options[i] && all[i].0.id !in taken {
      if i > 0 {
        assert all[i] == rest[i - 1] && options[i] == options[1..][i - 1];
      }
    }
    assert Ids(all) == [pick.0.id] + Ids(rest);
    DistinctCons(pick.0.id, Ids(rest));
  }

  method GreedyPicks(options: seq<seq<Pick>>, busy: set<Name>) returns (r: Option<seq<Pick>>)
    ensures r == Greedy(options, busy)
  {
    var taken := busy;
    var chosen: seq<Pick> := [];
    assert options[0..] == options;
    assert Prepend(chosen, Greedy(options, busy)) == Greedy(options, busy) by {
      if Greedy(options, busy).Some? {
        assert [] + Greedy(options, busy).value == Greedy(options, busy).value;
      }
    }
    for i := 0 to |options|
      invariant Greedy(options, busy) == Prepend(chosen, Greedy(options[i..], taken))
    {
      assert options[i..][1..] == options[i + 1..];
      var pick := FirstPick(options[i], taken);
      if pick.None? {
        return None;
      }
      PrependTwice(chosen, pick.value, Greedy(options[i + 1..], taken + {pick.value.0.id}));
      taken := taken + {pick.value.0.id};
      chosen := chosen + [pick.value];
    }
    assert chosen + [] == chosen;
    r := Some(chosen);
  }
}
