/** `match`: from an intent to a placement, what an accepted placement
    guarantees, and when a capacity rejection is final. */
module Matching {
  import opened Comprehensions
  import opened Prelude
  import opened Ordering
  import opened Matcher

  datatype Gathered = Gathered(lists: seq<seq<Pick>>) | Refused(reason: Reason)

  /** What each want can be served by, under one transport, code and limit. */
  function Chooser(inv: Inventory, transport: Name, code: Name, limit: Option<real>): Want -> Options {
    want => OptionsFor(inv, transport, code, limit, want)
  }

  /** The options of every want, or the first want's reason that has none. */
  function AllOptions(f: Want -> Options, wanted: seq<Want>): (r: Gathered)
    ensures r.Gathered? ==> |r.lists| == |wanted|
  {
    if wanted == [] then Gathered([])
    else
      var front := AllOptions(f, wanted[..|wanted| - 1]);
      if front.Refused? then front
      else
        var last := f(wanted[|wanted| - 1]);
        if last.Unfit? then Refused(last.reason) else Gathered(front.lists + [last.picks])
  }

  function PlacementOf(ctrl: Controller, chosen: seq<Pick>, wires: int, transport: Name, code: Name): Placement {
    Placement(ctrl.id, ctrl.hardware, ctrl.device, wires,
      seq(|chosen|, i requires 0 <= i < |chosen| =>
          Node(chosen[i].0.id, chosen[i].0.hardware, chosen[i].1.symbol, chosen[i].1.lib)),
      transport, code)
  }

  function MatchOn(inv: Inventory, transport: Name, kindMatches: seq<Controller>, wanted: seq<Want>, code: Name,
                   limit: Option<real>, qubits: int, busy: set<Name>): Matched
  {
    var ctrls := Filter(Speaks(transport), kindMatches);
    if ctrls == [] then Rejected(UnsupportedTransport)
    else
      var options := AllOptions(Chooser(inv, transport, code, limit), wanted);
      if options.Refused? then Rejected(options.reason)
      else
        var ctrl := FirstFree(ctrls, busy);
        if ctrl.None? then Rejected(CapacityExhausted)
        else
          var chosen := Greedy(options.lists, busy + {ctrl.value.id});
          if chosen.None? then Rejected(CapacityExhausted)
          else Accepted(PlacementOf(ctrl.value, chosen.value, qubits, transport, code),
               [ctrl.value.id] + Ids(chosen.value))
  }

  method GatherOptions(f: Want -> Options, wanted: seq<Want>) returns (r: Gathered)
    ensures r == AllOptions(f, wanted)
  {
    var lists: seq<seq<Pick>> := [];
    for i := 0 to |wanted|
      invariant AllOptions(f, wanted[..i]) == Gathered(lists)
    {
      assert wanted[..i + 1][..i] == wanted[..i];
      var o := f(wanted[i]);
      if o.Unfit? {
        RefusalStays(f, wanted, i + 1);
        return Refused(o.reason);
      }
      lists := lists + [o.picks];
    }
    assert wanted[..|wanted|] == wanted;
    r := Gathered(lists);
  }

  lemma {:induction false} RefusalStays(f: Want -> Options, wanted: seq<Want>, i: nat)
    requires i <= |wanted| && AllOptions(f, wanted[..i]).Refused?
    ensures AllOptions(f, wanted) == AllOptions(f, wanted[..i])
    decreases |wanted|
  {
    if i < |wanted| {
      var front := wanted[..|wanted| - 1];
      assert front[..i] == wanted[..i];
      RefusalStays(f, front, i);
    } else {
      assert wanted[..i] == wanted;
    }
  }

  // --------------------------------------------------------------------- the intent

  /** The parts of a well-formed intent that matching reads. */
  datatype Asked = Asked(wanted: seq<Want>, code: Option<Name>, transport: Option<Name>, kind: Option<Name>,
      limit: Option<real>)

  function Unwrap<T>(f: Field<Option<T>>): Option<T> {
    if f.Given? then f.value else None
  }

  /** None for every request that is refused as invalid. No coprocessors, or an
      empty list of them, asks for one decoder of any kind. */
  function Read(intent: Option<Intent>, qubits: Option<int>): Option<Asked> {
    if intent.None? || intent.value.version != PLACEMENT_VERSION || qubits.None? || qubits.value < 1 then None
    else
      var i := intent.value;
      if i.coprocessors.Malformed? || i.code.Malformed? || i.transport.Malformed? || i.controllerKind.Malformed?
          || i.limit.Malformed? then None
      else
        var wanted := if i.coprocessors.Given? && i.coprocessors.value != [] then i.coprocessors.value
            else [Want(None, None)];
        Some(Asked(wanted, Unwrap(i.code), Unwrap(i.transport), Unwrap(i.controllerKind), Unwrap(i.limit)))
  }

  function KindIs(kind: Option<Name>): Controller -> bool {
    (c: Controller) => kind.None? || kind.value == c.hardware
  }

  function OfKind(inv: Inventory, kind: Option<Name>): seq<Controller> {
    Filter(KindIs(kind), inv.controllers)
  }

  function TransportsOf(ctrls: seq<Controller>): set<Name> {
    set c, t | c in ctrls && t in c.transports :: t
  }

  /** The answer of each transport on its own. */
  function OnTransport(inv: Inventory, ctrls: seq<Controller>, a: Asked, code: Name, qubits: int,
                       busy: set<Name>): Name -> Matched {
    t => MatchOn(inv, t, ctrls, a.wanted, code, a.limit, qubits, busy)
  }

  /** The first transport that works, or the first one's reason. */
  function FirstMatch(on: Name -> Matched, ts: seq<Name>): Matched {
    if ts == [] then Rejected(UnsupportedTransport)
    else if on(ts[0]).Accepted? then on(ts[0])
    else
      var later := FirstMatch(on, ts[1..]);
      if later.Accepted? then later else on(ts[0])
  }

  /** The preferred transport's answer, or the first of all that works. */
  function AnswerOf(on: Name -> Matched, preferred: Option<Name>, transports: set<Name>): Matched {
    if preferred.Some? then on(preferred.value) else FirstMatch(on, Sorted(transports))
  }

  predicate CodeOffered(inv: Inventory, code: Name) {
    exists d :: d in inv.decoders && d.code == code
  }

  function MatchAsked(inv: Inventory, a: Asked, qubits: int, busy: set<Name>): Matched {
    if a.code.None? || !CodeOffered(inv, a.code.value) then Rejected(UnsupportedCode)
    else if OfKind(inv, a.kind) == [] then Rejected(NoMatchingController)
    else
      AnswerOf(OnTransport(inv, OfKind(inv, a.kind), a, a.code.value, qubits, busy), a.transport,
        TransportsOf(OfKind(inv, a.kind)))
  }

  function Match(inv: Inventory, intent: Option<Intent>, qubits: Option<int>, busy: set<Name>): Matched {
    var asked := Read(intent, qubits);
    if asked.None? then Rejected(InvalidRequest) else MatchAsked(inv, asked.value, qubits.value, busy)
  }

  method TryTransports(on: Name -> Matched, ts: seq<Name>) returns (r: Matched)
    ensures r == FirstMatch(on, ts)
  {
    var first: Option<Reason> := None;
    assert ts[0..] == ts;
    for i := 0 to |ts|
      invariant first.None? <==> i == 0
      invariant
        var rest := FirstMatch(on, ts[i..]);
        FirstMatch(on, ts) == if first.Some? && rest.Rejected? then Rejected(first.value) else rest
    {
      assert ts[i..][1..] == ts[i + 1..];
      var here := on(ts[i]);
      match here
      case Accepted(_, _) =>
        return here;
      case Rejected(reason) =>
        if first.None? {
          first := Some(reason);
        }
    }
    r := Rejected(if first.Some? then first.value else UnsupportedTransport);
  }
}
