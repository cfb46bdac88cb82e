/** Devices whose qubits hold definite values: every gate is an arbitrary
    function of the qubits it names, and a measurement reads one value. They
    obey the laws of `Circuits`, and on them the transcoding law becomes an
    equation between classical registers. */
module BraketAssignments {
  import opened Ordering
  import opened Circuits
  import opened Braket
  import opened BraketCounts
  import opened BraketTheorem
  import opened WireOrder

  datatype State<V> = Lost | Holds(values: map<nat, V>)

  /** What gates compute, how a value reads, and the value of an unset qubit. */
  datatype Rules<!V> = Rules(apply: (Op, seq<bool>, seq<V>) -> seq<V>, read: V -> bool, blank: V)

  function Get<V>(r: Rules<V>, m: map<nat, V>, q: nat): V {
    if q in m then m[q] else r.blank
  }

  function Fetch<V>(r: Rules<V>, m: map<nat, V>, qs: seq<nat>): (v: seq<V>)
    ensures |v| == |qs|
  {
    seq(|qs|, i requires 0 <= i < |qs| => Get(r, m, qs[i]))
  }

  function Writes<V>(qs: seq<nat>, out: seq<V>): map<nat, V> {
    map q | q in qs && IndexOf(qs, q) < |out| :: out[IndexOf(qs, q)]
  }

  function Act<V>(r: Rules<V>, op: Op, qs: seq<nat>, v: seq<bool>, m: map<nat, V>): map<nat, V> {
    m + Writes(qs, r.apply(op, v, Fetch(r, m, qs)))
  }

  function ValueDevice<V>(r: Rules<V>): Device<State<V>> {
    Device(
      (op, qs, v, s: State<V>) => if s.Lost? then Lost else Holds(Act(r, op, qs, v, s.values)),
      (q, b, s: State<V>) => if s.Lost? || r.read(Get(r, s.values, q)) != b then Lost else s,
      Lost,
      (s: State<V>) => if s.Lost? then 0 else 1)
  }

  lemma ActElsewhere<V>(r: Rules<V>, op: Op, qs: seq<nat>, v: seq<bool>, m: map<nat, V>, q: nat)
    requires q !in qs
    ensures Get(r, Act(r, op, qs, v, m), q) == Get(r, m, q)
  {
  }

  lemma FetchElsewhere<V>(r: Rules<V>, op: Op, qs: seq<nat>, v: seq<bool>, m: map<nat, V>, others: seq<nat>)
    requires Disjoint(qs, others)
    ensures Fetch(r, Act(r, op, qs, v, m), others) == Fetch(r, m, others)
  {
    forall i | 0 <= i < |others| ensures Get(r, Act(r, op, qs, v, m), others[i]) == Get(r, m, others[i]) {
      assert others[i] in others;
      ActElsewhere(r, op, qs, v, m, others[i]);
    }
  }

  lemma MergesCommute<V>(m: map<nat, V>, a: map<nat, V>, b: map<nat, V>)
    requires a.Keys !! b.Keys
    ensures (m + a) + b == (m + b) + a
  {
  }

  lemma ActsCommute<V>(r: Rules<V>, op: Op, qs: seq<nat>, v: seq<bool>, op': Op, qs': seq<nat>, v': seq<bool>,
                       m: map<nat, V>)
    requires Disjoint(qs, qs')
    ensures Act(r, op', qs', v', Act(r, op, qs, v, m)) == Act(r, op, qs, v, Act(r, op', qs', v', m))
  {
    FetchElsewhere(r, op, qs, v, m, qs');
    FetchElsewhere(r, op', qs', v', m, qs);
    MergesCommute(m, Writes(qs, r.apply(op, v, Fetch(r, m, qs))), Writes(qs', r.apply(op', v', Fetch(r, m, qs'))));
  }

  /** The laws can be met: every device of definite values meets them. */
  lemma ValueDeviceIsLawful<V(!new)>(r: Rules<V>)
    ensures Lawful(ValueDevice(r))
  {
    var d := ValueDevice(r);
    assert GatesCommute(d) by {
      forall op, qs, v, op', qs', v', s: State<V> | Disjoint(qs, qs')
        ensures d.gate(op', qs', v', d.gate(op, qs, v, s)) == d.gate(op, qs, v, d.gate(op', qs', v', s))
      {
        if s.Holds? {
          ActsCommute(r, op, qs, v, op', qs', v', s.values);
        }
      }
    }
    assert GateCommutesWithProject(d) by {
      forall op, qs: seq<nat>, v, q, b, s: State<V> | q !in qs
        ensures d.project(q, b, d.gate(op, qs, v, s)) == d.gate(op, qs, v, d.project(q, b, s))
      {
        if s.Holds? {
          ActElsewhere(r, op, qs, v, s.values, q);
        }
      }
    }
    assert ProjectsCommute(d) && ProjectRepeats(d) && ZeroIsEmpty(d);
  }

  // ------------------------------------------------------------------- trimming

  function Forget<V>(kept: seq<nat>, m: map<nat, V>): map<nat, V> {
    map i | 0 <= i < |kept| && kept[i] in m :: m[kept[i]]
  }

  function Restrict<V>(kept: seq<nat>): State<V> -> State<V> {
    (s: State<V>) => if s.Lost? then Lost else Holds(Forget(kept, s.values))
  }

  lemma GetForgotten<V>(r: Rules<V>, kept: seq<nat>, m: map<nat, V>, q: nat)
    requires q in kept
    ensures Get(r, Forget(kept, m), IndexOf(kept, q)) == Get(r, m, q)
  {
  }

  lemma IndexOfIndex(kept: seq<nat>, qs: seq<nat>, q: nat)
    requires q in qs && forall x | x in qs :: x in kept
    ensures IndexOf(kept, q) in Indices(kept, qs)
    ensures IndexOf(Indices(kept, qs), IndexOf(kept, q)) == IndexOf(qs, q)
  {
    IndexIsInjective(kept, q, qs);
    var found := Indices(kept, qs);
    var i, j := IndexOf(qs, q), IndexOf(found, IndexOf(kept, q));
    assert found[i] == IndexOf(kept, qs[i]);
    assert qs[j] in qs && found[j] == IndexOf(kept, qs[j]);
    assert qs[j] == kept[IndexOf(kept, qs[j])] == q;
  }

  lemma WritesAt<V>(kept: seq<nat>, qs: seq<nat>, out: seq<V>, i: nat)
    requires NoDuplicates(kept) && (forall x | x in qs :: x in kept) && i < |kept|
    ensures i in Writes(Indices(kept, qs), out) <==> kept[i] in Writes(qs, out)
    ensures kept[i] in Writes(qs, out) ==> Writes(Indices(kept, qs), out)[i] == Writes(qs, out)[kept[i]]
  {
    var q := kept[i];
    assert IndexOf(kept, q) == i;
    IndexIsInjective(kept, q, qs);
    if q in qs {
      IndexOfIndex(kept, qs, q);
    }
  }

  lemma WritesInside<V>(kept: seq<nat>, qs: seq<nat>, out: seq<V>)
    requires forall x | x in qs :: x in kept
    ensures forall i | i in Writes(Indices(kept, qs), out) :: i < |kept|
  {
    var found := Indices(kept, qs);
    forall i | i in Writes(found, out) ensures i < |kept| {
      var k := IndexOf(found, i);
      assert qs[k] in qs && found[k] == IndexOf(kept, qs[k]);
    }
  }

  lemma ForgetWrites<V>(kept: seq<nat>, qs: seq<nat>, m: map<nat, V>, out: seq<V>)
    requires NoDuplicates(kept) && forall x | x in qs :: x in kept
    ensures Forget(kept, m + Writes(qs, out)) == Forget(kept, m) + Writes(Indices(kept, qs), out)
  {
    var w, w' := Writes(qs, out), Writes(Indices(kept, qs), out);
    forall i: nat | i < |kept| ensures i in w' <==> kept[i] in w
      ensures kept[i] in w ==> w'[i] == w[kept[i]]
    {
      WritesAt(kept, qs, out, i);
    }
    WritesInside(kept, qs, out);
    MergeForgets(kept, m, w, w');
  }

  lemma MergeForgets<V>(kept: seq<nat>, m: map<nat, V>, w: map<nat, V>, w': map<nat, V>)
    requires forall i: nat | i < |kept| :: i in w' <==> kept[i] in w
    requires forall i: nat | i < |kept| && kept[i] in w :: w'[i] == w[kept[i]]
    requires forall i | i in w' :: i < |kept|
    ensures Forget(kept, m + w) == Forget(kept, m) + w'
  {
  }

  lemma ForgetAct<V>(r: Rules<V>, kept: seq<nat>, op: Op, qs: seq<nat>, v: seq<bool>, m: map<nat, V>)
    requires NoDuplicates(kept) && forall x | x in qs :: x in kept
    ensures Forget(kept, Act(r, op, qs, v, m)) == Act(r, op, Indices(kept, qs), v, Forget(kept, m))
  {
    forall i | 0 <= i < |qs| ensures Get(r, Forget(kept, m), Indices(kept, qs)[i]) == Get(r, m, qs[i]) {
      assert qs[i] in qs;
      GetForgotten(r, kept, m, qs[i]);
    }
    assert Fetch(r, Forget(kept, m), Indices(kept, qs)) == Fetch(r, m, qs);
    ForgetWrites(kept, qs, m, r.apply(op, v, Fetch(r, m, qs)));
  }

  /** Dropping idle qubits is a restriction of a device of definite values. */
  lemma ValueDeviceRestricts<V(!new)>(r: Rules<V>, kept: seq<nat>)
    requires NoDuplicates(kept)
    ensures Restricts(ValueDevice(r), ValueDevice(r), Restrict(kept), kept)
  {
    var d, f := ValueDevice(r), Restrict(kept);
    forall op, qs: seq<nat>, v, s: State<V> | forall q | q in qs :: q in kept
      ensures f(d.gate(op, qs, v, s)) == d.gate(op, Indices(kept, qs), v, f(s))
    {
      if s.Holds? {
        ForgetAct(r, kept, op, qs, v, s.values);
      }
    }
    forall q, b, s: State<V> | q in kept ensures f(d.project(q, b, s)) == d.project(IndexOf(kept, q), b, f(s)) {
      if s.Holds? {
        GetForgotten(r, kept, s.values, q);
      }
    }
  }

  // -------------------------------------------------------- one run, one register

  /** The classical register a circuit leaves when its qubits start at `m`. */
  function Run<V>(r: Rules<V>, data: seq<Instr>, m: map<nat, V>, reg: Register): (out: Register)
    ensures |out| == |reg|
    decreases |data|
  {
    if data == [] then reg
    else
      match data[0]
      case Gate(op, qs, cs) => Run(r, data[1..], Act(r, op, qs, Read(reg, cs), m), reg)
      case Barrier(_) => Run(r, data[1..], m, reg)
      case Measure(q, c) => Run(r, data[1..], m, Write(reg, c, r.read(Get(r, m, q))))
  }

  lemma {:induction false} NothingFromLost<V>(r: Rules<V>, data: seq<Instr>, reg: Register, target: Register)
    ensures Shots(ValueDevice(r), data, Lost, reg, target) == 0
    decreases |data|
  {
    if data != [] {
      NothingFromLost(r, data[1..], reg, target);
      if data[0].Measure? {
        NothingFromLost(r, data[1..], Write(reg, data[0].clbit, false), target);
        NothingFromLost(r, data[1..], Write(reg, data[0].clbit, true), target);
      }
    }
  }

  lemma {:induction false} AllShotsOnRun<V>(r: Rules<V>, data: seq<Instr>, m: map<nat, V>, reg: Register,
                                            target: Register)
    ensures Shots(ValueDevice(r), data, Holds(m), reg, target) == if Run(r, data, m, reg) == target then 1 else 0
    decreases |data|
  {
    if data != [] {
      match data[0]
      case Gate(op, qs, cs) =>
        AllShotsOnRun(r, data[1..], Act(r, op, qs, Read(reg, cs), m), reg, target);
      case Barrier(_) =>
        AllShotsOnRun(r, data[1..], m, reg, target);
      case Measure(q, c) =>
        var b := r.read(Get(r, m, q));
        AllShotsOnRun(r, data[1..], m, Write(reg, c, b), target);
        NothingFromLost(r, data[1..], Write(reg, c, !b), target);
    }
  }

  /** For every accepted circuit and every initial assignment, rekeying the word
      the rewritten program reads gives exactly the register the original
      circuit leaves. */
  lemma RekeyedRunIsOriginalRun<V(!new)>(r: Rules<V>, c: Circuit, linear: Circuit, m: map<nat, V>)
    requires ClbitsFit(c) && Accepted(c.data) && Used(c.data) != {}
    requires linear == c.(data := linear.data) && SameWireOrder(c.data, linear.data)
    ensures
      var l, program := LayoutOf(MapOf(linear)), Canonical(Trim(linear));
      var word := Run(r, program.data, Forget(Kept(linear.data), m), Zeros(program.numClbits));
      Sound(l) && |word| == |l.ranks| && NewKey(l, Key(word)) == Key(Run(r, c.data, m, Zeros(c.numClbits)))
  {
    var t, kept := Trim(linear), Kept(linear.data);
    var l, program := LayoutOf(MapOf(linear)), Canonical(t);
    WireOrderKeepsAcceptance(c.data, linear.data);
    assert t.numQubits == |kept| && Elements(kept) != {};
    assert program.numClbits == |l.ranks|;
    var word := Run(r, program.data, Forget(kept, m), Zeros(program.numClbits));
    var items: Histogram := [(Key(word), 1)];
    ValueDeviceIsLawful(r);
    ValueDeviceRestricts(r, kept);
    assert Binary(l, items) by {
      assert IsKey(|l.ranks|, Key(word));
    }
    OneItemHistogram(r, program, Forget(kept, m), word, items);
    var target := Run(r, c.data, m, Zeros(c.numClbits));
    TranscodePreservesCounts(ValueDevice(r), ValueDevice(r), Restrict(kept), c, linear, Holds(m), items, target);
    AllShotsOnRun(r, c.data, m, Zeros(c.numClbits), target);
    assert Total(l, items, 1, Key(target)) == if NewKey(l, items[0].0) == Key(target) then 1 else 0;
  }

  lemma OneItemHistogram<V(!new)>(r: Rules<V>, program: Circuit, m: map<nat, V>, word: Register, items: Histogram)
    requires word == Run(r, program.data, m, Zeros(program.numClbits)) && items == [(Key(word), 1)]
    ensures HistogramOf(ValueDevice(r), program, Holds(m), items)
  {
    forall reg: Register | |reg| == program.numClbits
      ensures CountOf(items, |items|, Key(reg))
                == Shots(ValueDevice(r), program.data, Holds(m), Zeros(program.numClbits), reg)
    {
      AllShotsOnRun(r, program.data, m, Zeros(program.numClbits), reg);
      KeyIsInjective(reg, word);
      assert CountOf(items, 1, Key(reg)) == CountOf(items, 0, Key(reg)) + if items[0].0 == Key(reg) then 1 else 0;
    }
  }
}
