/** Circuits as the transcoder sees them, and what running one means.

    A device is any state space with gates and projective measurements. Running
    a circuit branches on both outcomes of every measurement; `Shots` adds up
    the shots that end in a given classical register. Nothing is assumed of the
    states beyond the laws in `Lawful`, so superposition, entanglement and
    collapse are all covered. */
module Circuits {

  type Op = nat

  datatype Instr =
    | Gate(op: Op, qubits: seq<nat>, clbits: seq<nat>)
    | Barrier(over: seq<nat>)
    | Measure(qubit: nat, clbit: nat)
  {
    function Qubits(): seq<nat> {
      match this
      case Gate(_, qs, _) => qs
      case Barrier(qs) => qs
      case Measure(q, _) => [q]
    }

    function Clbits(): seq<nat> {
      match this
      case Gate(_, _, cs) => cs
      case Barrier(_) => []
      case Measure(_, c) => [c]
    }
  }

  datatype Circuit = Circuit(numQubits: nat, numClbits: nat, data: seq<Instr>)

  /** The values of classical bits, indexed by bit. */
  type Register = seq<bool>

  function Write(reg: Register, c: nat, b: bool): Register {
    if c < |reg| then reg[c := b] else reg
  }

  function Read(reg: Register, cs: seq<nat>): seq<bool> {
    seq(|cs|, i requires 0 <= i < |cs| => if cs[i] < |reg| then reg[cs[i]] else false)
  }

  function Zeros(n: nat): (r: Register)
    ensures |r| == n && forall i | 0 <= i < n :: !r[i]
  {
    seq(n, _ => false)
  }

  datatype Device<!S> = Device(
    gate: (Op, seq<nat>, seq<bool>, S) -> S,
    project: (nat, bool, S) -> S,
    zero: S,
    shots: S -> nat)

  /** The laws of measurement: operations on different qubits commute, asking a
      qubit again gives the same answer, and contradictory answers leave the
      empty branch, which holds no shots. */
  ghost predicate Lawful<S(!new)>(d: Device<S>) {
    && GatesCommute(d)
    && GateCommutesWithProject(d)
    && ProjectsCommute(d)
    && ProjectRepeats(d)
    && ZeroIsEmpty(d)
  }

  predicate Disjoint(xs: seq<nat>, ys: seq<nat>) {
    forall x | x in xs :: x !in ys
  }

  ghost predicate GatesCommute<S(!new)>(d: Device<S>) {
    forall op, qs, v, op', qs', v', s | Disjoint(qs, qs') ::
      d.gate(op', qs', v', d.gate(op, qs, v, s)) == d.gate(op, qs, v, d.gate(op', qs', v', s))
  }

  ghost predicate GateCommutesWithProject<S(!new)>(d: Device<S>) {
    forall op, qs: seq<nat>, v, q, b, s | q !in qs ::
      d.project(q, b, d.gate(op, qs, v, s)) == d.gate(op, qs, v, d.project(q, b, s))
  }

  ghost predicate ProjectsCommute<S(!new)>(d: Device<S>) {
    forall q, b, q', b', s | q != q' ::
      d.project(q', b', d.project(q, b, s)) == d.project(q, b, d.project(q', b', s))
  }

  ghost predicate ProjectRepeats<S(!new)>(d: Device<S>) {
    forall q, b, b', s ::
      d.project(q, b', d.project(q, b, s)) == if b == b' then d.project(q, b, s) else d.zero
  }

  ghost predicate ZeroIsEmpty<S(!new)>(d: Device<S>) {
    && d.shots(d.zero) == 0
    && (forall q, b :: d.project(q, b, d.zero) == d.zero)
  }

  /** The shots that leave the classical register equal to `target` when `data`
      runs from state `s` and register `reg`. */
  ghost function Shots<S>(d: Device<S>, data: seq<Instr>, s: S, reg: Register, target: Register): nat {
    if data == [] then
      if reg == target then d.shots(s) else 0
    else
      match data[0]
      case Gate(op, qs, cs) => Shots(d, data[1..], d.gate(op, qs, Read(reg, cs), s), reg, target)
      case Barrier(_) => Shots(d, data[1..], s, reg, target)
      case Measure(q, c) =>
        Shots(d, data[1..], d.project(q, false, s), Write(reg, c, false), target)
        + Shots(d, data[1..], d.project(q, true, s), Write(reg, c, true), target)
  }

  // ---------------------------------------------------------------- wire order

  /** Two instructions share no wire. */
  predicate Independent(a: Instr, b: Instr) {
    Disjoint(a.Qubits(), b.Qubits()) && Disjoint(a.Clbits(), b.Clbits())
  }

  lemma ReadAfterWrite(reg: Register, cs: seq<nat>, c: nat, b: bool)
    requires c !in cs
    ensures Read(Write(reg, c, b), cs) == Read(reg, cs)
  {
  }

  lemma WritesCommute(reg: Register, c: nat, b: bool, c': nat, b': bool)
    requires c != c'
    ensures Write(Write(reg, c, b), c', b') == Write(Write(reg, c', b'), c, b)
  {
  }

  ghost function ShotsVia<S>(d: Device<S>, a: Instr, rest: seq<Instr>, s: S, reg: Register, target: Register): nat {
    match a
    case Gate(op, qs, cs) => Shots(d, rest, d.gate(op, qs, Read(reg, cs), s), reg, target)
    case Barrier(_) => Shots(d, rest, s, reg, target)
    case Measure(q, c) =>
      Shots(d, rest, d.project(q, false, s), Write(reg, c, false), target)
      + Shots(d, rest, d.project(q, true, s), Write(reg, c, true), target)
  }

  lemma {:induction false} ShotsCons<S>(d: Device<S>, a: Instr, rest: seq<Instr>, s: S, reg: Register, target: Register)
    ensures Shots(d, [a] + rest, s, reg, target) == ShotsVia(d, a, rest, s, reg, target)
  {
    assert ([a] + rest)[1..] == rest;
  }

  lemma ExchangeMeasures<S(!new)>(d: Device<S>, q: nat, c: nat, q': nat, c': nat, rest: seq<Instr>, s: S, reg: Register,
                                  target: Register)
    requires ProjectsCommute(d) && q != q' && c != c'
    ensures Shots(d, [Measure(q, c)] + ([Measure(q', c')] + rest), s, reg, target)
         == Shots(d, [Measure(q', c')] + ([Measure(q, c)] + rest), s, reg, target)
  {
    ShotsCons(d, Measure(q, c), [Measure(q', c')] + rest, s, reg, target);
    ShotsCons(d, Measure(q', c'), [Measure(q, c)] + rest, s, reg, target);
    ShotsCons(d, Measure(q', c'), rest, d.project(q, false, s), Write(reg, c, false), target);
    ShotsCons(d, Measure(q', c'), rest, d.project(q, true, s), Write(reg, c, true), target);
    ShotsCons(d, Measure(q, c), rest, d.project(q', false, s), Write(reg, c', false), target);
    ShotsCons(d, Measure(q, c), rest, d.project(q', true, s), Write(reg, c', true), target);
    forall x, y ensures Write(Write(reg, c, x), c', y) == Write(Write(reg, c', y), c, x) {
      WritesCommute(reg, c, x, c', y);
    }
  }

  lemma ExchangeMeasureGate<S(!new)>(d: Device<S>, q: nat, c: nat, g: Instr, rest: seq<Instr>, s: S, reg: Register,
                                     target: Register)
    requires GateCommutesWithProject(d) && g.Gate? && q !in g.qubits && c !in g.clbits
    ensures Shots(d, [Measure(q, c)] + ([g] + rest), s, reg, target)
         == Shots(d, [g] + ([Measure(q, c)] + rest), s, reg, target)
  {
    ShotsCons(d, Measure(q, c), [g] + rest, s, reg, target);
    ShotsCons(d, g, [Measure(q, c)] + rest, s, reg, target);
    ShotsCons(d, Measure(q, c), rest, d.gate(g.op, g.qubits, Read(reg, g.clbits), s), reg, target);
    ReadAfterWrite(reg, g.clbits, c, false);
    ReadAfterWrite(reg, g.clbits, c, true);
    ShotsCons(d, g, rest, d.project(q, false, s), Write(reg, c, false), target);
    ShotsCons(d, g, rest, d.project(q, true, s), Write(reg, c, true), target);
  }

  /** Exchanging the first two instructions, when they share no wire. */
  lemma ExchangeHead<S(!new)>(d: Device<S>, a: Instr, b: Instr, rest: seq<Instr>, s: S, reg: Register, target: Register)
    requires Lawful(d) && Independent(a, b)
    ensures Shots(d, [a] + ([b] + rest), s, reg, target) == Shots(d, [b] + ([a] + rest), s, reg, target)
  {
    if a.Measure? {
      assert a.qubit in a.Qubits() && a.clbit in a.Clbits();
    }
    if b.Measure? {
      assert b.qubit in b.Qubits() && b.clbit in b.Clbits();
    }
    if a.Measure? && b.Measure? {
      ExchangeMeasures(d, a.qubit, a.clbit, b.qubit, b.clbit, rest, s, reg, target);
    } else if a.Measure? && b.Gate? {
      ExchangeMeasureGate(d, a.qubit, a.clbit, b, rest, s, reg, target);
    } else if a.Gate? && b.Measure? {
      ExchangeMeasureGate(d, b.qubit, b.clbit, a, rest, s, reg, target);
    } else {
      ExchangeOthers(d, a, b, rest, s, reg, target);
    }
  }

  lemma ExchangeOthers<S(!new)>(d: Device<S>, a: Instr, b: Instr, rest: seq<Instr>, s: S, reg: Register,
                                target: Register)
    requires GatesCommute(d) && Independent(a, b)
    requires a.Barrier? || b.Barrier? || (a.Gate? && b.Gate?)
    ensures Shots(d, [a] + ([b] + rest), s, reg, target) == Shots(d, [b] + ([a] + rest), s, reg, target)
  {
    assert ([a] + ([b] + rest))[1..][1..] == rest && ([b] + ([a] + rest))[1..][1..] == rest;
    assert ([a] + ([b] + rest))[1..] == [b] + rest && ([b] + ([a] + rest))[1..] == [a] + rest;
  }
}
