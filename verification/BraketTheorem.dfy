/** The transcoder preserves meaning: the remapped histogram of the rewritten
    program is the histogram of the original circuit. */
module BraketTheorem {
  import opened Ordering
  import opened SubsetSums
  import opened Circuits
  import opened Braket
  import opened BraketCounts
  import opened WireOrder

  // ----------------------------------------------------------------- hoisting

  function MeasureAll(pairs: seq<Pair>): (r: seq<Instr>)
    ensures |r| == |pairs|
  {
    seq(|pairs|, i requires 0 <= i < |pairs| => Measure(pairs[i].0, pairs[i].1))
  }

  /** The state after the gates of `ops`; none of them reads a classical bit. */
  ghost function Evolve<S>(d: Device<S>, ops: seq<Instr>, s: S): S {
    if ops == [] then s
    else if ops[0].Gate? then Evolve(d, ops[1..], d.gate(ops[0].op, ops[0].qubits, [], s))
    else Evolve(d, ops[1..], s)
  }

  /** A measurement slides past gates that leave its qubit alone. */
  lemma {:induction false} ProjectPastGates<S(!new)>(d: Device<S>, ops: seq<Instr>, q: nat, b: bool, s: S)
    requires GateCommutesWithProject(d)
    requires forall i | 0 <= i < |ops| && ops[i].Gate? :: q !in ops[i].qubits
    ensures Evolve(d, ops, d.project(q, b, s)) == d.project(q, b, Evolve(d, ops, s))
  {
    if ops != [] {
      forall i | 0 <= i < |ops[1..]| && ops[1..][i].Gate? ensures q !in ops[1..][i].qubits {
        assert ops[1..][i] == ops[i + 1];
      }
      if ops[0].Gate? {
        var after := d.gate(ops[0].op, ops[0].qubits, [], s);
        assert d.project(q, b, after) == d.gate(ops[0].op, ops[0].qubits, [], d.project(q, b, s));
        ProjectPastGates(d, ops[1..], q, b, after);
      } else {
        ProjectPastGates(d, ops[1..], q, b, s);
      }
    }
  }

  lemma {:induction false} OperationsComeFrom(data: seq<Instr>)
    ensures forall i | 0 <= i < |Operations(data)| :: Operations(data)[i] in data && !Operations(data)[i].Measure?
  {
    if data != [] {
      OperationsComeFrom(data[1..]);
    }
  }

  /** All gates first, then all measurements in their order: the same counts. */
  lemma {:induction false} Hoist<S(!new)>(d: Device<S>, data: seq<Instr>, s: S, reg: Register, target: Register)
    requires GateCommutesWithProject(d) && Terminal(data) && QuantumOnly(data)
    ensures Shots(d, data, s, reg, target)
         == Shots(d, MeasureAll(Pairs(data)), Evolve(d, Operations(data), s), reg, target)
    decreases |data|
  {
    if data != [] {
      var rest := data[1..];
      TailIsTerminal(data);
      match data[0]
      case Gate(op, qs, cs) =>
        assert Read(reg, cs) == [];
        Hoist(d, rest, d.gate(op, qs, [], s), reg, target);
        assert Operations(data)[1..] == Operations(rest);
      case Barrier(_) =>
        Hoist(d, rest, s, reg, target);
        assert Operations(data)[1..] == Operations(rest);
      case Measure(q, c) =>
        Hoist(d, rest, d.project(q, false, s), Write(reg, c, false), target);
        Hoist(d, rest, d.project(q, true, s), Write(reg, c, true), target);
        HoistMeasure(d, q, c, rest, s, reg, target);
        assert data == [Measure(q, c)] + rest;
        ShotsCons(d, Measure(q, c), rest, s, reg, target);
        assert MeasureAll(Pairs(data)) == [Measure(q, c)] + MeasureAll(Pairs(rest));
        assert Operations(data) == Operations(rest);
    }
  }

  lemma HoistMeasure<S(!new)>(d: Device<S>, q: nat, c: nat, rest: seq<Instr>, s: S, reg: Register, target: Register)
    requires GateCommutesWithProject(d)
    requires forall i | 0 <= i < |Operations(rest)| && Operations(rest)[i].Gate? :: q !in Operations(rest)[i].qubits
    ensures
      var ops, measures := Operations(rest), MeasureAll(Pairs(rest));
      Shots(d, [Measure(q, c)] + measures, Evolve(d, ops, s), reg, target)
      == Shots(d, measures, Evolve(d, ops, d.project(q, false, s)), Write(reg, c, false), target)
       + Shots(d, measures, Evolve(d, ops, d.project(q, true, s)), Write(reg, c, true), target)
  {
    var ops, measures := Operations(rest), MeasureAll(Pairs(rest));
    ProjectPastGates(d, ops, q, false, s);
    ProjectPastGates(d, ops, q, true, s);
    ShotsCons(d, Measure(q, c), measures, Evolve(d, ops, s), reg, target);
  }

  lemma TailIsTerminal(data: seq<Instr>)
    requires data != [] && Terminal(data) && QuantumOnly(data)
    ensures Terminal(data[1..]) && QuantumOnly(data[1..])
    ensures data[0].Measure? ==>
      forall i | 0 <= i < |Operations(data[1..])| && Operations(data[1..])[i].Gate? ::
          data[0].qubit !in Operations(data[1..])[i].qubits
  {
    var rest := data[1..];
    forall i, j | 0 <= i < j < |rest| && rest[i].Measure? && rest[j].Gate? ensures rest[i].qubit !in rest[j].qubits {
      assert rest[i] == data[i + 1] && rest[j] == data[j + 1];
    }
    OperationsComeFrom(rest);
    var ops := Operations(rest);
    if data[0].Measure? {
      forall i | 0 <= i < |ops| && ops[i].Gate? ensures data[0].qubit !in ops[i].qubits {
        var j := IndexOf(rest, ops[i]);
        assert data[j + 1] == ops[i];
      }
    }
  }

  /** The canonical program runs its gates, then its measurement block. */
  lemma {:induction false} GatesThenBlock<S(!new)>(d: Device<S>, ops: seq<Instr>, block: seq<Instr>, s: S,
      reg: Register, target: Register)
    requires QuantumOnly(ops) && forall i | 0 <= i < |ops| :: !ops[i].Measure?
    ensures Shots(d, ops + block, s, reg, target) == Shots(d, block, Evolve(d, ops, s), reg, target)
    decreases |ops|
  {
    if ops == [] {
      assert ops + block == block;
    } else {
      assert (ops + block)[1..] == ops[1..] + block;
      if ops[0].Gate? {
        assert Read(reg, ops[0].clbits) == [];
        GatesThenBlock(d, ops[1..], block, d.gate(ops[0].op, ops[0].qubits, [], s), reg, target);
      } else {
        GatesThenBlock(d, ops[1..], block, s, reg, target);
      }
    }
  }

  // ------------------------------------------------- outcomes as sets of qubits

  /** The branch in which exactly the qubits of `ones` read 1. */
  ghost function Branch<S>(d: Device<S>, qs: seq<nat>, ones: set<nat>, s: S): S {
    if qs == [] then s else Branch(d, qs[1..], ones, d.project(qs[0], qs[0] in ones, s))
  }

  /** The register the measurements leave in that branch: the last write to a
      bit is the one that stays. */
  function Outcome(pairs: seq<Pair>, ones: set<nat>, reg: Register): (r: Register)
    ensures |r| == |reg|
  {
    if pairs == [] then reg
    else Outcome(pairs[1..], ones, Write(reg, pairs[0].1, pairs[0].0 in ones))
  }

  /** Each measured qubit once. */
  function Distinct(pairs: seq<Pair>): (r: seq<nat>)
    ensures NoDuplicates(r) && Elements(r) == Measured(pairs)
  {
    if pairs == [] then []
    else
      assert pairs == [pairs[0]] + pairs[1..];
      MeasuredCons(pairs[0], pairs[1..]);
      var rest := Distinct(pairs[1..]);
      if pairs[0].0 in rest then rest
      else
        var r := [pairs[0].0] + rest;
        assert Elements(r) == {pairs[0].0} + Elements(rest);
        r
  }

  /** Projecting a qubit before a branch that asks it again changes nothing, or
      empties the branch when the answers disagree. */
  lemma {:induction false} ProjectThenBranch<S(!new)>(d: Device<S>, qs: seq<nat>, ones: set<nat>, q: nat, b: bool, s: S)
    requires Lawful(d) && q in qs
    ensures Branch(d, qs, ones, d.project(q, b, s)) == if b == (q in ones) then Branch(d, qs, ones, s) else d.zero
  {
    var b0 := qs[0] in ones;
    if qs[0] == q {
      assert d.project(q, b0, d.project(q, b, s)) == if b == b0 then d.project(q, b, s) else d.zero;
      if b != b0 {
        EmptyBranch(d, qs[1..], ones);
      }
    } else {
      assert d.project(qs[0], b0, d.project(q, b, s)) == d.project(q, b, d.project(qs[0], b0, s));
      ProjectThenBranch(d, qs[1..], ones, q, b, d.project(qs[0], b0, s));
    }
  }

  lemma {:induction false} EmptyBranch<S(!new)>(d: Device<S>, qs: seq<nat>, ones: set<nat>)
    requires ZeroIsEmpty(d)
    ensures Branch(d, qs, ones, d.zero) == d.zero
  {
    if qs != [] {
      EmptyBranch(d, qs[1..], ones);
    }
  }

  ghost function ShotsOf<S>(d: Device<S>, pairs: seq<Pair>, qs: seq<nat>, s: S, reg: Register, target: Register): Term {
    ones => if Outcome(pairs, ones, reg) == target then d.shots(Branch(d, qs, ones, s)) else 0
  }

  /** Branching on every measurement in turn is the same as summing over which
      of the measured qubits read 1. */
  lemma {:induction false} BranchesAreSubsets<S(!new)>(d: Device<S>, pairs: seq<Pair>, chosen: set<nat>, s: S,
      reg: Register, target: Register)
    requires Lawful(d) && chosen !! Measured(pairs)
    ensures Shots(d, MeasureAll(pairs), s, reg, target)
         == Sum(Distinct(pairs), chosen, ShotsOf(d, pairs, Distinct(pairs), s, reg, target))
    decreases |pairs|
  {
    if pairs != [] {
      var (q, c) := pairs[0];
      var rest := pairs[1..];
      assert pairs == [pairs[0]] + rest;
      MeasuredCons(pairs[0], rest);
      assert MeasureAll(pairs) == [Measure(q, c)] + MeasureAll(rest);
      ShotsCons(d, Measure(q, c), MeasureAll(rest), s, reg, target);
      BranchesAreSubsets(d, rest, chosen, d.project(q, false, s), Write(reg, c, false), target);
      if q in Distinct(rest) {
        BranchesAreSubsets(d, rest, chosen, d.project(q, true, s), Write(reg, c, true), target);
        AskedAgain(d, pairs, chosen, s, reg, target);
      } else {
        assert q !in Measured(rest) by { assert q !in Elements(Distinct(rest)); }
        BranchesAreSubsets(d, rest, chosen + {q}, d.project(q, true, s), Write(reg, c, true), target);
        AskedOnce(d, pairs, chosen, s, reg, target);
      }
    } else {
      assert Distinct(pairs) == [];
      assert Branch(d, [], chosen, s) == s && Outcome(pairs, chosen, reg) == reg;
    }
  }

  lemma AskedAgain<S(!new)>(d: Device<S>, pairs: seq<Pair>, chosen: set<nat>, s: S, reg: Register, target: Register)
    requires Lawful(d) && pairs != [] && pairs[0].0 in Distinct(pairs[1..])
    ensures
      var (q, c) := pairs[0];
      var rest, qs := pairs[1..], Distinct(pairs[1..]);
      Sum(qs, chosen, ShotsOf(d, pairs, qs, s, reg, target))
      == Sum(qs, chosen, ShotsOf(d, rest, qs, d.project(q, false, s), Write(reg, c, false), target))
       + Sum(qs, chosen, ShotsOf(d, rest, qs, d.project(q, true, s), Write(reg, c, true), target))
  {
    var (q, c) := pairs[0];
    var rest, qs := pairs[1..], Distinct(pairs[1..]);
    var whole := ShotsOf(d, pairs, qs, s, reg, target);
    var zero := ShotsOf(d, rest, qs, d.project(q, false, s), Write(reg, c, false), target);
    var one := ShotsOf(d, rest, qs, d.project(q, true, s), Write(reg, c, true), target);
    forall ones ensures whole(ones) == zero(ones) + one(ones) {
      ProjectThenBranch(d, qs, ones, q, false, s);
      ProjectThenBranch(d, qs, ones, q, true, s);
    }
    SumAdds(qs, chosen, zero, one, whole);
  }

  lemma AskedOnce<S(!new)>(d: Device<S>, pairs: seq<Pair>, chosen: set<nat>, s: S, reg: Register, target: Register)
    requires pairs != [] && pairs[0].0 !in Distinct(pairs[1..]) && pairs[0].0 !in chosen
    ensures
      var (q, c) := pairs[0];
      var rest, qs := pairs[1..], Distinct(pairs[1..]);
      Sum(Distinct(pairs), chosen, ShotsOf(d, pairs, Distinct(pairs), s, reg, target))
      == Sum(qs, chosen, ShotsOf(d, rest, qs, d.project(q, false, s), Write(reg, c, false), target))
       + Sum(qs, chosen + {q}, ShotsOf(d, rest, qs, d.project(q, true, s), Write(reg, c, true), target))
  {
    var (q, c) := pairs[0];
    var rest, qs := pairs[1..], Distinct(pairs[1..]);
    var all := Distinct(pairs);
    assert all == [q] + qs && all[1..] == qs;
    var whole := ShotsOf(d, pairs, all, s, reg, target);
    var zero := ShotsOf(d, rest, qs, d.project(q, false, s), Write(reg, c, false), target);
    var one := ShotsOf(d, rest, qs, d.project(q, true, s), Write(reg, c, true), target);
    assert q !in Elements(qs);
    forall ones | InRange(qs, chosen, ones) ensures whole(ones) == zero(ones) {
      assert q !in ones;
      assert Branch(d, all, ones, s) == Branch(d, qs, ones, d.project(q, false, s));
      assert Outcome(pairs, ones, reg) == Outcome(rest, ones, Write(reg, c, false));
    }
    forall ones | InRange(qs, chosen + {q}, ones) ensures whole(ones) == one(ones) {
      assert q in ones;
      assert Branch(d, all, ones, s) == Branch(d, qs, ones, d.project(q, true, s));
    }
    SumCongruent(qs, chosen, whole, zero);
    SumCongruent(qs, chosen + {q}, whole, one);
  }

  // ------------------------------------------- the order of asking is irrelevant

  lemma {:induction false} ProjectAfterBranch<S(!new)>(d: Device<S>, qs: seq<nat>, ones: set<nat>, q: nat, s: S)
    requires Lawful(d)
    ensures Branch(d, qs, ones, d.project(q, q in ones, s)) == d.project(q, q in ones, Branch(d, qs, ones, s))
  {
    if qs != [] {
      var b := qs[0] in ones;
      assert d.project(qs[0], b, d.project(q, q in ones, s)) == d.project(q, q in ones, d.project(qs[0], b, s));
      ProjectAfterBranch(d, qs[1..], ones, q, d.project(qs[0], b, s));
    }
  }

  lemma {:induction false} BranchesCommute<S(!new)>(d: Device<S>, a: seq<nat>, b: seq<nat>, ones: set<nat>, s: S)
    requires Lawful(d)
    ensures Branch(d, b, ones, Branch(d, a, ones, s)) == Branch(d, a, ones, Branch(d, b, ones, s))
  {
    if a != [] {
      BranchesCommute(d, a[1..], b, ones, d.project(a[0], a[0] in ones, s));
      ProjectAfterBranch(d, b, ones, a[0], s);
    }
  }

  lemma {:induction false} BranchAbsorbs<S(!new)>(d: Device<S>, a: seq<nat>, b: seq<nat>, ones: set<nat>, s: S)
    requires Lawful(d) && forall q | q in a :: q in b
    ensures Branch(d, b, ones, Branch(d, a, ones, s)) == Branch(d, b, ones, s)
  {
    if a != [] {
      BranchAbsorbs(d, a[1..], b, ones, d.project(a[0], a[0] in ones, s));
      ProjectThenBranch(d, b, ones, a[0], a[0] in ones, s);
    }
  }

  lemma BranchIgnoresOrder<S(!new)>(d: Device<S>, a: seq<nat>, b: seq<nat>, ones: set<nat>, s: S)
    requires Lawful(d) && Elements(a) == Elements(b)
    ensures Branch(d, a, ones, s) == Branch(d, b, ones, s)
  {
    assert forall q :: q in a <==> q in Elements(a);
    assert forall q :: q in b <==> q in Elements(b);
    BranchAbsorbs(d, a, b, ones, s);
    BranchAbsorbs(d, b, a, ones, s);
    BranchesCommute(d, a, b, ones, s);
  }

  // ------------------------------------------------------- the measurement block

  function BlockPairs(ranks: seq<nat>): (r: seq<Pair>)
    ensures |r| == |ranks|
  {
    seq(|ranks|, k requires 0 <= k < |ranks| => (ranks[k], k))
  }

  /** The qubits a block register says read 1, and the register for them. */
  ghost function OnesOf(ranks: seq<nat>, reg: Register): set<nat>
    requires |reg| == |ranks|
  {
    set k | 0 <= k < |ranks| && reg[k] :: ranks[k]
  }

  function RegisterOf(ranks: seq<nat>, ones: set<nat>): (r: Register)
    ensures |r| == |ranks|
  {
    seq(|ranks|, k requires 0 <= k < |ranks| => ranks[k] in ones)
  }

  lemma RegisterRoundTrip(ranks: seq<nat>, reg: Register)
    requires NoDuplicates(ranks) && |reg| == |ranks|
    ensures RegisterOf(ranks, OnesOf(ranks, reg)) == reg
  {
  }

  lemma OnesRoundTrip(ranks: seq<nat>, ones: set<nat>)
    requires ones <= Elements(ranks)
    ensures OnesOf(ranks, RegisterOf(ranks, ones)) == ones
  {
    var back := OnesOf(ranks, RegisterOf(ranks, ones));
    forall q | q in ones ensures q in back {
      assert q in Elements(ranks);
      var k := IndexOf(ranks, q);
      assert ranks[k] == q;
    }
  }

  lemma {:induction false} OutcomeOfBlock(ranks: seq<nat>, from: nat, ones: set<nat>, reg: Register)
    requires from <= |ranks| == |reg|
    ensures forall k | 0 <= k < |ranks| ::
      Outcome(BlockPairs(ranks)[from..], ones, reg)[k] == if k < from then reg[k] else ranks[k] in ones
    decreases |ranks| - from
  {
    var pairs := BlockPairs(ranks)[from..];
    if from < |ranks| {
      assert pairs[0] == (ranks[from], from) && pairs[1..] == BlockPairs(ranks)[from + 1..];
      OutcomeOfBlock(ranks, from + 1, ones, Write(reg, from, ranks[from] in ones));
    }
  }

  /** The block leaves one register per branch: the device key of the branch. */
  lemma BlockShots<S(!new)>(d: Device<S>, ranks: seq<nat>, s: S, reg: Register)
    requires Lawful(d) && NoDuplicates(ranks) && |reg| == |ranks|
    ensures Shots(d, Block(ranks), s, Zeros(|ranks|), reg) == d.shots(Branch(d, ranks, OnesOf(ranks, reg), s))
  {
    var pairs, zeros, only := BlockPairs(ranks), Zeros(|ranks|), OnesOf(ranks, reg);
    var qs := Distinct(pairs);
    assert Block(ranks) == MeasureAll(pairs);
    BranchesAreSubsets(d, pairs, {}, s, zeros, reg);
    assert Measured(pairs) == Elements(ranks) by {
      assert forall k | 0 <= k < |ranks| :: pairs[k].0 == ranks[k];
    }
    var f := ShotsOf(d, pairs, qs, s, zeros, reg);
    forall ones | InRange(qs, {}, ones) ensures (Outcome(pairs, ones, zeros) == reg) <==> ones == only {
      assert pairs[0..] == pairs;
      OutcomeOfBlock(ranks, 0, ones, zeros);
      assert Outcome(pairs, ones, zeros) == RegisterOf(ranks, ones);
      RegisterRoundTrip(ranks, reg);
      OnesRoundTrip(ranks, ones);
    }
    assert InRange(qs, {}, only);
    SumOfOne(qs, {}, f, only);
    BranchIgnoresOrder(d, qs, ranks, only, s);
  }

  // ------------------------------------------------------------------- rekeying

  lemma KeyOfWrite(reg: Register, c: nat, b: bool)
    requires c < |reg|
    ensures Key(Write(reg, c, b)) == Key(reg)[|reg| - 1 - c := Bit(b)]
  {
  }

  lemma KeyAt(reg: Register, c: nat)
    requires c < |reg|
    ensures Key(reg)[|reg| - 1 - c] == Bit(reg[c])
  {
  }

  lemma KeyOfZeros(n: nat)
    ensures Key(Zeros(n)) == Blank(n)
  {
    var zeros := Zeros(n);
    var key := Key(zeros);
    forall i | 0 <= i < n ensures key[i] == '0' {
      var c := n - 1 - i;
      KeyAt(zeros, c);
    }
  }

  lemma KeyIsInjective(a: Register, b: Register)
    ensures Key(a) == Key(b) <==> a == b
  {
    if Key(a) == Key(b) {
      forall i | 0 <= i < |a| ensures a[i] == b[i] {
        assert Key(a)[|a| - 1 - i] == Bit(a[i]) && Key(b)[|b| - 1 - i] == Bit(b[i]);
      }
    }
  }

  lemma {:induction false} OutcomeAppend(pairs: seq<Pair>, p: Pair, ones: set<nat>, reg: Register)
    ensures Outcome(pairs + [p], ones, reg) == Write(Outcome(pairs, ones, reg), p.1, p.0 in ones)
    decreases |pairs|
  {
    if pairs == [] {
      assert pairs + [p] == [p];
    } else {
      assert (pairs + [p])[1..] == pairs[1..] + [p];
      OutcomeAppend(pairs[1..], p, ones, Write(reg, pairs[0].1, pairs[0].0 in ones));
    }
  }

  lemma DeviceBit(ranks: seq<nat>, reg: Register, q: nat)
    requires NoDuplicates(ranks) && |reg| == |ranks| && q in ranks
    ensures Key(reg)[|ranks| - 1 - IndexOf(ranks, q)] == Bit(q in OnesOf(ranks, reg))
  {
    var r := IndexOf(ranks, q);
    KeyAt(reg, r);
    RegisterRoundTrip(ranks, reg);
    assert RegisterOf(ranks, OnesOf(ranks, reg))[r] == (ranks[r] in OnesOf(ranks, reg));
  }

  /** Rekeying a device key gives the register the original circuit leaves in
      the same branch: repeated measurements, last write wins, unmeasured bits
      reading 0. */
  lemma {:induction false} RekeyGivesOutcome(l: Layout, n: nat, reg: Register)
    requires Sound(l) && NoDuplicates(l.ranks) && |reg| == |l.ranks| && n <= |l.pairs|
    ensures Copied(l, n, Key(reg)) == Key(Outcome(l.pairs[..n], OnesOf(l.ranks, reg), Zeros(l.numClbits)))
    decreases n
  {
    var ones, zeros := OnesOf(l.ranks, reg), Zeros(l.numClbits);
    if n == 0 {
      assert l.pairs[..0] == [];
      KeyOfZeros(l.numClbits);
    } else {
      RekeyGivesOutcome(l, n - 1, reg);
      var before := Outcome(l.pairs[..n - 1], ones, zeros);
      assert l.pairs[..n] == l.pairs[..n - 1] + [l.pairs[n - 1]];
      OutcomeAppend(l.pairs[..n - 1], l.pairs[n - 1], ones, zeros);
      CopyOne(l, n, reg, before);
    }
  }

  lemma CopyOne(l: Layout, n: nat, reg: Register, before: Register)
    requires Sound(l) && NoDuplicates(l.ranks) && |reg| == |l.ranks| && 0 < n <= |l.pairs|
    requires |before| == l.numClbits && Copied(l, n - 1, Key(reg)) == Key(before)
    ensures Copied(l, n, Key(reg)) == Key(Write(before, l.pairs[n - 1].1, l.pairs[n - 1].0 in OnesOf(l.ranks, reg)))
  {
    var (q, c) := l.pairs[n - 1];
    KeyOfWrite(before, c, q in OnesOf(l.ranks, reg));
    DeviceBit(l.ranks, reg, q);
  }

  /** The shots the first `n` items put on one device key. */
  ghost function CountOf(items: Histogram, n: nat, key: string): nat
    requires n <= |items|
  {
    if n == 0 then 0 else CountOf(items, n - 1, key) + if items[n - 1].0 == key then items[n - 1].1 else 0
  }

  /** Every key is a word of one bit per rank. */
  ghost predicate Binary(l: Layout, items: Histogram) {
    forall i | 0 <= i < |items| :: IsKey(|l.ranks|, items[i].0)
  }

  ghost predicate IsKey(n: nat, key: string) {
    exists reg: Register :: |reg| == n && key == Key(reg)
  }

  ghost function CountsOf(l: Layout, items: Histogram, n: nat, target: Register): Term
    requires n <= |items|
  {
    ones => if Outcome(l.pairs, ones, Zeros(l.numClbits)) == target
        then CountOf(items, n, Key(RegisterOf(l.ranks, ones))) else 0
  }

  /** The remapped total of a classical key is a sum over which of the measured
      qubits read 1. */
  lemma {:induction false} TotalIsSum(l: Layout, items: Histogram, n: nat, qs: seq<nat>, target: Register)
    requires Sound(l) && NoDuplicates(l.ranks) && NoDuplicates(qs) && Elements(qs) == Elements(l.ranks)
    requires Binary(l, items) && Wide(l, items) && n <= |items| && |target| == l.numClbits
    ensures Total(l, items, n, Key(target)) == Sum(qs, {}, CountsOf(l, items, n, target))
    decreases n
  {
    if n == 0 {
      NoItems(l, items, qs, target);
    } else {
      TotalIsSum(l, items, n - 1, qs, target);
      LastItem(l, items, n, qs, target);
    }
  }

  lemma NoItems(l: Layout, items: Histogram, qs: seq<nat>, target: Register)
    ensures Sum(qs, {}, CountsOf(l, items, 0, target)) == 0
  {
    var f := CountsOf(l, items, 0, target);
    assert forall ones :: f(ones) == 0;
    SumOfZeros(qs, {}, f);
  }

  lemma LastItem(l: Layout, items: Histogram, n: nat, qs: seq<nat>, target: Register)
    requires Sound(l) && NoDuplicates(l.ranks) && NoDuplicates(qs) && Elements(qs) == Elements(l.ranks)
    requires Binary(l, items) && Wide(l, items) && 0 < n <= |items| && |target| == l.numClbits
    ensures Sum(qs, {}, CountsOf(l, items, n, target)) == Sum(qs, {}, CountsOf(l, items, n - 1, target))
      + if NewKey(l, items[n - 1].0) == Key(target) then items[n - 1].1 else 0
  {
    var (key, count) := items[n - 1];
    assert IsKey(|l.ranks|, items[n - 1].0);
    var reg: Register :| |reg| == |l.ranks| && key == Key(reg);
    var only, zeros := OnesOf(l.ranks, reg), Zeros(l.numClbits);
    var f: Term := ones => if Outcome(l.pairs, ones, zeros) == target && Key(RegisterOf(l.ranks, ones)) == key
        then count else 0;
    forall ones | InRange(qs, {}, ones) && ones != only ensures f(ones) == 0 {
      KeyIsInjective(RegisterOf(l.ranks, ones), reg);
      OnesRoundTrip(l.ranks, ones);
    }
    SumOfOne(qs, {}, f, only);
    SumAdds(qs, {}, CountsOf(l, items, n - 1, target), f, CountsOf(l, items, n, target));
    RegisterRoundTrip(l.ranks, reg);
    RekeyGivesOutcome(l, |l.pairs|, reg);
    assert l.pairs[..|l.pairs|] == l.pairs;
    KeyIsInjective(Outcome(l.pairs, only, zeros), target);
  }

  // ------------------------------------------------------------------- trimming

  /** `f` forgets the idle qubits: what the kept ones do is what the trimmed
      device does to its renumbered qubits, shot for shot. */
  ghost predicate Restricts<S(!new), T>(d: Device<S>, e: Device<T>, f: S -> T, kept: seq<nat>) {
    && (forall op, qs: seq<nat>, v, s | forall q | q in qs :: q in kept ::
          f(d.gate(op, qs, v, s)) == e.gate(op, Indices(kept, qs), v, f(s)))
    && (forall q, b, s | q in kept :: f(d.project(q, b, s)) == e.project(IndexOf(kept, q), b, f(s)))
    && (forall s :: e.shots(f(s)) == d.shots(s))
  }

  lemma {:induction false} TrimmedShots<S(!new), T>(d: Device<S>, e: Device<T>, f: S -> T, kept: seq<nat>,
      data: seq<Instr>, s: S, reg: Register, target: Register)
    requires Restricts(d, e, f, kept) && Covers(kept, data)
    ensures Shots(e, Relabel(kept, data), f(s), reg, target) == Shots(d, data, s, reg, target)
    decreases |data|
  {
    if data != [] {
      var rest := data[1..];
      assert Covers(kept, rest) by {
        forall i, q | 0 <= i < |rest| && q in rest[i].Qubits() ensures q in kept {
          assert rest[i] == data[i + 1];
        }
      }
      assert Relabel(kept, data)[1..] == Relabel(kept, rest);
      assert Relabel(kept, data)[0] == RelabelOne(kept, data[0]);
      match data[0]
      case Gate(op, qs, cs) =>
        assert forall q | q in qs :: q in data[0].Qubits();
        TrimmedShots(d, e, f, kept, rest, d.gate(op, qs, Read(reg, cs), s), reg, target);
      case Barrier(_) =>
        TrimmedShots(d, e, f, kept, rest, s, reg, target);
      case Measure(q, c) =>
        assert q in data[0].Qubits();
        TrimmedShots(d, e, f, kept, rest, d.project(q, false, s), Write(reg, c, false), target);
        TrimmedShots(d, e, f, kept, rest, d.project(q, true, s), Write(reg, c, true), target);
    }
  }

  lemma IndexIsInjective(kept: seq<nat>, q: nat, qs: seq<nat>)
    requires q in kept && forall x | x in qs :: x in kept
    ensures IndexOf(kept, q) in Indices(kept, qs) <==> q in qs
  {
    var found := Indices(kept, qs);
    if q in qs {
      var k := IndexOf(qs, q);
      assert found[k] == IndexOf(kept, qs[k]);
    }
    if IndexOf(kept, q) in found {
      var k := IndexOf(found, IndexOf(kept, q));
      assert qs[k] in qs;
      assert qs[k] == kept[IndexOf(kept, qs[k])] == q;
    }
  }

  lemma RelabelKeepsClash(kept: seq<nat>, m: Instr, g: Instr)
    requires m.Measure? && g.Gate?
    requires forall q | q in m.Qubits() :: q in kept
    requires forall q | q in g.Qubits() :: q in kept
    ensures RelabelOne(kept, m).qubit in RelabelOne(kept, g).qubits <==> m.qubit in g.qubits
  {
    assert m.qubit in m.Qubits();
    IndexIsInjective(kept, m.qubit, g.qubits);
  }

  /** Renumbering neither hides nor invents a late gate. */
  lemma RelabelKeepsTerminal(kept: seq<nat>, data: seq<Instr>)
    requires Covers(kept, data)
    ensures Terminal(Relabel(kept, data)) <==> Terminal(data)
  {
    var t := Relabel(kept, data);
    assert forall i | 0 <= i < |t| :: t[i].Measure? == data[i].Measure? && t[i].Gate? == data[i].Gate?;
    forall i, j | 0 <= i < |t| && 0 <= j < |t| && data[i].Measure? && data[j].Gate?
      ensures t[i].qubit in t[j].qubits <==> data[i].qubit in data[j].qubits
    {
      RelabelKeepsClash(kept, data[i], data[j]);
    }
  }

  lemma RelabelKeepsQuantumOnly(kept: seq<nat>, data: seq<Instr>)
    requires Covers(kept, data)
    ensures QuantumOnly(Relabel(kept, data)) <==> QuantumOnly(data)
  {
    var t := Relabel(kept, data);
    assert forall i | 0 <= i < |t| :: t[i].Gate? == data[i].Gate? && (t[i].Gate? ==> t[i].clbits == data[i].clbits);
  }

  lemma TrimKeepsAcceptance(c: Circuit)
    ensures Terminal(Trim(c).data) <==> Terminal(c.data)
    ensures QuantumOnly(Trim(c).data) <==> QuantumOnly(c.data)
  {
    KeptCovers(c.data);
    RelabelKeepsTerminal(Kept(c.data), c.data);
    RelabelKeepsQuantumOnly(Kept(c.data), c.data);
  }

  ghost predicate Accepted(data: seq<Instr>) {
    Terminal(data) && QuantumOnly(data)
  }

  /** Whether a circuit is accepted, and which qubits it uses, depends on its wire
      order alone. */
  lemma WireOrderKeepsAcceptance(a: seq<Instr>, b: seq<Instr>)
    requires SameWireOrder(a, b)
    ensures Accepted(a) <==> Accepted(b)
    ensures Used(a) == Used(b)
  {
    WireOrderFixesTerminal(a, b);
    SameMembers(a, b);
    MembersFix(a, b);
    MembersFix(b, a);
  }

  lemma MembersFix(a: seq<Instr>, b: seq<Instr>)
    requires forall x | x in a :: x in b
    ensures Used(a) <= Used(b) && (QuantumOnly(b) ==> QuantumOnly(a))
  {
    forall k | 0 <= k < |a| ensures exists j :: 0 <= j < |b| && b[j] == a[k] {
      assert a[k] in b;
    }
    forall q | q in Used(a) ensures q in Used(b) {
      var k :| 0 <= k < |a| && q in a[k].Qubits();
      var j :| 0 <= j < |b| && b[j] == a[k];
    }
  }

  // ------------------------------------------------------------------- main law

  ghost predicate ClbitsFit(c: Circuit) {
    forall i | 0 <= i < |c.data| && c.data[i].Measure? :: c.data[i].clbit < c.numClbits
  }

  lemma {:induction false} PairsFit(data: seq<Instr>, n: nat)
    requires forall i | 0 <= i < |data| && data[i].Measure? :: data[i].clbit < n
    ensures forall i | 0 <= i < |Pairs(data)| :: Pairs(data)[i].1 < n
  {
    if data != [] {
      PairsFit(data[1..], n);
    }
  }

  /** The measurement map of an accepted circuit stays inside its registers. */
  lemma MeasurementFits(c: Circuit)
    requires ClbitsFit(c)
    ensures Fits(Measurement(c.numClbits, Pairs(Trim(c).data)))
  {
    KeptCovers(c.data);
    var t := Trim(c).data;
    assert forall i | 0 <= i < |t| && t[i].Measure? :: t[i] == RelabelOne(Kept(c.data), c.data[i]);
    PairsFit(t, c.numClbits);
  }

  /** `items` is the histogram of running `program` on `e` from `s`. */
  ghost predicate HistogramOf<T(!new)>(e: Device<T>, program: Circuit, s: T, items: Histogram) {
    forall reg: Register | |reg| == program.numClbits ::
      CountOf(items, |items|, Key(reg)) == Shots(e, program.data, s, Zeros(program.numClbits), reg)
  }

  /** On one device: rekeying the canonical program's histogram gives the
      circuit's own. */
  lemma CanonicalCounts<T(!new)>(e: Device<T>, t: Circuit, m: Measurement, s: T, items: Histogram, target: Register)
    requires Lawful(e) && Terminal(t.data) && QuantumOnly(t.data) && t.numQubits != 0
    requires m == Measurement(t.numClbits, Pairs(t.data)) && Fits(m)
    requires Binary(LayoutOf(m), items) && HistogramOf(e, Canonical(t), s, items)
    requires |target| == t.numClbits
    ensures Wide(LayoutOf(m), items)
    ensures Total(LayoutOf(m), items, |items|, Key(target)) == Shots(e, t.data, s, Zeros(t.numClbits), target)
  {
    var l, ops := LayoutOf(m), Operations(t.data);
    var qs, after, zeros := Distinct(l.pairs), Evolve(e, ops, s), Zeros(t.numClbits);
    var program := Canonical(t);
    Hoist(e, t.data, s, zeros, target);
    BranchesAreSubsets(e, l.pairs, {}, after, zeros, target);
    TotalIsSum(l, items, |items|, qs, target);
    OperationsComeFrom(t.data);
    forall ones | InRange(qs, {}, ones)
      ensures CountsOf(l, items, |items|, target)(ones) == ShotsOf(e, l.pairs, qs, after, zeros, target)(ones)
    {
      var reg := RegisterOf(l.ranks, ones);
      GatesThenBlock(e, ops, Block(l.ranks), s, Zeros(|l.ranks|), reg);
      BlockShots(e, l.ranks, after, reg);
      OnesRoundTrip(l.ranks, ones);
      BranchIgnoresOrder(e, qs, l.ranks, ones, after);
    }
    SumCongruent(qs, {}, CountsOf(l, items, |items|, target), ShotsOf(e, l.pairs, qs, after, zeros, target));
  }

  /** Run the transcoded program on the trimmed device, remap its histogram, and
      every classical register gets exactly the shots the original circuit gives
      it on the full device, whatever linear order the wires were unrolled in. */
  lemma {:induction false} TranscodePreservesCounts<S(!new), T(!new)>(
      d: Device<S>, e: Device<T>, f: S -> T, c: Circuit, linear: Circuit, s: S, items: Histogram, target: Register)
    requires Lawful(d) && Lawful(e) && ClbitsFit(c) && Accepted(c.data) && Used(c.data) != {}
    requires linear == c.(data := linear.data) && SameWireOrder(c.data, linear.data)
    requires Restricts(d, e, f, Kept(linear.data))
    requires Binary(LayoutOf(MapOf(linear)), items) && HistogramOf(e, Canonical(Trim(linear)), f(s), items)
    requires |target| == c.numClbits
    ensures
      var l := LayoutOf(MapOf(linear));
      && Sound(l) && Wide(l, items)
      && Total(l, items, |items|, Key(target)) == Shots(d, c.data, s, Zeros(c.numClbits), target)
  {
    SameMembers(c.data, linear.data);
    forall i | 0 <= i < |linear.data| ensures linear.data[i].Measure? ==> linear.data[i].clbit < c.numClbits {
      assert linear.data[i] in c.data;
    }
    WireOrderKeepsAcceptance(c.data, linear.data);
    var t := Trim(linear);
    MeasurementFits(linear);
    TrimKeepsAcceptance(linear);
    KeptCovers(linear.data);
    CanonicalCounts(e, t, MapOf(linear), f(s), items, target);
    TrimmedShots(d, e, f, Kept(linear.data), linear.data, s, Zeros(c.numClbits), target);
    WireOrderFixesShots(d, c.data, linear.data, s, Zeros(c.numClbits), target);
  }

  /** The measurement record made when `linear` is transcoded. */
  function MapOf(linear: Circuit): Measurement {
    Measurement(linear.numClbits, Pairs(Trim(linear).data))
  }
}
