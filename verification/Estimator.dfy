/** Estimating Pauli expectation values from counts: the measurement circuit of
    a group of qubit-wise commuting Paulis, packed Pauli integers, AND-parity,
    and the shot-weighted mean. */
module Estimator {
  import opened Prelude
  import opened Ordering
  import opened Bits
  import opened Comprehensions
  import opened Text

  /** One tensor factor in symplectic form: I, Z, X or Y. */
  datatype Factor = Factor(z: bool, x: bool) {
    predicate NonIdentity() { z || x }
  }

  type Pauli = seq<Factor>

  // ------------------------------------------------------------- measurement circuit

  datatype Gate = Sdg(qubit: nat) | H(qubit: nat) | MeasureInto(qubit: nat, clbit: nat)

  /** The qubits below `n` on which `basis` acts, in order. */
  function ActiveBelow(basis: Pauli, n: nat): seq<nat>
    requires n <= |basis|
  {
    if n == 0 then [] else ActiveBelow(basis, n - 1) + if basis[n - 1].NonIdentity() then [n - 1] else []
  }

  predicate AllBelow(qubits: seq<nat>, n: nat) {
    forall k | 0 <= k < |qubits| :: qubits[k] < n
  }

  lemma {:induction false} ActiveIsOrdered(basis: Pauli, n: nat)
    requires n <= |basis|
    ensures Increasing(ActiveBelow(basis, n)) && AllBelow(ActiveBelow(basis, n), n)
    decreases n
  {
    if n > 0 {
      ActiveIsOrdered(basis, n - 1);
    }
  }

  /** The measured qubits; qubit 0 stands in when the basis acts on none. */
  function MeasuredQubits(basis: Pauli): (r: seq<nat>)
    requires basis != []
    ensures Increasing(r) && r != [] && forall k | 0 <= k < |r| :: r[k] < |basis|
  {
    ActiveIsOrdered(basis, |basis|);
    if ActiveBelow(basis, |basis|) == [] then [0] else ActiveBelow(basis, |basis|)
  }

  /** The rotation before a measurement along `f`. */
  function Rotation(f: Factor, q: nat): seq<Gate> {
    if f.x then (if f.z then [Sdg(q)] else []) + [H(q)] else []
  }

  function MeasureOne(basis: Pauli, q: nat, clbit: nat): seq<Gate>
    requires q < |basis|
  {
    Rotation(basis[q], q) + [MeasureInto(q, clbit)]
  }

  /** The gates of one measured qubit after the other. */
  function Concat(part: nat -> seq<Gate>, n: nat): seq<Gate> {
    if n == 0 then [] else Concat(part, n - 1) + part(n - 1)
  }

  function Part(basis: Pauli, qubits: seq<nat>): nat -> seq<Gate> {
    (k: nat) => if k < |qubits| && qubits[k] < |basis| then MeasureOne(basis, qubits[k], k) else []
  }

  function CircuitFor(basis: Pauli, qubits: seq<nat>): seq<Gate> {
    Concat(Part(basis, qubits), |qubits|)
  }

  method MeasurementCircuit(basis: Pauli) returns (gates: seq<Gate>, qubits: seq<nat>)
    requires basis != []
    ensures qubits == MeasuredQubits(basis) && gates == CircuitFor(basis, qubits)
  {
    qubits := MeasuredQubits(basis);
    gates := MeasureEach(basis, qubits);
  }

  method MeasureEach(basis: Pauli, qubits: seq<nat>) returns (gates: seq<Gate>)
    requires AllBelow(qubits, |basis|)
    ensures gates == CircuitFor(basis, qubits)
  {
    gates := [];
    for clbit := 0 to |qubits|
      invariant gates == Concat(Part(basis, qubits), clbit)
    {
      var measured := MeasureQubit(basis, qubits[clbit], clbit);
      OneMore(basis, qubits, clbit, measured);
      gates := gates + measured;
    }
  }

  lemma OneMore(basis: Pauli, qubits: seq<nat>, clbit: nat, measured: seq<Gate>)
    requires clbit < |qubits| && qubits[clbit] < |basis| && measured == MeasureOne(basis, qubits[clbit], clbit)
    ensures Concat(Part(basis, qubits), clbit + 1) == Concat(Part(basis, qubits), clbit) + measured
  {
    assert Part(basis, qubits)(clbit) == measured;
  }

  method MeasureQubit(basis: Pauli, i: nat, clbit: nat) returns (gates: seq<Gate>)
    requires i < |basis|
    ensures gates == MeasureOne(basis, i, clbit)
  {
    gates := [];
    if basis[i].x {
      if basis[i].z {
        gates := gates + [Sdg(i)];
      }
      gates := gates + [H(i)];
    }
    assert gates == Rotation(basis[i], i);
    gates := gates + [MeasureInto(i, clbit)];
  }

  /** A Pauli with its sign. */
  datatype Signed = Signed(negative: bool, f: Factor)

  /** What measuring `p` after a gate measures before it (Heisenberg picture):
      H exchanges X and Z and negates Y; the inverse phase gate takes X to Y and
      Y to -X. */
  function Before(g: Gate, p: Signed): Signed {
    match g
    case H(_) => Signed(p.negative != (p.f.z && p.f.x), Factor(p.f.x, p.f.z))
    case Sdg(_) =>
      if p.f.x then Signed(p.negative != p.f.z, Factor(!p.f.z, true)) else p
    case MeasureInto(_, _) => p
  }

  /** The conjugations spelled out. */
  lemma GatesConjugate(q: nat, minus: bool)
    ensures
      var x, y, z := Factor(false, true), Factor(true, true), Factor(true, false);
      && Before(H(q), Signed(minus, x)) == Signed(minus, z) && Before(H(q), Signed(minus, z)) == Signed(minus, x)
      && Before(H(q), Signed(minus, y)) == Signed(!minus, y)
      && Before(Sdg(q), Signed(minus, x)) == Signed(minus, y) && Before(Sdg(q), Signed(minus, y)) == Signed(!minus, x)
      && Before(Sdg(q), Signed(minus, z)) == Signed(minus, z)
  {
  }

  function BeforeAll(gates: seq<Gate>, p: Signed): Signed {
    if gates == [] then p else Before(gates[0], BeforeAll(gates[1..], p))
  }

  const PLUS_Z := Signed(false, Factor(true, false))

  /** After its rotation, reading Z reads exactly the Pauli, with its sign. */
  lemma RotationDiagonalizes(f: Factor, q: nat)
    requires f.NonIdentity()
    ensures BeforeAll(Rotation(f, q), PLUS_Z) == Signed(false, f)
  {
    var r := Rotation(f, q);
    if f.x {
      if f.z {
        assert r == [Sdg(q), H(q)] && r[1..] == [H(q)] && r[1..][1..] == [];
        assert BeforeAll([H(q)], PLUS_Z) == Before(H(q), BeforeAll([H(q)][1..], PLUS_Z))
               == Signed(false, Factor(false, true));
      } else {
        assert r == [H(q)] && r[1..] == [];
      }
    }
  }

  function Touches(q: nat): Gate -> bool {
    (g: Gate) => g.qubit == q
  }

  function OnQubit(gates: seq<Gate>, q: nat): seq<Gate> {
    Filter(Touches(q), gates)
  }

  ghost predicate AtHome(part: nat -> seq<Gate>, home: nat -> nat, i: nat) {
    forall k | 0 <= k < |part(i)| :: part(i)[k].qubit == home(i)
  }

  /** Where every part touches one qubit of its own, a qubit sees its part alone. */
  lemma {:induction false} PartOnQubit(part: nat -> seq<Gate>, home: nat -> nat, n: nat, k: nat, size: nat)
    requires n <= size && k < size && forall i | 0 <= i < size :: AtHome(part, home, i)
    requires forall i | 0 <= i < size && home(i) == home(k) :: i == k
    ensures OnQubit(Concat(part, n), home(k)) == if k < n then part(k) else []
    decreases n
  {
    if n > 0 {
      PartOnQubit(part, home, n - 1, k, size);
      FilterJoins(Touches(home(k)), Concat(part, n - 1), part(n - 1));
      assert AtHome(part, home, n - 1);
      FilterAllOrNone(Touches(home(k)), part(n - 1), home(n - 1) == home(k));
      assert [] + part(n - 1) == part(n - 1);
    }
  }

  lemma CircuitOnQubit(basis: Pauli, qubits: seq<nat>, k: nat)
    requires Increasing(qubits) && k < |qubits| && AllBelow(qubits, |basis|)
    ensures OnQubit(CircuitFor(basis, qubits), qubits[k]) == MeasureOne(basis, qubits[k], k)
  {
    var home := (i: nat) => if i < |qubits| then qubits[i] else 0;
    forall i | 0 <= i < |qubits| ensures AtHome(Part(basis, qubits), home, i) {
    }
    PartOnQubit(Part(basis, qubits), home, |qubits|, k, |qubits|);
  }

  /** Clbit k of the emitted circuit reads the basis factor of its own qubit,
      with a plus sign, and nothing else touches that qubit. */
  lemma ClbitReadsBasis(basis: Pauli, k: nat)
    requires basis != [] && k < |MeasuredQubits(basis)|
    requires basis[MeasuredQubits(basis)[k]].NonIdentity()
    ensures
      var qubits := MeasuredQubits(basis);
      var gates := OnQubit(CircuitFor(basis, qubits), qubits[k]);
      && gates == Rotation(basis[qubits[k]], qubits[k]) + [MeasureInto(qubits[k], k)]
      && BeforeAll(gates, PLUS_Z) == Signed(false, basis[qubits[k]])
  {
    var qubits := MeasuredQubits(basis);
    var q := qubits[k];
    CircuitOnQubit(basis, qubits, k);
    RotationDiagonalizes(basis[q], q);
    BeforeJoins(Rotation(basis[q], q), MeasureInto(q, k), PLUS_Z);
  }

  lemma {:induction false} BeforeJoins(gates: seq<Gate>, last: Gate, p: Signed)
    ensures BeforeAll(gates + [last], p) == BeforeAll(gates, Before(last, p))
    decreases |gates|
  {
    if gates == [] {
      assert gates + [last] == [last] && [last][1..] == [];
    } else {
      assert (gates + [last])[1..] == gates[1..] + [last];
      BeforeJoins(gates[1..], last, p);
    }
  }

  // ----------------------------------------------------------------- a group's basis

  ghost predicate Commute(p: Pauli, p': Pauli) {
    |p| == |p'| && forall q | 0 <= q < |p| :: !p[q].NonIdentity() || !p'[q].NonIdentity() || p[q] == p'[q]
  }

  ghost predicate Commuting(group: seq<Pauli>) {
    forall i, j | 0 <= i < |group| && 0 <= j < |group| :: Commute(group[i], group[j])
  }

  function Or(a: Factor, b: Factor): Factor {
    Factor(a.z || b.z, a.x || b.x)
  }

  /** `np.logical_or.reduce` over the group, qubit by qubit. */
  function BasisAt(group: seq<Pauli>, q: nat): Factor
    requires forall i | 0 <= i < |group| :: q < |group[i]|
  {
    if group == [] then Factor(false, false) else Or(BasisAt(group[..|group| - 1], q), group[|group| - 1][q])
  }

  function Basis(group: seq<Pauli>, n: nat): (r: Pauli)
    requires forall i | 0 <= i < |group| :: |group[i]| == n
    ensures |r| == n
  {
    seq(n, q requires 0 <= q < n => BasisAt(group, q))
  }

  lemma {:induction false} BasisAgrees(group: seq<Pauli>, q: nat, f: Factor)
    requires forall i | 0 <= i < |group| :: q < |group[i]|
    requires forall i | 0 <= i < |group| :: group[i][q].NonIdentity() ==> group[i][q] == f
    ensures BasisAt(group, q) == f || !BasisAt(group, q).NonIdentity()
    ensures (exists i :: 0 <= i < |group| && group[i][q].NonIdentity()) ==> BasisAt(group, q) == f
    decreases |group|
  {
    if group != [] {
      BasisAgrees(group[..|group| - 1], q, f);
    }
  }

  /** Every member of a commuting group is measured along its own factors: where
      it acts, the basis is that factor. */
  lemma BasisServesGroup(group: seq<Pauli>, n: nat, i: nat, q: nat)
    requires Commuting(group) && (forall k | 0 <= k < |group| :: |group[k]| == n) && i < |group| && q < n
    requires group[i][q].NonIdentity()
    ensures Basis(group, n)[q] == group[i][q]
  {
    forall k | 0 <= k < |group| ensures group[k][q].NonIdentity() ==> group[k][q] == group[i][q] {
      assert Commute(group[k], group[i]);
    }
    BasisAgrees(group, q, group[i][q]);
  }

  // --------------------------------------------------------------- packed integers

  /** Bit i weighs 2^i. */
  function Little(bits: seq<bool>): nat {
    if bits == [] then 0 else (if bits[0] then 1 else 0) + 2 * Little(bits[1..])
  }

  /** `np.packbits(bitorder="little")`, the last byte filled with zeros. */
  function LittleBytes(bits: seq<bool>): seq<nat> {
    if bits == [] then []
    else if |bits| <= 8 then [Little(bits)]
    else [Little(bits[..8])] + LittleBytes(bits[8..])
  }

  /** The bytes weighed by powers of 256. */
  function Weighed(bytes: seq<nat>): nat {
    if bytes == [] then 0 else bytes[0] + 256 * Weighed(bytes[1..])
  }

  lemma {:induction false} LittleJoins(a: seq<bool>, b: seq<bool>)
    ensures Little(a + b) == Little(a) + Scale(Little(b), |a|)
    decreases |a|
  {
    if a == [] {
      assert a + b == b;
    } else {
      assert (a + b)[1..] == a[1..] + b;
      LittleJoins(a[1..], b);
    }
  }

  /** Packing into bytes and weighing them gives the binary number. */
  lemma {:induction false} PackedIsLittle(bits: seq<bool>)
    ensures Weighed(LittleBytes(bits)) == Little(bits)
    decreases |bits|
  {
    if |bits| > 8 {
      var a, b := bits[..8], bits[8..];
      PackedIsLittle(b);
      LittleJoins(a, b);
      ScaleByte(Little(b));
      assert bits == a + b;
      assert LittleBytes(bits)[1..] == LittleBytes(b);
    } else if bits != [] {
      assert LittleBytes(bits)[1..] == [];
    }
  }

  function And(a: nat, b: nat): nat {
    if a == 0 || b == 0 then 0 else 2 * And(a / 2, b / 2) + (if a % 2 == 1 && b % 2 == 1 then 1 else 0)
  }

  /** The ones in the binary text of a number. */
  function PopCount(n: nat): nat {
    if n == 0 then 0 else n % 2 + PopCount(n / 2)
  }

  function Parity(n: nat): nat {
    PopCount(n) % 2
  }

  function Both(a: seq<bool>, b: seq<bool>): nat
    requires |a| == |b|
  {
    if a == [] then 0 else (if a[0] && b[0] then 1 else 0) + Both(a[1..], b[1..])
  }

  lemma {:induction false} AndCountsCommonOnes(a: seq<bool>, b: seq<bool>)
    requires |a| == |b|
    ensures PopCount(And(Little(a), Little(b))) == Both(a, b)
    decreases |a|
  {
    if a != [] {
      AndCountsCommonOnes(a[1..], b[1..]);
      LittleStep(a);
      LittleStep(b);
      AndStep(Little(a), Little(b));
    }
  }

  lemma LittleStep(a: seq<bool>)
    requires a != []
    ensures Little(a) / 2 == Little(a[1..]) && (Little(a) % 2 == 1 <==> a[0])
  {
  }

  lemma AndStep(a: nat, b: nat)
    ensures PopCount(And(a, b)) == PopCount(And(a / 2, b / 2)) + if a % 2 == 1 && b % 2 == 1 then 1 else 0
  {
    if a == 0 || b == 0 {
      assert And(a / 2, b / 2) == 0;
    } else {
      var low := if a % 2 == 1 && b % 2 == 1 then 1 else 0;
      assert And(a, b) / 2 == And(a / 2, b / 2) && And(a, b) % 2 == low;
    }
  }

  // --------------------------------------------------------- signs and eigenvalues

  function Sign(parity: nat): int {
    if parity % 2 == 0 then 1 else -1
  }

  /** The eigenvalue of the whole tensor product when qubit q reads `m(q)`. */
  function Eigenvalue(p: Pauli, n: nat, m: nat -> bool): (e: int)
    requires n <= |p|
    ensures e == 1 || e == -1
  {
    if n == 0 then 1
    else if p[n - 1].NonIdentity() && m(n - 1) then -Eigenvalue(p, n - 1, m)
    else Eigenvalue(p, n - 1, m)
  }

  function Acts(p: Pauli, qubits: seq<nat>): (r: seq<bool>)
    requires forall k | 0 <= k < |qubits| :: qubits[k] < |p|
    ensures |r| == |qubits|
  {
    seq(|qubits|, k requires 0 <= k < |qubits| => p[qubits[k]].NonIdentity())
  }

  function Reads(qubits: seq<nat>, m: nat -> bool): (r: seq<bool>)
    ensures |r| == |qubits|
  {
    seq(|qubits|, k requires 0 <= k < |qubits| => m(qubits[k]))
  }

  lemma {:induction false} BothAppends(a: seq<bool>, b: seq<bool>, x: bool, y: bool)
    requires |a| == |b|
    ensures Both(a + [x], b + [y]) == Both(a, b) + if x && y then 1 else 0
    decreases |a|
  {
    if a == [] {
      assert a + [x] == [x] && b + [y] == [y];
      assert [x][1..] == [] && [y][1..] == [];
    } else {
      assert (a + [x])[1..] == a[1..] + [x] && (b + [y])[1..] == b[1..] + [y];
      BothAppends(a[1..], b[1..], x, y);
    }
  }

  lemma OneMoreQubit(p: Pauli, before: seq<nat>, q: nat, m: nat -> bool)
    requires q < |p| && forall k | 0 <= k < |before| :: before[k] < |p|
    ensures
      var now := before + [q];
      Both(Acts(p, now), Reads(now, m)) == Both(Acts(p, before), Reads(before, m)) +
          if p[q].NonIdentity() && m(q) then 1 else 0
  {
    var now := before + [q];
    assert Acts(p, now) == Acts(p, before) + [p[q].NonIdentity()];
    assert Reads(now, m) == Reads(before, m) + [m(q)];
    BothAppends(Acts(p, before), Reads(before, m), p[q].NonIdentity(), m(q));
  }

  /** The qubits below `n` on which `p` acts and that read 1. */
  function Flips(p: Pauli, n: nat, m: nat -> bool): nat
    requires n <= |p|
  {
    if n == 0 then 0 else Flips(p, n - 1, m) + if p[n - 1].NonIdentity() && m(n - 1) then 1 else 0
  }

  lemma {:induction false} MeasuredFlips(p: Pauli, basis: Pauli, n: nat, m: nat -> bool)
    requires |p| == |basis| && n <= |p|
    requires forall q | 0 <= q < n :: p[q].NonIdentity() ==> basis[q].NonIdentity()
    ensures AllBelow(ActiveBelow(basis, n), |p|)
    ensures Both(Acts(p, ActiveBelow(basis, n)), Reads(ActiveBelow(basis, n), m)) == Flips(p, n, m)
    decreases n
  {
    ActiveIsOrdered(basis, n);
    if n > 0 {
      MeasuredFlips(p, basis, n - 1, m);
      ActiveStep(p, basis, n, m);
    }
  }

  lemma ActiveStep(p: Pauli, basis: Pauli, n: nat, m: nat -> bool)
    requires |p| == |basis| && 0 < n <= |p| && (p[n - 1].NonIdentity() ==> basis[n - 1].NonIdentity())
    requires AllBelow(ActiveBelow(basis, n - 1), |p|) && AllBelow(ActiveBelow(basis, n), |p|)
    ensures
      var before, now := ActiveBelow(basis, n - 1), ActiveBelow(basis, n);
      Both(Acts(p, now), Reads(now, m)) == Both(Acts(p, before), Reads(before, m)) +
          if p[n - 1].NonIdentity() && m(n - 1) then 1 else 0
  {
    if basis[n - 1].NonIdentity() {
      OneMoreQubit(p, ActiveBelow(basis, n - 1), n - 1, m);
    } else {
      assert ActiveBelow(basis, n) == ActiveBelow(basis, n - 1);
    }
  }

  lemma {:induction false} FlipsGiveEigenvalue(p: Pauli, n: nat, m: nat -> bool)
    requires n <= |p|
    ensures Sign(Flips(p, n, m)) == Eigenvalue(p, n, m)
  {
    if n > 0 {
      FlipsGiveEigenvalue(p, n - 1, m);
    }
  }

  lemma {:induction false} IdentityEverywhere(p: Pauli, n: nat, m: nat -> bool)
    requires n <= |p| && forall q | 0 <= q < n :: !p[q].NonIdentity()
    ensures Eigenvalue(p, n, m) == 1
  {
    if n > 0 {
      IdentityEverywhere(p, n - 1, m);
    }
  }

  /** The Pauli restricted to the measured qubits, as `from_symplectic` builds it. */
  function Restrict(p: Pauli, qubits: seq<nat>): (r: Pauli)
    requires forall k | 0 <= k < |qubits| :: qubits[k] < |p|
    ensures |r| == |qubits|
  {
    Select(p, qubits)
  }

  function NonId(p: Pauli): (r: seq<bool>)
    ensures |r| == |p|
  {
    seq(|p|, k requires 0 <= k < |p| => p[k].NonIdentity())
  }

  /** The packed integer of a Pauli: a one where it acts. */
  function PauliInt(p: Pauli): nat {
    Weighed(LittleBytes(NonId(p)))
  }

  /** The sign the code computes for a shot is the product of the per-qubit
      eigenvalues of the whole Pauli, also when it acts nowhere and only qubit 0
      is measured. */
  lemma SignIsEigenvalue(p: Pauli, basis: Pauli, m: nat -> bool)
    requires |p| == |basis| && p != []
    requires forall q | 0 <= q < |p| :: p[q].NonIdentity() ==> basis[q].NonIdentity()
    ensures
      var qubits := MeasuredQubits(basis);
      Sign(Parity(And(PauliInt(Restrict(p, qubits)), Little(Reads(qubits, m))))) == Eigenvalue(p, |p|, m)
  {
    var qubits := MeasuredQubits(basis);
    SignCountsCommonOnes(p, qubits, m);
    if ActiveBelow(basis, |basis|) == [] {
      forall q | 0 <= q < |p| ensures !p[q].NonIdentity() {
        if basis[q].NonIdentity() {
          ActiveIsListed(basis, |basis|, q);
          assert false;
        }
      }
      IdentityEverywhere(p, |p|, m);
      assert Acts(p, qubits)[1..] == [] && !Acts(p, qubits)[0];
    } else {
      MeasuredFlips(p, basis, |p|, m);
      FlipsGiveEigenvalue(p, |p|, m);
    }
  }

  lemma SignCountsCommonOnes(p: Pauli, qubits: seq<nat>, m: nat -> bool)
    requires forall k | 0 <= k < |qubits| :: qubits[k] < |p|
    ensures Sign(Parity(And(PauliInt(Restrict(p, qubits)), Little(Reads(qubits, m)))))
              == Sign(Both(Acts(p, qubits), Reads(qubits, m)))
  {
    PauliIntIsLittle(p, qubits);
    AndCountsCommonOnes(Acts(p, qubits), Reads(qubits, m));
  }

  lemma PauliIntIsLittle(p: Pauli, qubits: seq<nat>)
    requires forall k | 0 <= k < |qubits| :: qubits[k] < |p|
    ensures PauliInt(Restrict(p, qubits)) == Little(Acts(p, qubits))
  {
    assert NonId(Restrict(p, qubits)) == Acts(p, qubits);
    PackedIsLittle(Acts(p, qubits));
  }

  lemma {:induction false} ActiveIsListed(basis: Pauli, n: nat, q: nat)
    requires q < n <= |basis| && basis[q].NonIdentity()
    ensures ActiveBelow(basis, n) != []
    decreases n
  {
    if q < n - 1 {
      ActiveIsListed(basis, n - 1, q);
    }
  }

  // ---------------------------------------------------------------- expectation values

  /** A histogram entry: the key, one bit string per register with the last
      register first, separated by spaces. */
  datatype Count = Count(key: string, freq: nat)

  function FirstField(key: string): string {
    if key == "" || key[0] == ' ' then "" else [key[0]] + FirstField(key[1..])
  }

  /** The text of clbits: clbit 0 is the rightmost character. */
  function Shown(bits: seq<bool>): (r: string)
    ensures |r| == |bits| && Binary(r)
  {
    if bits == [] then "" else Shown(bits[1..]) + [if bits[0] then '1' else '0']
  }

  lemma {:induction false} ShownRoundTrip(bits: seq<bool>)
    ensures Value(WordOf(Shown(bits))) == Little(bits)
    decreases |bits|
  {
    if bits != [] {
      ShownRoundTrip(bits[1..]);
      assert WordOf(Shown(bits))[..|bits| - 1] == WordOf(Shown(bits[1..]));
    }
  }

  lemma {:induction false} FirstFieldOf(word: string, rest: string)
    requires Binary(word) && (rest == "" || rest[0] == ' ')
    ensures FirstField(word + rest) == word
    decreases |word|
  {
    if word == "" {
      assert word + rest == rest;
    } else {
      assert (word + rest)[1..] == word[1..] + rest;
      FirstFieldOf(word[1..], rest);
    }
  }

  function Outcome(c: Count): nat {
    Value(WordOf(FirstField(c.key)))
  }

  function Weight(freq: nat, sign: int): int {
    if sign == 1 then freq else 0 - freq
  }

  function Total(counts: seq<Count>, n: nat): nat
    requires n <= |counts|
  {
    if n == 0 then 0 else Total(counts, n - 1) + counts[n - 1].freq
  }

  /** The shots of the first `n` entries, each counted with the sign of its entry. */
  function Tally(counts: seq<Count>, sign: nat -> int, n: nat): int
    requires n <= |counts|
  {
    if n == 0 then 0 else Tally(counts, sign, n - 1) + Weight(counts[n - 1].freq, sign(n - 1))
  }

  /** The sign the code gives entry `i` for the Pauli of packed integer `ind`. */
  function CodeSign(counts: seq<Count>, ind: nat): nat -> int {
    (i: nat) => if i < |counts| then Sign(Parity(And(ind, Outcome(counts[i])))) else 1
  }

  function SignedTotal(counts: seq<Count>, ind: nat): int {
    Tally(counts, CodeSign(counts, ind), |counts|)
  }

  lemma {:induction false} TallyBounded(counts: seq<Count>, sign: nat -> int, n: nat)
    requires n <= |counts|
    ensures 0 - Total(counts, n) <= Tally(counts, sign, n) <= Total(counts, n)
    decreases n
  {
    if n > 0 {
      TallyBounded(counts, sign, n - 1);
    }
  }

  /** `NoShots` stands for the arrays of NaN that dividing by zero leaves. */
  datatype Estimates = NoShots | Estimates(expvals: seq<real>, variances: seq<real>)

  method ExpvalWithVariance(counts: seq<Count>, paulis: seq<Pauli>) returns (r: Estimates)
    ensures r.NoShots? <==> Total(counts, |counts|) == 0
    ensures r.Estimates? ==> |r.expvals| == |r.variances| == |paulis|
    ensures r.Estimates? ==> forall k | 0 <= k < |paulis| ::
              IsExpectation(r.expvals[k], r.variances[k], SignedTotal(counts, PauliInt(paulis[k])),
                  Total(counts, |counts|))
  {
    var inds := seq(|paulis|, k requires 0 <= k < |paulis| => PauliInt(paulis[k]));
    var sums := seq(|paulis|, k => 0);
    var denom := 0;
    for i := 0 to |counts|
      invariant denom == Total(counts, i) && |sums| == |paulis|
      invariant forall k | 0 <= k < |paulis| :: sums[k] == Tally(counts, CodeSign(counts, inds[k]), i)
    {
      var outcome := Outcome(counts[i]);
      denom := denom + counts[i].freq;
      sums := AddCount(sums, inds, outcome, counts[i].freq);
    }
    if denom == 0 {
      return NoShots;
    }
    forall k | 0 <= k < |paulis| ensures 0 - denom <= sums[k] <= denom {
      TallyBounded(counts, CodeSign(counts, inds[k]), |counts|);
    }
    var expvals, variances := Divide(sums, denom);
    r := Estimates(expvals, variances);
  }

  /** One histogram entry is added to every accumulated sum. */
  method AddCount(sums: seq<int>, inds: seq<nat>, outcome: nat, freq: nat) returns (r: seq<int>)
    requires |sums| == |inds|
    ensures |r| == |inds|
    ensures forall k | 0 <= k < |inds| :: r[k] == sums[k] + Weight(freq, Sign(Parity(And(inds[k], outcome))))
  {
    r := sums;
    for k := 0 to |inds|
      invariant |r| == |inds|
      invariant forall j | 0 <= j < k :: r[j] == sums[j] + Weight(freq, Sign(Parity(And(inds[j], outcome))))
      invariant forall j | k <= j < |inds| :: r[j] == sums[j]
    {
      r := r[k := r[k] + Weight(freq, Sign(Parity(And(inds[k], outcome))))];
    }
  }

  /** `e` is the mean of `total` signed shots and `v` its variance, both in range. */
  ghost predicate IsExpectation(e: real, v: real, signed: int, total: nat) {
    && e * total as real == signed as real
    && v == 1.0 - e * e
    && -1.0 <= e <= 1.0
    && 0.0 <= v <= 1.0
  }

  method Divide(sums: seq<int>, denom: nat) returns (expvals: seq<real>, variances: seq<real>)
    requires denom > 0 && forall k | 0 <= k < |sums| :: 0 - denom <= sums[k] <= denom
    ensures |expvals| == |variances| == |sums|
    ensures forall k | 0 <= k < |sums| :: IsExpectation(expvals[k], variances[k], sums[k], denom)
  {
    expvals, variances := [], [];
    for k := 0 to |sums|
      invariant |expvals| == |variances| == k
      invariant forall j | 0 <= j < k :: IsExpectation(expvals[j], variances[j], sums[j], denom)
    {
      var e := sums[k] as real / denom as real;
      RatioInRange(sums[k], denom, e);
      expvals, variances := expvals + [e], variances + [1.0 - e * e];
    }
  }

  lemma RatioInRange(s: int, d: nat, e: real)
    requires d > 0 && 0 - d <= s <= d && e == s as real / d as real
    ensures IsExpectation(e, 1.0 - e * e, s, d)
  {
    assert e * d as real == s as real;
    if e > 1.0 {
      Exceeds(e, d as real);
    }
    if e < -1.0 {
      Exceeds(0.0 - e, d as real);
    }
    SquareInRange(e);
  }

  lemma Exceeds(e: real, y: real)
    requires e > 1.0 && y > 0.0
    ensures e * y > y
  {
    Positive(e - 1.0, y);
    assert (e - 1.0) * y == e * y - y;
  }

  lemma Positive(a: real, b: real)
    requires a > 0.0 && b > 0.0
    ensures a * b > 0.0
  {
  }

  lemma SquareInRange(e: real)
    requires -1.0 <= e <= 1.0
    ensures 0.0 <= e * e <= 1.0
  {
    if e > 0.0 {
      Product(e, e, 1.0, 1.0);
    } else {
      Product(0.0 - e, 0.0 - e, 1.0, 1.0);
      assert (0.0 - e) * (0.0 - e) == e * e;
    }
  }

  lemma Product(a: real, b: real, c: real, d: real)
    requires 0.0 <= a <= c && 0.0 <= b <= d
    ensures 0.0 <= a * b <= c * d
  {
    assert a * b <= c * b;
    assert c * b <= c * d;
  }

  // ------------------------------------------------------------------- the mean theorem

  /** The sum over all shots of the eigenvalue of the whole Pauli; every shot of
      entry i read `readings[i]`. */
  ghost function EigenTotal(counts: seq<Count>, readings: seq<nat -> bool>, p: Pauli): int
    requires |counts| == |readings|
  {
    EigenSum(counts, readings, p, |counts|)
  }

  /** The same over the first `n` entries: a shot contributes its eigenvalue. */
  ghost function EigenSum(counts: seq<Count>, readings: seq<nat -> bool>, p: Pauli, n: nat): int
    requires n <= |counts| == |readings|
  {
    if n == 0 then 0
    else EigenSum(counts, readings, p, n - 1) + counts[n - 1].freq * Eigenvalue(p, |p|, readings[n - 1])
  }

  lemma {:induction false} TallyIsEigenSum(counts: seq<Count>, sign: nat -> int, readings: seq<nat -> bool>, p: Pauli,
                                           n: nat)
    requires n <= |counts| == |readings|
    requires forall i | 0 <= i < n :: sign(i) == Eigenvalue(p, |p|, readings[i])
    ensures Tally(counts, sign, n) == EigenSum(counts, readings, p, n)
    decreases n
  {
    if n > 0 {
      TallyIsEigenSum(counts, sign, readings, p, n - 1);
      WeightIsProduct(counts[n - 1].freq, Eigenvalue(p, |p|, readings[n - 1]));
    }
  }

  lemma WeightIsProduct(freq: nat, sign: int)
    requires sign == 1 || sign == -1
    ensures Weight(freq, sign) == freq * sign
  {
  }

  /** The key shows the measured qubits of that reading in its first field;
      the registers of the original circuit may follow. */
  ghost predicate Shows(c: Count, qubits: seq<nat>, m: nat -> bool) {
    Shown(Reads(qubits, m)) <= c.key && (|c.key| == |qubits| || c.key[|qubits|] == ' ')
  }

  lemma OutcomeOfShown(c: Count, qubits: seq<nat>, m: nat -> bool)
    requires Shows(c, qubits, m)
    ensures Outcome(c) == Little(Reads(qubits, m))
  {
    var word := Shown(Reads(qubits, m));
    assert c.key == word + c.key[|qubits|..];
    FirstFieldOf(word, c.key[|qubits|..]);
    ShownRoundTrip(Reads(qubits, m));
  }

  ghost predicate Covers(basis: Pauli, p: Pauli) {
    |p| == |basis| && forall q | 0 <= q < |p| :: p[q].NonIdentity() ==> basis[q].NonIdentity()
  }

  lemma ShotSign(c: Count, m: nat -> bool, p: Pauli, basis: Pauli)
    requires basis != [] && Covers(basis, p) && Shows(c, MeasuredQubits(basis), m)
    ensures Sign(Parity(And(PauliInt(Restrict(p, MeasuredQubits(basis))), Outcome(c)))) == Eigenvalue(p, |p|, m)
  {
    OutcomeOfShown(c, MeasuredQubits(basis), m);
    SignIsEigenvalue(p, basis, m);
  }

  lemma SignedIsEigenTotal(counts: seq<Count>, readings: seq<nat -> bool>, p: Pauli, basis: Pauli)
    requires basis != [] && Covers(basis, p) && |counts| == |readings|
    requires forall i | 0 <= i < |counts| :: Shows(counts[i], MeasuredQubits(basis), readings[i])
    ensures SignedTotal(counts, PauliInt(Restrict(p, MeasuredQubits(basis)))) == EigenTotal(counts, readings, p)
  {
    var code := CodeSign(counts, PauliInt(Restrict(p, MeasuredQubits(basis))));
    forall i | 0 <= i < |counts| ensures code(i) == Eigenvalue(p, |p|, readings[i]) {
      ShotSign(counts[i], readings[i], p, basis);
    }
    TallyIsEigenSum(counts, code, readings, p, |counts|);
  }

  /** For every member of a commuting group, the sum the estimator divides by the
      number of shots is the shot-weighted sum of the eigenvalues of the whole
      member over all qubits. */
  lemma GroupMeanIsExact(group: seq<Pauli>, n: nat, i: nat, counts: seq<Count>, readings: seq<nat -> bool>)
    requires n > 0 && Commuting(group) && (forall k | 0 <= k < |group| :: |group[k]| == n) && i < |group|
    requires |counts| == |readings|
    requires forall j | 0 <= j < |counts| :: Shows(counts[j], MeasuredQubits(Basis(group, n)), readings[j])
    ensures
      var qubits := MeasuredQubits(Basis(group, n));
      SignedTotal(counts, PauliInt(Restrict(group[i], qubits))) == EigenTotal(counts, readings, group[i])
  {
    var basis := Basis(group, n);
    forall q | 0 <= q < n && group[i][q].NonIdentity() ensures basis[q].NonIdentity() {
      BasisServesGroup(group, n, i, q);
    }
    assert Covers(basis, group[i]);
    SignedIsEigenTotal(counts, readings, group[i], basis);
  }

  lemma {:induction false} CertainSum(counts: seq<Count>, readings: seq<nat -> bool>, p: Pauli, value: int, n: nat)
    requires n <= |counts| == |readings|
    requires forall i | 0 <= i < n :: Eigenvalue(p, |p|, readings[i]) == value
    ensures EigenSum(counts, readings, p, n) == value * Total(counts, n)
    decreases n
  {
    if n > 0 {
      CertainSum(counts, readings, p, value, n - 1);
      assert value * Total(counts, n) == value * Total(counts, n - 1) + value * counts[n - 1].freq;
    }
  }

  /** A Pauli that reads the same in every shot has that value and no variance. */
  lemma {:induction false} CertainIsExact(counts: seq<Count>, readings: seq<nat -> bool>, p: Pauli, value: int,
                                          e: real, v: real)
    requires |counts| == |readings| && Total(counts, |counts|) > 0 && (value == 1 || value == -1)
    requires forall i | 0 <= i < |counts| :: Eigenvalue(p, |p|, readings[i]) == value
    requires IsExpectation(e, v, EigenTotal(counts, readings, p), Total(counts, |counts|))
    ensures e == value as real && v == 0.0
  {
    CertainSum(counts, readings, p, value, |counts|);
    var total := Total(counts, |counts|) as real;
    Cancel(e, total);
    Cancel(value as real, total);
  }

  lemma Cancel(a: real, c: real)
    requires c > 0.0
    ensures a * c / c == a
  {
  }

  /** The members of a group as the measured qubits see them. */
  function Restricted(group: seq<Pauli>, n: nat): (r: seq<Pauli>)
    requires n > 0 && forall k | 0 <= k < |group| :: |group[k]| == n
    ensures |r| == |group|
  {
    var qubits := MeasuredQubits(Basis(group, n));
    seq(|group|, k requires 0 <= k < |group| => Restrict(group[k], qubits))
  }

  /** What the estimator returns for a commuting group: each value times the
      number of shots is the sum, over all shots, of the eigenvalue of the whole
      member on all qubits; no value only when there was no shot. */
  method EstimateGroup(group: seq<Pauli>, n: nat, counts: seq<Count>, ghost readings: seq<nat -> bool>)
      returns (r: Estimates)
    requires n > 0 && Commuting(group) && (forall k | 0 <= k < |group| :: |group[k]| == n)
    requires |counts| == |readings|
    requires forall j | 0 <= j < |counts| :: Shows(counts[j], MeasuredQubits(Basis(group, n)), readings[j])
    ensures r.NoShots? <==> Total(counts, |counts|) == 0
    ensures r.Estimates? ==> |r.expvals| == |r.variances| == |group|
    ensures r.Estimates? ==> forall k | 0 <= k < |group| ::
              IsExpectation(r.expvals[k], r.variances[k], EigenTotal(counts, readings, group[k]),
                  Total(counts, |counts|))
  {
    r := ExpvalWithVariance(counts, Restricted(group, n));
    if r.Estimates? {
      forall k | 0 <= k < |group|
        ensures IsExpectation(r.expvals[k], r.variances[k], EigenTotal(counts, readings, group[k]),
                  Total(counts, |counts|))
      {
        GroupMeanIsExact(group, n, k, counts, readings);
      }
    }
  }
}
