/** The Braket transcoder: idle qubits dropped, measurements gathered into one
    ascending block, and the returned histogram keyed back onto the circuit's
    classical bits. */
module Braket {
  import opened Ordering
  import opened Circuits

  type Pair = (nat, nat)

  datatype Measurement = Measurement(numClbits: nat, pairs: seq<Pair>)

  datatype Transcoded =
    | Program(circuit: Circuit, measurement: Measurement)
    | NotTerminal
    | ReadsClassical

  // ------------------------------------------------------------ specification

  /** No gate acts on a qubit after it was measured. */
  ghost predicate Terminal(data: seq<Instr>) {
    forall i, j | 0 <= i < j < |data| && data[i].Measure? && data[j].Gate? ::
      data[i].qubit !in data[j].qubits
  }

  /** No gate reads a classical bit. */
  ghost predicate QuantumOnly(data: seq<Instr>) {
    forall j | 0 <= j < |data| && data[j].Gate? :: data[j].clbits == []
  }

  /** The measurements, in program order, as (qubit, classical bit). */
  function Pairs(data: seq<Instr>): seq<Pair> {
    if data == [] then []
    else if data[0].Measure? then [(data[0].qubit, data[0].clbit)] + Pairs(data[1..])
    else Pairs(data[1..])
  }

  /** Everything but the measurements, in program order. */
  function Operations(data: seq<Instr>): seq<Instr> {
    if data == [] then []
    else if data[0].Measure? then Operations(data[1..])
    else [data[0]] + Operations(data[1..])
  }

  function Measured(pairs: seq<Pair>): set<nat> {
    set i | 0 <= i < |pairs| :: pairs[i].0
  }

  function Ranks(pairs: seq<Pair>): (r: seq<nat>)
    ensures Increasing(r) && NoDuplicates(r) && Elements(r) == Measured(pairs)
  {
    Sorted(Measured(pairs))
  }

  /** The k-th ranked qubit is measured into bit k. */
  function Block(ranks: seq<nat>): (r: seq<Instr>)
    ensures |r| == |ranks|
  {
    seq(|ranks|, k requires 0 <= k < |ranks| => Measure(ranks[k], k))
  }

  // ------------------------------------------------------------------ trimming

  function Used(data: seq<Instr>): set<nat> {
    set i, q | 0 <= i < |data| && q in data[i].Qubits() :: q
  }

  function Kept(data: seq<Instr>): (r: seq<nat>)
    ensures Increasing(r) && Elements(r) == Used(data)
  {
    Sorted(Used(data))
  }

  function Indices(kept: seq<nat>, qs: seq<nat>): (r: seq<nat>)
    requires forall q | q in qs :: q in kept
    ensures |r| == |qs|
  {
    seq(|qs|, i requires 0 <= i < |qs| => assert qs[i] in qs; IndexOf(kept, qs[i]))
  }

  function RelabelOne(kept: seq<nat>, a: Instr): Instr
    requires forall q | q in a.Qubits() :: q in kept
  {
    match a
    case Gate(op, qs, cs) => Gate(op, Indices(kept, qs), cs)
    case Barrier(qs) => Barrier(Indices(kept, qs))
    case Measure(q, c) => assert q in a.Qubits(); Measure(IndexOf(kept, q), c)
  }

  ghost predicate Covers(kept: seq<nat>, data: seq<Instr>) {
    forall i, q | 0 <= i < |data| && q in data[i].Qubits() :: q in kept
  }

  function Relabel(kept: seq<nat>, data: seq<Instr>): (r: seq<Instr>)
    requires Covers(kept, data)
    ensures |r| == |data|
  {
    seq(|data|, i requires 0 <= i < |data| => RelabelOne(kept, data[i]))
  }

  lemma KeptCovers(data: seq<Instr>)
    ensures Covers(Kept(data), data)
  {
    var kept := Kept(data);
    forall i, q | 0 <= i < |data| && q in data[i].Qubits() ensures q in kept {
      assert q in Used(data);
    }
  }

  /** The circuit without its idle qubits, the others renumbered in order. */
  function Trim(c: Circuit): Circuit {
    KeptCovers(c.data);
    var kept := Kept(c.data);
    Circuit(|kept|, c.numClbits, Relabel(kept, c.data))
  }

  // ---------------------------------------------------------------- transcoding

  lemma {:induction false} PairsAppend(a: seq<Instr>, b: seq<Instr>)
    ensures Pairs(a + b) == Pairs(a) + Pairs(b)
    decreases |a|
  {
    if a == [] {
      assert a + b == b;
    } else {
      assert (a + b)[1..] == a[1..] + b;
      PairsAppend(a[1..], b);
    }
  }

  lemma {:induction false} OperationsAppend(a: seq<Instr>, b: seq<Instr>)
    ensures Operations(a + b) == Operations(a) + Operations(b)
    decreases |a|
  {
    if a == [] {
      assert a + b == b;
    } else {
      assert (a + b)[1..] == a[1..] + b;
      OperationsAppend(a[1..], b);
    }
  }

  /** The qubit of every measurement is listed in the pairs, and only those. */
  lemma {:induction false} MeasuredIsExact(data: seq<Instr>)
    ensures forall q :: q in Measured(Pairs(data)) <==>
              exists i :: 0 <= i < |data| && data[i].Measure? && data[i].qubit == q
  {
    if data != [] {
      var rest := Pairs(data[1..]);
      MeasuredIsExact(data[1..]);
      forall q
        ensures q in Measured(Pairs(data)) <==> exists i :: 0 <= i < |data| && data[i].Measure? && data[i].qubit == q
      {
        if data[0].Measure? {
          assert Pairs(data) == [(data[0].qubit, data[0].clbit)] + rest;
          assert Measured(Pairs(data)) == {data[0].qubit} + Measured(rest) by {
            MeasuredCons((data[0].qubit, data[0].clbit), rest);
          }
        }
        if i :| 0 <= i < |data[1..]| && data[1..][i].Measure? && data[1..][i].qubit == q {
          assert data[i + 1].Measure? && data[i + 1].qubit == q;
        }
        if i :| 0 <= i < |data| && data[i].Measure? && data[i].qubit == q {
          if i > 0 {
            assert data[1..][i - 1].Measure? && data[1..][i - 1].qubit == q;
          }
        }
      }
    }
  }

  lemma MeasuredCons(p: Pair, rest: seq<Pair>)
    ensures Measured([p] + rest) == {p.0} + Measured(rest)
  {
    var all := [p] + rest;
    forall i | 0 <= i < |rest| ensures rest[i].0 in Measured(all) {
      assert all[i + 1] == rest[i];
    }
    assert all[0] == p;
    forall i | 0 <= i < |all| ensures all[i].0 in {p.0} + Measured(rest) {
      assert i == 0 || all[i] == rest[i - 1];
    }
  }

  /** The check made before anything else: some gate follows a measurement of
      one of its qubits, or none does. */
  method CheckTerminal(c: Circuit) returns (ok: bool)
    ensures ok <==> Terminal(c.data)
  {
    var measured: set<nat> := {};
    for i := 0 to |c.data|
      invariant forall q :: q in measured <==> exists k :: 0 <= k < i && c.data[k].Measure? && c.data[k].qubit == q
      invariant forall k, j | 0 <= k < j < i && c.data[k].Measure? && c.data[j].Gate? ::
                  c.data[k].qubit !in c.data[j].qubits
    {
      match c.data[i]
      case Measure(q, _) =>
        measured := measured + {q};
      case Barrier(_) =>
      case Gate(_, qs, _) =>
        var clash := set q | q in qs && q in measured;
        if clash != {} {
          var q :| q in clash;
          assert q in measured;
          return false;
        }
        assert forall q | q in qs :: q !in clash;
    }
    return true;
  }

  /** One more instruction keeps a terminal circuit terminal unless it is a
      gate on a qubit already measured. */
  lemma TerminalAppend(done: seq<Instr>, a: Instr)
    ensures Terminal(done + [a]) <==>
      Terminal(done) && (a.Gate? ==> forall q | q in a.qubits :: q !in Measured(Pairs(done)))
  {
    var all := done + [a];
    MeasuredIsExact(done);
    assert all[|done|] == a;
    if Terminal(all) {
      forall i, j | 0 <= i < j < |done| && done[i].Measure? && done[j].Gate?
        ensures done[i].qubit !in done[j].qubits
      {
        assert all[i] == done[i] && all[j] == done[j];
      }
      if a.Gate? {
        assert forall i | 0 <= i < |done| :: all[i] == done[i];
      }
    }
  }

  lemma TerminalPrefix(data: seq<Instr>, i: nat)
    requires i <= |data| && Terminal(data)
    ensures Terminal(data[..i])
  {
  }

  datatype Gathered =
    | Ready(pairs: seq<Pair>, operations: seq<Instr>)
    | Stopped(error: Transcoded)

  /** Instruction `n` is the first to offend: a gate on a qubit measured before, or
      else one that reads a classical bit. */
  ghost predicate OffendsAt(data: seq<Instr>, n: nat, error: Transcoded) {
    && n < |data| && Terminal(data[..n]) && QuantumOnly(data[..n]) && data[n].Gate?
    && if Terminal(data[..n + 1]) then error == ReadsClassical && data[n].clbits != [] else error == NotTerminal
  }

  /** The pass over the trimmed circuit: gate order is kept, measurements are
      held back for the final block. */
  method Gather(data: seq<Instr>) returns (r: Gathered)
    ensures r.Ready? <==> Terminal(data) && QuantumOnly(data)
    ensures r.Ready? ==> r.pairs == Pairs(data) && r.operations == Operations(data)
    ensures r.Stopped? ==>
              (r.error == NotTerminal && !Terminal(data)) || (r.error == ReadsClassical && !QuantumOnly(data))
    ensures r.Stopped? ==> exists n :: OffendsAt(data, n, r.error)
  {
    var pairs: seq<Pair> := [];
    var measured: set<nat> := {};
    var operations: seq<Instr> := [];
    for i := 0 to |data|
      invariant pairs == Pairs(data[..i]) && operations == Operations(data[..i])
      invariant measured == Measured(pairs)
      invariant Terminal(data[..i]) && QuantumOnly(data[..i])
    {
      var a := data[i];
      ghost var done := data[..i];
      assert data[..i + 1] == done + [a];
      PairsAppend(done, [a]);
      OperationsAppend(done, [a]);
      TerminalAppend(done, a);
      if a.Measure? {
        pairs := pairs + [(a.qubit, a.clbit)];
        measured := measured + {a.qubit};
        MeasuredAppend(Pairs(done), (a.qubit, a.clbit));
      } else {
        if a.Gate? {
          var after := set q | q in a.qubits && q in measured;
          if after != {} {
            assert !Terminal(data) by {
              var q :| q in after;
              if Terminal(data) {
                TerminalPrefix(data, i + 1);
              }
            }
            assert OffendsAt(data, i, NotTerminal);
            return Stopped(NotTerminal);
          }
          assert forall q | q in a.qubits :: q !in after;
          if a.clbits != [] {
            assert OffendsAt(data, i, ReadsClassical);
            return Stopped(ReadsClassical);
          }
        }
        operations := operations + [a];
      }
    }
    assert data[..|data|] == data;
    r := Ready(pairs, operations);
  }

  /** Accepted exactly when every measurement is terminal and no gate reads a
      classical bit; the program is then the canonical form of the trimmed
      circuit. */
  method ToBraket(c: Circuit) returns (r: Transcoded)
    ensures r.Program? <==> Terminal(Trim(c).data) && QuantumOnly(Trim(c).data)
    ensures r.Program? ==>
      && r.measurement == Measurement(c.numClbits, Pairs(Trim(c).data))
      && r.circuit == Canonical(Trim(c))
    ensures r.NotTerminal? ==> !Terminal(Trim(c).data)
    ensures r.ReadsClassical? ==> !QuantumOnly(Trim(c).data)
    ensures !r.Program? ==> exists n :: OffendsAt(Trim(c).data, n, r)
  {
    var t := Trim(c);
    var g := Gather(t.data);
    match g
    case Stopped(error) =>
      r := error;
    case Ready(pairs, operations) =>
      if t.numQubits == 0 {
        r := Program(Circuit(0, 0, []), Measurement(c.numClbits, pairs));
      } else {
        var ranks := Ranks(pairs);
        r := Program(Circuit(t.numQubits, |ranks|, operations + Block(ranks)), Measurement(c.numClbits, pairs));
      }
  }

  function Canonical(t: Circuit): Circuit {
    if t.numQubits == 0 then Circuit(0, 0, [])
    else
      var ranks := Ranks(Pairs(t.data));
      Circuit(t.numQubits, |ranks|, Operations(t.data) + Block(ranks))
  }

  lemma MeasuredAppend(pairs: seq<Pair>, p: Pair)
    ensures Measured(pairs + [p]) == Measured(pairs) + {p.0}
  {
    var all := pairs + [p];
    forall i | 0 <= i < |pairs| ensures pairs[i].0 in Measured(all) {
      assert all[i] == pairs[i];
    }
    assert all[|pairs|] == p;
    forall i | 0 <= i < |all| ensures all[i].0 in Measured(pairs) + {p.0} {
      assert i == |pairs| || all[i] == pairs[i];
    }
  }
}
