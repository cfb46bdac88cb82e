/** A circuit unrolled into a graph and back keeps its instructions and their
    order along every wire, and nothing else. That is enough: circuits that agree
    on it are accepted alike and give the same counts. */
module WireOrder {
  import opened Braket
  import opened Circuits
  import opened Comprehensions

  datatype Wire = Qubit(index: nat) | Clbit(index: nat)

  predicate Touches(a: Instr, w: Wire) {
    match w
    case Qubit(q) => q in a.Qubits()
    case Clbit(c) => c in a.Clbits()
  }

  function On(w: Wire): Instr -> bool {
    (a: Instr) => Touches(a, w)
  }

  /** The instructions along one wire. */
  function Along(data: seq<Instr>, w: Wire): seq<Instr> {
    Filter(On(w), data)
  }

  ghost predicate SameWireOrder(a: seq<Instr>, b: seq<Instr>) {
    multiset(a) == multiset(b) && forall w :: Along(a, w) == Along(b, w)
  }

  lemma ShareAWire(a: Instr, b: Instr)
    ensures Independent(a, b) <==> forall w :: !(Touches(a, w) && Touches(b, w))
  {
    forall q | q in a.Qubits() && q in b.Qubits() ensures exists w :: Touches(a, w) && Touches(b, w) {
      assert Touches(a, Qubit(q)) && Touches(b, Qubit(q));
    }
    forall c | c in a.Clbits() && c in b.Clbits() ensures exists w :: Touches(a, w) && Touches(b, w) {
      assert Touches(a, Clbit(c)) && Touches(b, Clbit(c));
    }
  }

  // ------------------------------------------------------ what can come first

  /** The first instruction in the way of `x`, or the end. */
  function FirstClash(data: seq<Instr>, x: Instr): (j: nat)
    ensures j <= |data| && forall i | 0 <= i < j :: Independent(data[i], x)
    ensures j < |data| ==> !Independent(data[j], x)
  {
    if data == [] || !Independent(data[0], x) then 0 else 1 + FirstClash(data[1..], x)
  }

  ghost predicate Clear(front: seq<Instr>, x: Instr) {
    forall i | 0 <= i < |front| :: Independent(front[i], x)
  }

  /** The first instruction of one circuit meets nothing on its wires before it
      in the other. */
  lemma HeadCanComeFirst(x: Instr, a: seq<Instr>, b: seq<Instr>) returns (front: seq<Instr>, back: seq<Instr>)
    requires SameWireOrder([x] + a, b)
    ensures b == front + ([x] + back) && Clear(front, x)
  {
    var j := FirstClash(b, x);
    if j < |b| {
      ClashIsHead(x, a, b, j);
    } else {
      j := SomewhereIn(x, a, b);
    }
    front, back := b[..j], b[j + 1..];
  }

  lemma SomewhereIn<T>(x: T, a: seq<T>, b: seq<T>) returns (j: nat)
    requires multiset([x] + a) == multiset(b)
    ensures j < |b| && b[j] == x
  {
    assert x in multiset([x] + a);
    InMultiset(b, x);
    j :| 0 <= j < |b| && b[j] == x;
  }

  lemma ClashIsHead(x: Instr, a: seq<Instr>, b: seq<Instr>, j: nat)
    requires SameWireOrder([x] + a, b) && j < |b| && !Independent(b[j], x)
    requires forall i | 0 <= i < j :: Independent(b[i], x)
    ensures b[j] == x
  {
    ShareAWire(b[j], x);
    var w :| Touches(b[j], w) && Touches(x, w);
    forall i | 0 <= i < j ensures !On(w)(b[i]) {
      ShareAWire(b[i], x);
    }
    assert b == b[..j] + ([b[j]] + b[j + 1..]);
    FilterHead(On(w), b[..j], b[j], b[j + 1..]);
    FilterCons(On(w), x, a);
    assert Along([x] + a, w)[0] == x && Along(b, w)[0] == b[j];
  }

  lemma RestKeepsWireOrder(x: Instr, a: seq<Instr>, front: seq<Instr>, back: seq<Instr>)
    requires SameWireOrder([x] + a, front + ([x] + back)) && Clear(front, x)
    ensures SameWireOrder(a, front + back)
  {
    WithoutOne(x, a, front, back);
    forall w ensures Along(a, w) == Along(front + back, w) {
      assert Along([x] + a, w) == Along(front + ([x] + back), w);
      FilterCons(On(w), x, a);
      if Touches(x, w) {
        forall i | 0 <= i < |front| ensures !On(w)(front[i]) {
          ShareAWire(front[i], x);
        }
        FilterHead(On(w), front, x, back);
        SameTails(x, Along(a, w), Along(front + back, w));
      } else {
        FilterSkips(On(w), front, x, back);
      }
    }
  }

  lemma SameTails<T>(x: T, a: seq<T>, b: seq<T>)
    requires [x] + a == [x] + b
    ensures a == b
  {
    assert a == ([x] + a)[1..] && b == ([x] + b)[1..];
  }

  // ------------------------------------------------------------------------- counts

  lemma ShotsCongruent<S(!new)>(d: Device<S>, x: Instr, a: seq<Instr>, b: seq<Instr>, s: S, reg: Register,
                                target: Register)
    requires forall s', reg' :: Shots(d, a, s', reg', target) == Shots(d, b, s', reg', target)
    ensures Shots(d, [x] + a, s, reg, target) == Shots(d, [x] + b, s, reg, target)
  {
    ShotsCons(d, x, a, s, reg, target);
    ShotsCons(d, x, b, s, reg, target);
  }

  /** An instruction that shares no wire with those before it may come first. */
  lemma {:induction false} ToFrontKeepsShots<S(!new)>(d: Device<S>, front: seq<Instr>, x: Instr, back: seq<Instr>, s: S,
      reg: Register, target: Register)
    requires Lawful(d) && Clear(front, x)
    ensures Shots(d, front + ([x] + back), s, reg, target) == Shots(d, [x] + (front + back), s, reg, target)
    decreases |front|
  {
    if front == [] {
      assert front + ([x] + back) == [x] + (front + back);
    } else {
      var y, rest := front[0], front[1..];
      assert front + ([x] + back) == [y] + (rest + ([x] + back));
      assert front + back == [y] + (rest + back);
      forall s', reg'
        ensures Shots(d, rest + ([x] + back), s', reg', target) == Shots(d, [x] + (rest + back), s', reg', target)
      {
        ToFrontKeepsShots(d, rest, x, back, s', reg', target);
      }
      ShotsCongruent(d, y, rest + ([x] + back), [x] + (rest + back), s, reg, target);
      ExchangeHead(d, y, x, rest + back, s, reg, target);
    }
  }

  /** Circuits with the same wire order give the same counts. */
  lemma {:induction false} WireOrderFixesShots<S(!new)>(d: Device<S>, a: seq<Instr>, b: seq<Instr>, s: S, reg: Register,
      target: Register)
    requires Lawful(d) && SameWireOrder(a, b)
    ensures Shots(d, a, s, reg, target) == Shots(d, b, s, reg, target)
    decreases |a|
  {
    SameLength(a, b);
    if a != [] {
      var x, rest := a[0], a[1..];
      assert a == [x] + rest;
      var front, back := HeadCanComeFirst(x, rest, b);
      RestKeepsWireOrder(x, rest, front, back);
      forall s', reg' ensures Shots(d, rest, s', reg', target) == Shots(d, front + back, s', reg', target) {
        WireOrderFixesShots(d, rest, front + back, s', reg', target);
      }
      ShotsCongruent(d, x, rest, front + back, s, reg, target);
      ToFrontKeepsShots(d, front, x, back, s, reg, target);
    }
  }

  // --------------------------------------------------------------------- acceptance

  lemma SameMembers<T(!new)>(a: seq<T>, b: seq<T>)
    requires multiset(a) == multiset(b)
    ensures forall x :: x in a <==> x in b
  {
    forall x ensures x in a <==> x in b {
      InMultiset(a, x);
      InMultiset(b, x);
    }
  }

  ghost predicate NoGateOn(data: seq<Instr>, q: nat) {
    forall g | g in data && g.Gate? :: q !in g.qubits
  }

  lemma TerminalCons(x: Instr, rest: seq<Instr>)
    ensures Terminal([x] + rest) <==> Terminal(rest) && (x.Measure? ==> NoGateOn(rest, x.qubit))
  {
    var data := [x] + rest;
    assert forall i | 0 <= i < |rest| :: data[i + 1] == rest[i];
    if Terminal(data) {
      forall i, j | 0 <= i < j < |rest| && rest[i].Measure? && rest[j].Gate? ensures rest[i].qubit !in rest[j].qubits {
        assert data[i + 1] == rest[i] && data[j + 1] == rest[j];
      }
      if x.Measure? {
        forall g | g in rest && g.Gate? ensures x.qubit !in g.qubits {
          var j :| 0 <= j < |rest| && rest[j] == g;
          assert data[0] == x && data[j + 1] == g;
        }
      }
    }
  }

  lemma {:induction false} ToFrontKeepsTerminal(front: seq<Instr>, x: Instr, back: seq<Instr>)
    requires Clear(front, x)
    ensures Terminal(front + ([x] + back)) <==> Terminal([x] + (front + back))
    decreases |front|
  {
    if front == [] {
      assert front + ([x] + back) == [x] + (front + back);
    } else {
      var y, rest := front[0], front[1..];
      assert front + ([x] + back) == [y] + (rest + ([x] + back));
      assert front + back == [y] + (rest + back);
      ToFrontKeepsTerminal(rest, x, back);
      TerminalCons(y, rest + ([x] + back));
      TerminalCons(y, [x] + (rest + back));
      assert forall g :: g in rest + ([x] + back) <==> g in [x] + (rest + back);
      HeadsMaySwap(y, x, rest + back);
    }
  }

  lemma HeadsMaySwap(y: Instr, x: Instr, rest: seq<Instr>)
    requires Independent(y, x)
    ensures Terminal([y] + ([x] + rest)) <==> Terminal([x] + ([y] + rest))
  {
    TerminalCons(y, [x] + rest);
    TerminalCons(x, rest);
    TerminalCons(x, [y] + rest);
    TerminalCons(y, rest);
    PassesBy(x, y, rest);
    PassesBy(y, x, rest);
  }

  /** A gate off the qubit of `m` makes no difference to it. */
  lemma PassesBy(g: Instr, m: Instr, rest: seq<Instr>)
    requires Independent(m, g) || Independent(g, m)
    ensures m.Measure? ==> (NoGateOn([g] + rest, m.qubit) <==> NoGateOn(rest, m.qubit))
  {
    if m.Measure? {
      assert m.qubit in m.Qubits();
      assert g.Gate? ==> g.Qubits() == g.qubits;
      assert forall x :: x in [g] + rest <==> x == g || x in rest;
    }
  }

  /** Whether measurements are terminal depends on the wire order alone. */
  lemma {:induction false} WireOrderFixesTerminal(a: seq<Instr>, b: seq<Instr>)
    requires SameWireOrder(a, b)
    ensures Terminal(a) <==> Terminal(b)
    decreases |a|
  {
    SameLength(a, b);
    if a != [] {
      var x, rest := a[0], a[1..];
      assert a == [x] + rest;
      var front, back := HeadCanComeFirst(x, rest, b);
      RestKeepsWireOrder(x, rest, front, back);
      WireOrderFixesTerminal(rest, front + back);
      SameMembers(rest, front + back);
      TerminalCons(x, rest);
      TerminalCons(x, front + back);
      ToFrontKeepsTerminal(front, x, back);
    }
  }
}
