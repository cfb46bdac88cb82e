/** Keying the device's histogram back onto the circuit's classical bits. */
module BraketCounts {
  import opened Ordering
  import opened Circuits
  import opened Braket

  /** A histogram as the dictionary items the device library returns. */
  type Histogram = seq<(string, nat)>

  datatype Remapped = Counts(counts: map<string, nat>) | WrongKey(key: string)

  /** A measurement map with its measured qubits in ascending order. */
  datatype Layout = Layout(pairs: seq<Pair>, ranks: seq<nat>, numClbits: nat)

  ghost predicate Fits(m: Measurement) {
    forall i | 0 <= i < |m.pairs| :: m.pairs[i].1 < m.numClbits
  }

  ghost predicate Sound(l: Layout) {
    forall i | 0 <= i < |l.pairs| :: l.pairs[i].0 in l.ranks && l.pairs[i].1 < l.numClbits
  }

  function LayoutOf(m: Measurement): (l: Layout)
    ensures Fits(m) ==> Sound(l)
  {
    RanksCover(m.pairs);
    Layout(m.pairs, Ranks(m.pairs), m.numClbits)
  }

  lemma RanksCover(pairs: seq<Pair>)
    ensures forall i | 0 <= i < |pairs| :: pairs[i].0 in Ranks(pairs)
  {
    forall i | 0 <= i < |pairs| ensures pairs[i].0 in Ranks(pairs) {
      assert pairs[i].0 in Measured(pairs);
      assert pairs[i].0 in Elements(Ranks(pairs));
    }
  }

  function Bit(b: bool): char {
    if b then '1' else '0'
  }

  /** A classical register as Qiskit prints it, highest index leftmost. */
  function Key(reg: Register): (k: string)
    ensures |k| == |reg|
  {
    seq(|reg|, i requires 0 <= i < |reg| => Bit(reg[|reg| - 1 - i]))
  }

  /** Bit `i` of the register stands at place `i` from the right. */
  lemma KeyIs(reg: Register, i: nat)
    requires i < |reg|
    ensures Key(reg)[|reg| - 1 - i] == if reg[i] then '1' else '0'
  {
    var j := |reg| - 1 - i;
    assert Key(reg)[j] == Bit(reg[|reg| - 1 - j]);
  }

  function Blank(n: nat): (r: string)
    ensures |r| == n && forall i | 0 <= i < n :: r[i] == '0'
  {
    seq(n, _ => '0')
  }

  /** `out` after the first `n` measurements are copied into it in order. A
      device key holds the qubit of rank r at its r-th place from the right. */
  function Copied(l: Layout, n: nat, key: string): (out: string)
    requires Sound(l) && n <= |l.pairs| && |key| == |l.ranks|
    ensures |out| == l.numClbits
  {
    if n == 0 then Blank(l.numClbits)
    else
      var (qubit, clbit) := l.pairs[n - 1];
      Copied(l, n - 1, key)[l.numClbits - 1 - clbit := key[|key| - 1 - IndexOf(l.ranks, qubit)]]
  }

  /** The classical key a device key stands for. */
  function NewKey(l: Layout, key: string): (r: string)
    requires Sound(l) && |key| == |l.ranks|
    ensures |r| == l.numClbits
  {
    Copied(l, |l.pairs|, key)
  }

  ghost predicate Wide(l: Layout, items: Histogram) {
    forall i | 0 <= i < |items| :: |items[i].0| == |l.ranks|
  }

  /** The shots the first `n` items put on device keys that stand for `key`. */
  ghost function Total(l: Layout, items: Histogram, n: nat, key: string): nat
    requires Sound(l) && Wide(l, items) && n <= |items|
  {
    if n == 0 then 0
    else Total(l, items, n - 1, key) + if NewKey(l, items[n - 1].0) == key then items[n - 1].1 else 0
  }

  /** One of the first `n` device keys stands for `key`. */
  ghost predicate Stands(l: Layout, items: Histogram, n: nat, key: string)
    requires Sound(l) && Wide(l, items) && n <= |items|
  {
    exists i :: 0 <= i < n && NewKey(l, items[i].0) == key
  }

  /** Item `i` is the first whose key has not `width` bits. */
  ghost predicate FirstWrong(items: Histogram, width: nat, i: nat) {
    i < |items| && |items[i].0| != width && forall j | 0 <= j < i :: |items[j].0| == width
  }

  function Lookup(counts: map<string, nat>, key: string): nat {
    if key in counts then counts[key] else 0
  }

  function ToMap(items: Histogram): map<string, nat> {
    if items == [] then map[] else ToMap(items[..|items| - 1])[items[|items| - 1].0 := items[|items| - 1].1]
  }

  /** Item `i` is the last with its key. */
  ghost predicate LastOfKey(items: Histogram, i: nat) {
    i < |items| && forall j | i < j < |items| :: items[j].0 != items[i].0
  }

  /** The dictionary holds the items and no other key, the last item of a key
      deciding. */
  lemma {:induction false} ToMapIs(items: Histogram, key: string, count: nat)
    ensures key in ToMap(items) && ToMap(items)[key] == count <==> IsLast(items, key, count)
    decreases |items|
  {
    if items != [] {
      var front, last := items[..|items| - 1], items[|items| - 1];
      ToMapIs(front, key, count);
      assert items == front + [last];
      LastAfter(front, last, key, count);
    }
  }

  ghost predicate IsLast(items: Histogram, key: string, count: nat) {
    exists i: nat :: LastOfKey(items, i) && items[i] == (key, count)
  }

  lemma LastAfter(front: Histogram, last: (string, nat), key: string, count: nat)
    ensures IsLast(front + [last], key, count) <==> if last.0 == key then last.1 == count else IsLast(front, key, count)
  {
    var items := front + [last];
    if last.0 == key && last.1 == count {
      assert LastOfKey(items, |front|) && items[|front|] == (key, count);
    }
    if last.0 != key && IsLast(front, key, count) {
      var i: nat :| LastOfKey(front, i) && front[i] == (key, count);
      assert LastOfKey(items, i) && items[i] == (key, count);
    }
    if IsLast(items, key, count) {
      var i: nat :| LastOfKey(items, i) && items[i] == (key, count);
      if i < |front| {
        assert items[|front|].0 != items[i].0;
        forall j | i < j < |front| ensures front[j].0 != front[i].0 {
          assert items[j].0 != items[i].0;
        }
        assert LastOfKey(front, i) && front[i] == (key, count);
      }
    }
  }

  method RemapKey(l: Layout, key: string) returns (out: string)
    requires Sound(l) && |key| == |l.ranks|
    ensures out == NewKey(l, key)
  {
    out := Blank(l.numClbits);
    for i := 0 to |l.pairs|
      invariant out == Copied(l, i, key)
    {
      var (qubit, clbit) := l.pairs[i];
      var position := |l.ranks| - 1 - IndexOf(l.ranks, qubit);
      out := out[l.numClbits - 1 - clbit := key[position]];
    }
  }

  /** Each classical key gets the shots of all the device keys that stand for
      it. */
  method Accumulate(l: Layout, items: Histogram) returns (r: Remapped)
    requires Sound(l)
    ensures Wide(l, items) ==>
      && r.Counts?
      && (forall key :: Lookup(r.counts, key) == Total(l, items, |items|, key))
      && (forall key | key in r.counts :: |key| == l.numClbits)
    ensures Wide(l, items) ==> forall key :: key in r.counts <==> Stands(l, items, |items|, key)
    ensures !Wide(l, items) ==> r.WrongKey? && exists i: nat :: FirstWrong(items, |l.ranks|, i) && items[i].0 == r.key
  {
    var remapped: map<string, nat> := map[];
    for i := 0 to |items|
      invariant forall j | 0 <= j < i :: |items[j].0| == |l.ranks|
      invariant Wide(l, items) ==> forall key :: Lookup(remapped, key) == Total(l, items, i, key)
      invariant Wide(l, items) ==> forall key :: key in remapped <==> Stands(l, items, i, key)
      invariant forall key | key in remapped :: |key| == l.numClbits
    {
      var (key, count) := items[i];
      if |key| != |l.ranks| {
        assert FirstWrong(items, |l.ranks|, i);
        return WrongKey(key);
      }
      var newKey := RemapKey(l, key);
      remapped := remapped[newKey := Lookup(remapped, newKey) + count];
    }
    r := Counts(remapped);
  }

  /** Without counts or measurements there is nothing to rekey. */
  method RemapCounts(items: Histogram, m: Measurement) returns (r: Remapped)
    requires Fits(m)
    ensures items == [] || m.pairs == [] || m.numClbits == 0 ==> r == Counts(ToMap(items))
    ensures items == [] || m.pairs == [] || m.numClbits == 0 ==>
              forall key, count :: key in r.counts && r.counts[key] == count <==> IsLast(items, key, count)
    ensures items != [] && m.pairs != [] && m.numClbits != 0 ==>
      if Wide(LayoutOf(m), items) then
        && r.Counts?
        && (forall key :: Lookup(r.counts, key) == Total(LayoutOf(m), items, |items|, key))
        && (forall key :: key in r.counts <==> Stands(LayoutOf(m), items, |items|, key))
      else
        r.WrongKey? && exists i: nat :: FirstWrong(items, |Ranks(m.pairs)|, i) && items[i].0 == r.key
  {
    if items == [] || m.pairs == [] || m.numClbits == 0 {
      r := Counts(ToMap(items));
      forall key, count ensures key in r.counts && r.counts[key] == count <==> IsLast(items, key, count) {
        ToMapIs(items, key, count);
      }
    } else {
      r := Accumulate(LayoutOf(m), items);
    }
  }
}
