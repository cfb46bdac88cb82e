/** Decoded samples in the arrays of a pub's result: each register's columns are
    cut from the memory, packed, and assigned into an array of the register's own
    width. */
module RegisterStore {
  import opened Prelude
  import opened Bits
  import opened ResultDecoding
  import opened SampleMemory
  import opened Text

  // ------------------------------------------------------------------ reading memory

  /** Whether a sample can be turned into a row of `numBytes` bytes; a circuit
      without classical bits has its samples left unread. */
  predicate Readable(sample: string, numBytes: nat) {
    numBytes == 0 || (ParseHex(sample).Some? && ParseHex(sample).value < Pow2(8 * numBytes))
  }

  /** The number in the row of a sample. */
  function Measured(sample: string, numBytes: nat): nat
    requires Readable(sample, numBytes)
  {
    if numBytes == 0 then 0 else ParseHex(sample).value
  }

  function RowOf(v: nat, numBytes: nat): (row: Word)
    requires ToBytes(v, numBytes).Some?
    ensures |row| == 8 * numBytes
  {
    Unpack(ToBytes(v, numBytes).value)
  }

  ghost predicate IsRow(row: Word, sample: string, numBytes: nat) {
    && Readable(sample, numBytes) && ToBytes(Measured(sample, numBytes), numBytes).Some?
    && row == RowOf(Measured(sample, numBytes), numBytes)
  }

  ghost predicate AreRows(rows: seq<Word>, samples: seq<string>, numBytes: nat) {
    |rows| == |samples| && forall j | 0 <= j < |rows| :: IsRow(rows[j], samples[j], numBytes)
  }

  /** The rows of one circuit's memory; none when a sample is no number or too
      large for the row. */
  method MemoryRows(samples: seq<string>, numBytes: nat) returns (rows: Option<seq<Word>>)
    ensures rows.Some? <==> forall j | 0 <= j < |samples| :: Readable(samples[j], numBytes)
    ensures rows.Some? ==> AreRows(rows.value, samples, numBytes)
  {
    var done: seq<Word> := [];
    for j := 0 to |samples|
      invariant |done| == j && forall k | 0 <= k < j :: IsRow(done[k], samples[k], numBytes)
    {
      if numBytes == 0 {
        assert ToBytes(0, 0) == Some([]);
        done := done + [[]];
      } else {
        var v := ParseHex(samples[j]);
        if v.None? {
          return None;
        }
        FitsInBytes(v.value, numBytes);
        var bytes := ToBytes(v.value, numBytes);
        if bytes.None? {
          return None;
        }
        done := done + [Unpack(bytes.value)];
      }
    }
    rows := Some(done);
  }

  // --------------------------------------------------------------- storing registers

  /** Shots by bytes. */
  type Bytes2 = seq<seq<Byte>>

  /** Assigning an array of `from` columns into one of `width`: equal widths are
      copied, a single column is repeated to the width, others do not fit. */
  function Stored(ary: Bytes2, from: nat, width: nat): Option<Bytes2>
    requires forall j | 0 <= j < |ary| :: |ary[j]| == from
  {
    if from == width then Some(ary)
    else if from == 1 then
      Some(seq(|ary|, j requires 0 <= j < |ary| => seq(width, _ => ary[j][0])))
    else None
  }

  function PackedArray(rows: seq<Word>, info: MeasureInfo): (ary: Bytes2)
    ensures |ary| == |rows|
  {
    seq(|rows|, j requires 0 <= j < |rows| => PackField(rows[j], info.numBits, info.start))
  }

  /** The columns `PackedArray` gives for rows of `numBytes` bytes. */
  function PackedWidth(numBytes: nat, info: MeasureInfo): nat {
    |PackField(Falses(8 * numBytes), info.numBits, info.start)|
  }

  /** A register as the circuit analysis lists it, inside the row. */
  predicate Fits(info: MeasureInfo, numBytes: nat) {
    && info.numBytes == MinBytes(info.numBits)
    && info.start + info.numBits <= 8 * numBytes
    && (info.numBits == 0 ==> info.start == 0)
  }

  /** The stored bytes of a register: its own width, and its section of the
      measured number. */
  ghost predicate Keeps(bytes: seq<Byte>, v: nat, info: MeasureInfo) {
    |bytes| == info.numBytes && BigEndian(bytes) == v / Pow2(info.start) % Pow2(info.numBits)
  }

  ghost predicate KeepsAll(ary: Bytes2, samples: seq<string>, numBytes: nat, info: MeasureInfo) {
    && |ary| == |samples|
    && forall j | 0 <= j < |ary| ::
         Readable(samples[j], numBytes) && Keeps(ary[j], Measured(samples[j], numBytes), info)
  }

  lemma WholeBytes(n: nat)
    ensures MinBytes(8 * n) == n
  {
  }

  lemma PackedLength(pad: nat, cut: Word)
    ensures |Pack(Falses(pad) + cut)| == MinBytes(pad + |cut|)
  {
  }

  lemma EmptyFieldWidth(row: Word, numBytes: nat)
    requires |row| == 8 * numBytes
    ensures |PackField(row, 0, 0)| == numBytes
  {
    EmptyCut(row);
    PackedLength(0, row);
    WholeBytes(numBytes);
  }

  lemma NonemptyFieldWidth(row: Word, numBits: nat, start: nat)
    requires numBits >= 1 && start + numBits <= |row|
    ensures |PackField(row, numBits, start)| == MinBytes(numBits)
  {
    CutLength(row, numBits, start);
    PackedLength(PadSize(numBits), Cut(row, numBits, start));
    PadsToBytes(numBits);
  }

  lemma FieldWidth(row: Word, numBytes: nat, info: MeasureInfo)
    requires |row| == 8 * numBytes && Fits(info, numBytes)
    ensures |PackField(row, info.numBits, info.start)| == if info.numBits == 0 then numBytes else info.numBytes
  {
    if info.numBits == 0 {
      EmptyFieldWidth(row, numBytes);
    } else {
      NonemptyFieldWidth(row, info.numBits, info.start);
    }
  }

  lemma NoBitsKept(v: nat, info: MeasureInfo)
    requires info.numBits == 0
    ensures v / Pow2(info.start) % Pow2(info.numBits) == 0
  {
  }

  lemma RowIsKept(row: Word, sample: string, numBytes: nat, info: MeasureInfo)
    requires IsRow(row, sample, numBytes) && Fits(info, numBytes) && info.numBits >= 1
    ensures Keeps(PackField(row, info.numBits, info.start), Measured(sample, numBytes), info)
  {
    var v := Measured(sample, numBytes);
    FieldIsExact(v, numBytes, info.numBits, info.start, PackField(row, info.numBits, info.start));
  }

  lemma PackedColumns(rows: seq<Word>, samples: seq<string>, numBytes: nat, info: MeasureInfo)
    requires AreRows(rows, samples, numBytes) && Fits(info, numBytes)
    ensures PackedWidth(numBytes, info) == if info.numBits == 0 then numBytes else info.numBytes
    ensures forall j | 0 <= j < |rows| :: |PackedArray(rows, info)[j]| == PackedWidth(numBytes, info)
  {
    FieldWidth(Falses(8 * numBytes), numBytes, info);
    forall j | 0 <= j < |rows| ensures |PackedArray(rows, info)[j]| == PackedWidth(numBytes, info) {
      assert IsRow(rows[j], samples[j], numBytes);
      FieldWidth(rows[j], numBytes, info);
    }
  }

  /** One register of one circuit: refused exactly when it is empty and the row has
      two bytes or more; otherwise what is stored is its section of each sample. */
  method StoreRegister(rows: seq<Word>, ghost samples: seq<string>, numBytes: nat, info: MeasureInfo)
      returns (r: Option<Bytes2>)
    requires AreRows(rows, samples, numBytes) && Fits(info, numBytes)
    ensures r.None? <==> info.numBits == 0 && numBytes >= 2
    ensures r.Some? ==> KeepsAll(r.value, samples, numBytes, info)
  {
    PackedColumns(rows, samples, numBytes, info);
    r := Stored(PackedArray(rows, info), PackedWidth(numBytes, info), info.numBytes);
    if r.Some? {
      forall j | 0 <= j < |rows|
        ensures Readable(samples[j], numBytes) && Keeps(r.value[j], Measured(samples[j], numBytes), info)
      {
        assert IsRow(rows[j], samples[j], numBytes);
        if info.numBits == 0 {
          NoBitsKept(Measured(samples[j], numBytes), info);
        } else {
          RowIsKept(rows[j], samples[j], numBytes, info);
        }
      }
    }
  }

  /** The registers of a pub, each with one array per circuit. */
  type Arrays = seq<seq<Bytes2>>

  ghost predicate Shaped(arrays: Arrays, infos: seq<MeasureInfo>, circuits: nat) {
    |arrays| == |infos| && forall i | 0 <= i < |arrays| :: |arrays[i]| == circuits
  }

  /** The arrays of circuit `k` hold its samples. */
  ghost predicate Holds(arrays: Arrays, infos: seq<MeasureInfo>, k: nat, samples: seq<string>, numBytes: nat) {
    && |arrays| == |infos|
    && forall i | 0 <= i < |infos| :: k < |arrays[i]| && KeepsAll(arrays[i][k], samples, numBytes, infos[i])
  }

  predicate AllFit(infos: seq<MeasureInfo>, numBytes: nat) {
    forall i | 0 <= i < |infos| :: Fits(infos[i], numBytes)
  }

  /** Some register has no bits although the row has two bytes or more. */
  predicate Clashes(infos: seq<MeasureInfo>, numBytes: nat) {
    numBytes >= 2 && exists i :: 0 <= i < |infos| && infos[i].numBits == 0
  }

  /** Every register of one circuit; the arrays of the others stay as they are. */
  method StoreCircuit(arrays0: Arrays, rows: seq<Word>, ghost samples: seq<string>, k: nat, infos: seq<MeasureInfo>,
                      numBytes: nat, ghost circuits: nat) returns (ok: bool, arrays: Arrays)
    requires AreRows(rows, samples, numBytes) && AllFit(infos, numBytes)
    requires Shaped(arrays0, infos, circuits) && k < circuits
    ensures ok <==> !Clashes(infos, numBytes)
    ensures Shaped(arrays, infos, circuits)
    ensures ok ==> Holds(arrays, infos, k, samples, numBytes)
    ensures forall i, l | 0 <= i < |infos| && 0 <= l < circuits && l != k :: arrays[i][l] == arrays0[i][l]
  {
    arrays := arrays0;
    for i := 0 to |infos|
      invariant Shaped(arrays, infos, circuits)
      invariant forall h | 0 <= h < i :: KeepsAll(arrays[h][k], samples, numBytes, infos[h])
      invariant numBytes >= 2 ==> forall h | 0 <= h < i :: infos[h].numBits >= 1
      invariant forall h, l | 0 <= h < |infos| && 0 <= l < circuits && l != k :: arrays[h][l] == arrays0[h][l]
    {
      var ary := StoreRegister(rows, samples, numBytes, infos[i]);
      if ary.None? {
        return false, arrays;
      }
      arrays := arrays[i := arrays[i][k := ary.value]];
    }
    ok := true;
  }

  datatype Postprocessed = Unreadable | Unstorable | Kept(arrays: Arrays)

  ghost predicate AllReadable(memory: seq<seq<string>>, numBytes: nat) {
    forall k, j | 0 <= k < |memory| && 0 <= j < |memory[k]| :: Readable(memory[k][j], numBytes)
  }

  method ReadAll(memory: seq<seq<string>>, numBytes: nat) returns (r: Option<seq<seq<Word>>>)
    ensures r.Some? <==> AllReadable(memory, numBytes)
    ensures r.Some? ==>
              |r.value| == |memory| && forall k | 0 <= k < |memory| :: AreRows(r.value[k], memory[k], numBytes)
  {
    var done: seq<seq<Word>> := [];
    for k := 0 to |memory|
      invariant |done| == k && forall l | 0 <= l < k :: AreRows(done[l], memory[l], numBytes)
      invariant forall l, j | 0 <= l < k && 0 <= j < |memory[l]| :: Readable(memory[l][j], numBytes)
    {
      var rows := MemoryRows(memory[k], numBytes);
      if rows.None? {
        return None;
      }
      done := done + [rows.value];
    }
    r := Some(done);
  }

  /** A pub's memory in the arrays of its result. It fails exactly on a sample that
      does not fit the row, or on an empty register beside two bytes or more of
      others; otherwise every register of every shot is its section of the
      measured number. */
  method PostprocessPub(memory: seq<seq<string>>, infos: seq<MeasureInfo>, numBytes: nat) returns (r: Postprocessed)
    requires AllFit(infos, numBytes)
    ensures r.Unreadable? <==> !AllReadable(memory, numBytes)
    ensures r.Unstorable? <==> AllReadable(memory, numBytes) && memory != [] && Clashes(infos, numBytes)
    ensures r.Kept? ==> Shaped(r.arrays, infos, |memory|)
    ensures r.Kept? ==> forall k | 0 <= k < |memory| :: Holds(r.arrays, infos, k, memory[k], numBytes)
  {
    var read := ReadAll(memory, numBytes);
    if read.None? {
      return Unreadable;
    }
    var arrays: Arrays := seq(|infos|, i requires 0 <= i < |infos| => Blank(memory, infos[i].numBytes));
    for k := 0 to |memory|
      invariant Shaped(arrays, infos, |memory|)
      invariant k > 0 ==> !Clashes(infos, numBytes)
      invariant forall l | 0 <= l < k :: Holds(arrays, infos, l, memory[l], numBytes)
    {
      ghost var before := arrays;
      var ok, now := StoreCircuit(arrays, read.value[k], memory[k], k, infos, numBytes, |memory|);
      if !ok {
        return Unstorable;
      }
      arrays := now;
      forall l | 0 <= l < k ensures Holds(arrays, infos, l, memory[l], numBytes) {
        assert Holds(before, infos, l, memory[l], numBytes);
      }
    }
    r := Kept(arrays);
  }

  function Blank(memory: seq<seq<string>>, width: nat): (r: seq<Bytes2>)
    ensures |r| == |memory|
  {
    seq(|memory|, k requires 0 <= k < |memory| => seq(|memory[k]|, _ => seq(width, _ => 0)))
  }

  /** Nine bits and an empty register: a circuit whose result cannot be stored. */
  method EmptyRegisterRefused() returns (r: Postprocessed)
    ensures r.Unstorable?
  {
    var infos, numBytes := AnalyzeCircuit([Register(9, 0), Register(0, 0)]);
    AnalysisFits([Register(9, 0), Register(0, 0)], infos, numBytes);
    assert InfoOf(Register(9, 0), infos[0], numBytes) && InfoOf(Register(0, 0), infos[1], numBytes);
    assert ParseDigits("0") == Some(0);
    r := PostprocessPub([["0"]], infos, numBytes);
  }

  lemma AnalysisFits(cregs: seq<Register>, infos: seq<MeasureInfo>, numBytes: nat)
    requires Analyzed(cregs, infos, numBytes)
    ensures AllFit(infos, numBytes)
  {
    forall i | 0 <= i < |infos| ensures Fits(infos[i], numBytes) {
      assert InfoOf(cregs[i], infos[i], numBytes);
    }
  }

  // ------------------------------------------------------------------- recombination

  /** The classical bits of the first `n` registers. */
  function BitsBefore(cregs: seq<Register>, n: nat): nat
    requires n <= |cregs|
  {
    if n == 0 then 0 else BitsBefore(cregs, n - 1) + cregs[n - 1].size
  }

  ghost predicate Follows(cregs: seq<Register>, i: nat)
    requires i < |cregs|
  {
    cregs[i].first == BitsBefore(cregs, i)
  }

  /** The registers lie side by side from classical bit 0. */
  ghost predicate Contiguous(cregs: seq<Register>) {
    forall i: nat {:trigger Follows(cregs, i)} | i < |cregs| :: Follows(cregs, i)
  }

  /** The first `n` fields, each weighed by two to the power of its start. */
  function Gathered(field: nat -> nat, infos: seq<MeasureInfo>, n: nat): nat
    requires n <= |infos|
  {
    if n == 0 then 0 else Gathered(field, infos, n - 1) + Scale(field(n - 1), infos[n - 1].start)
  }

  function Field(stored: seq<seq<Byte>>): nat -> nat {
    (i: nat) => if i < |stored| then BigEndian(stored[i]) else 0
  }

  /** The stored registers of one shot put back in their places. */
  function Recombined(stored: seq<seq<Byte>>, infos: seq<MeasureInfo>): nat {
    Gathered(Field(stored), infos, |infos|)
  }

  /** The bits of the first `n` registers, as the analysis lists them. */
  function BitsOf(infos: seq<MeasureInfo>, n: nat): nat
    requires n <= |infos|
  {
    if n == 0 then 0 else BitsOf(infos, n - 1) + infos[n - 1].numBits
  }

  /** A field in its place, with its bits of `v`. */
  ghost predicate Placed(field: nat -> nat, v: nat, infos: seq<MeasureInfo>, i: nat)
    requires i < |infos|
  {
    && infos[i].start == (if infos[i].numBits == 0 then 0 else BitsOf(infos, i))
    && field(i) == Low(Shift(v, infos[i].start), infos[i].numBits)
  }

  lemma {:induction false} GatheredIs(field: nat -> nat, v: nat, infos: seq<MeasureInfo>, n: nat)
    requires n <= |infos| && forall i | 0 <= i < |infos| :: Placed(field, v, infos, i)
    ensures Gathered(field, infos, n) == Low(v, BitsOf(infos, n))
    decreases n
  {
    if n > 0 {
      GatheredIs(field, v, infos, n - 1);
      assert Placed(field, v, infos, n - 1);
      LowSplits(v, BitsOf(infos, n - 1), infos[n - 1].numBits);
    }
  }

  lemma {:induction false} SameBits(cregs: seq<Register>, infos: seq<MeasureInfo>, numBytes: nat, n: nat)
    requires Analyzed(cregs, infos, numBytes) && n <= |cregs|
    ensures BitsOf(infos, n) == BitsBefore(cregs, n)
    decreases n
  {
    if n > 0 {
      SameBits(cregs, infos, numBytes, n - 1);
      assert InfoOf(cregs[n - 1], infos[n - 1], numBytes);
    }
  }

  /** Whatever registers a circuit has, empty ones included: what is stored of a
      shot, put back in place, makes up the measured number. */
  lemma RegistersRecombine(v: nat, numBytes: nat, cregs: seq<Register>, infos: seq<MeasureInfo>, stored: seq<seq<Byte>>)
    requires Analyzed(cregs, infos, numBytes) && Contiguous(cregs)
    requires |stored| == |infos| && forall i | 0 <= i < |infos| :: Keeps(stored[i], v, infos[i])
    ensures Recombined(stored, infos) == v % Pow2(BitsBefore(cregs, |cregs|))
  {
    forall i | 0 <= i < |infos| ensures Placed(Field(stored), v, infos, i) {
      assert Keeps(stored[i], v, infos[i]);
      FieldByDivision(v, infos[i].numBits, infos[i].start);
      SameBits(cregs, infos, numBytes, i);
      assert InfoOf(cregs[i], infos[i], numBytes) && Follows(cregs, i);
    }
    GatheredIs(Field(stored), v, infos, |infos|);
    SameBits(cregs, infos, numBytes, |cregs|);
    LowIsRemainder(v, BitsBefore(cregs, |cregs|));
  }

  /** What the arrays hold of one shot. */
  function Shot(arrays: Arrays, k: nat, j: nat): (r: seq<seq<Byte>>)
    requires forall i | 0 <= i < |arrays| :: k < |arrays[i]| && j < |arrays[i][k]|
    ensures |r| == |arrays|
  {
    seq(|arrays|, i requires 0 <= i < |arrays| => arrays[i][k][j])
  }

  lemma ShotRecombines(arrays: Arrays, k: nat, j: nat, samples: seq<string>, numBytes: nat,
                       cregs: seq<Register>, infos: seq<MeasureInfo>)
    requires Analyzed(cregs, infos, numBytes) && Contiguous(cregs)
    requires Holds(arrays, infos, k, samples, numBytes) && j < |samples| && Readable(samples[j], numBytes)
    ensures forall i | 0 <= i < |arrays| :: k < |arrays[i]| && j < |arrays[i][k]|
    ensures Recombined(Shot(arrays, k, j), infos) == Measured(samples[j], numBytes) % Pow2(BitsBefore(cregs, |cregs|))
  {
    forall i | 0 <= i < |infos|
      ensures j < |arrays[i][k]| && Keeps(arrays[i][k][j], Measured(samples[j], numBytes), infos[i])
    {
      assert KeepsAll(arrays[i][k], samples, numBytes, infos[i]);
    }
    RegistersRecombine(Measured(samples[j], numBytes), numBytes, cregs, infos, Shot(arrays, k, j));
  }

  ghost predicate Inside(cregs: seq<Register>, limit: nat) {
    forall i | 0 <= i < |cregs| :: cregs[i].size == 0 || cregs[i].first + cregs[i].size <= limit
  }

  lemma {:induction false} BitsInside(cregs: seq<Register>, limit: nat, n: nat)
    requires Inside(cregs, limit) && Contiguous(cregs) && n <= |cregs|
    ensures BitsBefore(cregs, n) <= limit
    decreases n
  {
    if n > 0 {
      if cregs[n - 1].size == 0 {
        BitsInside(cregs, limit, n - 1);
      } else {
        assert Follows(cregs, n - 1);
      }
    }
  }

  lemma BitsFit(cregs: seq<Register>, infos: seq<MeasureInfo>, numBytes: nat)
    requires Analyzed(cregs, infos, numBytes) && Contiguous(cregs)
    ensures BitsBefore(cregs, |cregs|) <= 8 * numBytes
  {
    forall i | 0 <= i < |cregs|
      ensures cregs[i].size == 0 || cregs[i].first + cregs[i].size <= 8 * numBytes
    {
      assert InfoOf(cregs[i], infos[i], numBytes);
    }
    BitsInside(cregs, 8 * numBytes, |cregs|);
  }

  /** From a counts key over all classical bits, through memory, to the stored
      registers of its shot and back to the number the key spells. */
  lemma KeyRecombines(arrays: Arrays, k: nat, j: nat, samples: seq<string>, numBytes: nat,
                      cregs: seq<Register>, infos: seq<MeasureInfo>, key: string)
    requires Analyzed(cregs, infos, numBytes) && Contiguous(cregs) && Holds(arrays, infos, k, samples, numBytes)
    requires j < |samples| && samples[j] == NormalizeSample(key)
    requires BitKey(key) && |Compact(key)| == BitsBefore(cregs, |cregs|) >= 1
    ensures Readable(samples[j], numBytes)
    ensures forall i | 0 <= i < |arrays| :: k < |arrays[i]| && j < |arrays[i][k]|
    ensures Recombined(Shot(arrays, k, j), infos) == Value(WordOf(Compact(key)))
  {
    var bits := BitsBefore(cregs, |cregs|);
    BitsFit(cregs, infos, numBytes);
    KeyFits(key, numBytes);
    Pow2Grows(bits, 8 * numBytes);
    ShotRecombines(arrays, k, j, samples, numBytes, cregs, infos);
    LowOfSmall(Value(WordOf(Compact(key))), bits);
    LowIsRemainder(Value(WordOf(Compact(key))), bits);
  }
}
