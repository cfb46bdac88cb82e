/** From a counts key to the packed bytes of one classical register: key, hex
    memory, unpacked row, slice, padding, packed bytes. */
module ResultDecoding {
  import opened Prelude
  import opened Bits

  type Byte = b: nat | b < 256

  // --------------------------------------------------------- unpacking and packing

  function MinBytes(numBits: nat): nat {
    (numBits + 7) / 8
  }

  /** `int.to_bytes(n, "big")`; None when the value does not fit. */
  function ToBytes(v: nat, n: nat): (r: Option<seq<Byte>>)
    ensures r.Some? ==> |r.value| == n
    decreases n
  {
    if n == 0 then if v == 0 then Some([]) else None
    else
      var front := ToBytes(v / 256, n - 1);
      if front.None? then None else Some(front.value + [v % 256])
  }

  function Unpack(bytes: seq<Byte>): (w: Word)
    ensures |w| == 8 * |bytes|
  {
    if bytes == [] then [] else Unpack(bytes[..|bytes| - 1]) + ToWord(bytes[|bytes| - 1], 8)
  }

  /** `np.packbits`: eight bits a byte, the last byte filled with zeros. */
  function Pack(w: Word): (bytes: seq<Byte>)
    ensures |bytes| == MinBytes(|w|)
  {
    if w == [] then []
    else if |w| < 8 then [PackOne(w + Falses(8 - |w|))]
    else [PackOne(w[..8])] + Pack(w[8..])
  }

  function PackOne(w: Word): Byte
    requires |w| == 8
  {
    ValueFits(w);
    Pow2Byte();
    Value(w)
  }

  function BigEndian(bytes: seq<Byte>): nat {
    if bytes == [] then 0 else 256 * BigEndian(bytes[..|bytes| - 1]) + bytes[|bytes| - 1]
  }

  /** A Python slice with bounds that may be negative. */
  function PythonSlice(w: Word, lo: int, hi: Option<int>): Word {
    var from := Clamp(lo, |w|);
    var to := if hi.None? then |w| else Clamp(hi.value, |w|);
    if from <= to then w[from..to] else []
  }

  function Clamp(i: int, n: nat): (r: nat)
    ensures r <= n
  {
    if i < 0 then if n + i < 0 then 0 else n + i
    else if i > n then n else i
  }

  /** The register's columns of a row of samples, highest classical bit first. */
  function Cut(row: Word, numBits: nat, start: nat): Word {
    if start == 0 then PythonSlice(row, 0 - start - numBits, None)
    else PythonSlice(row, 0 - start - numBits, Some(0 - start))
  }

  /** Python's `-n % 8`. */
  function PadSize(n: nat): nat {
    (8 - n % 8) % 8
  }

  /** One row of samples, cut to a register, padded on the left, packed. */
  function PackField(row: Word, numBits: nat, start: nat): seq<Byte> {
    Pack(Falses(PadSize(numBits)) + Cut(row, numBits, start))
  }

  // ---------------------------------------------------------------------- values

  lemma ByteValue(a: Word, b: Byte)
    ensures Value(a + ToWord(b, 8)) == 256 * Value(a) + b
  {
    Pow2Byte();
    ValueJoins(a, ToWord(b, 8));
    ScaleByte(Value(a));
    WordValue(b, 8);
    LowOfSmall(b, 8);
  }

  lemma {:induction false} BytesValue(v: nat, n: nat)
    requires ToBytes(v, n).Some?
    ensures Value(Unpack(ToBytes(v, n).value)) == v
    decreases n
  {
    if n > 0 {
      var bytes := ToBytes(v, n).value;
      BytesValue(v / 256, n - 1);
      assert bytes[..n - 1] == ToBytes(v / 256, n - 1).value;
      ByteValue(Unpack(bytes[..n - 1]), v % 256);
    }
  }

  /** A value fits its bytes exactly when it is below two to their bits. */
  lemma {:induction false} FitsInBytes(v: nat, n: nat)
    ensures ToBytes(v, n).Some? <==> v < Pow2(8 * n)
    decreases n
  {
    if n > 0 {
      FitsInBytes(v / 256, n - 1);
      Pow2Adds(8 * (n - 1), 8);
      Pow2Byte();
      assert 8 * n == 8 * (n - 1) + 8;
      Below256(v, Pow2(8 * (n - 1)));
    }
  }

  lemma Below256(v: nat, p: nat)
    ensures v / 256 < p <==> v < p * 256
  {
  }

  lemma {:induction false} BigEndianJoins(b: Byte, rest: seq<Byte>)
    ensures BigEndian([b] + rest) == Scale(b, 8 * |rest|) + BigEndian(rest)
    decreases |rest|
  {
    if rest == [] {
      assert ([b] + rest)[..0] == [];
    } else {
      var n := |rest| - 1;
      var all := [b] + rest;
      assert all[..|all| - 1] == [b] + rest[..n];
      BigEndianJoins(b, rest[..n]);
      ScaleTwice(b, 8 * n, 8);
      ScaleByte(Scale(b, 8 * n));
      assert 8 * |rest| == 8 * n + 8;
    }
  }

  /** Packing whole bytes keeps the value. */
  lemma {:induction false} PackValue(w: Word)
    requires |w| % 8 == 0
    ensures BigEndian(Pack(w)) == Value(w)
    decreases |w|
  {
    if w != [] {
      PackValue(w[8..]);
      BigEndianJoins(PackOne(w[..8]), Pack(w[8..]));
      assert w == w[..8] + w[8..];
      ValueJoins(w[..8], w[8..]);
      assert 8 * |Pack(w[8..])| == |w[8..]|;
    }
  }

  lemma {:induction false} PackPads(w: Word)
    ensures Pack(w) == Pack(w + Falses(8 * MinBytes(|w|) - |w|))
    decreases |w|
  {
    var full := w + Falses(8 * MinBytes(|w|) - |w|);
    if w == [] {
      assert full == w;
    } else if |w| < 8 {
      assert full[..8] == full && full[8..] == [];
    } else {
      assert MinBytes(|w|) == 1 + MinBytes(|w[8..]|);
      assert full[..8] == w[..8] && full[8..] == w[8..] + Falses(8 * MinBytes(|w[8..]|) - |w[8..]|);
      PackPads(w[8..]);
    }
  }

  /** Packing any word fills its last byte with zeros. */
  lemma {:induction false} PackFills(w: Word)
    ensures BigEndian(Pack(w)) == Scale(Value(w), 8 * MinBytes(|w|) - |w|)
  {
    var pad := 8 * MinBytes(|w|) - |w|;
    var full := w + Falses(pad);
    PackPads(w);
    assert |full| == 8 * MinBytes(|w|);
    assert BigEndian(Pack(full)) == Value(full) by {
      PackValue(full);
    }
    assert Value(full) == Scale(Value(w), pad) by {
      ValueJoins(w, Falses(pad));
      ZeroValue(pad);
    }
  }

  lemma CutIsMiddle(row: Word, numBits: nat, start: nat)
    requires numBits >= 1 && start + numBits <= |row|
    ensures Cut(row, numBits, start) == row[|row| - start - numBits..|row| - start]
  {
  }

  lemma CutValue(row: Word, numBits: nat, start: nat)
    requires numBits >= 1 && start + numBits <= |row|
    ensures Value(Cut(row, numBits, start)) == Low(Shift(Value(row), start), numBits)
  {
    var upper := row[..|row| - start];
    CutIsMiddle(row, numBits, start);
    assert upper[|upper| - numBits..] == row[|row| - start - numBits..|row| - start];
    DropValue(row, start);
    KeepValue(upper, numBits);
  }

  lemma PadsToBytes(numBits: nat)
    ensures (PadSize(numBits) + numBits) % 8 == 0
    ensures MinBytes(PadSize(numBits) + numBits) == MinBytes(numBits)
  {
  }

  lemma CutLength(row: Word, numBits: nat, start: nat)
    requires numBits >= 1 && start + numBits <= |row|
    ensures |Cut(row, numBits, start)| == numBits
  {
    CutIsMiddle(row, numBits, start);
  }

  lemma FieldInBits(v: nat, numBytes: nat, numBits: nat, start: nat)
    requires numBits >= 1 && start + numBits <= 8 * numBytes && ToBytes(v, numBytes).Some?
    ensures
      var field := PackField(Unpack(ToBytes(v, numBytes).value), numBits, start);
      |field| == MinBytes(numBits) && BigEndian(field) == Low(Shift(v, start), numBits)
  {
    var row := Unpack(ToBytes(v, numBytes).value);
    CutLength(row, numBits, start);
    CutValue(row, numBits, start);
    BytesValue(v, numBytes);
    PaddingKeepsValue(Cut(row, numBits, start));
  }

  lemma FieldByDivision(v: nat, numBits: nat, start: nat)
    ensures Low(Shift(v, start), numBits) == v / Pow2(start) % Pow2(numBits)
  {
    ShiftIsDivision(v, start);
    LowIsRemainder(Shift(v, start), numBits);
  }

  /** For every value that fits and every register inside the row: the packed
      field is ceil(numBits / 8) bytes, big-endian, of
      (value div 2^start) mod 2^numBits. */
  lemma FieldIsExact(v: nat, numBytes: nat, numBits: nat, start: nat, field: seq<Byte>)
    requires numBits >= 1 && start + numBits <= 8 * numBytes && ToBytes(v, numBytes).Some?
    requires field == PackField(Unpack(ToBytes(v, numBytes).value), numBits, start)
    ensures |field| == MinBytes(numBits) && BigEndian(field) == v / Pow2(start) % Pow2(numBits)
  {
    FieldInBits(v, numBytes, numBits, start);
    FieldByDivision(v, numBits, start);
  }

  lemma PaddingKeepsValue(cut: Word)
    ensures
      var bytes := Pack(Falses(PadSize(|cut|)) + cut);
      |bytes| == MinBytes(|cut|) && BigEndian(bytes) == Value(cut)
  {
    PadsToBytes(|cut|);
    PaddedValue(PadSize(|cut|), cut);
  }

  lemma PaddedValue(pad: nat, cut: Word)
    requires (pad + |cut|) % 8 == 0
    ensures
      var bytes := Pack(Falses(pad) + cut);
      |bytes| == MinBytes(pad + |cut|) && BigEndian(bytes) == Value(cut)
  {
    var w := Falses(pad) + cut;
    assert |w| == pad + |cut|;
    LeadingZeros(pad, cut);
    PackValue(w);
  }

  lemma EmptyCut(row: Word)
    ensures Cut(row, 0, 0) == row && PadSize(0) == 0
  {
  }

  /** A register of no bits decodes as the whole row. */
  lemma EmptyFieldIsRow(row: Word)
    requires |row| % 8 == 0
    ensures BigEndian(PackField(row, 0, 0)) == Value(row)
  {
    EmptyCut(row);
    assert PadSize(|row|) == 0;
    PaddingKeepsValue(row);
  }

  /** An empty register is cut as the whole row: its field has the right width
      exactly when the register is not empty or the row is. */
  lemma EmptyRegisterTakesWholeRow(row: Word, numBits: nat, start: nat)
    requires start + numBits <= |row| && |row| % 8 == 0 && (numBits == 0 ==> start == 0)
    ensures |PackField(row, numBits, start)| == MinBytes(numBits) <==> numBits >= 1 || |row| == 0
  {
    PadsToBytes(numBits);
    if numBits >= 1 {
      CutIsMiddle(row, numBits, start);
    } else {
      assert Cut(row, 0, 0) == row;
    }
  }
}
