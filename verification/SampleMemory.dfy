/** Counts keys as the memory the sampler reads, and the registers of a circuit
    as sections of that memory. */
module SampleMemory {
  import opened Prelude
  import opened Bits
  import opened ResultDecoding
  import opened Text

  // -------------------------------------------------------------- hexadecimal text

  function HexDigit(n: nat): char
    requires n < 16
  {
    if n < 10 then '0' + n as char else 'a' + (n - 10) as char
  }

  function HexDigits(n: nat): (s: string)
    ensures s != []
  {
    if n < 16 then [HexDigit(n)] else HexDigits(n / 16) + [HexDigit(n % 16)]
  }

  /** Python's `hex` of a natural number. */
  function Hex(n: nat): string {
    "0x" + HexDigits(n)
  }

  function DigitOf(c: char): (r: Option<nat>)
    ensures r.Some? ==> r.value < 16
  {
    if '0' <= c <= '9' then Some((c - '0') as nat)
    else if 'a' <= c <= 'f' then Some((c - 'a') as nat + 10)
    else if 'A' <= c <= 'F' then Some((c - 'A') as nat + 10)
    else None
  }

  function ParseDigits(s: string): Option<nat> {
    if s == [] then None
    else
      var d := DigitOf(s[|s| - 1]);
      if d.None? then None
      else if |s| == 1 then d
      else
        var front := ParseDigits(s[..|s| - 1]);
        if front.None? then None else Some(16 * front.value + d.value)
  }

  predicate HexPrefixed(s: string) {
    "0x" <= s || "0X" <= s
  }

  /** `int(s, 16)` on digits with or without the prefix. */
  function ParseHex(s: string): Option<nat> {
    if HexPrefixed(s) then ParseDigits(s[2..]) else ParseDigits(s)
  }

  lemma DigitRoundTrip(n: nat)
    requires n < 16
    ensures DigitOf(HexDigit(n)) == Some(n)
  {
  }

  /** The sixteen digits: the small ones are written, either case is read. */
  lemma DigitsAre(c: char, n: nat)
    requires n < 16
    ensures HexDigit(n) == "0123456789abcdef"[n]
    ensures DigitOf(c) == Some(n) <==> c == "0123456789abcdef"[n] || c == "0123456789ABCDEF"[n]
  {
  }

  lemma ParseAppended(s: string, front: nat, d: nat)
    requires ParseDigits(s) == Some(front) && d < 16
    ensures ParseDigits(s + [HexDigit(d)]) == Some(16 * front + d)
  {
    DigitRoundTrip(d);
    assert (s + [HexDigit(d)])[..|s|] == s;
  }

  lemma {:induction false} HexRoundTrip(n: nat)
    ensures ParseDigits(HexDigits(n)) == Some(n)
  {
    if n < 16 {
      DigitRoundTrip(n);
    } else {
      HexRoundTrip(n / 16);
      ParseAppended(HexDigits(n / 16), n / 16, n % 16);
    }
  }

  // ----------------------------------------------------------- keys of a histogram

  /** The text without its spaces. */
  function Compact(s: string): string {
    if s == [] then [] else (if s[0] == ' ' then [] else [s[0]]) + Compact(s[1..])
  }

  /** The memory sample a counts key stands for. */
  function NormalizeSample(key: string): string {
    var sample := Strip(key);
    if HexPrefixed(sample) then sample
    else if Compact(sample) != [] && Binary(Compact(sample)) then Hex(Value(WordOf(Compact(sample))))
    else sample
  }

  lemma {:induction false} CompactAppends(s: string, c: char)
    ensures Compact(s + [c]) == Compact(s) + if c == ' ' then [] else [c]
  {
    if s == [] {
      assert s + [c] == [c];
    } else {
      assert (s + [c])[1..] == s[1..] + [c];
      CompactAppends(s[1..], c);
    }
  }

  /** Bits with spaces between and around the registers. */
  predicate BitKey(s: string) {
    forall i | 0 <= i < |s| :: s[i] == '0' || s[i] == '1' || s[i] == ' '
  }

  lemma {:induction false} StripKeepsBits(s: string)
    requires BitKey(s)
    ensures Compact(Strip(s)) == Compact(s) && BitKey(Strip(s))
    decreases |s|
  {
    if s != [] && IsSpace(s[0]) {
      StripKeepsBits(s[1..]);
    } else if s != [] && IsSpace(s[|s| - 1]) {
      var front := s[..|s| - 1];
      StripKeepsBits(front);
      assert s == front + [s[|s| - 1]];
      CompactAppends(front, s[|s| - 1]);
    }
  }

  lemma {:induction false} CompactIsBinary(s: string)
    requires BitKey(s)
    ensures Binary(Compact(s))
  {
    if s != [] {
      CompactIsBinary(s[1..]);
    }
  }

  /** Reading a key's memory sample as hexadecimal gives the number its bits
      spell, whatever spaces separate its registers. */
  lemma SampleValue(key: string)
    requires BitKey(key) && Compact(key) != []
    ensures ParseHex(NormalizeSample(key)) == Some(Value(WordOf(Compact(key))))
  {
    StripKeepsBits(key);
    CompactIsBinary(key);
    var n := Value(WordOf(Compact(key)));
    assert NormalizeSample(key) == Hex(n);
    HexRoundTrip(n);
    assert Hex(n)[2..] == HexDigits(n);
  }

  lemma {:induction false} OtherSigns(s: string)
    requires !BitKey(s)
    ensures !Binary(Compact(s)) && Compact(s) != []
  {
    if s[0] == '0' || s[0] == '1' || s[0] == ' ' {
      var i :| 0 <= i < |s| && s[i] != '0' && s[i] != '1' && s[i] != ' ';
      assert s[1..][i - 1] == s[i];
      OtherSigns(s[1..]);
      assert Compact(s)[if s[0] == ' ' then 0 else 1..] == Compact(s[1..]);
    } else {
      assert Compact(s)[0] == s[0];
    }
  }

  /** The text starts as hexadecimal numbers do, in either case. */
  ghost predicate SaysHex(s: string) {
    |s| >= 2 && s[0] == '0' && (s[1] == 'x' || s[1] == 'X')
  }

  /** Either prefix is read past, and a text without one is read whole. */
  lemma PrefixIsDropped(digits: string)
    ensures ParseHex("0x" + digits) == ParseDigits(digits) && ParseHex("0X" + digits) == ParseDigits(digits)
    ensures !SaysHex(digits) ==> ParseHex(digits) == ParseDigits(digits)
  {
    assert ("0x" + digits)[2..] == digits && ("0X" + digits)[2..] == digits;
  }

  /** Exactly the keys made of bits become numbers; hexadecimal keys, empty ones
      and any other text are kept as they are but for the blanks around them. */
  lemma SampleIs(key: string)
    ensures
      var s := Strip(key);
      if s != "" && BitKey(s)
      then "0x" <= NormalizeSample(key) && ParseHex(NormalizeSample(key)) == Some(Value(WordOf(Compact(s))))
      else NormalizeSample(key) == s
    ensures SaysHex(Strip(key)) ==> NormalizeSample(key) == Strip(key)
  {
    var s := Strip(key);
    StripIsBare(key);
    if s == "" {
    } else if BitKey(s) {
      StripKeepsBits(s);
      CompactIsBinary(s);
      HexRoundTrip(Value(WordOf(Compact(s))));
    } else {
      OtherSigns(s);
    }
  }

  lemma {:induction false} Pow2Grows(a: nat, b: nat)
    requires a <= b
    ensures Pow2(a) <= Pow2(b)
    decreases b
  {
    if a < b {
      Pow2Grows(a, b - 1);
    }
  }

  /** The number a key spells, as the memory holds it. */
  lemma KeyFits(key: string, numBytes: nat)
    requires BitKey(key) && 1 <= |Compact(key)| <= 8 * numBytes
    ensures
      var v := Value(WordOf(Compact(key)));
      ParseHex(NormalizeSample(key)) == Some(v) && v < Pow2(|Compact(key)|) && ToBytes(v, numBytes).Some?
  {
    SampleValue(key);
    var w := WordOf(Compact(key));
    ValueFits(w);
    Pow2Grows(|w|, 8 * numBytes);
    FitsInBytes(Value(w), numBytes);
  }

  /** From key to bytes: the packed field of a register is its section of the
      number the key spells. */
  lemma KeyToField(key: string, numBytes: nat, numBits: nat, start: nat)
    requires BitKey(key) && 1 <= |Compact(key)| <= 8 * numBytes
    requires numBits >= 1 && start + numBits <= 8 * numBytes
    ensures
      var v := ParseHex(NormalizeSample(key));
      && v.Some? && ToBytes(v.value, numBytes).Some?
      && |PackField(Unpack(ToBytes(v.value, numBytes).value), numBits, start)| == MinBytes(numBits)
      && BigEndian(PackField(Unpack(ToBytes(v.value, numBytes).value), numBits, start))
         == Value(WordOf(Compact(key))) / Pow2(start) % Pow2(numBits)
  {
    KeyFits(key, numBytes);
    var v := Value(WordOf(Compact(key)));
    FieldIsExact(v, numBytes, numBits, start, PackField(Unpack(ToBytes(v, numBytes).value), numBits, start));
  }

  // ------------------------------------------------------------------ shots in order

  function Repeat(s: string, n: nat): seq<string> {
    if n == 0 then [] else Repeat(s, n - 1) + [s]
  }

  /** Each key's sample as often as it was counted, in the order of the keys. */
  function Memory(items: seq<(string, nat)>): seq<string> {
    if items == [] then []
    else Memory(items[..|items| - 1]) + Repeat(NormalizeSample(items[|items| - 1].0), items[|items| - 1].1)
  }

  method MemoryFromCounts(items: seq<(string, nat)>) returns (m: seq<string>)
    ensures m == Memory(items)
  {
    m := [];
    for i := 0 to |items|
      invariant m == Memory(items[..i])
    {
      m := AppendSamples(m, NormalizeSample(items[i].0), items[i].1);
      assert items[..i + 1][..i] == items[..i];
    }
    assert items[..|items|] == items;
  }

  method AppendSamples(m0: seq<string>, sample: string, count: nat) returns (m: seq<string>)
    ensures m == m0 + Repeat(sample, count)
  {
    m := m0;
    for j := 0 to count
      invariant m == m0 + Repeat(sample, j)
    {
      m := m + [sample];
    }
  }

  function Shots(items: seq<(string, nat)>): nat {
    if items == [] then 0 else Shots(items[..|items| - 1]) + items[|items| - 1].1
  }

  function Occurrences(m: seq<string>, s: string): nat {
    multiset(m)[s]
  }

  lemma {:induction false} RepeatCounts(s: string, n: nat, t: string)
    ensures |Repeat(s, n)| == n && Occurrences(Repeat(s, n), t) == if s == t then n else 0
  {
    if n > 0 {
      RepeatCounts(s, n - 1, t);
    }
  }

  /** The shots that counted towards one sample. */
  function SampleShots(items: seq<(string, nat)>, s: string): nat {
    if items == [] then 0
    else SampleShots(items[..|items| - 1], s) +
         if NormalizeSample(items[|items| - 1].0) == s then items[|items| - 1].1 else 0
  }

  /** No shot is lost or invented: one entry per shot, and each sample as often as
      all the keys it stands for were counted. */
  lemma {:induction false} MemoryConservesShots(items: seq<(string, nat)>, s: string)
    ensures |Memory(items)| == Shots(items) && Occurrences(Memory(items), s) == SampleShots(items, s)
  {
    if items != [] {
      var (key, count) := items[|items| - 1];
      MemoryConservesShots(items[..|items| - 1], s);
      RepeatCounts(NormalizeSample(key), count, s);
    }
  }

  lemma {:induction false} RepeatAt(s: string, n: nat, k: nat)
    requires k < n
    ensures |Repeat(s, n)| == n && Repeat(s, n)[k] == s
  {
    if n > 1 {
      RepeatAt(s, n - 1, if k < n - 1 then k else 0);
    }
  }

  /** The shots of a key stand together, after those of the keys before it. */
  lemma {:induction false} MemoryInOrder(items: seq<(string, nat)>, i: nat, k: nat)
    requires i < |items| && k < items[i].1
    ensures Shots(items[..i]) + k < |Memory(items)|
    ensures Memory(items)[Shots(items[..i]) + k] == NormalizeSample(items[i].0)
    decreases |items|
  {
    var front := items[..|items| - 1];
    var (key, count) := items[|items| - 1];
    MemoryConservesShots(front, "");
    if i < |items| - 1 {
      MemoryInOrder(front, i, k);
      assert front[..i] == items[..i];
    } else {
      RepeatAt(NormalizeSample(key), count, k);
    }
  }

  // ------------------------------------------------------------- registers in a row

  datatype Register = Register(size: nat, first: nat)
  datatype MeasureInfo = MeasureInfo(numBits: nat, numBytes: nat, start: nat)

  ghost predicate InfoOf(creg: Register, info: MeasureInfo, numBytes: nat) {
    && info.numBits == creg.size && info.numBytes == MinBytes(creg.size)
    && info.start == (if creg.size != 0 then creg.first else 0)
    && info.start + info.numBits <= 8 * numBytes
  }

  /** Each register with its size, bytes and place, all inside `numBytes` bytes. */
  ghost predicate Analyzed(cregs: seq<Register>, infos: seq<MeasureInfo>, numBytes: nat) {
    |infos| == |cregs| && forall i | 0 <= i < |cregs| :: InfoOf(cregs[i], infos[i], numBytes)
  }

  /** Every register, and the fewest bytes that hold them all. */
  method AnalyzeCircuit(cregs: seq<Register>) returns (infos: seq<MeasureInfo>, numBytes: nat)
    ensures Analyzed(cregs, infos, numBytes)
    ensures numBytes > 0 ==> exists i :: 0 <= i < |cregs| && infos[i].start + infos[i].numBits > 8 * (numBytes - 1)
  {
    infos := [];
    var maxBits: nat := 0;
    for i := 0 to |cregs|
      invariant |infos| == i
      invariant forall k | 0 <= k < i ::
        && infos[k].numBits == cregs[k].size && infos[k].numBytes == MinBytes(cregs[k].size)
        && infos[k].start == (if cregs[k].size != 0 then cregs[k].first else 0)
        && infos[k].start + infos[k].numBits <= maxBits
      invariant maxBits > 0 ==> exists k :: 0 <= k < i && infos[k].start + infos[k].numBits == maxBits
    {
      var start := if cregs[i].size != 0 then cregs[i].first else 0;
      ghost var before, beforeMax := infos, maxBits;
      infos := infos + [MeasureInfo(cregs[i].size, MinBytes(cregs[i].size), start)];
      if maxBits < start + cregs[i].size {
        maxBits := start + cregs[i].size;
        assert infos[i].start + infos[i].numBits == maxBits;
      } else if maxBits > 0 {
        ghost var k :| 0 <= k < i && before[k].start + before[k].numBits == maxBits;
        assert infos[k] == before[k];
      }
    }
    numBytes := MinBytes(maxBits);
  }
}
