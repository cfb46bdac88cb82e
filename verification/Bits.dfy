/** Binary words, most significant bit first, and the numbers they stand for. */
module Bits {

  type Word = seq<bool>

  /** `x` times two to the power `n`, by doubling. */
  function Scale(x: nat, n: nat): nat {
    if n == 0 then x else 2 * Scale(x, n - 1)
  }

  /** `x` divided by two to the power `n`, by halving. */
  function Shift(x: nat, n: nat): nat {
    if n == 0 then x else Shift(x, n - 1) / 2
  }

  /** The remainder of `x` by two to the power `n`, bit by bit. */
  function Low(x: nat, n: nat): nat {
    if n == 0 then 0 else 2 * Low(x / 2, n - 1) + x % 2
  }

  function Pow2(n: nat): (p: nat)
    ensures p >= 1
  {
    if n == 0 then 1 else 2 * Pow2(n - 1)
  }

  function Value(w: Word): nat {
    if w == [] then 0 else 2 * Value(w[..|w| - 1]) + if w[|w| - 1] then 1 else 0
  }

  /** The low `n` bits of `v`. */
  function ToWord(v: nat, n: nat): (w: Word)
    ensures |w| == n
  {
    if n == 0 then [] else ToWord(v / 2, n - 1) + [v % 2 == 1]
  }

  /** The word of `n` zeros. */
  function Falses(n: nat): (w: Word)
    ensures |w| == n
  {
    seq(n, _ => false)
  }

  // ------------------------------------------------------- halving and division

  lemma {:induction false} ShiftIsDivision(x: nat, n: nat)
    ensures Shift(x, n) == x / Pow2(n)
  {
    if n > 0 {
      ShiftIsDivision(x, n - 1);
      DivDiv(x, Pow2(n - 1), 2);
      assert Pow2(n - 1) * 2 == Pow2(n);
    }
  }

  lemma {:induction false} LowIsRemainder(x: nat, n: nat)
    ensures Low(x, n) == x % Pow2(n)
  {
    if n > 0 {
      LowIsRemainder(x / 2, n - 1);
      ModProduct(x, 2, Pow2(n - 1));
    }
  }

  /** Division undoes multiplication. */
  lemma DivMod(q: nat, d: nat, r: nat)
    requires r < d
    ensures (q * d + r) / d == q && (q * d + r) % d == r
  {
    var x := q * d + r;
    var k := x / d - q;
    assert x == d * (x / d) + x % d;
    assert d * k == r - x % d by {
      assert d * (x / d) - d * q == d * k;
    }
    Multiple(d, k);
  }

  lemma Multiple(d: int, k: int)
    requires d > 0
    ensures k >= 1 ==> d * k >= d
    ensures k <= -1 ==> d * k <= -d
  {
  }

  lemma Distributes(c: nat, a: nat, b: nat)
    ensures c * (a + b) == c * a + c * b
  {
  }

  lemma Regroups(c: nat, d: nat, q: nat)
    ensures c * (d * q) == q * (c * d)
  {
  }

  /** A digit below `d` leaves room for one more. */
  lemma RoomFor(c: nat, r: nat, d: nat)
    requires r < d
    ensures c * r + c <= c * d
  {
    var k: nat := d - r - 1;
    Distributes(c, r + 1, k);
    Distributes(c, r, 1);
    assert c * (r + 1) == c * r + c;
    assert c * k >= 0;
  }

  /** `x` written with digits of size c, d and the rest. */
  lemma Digits(x: nat, c: nat, d: nat)
    requires c >= 1 && d >= 1
    ensures c * d >= 1
    ensures 0 <= c * (x / c % d) + x % c < c * d
    ensures x == (x / c / d) * (c * d) + (c * (x / c % d) + x % c)
  {
    var q, r := x / c, x % c;
    var q', r' := q / d, q % d;
    assert x == c * q + r && q == d * q' + r';
    DigitsJoin(c, d, q, r, q', r');
  }

  lemma DigitsJoin(c: nat, d: nat, q: nat, r: nat, q': nat, r': nat)
    requires r < c && r' < d && q == d * q' + r'
    ensures c * d >= 1 && 0 <= c * r' + r < c * d && c * q + r == q' * (c * d) + (c * r' + r)
  {
    RoomFor(c, r', d);
    Distributes(c, d * q', r');
    Regroups(c, d, q');
    assert c * r' >= 0;
  }

  lemma DivDiv(x: nat, c: nat, d: nat)
    requires c >= 1 && d >= 1
    ensures c * d >= 1 && x / (c * d) == x / c / d
  {
    Digits(x, c, d);
    var q, r := x / c / d, c * (x / c % d) + x % c;
    DivMod(q, c * d, r);
    assert x == q * (c * d) + r;
  }

  lemma ModProduct(x: nat, c: nat, d: nat)
    requires c >= 1 && d >= 1
    ensures c * d >= 1 && x % (c * d) == x % c + c * (x / c % d)
  {
    Digits(x, c, d);
    var q, r := x / c / d, c * (x / c % d) + x % c;
    DivMod(q, c * d, r);
    assert x == q * (c * d) + r;
  }

  // ------------------------------------------------------------ words and values

  lemma {:induction false} ValueJoins(a: Word, b: Word)
    ensures Value(a + b) == Scale(Value(a), |b|) + Value(b)
    decreases |b|
  {
    if b == [] {
      assert a + b == a;
    } else {
      var front := b[..|b| - 1];
      assert (a + b)[..|a + b| - 1] == a + front;
      ValueJoins(a, front);
    }
  }

  lemma {:induction false} ValueFits(w: Word)
    ensures Value(w) < Pow2(|w|)
  {
    if w != [] {
      ValueFits(w[..|w| - 1]);
    }
  }

  lemma {:induction false} WordValue(v: nat, n: nat)
    ensures Value(ToWord(v, n)) == Low(v, n)
    decreases n
  {
    if n > 0 {
      WordValue(v / 2, n - 1);
      assert ToWord(v, n)[..n - 1] == ToWord(v / 2, n - 1);
    }
  }

  /** Dropping the last bits halves, keeping only the last ones takes the rest. */
  lemma {:induction false} DropValue(w: Word, n: nat)
    requires n <= |w|
    ensures Value(w[..|w| - n]) == Shift(Value(w), n)
    decreases n
  {
    if n == 0 {
      assert w[..|w|] == w;
    } else {
      DropValue(w, n - 1);
      var front := w[..|w| - (n - 1)];
      assert front[..|front| - 1] == w[..|w| - n];
    }
  }

  lemma {:induction false} KeepValue(w: Word, n: nat)
    requires n <= |w|
    ensures Value(w[|w| - n..]) == Low(Value(w), n)
    decreases n
  {
    if n > 0 {
      var front := w[..|w| - 1];
      KeepValue(front, n - 1);
      var kept := w[|w| - n..];
      assert kept[..n - 1] == front[|front| - (n - 1)..];
      assert kept[n - 1] == w[|w| - 1];
      LowOfNext(Value(front), if w[|w| - 1] then 1 else 0, n);
    }
  }

  lemma LowOfNext(v: nat, bit: nat, n: nat)
    requires n > 0 && bit <= 1
    ensures Low(2 * v + bit, n) == 2 * Low(v, n - 1) + bit
  {
    assert (2 * v + bit) / 2 == v && (2 * v + bit) % 2 == bit;
  }

  lemma {:induction false} LeadingZeros(n: nat, w: Word)
    ensures Value(Falses(n) + w) == Value(w)
  {
    ZeroValue(n);
    ValueJoins(Falses(n), w);
    ScaleZero(|w|);
  }

  lemma {:induction false} ScaleZero(n: nat)
    ensures Scale(0, n) == 0
  {
    if n > 0 {
      ScaleZero(n - 1);
    }
  }

  lemma {:induction false} ZeroValue(n: nat)
    ensures Value(Falses(n)) == 0
  {
    if n > 0 {
      assert Falses(n)[..n - 1] == Falses(n - 1);
      ZeroValue(n - 1);
    }
  }

  lemma {:induction false} ScaleTwice(x: nat, a: nat, b: nat)
    ensures Scale(Scale(x, a), b) == Scale(x, a + b)
    decreases b
  {
    if b > 0 {
      ScaleTwice(x, a, b - 1);
      assert a + b - 1 == a + (b - 1);
    }
  }

  lemma ScaleByte(x: nat)
    ensures Scale(x, 8) == 256 * x
  {
    ScaleTwice(x, 2, 2);
    ScaleTwice(x, 4, 4);
    ScaleByFour(x);
    ScaleByFour(Scale(x, 2));
    ScaleTwice(Scale(x, 4), 2, 2);
    ScaleByFour(Scale(x, 4));
    ScaleByFour(Scale(Scale(x, 4), 2));
  }

  lemma ScaleByFour(x: nat)
    ensures Scale(x, 2) == 4 * x
  {
    assert Scale(x, 1) == 2 * Scale(x, 0);
  }

  lemma {:induction false} ShiftAhead(v: nat, n: nat)
    requires n > 0
    ensures Shift(v, n) == Shift(v / 2, n - 1)
  {
    if n > 1 {
      ShiftAhead(v, n - 1);
    }
  }

  /** The low bits split into a low and a high part. */
  lemma {:induction false} LowSplits(v: nat, a: nat, b: nat)
    ensures Low(v, a + b) == Low(v, a) + Scale(Low(Shift(v, a), b), a)
    decreases a
  {
    if a > 0 {
      LowSplits(v / 2, a - 1, b);
      ShiftAhead(v, a);
      assert a + b - 1 == a - 1 + b;
    }
  }

  lemma {:induction false} LowOfSmall(v: nat, n: nat)
    requires v < Pow2(n)
    ensures Low(v, n) == v
    decreases n
  {
    if n > 0 {
      LowOfSmall(v / 2, n - 1);
    }
  }

  lemma {:induction false} Pow2Adds(a: nat, b: nat)
    ensures Pow2(a + b) == Pow2(a) * Pow2(b)
    decreases b
  {
    if b > 0 {
      Pow2Adds(a, b - 1);
      assert Pow2(a + b) == 2 * Pow2(a + (b - 1));
      DoubleLast(Pow2(a), Pow2(b - 1));
    }
  }

  lemma DoubleLast(x: nat, y: nat)
    ensures x * (2 * y) == 2 * (x * y)
  {
  }

  lemma Pow2Byte()
    ensures Pow2(8) == 256
  {
    assert Pow2(4) == 16;
  }
}
