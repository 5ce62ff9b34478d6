/** 64-bit counters: wrapping arithmetic and masked indices, against unbounded ones. */
module Words {
  const LIMIT: nat := 0x1_0000_0000_0000_0000

  type Word = x: int | 0 <= x < LIMIT witness 0

  function WrapAdd(a: nat, b: nat): (r: Word) { (a + b) % LIMIT }

  function WrapSub(a: nat, b: nat): (r: Word) { (a - b) % LIMIT }

  /** Wrapping arithmetic on words wraps at most once. */
  lemma SubCases(a: Word, b: Word)
    ensures WrapSub(a, b) == if a >= b then a - b else a - b + LIMIT
  {}

  lemma AddCases(a: Word, n: nat)
    requires n < LIMIT
    ensures WrapAdd(a, n) == if a + n < LIMIT then a + n else a + n - LIMIT
  {}

  lemma AddTwice(a: nat, m: nat, n: nat)
    ensures WrapAdd(WrapAdd(a, m), n) == WrapAdd(a, m + n)
  {}

  lemma AddZero(a: Word)
    ensures WrapAdd(a, 0) == a
  {}

  function Pow2(k: nat): (p: nat)
    ensures p > 0
  {
    if k == 0 then 1 else 2 * Pow2(k - 1)
  }

  /** Bitwise and, bit by bit. */
  function And(x: nat, y: nat): (r: nat) {
    if x == 0 then 0 else (x % 2) * (y % 2) + 2 * And(x / 2, y / 2)
  }

  lemma {:induction false} AndZero(x: nat)
    ensures And(x, 0) == 0
  {
    if x != 0 { AndZero(x / 2); }
  }

  lemma DoubleMod(x: nat, m: nat)
    requires m > 0
    ensures x % (2 * m) == x % 2 + 2 * ((x / 2) % m)
  {
    var q := (x / 2) / m;
    assert x / 2 == m * q + (x / 2) % m;
    assert x == 2 * (x / 2) + x % 2;
    assert x == (2 * m) * q + (x % 2 + 2 * ((x / 2) % m));
    ModUnique(x, 2 * m, q, x % 2 + 2 * ((x / 2) % m));
  }

  /** A non-zero multiple of m is at least m in size. */
  lemma Multiples(m: nat, d: int)
    ensures d >= 1 ==> m * d >= m
    ensures d == 0 ==> m * d == 0
    ensures d <= -1 ==> m * d <= 0 - m
  {}

  /** Quotient and remainder are unique. */
  lemma ModUnique(x: int, m: nat, q: int, r: int)
    requires x == m * q + r && 0 <= r < m
    ensures x % m == r
  {
    var q', r' := x / m, x % m;
    assert m * q + r == m * q' + r';
    assert m * (q - q') == r' - r;
    Multiples(m, q - q');
  }

  /** Masking with a power of two less one is the remainder: what `& mask` relies on. */
  lemma {:induction false} AndMask(x: nat, k: nat)
    ensures And(x, Pow2(k) - 1) == x % Pow2(k)
  {
    if k == 0 {
      AndZero(x);
    } else if x != 0 {
      var m := Pow2(k - 1);
      AndMask(x / 2, k - 1);
      assert (2 * m - 1) % 2 == 1 && (2 * m - 1) / 2 == m - 1;
      DoubleMod(x, m);
    }
  }

  /** The remainder by a power of two, one bit at a time. */
  function Low(x: nat, k: nat): (r: nat)
    ensures r < Pow2(k)
  {
    if k == 0 then 0 else x % 2 + 2 * Low(x / 2, k - 1)
  }

  lemma {:induction false} LowIsMod(x: nat, k: nat)
    ensures Low(x, k) == x % Pow2(k)
  {
    if k != 0 {
      LowIsMod(x / 2, k - 1);
      DoubleMod(x, Pow2(k - 1));
    }
  }

  lemma {:induction false} Pow2Sum(a: nat, b: nat)
    ensures Pow2(a + b) == Pow2(a) * Pow2(b)
  {
    if a != 0 { Pow2Sum(a - 1, b); }
  }

  lemma SquareOf(k: nat, p: nat)
    requires Pow2(k) == p
    ensures Pow2(2 * k) == p * p
  {
    Pow2Sum(k, k);
  }

  lemma LimitIsPow2(k: nat)
    requires k == 64
    ensures Pow2(k) == LIMIT
  {
    var a, b, c := k / 32, k / 8, k / 2;
    assert Pow2(a) == 4;
    SquareOf(a, 4);
    SquareOf(b / 2, 16);
    SquareOf(b, 0x100);
    SquareOf(c / 2, 0x10000);
    SquareOf(c, 0x1_0000_0000);
  }

  lemma ModOfMod(x: nat, m: nat, n: nat)
    requires m > 0 && n > 0
    ensures m * n > 0 && (x % (m * n)) % m == x % m
  {
    var q := x / (m * n);
    assert x == (m * n) * q + x % (m * n);
    var y := x % (m * n);
    assert y == m * (y / m) + y % m;
    assert (m * n) * q == m * (n * q);
    assert x == m * (n * q + y / m) + y % m;
    ModUnique(x, m, n * q + y / m, y % m);
  }

  /** The slot index of a counter that has wrapped is that of the unbounded counter. */
  lemma WrappedIndex(x: nat, k: nat)
    requires k <= 64
    ensures And(x % LIMIT, Pow2(k) - 1) == Low(x, k)
  {
    LowIsMod(x, k);
    LimitIsPow2(64);
    Pow2Sum(k, 64 - k);
    AndMask(x % LIMIT, k);
    ModOfMod(x, Pow2(k), Pow2(64 - k));
  }

  /** Adding to a wrapped counter. */
  lemma WrappedAdd(x: nat, n: nat)
    requires n < LIMIT
    ensures WrapAdd(x % LIMIT, n) == (x + n) % LIMIT
  {}

  /** The distance between two wrapped counters. */
  lemma WrappedSub(x: nat, y: nat)
    requires y <= x < y + LIMIT
    ensures WrapSub(x % LIMIT, y % LIMIT) == x - y
  {}

  lemma ModsDiffer(i: nat, j: nat, cap: nat)
    requires i < j < i + cap
    ensures i % cap != j % cap
  {
    var q, r := i / cap, i % cap;
    var q', r' := j / cap, j % cap;
    assert i == cap * q + r && j == cap * q' + r';
    assert j - i == cap * (q' - q) + (r' - r);
    Multiples(cap, q' - q);
  }

  /** Two counters less than a capacity apart have different slots. */
  lemma SlotsDiffer(i: nat, j: nat, k: nat)
    requires i < j < i + Pow2(k)
    ensures Low(i, k) != Low(j, k)
  {
    LowIsMod(i, k);
    LowIsMod(j, k);
    ModsDiffer(i, j, Pow2(k));
  }

  lemma ModPlus(i: nat, j: nat, m: nat)
    requires m > 0 && i % m + j < m
    ensures (i + j) % m == i % m + j
  {
    ModUnique(i + j, m, i / m, i % m + j);
  }

  /** Slots of a contiguous range that does not pass the end of the buffer. */
  lemma SlotInRange(i: nat, j: nat, k: nat)
    requires Low(i, k) + j < Pow2(k)
    ensures Low(i + j, k) == Low(i, k) + j
  {
    var m := Pow2(k);
    assert i % m + j < m by { LowIsMod(i, k); }
    ModPlus(i, j, m);
    LowIsMod(i + j, k);
    LowIsMod(i, k);
  }

  lemma NextMultiple(x: nat, m: nat)
    requires m > 0
    ensures (x + (m - x % m)) % m == 0
  {
    assert x == m * (x / m) + x % m;
    assert m * (x / m + 1) == m * (x / m) + m;
    ModUnique(x + (m - x % m), m, x / m + 1, 0);
  }

  /** The slot after the last one is the first. */
  lemma SlotAfterEnd(x: nat, k: nat)
    ensures Low(x + (Pow2(k) - Low(x, k)), k) == 0
  {
    LowIsMod(x, k);
    LowIsMod(x + (Pow2(k) - Low(x, k)), k);
    NextMultiple(x, Pow2(k));
  }
}
