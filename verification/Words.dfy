/** Unsigned 32-bit words and the bit operations rl_int.c applies to them. */
module Words {

  const WORD: int := 0x1_0000_0000

  /** A C `uint32_t`. Assigning to it obliges the verifier to show that nothing wraps. */
  type Word = x: int | 0 <= x < WORD

  function Pow2(k: nat): (p: nat)
    ensures p >= 1
  {
    if k == 0 then 1 else 2 * Pow2(k - 1)
  }

  /** Bitwise `x & y`, one binary digit at a time. */
  function BitAnd(x: nat, y: nat): nat
    decreases x
  {
    if x == 0 || y == 0 then 0
    else 2 * BitAnd(x / 2, y / 2) + (if x % 2 == 1 && y % 2 == 1 then 1 else 0)
  }

  /** Bitwise `x | y`, one binary digit at a time. */
  function BitOr(x: nat, y: nat): nat
    decreases x + y
  {
    if x == 0 && y == 0 then 0
    else 2 * BitOr(x / 2, y / 2) + (if x % 2 == 1 || y % 2 == 1 then 1 else 0)
  }

  /** `x << k`, truncated to 32 bits. */
  function ShiftLeft(x: Word, k: nat): Word {
    x * Pow2(k) % WORD
  }

  /** `x >> k`, one binary digit at a time. */
  function ShiftRight(x: nat, k: nat): (r: nat)
    ensures r <= x
    decreases k
  {
    if k == 0 then x else ShiftRight(x / 2, k - 1)
  }

  /** The k lowest bits of x. */
  function LowBits(x: nat, k: nat): (r: nat)
    decreases k
  {
    if k == 0 then 0 else x % 2 + 2 * LowBits(x / 2, k - 1)
  }

  /** The number of trailing zero bits, which is what `__builtin_ctzl` returns. */
  function Ctz(x: nat): nat
    requires x > 0
  {
    if x % 2 == 1 then 0 else 1 + Ctz(x / 2)
  }

  /** x without its factors of two. */
  function OddPart(x: nat): (y: nat)
    requires x > 0
    ensures y % 2 == 1 && y <= x
  {
    if x % 2 == 1 then x else OddPart(x / 2)
  }

  // ----- small facts about products, quotients and remainders

  lemma Swap(a: int, b: int, c: int)
    ensures a * (b * c) == b * (a * c)
  {}

  lemma Distribute(a: int, b: int, c: int)
    ensures a * (b + c) == a * b + a * c
    ensures a * (b - c) == a * b - a * c
  {}

  lemma ProductAtLeast(d: nat, k: nat)
    requires k >= 1
    ensures d * k >= d
  {}

  lemma ProductMonotonic(m: nat, x: int, y: int)
    requires x <= y
    ensures m * x <= m * y
  {}

  lemma CancelLess(m: nat, x: int, y: int)
    requires m * x < m * y
    ensures x < y
  {
    if y <= x {
      ProductMonotonic(m, y, x);
    }
  }

  lemma RemainderUnique(d: nat, q: int, r: int, q': int, r': int)
    requires d * q + r == d * q' + r' && 0 <= r < d && 0 <= r' < d
    ensures q == q'
  {
    assert d * (q' - q) == r - r';
    assert d * (q - q') == r' - r;
    if q < q' {
      ProductAtLeast(d, q' - q);
    } else if q' < q {
      ProductAtLeast(d, q - q');
    }
  }

  lemma Pow2Add(a: nat, b: nat)
    ensures Pow2(a + b) == Pow2(a) * Pow2(b)
  {
    if a != 0 {
      Pow2Add(a - 1, b);
      assert Pow2(a) * Pow2(b) == 2 * (Pow2(a - 1) * Pow2(b));
    }
  }

  lemma Pow2Word()
    ensures Pow2(30) == 0x4000_0000
    ensures Pow2(32) == WORD
  {
    assert Pow2(8) == 256;
    assert Pow2(16) == 0x1_0000 by { Pow2Add(8, 8); }
    assert Pow2(24) == 0x100_0000 by { Pow2Add(16, 8); }
    assert Pow2(6) == 64;
    Pow2Add(24, 6);
    Pow2Add(24, 8);
  }

  // ----- what the bit operations compute

  /** The bits shifted out and the bits that stay make up the number. */
  lemma {:induction false} ShiftSplits(x: nat, k: nat)
    ensures x == Pow2(k) * ShiftRight(x, k) + LowBits(x, k)
    ensures LowBits(x, k) < Pow2(k)
  {
    if k > 0 {
      ShiftSplits(x / 2, k - 1);
      Doubling(Pow2(k - 1), ShiftRight(x / 2, k - 1));
    }
  }

  /** Shifting by one more place halves. */
  lemma {:induction false} ShiftOnce(x: nat, k: nat)
    ensures ShiftRight(x, k + 1) == ShiftRight(x, k) / 2
  {
    if k > 0 {
      ShiftOnce(x / 2, k - 1);
    }
  }

  /** The payload and the carry of a 32-bit sum: `r & MASK` and `r >> BLEN`. */
  lemma PayloadAndCarry(r: Word)
    ensures BitAnd(r, 0x3fff_ffff) == r % 0x4000_0000
    ensures ShiftRight(r, 30) == r / 0x4000_0000
  {
    Pow2Word();
    MaskIsLowBits(r, 30);
    ShiftSplits(r, 30);
    SplitByLimb(r, ShiftRight(r, 30), LowBits(r, 30));
  }

  lemma SplitByLimb(r: nat, q: nat, d: nat)
    requires r == 0x4000_0000 * q + d && d < 0x4000_0000
    ensures q == r / 0x4000_0000 && d == r % 0x4000_0000
  {}

  /** Masking with 2^k - 1 keeps the k lowest bits. */
  lemma {:induction false} MaskIsLowBits(x: nat, k: nat)
    ensures BitAnd(x, Pow2(k) - 1) == LowBits(x, k)
  {
    if x == 0 {
      LowBitsOfZero(k);
    } else if k > 0 {
      MaskIsLowBits(x / 2, k - 1);
    }
  }

  lemma LowBitsOfZero(k: nat)
    ensures LowBits(0, k) == 0 && ShiftRight(0, k) == 0
  {}

  /** Testing one bit: `x & (1 << p)` is non-zero exactly when bit p of x is set. */
  lemma {:induction false} SingleBit(x: nat, p: nat)
    ensures BitAnd(x, Pow2(p)) != 0 <==> ShiftRight(x, p) % 2 == 1
  {
    if x == 0 {
      LowBitsOfZero(p);
    } else if p == 0 {
      assert BitAnd(x / 2, 0) == 0;
    } else {
      SingleBit(x / 2, p - 1);
    }
  }

  /** OR-ing together bits that do not overlap adds them. */
  lemma {:induction false} DisjointOrIsSum(hi: nat, lo: nat, k: nat)
    requires LowBits(hi, k) == 0 && lo < Pow2(k)
    ensures BitOr(hi, lo) == hi + lo
    decreases k
  {
    if k == 0 {
      OrZero(hi);
    } else if hi != 0 || lo != 0 {
      DisjointOrIsSum(hi / 2, lo / 2, k - 1);
    }
  }

  lemma OrZero(x: nat)
    ensures BitOr(x, 0) == x
  {}

  /** x = 2^ctz(x) * oddpart(x): shifting out the trailing zeros leaves the odd part. */
  lemma {:induction false} CtzFactors(x: nat)
    requires x > 0
    ensures x == Pow2(Ctz(x)) * OddPart(x)
  {
    if x % 2 == 0 {
      CtzFactors(x / 2);
    }
  }

  /** Shifting by the number of trailing zeros leaves the odd part and loses nothing. */
  lemma {:induction false} CtzShifts(x: nat)
    requires x > 0
    ensures ShiftRight(x, Ctz(x)) == OddPart(x) && LowBits(x, Ctz(x)) == 0
  {
    if x % 2 == 0 {
      CtzShifts(x / 2);
    }
  }

  lemma DoubleFactor(x: nat, a: nat)
    ensures x * (2 * a) == 2 * (x * a)
  {}

  lemma LowBitsOfDouble(y: nat, p: nat)
    requires p > 0
    ensures LowBits(2 * y, p) == 2 * LowBits(y, p - 1)
  {
    var d := 2 * y;
    assert d / 2 == y && d % 2 == 0;
  }

  /** A multiple of 2^p has p zero bits at the bottom. */
  lemma {:induction false} LowBitsOfMultiple(x: nat, p: nat)
    ensures LowBits(x * Pow2(p), p) == 0
  {
    if p > 0 {
      LowBitsOfMultiple(x, p - 1);
      DoubleFactor(x, Pow2(p - 1));
      LowBitsOfDouble(x * Pow2(p - 1), p);
    }
  }

  /** Shifting left does not change the odd part. */
  lemma {:induction false} OddPartShift(x: nat, j: nat)
    requires x > 0
    ensures Pow2(j) * x > 0 && OddPart(Pow2(j) * x) == OddPart(x)
  {
    if j > 0 {
      OddPartShift(x, j - 1);
      Doubling(Pow2(j - 1), x);
      OddPartDouble(Pow2(j - 1) * x);
    }
  }

  lemma Doubling(a: nat, x: nat)
    ensures (2 * a) * x == 2 * (a * x)
  {}

  lemma OddPartDouble(x: nat)
    requires x > 0
    ensures OddPart(2 * x) == OddPart(x)
  {}

  /** A limb has fewer than 30 trailing zeros. */
  lemma CtzBound(x: nat, k: nat)
    requires 0 < x < Pow2(k)
    ensures Ctz(x) < k
  {
    if x % 2 == 0 {
      CtzBound(x / 2, k - 1);
    }
  }

  /**
   * The portable branch of rl_fdiv2: start from the complement of the lowest bit and
   * then count the zeros of n >> 1.
   */
  method PortableCtz(n: Word) returns (k: nat)
    requires n > 0
    ensures k == Ctz(n)
  {
    k := if BitAnd(n, 1) == 1 then 0 else 1;
    MaskIsLowBits(n, 1);
    if k != 0 {
      var n0 := ShiftRight(n, 1);
      while BitAnd(n0, 1) != 1
        invariant n0 > 0 && k >= 1
        invariant Ctz(n) == k + Ctz(n0)
        decreases n0
      {
        MaskIsLowBits(n0, 1);
        n0 := ShiftRight(n0, 1);
        k := k + 1;
      }
      MaskIsLowBits(n0, 1);
    }
  }
}
