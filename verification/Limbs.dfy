/** Values of little-endian sequences of 30-bit limbs. */
module Limbs {
  import opened Words

  /** Number of limbs in a `bigint_t` and the payload of one limb. */
  const INT_LEN: nat := 10
  const BLEN: nat := 30
  const LIMB: int := 0x4000_0000
  const MASK: Word := 0x3fff_ffff

  predicate Limbed(s: seq<Word>) {
    forall i :: 0 <= i < |s| ==> s[i] < LIMB
  }

  /** No leading zero limb, except that zero itself is written with one limb. */
  predicate Normal(s: seq<Word>) {
    Limbed(s) && |s| >= 1 && (|s| == 1 || s[|s| - 1] != 0)
  }

  /** The weight of limb n, which is 2^(30 n). */
  function Weight(n: nat): (w: nat)
    ensures w >= 1
  {
    if n == 0 then 1 else LIMB * Weight(n - 1)
  }

  /** c moved up by n limbs. */
  function Raise(c: nat, n: nat): nat
    decreases n
  {
    if n == 0 then c else LIMB * Raise(c, n - 1)
  }

  function Value(s: seq<Word>): nat {
    if s == [] then 0 else s[0] + LIMB * Value(s[1..])
  }

  lemma {:induction false} WeightIsPow2(n: nat)
    ensures Weight(n) == Pow2(30 * n)
  {
    if n > 0 {
      WeightIsPow2(n - 1);
      Pow2Add(30, 30 * (n - 1));
      Pow2Word();
    }
  }

  lemma {:induction false} RaiseIsProduct(c: nat, n: nat)
    ensures Raise(c, n) == Weight(n) * c
  {
    if n > 0 {
      RaiseIsProduct(c, n - 1);
      assert Weight(n) * c == LIMB * (Weight(n - 1) * c);
    }
  }

  lemma {:induction false} ValueAppend(s: seq<Word>, t: seq<Word>)
    ensures Value(s + t) == Value(s) + Weight(|s|) * Value(t)
  {
    if s == [] {
      assert s + t == t;
    } else {
      assert (s + t)[1..] == s[1..] + t;
      ValueAppend(s[1..], t);
      AppendAlgebra(Value(s[1..]), Weight(|s| - 1), Value(t));
    }
  }

  lemma AppendAlgebra(b: nat, w: nat, c: nat)
    ensures LIMB * (b + w * c) == LIMB * b + LIMB * w * c
  {}

  /** Splitting a number at limb i. */
  lemma ValueSplit(s: seq<Word>, i: nat)
    requires i <= |s|
    ensures Value(s) == Value(s[..i]) + Weight(i) * Value(s[i..])
  {
    assert s == s[..i] + s[i..];
    ValueAppend(s[..i], s[i..]);
  }

  /** Extending a prefix by one limb. */
  lemma ValueSnoc(s: seq<Word>, i: nat)
    requires i < |s|
    ensures Value(s[..i + 1]) == Value(s[..i]) + Weight(i) * s[i]
  {
    assert s[..i + 1] == s[..i] + [s[i]];
    ValueAppend(s[..i], [s[i]]);
    assert Value([s[i]]) == s[i];
  }

  lemma {:induction false} ValueBound(s: seq<Word>)
    requires Limbed(s)
    ensures Value(s) < Weight(|s|)
  {
    if s != [] {
      ValueBound(s[1..]);
    }
  }

  /** A normal number with n limbs is at least the weight of its top limb. */
  lemma NormalLowerBound(s: seq<Word>)
    requires Normal(s) && |s| > 1
    ensures Value(s) >= Weight(|s| - 1)
  {
    var i := |s| - 1;
    ValueSplit(s, i);
    assert s[i..] == [s[i]];
    assert Value([s[i]]) == s[i];
    ProductAtLeast(Weight(i), s[i]);
  }

  lemma TopZeroIsSmall(t: seq<Word>)
    requires Limbed(t) && |t| >= 1 && t[|t| - 1] == 0
    ensures Value(t) < Weight(|t| - 1)
  {
    var n := |t| - 1;
    ValueSnoc(t, n);
    assert t[..n + 1] == t;
    ValueBound(t[..n]);
  }

  lemma WeightMonotonic(m: nat, n: nat)
    requires m <= n
    ensures Weight(m) <= Weight(n)
  {
    if m < n {
      WeightMonotonic(m, n - 1);
    }
  }

  lemma LimbDominates(w: nat, a: nat, x: nat, b: nat, y: nat)
    requires a < w && x < y
    ensures a + w * x < b + w * y
  {
    Distribute(w, y, x);
    ProductAtLeast(w, y - x);
  }

  /** A number is larger than every number with the same upper part and a smaller limb below it. */
  lemma ValueCompare(s: seq<Word>, t: seq<Word>, i: nat)
    requires Limbed(s) && Limbed(t) && |s| == |t| && i < |s|
    requires s[i + 1..] == t[i + 1..] && s[i] < t[i]
    ensures Value(s) < Value(t)
  {
    ValueSplit(s, i + 1);
    ValueSplit(t, i + 1);
    ValueSnoc(s, i);
    ValueSnoc(t, i);
    ValueBound(s[..i]);
    LimbDominates(Weight(i), Value(s[..i]), s[i], Value(t[..i]), t[i]);
  }

  /** The longer of two normal numbers is the larger one. */
  lemma LongerIsLarger(s: seq<Word>, t: seq<Word>)
    requires Normal(s) && Normal(t) && |s| < |t|
    ensures Value(s) < Value(t)
  {
    ValueBound(s);
    NormalLowerBound(t);
    WeightMonotonic(|s|, |t| - 1);
  }

  /** A value has exactly one normal representation. */
  lemma {:induction false} NormalUnique(s: seq<Word>, t: seq<Word>)
    requires Normal(s) && Normal(t) && Value(s) == Value(t)
    ensures s == t
  {
    if |s| < |t| {
      LongerIsLarger(s, t);
    } else if |t| < |s| {
      LongerIsLarger(t, s);
    } else {
      SameLengthUnique(s, t);
    }
  }

  lemma {:induction false} SameLengthUnique(s: seq<Word>, t: seq<Word>)
    requires Limbed(s) && Limbed(t) && |s| == |t| && Value(s) == Value(t)
    ensures s == t
  {
    if s != [] {
      RemainderUnique(LIMB, Value(s[1..]), s[0], Value(t[1..]), t[0]);
      SameLengthUnique(s[1..], t[1..]);
      assert s == [s[0]] + s[1..] && t == [t[0]] + t[1..];
    }
  }

  // ----- carries

  /** One step of a carry loop: the weighted digit sum splits into digit and carry. */
  lemma CarryStep(i: nat, r: nat)
    ensures Weight(i) * r == Weight(i) * (r % LIMB) + Weight(i + 1) * (r / LIMB)
  {
    assert r == LIMB * (r / LIMB) + r % LIMB;
    assert Weight(i + 1) * (r / LIMB) == Weight(i) * (LIMB * (r / LIMB));
  }

  // ----- shifting right across limbs

  /** Dropping k low limbs that are zero divides by their weight. */
  lemma DropZeroLimbs(s: seq<Word>, k: nat)
    requires k <= |s| && forall i :: 0 <= i < k ==> s[i] == 0
    ensures Value(s) == Weight(k) * Value(s[k..])
  {
    ValueSplit(s, k);
    ValueOfZeros(s[..k]);
  }

  lemma {:induction false} ValueOfZeros(s: seq<Word>)
    requires forall i :: 0 <= i < |s| ==> s[i] == 0
    ensures Value(s) == 0
  {
    if s != [] {
      ValueOfZeros(s[1..]);
    }
  }

  /** The limb that results from moving the k low bits of `hi` above `lo >> k`. */
  function ShiftedLimb(hi: Word, lo: Word, k: nat): nat
    requires k <= BLEN
  {
    LowBits(hi, k) * Pow2(BLEN - k) + ShiftRight(lo, k)
  }

  predicate IsShifted(s: seq<Word>, t: seq<Word>, k: nat)
    requires k <= BLEN
  {
    && |t| == |s| >= 1
    && t[|s| - 1] == ShiftRight(s[|s| - 1], k)
    && forall i :: 0 <= i < |s| - 1 ==> t[i] == ShiftedLimb(s[i + 1], s[i], k)
  }

  /** The low and the high parts of the limbs of a number. */
  function Lows(s: seq<Word>, k: nat): (low: seq<nat>)
    ensures |low| == |s| && forall i :: 0 <= i < |s| ==> low[i] == LowBits(s[i], k)
  {
    seq(|s|, i requires 0 <= i < |s| => LowBits(s[i], k))
  }

  function Highs(s: seq<Word>, k: nat): (high: seq<nat>)
    ensures |high| == |s| && forall i :: 0 <= i < |s| ==> high[i] == ShiftRight(s[i], k)
  {
    seq(|s|, i requires 0 <= i < |s| => ShiftRight(s[i], k))
  }

  lemma PartsOfLimbs(s: seq<Word>, k: nat, m: nat)
    requires m == Pow2(k)
    ensures forall i :: 0 <= i < |s| ==> s[i] == m * Highs(s, k)[i] + Lows(s, k)[i]
  {
    forall i | 0 <= i < |s|
      ensures s[i] == m * Highs(s, k)[i] + Lows(s, k)[i]
    {
      ShiftSplits(s[i], k);
    }
  }

  /** Limb-wise shifting is division by 2^k of the whole number. */
  lemma ShiftDivides(s: seq<Word>, t: seq<Word>, k: nat)
    requires k <= BLEN && IsShifted(s, t, k)
    ensures Pow2(k) * Value(t) + LowBits(s[0], k) == Value(s)
  {
    var m, p := Pow2(k), Pow2(BLEN - k);
    Complement(k);
    PartsOfLimbs(s, k, m);
    RegroupLimbs(s, t, Highs(s, k), Lows(s, k), m, p);
  }

  lemma Complement(k: nat)
    requires k <= BLEN
    ensures Pow2(k) * Pow2(BLEN - k) == LIMB
  {
    Pow2Add(k, BLEN - k);
    Pow2Word();
  }

  /** Cutting every limb into high and low part and regrouping them across limb boundaries. */
  lemma {:induction false} RegroupLimbs(s: seq<Word>, t: seq<Word>, high: seq<nat>, low: seq<nat>, m: nat, p: nat)
    requires |s| == |t| == |high| == |low| >= 1 && m * p == LIMB
    requires forall i :: 0 <= i < |s| ==> s[i] == m * high[i] + low[i]
    requires forall i :: 0 <= i < |s| - 1 ==> t[i] == low[i + 1] * p + high[i]
    requires t[|s| - 1] == high[|s| - 1]
    ensures m * Value(t) + low[0] == Value(s)
  {
    assert s[0] == m * high[0] + low[0];
    if |s| == 1 {
      assert s[1..] == [] && t[1..] == [];
    } else {
      RegroupLimbs(s[1..], t[1..], high[1..], low[1..], m, p);
      ShiftAlgebra(m, p, low[1], high[0], low[0], Value(t[1..]));
    }
  }

  lemma ShiftAlgebra(m: nat, p: nat, h: nat, q: nat, r: nat, u: nat)
    requires m * p == LIMB
    ensures m * (h * p + q + LIMB * u) + r == m * q + r + LIMB * (m * u + h)
  {
    Swap(m, h, p);
    Swap(m, LIMB, u);
    Distribute(m, h * p + q, LIMB * u);
    Distribute(m, h * p, q);
  }

  /** What the C expression `(hi << p & MASK) | (lo >> k)` with p = BLEN - k computes. */
  lemma ShiftPair(hi: Word, lo: Word, k: nat)
    requires hi < LIMB && lo < LIMB && k <= BLEN
    ensures BitOr(BitAnd(ShiftLeft(hi, BLEN - k), MASK), ShiftRight(lo, k)) == ShiftedLimb(hi, lo, k) < LIMB
  {
    var p, h := BLEN - k, LowBits(hi, k);
    PairParts(hi, lo, k, p, h);
    LowBitsOfMultiple(h, p);
    DisjointOrIsSum(h * Pow2(p), ShiftRight(lo, k), p);
  }

  /** The masked left shift keeps exactly the low part of `hi`, above the bits of `lo >> k`. */
  lemma PairParts(hi: Word, lo: Word, k: nat, p: nat, h: nat)
    requires hi < LIMB && lo < LIMB && k <= BLEN && p == BLEN - k && h == LowBits(hi, k)
    ensures BitAnd(ShiftLeft(hi, p), MASK) == h * Pow2(p)
    ensures ShiftRight(lo, k) < Pow2(p) && h * Pow2(p) + ShiftRight(lo, k) < LIMB
  {
    Complement(k);
    ShiftSplits(hi, k);
    ShiftSplits(lo, k);
    PairAlgebra(Pow2(k), Pow2(p), hi, ShiftRight(hi, k), h, lo, ShiftRight(lo, k), LowBits(lo, k));
    PayloadAndCarry(ShiftLeft(hi, p));
  }

  lemma PairAlgebra(m: nat, p: nat, hi: nat, q: nat, h: nat, lo: nat, l: nat, r: nat)
    requires m * p == LIMB && p >= 1
    requires hi == m * q + h && h < m
    requires lo == m * l + r && lo < LIMB
    ensures hi * p % WORD % LIMB == h * p
    ensures l < p && h * p + l < LIMB
  {
    CancelLess(m, l, p);
    LowPart(m, p, h);
    PairProduct(m, p, q, h);
    QuotientOfLimb(hi * p, q, h * p);
  }

  lemma LowPart(m: nat, p: nat, h: nat)
    requires m * p == LIMB && h < m
    ensures h * p + p <= LIMB
  {
    ProductMonotonic(p, h + 1, m);
  }

  lemma QuotientOfLimb(x: nat, q: nat, d: nat)
    requires x == LIMB * q + d && d < LIMB
    ensures x % WORD % LIMB == d
  {}

  lemma PairProduct(m: nat, p: nat, q: nat, h: nat)
    requires m * p == LIMB
    ensures (m * q + h) * p == LIMB * q + h * p
  {
    Swap(p, m, q);
    Distribute(p, m * q, h);
    Swap(m, p, q);
    assert m * (p * q) == (m * p) * q;
  }

  /** Shifting out the zeros of the first non-zero limb leaves the odd part of the whole number. */
  lemma ShiftedOutTwos(s: seq<Word>, t: seq<Word>, k: nat)
    requires |s| >= 1 && 0 < s[0] < LIMB && k == Ctz(s[0]) < BLEN
    requires IsShifted(s, t, k)
    ensures Value(s) > 0 && Value(t) == OddPart(Value(s))
  {
    CtzShifts(s[0]);
    ShiftDivides(s, t, k);
    ShiftedIsOdd(s, t, k);
    OddPartShift(Value(t), k);
  }

  lemma {:induction false} OddPartRaise(x: nat, d: nat)
    requires x > 0
    ensures Raise(x, d) > 0 && OddPart(Raise(x, d)) == OddPart(x)
  {
    if d > 0 {
      OddPartRaise(x, d - 1);
      OddPartShift(Raise(x, d - 1), 30);
      Pow2Word();
    }
  }

  lemma ShiftedIsOdd(s: seq<Word>, t: seq<Word>, k: nat)
    requires |s| >= 1 && s[0] > 0 && k == Ctz(s[0]) < BLEN && IsShifted(s, t, k)
    ensures Value(t) > 0 && Value(t) % 2 == 1 && OddPart(Value(t)) == Value(t)
  {
    CtzShifts(s[0]);
    if |s| > 1 {
      ShiftedLimbParity(s[1], s[0], k);
    }
    ValueParity(t);
  }

  lemma ShiftedLimbParity(hi: Word, lo: Word, k: nat)
    requires k < BLEN
    ensures ShiftedLimb(hi, lo, k) % 2 == ShiftRight(lo, k) % 2
  {
    EvenProduct(LowBits(hi, k), BLEN - k, ShiftRight(lo, k));
  }

  lemma ValueParity(t: seq<Word>)
    requires |t| >= 1
    ensures Value(t) % 2 == t[0] % 2
  {}

  lemma LimbCtz(x: Word)
    requires 0 < x < LIMB
    ensures Ctz(x) < BLEN
    ensures ShiftRight(x, Ctz(x)) == OddPart(x) && LowBits(x, Ctz(x)) == 0
  {
    Pow2Word();
    CtzBound(x, BLEN);
    CtzShifts(x);
  }

  lemma EvenProduct(x: nat, p: nat, r: nat)
    requires p > 0
    ensures (x * Pow2(p) + r) % 2 == r % 2
  {
    EvenSum(x, Pow2(p - 1), r);
  }

  lemma EvenSum(x: nat, y: nat, r: nat)
    ensures (x * (2 * y) + r) % 2 == r % 2
  {
    Swap(x, 2, y);
    EvenPlus(x * y, r);
  }

  lemma EvenPlus(e: nat, r: nat)
    ensures (2 * e + r) % 2 == r % 2
  {}
}
