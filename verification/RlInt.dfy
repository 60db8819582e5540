/**
 * The "rather long" integers of rl_int.c: at most ten 30-bit limbs kept in 32-bit words,
 * updated in place, with one global overflow flag.
 */
module RlInt {
  import opened Words
  import opened Limbs

  /** 2^300: the first value that does not fit into ten limbs. */
  const CAP: nat := 0x1_000000000000000_000000000000000_000000000000000_000000000000000_000000000000000

  lemma CapIsWeight()
    ensures CAP == Weight(INT_LEN) == Pow2(300)
  {
    WeightIsPow2(INT_LEN);
    assert Weight(5) == 0x40000000000000000000000000000000000000;
    assert Weight(10) == LIMB * (LIMB * (LIMB * (LIMB * (LIMB * Weight(5)))));
  }

  /** What remains of x once everything above the ten limbs is lost. */
  ghost function Wrap(x: nat): (r: nat)
    ensures r < CAP && r <= x
    ensures x < CAP ==> r == x
    decreases x
  {
    if x < CAP then x else Wrap(x - CAP)
  }

  /** The global flag `rl_overflow`. */
  class OverflowFlag {
    var raised: bool

    constructor ()
      ensures !raised
    {
      raised := false;
    }
  }

  /** The struct `bigint_t`. */
  class BigInt {
    var len: nat
    const a: array<Word>

    ghost predicate Valid()
      reads this, a
    {
      a.Length == INT_LEN && 1 <= len <= INT_LEN && Limbed(a[..len])
    }

    ghost function Digits(): seq<Word>
      reads this, a
      requires Valid()
    {
      a[..len]
    }

    ghost function Val(): nat
      reads this, a
      requires Valid()
    {
      Value(a[..len])
    }

    ghost predicate IsNormal()
      reads this, a
      requires Valid()
    {
      Normal(a[..len])
    }

    constructor (limbs: seq<Word>)
      requires Normal(limbs) && |limbs| <= INT_LEN
      ensures Valid() && IsNormal() && Digits() == limbs && fresh(a)
    {
      len := |limbs|;
      a := new Word[INT_LEN](i => if 0 <= i < |limbs| then limbs[i] else 0);
      new;
      assert a[..len] == limbs;
    }

    /** rl_cmp: the sign of x - y. */
    method Compare(y: BigInt) returns (r: int)
      requires Valid() && y.Valid()
      ensures r == 0 || r == 1 || r == -1
      ensures IsNormal() && y.IsNormal() ==>
                (r == 1 <==> Val() > y.Val()) && (r == 0 <==> Val() == y.Val())
    {
      var i: int := len;
      ghost var s, t := a[..len], y.a[..y.len];
      if i > y.len {
        if Normal(s) && Normal(t) { LongerIsLarger(t, s); }
        return 1;
      }
      if i < y.len {
        if Normal(s) && Normal(t) { LongerIsLarger(s, t); }
        return -1;
      }
      i := i - 1;
      while a[i] == y.a[i]
        invariant 0 <= i < len == y.len
        invariant s[i + 1..] == t[i + 1..]
        decreases i
      {
        if i == 0 {
          assert s[0] == t[0];
          assert s == [s[0]] + s[1..] == [t[0]] + t[1..] == t;
          return 0;
        }
        assert s[i..] == [s[i]] + s[i + 1..] == [t[i]] + t[i + 1..] == t[i..];
        i := i - 1;
      }
      assert s[i] == a[i] && t[i] == y.a[i];
      if a[i] > y.a[i] {
        ValueCompare(t, s, i);
        return 1;
      }
      ValueCompare(s, t, i);
      return -1;
    }

    /** rl_equal: 0 for equal numbers and 1 otherwise. */
    method Equal(y: BigInt) returns (r: int)
      requires Valid() && y.Valid()
      ensures r == 0 || r == 1
      ensures r == 0 <==> Digits() == y.Digits()
      ensures IsNormal() && y.IsNormal() ==> (r == 0 <==> Val() == y.Val())
    {
      ghost var s, t := a[..len], y.a[..y.len];
      if Normal(s) && Normal(t) && Value(s) == Value(t) {
        NormalUnique(s, t);
      }
      if len != y.len {
        return 1;
      }
      for i := 0 to len
        invariant s[..i] == t[..i]
      {
        if a[i] != y.a[i] {
          assert s[i] != t[i];
          return 1;
        }
        assert s[..i + 1] == s[..i] + [s[i]] && t[..i + 1] == t[..i] + [t[i]];
      }
      assert s == s[..len] && t == t[..len];
      return 0;
    }

    /** rl_greater: 1 if x > y and 0 otherwise. */
    method Greater(y: BigInt) returns (r: int)
      requires Valid() && y.Valid()
      ensures r == 0 || r == 1
      ensures IsNormal() && y.IsNormal() ==> (r == 1 <==> Val() > y.Val())
    {
      var i: int, j: int := len, y.len;
      ghost var s, t := a[..len], y.a[..y.len];
      if i > j {
        if Normal(s) && Normal(t) { LongerIsLarger(t, s); }
        return 1;
      }
      if i < j {
        if Normal(s) && Normal(t) { LongerIsLarger(s, t); }
        return 0;
      }
      i := i - 1;
      while a[i] == y.a[i] && i != 0
        invariant 0 <= i < len == y.len
        invariant s[i + 1..] == t[i + 1..]
        decreases i
      {
        assert s[i..] == [s[i]] + s[i + 1..] == [t[i]] + t[i + 1..] == t[i..];
        i := i - 1;
      }
      assert s[i] == a[i] && t[i] == y.a[i];
      if a[i] > y.a[i] {
        ValueCompare(t, s, i);
        return 1;
      }
      if a[i] < y.a[i] {
        ValueCompare(s, t, i);
      } else {
        assert s == [s[0]] + s[1..] == [t[0]] + t[1..] == t;
      }
      return 0;
    }

    /** rl_set: copy the limbs in use. */
    method Set(y: BigInt)
      requires y.Valid() && a.Length == INT_LEN && a != y.a && this != y
      modifies this, a
      ensures Valid() && Digits() == y.Digits()
      ensures Val() == y.Val() && (IsNormal() <==> y.IsNormal())
    {
      len := y.len;
      for i := 0 to y.len
        invariant len == y.len
        invariant a[..i] == y.a[..i]
      {
        a[i] := y.a[i];
      }
    }

    /** The limbs as they arrive in a received packet. */
    method Load(limbs: seq<Word>)
      requires a.Length == INT_LEN && Normal(limbs) && |limbs| <= INT_LEN
      modifies this, a
      ensures Valid() && Digits() == limbs && IsNormal() && Val() == Value(limbs)
    {
      len := |limbs|;
      for i := 0 to |limbs|
        invariant len == |limbs|
        invariant a[..i] == limbs[..i]
      {
        a[i] := limbs[i];
      }
      assert limbs[..|limbs|] == limbs;
    }

    /** Store the payload of a limb's sum and return its carry. */
    method PutSum(i: nat, r: Word) returns (c: Word)
      requires i < len <= a.Length
      modifies a
      ensures a[..len] == old(a[..len])[i := r % LIMB]
      ensures c == r / LIMB
    {
      PayloadAndCarry(r);
      c := ShiftRight(r, BLEN);
      a[i] := BitAnd(r, MASK);
    }

    /**
     * Both carry loops end alike: a carry out of the top limb becomes a new limb, or it is
     * lost and the overflow flag goes up.
     */
    method StoreCarry(c: Word, overflow: OverflowFlag, ghost s: seq<Word>, ghost triple: bool, ghost k: nat)
      requires a.Length == INT_LEN && 1 <= len == |s| <= INT_LEN
      requires 0 < c < LIMB && Carrying(a[..len], s, len, triple, c, k)
      modifies this, a, overflow
      ensures Valid() && Val() == Wrap(Scale(triple, Value(s)) + k)
      ensures overflow.raised == (old(overflow.raised) || Scale(triple, Value(s)) + k >= CAP)
      ensures Scale(triple, Value(s)) + k < CAP ==> IsNormal()
    {
      if len >= INT_LEN {
        CarryLost(a[..len], s, triple, c, k);
        overflow.raised := true;
      } else {
        CarryExtends(a[..len], s, triple, c, k);
        a[len] := c;
        len := len + 1;
        assert a[..len] == a[..len - 1] + [c];
      }
    }

    /** rl_add. */
    method Add(amount: Word, overflow: OverflowFlag)
      requires Valid() && amount <= 3 * LIMB
      modifies this, a, overflow
      ensures Valid()
      ensures Val() == Wrap(old(Val()) + amount)
      ensures overflow.raised == (old(overflow.raised) || old(Val()) + amount >= CAP)
      ensures old(IsNormal()) && old(Val()) + amount < CAP ==> IsNormal()
    {
      ghost var s := a[..len];
      var c: Word := amount;
      for i := 0 to len
        invariant len == |s| && 1 <= len <= INT_LEN == a.Length
        invariant Carrying(a[..len], s, i, false, c, amount)
        invariant c <= 3 * LIMB && (i > 0 ==> 0 < c <= 3)
        invariant overflow.raised == old(overflow.raised)
      {
        CarryInput(a[..len], s, i, false, c, amount);
        var r: Word := a[i] + c;
        CarryRound(a[..len], s, i, false, c, amount, r);
        c := PutSum(i, r);
        if c == 0 {
          CarryStops(a[..len], s, i + 1, amount);
          return;
        }
      }
      StoreCarry(c, overflow, s, false, amount);
    }

    /** rl_f3n1: x becomes 3 x + 1. */
    method TriplePlusOne(overflow: OverflowFlag)
      requires Valid()
      modifies this, a, overflow
      ensures Valid()
      ensures Val() == Wrap(3 * old(Val()) + 1)
      ensures overflow.raised == (old(overflow.raised) || 3 * old(Val()) + 1 >= CAP)
      ensures old(IsNormal()) && 3 * old(Val()) + 1 < CAP ==> IsNormal()
    {
      ghost var s := a[..len];
      var c: Word := 1;
      for i := 0 to len
        invariant len == |s| && 1 <= len <= INT_LEN == a.Length
        invariant Carrying(a[..len], s, i, true, c, 1)
        invariant c <= 2
        invariant overflow.raised == old(overflow.raised)
      {
        CarryInput(a[..len], s, i, true, c, 1);
        assert Pow2(1) == 2;
        var r: Word := a[i] + ShiftLeft(a[i], 1) + c;
        CarryRound(a[..len], s, i, true, c, 1, r);
        c := PutSum(i, r);
      }
      if c != 0 {
        StoreCarry(c, overflow, s, true, 1);
      } else {
        CarryAbsorbed(a[..len], s, true, 1);
      }
    }

    /**
     * rl_fdiv2: shift out every trailing zero, first by whole limbs, then by bits. The
     * number of bits comes from the compiler builtin or from the portable loop. The source
     * has no defined behaviour on zero, where its scan for a non-zero limb leaves the number;
     * `defined` is false in that case and nothing is changed.
     */
    method DivideOutTwos(builtin: bool) returns (defined: bool)
      requires Valid()
      modifies this, a
      ensures Valid()
      ensures defined <==> old(Val()) > 0
      ensures defined ==> Val() == OddPart(old(Val()))
      ensures old(IsNormal()) ==> IsNormal()
    {
      ghost var d;
      defined, d := DropLowZeroLimbs();
      if defined {
        OddPartRaise(Val(), d);
        ShiftOutBits(builtin);
      }
    }

    /** Shift out the trailing zeros of the lowest limb. */
    method ShiftOutBits(builtin: bool)
      requires Valid() && a[0] != 0
      modifies this, a
      ensures Valid() && old(Val()) > 0 && Val() == OddPart(old(Val()))
      ensures old(IsNormal()) ==> IsNormal()
    {
      ghost var s := a[..len];
      assert s[0] == a[0];
      var k: nat;
      if builtin {
        k := Ctz(a[0]);
      } else {
        k := PortableCtz(a[0]);
      }
      LimbCtz(s[0]);
      if k != 0 {
        ShiftBits(k);
        ShiftedOutTwos(s, a[..len], k);
        StripTop();
      } else {
        ShiftedOutTwos(s, s, 0);
      }
    }

    /** Shift whole limbs down until the lowest one is non-zero. */
    method DropLowZeroLimbs() returns (found: bool, ghost d: nat)
      requires Valid()
      modifies this, a
      ensures Valid() && (found <==> old(Val()) > 0)
      ensures if found then a[0] != 0 && old(Val()) == Raise(Val(), d) else Digits() == old(Digits())
      ensures old(IsNormal()) ==> IsNormal()
    {
      ghost var s := a[..len];
      d := 0;
      if a[0] == 0 {
        var k := 1;
        while k < len && a[k] == 0
          invariant 1 <= k <= len == |s| <= a.Length
          invariant forall j :: 0 <= j < k ==> s[j] == 0
        {
          k := k + 1;
        }
        if k == len {
          ValueOfZeros(s);
          return false, d;
        }
        assert s[k] != 0;
        d := k;
        MoveDown(k);
        assert a[0] == s[d..][0] == s[d];
        DropZeroLimbs(s, d);
        RaiseIsProduct(Val(), d);
        ProductAtLeast(Val(), Weight(d));
      }
      found := true;
      assert Val() >= a[..len][0] > 0;
    }

    /** Forget the k lowest limbs. */
    method MoveDown(from: nat)
      requires Valid() && 1 <= from < len
      modifies this, a
      ensures Valid() && a[..len] == old(a[from..len])
    {
      ghost var s := a[..len];
      var i, k := 0, from;
      while k < len
        invariant 0 <= i && from <= k == i + from <= len == |s|
        invariant a[..i] == s[from..k] && a[k..len] == s[k..]
      {
        assert a[k] == a[k..len][0] == s[k];
        ghost var moved := a[..i];
        a[i] := a[k];
        assert a[..i + 1] == moved + [s[k]] == s[from..k + 1];
        assert a[k + 1..len] == s[k + 1..];
        i, k := i + 1, k + 1;
      }
      len := i;
      assert a[..len] == s[from..];
    }

    /** Shift all limbs right by fewer than 30 bits. */
    method ShiftBits(k: nat)
      requires Valid() && 0 < k < BLEN
      modifies a
      ensures Valid() && IsShifted(old(a[..len]), a[..len], k)
    {
      ghost var s := a[..len];
      var p := BLEN - k;
      for i := 1 to len
        invariant forall j :: 0 <= j < i - 1 ==> a[j] < LIMB && a[j] == ShiftedLimb(s[j + 1], s[j], k)
        invariant forall j :: i - 1 <= j < len ==> a[j] == s[j]
      {
        ShiftPair(a[i], a[i - 1], k);
        a[i - 1] := BitOr(BitAnd(ShiftLeft(a[i], p), MASK), ShiftRight(a[i - 1], k));
      }
      a[len - 1] := ShiftRight(a[len - 1], k);
    }

    /** Drop zero limbs from the top. */
    method StripTop()
      requires Valid() && Val() > 0
      modifies this
      ensures Valid() && IsNormal() && Val() == old(Val())
    {
      while a[len - 1] == 0
        invariant Valid() && Val() == old(Val()) > 0
        decreases len
      {
        ghost var s, n := a[..len], len - 1;
        ValueSnoc(s, n);
        assert s[..n + 1] == s && s[..n] == a[..n];
        assert n > 0;
        len := len - 1;
      }
    }
  }

  // ----- carry arithmetic

  /** The factor of the two carry loops: 3 in rl_f3n1 and 1 in rl_add. */
  function Scale(triple: bool, x: nat): nat {
    if triple then 3 * x else x
  }

  /**
   * The state of a carry loop that turns s into Scale(s) + k in place: limbs below i of t are
   * done, the others are untouched, and c is the carry into limb i.
   */
  ghost predicate Carrying(t: seq<Word>, s: seq<Word>, i: nat, triple: bool, c: nat, k: nat) {
    && |t| == |s| && i <= |s|
    && Limbed(t[..i]) && t[i..] == s[i..]
    && Value(t[..i]) + Raise(c, i) == Scale(triple, Value(s[..i])) + k
  }

  /** The loop reads an untouched limb. */
  lemma CarryInput(t: seq<Word>, s: seq<Word>, i: nat, triple: bool, c: nat, k: nat)
    requires Carrying(t, s, i, triple, c, k) && i < |s|
    ensures t[i] == s[i]
  {
    assert t[i] == t[i..][0] && s[i] == s[i..][0];
  }

  /** One round: r is the 32-bit sum for limb i. */
  lemma CarryRound(t: seq<Word>, s: seq<Word>, i: nat, triple: bool, c: nat, k: nat, r: Word)
    requires Carrying(t, s, i, triple, c, k) && i < |s| && r == Scale(triple, s[i]) + c
    ensures Carrying(t[i := r % LIMB], s, i + 1, triple, r / LIMB, k)
  {
    var d: Word := r % LIMB;
    var t' := t[i := d];
    assert t'[i + 1..] == t[i..][1..] == s[i..][1..] == s[i + 1..];
    assert t'[..i] == t[..i];
    assert t'[..i + 1] == t[..i] + [d];
    ValueSnoc(t', i);
    ValueSnoc(s, i);
    CarryStep(i, r);
    RaiseIsProduct(c, i);
    RaiseIsProduct(r / LIMB, i + 1);
    CarryAlgebra(Weight(i), triple, s[i], c, Value(s[..i]));
  }

  /** The carry dies out: only the low limbs changed. */
  lemma CarryStops(t: seq<Word>, s: seq<Word>, i: nat, k: nat)
    requires Carrying(t, s, i, false, 0, k) && Limbed(s) && 1 <= |s| <= INT_LEN
    ensures Limbed(t) && Value(t) == Wrap(Value(s) + k) == Value(s) + k < CAP
    ensures Normal(s) ==> Normal(t)
  {
    ValueSplit(t, i);
    ValueSplit(s, i);
    RaiseIsProduct(0, i);
    forall j | 0 <= j < |t|
      ensures t[j] < LIMB
    {
      if j < i {
        assert t[j] == t[..i][j];
      } else {
        assert t[j] == t[i..][j - i] == s[j];
      }
    }
    NormalKept(t, s);
    FitsCap(t);
  }

  lemma FitsCap(t: seq<Word>)
    requires Limbed(t) && |t| <= INT_LEN
    ensures Value(t) < CAP
  {
    ValueBound(t);
    WeightMonotonic(|t|, INT_LEN);
    CapIsWeight();
  }

  /** No carry is left after the top limb. */
  lemma CarryAbsorbed(t: seq<Word>, s: seq<Word>, triple: bool, k: nat)
    requires Carrying(t, s, |s|, triple, 0, k) && Limbed(s) && 1 <= |s| <= INT_LEN
    ensures Limbed(t) && Value(t) == Wrap(Scale(triple, Value(s)) + k) == Scale(triple, Value(s)) + k < CAP
    ensures Normal(s) ==> Normal(t)
  {
    assert t[..|s|] == t && s[..|s|] == s;
    RaiseIsProduct(0, |s|);
    NormalKept(t, s);
    FitsCap(t);
  }

  /** The last carry becomes a new top limb. */
  lemma CarryExtends(t: seq<Word>, s: seq<Word>, triple: bool, c: Word, k: nat)
    requires Carrying(t, s, |s|, triple, c, k) && 1 <= |s| < INT_LEN && 0 < c < LIMB
    ensures Limbed(t + [c]) && Normal(t + [c])
    ensures Value(t + [c]) == Wrap(Scale(triple, Value(s)) + k) == Scale(triple, Value(s)) + k < CAP
  {
    assert t[..|s|] == t && s[..|s|] == s;
    ValueAppend(t, [c]);
    assert Value([c]) == c;
    RaiseIsProduct(c, |s|);
    FitsCap(t + [c]);
  }

  /** The last carry out of ten limbs is lost. */
  lemma CarryLost(t: seq<Word>, s: seq<Word>, triple: bool, c: nat, k: nat)
    requires Carrying(t, s, |s|, triple, c, k) && |s| == INT_LEN && c > 0
    ensures Limbed(t) && Value(t) == Wrap(Scale(triple, Value(s)) + k) && Scale(triple, Value(s)) + k >= CAP
  {
    assert t[..|s|] == t && s[..|s|] == s;
    ValueBound(t);
    RaiseIsProduct(c, |s|);
    CapIsWeight();
    WrapIs(Value(t), c, Scale(triple, Value(s)) + k);
  }

  lemma CarryAlgebra(w: nat, triple: bool, x: nat, c: nat, v: nat)
    ensures w * (Scale(triple, x) + c) + Scale(triple, v) == w * c + Scale(triple, v + w * x)
  {
    Distribute(w, Scale(triple, x), c);
  }

  /** Ten limbs plus a carry out of them hold the true value modulo 2^300. */
  lemma {:induction false} WrapIs(v: nat, c: nat, x: nat)
    requires v < CAP && v + CAP * c == x
    ensures Wrap(x) == v && (c > 0 ==> x >= CAP)
    decreases c
  {
    if c > 0 {
      Distribute(CAP, c, 1);
      WrapIs(v, c - 1, x - CAP);
    }
  }

  /** A number that does not shrink below its normal predecessor needs all its limbs. */
  lemma NormalKept(t: seq<Word>, s: seq<Word>)
    requires Limbed(t) && |t| == |s| >= 1 && Limbed(s) && Value(t) >= Value(s)
    ensures Normal(s) ==> Normal(t)
  {
    if Normal(s) && |s| > 1 {
      NormalLowerBound(s);
      if t[|t| - 1] == 0 {
        TopZeroIsSmall(t);
      }
    }
  }
}
