/** The inner computation of compute_block in collatz.c, on in-place long integers. */
module Compute {
  import opened RlInt
  import opened Collatz
  import opened Verdicts

  /** 3v + 1 wraps to zero for exactly one ten-limb value, (2^300 - 1) / 3. */
  lemma TripleWrapsToZero(v: nat)
    requires v < CAP
    ensures Wrap(3 * v + 1) == 0 <==> 3 * v + 1 == CAP
  {
    if 3 * v + 1 >= CAP {
      var x := 3 * v + 1 - CAP;
      assert Wrap(3 * v + 1) == Wrap(x);
      if x >= CAP {
        assert Wrap(x) == Wrap(x - CAP);
      }
    }
  }

  /** rl_f3n1 followed by rl_fdiv2: one step of the odd-to-odd map. */
  method OddRound(n: BigInt, overflow: OverflowFlag, builtin: bool) returns (defined: bool)
    requires n.Valid()
    modifies n, n.a, overflow
    ensures n.Valid()
    ensures defined <==> 3 * old(n.Val()) + 1 != CAP
    ensures overflow.raised == (old(overflow.raised) || 3 * old(n.Val()) + 1 >= CAP)
    ensures !overflow.raised ==> n.Val() == OddStep(old(n.Val()))
    ensures !overflow.raised && old(n.IsNormal()) ==> n.IsNormal()
  {
    FitsCap(n.a[..n.len]);
    TripleWrapsToZero(n.Val());
    n.TriplePlusOne(overflow);
    defined := n.DivideOutTwos(builtin);
  }

  /**
   * The do-while loop for one odd number: iterate 3n+1 and division by two until the value
   * is no longer above the water level. A flag that is up already ends it in the first round.
   */
  method CheckOdd(n: BigInt, waterlevel: BigInt, overflow: OverflowFlag, builtin: bool, budget: nat)
    returns (outcome: Outcome, left: nat)
    requires n.Valid() && waterlevel.Valid() && n != waterlevel && n.a != waterlevel.a
    requires !overflow.raised ==> n.IsNormal() && waterlevel.IsNormal()
    modifies n, n.a, overflow
    ensures n.Valid()
    ensures !old(overflow.raised) ==>
              && outcome == Verdict(old(n.Val()), waterlevel.Val(), budget, CAP)
              && left == budget - Rounds(old(n.Val()), waterlevel.Val(), budget, CAP)
              && (outcome == Checked ==> n.Val() == OddIterate(old(n.Val()), budget - left))
    ensures old(overflow.raised) ==>
              && outcome == (if budget == 0 then Running else if 3 * old(n.Val()) + 1 == CAP then Stuck else Overflowed)
              && left == if budget == 0 then 0 else budget - 1
    ensures overflow.raised == (old(overflow.raised) || outcome == Overflowed || outcome == Stuck)
  {
    left := budget;
    ghost var v, w, raised, k := n.Val(), waterlevel.Val(), overflow.raised, 0;
    while left > 0
      invariant n.Valid() && overflow.raised == raised && left + k == budget
      invariant raised ==> k == 0 && n.Val() == v
      invariant !raised ==> n.IsNormal() && n.Val() == OddIterate(v, k)
      invariant !raised ==> Verdict(v, w, budget, CAP) == Verdict(n.Val(), w, left, CAP)
      invariant !raised ==> Rounds(v, w, budget, CAP) == k + Rounds(n.Val(), w, left, CAP)
    {
      left := left - 1;
      var defined := OddRound(n, overflow, builtin);
      if !defined {
        return Stuck, left;
      }
      if overflow.raised {
        return Overflowed, left;
      }
      k := k + 1;
      var above := n.Greater(waterlevel);
      if above == 0 {
        return Checked, left;
      }
    }
    outcome := Running;
  }

  /** The sum is past the ten limbs and wraps to 0 or 1. */
  lemma SumWraps(w: nat)
    requires w < CAP <= w + 2
    ensures Wrap(w + 2) < 2 && 3 * Wrap(w + 2) + 1 != CAP
  {}

  /** Set n to the number after the water level. */
  method LoadNext(n: BigInt, waterlevel: BigInt, overflow: OverflowFlag)
    requires n.Valid() && waterlevel.Valid() && n != waterlevel && n.a != waterlevel.a
    modifies n, n.a, overflow
    ensures n.Valid() && (waterlevel.Val() + 2 < CAP || 3 * n.Val() + 1 != CAP)
    ensures overflow.raised == (old(overflow.raised) || waterlevel.Val() + 2 >= CAP)
    ensures waterlevel.Val() + 2 < CAP ==> n.Val() == waterlevel.Val() + 2
    ensures waterlevel.Val() + 2 < CAP && waterlevel.IsNormal() ==> n.IsNormal()
  {
    ghost var w := waterlevel.Val();
    FitsCap(waterlevel.a[..waterlevel.len]);
    n.Set(waterlevel);
    n.Add(2, overflow);
    if w + 2 >= CAP {
      SumWraps(w);
    }
  }

  /** One round of the block loop: check waterlevel + 2, then raise the water level to it. */
  method CheckNext(n: BigInt, waterlevel: BigInt, overflow: OverflowFlag, builtin: bool, budget: nat)
    returns (outcome: Outcome, left: nat)
    requires n.Valid() && waterlevel.Valid() && n != waterlevel && n.a != waterlevel.a
    requires !overflow.raised ==> waterlevel.IsNormal()
    modifies n, n.a, waterlevel, waterlevel.a, overflow
    ensures n.Valid() && waterlevel.Valid()
    ensures !old(overflow.raised) ==>
              && outcome == NextVerdict(old(waterlevel.Val()), budget, CAP)
              && left == budget - NextRounds(old(waterlevel.Val()), budget, CAP)
    ensures old(overflow.raised) || outcome == Overflowed || outcome == Stuck ==> overflow.raised
    ensures outcome == Checked ==>
              && !overflow.raised && waterlevel.IsNormal()
              && waterlevel.Val() == old(waterlevel.Val()) + 2 && Drops(waterlevel.Val())
  {
    ghost var w, raised := waterlevel.Val(), overflow.raised;
    LoadNext(n, waterlevel, overflow);
    outcome, left := CheckOdd(n, waterlevel, overflow, builtin, budget);
    if outcome == Checked {
      if !raised {
        CheckedDrops(w, budget, CAP);
      }
      waterlevel.Add(2, overflow);
    }
  }

  /**
   * The loop over the block: every odd number of (waterlevel, waterlevel + size] in turn,
   * raising the water level by two after each.
   */
  method CheckBlock(n: BigInt, waterlevel: BigInt, overflow: OverflowFlag, size: nat, builtin: bool, budget: nat)
    returns (outcome: Outcome)
    requires n.Valid() && waterlevel.Valid() && n != waterlevel && n.a != waterlevel.a
    requires !overflow.raised ==> waterlevel.IsNormal() && waterlevel.Val() % 2 == 1
    requires size % 2 == 0
    modifies n, n.a, waterlevel, waterlevel.a, overflow
    ensures n.Valid() && waterlevel.Valid()
    ensures old(overflow.raised) || outcome == Overflowed || outcome == Stuck ==> overflow.raised
    ensures !old(overflow.raised) ==> outcome == BlockVerdict(old(waterlevel.Val()), size, budget, CAP)
    ensures outcome == Checked && !old(overflow.raised) ==>
              !overflow.raised && BlockChecked(old(waterlevel.Val()), size)
    ensures old(overflow.raised) && size > 0 ==> outcome != Checked
  {
    ghost var start := waterlevel.Val();
    var left := budget;
    var i := 0;
    ghost var h, half := 0, size / 2;
    while i < size
      invariant i == 2 * h && size == 2 * half && 0 <= h <= half
      invariant n.Valid() && waterlevel.Valid()
      invariant overflow.raised == old(overflow.raised)
      invariant overflow.raised ==> i == 0
      invariant !overflow.raised ==> waterlevel.IsNormal() && waterlevel.Val() == start + i
      invariant !overflow.raised ==> BlockChecked(start, i)
      invariant !overflow.raised ==>
                  BlockVerdict(start, size, budget, CAP) == BlockVerdict(waterlevel.Val(), size - i, left, CAP)
    {
      outcome, left := CheckNext(n, waterlevel, overflow, builtin, left);
      if outcome != Checked {
        return;
      }
      if !overflow.raised {
        OneMoreChecked(start, h);
      }
      i, h := i + 2, h + 1;
    }
    outcome := Checked;
  }

  lemma OneMoreChecked(start: nat, h: nat)
    requires start % 2 == 1 && BlockChecked(start, 2 * h) && Drops(start + 2 * h + 2)
    ensures BlockChecked(start, 2 * h + 2)
  {
    forall m: nat | start < m <= start + 2 * h + 2 && m % 2 == 1
      ensures Drops(m)
    {
      if m > start + 2 * h {
        assert m == start + 2 * h + 2;
      }
    }
  }
}
