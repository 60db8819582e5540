/**
 * How the computation of a block ends, as a function of its numbers, the number of rounds it may
 * take and the first value that no longer fits the long integers.
 */
module Verdicts {
  import opened Collatz

  /**
   * `Stuck` is the one place where the source leaves defined behaviour: rl_f3n1 has wrapped to
   * zero and rl_fdiv2 would scan past the limbs. `Running` says that the given number of rounds
   * was not enough.
   */
  datatype Outcome = Checked | Overflowed | Stuck | Running

  /** The inner loop from value v on, with water level w. */
  function Verdict(v: nat, w: nat, budget: nat, cap: nat): Outcome
    decreases budget
  {
    if budget == 0 then Running
    else if 3 * v + 1 == cap then Stuck
    else if 3 * v + 1 > cap then Overflowed
    else if OddStep(v) <= w then Checked
    else Verdict(OddStep(v), w, budget - 1, cap)
  }

  /** The rounds it takes. */
  function Rounds(v: nat, w: nat, budget: nat, cap: nat): (r: nat)
    ensures r <= budget
    decreases budget
  {
    if budget == 0 then 0
    else if 3 * v + 1 >= cap || OddStep(v) <= w then 1
    else 1 + Rounds(OddStep(v), w, budget - 1, cap)
  }

  // ----- in terms of the iterates

  /** Round j neither overflows nor comes down to the water level. */
  ghost predicate GoesOn(v: nat, w: nat, j: nat, cap: nat) {
    3 * OddIterate(v, j) + 1 < cap && OddIterate(v, j + 1) > w
  }

  /** The first k rounds all go on. */
  ghost predicate Climbs(v: nat, w: nat, k: nat, cap: nat) {
    forall j: nat :: j < k ==> GoesOn(v, w, j, cap)
  }

  /** The next round is the last one, and how it ends. */
  ghost predicate Stops(v: nat, w: nat, k: nat, o: Outcome, cap: nat) {
    && Climbs(v, w, k, cap)
    && var x := 3 * OddIterate(v, k) + 1;
       match o
       case Checked => x < cap && OddIterate(v, k + 1) <= w
       case Overflowed => x > cap
       case Stuck => x == cap
       case Running => false
  }

  /** It ends that way within the given number of rounds. */
  ghost predicate StopsWithin(v: nat, w: nat, rounds: nat, o: Outcome, cap: nat) {
    exists k: nat :: k < rounds && Stops(v, w, k, o, cap)
  }

  lemma {:induction false} OddIterateShift(v: nat, k: nat)
    ensures OddIterate(OddStep(v), k) == OddIterate(v, k + 1)
  {
    if k == 0 {
      assert OddIterate(v, 0) == v;
    } else {
      OddIterateShift(v, k - 1);
    }
  }

  lemma ClimbsShift(v: nat, w: nat, k: nat, cap: nat)
    requires 3 * v + 1 < cap && OddStep(v) > w && Climbs(OddStep(v), w, k, cap)
    ensures Climbs(v, w, k + 1, cap)
  {
    forall j: nat | j < k + 1
      ensures GoesOn(v, w, j, cap)
    {
      if j == 0 {
        OddIterateShift(v, 0);
      } else {
        assert GoesOn(OddStep(v), w, j - 1, cap);
        OddIterateShift(v, j - 1);
        OddIterateShift(v, j);
      }
    }
  }

  lemma StopsShift(v: nat, w: nat, k: nat, o: Outcome, cap: nat)
    requires 3 * v + 1 < cap && OddStep(v) > w && Stops(OddStep(v), w, k, o, cap)
    ensures Stops(v, w, k + 1, o, cap)
  {
    ClimbsShift(v, w, k, cap);
    OddIterateShift(v, k);
    OddIterateShift(v, k + 1);
  }

  lemma StopsFirst(v: nat, w: nat, o: Outcome, cap: nat)
    requires o == if 3 * v + 1 == cap then Stuck else if 3 * v + 1 > cap then Overflowed else Checked
    requires 3 * v + 1 < cap ==> OddStep(v) <= w
    ensures Stops(v, w, 0, o, cap)
  {
    OddIterateShift(v, 0);
    assert OddIterate(v, 0) == v;
  }

  lemma {:induction false} VerdictStops(v: nat, w: nat, budget: nat, cap: nat)
    ensures var o, r := Verdict(v, w, budget, cap), Rounds(v, w, budget, cap);
            if o == Running then r == budget && Climbs(v, w, budget, cap)
            else r >= 1 && Stops(v, w, r - 1, o, cap)
    decreases budget
  {
    if budget > 0 {
      if 3 * v + 1 >= cap || OddStep(v) <= w {
        StopsFirst(v, w, Verdict(v, w, budget, cap), cap);
      } else {
        VerdictStops(OddStep(v), w, budget - 1, cap);
        var r := Rounds(OddStep(v), w, budget - 1, cap);
        if Verdict(v, w, budget, cap) == Running {
          ClimbsShift(v, w, budget - 1, cap);
        } else {
          StopsShift(v, w, r - 1, Verdict(v, w, budget, cap), cap);
        }
      }
    }
  }

  lemma StopsOnce(v: nat, w: nat, k: nat, k': nat, o: Outcome, o': Outcome, cap: nat)
    requires Stops(v, w, k, o, cap) && Stops(v, w, k', o', cap)
    ensures k == k' && o == o'
  {
    assert !GoesOn(v, w, k, cap) && !GoesOn(v, w, k', cap);
  }

  lemma ClimbsNotPast(v: nat, w: nat, k: nat, n: nat, o: Outcome, cap: nat)
    requires Stops(v, w, k, o, cap) && k < n
    ensures !Climbs(v, w, n, cap)
  {
    assert !GoesOn(v, w, k, cap);
  }

  /**
   * Exactly when the inner loop ends in which way within its budget: Running if all rounds climb,
   * and otherwise what the first round decides that does not.
   */
  lemma VerdictIff(v: nat, w: nat, budget: nat, o: Outcome, cap: nat)
    ensures Verdict(v, w, budget, cap) == Running <==> Climbs(v, w, budget, cap)
    ensures o != Running ==> (Verdict(v, w, budget, cap) == o <==> StopsWithin(v, w, budget, o, cap))
  {
    var d, r := Verdict(v, w, budget, cap), Rounds(v, w, budget, cap);
    VerdictStops(v, w, budget, cap);
    if d != Running {
      ClimbsNotPast(v, w, r - 1, budget, d, cap);
    }
    if k: nat :| k < budget && Stops(v, w, k, o, cap) {
      ClimbsNotPast(v, w, k, budget, o, cap);
      if d != Running {
        StopsOnce(v, w, r - 1, k, d, o, cap);
      }
    }
  }

  // ----- one number and one block

  /** The number after water level w; the sum itself may not fit. */
  function NextVerdict(w: nat, budget: nat, cap: nat): Outcome {
    if w + 2 < cap then Verdict(w + 2, w, budget, cap) else if budget == 0 then Running else Overflowed
  }

  function NextRounds(w: nat, budget: nat, cap: nat): (r: nat)
    ensures r <= budget
  {
    if w + 2 < cap then Rounds(w + 2, w, budget, cap) else if budget == 0 then 0 else 1
  }

  /** All odd numbers of (w, w + size] in turn, within one budget. */
  function BlockVerdict(w: nat, size: nat, budget: nat, cap: nat): Outcome
    decreases size
  {
    if size < 2 then Checked
    else if NextVerdict(w, budget, cap) != Checked then NextVerdict(w, budget, cap)
    else BlockVerdict(w + 2, size - 2, budget - NextRounds(w, budget, cap), cap)
  }

  /** The triple of iterate j fits. */
  ghost predicate TripleFits(m: nat, j: nat, cap: nat) {
    3 * OddIterate(m, j) + 1 < cap
  }

  ghost predicate Below(m: nat, j: nat) {
    OddIterate(m, j) < m
  }

  /** The odd map takes m below itself before any 3x + 1 reaches cap. */
  ghost predicate ComesDown(m: nat, cap: nat) {
    m < cap && exists k: nat :: Below(m, k) && forall j: nat :: j < k ==> TripleFits(m, j, cap)
  }

  ghost predicate AllComeDown(w: nat, size: nat, cap: nat) {
    forall m: nat :: w < m <= w + size && m % 2 == 1 ==> ComesDown(m, cap)
  }

  lemma OddIterateIsOdd(m: nat, k: nat)
    requires m % 2 == 1
    ensures OddIterate(m, k) % 2 == 1
  {
    var j := OddIterateIsIterate(m, k);
  }

  /** A number that comes down stops the inner loop as checked. */
  lemma ComesDownStops(m: nat, w: nat, cap: nat) returns (k: nat)
    requires m % 2 == 1 && m == w + 2 && ComesDown(m, cap)
    ensures Stops(m, w, k, Checked, cap)
  {
    var n: nat :| Below(m, n) && forall j: nat :: j < n ==> TripleFits(m, j, cap);
    k := FirstBelow(m, n);
    assert TripleFits(m, k, cap);
    StaysAbove(m, w, k, cap);
    LastRound(m, w, k, cap);
  }

  lemma LastRound(m: nat, w: nat, k: nat, cap: nat)
    requires m % 2 == 1 && m == w + 2 && Below(m, k + 1) && TripleFits(m, k, cap) && Climbs(m, w, k, cap)
    ensures Stops(m, w, k, Checked, cap)
  {
    BelowByTwo(m, w, k + 1);
  }

  /** Iterates are odd, so one that is below m is at the water level or below it. */
  lemma BelowByTwo(m: nat, w: nat, k: nat)
    requires m % 2 == 1 && m == w + 2 && Below(m, k)
    ensures OddIterate(m, k) <= w
  {
    OddIterateIsOdd(m, k);
    TwoOdds(OddIterate(m, k), m);
  }

  lemma TwoOdds(x: nat, m: nat)
    requires x % 2 == 1 && m % 2 == 1 && x < m
    ensures x <= m - 2
  {}

  lemma StaysAbove(m: nat, w: nat, k: nat, cap: nat)
    requires w < m && forall j: nat :: j <= k ==> !Below(m, j)
    requires forall j: nat :: j < k ==> TripleFits(m, j, cap)
    ensures Climbs(m, w, k, cap)
  {
    forall j: nat | j < k
      ensures GoesOn(m, w, j, cap)
    {
      assert TripleFits(m, j, cap) && !Below(m, j + 1);
    }
  }

  lemma {:induction false} FirstBelow(m: nat, n: nat) returns (k: nat)
    requires Below(m, n)
    ensures k < n && Below(m, k + 1) && forall j: nat :: j <= k ==> !Below(m, j)
  {
    if i: nat :| i < n && Below(m, i) {
      k := FirstBelow(m, i);
    } else {
      assert !Below(m, 0);
      k := n - 1;
    }
  }

  lemma NextChecked(w: nat, budget: nat, cap: nat, k: nat)
    requires w + 2 < cap && Stops(w + 2, w, k, Checked, cap) && budget > k
    ensures NextVerdict(w, budget, cap) == Checked && NextRounds(w, budget, cap) == k + 1
  {
    VerdictIff(w + 2, w, budget, Checked, cap);
    VerdictStops(w + 2, w, budget, cap);
    StopsOnce(w + 2, w, k, Rounds(w + 2, w, budget, cap) - 1, Checked, Checked, cap);
  }

  /** A number that is checked fits and drops. */
  lemma CheckedDrops(w: nat, budget: nat, cap: nat)
    requires NextVerdict(w, budget, cap) == Checked
    ensures w + 2 < cap && Drops(w + 2)
  {
    VerdictStops(w + 2, w, budget, cap);
    assert OddIterate(w + 2, Rounds(w + 2, w, budget, cap)) < w + 2;
  }

  lemma StopsComesDown(m: nat, w: nat, k: nat, cap: nat)
    requires m < cap && w < m && Stops(m, w, k, Checked, cap)
    ensures ComesDown(m, cap)
  {
    forall j: nat | j < k + 1
      ensures TripleFits(m, j, cap)
    {
      assert j < k ==> GoesOn(m, w, j, cap);
    }
    assert Below(m, k + 1);
  }

  lemma CheckedComesDown(w: nat, budget: nat, cap: nat)
    requires w % 2 == 1 && NextVerdict(w, budget, cap) == Checked
    ensures ComesDown(w + 2, cap)
  {
    VerdictStops(w + 2, w, budget, cap);
    StopsComesDown(w + 2, w, Rounds(w + 2, w, budget, cap) - 1, cap);
  }

  lemma OneMoreComesDown(w: nat, size: nat, cap: nat)
    requires w % 2 == 1 && ComesDown(w + 2, cap) && AllComeDown(w + 2, size, cap)
    ensures AllComeDown(w, size + 2, cap)
  {
    forall m: nat | w < m <= w + size + 2 && m % 2 == 1
      ensures ComesDown(m, cap)
    {
      if m <= w + 2 {
        assert m == w + 2;
      }
    }
  }

  lemma {:induction false} CheckedAllComeDown(w: nat, size: nat, budget: nat, cap: nat)
    requires w % 2 == 1 && size % 2 == 0 && BlockVerdict(w, size, budget, cap) == Checked
    ensures AllComeDown(w, size, cap)
    decreases size
  {
    if size >= 2 {
      CheckedComesDown(w, budget, cap);
      CheckedAllComeDown(w + 2, size - 2, budget - NextRounds(w, budget, cap), cap);
      OneMoreComesDown(w, size - 2, cap);
    }
  }

  ghost predicate SufficesFrom(w: nat, size: nat, b: nat, cap: nat) {
    forall budget: nat :: budget >= b ==> BlockVerdict(w, size, budget, cap) == Checked
  }

  lemma MoreSuffices(w: nat, size: nat, cap: nat, k: nat, rest: nat)
    requires size >= 2 && w + 2 < cap && Stops(w + 2, w, k, Checked, cap) && SufficesFrom(w + 2, size - 2, rest, cap)
    ensures SufficesFrom(w, size, k + 1 + rest, cap)
  {
    forall budget: nat | budget >= k + 1 + rest
      ensures BlockVerdict(w, size, budget, cap) == Checked
    {
      NextChecked(w, budget, cap, k);
      assert BlockVerdict(w + 2, size - 2, budget - (k + 1), cap) == Checked;
    }
  }

  lemma {:induction false} AllComeDownChecked(w: nat, size: nat, cap: nat) returns (b: nat)
    requires w % 2 == 1 && size % 2 == 0 && AllComeDown(w, size, cap)
    ensures SufficesFrom(w, size, b, cap)
    decreases size
  {
    if size < 2 {
      b := 0;
    } else {
      assert ComesDown(w + 2, cap);
      var k := ComesDownStops(w + 2, w, cap);
      var rest := AllComeDownChecked(w + 2, size - 2, cap);
      MoreSuffices(w, size, cap, k, rest);
      b := k + 1 + rest;
    }
  }

  /**
   * The computation of a block ends as Checked, within some number of rounds and then within any
   * larger one, exactly if all its odd numbers come down below cap.
   */
  lemma BlockEndsIff(w: nat, size: nat, cap: nat)
    requires w % 2 == 1 && size % 2 == 0
    ensures (exists b: nat :: SufficesFrom(w, size, b, cap)) <==> AllComeDown(w, size, cap)
  {
    if AllComeDown(w, size, cap) {
      var b := AllComeDownChecked(w, size, cap);
    }
    if b: nat :| SufficesFrom(w, size, b, cap) {
      CheckedAllComeDown(w, size, b, cap);
    }
  }

  /**
   * How the number after w fails to be checked within `rest` rounds: it does not fit itself, its
   * iterates all climb, or one of them has a triple that does not fit.
   */
  ghost predicate FailsNext(w: nat, rest: nat, o: Outcome, cap: nat) {
    if w + 2 >= cap then o == if rest == 0 then Running else Overflowed
    else if o == Running then Climbs(w + 2, w, rest, cap)
    else (o == Overflowed || o == Stuck) && StopsWithin(w + 2, w, rest, o, cap)
  }

  lemma NextFails(w: nat, budget: nat, cap: nat)
    requires NextVerdict(w, budget, cap) != Checked
    ensures FailsNext(w, budget, NextVerdict(w, budget, cap), cap)
  {
    if w + 2 < cap {
      VerdictIff(w + 2, w, budget, NextVerdict(w, budget, cap), cap);
    }
  }

  /** A computation that ends otherwise ends at the first odd number that does not come down in time. */
  lemma {:induction false} BlockStopsAt(w: nat, size: nat, budget: nat, cap: nat) returns (h: nat, rest: nat)
    requires w % 2 == 1 && size % 2 == 0 && BlockVerdict(w, size, budget, cap) != Checked
    ensures 2 * h < size && rest <= budget && AllComeDown(w, 2 * h, cap)
    ensures FailsNext(w + 2 * h, rest, BlockVerdict(w, size, budget, cap), cap)
    decreases size
  {
    if NextVerdict(w, budget, cap) != Checked {
      h, rest := 0, budget;
      NextFails(w, budget, cap);
    } else {
      CheckedComesDown(w, budget, cap);
      h, rest := BlockStopsAt(w + 2, size - 2, budget - NextRounds(w, budget, cap), cap);
      OneMoreComesDown(w, 2 * h, cap);
      h := h + 1;
    }
  }
}
