/** The Collatz map, its odd-to-odd acceleration, and what checking a block of numbers proves. */
module Collatz {
  import opened Words

  /** One step of the 3n+1 map. */
  function Step(n: nat): nat {
    if n % 2 == 0 then n / 2 else 3 * n + 1
  }

  function Iterate(n: nat, k: nat): nat {
    if k == 0 then n else Step(Iterate(n, k - 1))
  }

  ghost predicate ReachesOne(n: nat) {
    exists k: nat :: Iterate(n, k) == 1
  }

  /** The pair rl_f3n1, rl_fdiv2: from odd number to odd number. */
  function OddStep(n: nat): nat {
    OddPart(3 * n + 1)
  }

  function OddIterate(n: nat, k: nat): nat {
    if k == 0 then n else OddStep(OddIterate(n, k - 1))
  }

  /** Some odd-map iterate of n is smaller than n. */
  ghost predicate Drops(n: nat) {
    exists k: nat :: OddIterate(n, k) < n
  }

  /** All odd numbers in the block above `start` drop below themselves. */
  ghost predicate BlockChecked(start: nat, size: nat) {
    forall m: nat :: start < m <= start + size && m % 2 == 1 ==> Drops(m)
  }

  /** All positive numbers up to n reach 1. */
  ghost predicate VerifiedUpTo(n: nat) {
    forall m: nat :: 1 <= m <= n ==> ReachesOne(m)
  }

  lemma {:induction false} IterateAdd(n: nat, j: nat, k: nat)
    ensures Iterate(Iterate(n, j), k) == Iterate(n, j + k)
  {
    if k > 0 {
      IterateAdd(n, j, k - 1);
    }
  }

  lemma ReachesBack(n: nat, j: nat)
    requires ReachesOne(Iterate(n, j))
    ensures ReachesOne(n)
  {
    var k: nat :| Iterate(Iterate(n, j), k) == 1;
    IterateAdd(n, j, k);
  }

  /** Halving repeatedly is part of the Collatz trajectory. */
  lemma {:induction false} HalvingIsIterate(n: nat) returns (k: nat)
    requires n > 0
    ensures Iterate(n, k) == OddPart(n)
  {
    if n % 2 == 1 {
      k := 0;
    } else {
      var j := HalvingIsIterate(n / 2);
      IterateAdd(n, 1, j);
      assert Iterate(n, 1) == Step(Iterate(n, 0)) == n / 2;
      k := 1 + j;
    }
  }

  /** Every odd-map iterate of an odd number lies on its Collatz trajectory. */
  lemma {:induction false} OddIterateIsIterate(n: nat, k: nat) returns (j: nat)
    requires n % 2 == 1
    ensures Iterate(n, j) == OddIterate(n, k) && OddIterate(n, k) % 2 == 1
  {
    if k == 0 {
      j := 0;
    } else {
      var i := OddIterateIsIterate(n, k - 1);
      var m := OddIterate(n, k - 1);
      var h := HalvingIsIterate(3 * m + 1);
      assert Iterate(n, i + 1) == 3 * m + 1;
      IterateAdd(n, i + 1, h);
      j := i + 1 + h;
    }
  }

  /** A number reaches 1 if every smaller one does and it is even or drops. */
  lemma ReachesFromBelow(n: nat)
    requires n > 1 && VerifiedUpTo(n - 1)
    requires n % 2 == 1 ==> Drops(n)
    ensures ReachesOne(n)
  {
    if n % 2 == 0 {
      assert Iterate(n, 1) == Step(Iterate(n, 0)) == n / 2;
      ReachesBack(n, 1);
    } else {
      var k: nat :| OddIterate(n, k) < n;
      var j := OddIterateIsIterate(n, k);
      ReachesBack(n, j);
    }
  }

  /** If every odd number between the two levels drops, verification extends to the upper level. */
  lemma {:induction false} VerificationExtends(low: nat, high: nat)
    requires 1 <= low <= high && VerifiedUpTo(low)
    requires forall m: nat :: low < m <= high && m % 2 == 1 ==> Drops(m)
    ensures VerifiedUpTo(high)
    decreases high
  {
    if low < high {
      VerificationExtends(low, high - 1);
      ReachesFromBelow(high);
    }
  }

  /** Checked blocks stacked on a verified base verify everything below their top. */
  lemma {:induction false} BlocksExtend(base: nat, size: nat, blocks: nat)
    requires base >= 1 && VerifiedUpTo(base)
    requires forall i: nat :: i < blocks ==> BlockChecked(base + i * size, size)
    ensures VerifiedUpTo(base + blocks * size)
  {
    if blocks > 0 {
      BlocksExtend(base, size, blocks - 1);
      var start := base + (blocks - 1) * size;
      assert BlockChecked(start, size);
      assert start + size == base + blocks * size;
      VerificationExtends(start, start + size);
    }
  }
}
