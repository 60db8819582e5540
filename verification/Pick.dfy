/** The weighted choice of the next block, pick_block of collatz.c. */
module Pick {
  import opened Words
  import opened Frames

  /** The weights of the free blocks below i: block j weighs BLOCKS - j. */
  function Mass(blocks: seq<Mark>, i: nat): nat
    requires i <= |blocks|
  {
    if i == 0 then 0
    else Mass(blocks, i - 1) + (if blocks[i - 1] == FREE then |blocks| - (i - 1) else 0)
  }

  /** Block i is the choice for the random value r. */
  ghost predicate Picks(blocks: seq<Mark>, r: nat, i: nat) {
    i < |blocks| && blocks[i] == FREE && Mass(blocks, i) <= r < Mass(blocks, i) + |blocks| - i
  }

  lemma {:induction false} MassMonotonic(blocks: seq<Mark>, i: nat, j: nat)
    requires i <= j <= |blocks|
    ensures Mass(blocks, i) <= Mass(blocks, j)
    decreases j
  {
    if i < j {
      MassMonotonic(blocks, i, j - 1);
    }
  }

  /** Each value below the total mass picks exactly one block. */
  lemma {:induction false} PickExists(blocks: seq<Mark>, r: nat, n: nat) returns (i: nat)
    requires n <= |blocks| && r < Mass(blocks, n)
    ensures Picks(blocks, r, i)
    decreases n
  {
    if r < Mass(blocks, n - 1) {
      i := PickExists(blocks, r, n - 1);
    } else {
      i := n - 1;
    }
  }

  lemma PickUnique(blocks: seq<Mark>, r: nat, i: nat, j: nat)
    requires Picks(blocks, r, i) && Picks(blocks, r, j)
    ensures i == j
  {
    if i < j {
      MassMonotonic(blocks, i + 1, j);
    } else if j < i {
      MassMonotonic(blocks, j + 1, i);
    }
  }

  /** Free block i is picked by exactly BLOCKS - i of the values below the total mass. */
  lemma PickWeight(blocks: seq<Mark>, i: nat)
    requires i < |blocks| && blocks[i] == FREE
    ensures |set r: nat | r < Mass(blocks, |blocks|) && Picks(blocks, r, i)| == |blocks| - i
  {
    var low, w := Mass(blocks, i), |blocks| - i;
    MassMonotonic(blocks, i + 1, |blocks|);
    assert (set r: nat | r < Mass(blocks, |blocks|) && Picks(blocks, r, i)) == Interval(low, w);
  }

  /** The w numbers from low upwards. */
  function Interval(low: nat, w: nat): (s: set<nat>)
    ensures |s| == w && forall r: nat :: r in s <==> low <= r < low + w
  {
    if w == 0 then {} else Interval(low, w - 1) + {low + w - 1}
  }

  /** The mass is positive exactly if some block is free. */
  lemma {:induction false} MassPositive(blocks: seq<Mark>, n: nat)
    requires n <= |blocks|
    ensures Mass(blocks, n) > 0 <==> exists i :: 0 <= i < n && blocks[i] == FREE
  {
    if n > 0 {
      MassPositive(blocks, n - 1);
      if blocks[n - 1] == FREE {
        assert Mass(blocks, n) >= 1;
      }
    }
  }

  // ----- the 32-bit bound

  /** All blocks free is the worst case, with mass BLOCKS (BLOCKS + 1) / 2. */
  lemma {:induction false} MassBound(blocks: seq<Mark>, i: nat)
    requires i <= |blocks|
    ensures 2 * Mass(blocks, i) <= 2 * i * |blocks| - i * (i - 1)
    ensures (forall j :: 0 <= j < i ==> blocks[j] == FREE) ==> 2 * Mass(blocks, i) == 2 * i * |blocks| - i * (i - 1)
  {
    if i > 0 {
      MassBound(blocks, i - 1);
      MassAlgebra(|blocks|, i);
    }
  }

  lemma MassAlgebra(n: int, i: int)
    ensures 2 * i * n - i * (i - 1) == 2 * (i - 1) * n - (i - 1) * (i - 2) + 2 * (n - (i - 1))
  {}

  lemma SquareBound(n: nat)
    ensures n <= 92681 ==> n * (n + 1) < 2 * WORD
    ensures n >= 92682 ==> n * (n + 1) >= 2 * WORD
  {
    if n <= 92681 {
      ProductMonotonic(n, n + 1, 92682);
      ProductMonotonic(92682, n, 92681);
    } else {
      ProductMonotonic(n, 92683, n + 1);
      ProductMonotonic(92683, 92682, n);
    }
  }

  /** The 32-bit sum never wraps for any block states if and only if BLOCKS <= 92681. */
  lemma MassFitsWord(n: nat)
    ensures (forall blocks: seq<Mark> :: |blocks| == n ==> Mass(blocks, n) < WORD) <==> n <= 92681
  {
    SquareBound(n);
    if n <= 92681 {
      forall blocks: seq<Mark> | |blocks| == n
        ensures Mass(blocks, n) < WORD
      {
        MassBound(blocks, n);
        Gauss(n);
      }
    } else {
      var all := AllFree(n);
      MassBound(all, n);
      Gauss(n);
      assert |all| == n && Mass(all, n) >= WORD;
    }
  }

  lemma Gauss(n: int)
    ensures 2 * n * n - n * (n - 1) == n * (n + 1)
  {}
}
