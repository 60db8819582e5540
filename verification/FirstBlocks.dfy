/**
 * The first two blocks of the TESTCASE build started from 1: every odd number up to 33 has an
 * odd-map iterate below itself, 27 and 31 after more than thirty steps.
 */
module FirstBlocks {
  import opened Words
  import opened Collatz

  /** b is what remains of x after up to six halvings. */
  predicate HalvesTo(x: nat, b: nat) {
    b % 2 == 1 && (x == 2 * b || x == 4 * b || x == 8 * b || x == 16 * b || x == 32 * b || x == 64 * b)
  }

  lemma HalvedIsOddPart(x: nat, b: nat)
    requires HalvesTo(x, b)
    ensures OddPart(x) == b
  {
    OddPartDouble(b);
    OddPartDouble(2 * b);
    OddPartDouble(4 * b);
    OddPartDouble(8 * b);
    OddPartDouble(16 * b);
    OddPartDouble(32 * b);
  }

  /** Each number of the path leads to the next in one step of the odd map. */
  predicate IsPath(p: seq<nat>) {
    forall i :: 0 <= i < |p| - 1 ==> HalvesTo(3 * p[i] + 1, p[i + 1])
  }

  lemma {:induction false} PathIterates(p: seq<nat>, k: nat)
    requires IsPath(p) && k < |p|
    ensures OddIterate(p[0], k) == p[k]
  {
    if k > 0 {
      PathIterates(p, k - 1);
      HalvedIsOddPart(3 * p[k - 1] + 1, p[k]);
    }
  }

  /** A path that ends below its start. */
  lemma PathDrops(p: seq<nat>, n: nat)
    requires IsPath(p) && p != [] && p[0] == n && p[|p| - 1] < n
    ensures Drops(n)
  {
    PathIterates(p, |p| - 1);
  }

  /** One path after another; the last number of the first is the first of the second. */
  lemma Joined(p: seq<nat>, q: seq<nat>) returns (r: seq<nat>)
    requires IsPath(p) && IsPath(q) && p != [] && q != [] && p[|p| - 1] == q[0]
    ensures IsPath(r) && r != [] && r[0] == p[0] && r[|r| - 1] == q[|q| - 1]
  {
    r := p[..|p| - 1] + q;
  }

  const FROM_31: seq<nat> := [31, 47, 71, 107, 161, 121, 91, 137, 103, 155]
  const FROM_155: seq<nat> := [155, 233, 175, 263, 395, 593, 445, 167, 251, 377]
  const FROM_377: seq<nat> := [377, 283, 425, 319, 479, 719, 1079, 1619, 2429, 911]
  const FROM_911: seq<nat> := [911, 1367, 2051, 3077, 577, 433, 325, 61, 23]

  lemma From31IsPath()
    ensures IsPath(FROM_31)
  {}

  lemma From155IsPath()
    ensures IsPath(FROM_155)
  {}

  lemma From377IsPath()
    ensures IsPath(FROM_377)
  {}

  lemma From911IsPath()
    ensures IsPath(FROM_911)
  {}

  lemma From31To23() returns (p: seq<nat>)
    ensures IsPath(p) && p != [] && p[0] == 31 && p[|p| - 1] == 23
  {
    From31IsPath();
    From155IsPath();
    From377IsPath();
    From911IsPath();
    p := Joined(FROM_377, FROM_911);
    p := Joined(FROM_155, p);
    p := Joined(FROM_31, p);
  }

  lemma DropFrom27And31()
    ensures Drops(27) && Drops(31)
  {
    var p := From31To23();
    PathDrops(p, 31);
    var q := Joined([27, 41, 31], p);
    PathDrops(q, 27);
  }

  lemma FirstBlockDrops(n: nat)
    requires 1 < n <= 17 && n % 2 == 1
    ensures Drops(n)
  {
    if n == 3 {
      PathDrops([3, 5, 1], n);
    } else if n == 5 {
      PathDrops([5, 1], n);
    } else if n == 9 {
      PathDrops([9, 7], n);
    } else if n == 13 {
      PathDrops([13, 5], n);
    } else if n == 17 {
      PathDrops([17, 13], n);
    } else {
      DropFrom7And11And15(n);
    }
  }

  lemma DropFrom7And11And15(n: nat)
    requires n == 7 || n == 11 || n == 15
    ensures Drops(n)
  {
    if n == 7 {
      PathDrops([7, 11, 17, 13, 5], n);
    } else if n == 11 {
      PathDrops([11, 17, 13, 5], n);
    } else {
      PathDrops([15, 23, 35, 53, 5], n);
    }
  }

  lemma SecondBlockDrops(n: nat)
    requires 17 < n <= 33 && n % 2 == 1
    ensures Drops(n)
  {
    if n == 19 {
      PathDrops([19, 29, 11], n);
    } else if n == 21 {
      PathDrops([21, 1], n);
    } else if n == 23 {
      PathDrops([23, 35, 53, 5], n);
    } else if n == 25 {
      PathDrops([25, 19], n);
    } else if n == 27 {
      DropFrom27And31();
    } else if n == 29 {
      PathDrops([29, 11], n);
    } else if n == 31 {
      DropFrom27And31();
    } else if n == 33 {
      PathDrops([33, 25], n);
    }
  }

  lemma BlocksCheckable()
    ensures BlockChecked(1, 16) && BlockChecked(17, 16)
  {
    forall m: nat | 1 < m <= 17 && m % 2 == 1
      ensures Drops(m)
    {
      FirstBlockDrops(m);
    }
    forall m: nat | 17 < m <= 33 && m % 2 == 1
      ensures Drops(m)
    {
      SecondBlockDrops(m);
    }
  }
}
