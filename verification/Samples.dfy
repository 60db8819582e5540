/**
 * Sensor samples of app_sensor.c as summaries of multisets of readings, and what combining
 * two of them does in 32-bit and 16-bit arithmetic.
 */
module Samples {

  const INT32_MIN: int := -0x8000_0000
  const INT32_MAX: int := 0x7fff_ffff
  type Int32 = x: int | INT32_MIN <= x <= INT32_MAX
  type Int16 = x: int | -0x8000 <= x < 0x8000
  type Word16 = x: int | 0 <= x < 0x1_0000
  const UINT16_MAX: Word16 := 0xffff
  type Byte = x: int | 0 <= x < 256

  /** One value measured by one node. */
  datatype Reading = Reading(id: Byte, value: Int16)

  /** A sensor_sample_t. */
  datatype Sample = Sample(min: Int32, max: Int32, total: Int32, count: Word16, idMin: Byte, idMax: Byte)

  /** The samples of init_packet. */
  const EMPTY: Sample := Sample(INT32_MAX, INT32_MIN, 0, 0, 0, 0)

  /** The value the sum of two 32-bit signed numbers is stored as. */
  function Wrap32(x: int): Int32
    requires 2 * INT32_MIN <= x <= 2 * INT32_MAX
  {
    if x > INT32_MAX then x - 0x1_0000_0000 else if x < INT32_MIN then x + 0x1_0000_0000 else x
  }

  /** combine. */
  function Combined(acc: Sample, s: Sample): Sample {
    if s.count == 0 then acc
    else
      Sample(if s.min < acc.min then s.min else acc.min, if s.max > acc.max then s.max else acc.max,
             Wrap32(acc.total + s.total), (acc.count + s.count) % 0x1_0000,
             if s.min < acc.min then s.idMin else acc.idMin, if s.max > acc.max then s.idMax else acc.idMax)
  }

  // ----- sums over multisets

  ghost function Total(m: multiset<Reading>): int
    decreases |m|
  {
    if m == multiset{} then 0
    else
      var r :| r in m;
      r.value + Total(m - multiset{r})
  }

  lemma {:induction false} TotalOfOne(m: multiset<Reading>, x: Reading)
    requires x in m
    ensures Total(m) == x.value + Total(m - multiset{x})
    decreases |m|
  {
    var r :| r in m && Total(m) == r.value + Total(m - multiset{r});
    if r != x {
      TotalOfOne(m - multiset{r}, x);
      TotalOfOne(m - multiset{x}, r);
      assert m - multiset{r} - multiset{x} == m - multiset{x} - multiset{r};
    }
  }

  lemma {:induction false} TotalOfSum(m: multiset<Reading>, n: multiset<Reading>)
    ensures Total(m + n) == Total(m) + Total(n)
    decreases |m|
  {
    if m == multiset{} {
      assert m + n == n;
    } else {
      var x :| x in m;
      TotalOfOne(m, x);
      TotalOfOne(m + n, x);
      assert m + n - multiset{x} == m - multiset{x} + n;
      TotalOfSum(m - multiset{x}, n);
    }
  }

  /** Totals of up to 65535 readings stay within 32 bits. */
  lemma {:induction false} TotalBounded(m: multiset<Reading>)
    ensures -0x8000 * |m| <= Total(m) <= 0x7fff * |m|
    decreases |m|
  {
    if m != multiset{} {
      var x :| x in m;
      TotalOfOne(m, x);
      TotalBounded(m - multiset{x});
    }
  }

  lemma TotalFits(m: multiset<Reading>)
    ensures |m| < 0x1_0000 ==> INT32_MIN <= Total(m) <= INT32_MAX
  {
    TotalBounded(m);
  }

  // ----- summaries

  ghost predicate Measured(m: multiset<Reading>, id: Byte, value: int) {
    -0x8000 <= value < 0x8000 && Reading(id, value) in m
  }

  /** Every value lies between min and max, and the named nodes measured these two. */
  ghost predicate Extremes(s: Sample, m: multiset<Reading>) {
    if m == multiset{} then s.min == INT32_MAX && s.max == INT32_MIN
    else
      && (forall r :: r in m ==> s.min <= r.value <= s.max)
      && Measured(m, s.idMin, s.min) && Measured(m, s.idMax, s.max)
  }

  ghost predicate Adds(s: Sample, m: multiset<Reading>) {
    s.count == |m| && s.total == Total(m)
  }

  ghost predicate Summarises(s: Sample, m: multiset<Reading>) {
    Adds(s, m) && Extremes(s, m)
  }

  /** A reading on its own. */
  function Single(id: Byte, value: Int16): Sample {
    Sample(value, value, value, 1, id, id)
  }

  lemma SingleSummarises(id: Byte, value: Int16)
    ensures Summarises(Single(id, value), multiset{Reading(id, value)})
  {
    TotalOfOne(multiset{Reading(id, value)}, Reading(id, value));
    assert multiset{Reading(id, value)} - multiset{Reading(id, value)} == multiset{};
  }

  lemma ExtremesOfSum(a: Sample, m: multiset<Reading>, s: Sample, n: multiset<Reading>)
    requires Extremes(a, m) && Extremes(s, n) && n != multiset{} && s.count != 0
    ensures Extremes(Combined(a, s), m + n)
  {
    if m == multiset{} {
      assert m + n == n;
    }
  }

  lemma CombinedAdds(a: Sample, s: Sample)
    requires Int32Sum(a.total, s.total) && 0 < s.count && a.count + s.count < 0x1_0000
    ensures Combined(a, s).total == a.total + s.total && Combined(a, s).count == a.count + s.count
  {
    NothingWraps(a.total, s.total, a.count, s.count);
  }

  lemma TotalOfBoth(m: multiset<Reading>, n: multiset<Reading>)
    requires |m| + |n| < 0x1_0000
    ensures Total(m + n) == Total(m) + Total(n) && INT32_MIN <= Total(m + n) <= INT32_MAX
  {
    TotalOfSum(m, n);
    TotalFits(m + n);
  }

  lemma CombineTotals(a: Sample, m: multiset<Reading>, s: Sample, n: multiset<Reading>)
    requires Adds(a, m) && Adds(s, n) && |m| + |n| < 0x1_0000
    ensures INT32_MIN <= a.total + s.total <= INT32_MAX
    ensures n != multiset{} ==>
              Combined(a, s).total == Total(m + n) && Combined(a, s).count == |m + n|
  {
    TotalOfBoth(m, n);
    if n != multiset{} {
      CombinedAdds(a, s);
    }
  }

  lemma NothingWraps(x: Int32, y: Int32, c: Word16, d: Word16)
    requires Int32Sum(x, y) && c + d < 0x1_0000
    ensures Wrap32(x + y) == x + y && (c + d) % 0x1_0000 == c + d
  {}

  predicate Int32Sum(x: Int32, y: Int32) {
    INT32_MIN <= x + y <= INT32_MAX
  }

  /** Combining summaries summarises the sum, without overflow, exactly up to 65535 readings. */
  lemma CombineSummarises(a: Sample, m: multiset<Reading>, s: Sample, n: multiset<Reading>)
    requires Summarises(a, m) && Summarises(s, n)
    ensures |m| + |n| < 0x1_0000 ==> INT32_MIN <= a.total + s.total <= INT32_MAX
    ensures Summarises(Combined(a, s), m + n) <==> |m| + |n| < 0x1_0000
  {
    assert |m + n| == |m| + |n|;
    if |m| + |n| < 0x1_0000 {
      CombineTotals(a, m, s, n);
      if n == multiset{} {
        assert m + n == m;
      } else {
        ExtremesOfSum(a, m, s, n);
      }
    }
  }

  /** What a summary says is determined by the readings, up to which of several equal extremes it names. */
  lemma SummaryUnique(s: Sample, t: Sample, m: multiset<Reading>)
    requires Summarises(s, m) && Summarises(t, m)
    ensures s.min == t.min && s.max == t.max && s.total == t.total && s.count == t.count
  {
    if m != multiset{} {
      assert Reading(s.idMin, s.min) in m && Reading(s.idMax, s.max) in m;
      assert Reading(t.idMin, t.min) in m && Reading(t.idMax, t.max) in m;
    }
  }

  /** Two samples of 65536 readings together count as none and are lost in the next fold. */
  lemma CountWraps(acc: Sample, a: Sample, s: Sample)
    requires a.count + s.count == 0x1_0000
    ensures Combined(acc, Combined(a, s)) == acc
  {}

  lemma {:induction false} TotalOfZeros(m: multiset<Reading>)
    requires forall r :: r in m ==> r.value == 0
    ensures Total(m) == 0
    decreases |m|
  {
    if m != multiset{} {
      var x :| x in m;
      TotalOfOne(m, x);
      TotalOfZeros(m - multiset{x});
    }
  }

  /** Two packets that are right about 65535 readings and about one, whose combination counts none. */
  lemma WrappingPackets() returns (a: Sample, m: multiset<Reading>, s: Sample, n: multiset<Reading>)
    ensures Summarises(a, m) && Summarises(s, n) && |m| + |n| == 0x1_0000
    ensures Combined(a, s).count == 0 && !Summarises(Combined(a, s), m + n)
  {
    var zero := Reading(1, 0);
    m, n := multiset{}[zero := 65535], multiset{Reading(2, 0)};
    a, s := Sample(0, 0, 0, 65535, 1, 1), Single(2, 0);
    TotalOfZeros(m);
    SingleSummarises(2, 0);
    CombineSummarises(a, m, s, n);
  }
}
