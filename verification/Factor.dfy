/**
 * The factoriser of factor.c: trial division by 2 and the odd numbers up to the root of what
 * is left, against primes, products and unique factorisation.
 */
module Factor {

  const INT_MIN: int := -0x8000_0000
  type Int = x: int | INT_MIN <= x < 0x8000_0000

  ghost predicate Divides(d: nat, n: nat) {
    exists q: nat :: d * q == n
  }

  ghost predicate Prime(p: nat) {
    p >= 2 && forall d: nat :: 2 <= d < p ==> !Divides(d, p)
  }

  /** No number from 2 up to but not including i divides n. */
  ghost predicate NoFactorBelow(n: nat, i: nat) {
    forall d: nat :: 2 <= d < i ==> !Divides(d, n)
  }

  function Product(s: seq<nat>): nat {
    if s == [] then 1 else Product(s[..|s| - 1]) * s[|s| - 1]
  }

  predicate Sorted(s: seq<nat>) {
    forall i, j :: 0 <= i < j < |s| ==> s[i] <= s[j]
  }

  ghost predicate AllPrime(s: seq<nat>) {
    forall i :: 0 <= i < |s| ==> Prime(s[i])
  }

  // ----- divisibility

  lemma DividesIsRemainder(d: nat, n: nat)
    requires d > 0
    ensures Divides(d, n) <==> n % d == 0
  {
    if n % d == 0 {
      assert d * (n / d) == n;
    }
    if Divides(d, n) {
      var q: nat :| d * q == n;
      RemainderOfMultiple(d, q);
    }
  }

  lemma RemainderOfMultiple(d: nat, q: nat)
    requires d > 0
    ensures (d * q) % d == 0
  {
    var k := (d * q) / d;
    assert d * (q - k) == d * q - d * k;
    OnlyMultipleBelow(d, q - k, (d * q) % d);
  }

  lemma OnlyMultipleBelow(d: nat, x: int, r: nat)
    requires d * x == r < d
    ensures r == 0
  {
    if x > 0 {
      AtLeastOnce(d, x);
    }
  }

  lemma AtLeastOnce(d: nat, q: nat)
    requires q >= 1
    ensures d * q >= d
  {}

  lemma DividesTransitive(d: nat, e: nat, n: nat)
    requires Divides(d, e) && Divides(e, n)
    ensures Divides(d, n)
  {
    var q: nat :| d * q == e;
    var r: nat :| e * r == n;
    assert d * (q * r) == n;
  }

  /** A quotient has no smaller factors than the number itself. */
  lemma QuotientKeepsNoFactor(n: nat, p: nat, q: nat, i: nat)
    requires n == p * q && NoFactorBelow(n, i)
    ensures NoFactorBelow(q, i)
  {
    forall d: nat | 2 <= d < i
      ensures !Divides(d, q)
    {
      if Divides(d, q) {
        assert q * p == n;
        DividesTransitive(d, q, n);
      }
    }
  }

  /** The smallest factor of a number is prime. */
  lemma SmallestFactorIsPrime(n: nat, i: nat)
    requires i >= 2 && NoFactorBelow(n, i) && Divides(i, n)
    ensures Prime(i)
  {
    forall d: nat | 2 <= d < i
      ensures !Divides(d, i)
    {
      if Divides(d, i) {
        DividesTransitive(d, i, n);
      }
    }
  }

  /** Odd candidates are enough: after i and 2 no even number can divide. */
  lemma NextCandidate(n: nat, i: nat)
    requires i >= 3 && i % 2 == 1 && NoFactorBelow(n, i) && !Divides(i, n)
    ensures NoFactorBelow(n, i + 2)
  {
    if Divides(i + 1, n) {
      assert 2 * ((i + 1) / 2) == i + 1;
      DividesTransitive(2, i + 1, n);
    }
  }

  lemma ProductAtLeast(a: nat, b: nat, i: nat)
    requires a >= i && b >= i
    ensures a * b >= i * i
  {}

  /** What is left when the candidates have passed its root is prime. */
  lemma LeftoverIsPrime(n: nat, i: nat)
    requires n >= 2 && NoFactorBelow(n, i) && i * i > n
    ensures Prime(n)
  {
    forall d: nat | 2 <= d < n
      ensures !Divides(d, n)
    {
      if Divides(d, n) {
        var q: nat :| d * q == n;
        Cofactor(d, q, n);
        assert q * d == n;
        if q < i {
          assert Divides(q, n);
        } else {
          ProductAtLeast(d, q, i);
        }
      }
    }
  }

  lemma Cofactor(d: nat, q: nat, n: nat)
    requires d * q == n && 2 <= d < n
    ensures 2 <= q < n
  {
    if q <= 1 {
      AtMostOnce(d, q);
    } else {
      ProductAtLeast2(d, q);
    }
  }

  lemma AtMostOnce(d: nat, q: nat)
    requires q <= 1
    ensures d * q <= d
  {}

  lemma ProductAtLeast2(d: nat, q: nat)
    requires d >= 2
    ensures d * q >= 2 * q
  {}

  lemma ProductSnoc(s: seq<nat>, x: nat)
    ensures Product(s + [x]) == Product(s) * x
  {
    assert (s + [x])[..|s|] == s;
  }

  lemma Regroup(a: nat, p: nat, q: nat)
    ensures a * (p * q) == (a * p) * q
  {}

  /** The nondecreasing list of the primes whose product is n. */
  ghost predicate IsFactorisation(s: seq<nat>, n: nat) {
    Product(s) == n && AllPrime(s) && Sorted(s)
  }

  // ----- the loops

  /** Factors found so far and what is left of the number; every candidate below i is used up. */
  ghost predicate Splits(number: nat, found: seq<nat>, n: nat, i: nat) {
    && n >= 1 && Product(found) * n == number && NoFactorBelow(n, i)
    && AllPrime(found) && Sorted(found)
    && (forall k :: 0 <= k < |found| ==> found[k] <= i)
  }

  /** Dividing by the candidate that divides. */
  lemma SplitOff(number: nat, found: seq<nat>, n: nat, i: nat, q: nat)
    requires Splits(number, found, n, i) && i >= 2 && n == i * q
    ensures Splits(number, found + [i], q, i) && q < n
  {
    assert Divides(i, n);
    SmallestFactorIsPrime(n, i);
    QuotientKeepsNoFactor(n, i, q, i);
    ProductSnoc(found, i);
    Regroup(Product(found), i, q);
    Shrinks(i, q);
  }

  /** A number without factors below i is 1 or at least i. */
  lemma NotBelow(n: nat, i: nat)
    requires n >= 1 && NoFactorBelow(n, i)
    ensures n == 1 || n >= i
  {
    assert n * 1 == n;
    assert Divides(n, n);
  }

  /** The candidates are used up: what is left is 1 or a prime not below any factor found. */
  lemma Finish(number: nat, found: seq<nat>, n: nat, i: nat)
    requires i >= 3 && Splits(number, found, n, i) && i * i > n
    ensures IsFactorisation(if n > 2 then found + [n] else found, number)
  {
    NotBelow(n, i);
    if n > 2 {
      LeftoverIsPrime(n, i);
      ProductSnoc(found, n);
    }
  }

  /** One candidate more has been used up. */
  lemma Advance(number: nat, found: seq<nat>, n: nat, i: nat)
    requires i >= 3 && i % 2 == 1 && Splits(number, found, n, i) && !Divides(i, n)
    ensures Splits(number, found, n, i + 2)
  {
    NextCandidate(n, i);
  }

  lemma Shrinks(i: nat, q: nat)
    requires i >= 2 && i * q >= 1
    ensures 1 <= q < i * q
  {}

  /** One candidate: divide by it as often as it divides. */
  method DivideOut(ghost number: nat, found: seq<nat>, n: nat, i: nat) returns (found': seq<nat>, n': nat)
    requires i >= 2 && Splits(number, found, n, i)
    ensures Splits(number, found', n', i) && !Divides(i, n') && n' <= n
  {
    found', n' := found, n;
    while n' % i == 0
      invariant Splits(number, found', n', i) && n' <= n
      decreases n'
    {
      SplitOff(number, found', n', i, n' / i);
      found', n' := found' + [i], n' / i;
    }
    DividesIsRemainder(i, n');
  }

  /** The for loop over the odd candidates. */
  method TryOdd(ghost number: nat, found: seq<nat>, n: nat) returns (found': seq<nat>, n': nat, ghost i': nat)
    requires Splits(number, found, n, 3)
    ensures i' >= 3 && Splits(number, found', n', i') && i' * i' > n'
  {
    found', n' := found, n;
    var i := 3;
    while i * i <= n'
      invariant i >= 3 && i % 2 == 1 && Splits(number, found', n', i)
      decreases n' + 1 - i
    {
      AtLeastOnce(i, i);
      found', n' := DivideOut(number, found', n', i);
      Advance(number, found', n', i);
      i := i + 2;
    }
    i' := i;
  }

  /**
   * factor: the factors in the order they are printed. 0 would be divided by two forever and
   * INT_MIN has no absolute value.
   */
  method Factorise(n: Int) returns (defined: bool, factors: seq<nat>)
    ensures defined <==> n != 0 && n != INT_MIN
    ensures defined ==> IsFactorisation(factors, if n < 0 then -n else n)
  {
    if n == 0 || n == INT_MIN {
      return false, [];
    }
    var left: nat := if n < 0 then -n else n;
    ghost var number, i := left, 0;
    factors, left := DivideOut(number, [], left, 2);
    factors, left, i := TryOdd(number, factors, left);
    Finish(number, factors, left, i);
    if left > 2 {
      factors := factors + [left];
    }
    defined := true;
  }

  // ----- unique factorisation

  /** A prime that divides a product divides one of its factors. */
  lemma {:induction false} PrimeDividesFactor(p: nat, a: nat, b: nat)
    requires Prime(p) && Divides(p, a * b) && !Divides(p, a)
    ensures Divides(p, b)
    decreases a
  {
    if a == 0 {
      DividesZero(p);
    } else if a >= p {
      StepDown(p, a, b);
      PrimeDividesFactor(p, a - p, b);
    } else if a > 1 {
      Remainder(p, a, b);
      PrimeDividesFactor(p, p % a, b);
    }
  }

  lemma DividesZero(p: nat)
    ensures Divides(p, 0)
  {
    assert p * 0 == 0;
  }

  lemma DividesSum(p: nat, x: nat)
    requires Divides(p, x)
    ensures Divides(p, x + p)
  {
    var q: nat :| p * q == x;
    assert p * (q + 1) == x + p;
  }

  lemma StepDown(p: nat, a: nat, b: nat)
    requires Divides(p, a * b) && !Divides(p, a) && a >= p
    ensures Divides(p, (a - p) * b) && !Divides(p, a - p)
  {
    var q: nat :| p * q == a * b;
    Cancel(p, a, b, q);
    assert p * (q - b) == (a - p) * b;
    if Divides(p, a - p) {
      DividesSum(p, a - p);
    }
  }

  lemma Cancel(p: nat, a: nat, b: nat, q: nat)
    requires p * q == a * b && a >= p
    ensures p * (q - b) == (a - p) * b && (p > 0 ==> q >= b)
  {
    assert (a - p) * b == a * b - p * b;
    assert p * (q - b) == p * q - p * b;
    assert (a - p) * b >= 0;
  }

  /** If p divides a * b it divides (p mod a) * b, and p mod a is not zero for a prime p above a. */
  lemma Remainder(p: nat, a: nat, b: nat)
    requires Prime(p) && 1 < a < p && Divides(p, a * b)
    ensures 0 < p % a < a && Divides(p, (p % a) * b) && !Divides(p, p % a)
  {
    DividesIsRemainder(a, p);
    var q: nat :| p * q == a * b;
    var k, r := p / a, p % a;
    Multiples(p, a, b, q, k, r);
    assert p * (b - k * q) == r * b;
    TooSmall(p, r);
  }

  lemma Multiples(p: nat, a: nat, b: nat, q: nat, k: nat, r: nat)
    requires p * q == a * b && p == a * k + r && p > 0
    ensures p * (b - k * q) == r * b && b >= k * q
  {
    calc {
      p * (b - k * q);
      p * b - k * (p * q);
      p * b - k * (a * b);
      (a * k + r) * b - k * (a * b);
      r * b;
    }
  }

  lemma TooSmall(p: nat, r: nat)
    requires 0 < r < p
    ensures !Divides(p, r)
  {
    if Divides(p, r) {
      var q: nat :| p * q == r;
      if q > 0 {
        AtLeastOnce(p, q);
      }
    }
  }

  lemma {:induction false} PrimeInProduct(p: nat, s: seq<nat>)
    requires Prime(p) && AllPrime(s) && Divides(p, Product(s))
    ensures p in s
    decreases |s|
  {
    if s == [] {
      TooSmall(p, 1);
    } else {
      var init, last := s[..|s| - 1], s[|s| - 1];
      if !Divides(p, last) {
        assert last * Product(init) == Product(s);
        PrimeDividesFactor(p, last, Product(init));
        PrimeInProduct(p, init);
      } else if p > last {
        TooSmall(p, last);
      }
    }
  }

  lemma {:induction false} ProductPositive(s: seq<nat>)
    requires AllPrime(s)
    ensures Product(s) >= 1 && (s != [] ==> Product(s) >= 2)
    decreases |s|
  {
    if s != [] {
      ProductPositive(s[..|s| - 1]);
      ProductAtLeast2(s[|s| - 1], Product(s[..|s| - 1]));
    }
  }

  lemma LastFactorBounded(s: seq<nat>, t: seq<nat>)
    requires s != [] && IsFactorisation(s, Product(t)) && AllPrime(t) && Sorted(t)
    ensures t != [] && s[|s| - 1] <= t[|t| - 1]
  {
    var last := s[|s| - 1];
    assert last * Product(s[..|s| - 1]) == Product(s);
    PrimeInProduct(last, t);
  }

  lemma CancelFactor(a: nat, b: nat, x: nat)
    requires a * x == b * x && x > 0
    ensures a == b
  {}

  /** Unique factorisation: the printed list is the only one. */
  lemma {:induction false} FactorisationUnique(s: seq<nat>, t: seq<nat>, n: nat)
    requires IsFactorisation(s, n) && IsFactorisation(t, n)
    ensures s == t
    decreases |s|
  {
    if s == [] || t == [] {
      ProductPositive(s);
      ProductPositive(t);
    } else {
      LastFactorBounded(s, t);
      LastFactorBounded(t, s);
      var a, b, x := s[..|s| - 1], t[..|t| - 1], s[|s| - 1];
      CancelFactor(Product(a), Product(b), x);
      FactorisationUnique(a, b, Product(a));
      assert s == a + [x] && t == b + [x];
    }
  }
}
