/** Printing a long integer in hexadecimal, rl_str of rl_int.c. */
module HexString {
  import opened Options
  import opened Words
  import opened Limbs
  import opened RlInt

  /** Size of the output buffer, terminator included. */
  const MAX_BSTR: nat := (BLEN * INT_LEN + 7) / 4

  function HexDigit(v: nat): char
    requires v < 16
  {
    if v < 10 then '0' + v as char else 'a' + (v - 10) as char
  }

  predicate IsHexDigit(c: char) {
    '0' <= c <= '9' || 'a' <= c <= 'f'
  }

  function DigitValue(c: char): nat
    requires IsHexDigit(c)
  {
    if c <= '9' then (c - '0') as nat else (c - 'a') as nat + 10
  }

  /** A reader of lower-case hexadecimal numerals; it rejects every other character. */
  function ParseHex(s: seq<char>): Option<nat> {
    if s == [] then Some(0)
    else
      var c, rest := s[|s| - 1], ParseHex(s[..|s| - 1]);
      if rest.Some? && IsHexDigit(c) then Some(16 * rest.value + DigitValue(c)) else None
  }

  /** No superfluous leading zeros. */
  predicate NoLeadingZero(s: seq<char>) {
    |s| >= 1 && (s[0] == '0' ==> |s| == 1)
  }

  lemma {:induction false} LeadingDigitCounts(s: seq<char>)
    requires |s| >= 1 && s[0] != '0' && ParseHex(s).Some?
    ensures ParseHex(s).value > 0
  {
    if |s| > 1 {
      LeadingDigitCounts(s[..|s| - 1]);
    }
  }

  /** Two numerals without leading zeros that read the same are the same, so the output is determined. */
  lemma {:induction false} NumeralUnique(s: seq<char>, t: seq<char>)
    requires NoLeadingZero(s) && NoLeadingZero(t)
    requires ParseHex(s).Some? && ParseHex(s) == ParseHex(t)
    ensures s == t
    decreases |s|
  {
    var s', t' := s[..|s| - 1], t[..|t| - 1];
    var c, d := s[|s| - 1], t[|t| - 1];
    assert ParseHex(s') == ParseHex(t') && c == d;
    if s' != [] {
      LeadingDigitCounts(s');
    }
    if t' != [] {
      LeadingDigitCounts(t');
    }
    if s' != [] {
      NumeralUnique(s', t');
    }
    assert s == s' + [c] && t == t' + [d];
  }

  // ----- reading a number bit by bit from the top

  /** The number formed by the limbs above i and the bits of limb i from bit p upwards. */
  ghost function TopPart(s: seq<Word>, i: nat, p: nat): nat
    requires i < |s| && p <= BLEN
    decreases BLEN - p
  {
    if p == BLEN then Value(s[i + 1..])
    else 2 * TopPart(s, i, p + 1) + (if BitAnd(s[i], Pow2(p)) != 0 then 1 else 0)
  }

  /** x moved up by k bits. */
  ghost function DoubleUp(x: nat, k: nat): nat {
    if k == 0 then x else 2 * DoubleUp(x, k - 1)
  }

  lemma {:induction false} DoubleUpIsProduct(x: nat, k: nat)
    ensures DoubleUp(x, k) == Pow2(k) * x
  {
    if k > 0 {
      DoubleUpIsProduct(x, k - 1);
      Doubling(Pow2(k - 1), x);
    }
  }

  lemma {:induction false} TopPartValue(s: seq<Word>, i: nat, p: nat, k: nat)
    requires Limbed(s) && i < |s| && p + k == BLEN
    ensures TopPart(s, i, p) == DoubleUp(Value(s[i + 1..]), k) + ShiftRight(s[i], p)
    decreases k
  {
    if k == 0 {
      PayloadAndCarry(s[i]);
    } else {
      TopPartValue(s, i, p + 1, k - 1);
      ShiftOnce(s[i], p);
      SingleBit(s[i], p);
    }
  }

  /** When all bits of limb i have been read, the limbs from i upwards are known. */
  lemma TopPartEnds(s: seq<Word>, i: nat, p: nat, k: nat)
    requires Limbed(s) && i < |s| && p == 0 && k == BLEN
    ensures TopPart(s, i, p) == Value(s[i..])
  {
    TopPartValue(s, i, p, k);
    DoubleUpLimb(Value(s[i + 1..]), k);
    assert s[i..][1..] == s[i + 1..];
  }

  lemma DoubleUpLimb(x: nat, k: nat)
    requires k == BLEN
    ensures DoubleUp(x, k) == LIMB * x
  {
    DoubleUpIsProduct(x, k);
    Pow2Word();
  }

  /** x shifted up so that the bits below b's position become the low end of a nibble. */
  ghost function Aligned(x: nat, b: nat): nat {
    if b == 8 then 16 * x else if b == 4 then 8 * x else if b == 2 then 4 * x else 2 * x
  }

  /** How many bits of its nibble have been read when b is the next one. */
  ghost function BitsRead(b: nat): nat {
    if b == 8 then 0 else if b == 4 then 1 else if b == 2 then 2 else 3
  }

  predicate IsNibbleBit(b: nat) {
    b == 1 || b == 2 || b == 4 || b == 8
  }

  /** The bits of the nibble v from b downwards are clear. */
  ghost predicate LowClear(v: nat, b: nat) {
    if b == 8 then v == 0 else if b == 4 then v % 8 == 0 else if b == 2 then v % 4 == 0 else v % 2 == 0
  }

  /** Setting the bit b of a nibble whose lower bits are still clear. */
  lemma OrNibbleBit(v: nat, b: nat)
    requires IsNibbleBit(b)
    requires v < 16 && LowClear(v, b)
    ensures BitOr(v, b) == v + b && BitOr(v, 0) == v
  {
    OrZero(v);
    var k := if b == 8 then 4 else if b == 4 then 3 else if b == 2 then 2 else 1;
    if b == 8 {
      LowBitsOfZero(4);
    } else if b == 4 {
      NoLowBits(v, 3, 8);
    } else if b == 2 {
      NoLowBits(v, 2, 4);
    } else {
      NoLowBits(v, 1, 2);
    }
    DisjointOrIsSum(v, b, k);
  }

  lemma NoLowBits(v: nat, k: nat, m: nat)
    requires m == Pow2(k) && v % m == 0
    ensures LowBits(v, k) == 0
  {
    ShiftSplits(v, k);
    RemainderUnique(m, v / m, 0, ShiftRight(v, k), LowBits(v, k));
  }

  /**
   * The progress of rl_str when the bits read so far spell x: buf holds the printed nibbles,
   * v the one in work, b its next bit, and f nibbles are finished, leading zeros included.
   */
  ghost predicate Printing(buf: seq<char>, v: nat, b: nat, x: nat, f: nat) {
    && IsNibbleBit(b) && v < 16 && LowClear(v, b)
    && |buf| <= f
    && ParseHex(buf).Some? && 16 * ParseHex(buf).value + v == Aligned(x, b)
    && (|buf| > 0 ==> buf[0] != '0')
  }

  /** What happens to a finished nibble: it is printed unless it is a leading zero. */
  function Flush(buf: seq<char>, v: nat): seq<char>
    requires v < 16
  {
    if buf != [] || v != 0 then buf + [HexDigit(v)] else buf
  }

  lemma BitArithmetic(h: nat, v: nat, b: nat, x: nat, bit: bool)
    requires IsNibbleBit(b) && v < 16 && LowClear(v, b) && 16 * h + v == Aligned(x, b)
    ensures var v' := if bit then v + b else v;
            var x' := 2 * x + (if bit then 1 else 0);
            && v' < 16
            && (b > 1 ==> LowClear(v', b / 2) && 16 * h + v' == Aligned(x', b / 2))
            && (b == 1 ==> 16 * h + v' == x')
  {}

  lemma FlushParses(buf: seq<char>, v: nat)
    requires v < 16 && ParseHex(buf).Some? && (|buf| > 0 ==> buf[0] != '0')
    ensures ParseHex(Flush(buf, v)) == Some(16 * ParseHex(buf).value + v)
    ensures var s := Flush(buf, v); |buf| <= |s| <= |buf| + 1 && (|s| > 0 ==> s[0] != '0')
  {
    var s := buf + [HexDigit(v)];
    assert s[..|s| - 1] == buf;
  }

  /** One more bit: the nibble either stays in work or is finished and flushed. */
  lemma BitCollected(buf: seq<char>, v: nat, b: nat, x: nat, f: nat, bit: bool)
    requires Printing(buf, v, b, x, f)
    ensures var v' := BitOr(v, if bit then b else 0);
            var x' := 2 * x + (if bit then 1 else 0);
            && v' < 16
            && (b > 1 ==> Printing(buf, v', b / 2, x', f) && BitsRead(b / 2) == BitsRead(b) + 1)
            && (b == 1 ==> Printing(Flush(buf, v'), 0, 8, x', f + 1))
  {
    OrNibbleBit(v, b);
    var v' := if bit then v + b else v;
    BitArithmetic(ParseHex(buf).value, v, b, x, bit);
    FlushParses(buf, v');
  }

  /** `1 << ((m + 3) & 3)` pads the top nibble so that the bits come out in whole nibbles. */
  lemma FirstNibbleBit(m: nat) returns (k: nat)
    ensures var b := ShiftLeft(1, BitAnd(m + 3, 3)); IsNibbleBit(b) && BitsRead(b) + m == 4 * k
  {
    var e := (m + 3) % 4;
    MaskIsLowBits(m + 3, 2);
    ShiftSplits(m + 3, 2);
    assert Pow2(2) == 4 && BitAnd(m + 3, 3) == e;
    assert Pow2(0) == 1 && Pow2(1) == 2 && Pow2(3) == 8;
    k := (m + 3) / 4;
  }

  /** After a whole number of nibbles the text spells the number. */
  lemma PrintingEnds(buf: seq<char>, v: nat, b: nat, x: nat, f: nat, k: nat)
    requires Printing(buf, v, b, x, f) && 4 * f + BitsRead(b) == 4 * k
    ensures var text := if buf == [] then ['0'] else buf; NoLeadingZero(text) && ParseHex(text) == Some(x)
  {
    assert BitsRead(b) == 0;
    assert ['0'][..0] == [];
  }

  /** The single-bit mask for bit p - 1, and 0 when no bit is left. */
  ghost function MaskBelow(p: nat): nat {
    if p == 0 then 0 else Pow2(p - 1)
  }

  /** The mask moves down one bit. */
  lemma NextMask(p: nat)
    requires p > 0
    ensures MaskBelow(p) > 0 && ShiftRight(MaskBelow(p), 1) == MaskBelow(p - 1)
  {}

  lemma FirstMask(p: nat)
    requires p == BLEN
    ensures ShiftLeft(1, p - 1) == MaskBelow(p)
  {
    Pow2Word();
  }

  /** The inner loop body of rl_str: put one more bit into the nibble. */
  method PrintBit(buf: array<char>, n0: nat, v0: nat, b0: nat, bit: bool, ghost x: nat, ghost f0: nat)
    returns (n: nat, v: nat, b: nat, ghost f: nat)
    requires f0 < buf.Length && n0 <= f0 && Printing(buf[..n0], v0, b0, x, f0)
    modifies buf
    ensures n <= f <= f0 + 1 && 4 * f + BitsRead(b) == 4 * f0 + BitsRead(b0) + 1
    ensures n <= buf.Length && Printing(buf[..n], v, b, 2 * x + (if bit then 1 else 0), f)
  {
    n, f := n0, f0;
    ghost var done := buf[..n];
    BitCollected(done, v0, b0, x, f0, bit);
    v := BitOr(v0, if bit then b0 else 0);
    b := b0 / 2;
    if b == 0 {
      if n != 0 || v != 0 {  // skip the leading zeroes
        buf[n] := HexDigit(v);
        n := n + 1;
      }
      assert buf[..n] == Flush(done, v);
      b, v, f := 8, 0, f + 1;
    }
  }

  /** The body of the middle loop: print the bit of the limb that z selects and move z down. */
  method PrintSelected(buf: array<char>, n0: nat, v0: nat, b0: nat, limb: Word, z0: Word,
                       ghost s: seq<Word>, ghost i: nat, ghost p: nat, ghost f0: nat)
    returns (n: nat, v: nat, b: nat, z: Word, ghost f: nat)
    requires i < |s| && limb == s[i] && 0 < p <= BLEN && z0 == MaskBelow(p)
    requires f0 < buf.Length && n0 <= f0 && Printing(buf[..n0], v0, b0, TopPart(s, i, p), f0)
    modifies buf
    ensures z == MaskBelow(p - 1) && 4 * f + BitsRead(b) == 4 * f0 + BitsRead(b0) + 1
    ensures n <= f <= f0 + 1 && n <= buf.Length && Printing(buf[..n], v, b, TopPart(s, i, p - 1), f)
  {
    NextMask(p);
    n, v, b, f := PrintBit(buf, n0, v0, b0, BitAnd(limb, z0) != 0, TopPart(s, i, p), f0);
    z := ShiftRight(z0, 1);
  }

  /** The middle loop of rl_str: print the bits of limb i, most significant first. */
  method PrintLimb(buf: array<char>, n0: nat, v0: nat, b0: nat, limb: Word,
                   ghost s: seq<Word>, ghost i: nat, ghost f0: nat)
    returns (n: nat, v: nat, b: nat, ghost f: nat)
    requires i < |s| && Limbed(s) && limb == s[i]
    requires 4 * f0 + BitsRead(b0) + BLEN <= 4 * (MAX_BSTR - 1) && buf.Length == MAX_BSTR
    requires n0 <= f0 && Printing(buf[..n0], v0, b0, Value(s[i + 1..]), f0)
    modifies buf
    ensures 4 * f + BitsRead(b) == 4 * f0 + BitsRead(b0) + BLEN
    ensures n <= f < MAX_BSTR && Printing(buf[..n], v, b, Value(s[i..]), f)
  {
    n, v, b, f := n0, v0, b0, f0;
    var top := BLEN - 1;
    ghost var p := top + 1;
    FirstMask(p);
    var z: Word := ShiftLeft(1, top);
    while z != 0
      invariant 0 <= p <= BLEN && z == MaskBelow(p)
      invariant 4 * f + BitsRead(b) + p == 4 * f0 + BitsRead(b0) + BLEN
      invariant n <= f < MAX_BSTR && Printing(buf[..n], v, b, TopPart(s, i, p), f)
      decreases p
    {
      n, v, b, z, f := PrintSelected(buf, n, v, b, limb, z, s, i, p, f);
      p := p - 1;
    }
    TopPartEnds(s, i, p, BLEN);
  }

  /** The outer loop of rl_str: print all limbs, the most significant first; b0 is the first nibble bit. */
  method PrintLimbs(x: BigInt, buf: array<char>, b0: nat, ghost k: nat) returns (n: nat, v: nat, b: nat, ghost f: nat)
    requires x.Valid() && buf.Length == MAX_BSTR && x.a.Length == INT_LEN
    requires IsNibbleBit(b0) && BitsRead(b0) + BLEN * x.len == 4 * k && k < MAX_BSTR
    modifies buf
    ensures n <= f < MAX_BSTR && 4 * f + BitsRead(b) == 4 * k && Printing(buf[..n], v, b, x.Val(), f)
    ensures x.a[..x.len] == old(x.a[..x.len])
  {
    n, v, b, f := 0, 0, b0, 0;
    ghost var s := x.a[..x.len];
    NothingPrinted(buf[..n], s, b);
    for i := x.len downto 0
      invariant x.a[..x.len] == s
      invariant 4 * f + BitsRead(b) + BLEN * i == 4 * k
      invariant n <= f < MAX_BSTR && Printing(buf[..n], v, b, Value(s[i..]), f)
    {
      assert s[i] == x.a[i];
      n, v, b, f := PrintLimb(buf, n, v, b, x.a[i], s, i, f);
    }
    assert s[0..] == s;
  }

  lemma NothingPrinted(buf: seq<char>, s: seq<Word>, b: nat)
    requires buf == [] && IsNibbleBit(b)
    ensures Printing(buf, 0, b, Value(s[|s|..]), 0)
  {
    assert s[|s|..] == [];
  }

  /** The number of nibbles, the first one possibly padded, fits the buffer. */
  lemma NibblesFit(m: nat, r: nat, k: nat)
    requires m <= BLEN * INT_LEN && r < 4 && r + m == 4 * k
    ensures k < MAX_BSTR
  {}

  /** rl_str. */
  method ToHex(x: BigInt) returns (text: seq<char>)
    requires x.Valid()
    ensures NoLeadingZero(text) && ParseHex(text) == Some(x.Val())
    ensures |text| + 1 <= MAX_BSTR == 76
  {
    var buf := new char[MAX_BSTR];
    var m := BLEN * x.len;
    ghost var k := FirstNibbleBit(m);
    var b: nat := ShiftLeft(1, BitAnd(m + 3, 3));
    NibblesFit(m, BitsRead(b), k);
    var n, v;
    ghost var f;
    n, v, b, f := PrintLimbs(x, buf, b, k);
    ghost var printed := buf[..n];
    PrintingEnds(printed, v, b, x.Val(), f, k);
    if n == 0 {
      buf[n] := '0';
      n := n + 1;
    }
    buf[n] := '\0';
    text := buf[..n];
    assert text == if printed == [] then ['0'] else printed;
  }
}
