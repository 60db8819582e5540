/**
 * Reports whose base is not a whole number of blocks away from the own one. The log message of
 * process_report says they are ignored; this is what happens to them.
 */
module Misaligned {
  import opened Options
  import opened Words
  import opened Frames
  import opened FrameBounds
  import opened Scaling

  // ----- when any report is ignored

  /** Entering this state changes nothing. */
  predicate Entered(f: Frame, id: int, kind: Mark) {
    id < 0 || (id < |f.blocks| && kind <= f.blocks[id] && !(kind == DONE && id == f.job))
  }

  /** The report at the own base, if it is not stale; for a base that is not higher. */
  function AtOwnBase(f: Frame, r: Report, unit: nat): Option<Report>
    requires unit >= 1 && r.base <= f.base
  {
    if r.base < f.base then Lower(r, f.base, unit) else Some(r)
  }

  lemma EnterChangesUnless(f: Frame, id: int, kind: Mark)
    requires Valid(f) && id < |f.blocks|
    ensures Enter(f, id, kind) == f <==> Entered(f, id, kind)
  {
    if Entered(f, id, kind) && id >= 0 {
      assert f.blocks[id := f.blocks[id]] == f.blocks;
    } else if id >= 0 && kind > f.blocks[id] {
      assert Enter(f, id, kind).blocks[id] == kind;
    }
  }

  lemma ProgressChangesUnless(f: Frame, h: Frame, unit: nat)
    requires Settled(f) && Valid(h) && h.base == f.base && unit >= 1
    ensures Progress(h, false, unit).0 == f <==> h == f
  {
    if h.blocks[0] == DONE {
      MoreThanNone(LeadingDone(h.blocks), unit);
    }
  }

  lemma MoreThanNone(d: nat, unit: nat)
    requires d >= 1 && unit >= 1
    ensures d * unit >= 1
  {}

  /**
   * Aligned or not, a report leaves the frame as it is exactly if its base is not higher and it
   * is stale, names no block, or names one that is marked at least as high and not current.
   */
  lemma IgnoredIff(f: Frame, r: Report, unit: nat)
    requires Settled(f) && InRange(r, |f.blocks|) && unit >= 1
    ensures Absorb(f, r, unit).0 == f <==>
              r.base <= f.base &&
              var l := AtOwnBase(f, r, unit); l.None? || Entered(f, l.value.id, l.value.kind)
  {
    if r.base > f.base {
      AbsorbReaches(f, r, unit);
    } else {
      if r.base < f.base {
        LowerInRange(r, f.base, unit);
      }
      var l := AtOwnBase(f, r, unit);
      if l.Some? {
        EnterChangesUnless(f, l.value.id, l.value.kind);
        ProgressChangesUnless(f, Enter(f, l.value.id, l.value.kind), unit);
      }
    }
  }

  /** Which block a report with a lower base is entered for: it moves up to the next own block. */
  lemma {:induction false} LowerIs(r: Report, base: nat, unit: nat, m: nat)
    requires unit >= 1 && r.base < base && r.id >= -1
    requires m >= 1 && r.base + (m - 1) * unit < base <= r.base + m * unit
    ensures Lower(r, base, unit)
            == if r.id < m - 1 then None else Some(Report(r.base + m * unit, r.id - m, r.kind))
    decreases m
  {
    MoreBlocks(m - 1, unit);
    if m == 1 {
    } else {
      MoreBlocks(m - 2, unit);
      LowerStep(m, unit);
      if r.id >= 0 {
        LowerIs(Report(r.base + unit, r.id - 1, r.kind), base, unit, m - 1);
      }
    }
  }

  lemma LowerStep(m: nat, unit: nat)
    requires m >= 2
    ensures (m - 1) * unit >= unit
  {}

  // ----- congruent bases and the mismatch branch

  /** Base b lies a whole number of blocks above base a. */
  ghost predicate Congruent(a: nat, b: nat, unit: nat) {
    exists m: nat :: b == Address(m, a, unit)
  }

  lemma CongruentNext(a: nat, b: nat, unit: nat)
    requires a < b
    ensures Congruent(a, b, unit) <==> Congruent(a + unit, b, unit)
  {
    if Congruent(a, b, unit) {
      var m: nat :| b == Address(m, a, unit);
      AddressShift(m, a, unit);
      assert m > 0;
    }
    if Congruent(a + unit, b, unit) {
      var m: nat :| b == Address(m, a + unit, unit);
      AddressShift(m + 1, a, unit);
    }
  }

  lemma AddressShift(m: int, a: nat, unit: nat)
    ensures Address(m, a, unit) == Address(m - 1, a + unit, unit)
    ensures m == 0 ==> Address(m, a, unit) == a
  {
    Distribute(unit, m, 1);
  }

  /** The mismatch branch of process_report is taken exactly for a report whose base is not congruent. */
  lemma {:induction false} MismatchIff(r: Report, base: nat, unit: nat)
    requires unit >= 1 && r.base < base && r.id >= -1
    ensures var l := Lower(r, base, unit);
            l.Some? ==> (l.value.base == base <==> Congruent(r.base, base, unit))
    decreases base - r.base
  {
    CongruentNext(r.base, base, unit);
    if r.base + unit < base {
      if r.id >= 0 {
        MismatchIff(Report(r.base + unit, r.id - 1, r.kind), base, unit);
      }
    } else {
      NotBelow(r.base + unit, base, unit);
    }
  }

  lemma NotBelow(a: nat, b: nat, unit: nat)
    requires a >= b
    ensures Congruent(a, b, unit) <==> a == b
  {
    AddressShift(0, a, unit);
    if a == b {
      assert b == Address(0, a, unit);
    }
  }

  // ----- reports with a higher base, which are never checked

  /** The own frame jumps exactly if the reported base lies beyond its last block. */
  lemma JumpsIff(f: Frame, target: nat, unit: nat)
    requires Valid(f) && unit >= 1 && target > f.base
    ensures Climb(f.base, target, unit, |f.blocks|) == |f.blocks| <==> target > f.base + (|f.blocks| - 1) * unit
  {
    var d, n := Climb(f.base, target, unit, |f.blocks|), |f.blocks|;
    ClimbBounds(f.base, target, unit, n);
    MoreBlocks(d - 1, unit);
    if d < n {
      ProductMonotonic(unit, d, n - 1);
    }
  }

  /** Blocks of the own frame end at the target exactly if it is congruent. */
  lemma LandsIff(base: nat, target: nat, unit: nat, d: nat)
    requires unit >= 1 && target <= base + d * unit < target + unit
    ensures base + d * unit == target <==> Congruent(base, target, unit)
  {
    if base + d * unit == target {
      assert target == Address(d, base, unit);
    }
    if Congruent(base, target, unit) {
      var m: nat :| target == Address(m, base, unit);
      Distribute(unit, m, 1);
      if m < d {
        ProductMonotonic(unit, m + 1, d);
      } else {
        ProductMonotonic(unit, d, m);
      }
    }
  }

  /**
   * A report with a higher base brings the frame to that base exactly if the base is congruent
   * or the frame jumps; otherwise the frame ends up above it and blocks are misread.
   */
  lemma ReachesReportedBaseIff(f: Frame, target: nat, unit: nat)
    requires Valid(f) && unit >= 1 && target > f.base
    ensures ClimbTo(f, target, unit).base == target <==>
              Congruent(f.base, target, unit) || target > f.base + (|f.blocks| - 1) * unit
  {
    var d := Climb(f.base, target, unit, |f.blocks|);
    ClimbBounds(f.base, target, unit, |f.blocks|);
    JumpsIff(f, target, unit);
    if d < |f.blocks| {
      LandsIff(f.base, target, unit, d);
    }
  }

  /** The frame loses its alignment exactly when it jumps to an incongruent base. */
  lemma LosesAlignmentIff(f: Frame, target: nat, unit: nat)
    requires Valid(f) && unit >= 1 && target > f.base
    ensures !Congruent(f.base, ClimbTo(f, target, unit).base, unit) <==>
              !Congruent(f.base, target, unit) && target > f.base + (|f.blocks| - 1) * unit
  {
    var d := Climb(f.base, target, unit, |f.blocks|);
    JumpsIff(f, target, unit);
    if d < |f.blocks| {
      assert f.base + d * unit == Address(d, f.base, unit);
    }
  }

  // ----- concrete misread reports

  const OPEN: Frame := Frame(17, [FREE, FREE, FREE, FREE], -1)

  lemma FirstBlockDone()
    ensures Progress(Enter(OPEN, 0, DONE), false, 16).0.base == 33
    ensures Progress(Enter(OPEN.(base := 33), 0, DONE), false, 16).0.base == 49
  {
    var m := [FREE, FREE, FREE, FREE][0 := DONE];
    assert m[1] != DONE && LeadingDone(m[1..]) == 0;
  }

  /** A lower base: the report claims 26 to 41 done, the receiver then has 18 to 33 down as done. */
  lemma LowerReportIsMisread()
    ensures !Congruent(9, 17, 16) && Absorb(OPEN, Report(9, 1, DONE), 16).0.base == 33
  {
    MismatchIff(Report(9, 1, DONE), 17, 16);
    assert Lower(Report(9, 1, DONE), 17, 16) == Some(Report(25, 0, DONE));
    FirstBlockDone();
  }

  /** A higher base: the report claims numbers up to 41, the receiver has those up to 49 down as done. */
  lemma HigherReportIsMisread()
    ensures !Congruent(17, 25, 16) && Absorb(OPEN, Report(25, 0, DONE), 16).0.base == 49
  {
    var g := ClimbTo(OPEN, 25, 16);
    assert g == OPEN.(base := 33) by {
      assert g.blocks == [FREE, FREE, FREE, FREE];
    }
    ReachesReportedBaseIff(OPEN, 25, 16);
    FirstBlockDone();
  }

  /** A jump: the receiver takes over a base 57 above its own, no multiple of the block size. */
  lemma JumpLosesAlignment()
    ensures !Congruent(17, 74, 16) && Absorb(OPEN, Report(74, -1, DONE), 16).0.base == 74
  {
    CongruentNext(17, 74, 16);
    CongruentNext(33, 74, 16);
    CongruentNext(49, 74, 16);
    CongruentNext(65, 74, 16);
    NotBelow(81, 74, 16);
    JumpsIff(OPEN, 74, 16);
    assert ClimbTo(OPEN, 74, 16).base == 74;
  }
}
