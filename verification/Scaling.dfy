/**
 * Frames whose bases are congruent modulo the block size behave like frames that count in
 * blocks: every critical section commutes with the change of unit.
 */
module Scaling {
  import opened Options
  import opened Words
  import opened Frames
  import opened FrameViews

  /** Read block numbers as addresses: block n starts at origin + unit * n. */
  function Address(n: int, origin: int, unit: nat): int {
    origin + unit * n
  }

  function ScaleFrame(f: Frame, origin: nat, unit: nat): Frame {
    f.(base := Address(f.base, origin, unit))
  }

  function ScaleReport(r: Report, origin: nat, unit: nat): Report {
    r.(base := Address(r.base, origin, unit))
  }

  function ScaleReports(rs: seq<Report>, origin: nat, unit: nat): (ss: seq<Report>)
    ensures |ss| == |rs| && forall i :: 0 <= i < |rs| ==> ss[i] == ScaleReport(rs[i], origin, unit)
    ensures forall b: nat :: AllInRange(rs, b) ==> AllInRange(ss, b)
  {
    seq(|rs|, i requires 0 <= i < |rs| => ScaleReport(rs[i], origin, unit))
  }

  lemma AddressMonotonic(m: int, n: int, origin: int, unit: nat)
    requires unit >= 1
    ensures m < n <==> Address(m, origin, unit) < Address(n, origin, unit)
    ensures m == n <==> Address(m, origin, unit) == Address(n, origin, unit)
  {
    if m < n {
      StrictlyMonotonic(unit, m, n);
    } else if n < m {
      StrictlyMonotonic(unit, n, m);
    }
  }

  lemma StrictlyMonotonic(unit: nat, m: int, n: int)
    requires unit >= 1 && m < n
    ensures unit * m < unit * n
  {
    Distribute(unit, n, m);
    ProductAtLeast(unit, n - m);
  }

  lemma AddressAdd(n: int, d: int, origin: int, unit: nat)
    ensures Address(n + d, origin, unit) == Address(n, origin, unit) + d * unit
  {
    Distribute(unit, n, d);
  }

  // ----- views and claims on addresses

  /** What a frame says about the block that starts at address a. */
  function MarkAt(f: Frame, a: int, unit: nat): Mark
    requires unit >= 1
  {
    if a < f.base then DONE
    else
      var j := (a - f.base) / unit;
      if j < |f.blocks| then f.blocks[j] else FREE
  }

  /** What a report claims about it. */
  function ClaimAt(r: Report, a: int, unit: nat): Mark {
    if a < r.base then DONE
    else if r.id >= 0 && a == Address(r.id, r.base, unit) then r.kind
    else FREE
  }

  lemma QuotientOfMultiple(unit: nat, x: nat)
    requires unit >= 1
    ensures (unit * x) / unit == x
  {
    RemainderUnique(unit, (unit * x) / unit, (unit * x) % unit, x, 0);
  }

  lemma MarkScales(f: Frame, k: int, origin: nat, unit: nat)
    requires unit >= 1
    ensures MarkAt(ScaleFrame(f, origin, unit), Address(k, origin, unit), unit) == View(f, k)
  {
    AddressMonotonic(k, f.base, origin, unit);
    if k >= f.base {
      Distribute(unit, k, f.base);
      QuotientOfMultiple(unit, k - f.base);
    }
  }

  lemma ClaimScales(r: Report, k: int, origin: nat, unit: nat)
    requires unit >= 1
    ensures ClaimAt(ScaleReport(r, origin, unit), Address(k, origin, unit), unit) == Claim(r, k)
  {
    AddressMonotonic(k, r.base, origin, unit);
    AddressAdd(r.base, r.id, origin, unit);
    AddressMonotonic(k, r.base + r.id, origin, unit);
  }

  // ----- the critical sections

  lemma {:induction false} LowerScales(r: Report, base: nat, origin: nat, unit: nat)
    requires unit >= 1 && r.base < base && r.id >= -1
    ensures ScaleReport(r, origin, unit).base < Address(base, origin, unit)
    ensures var l := Lower(r, base, 1);
            Lower(ScaleReport(r, origin, unit), Address(base, origin, unit), unit)
            == if l.None? then None else Some(ScaleReport(l.value, origin, unit))
    decreases base - r.base
  {
    AddressMonotonic(r.base, base, origin, unit);
    if r.id >= 0 {
      var r' := Report(r.base + 1, r.id - 1, r.kind);
      AddressAdd(r.base, 1, origin, unit);
      AddressMonotonic(r'.base, base, origin, unit);
      if r'.base < base {
        LowerScales(r', base, origin, unit);
      }
    }
  }

  lemma {:induction false} ClimbScales(base: nat, target: nat, left: nat, origin: nat, unit: nat)
    requires unit >= 1 && left >= 1
    ensures Climb(Address(base, origin, unit), Address(target, origin, unit), unit, left)
            == Climb(base, target, 1, left)
    decreases left
  {
    AddressAdd(base, 1, origin, unit);
    AddressMonotonic(base + 1, target, origin, unit);
    if left > 1 && target > base + 1 {
      ClimbScales(base + 1, target, left - 1, origin, unit);
    }
  }

  lemma ProgressScales(f: Frame, fin: bool, origin: nat, unit: nat)
    requires Valid(f)
    ensures var (g, out) := Progress(f, fin, 1);
            Progress(ScaleFrame(f, origin, unit), fin, unit)
            == (ScaleFrame(g, origin, unit), ScaleReports(out, origin, unit))
  {
    AddressAdd(f.base, LeadingDone(f.blocks), origin, unit);
    var (g, out) := Progress(f, fin, 1);
    assert Progress(ScaleFrame(f, origin, unit), fin, unit).1 == ScaleReports(out, origin, unit);
  }

  lemma ClimbToScales(f: Frame, target: nat, origin: nat, unit: nat)
    requires Valid(f) && unit >= 1 && target > f.base
    ensures Address(target, origin, unit) > Address(f.base, origin, unit)
    ensures ClimbTo(ScaleFrame(f, origin, unit), Address(target, origin, unit), unit)
            == ScaleFrame(ClimbTo(f, target, 1), origin, unit)
  {
    AddressMonotonic(f.base, target, origin, unit);
    ClimbScales(f.base, target, |f.blocks|, origin, unit);
    AddressAdd(f.base, Climb(f.base, target, 1, |f.blocks|), origin, unit);
  }

  /** process_report on aligned frames and reports is process_report on block numbers. */
  lemma AbsorbScales(f: Frame, r: Report, origin: nat, unit: nat)
    requires Settled(f) && InRange(r, |f.blocks|) && unit >= 1
    ensures var (g, out) := Absorb(f, r, 1);
            Absorb(ScaleFrame(f, origin, unit), ScaleReport(r, origin, unit), unit)
            == (ScaleFrame(g, origin, unit), ScaleReports(out, origin, unit))
  {
    AddressMonotonic(r.base, f.base, origin, unit);
    AddressMonotonic(f.base, r.base, origin, unit);
    if r.base < f.base {
      LowerInRange(r, f.base, 1);
      LowerScales(r, f.base, origin, unit);
      var l := Lower(r, f.base, 1);
      if l.Some? {
        ProgressScales(Enter(f, l.value.id, l.value.kind), false, origin, unit);
      } else {
        assert ScaleReports([], origin, unit) == [];
      }
    } else {
      var g := if r.base > f.base then ClimbTo(f, r.base, 1) else f;
      if r.base > f.base {
        ClimbToScales(f, r.base, origin, unit);
      }
      ProgressScales(Enter(g, r.id, r.kind), false, origin, unit);
    }
  }

  lemma TakeBlockScales(f: Frame, bi: nat, origin: nat, unit: nat)
    requires Valid(f) && bi < |f.blocks|
    ensures var (g, out) := TakeBlock(f, bi);
            TakeBlock(ScaleFrame(f, origin, unit), bi)
            == (ScaleFrame(g, origin, unit), ScaleReports(out, origin, unit))
  {
    var (g, out) := TakeBlock(f, bi);
    assert TakeBlock(ScaleFrame(f, origin, unit), bi).1 == ScaleReports(out, origin, unit);
  }

  lemma CompleteBlockScales(f: Frame, origin: nat, unit: nat)
    requires Valid(f)
    ensures var (g, out) := CompleteBlock(f, 1);
            CompleteBlock(ScaleFrame(f, origin, unit), unit)
            == (ScaleFrame(g, origin, unit), ScaleReports(out, origin, unit))
  {
    if f.job >= 0 {
      ProgressScales(f.(blocks := f.blocks[f.job := DONE]), true, origin, unit);
    } else {
      assert ScaleReports([], origin, unit) == [];
    }
  }

  lemma {:induction false} AbsorbAllScales(f: Frame, rs: seq<Report>, origin: nat, unit: nat)
    requires Settled(f) && unit >= 1 && AllInRange(rs, |f.blocks|)
    ensures AbsorbAll(ScaleFrame(f, origin, unit), ScaleReports(rs, origin, unit), unit)
            == ScaleFrame(AbsorbAll(f, rs, 1), origin, unit)
    decreases |rs|
  {
    if rs != [] {
      var n := |rs| - 1;
      var ss := ScaleReports(rs, origin, unit);
      assert ss[..n] == ScaleReports(rs[..n], origin, unit);
      AbsorbAllScales(f, rs[..n], origin, unit);
      AbsorbScales(AbsorbAll(f, rs[..n], 1), rs[n], origin, unit);
    }
  }

  /**
   * Aligned frames and reports: whatever the order and repetition in which the same reports
   * arrive, base and block states end up the same.
   */
  lemma AlignedReportsCommute(f: Frame, rs: seq<Report>, ts: seq<Report>, origin: nat, unit: nat)
    requires Settled(f) && unit >= 1 && (forall r :: r in rs <==> r in ts)
    requires AllInRange(rs, |f.blocks|)
    requires AllInRange(ts, |f.blocks|)
    ensures var g := ScaleFrame(f, origin, unit);
            var x := AbsorbAll(g, ScaleReports(rs, origin, unit), unit);
            var y := AbsorbAll(g, ScaleReports(ts, origin, unit), unit);
            x.base == y.base && x.blocks == y.blocks
  {
    AbsorbAllScales(f, rs, origin, unit);
    AbsorbAllScales(f, ts, origin, unit);
    OrderAndRepetitionDoNotMatter(f, rs, ts);
  }
}
