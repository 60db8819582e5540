/**
 * The block a node works on: which reports make process_report drop it, and what the last
 * critical section of compute_block then marks and sends.
 */
module CurrentBlock {
  import opened Words
  import opened Frames
  import opened FrameBounds
  import opened FrameViews
  import opened Misaligned
  import opened Scaling

  // ----- with any reports, aligned or not

  /** The current block has not been reported done. */
  predicate AtWork(f: Frame) {
    Valid(f) && f.job >= 0 && f.blocks[f.job] != DONE
  }

  /** The block at address a lies below the frame or is marked done in it. */
  ghost predicate Finished(f: Frame, a: int, unit: nat) {
    a < f.base || exists j: nat :: j < |f.blocks| && a == Address(j, f.base, unit) && f.blocks[j] == DONE
  }

  /** Every later frame either still works on the block at address a or has it as finished. */
  ghost predicate Accounted(f: Frame, a: int, unit: nat) {
    if f.job == -1 then Finished(f, a, unit) else AtWork(f) && a == Address(f.job, f.base, unit)
  }

  lemma EnterAccounts(f: Frame, id: int, kind: Mark, a: int, unit: nat)
    requires Valid(f) && -1 <= id < |f.blocks| && Accounted(f, a, unit)
    ensures Accounted(Enter(f, id, kind), a, unit)
  {
    var g := Enter(f, id, kind);
    if f.job >= 0 && g.job == -1 {
      assert g.blocks[f.job] == DONE;
    } else if f.job == -1 && a >= f.base {
      var j: nat :| j < |f.blocks| && a == Address(j, f.base, unit) && f.blocks[j] == DONE;
      assert g.blocks[j] == DONE;
    }
  }

  /** The window moves up by d blocks. */
  lemma ShiftAccounts(f: Frame, d: nat, a: int, unit: nat)
    requires Valid(f) && unit >= 1 && Accounted(f, a, unit)
    ensures Accounted(Frame(f.base + d * unit, Shift(f.blocks, d), ShiftJob(f.job, d)), a, unit)
  {
    var g := Frame(f.base + d * unit, Shift(f.blocks, d), ShiftJob(f.job, d));
    assert f.base + d * unit == Address(d, f.base, unit);
    if f.job >= 0 {
      AddressMonotonic(f.job, d, f.base, unit);
      AddressFrom(f.job, d, f.base, unit);
    } else if a >= g.base {
      var j: nat :| j < |f.blocks| && a == Address(j, f.base, unit) && f.blocks[j] == DONE;
      AddressMonotonic(j, d, f.base, unit);
      AddressFrom(j, d, f.base, unit);
      assert g.blocks[j - d] == DONE;
    }
  }

  lemma AddressFrom(j: int, d: int, base: int, unit: nat)
    ensures Address(j, base, unit) == Address(j - d, Address(d, base, unit), unit)
  {
    Distribute(unit, j, d);
  }

  /** The window jumps beyond its own last block. */
  lemma JumpAccounts(f: Frame, target: nat, a: int, unit: nat)
    requires Valid(f) && unit >= 1 && Accounted(f, a, unit) && target > Address(|f.blocks| - 1, f.base, unit)
    ensures a < target
  {
    var n := |f.blocks| - 1;
    if f.job >= 0 {
      ProductMonotonic(unit, f.job, n);
    } else if a >= f.base {
      var j: nat :| j < |f.blocks| && a == Address(j, f.base, unit) && f.blocks[j] == DONE;
      ProductMonotonic(unit, j, n);
    } else {
      ProductMonotonic(unit, 0, n);
    }
  }

  lemma ClimbAccounts(f: Frame, target: nat, a: int, unit: nat)
    requires Valid(f) && unit >= 1 && target > f.base && Accounted(f, a, unit)
    ensures Valid(ClimbTo(f, target, unit)) && Accounted(ClimbTo(f, target, unit), a, unit)
  {
    var d := Climb(f.base, target, unit, |f.blocks|);
    JumpsIff(f, target, unit);
    if d == |f.blocks| {
      JumpAccounts(f, target, a, unit);
    } else {
      ShiftAccounts(f, d, a, unit);
    }
  }

  lemma ProgressAccounts(f: Frame, fin: bool, a: int, unit: nat)
    requires Valid(f) && unit >= 1 && Accounted(f, a, unit)
    ensures Accounted(Progress(f, fin, unit).0, a, unit)
  {
    ShiftAccounts(f, LeadingDone(f.blocks), a, unit);
  }

  lemma AbsorbAccounts(f: Frame, r: Report, a: int, unit: nat)
    requires Settled(f) && InRange(r, |f.blocks|) && unit >= 1 && Accounted(f, a, unit)
    ensures Accounted(Absorb(f, r, unit).0, a, unit)
  {
    if r.base < f.base {
      LowerInRange(r, f.base, unit);
      var l := Lower(r, f.base, unit);
      if l.Some? {
        EnterAccounts(f, l.value.id, l.value.kind, a, unit);
        ProgressAccounts(Enter(f, l.value.id, l.value.kind), false, a, unit);
      }
    } else {
      var g := if r.base > f.base then ClimbTo(f, r.base, unit) else f;
      if r.base > f.base {
        ClimbAccounts(f, r.base, a, unit);
      }
      EnterAccounts(g, r.id, r.kind, a, unit);
      ProgressAccounts(Enter(g, r.id, r.kind), false, a, unit);
    }
  }

  lemma {:induction false} AbsorbAllAccounts(f: Frame, rs: seq<Report>, a: int, unit: nat)
    requires Settled(f) && unit >= 1 && AllInRange(rs, |f.blocks|) && Accounted(f, a, unit)
    ensures Accounted(AbsorbAll(f, rs, unit), a, unit)
    decreases |rs|
  {
    if rs != [] {
      var n := |rs| - 1;
      AbsorbAllAccounts(f, rs[..n], a, unit);
      AbsorbAccounts(AbsorbAll(f, rs[..n], unit), rs[n], a, unit);
    }
  }

  lemma MarkAtIndex(f: Frame, j: nat, unit: nat)
    requires unit >= 1 && j < |f.blocks|
    ensures MarkAt(f, Address(j, f.base, unit), unit) == f.blocks[j]
  {
    ProductMonotonic(unit, 0, j);
    QuotientOfMultiple(unit, j);
  }

  lemma AccountedMark(f: Frame, a: int, unit: nat)
    requires Valid(f) && unit >= 1 && Accounted(f, a, unit)
    ensures f.job == -1 <==> MarkAt(f, a, unit) == DONE
  {
    if f.job >= 0 {
      MarkAtIndex(f, f.job, unit);
    } else if a >= f.base {
      var j: nat :| j < |f.blocks| && a == Address(j, f.base, unit) && f.blocks[j] == DONE;
      MarkAtIndex(f, j, unit);
    }
  }

  /**
   * Whatever reports are processed, aligned or not: an open current block is dropped exactly if
   * the frame then has it down as done.
   */
  lemma DroppedIffDone(f: Frame, rs: seq<Report>, unit: nat)
    requires Settled(f) && AtWork(f) && unit >= 1 && AllInRange(rs, |f.blocks|)
    ensures var g := AbsorbAll(f, rs, unit);
            g.job == -1 <==> MarkAt(g, Address(f.job, f.base, unit), unit) == DONE
  {
    var a := Address(f.job, f.base, unit);
    AbsorbAllAccounts(f, rs, a, unit);
    AccountedMark(AbsorbAll(f, rs, unit), a, unit);
  }

  // ----- with aligned reports: which claims make it be dropped

  lemma EnterDropsIff(f: Frame, id: int, kind: Mark)
    requires Valid(f) && -1 <= id < |f.blocks|
    ensures var g := Progress(Enter(f, id, kind), false, 1).0;
            g.job == -1 <==> f.job == -1 || f.base + f.job < g.base || (kind == DONE && id == f.job)
  {}

  lemma ClimbDropsIff(f: Frame, target: nat)
    requires Valid(f) && target > f.base
    ensures var g := ClimbTo(f, target, 1);
            && Valid(g) && g.base == target && (g.job == -1 <==> f.job == -1 || f.base + f.job < target)
            && (g.job >= 0 ==> g.job == f.base + f.job - target)
  {
    ClimbCount(f.base, target, |f.blocks|);
  }

  /** Open or done, the current block is dropped exactly if it falls below the frame or is claimed done. */
  lemma AbsorbDropsIff(f: Frame, r: Report)
    requires Settled(f) && InRange(r, |f.blocks|) && f.job >= 0
    ensures var g, c := Absorb(f, r, 1).0, f.base + f.job; g.job == -1 <==> c < g.base || Claim(r, c) == DONE
  {
    var c := f.base + f.job;
    AbsorbSettled(f, r, 1);
    AbsorbReaches(f, r, 1);
    if r.base < f.base {
      LowerInRange(r, f.base, 1);
      LowerClaim(r, f.base, c);
      var l := Lower(r, f.base, 1);
      if l.Some? {
        EnterDropsIff(f, l.value.id, l.value.kind);
      }
    } else if r.base == f.base {
      EnterDropsIff(f, r.id, r.kind);
    } else {
      ClimbDropsIff(f, r.base);
      EnterDropsIff(ClimbTo(f, r.base, 1), r.id, r.kind);
    }
  }

  /** Some report claims block c done. */
  ghost predicate ClaimedDone(rs: seq<Report>, c: int) {
    exists i :: 0 <= i < |rs| && Claim(rs[i], c) == DONE
  }

  lemma ClaimedNext(rs: seq<Report>, r: Report, c: int)
    ensures ClaimedDone(rs + [r], c) <==> ClaimedDone(rs, c) || Claim(r, c) == DONE
  {
    var ts := rs + [r];
    assert ts[|rs|] == r;
    if ClaimedDone(rs, c) {
      var i :| 0 <= i < |rs| && Claim(rs[i], c) == DONE;
      assert ts[i] == rs[i];
    }
    if i :| 0 <= i < |ts| && Claim(ts[i], c) == DONE {
      assert i < |rs| ==> ts[i] == rs[i];
    }
  }

  /** The same over any number of reports. */
  lemma {:induction false} DroppedIff(f: Frame, rs: seq<Report>)
    requires Settled(f) && AllInRange(rs, |f.blocks|) && f.job >= 0
    ensures var g, c := AbsorbAll(f, rs, 1), f.base + f.job; g.job == -1 <==> c < g.base || ClaimedDone(rs, c)
    decreases |rs|
  {
    if rs != [] {
      var n := |rs| - 1;
      var prev := AbsorbAll(f, rs[..n], 1);
      DroppedIff(f, rs[..n]);
      ClaimedNext(rs[..n], rs[n], f.base + f.job);
      assert rs == rs[..n] + [rs[n]];
      AbsorbSettled(prev, rs[n], 1);
      if prev.job >= 0 {
        JobTrackedAcrossReports(f, rs[..n], 1);
        AbsorbDropsIff(prev, rs[n]);
      } else {
        AbsorbTracksJob(prev, rs[n], 1);
      }
    }
  }

  /** An open current block is dropped exactly if some report claims it done. */
  lemma OpenDroppedIff(f: Frame, rs: seq<Report>)
    requires Settled(f) && AtWork(f) && AllInRange(rs, |f.blocks|)
    ensures AbsorbAll(f, rs, 1).job == -1 <==> ClaimedDone(rs, f.base + f.job)
  {
    var g, c := AbsorbAll(f, rs, 1), f.base + f.job;
    DroppedIff(f, rs);
    AbsorbAllIsJoin(f, rs, c);
    assert View(f, c) != DONE;
  }

  /** Some report claims the block at address a done. */
  ghost predicate ClaimedDoneAt(rs: seq<Report>, a: int, unit: nat) {
    exists i :: 0 <= i < |rs| && ClaimAt(rs[i], a, unit) == DONE
  }

  lemma ClaimedScales(rs: seq<Report>, c: int, origin: nat, unit: nat)
    requires unit >= 1
    ensures ClaimedDoneAt(ScaleReports(rs, origin, unit), Address(c, origin, unit), unit) <==> ClaimedDone(rs, c)
  {
    forall i | 0 <= i < |rs|
      ensures ClaimAt(ScaleReports(rs, origin, unit)[i], Address(c, origin, unit), unit) == Claim(rs[i], c)
    {
      ClaimScales(rs[i], c, origin, unit);
    }
  }

  /**
   * On addresses, for aligned frames and reports: the current block is dropped exactly if it falls
   * below the frame or some report claims it done, and an open one exactly if some report does.
   */
  lemma DroppedIffClaimed(f: Frame, rs: seq<Report>, origin: nat, unit: nat)
    requires Settled(f) && AllInRange(rs, |f.blocks|) && f.job >= 0 && unit >= 1
    ensures var h, ss := ScaleFrame(f, origin, unit), ScaleReports(rs, origin, unit);
            var a, g := Address(h.job, h.base, unit), AbsorbAll(h, ss, unit);
            && (g.job == -1 <==> a < g.base || ClaimedDoneAt(ss, a, unit))
            && (f.blocks[f.job] != DONE ==> (g.job == -1 <==> ClaimedDoneAt(ss, a, unit)))
  {
    var c := f.base + f.job;
    Distribute(unit, f.base, f.job);
    assert Address(f.job, ScaleFrame(f, origin, unit).base, unit) == Address(c, origin, unit);
    AbsorbAllScales(f, rs, origin, unit);
    ClaimedScales(rs, c, origin, unit);
    AddressMonotonic(c, AbsorbAll(f, rs, 1).base, origin, unit);
    DroppedIff(f, rs);
    if f.blocks[f.job] != DONE {
      OpenDroppedIff(f, rs);
    }
  }

  // ----- the two ends of compute_block

  /** Taking block bi makes it current; unless it was done before, one report announces it as TAKEN. */
  lemma TakeSendsIff(f: Frame, bi: nat, k: int)
    requires Settled(f) && bi < |f.blocks|
    ensures var (g, out) := TakeBlock(f, bi);
            && g.job == bi && g.base == f.base && |out| == (if f.blocks[bi] == DONE then 0 else 1)
            && (out != [] ==> Claim(out[0], k) == if k < f.base then DONE else if k == f.base + bi then TAKEN else FREE)
  {}

  /**
   * Ending a computation clears the current block. Nothing is marked or sent if it was dropped; otherwise
   * one report claims it done, besides what lies below the frame.
   */
  lemma CompleteSendsIff(f: Frame, k: int)
    requires Settled(f)
    ensures var (g, out) := CompleteBlock(f, 1);
            && g.job == -1 && (f.job == -1 ==> g == f) && |out| == (if f.job == -1 then 0 else 1)
            && (out != [] ==> Claim(out[0], k) == if k < g.base || k == f.base + f.job then DONE else FREE)
  {
    if f.job >= 0 {
      var m := f.(blocks := f.blocks[f.job := DONE]);
      ProgressTracksJob(m, true, 1);
      if Progress(m, true, 1).0.job == -1 {
        assert f.base + f.job < Progress(m, true, 1).0.base;
      }
    }
  }

  /**
   * compute_block on block bi as a whole, with the reports rs processed meanwhile and with any unit:
   * at the end the block is finished in any case, and its completion is marked and sent exactly if
   * the reports have not finished it before.
   */
  lemma CompletesIff(f: Frame, bi: nat, rs: seq<Report>, unit: nat)
    requires Settled(f) && bi < |f.blocks| && f.blocks[bi] != DONE && unit >= 1 && AllInRange(rs, |f.blocks|)
    ensures var a, g := Address(bi, f.base, unit), AbsorbAll(TakeBlock(f, bi).0, rs, unit);
            var (h, out) := CompleteBlock(g, unit);
            && MarkAt(h, a, unit) == DONE
            && (out == [] <==> MarkAt(g, a, unit) == DONE)
            && (out == [] ==> h == g)
            && (out != [] ==> |out| == 1 && ClaimAt(out[0], a, unit) == DONE)
  {
    var a, t := Address(bi, f.base, unit), TakeBlock(f, bi).0;
    var g := AbsorbAll(t, rs, unit);
    AbsorbAllAccounts(t, rs, a, unit);
    AccountedMark(g, a, unit);
    if g.job >= 0 {
      CompletedAt(g, a, unit);
    }
  }

  lemma CompletedAt(g: Frame, a: int, unit: nat)
    requires Settled(g) && unit >= 1 && g.job >= 0 && a == Address(g.job, g.base, unit)
    ensures var (h, out) := CompleteBlock(g, unit);
            MarkAt(h, a, unit) == DONE && |out| == 1 && ClaimAt(out[0], a, unit) == DONE
  {
    var m := g.(blocks := g.blocks[g.job := DONE]);
    var p := Progress(m, true, unit).0;
    ProgressSettled(m, true, unit);
    ProgressTracksJob(m, true, unit);
    if p.job >= 0 {
      MarkAtIndex(p, p.job, unit);
      assert p.blocks[p.job] == DONE;
    } else {
      var d := LeadingDone(m.blocks);
      AddressMonotonic(m.job, d, m.base, unit);
    }
  }
}
