/** How far the base of a frame moves: no report with a higher base is ignored, and none is overshot. */
module FrameBounds {
  import opened Frames

  /** The climb stops at the first base that is not below the target, or after `left` blocks. */
  lemma {:induction false} ClimbBounds(base: nat, target: nat, unit: nat, left: nat)
    requires left >= 1 && unit >= 1 && target > base
    ensures var d := Climb(base, target, unit, left);
            && base + d * unit < target + unit
            && (d < left ==> base + d * unit >= target)
    decreases left
  {
    var d := Climb(base, target, unit, left);
    if left > 1 && target > base + unit {
      ClimbBounds(base + unit, target, unit, left - 1);
      MoreBlocks(d - 1, unit);
    }
  }

  lemma MoreBlocks(d: int, unit: nat)
    ensures (d + 1) * unit == d * unit + unit
  {}

  /** The climb ends at the target or above it. */
  lemma ClimbReaches(f: Frame, target: nat, unit: nat)
    requires Valid(f) && unit >= 1 && target > f.base
    ensures target <= ClimbTo(f, target, unit).base < target + unit
  {
    ClimbBounds(f.base, target, unit, |f.blocks|);
  }

  /** No report is ignored whose base is higher: afterwards the own base is at least as high. */
  lemma AbsorbReaches(f: Frame, r: Report, unit: nat)
    requires Settled(f) && InRange(r, |f.blocks|) && unit >= 1
    ensures Absorb(f, r, unit).0.base >= r.base
  {
    AbsorbSettled(f, r, unit);
    if r.base > f.base {
      var g := ClimbTo(f, r.base, unit);
      ClimbReaches(f, r.base, unit);
      ProgressSettled(Enter(g, r.id, r.kind), false, unit);
    }
  }

  /** Processing reports passes the bases of all of them and of all frames on the way. */
  lemma {:induction false} AbsorbAllReaches(f: Frame, rs: seq<Report>, unit: nat, i: nat)
    requires Settled(f) && unit >= 1 && AllInRange(rs, |f.blocks|) && i <= |rs|
    ensures AbsorbAll(f, rs, unit).base >= AbsorbAll(f, rs[..i], unit).base
    ensures i < |rs| ==> AbsorbAll(f, rs, unit).base >= rs[i].base
    decreases |rs|
  {
    var n := |rs| - 1;
    if i == |rs| {
      assert rs[..i] == rs;
    } else {
      var prev := AbsorbAll(f, rs[..n], unit);
      AbsorbSettled(prev, rs[n], unit);
      AbsorbReaches(prev, rs[n], unit);
      AbsorbAllReaches(f, rs[..n], unit, i);
      assert rs[..n][..i] == rs[..i];
    }
  }
}
