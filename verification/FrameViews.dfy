/**
 * Frames as maps from block numbers to states, with unit 1: everything below the base is done,
 * everything beyond the window free. Processing a report joins its claims into the map.
 */
module FrameViews {
  import opened Frames

  /** What a frame says about block k. */
  function View(f: Frame, k: int): Mark {
    if k < f.base then DONE
    else if k < f.base + |f.blocks| then f.blocks[k - f.base]
    else FREE
  }

  /** What a report claims about block k. */
  function Claim(r: Report, k: int): Mark {
    if k < r.base then DONE
    else if r.id >= 0 && k == r.base + r.id then r.kind
    else FREE
  }

  lemma LowerClaim(r: Report, base: nat, k: int)
    requires r.base < base <= k && r.id >= -1
    ensures var l := Lower(r, base, 1);
            if l.None? then Claim(r, k) == FREE
            else l.value.base == base && Claim(l.value, k) == Claim(r, k)
    decreases base - r.base
  {
    if r.id >= 0 && r.base + 1 < base {
      LowerClaim(Report(r.base + 1, r.id - 1, r.kind), base, k);
    }
  }

  lemma ClimbCount(base: nat, target: nat, left: nat)
    requires left >= 1 && target > base
    ensures Climb(base, target, 1, left) == if target - base < left then target - base else left
    decreases left
  {
    if left > 1 && target > base + 1 {
      ClimbCount(base + 1, target, left - 1);
    }
  }

  lemma ProgressView(f: Frame, fin: bool, k: int)
    requires Valid(f)
    ensures View(Progress(f, fin, 1).0, k) == View(f, k)
  {}

  lemma ClimbView(f: Frame, target: nat, k: int)
    requires Valid(f) && target > f.base
    ensures ClimbTo(f, target, 1).base == target
    ensures View(ClimbTo(f, target, 1), k) == if k < target then DONE else View(f, k)
  {
    ClimbCount(f.base, target, |f.blocks|);
  }

  lemma EnterView(f: Frame, id: int, kind: Mark, k: int)
    requires Valid(f) && id < |f.blocks|
    ensures Valid(Enter(f, id, kind))
    ensures View(Enter(f, id, kind), k) == Max(View(f, k), if id >= 0 && k == f.base + id then kind else FREE)
  {}

  /** process_report computes the join: block by block the larger of own view and claim. */
  lemma AbsorbIsJoin(f: Frame, r: Report, k: int)
    requires Settled(f) && InRange(r, |f.blocks|)
    ensures View(Absorb(f, r, 1).0, k) == Max(View(f, k), Claim(r, k))
  {
    if r.base < f.base {
      LowerInRange(r, f.base, 1);
      var l := Lower(r, f.base, 1);
      if k >= f.base {
        LowerClaim(r, f.base, k);
      }
      if l.Some? {
        LowerClaim(r, f.base, f.base);
        EnterView(f, l.value.id, l.value.kind, k);
        ProgressView(Enter(f, l.value.id, l.value.kind), false, k);
      }
    } else {
      var g := if r.base > f.base then ClimbTo(f, r.base, 1) else f;
      if r.base > f.base {
        ClimbView(f, r.base, k);
      }
      EnterView(g, r.id, r.kind, k);
      ProgressView(Enter(g, r.id, r.kind), false, k);
    }
  }

  /** Frames in order that say the same about every block are the same. */
  lemma SettledUnique(f: Frame, g: Frame)
    requires Settled(f) && Settled(g) && |f.blocks| == |g.blocks|
    requires forall k: int :: View(f, k) == View(g, k)
    ensures f.base == g.base && f.blocks == g.blocks
  {
    assert View(f, f.base) == View(g, f.base) && View(f, g.base) == View(g, g.base);
    forall i | 0 <= i < |f.blocks|
      ensures f.blocks[i] == g.blocks[i]
    {
      assert View(f, f.base + i) == View(g, f.base + i);
    }
  }

  /** The strongest claim about block k among the own view and a set of reports. */
  ghost predicate IsJoin(m: Mark, own: Mark, rs: seq<Report>, k: int) {
    && m >= own
    && (forall i :: 0 <= i < |rs| ==> m >= Claim(rs[i], k))
    && (m == own || exists i :: 0 <= i < |rs| && m == Claim(rs[i], k))
  }

  lemma JoinNext(m: Mark, prev: Mark, own: Mark, rs: seq<Report>, r: Report, k: int)
    requires IsJoin(prev, own, rs, k) && m == Max(prev, Claim(r, k))
    ensures IsJoin(m, own, rs + [r], k)
  {
    var ts := rs + [r];
    assert ts[|rs|] == r;
    if m != own && m != Claim(r, k) {
      var i :| 0 <= i < |rs| && m == Claim(rs[i], k);
      assert ts[i] == rs[i];
    }
  }

  lemma {:induction false} AbsorbAllIsJoin(f: Frame, rs: seq<Report>, k: int)
    requires Settled(f) && AllInRange(rs, |f.blocks|)
    ensures IsJoin(View(AbsorbAll(f, rs, 1), k), View(f, k), rs, k)
    decreases |rs|
  {
    if rs != [] {
      var n := |rs| - 1;
      var prev := AbsorbAll(f, rs[..n], 1);
      AbsorbAllIsJoin(f, rs[..n], k);
      AbsorbIsJoin(prev, rs[n], k);
      JoinNext(View(AbsorbAll(f, rs, 1), k), View(prev, k), View(f, k), rs[..n], rs[n], k);
      assert rs == rs[..n] + [rs[n]];
    }
  }

  lemma JoinUnique(m: Mark, m': Mark, own: Mark, rs: seq<Report>, ts: seq<Report>, k: int)
    requires IsJoin(m, own, rs, k) && IsJoin(m', own, ts, k)
    requires forall r :: r in rs <==> r in ts
    ensures m == m'
  {
    if m != own {
      var i :| 0 <= i < |rs| && m == Claim(rs[i], k);
      assert rs[i] in ts;
    }
    if m' != own {
      var i :| 0 <= i < |ts| && m' == Claim(ts[i], k);
      assert ts[i] in rs;
    }
  }

  /**
   * The frame depends only on which reports have been processed: not on their order and
   * not on how often each one arrived.
   */
  lemma OrderAndRepetitionDoNotMatter(f: Frame, rs: seq<Report>, ts: seq<Report>)
    requires Settled(f) && (forall r :: r in rs <==> r in ts)
    requires AllInRange(rs, |f.blocks|)
    requires AllInRange(ts, |f.blocks|)
    ensures AbsorbAll(f, rs, 1).base == AbsorbAll(f, ts, 1).base
    ensures AbsorbAll(f, rs, 1).blocks == AbsorbAll(f, ts, 1).blocks
  {
    var g, h := AbsorbAll(f, rs, 1), AbsorbAll(f, ts, 1);
    forall k: int
      ensures View(g, k) == View(h, k)
    {
      AbsorbAllIsJoin(f, rs, k);
      AbsorbAllIsJoin(f, ts, k);
      JoinUnique(View(g, k), View(h, k), View(f, k), rs, ts, k);
    }
    SettledUnique(g, h);
  }

  /** Taking a block raises its state to TAKEN and nothing else. */
  lemma TakeBlockView(f: Frame, bi: nat, k: int)
    requires Settled(f) && bi < |f.blocks|
    ensures var (g, out) := TakeBlock(f, bi);
            && Settled(g) && |g.blocks| == |f.blocks|
            && View(g, k) == Max(View(f, k), if k == f.base + bi then TAKEN else FREE)
  {}

  /** Ending a computation raises the current block, if there still is one, to DONE. */
  lemma CompleteBlockView(f: Frame, k: int)
    requires Settled(f)
    ensures var g := CompleteBlock(f, 1).0;
            && Settled(g) && |g.blocks| == |f.blocks|
            && View(g, k) == Max(View(f, k), if f.job >= 0 && k == f.base + f.job then DONE else FREE)
  {
    if f.job >= 0 {
      var m := f.(blocks := f.blocks[f.job := DONE]);
      ProgressView(m, true, k);
      ProgressSettled(m, true, 1);
    }
  }
}
