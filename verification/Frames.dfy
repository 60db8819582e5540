/**
 * The integer frame of collatz.c as a value, and what each critical section does to it.
 *
 * A frame is a base, below which everything is done, and a window of block states. The
 * functions take the block size as the parameter `unit`; with unit 1 a base is a block
 * number, and module Scaling shows that nothing depends on the difference.
 */
module Frames {
  import opened Options
  import opened Words

  /** BLOCK_FREE, BLOCK_TAKEN and BLOCK_DONE, ordered as in the source. */
  type Mark = x: int | 0 <= x <= 2
  const FREE: Mark := 0
  const TAKEN: Mark := 1
  const DONE: Mark := 2

  /** A report as process_report sees it; id is -1 when the sender had no current block. */
  datatype Report = Report(base: nat, id: int, kind: Mark)

  /** job.base, block[] and job.block_id. */
  datatype Frame = Frame(base: nat, blocks: seq<Mark>, job: int)

  predicate Valid(f: Frame) {
    |f.blocks| >= 1 && -1 <= f.job < |f.blocks|
  }

  /** The frame is in order: its first block is still open. Holds whenever the mutex is free. */
  predicate Settled(f: Frame) {
    Valid(f) && f.blocks[0] != DONE
  }

  predicate InRange(r: Report, blocks: nat) {
    -1 <= r.id < blocks
  }

  predicate AllInRange(rs: seq<Report>, blocks: nat) {
    forall i :: 0 <= i < |rs| ==> InRange(rs[i], blocks)
  }

  function Max(a: Mark, b: Mark): Mark {
    if a > b then a else b
  }

  // ----- the operations

  function AllFree(n: nat): (s: seq<Mark>)
    ensures |s| == n && forall i :: 0 <= i < n ==> s[i] == FREE
  {
    seq(n, _ => FREE)
  }

  /** shift_blocks: the window moves up by d blocks and the current block moves with it. */
  function Shift(blocks: seq<Mark>, d: nat): (s: seq<Mark>)
    ensures |s| == |blocks|
    ensures forall i :: 0 <= i < |s| ==> s[i] == if i + d < |blocks| then blocks[i + d] else FREE
  {
    if d < |blocks| then blocks[d..] + AllFree(d) else AllFree(|blocks|)
  }

  function ShiftJob(job: int, d: nat): int {
    if job >= d then job - d else -1
  }

  function LeadingDone(blocks: seq<Mark>): (d: nat)
    ensures d <= |blocks| && forall i :: 0 <= i < d ==> blocks[i] == DONE
    ensures d < |blocks| ==> blocks[d] != DONE
  {
    if blocks == [] || blocks[0] != DONE then 0 else 1 + LeadingDone(blocks[1..])
  }

  /** report_my_progress: move past finished blocks and tell the others. */
  function Progress(f: Frame, fin: bool, unit: nat): (Frame, seq<Report>)
    requires Valid(f)
  {
    if f.blocks[0] == DONE then
      var d := LeadingDone(f.blocks);
      var g := Frame(f.base + d * unit, Shift(f.blocks, d), ShiftJob(f.job, d));
      (g, [Report(g.base, g.job, DONE)])
    else if !fin then (f, [])
    else (f, [Report(f.base, f.job, DONE)])
  }

  /** Rebase a report with a lower base block by block; None once its block is old news. */
  function Lower(r: Report, base: nat, unit: nat): Option<Report>
    requires unit >= 1 && r.base < base
    decreases base - r.base
  {
    if r.id < 0 then None
    else
      var r' := Report(r.base + unit, r.id - 1, r.kind);
      if r'.base < base then Lower(r', base, unit) else Some(r')
  }

  /** Raise the own base block by block, at most `left` times: the number of blocks. */
  function Climb(base: nat, target: nat, unit: nat, left: nat): (d: nat)
    requires left >= 1
    ensures 1 <= d <= left
    decreases left
  {
    if left > 1 && target > base + unit then 1 + Climb(base + unit, target, unit, left - 1) else 1
  }

  /** Move the frame up towards a higher base; a frame left behind entirely jumps to it. */
  function ClimbTo(f: Frame, target: nat, unit: nat): Frame
    requires Valid(f) && target > f.base
  {
    var d := Climb(f.base, target, unit, |f.blocks|);
    Frame(if d == |f.blocks| then target else f.base + d * unit, Shift(f.blocks, d), ShiftJob(f.job, d))
  }

  /** Enter a reported block state; a DONE for the current block makes it obsolete. */
  function Enter(f: Frame, id: int, kind: Mark): Frame
    requires Valid(f) && id < |f.blocks|
  {
    if id < 0 then f
    else f.(blocks := f.blocks[id := Max(f.blocks[id], kind)],
            job := if kind == DONE && id == f.job then -1 else f.job)
  }

  /** process_report: the new frame and the report it triggers, if any. */
  function Absorb(f: Frame, r: Report, unit: nat): (Frame, seq<Report>)
    requires Valid(f) && InRange(r, |f.blocks|) && unit >= 1
  {
    if r.base < f.base then
      match Lower(r, f.base, unit)
      case None => (f, [])
      case Some(r') =>
        LowerInRange(r, f.base, unit);
        Progress(Enter(f, r'.id, r'.kind), false, unit)
    else
      var g := if r.base > f.base then ClimbTo(f, r.base, unit) else f;
      Progress(Enter(g, r.id, r.kind), false, unit)
  }

  /** First critical section of compute_block: take block bi, unless it is done. */
  function TakeBlock(f: Frame, bi: nat): (Frame, seq<Report>)
    requires Valid(f) && bi < |f.blocks|
  {
    var g := f.(job := bi);
    if f.blocks[bi] == DONE then (g, [])
    else (g.(blocks := f.blocks[bi := TAKEN]), [Report(f.base, bi, TAKEN)])
  }

  /** Last critical section of compute_block. */
  function CompleteBlock(f: Frame, unit: nat): (Frame, seq<Report>)
    requires Valid(f)
  {
    if f.job < 0 then (f, [])
    else
      var (g, out) := Progress(f.(blocks := f.blocks[f.job := DONE]), true, unit);
      (g.(job := -1), out)
  }

  /** Processing one report after another. */
  function AbsorbAll(f: Frame, rs: seq<Report>, unit: nat): (g: Frame)
    requires Settled(f) && unit >= 1 && AllInRange(rs, |f.blocks|)
    ensures Settled(g) && |g.blocks| == |f.blocks|
    decreases |rs|
  {
    if rs == [] then f
    else
      var prev := AbsorbAll(f, rs[..|rs| - 1], unit);
      AbsorbSettled(prev, rs[|rs| - 1], unit);
      Absorb(prev, rs[|rs| - 1], unit).0
  }

  /** The outcome of bringing report r and frame f to the same base: a stale report, or frame g and block id. */
  ghost predicate AlignedTo(f: Frame, r: Report, unit: nat, stale: bool, g: Frame, id: int)
    requires Valid(f) && unit >= 1
  {
    if r.base < f.base then
      && g == f
      && var l := Lower(r, f.base, unit);
      if stale then l.None? else l.Some? && id == l.value.id
    else !stale && id == r.id && g == if r.base > f.base then ClimbTo(f, r.base, unit) else f
  }

  lemma AbsorbByParts(f: Frame, r: Report, unit: nat, stale: bool, g: Frame, id: int)
    requires Valid(f) && InRange(r, |f.blocks|) && unit >= 1 && AlignedTo(f, r, unit, stale, g, id)
    ensures !stale ==> Valid(g) && |g.blocks| == |f.blocks| && -1 <= id < |g.blocks|
    ensures Absorb(f, r, unit) == if stale then (f, []) else Progress(Enter(g, id, r.kind), false, unit)
  {
    if r.base < f.base {
      LowerInRange(r, f.base, unit);
    }
  }

  // ----- order at every release of the mutex

  lemma LowerInRange(r: Report, base: nat, unit: nat)
    requires unit >= 1 && r.base < base && r.id >= -1
    ensures var l := Lower(r, base, unit);
            l.Some? ==> -1 <= l.value.id < r.id && l.value.kind == r.kind && l.value.base >= base
    decreases base - r.base
  {
    if r.id >= 0 && r.base + unit < base {
      LowerInRange(Report(r.base + unit, r.id - 1, r.kind), base, unit);
    }
  }

  lemma ProgressSettled(f: Frame, fin: bool, unit: nat)
    requires Valid(f)
    ensures var (g, out) := Progress(f, fin, unit);
            && Settled(g) && |g.blocks| == |f.blocks| && g.base >= f.base
            && (forall i :: 0 <= i < |out| ==> out[i] == Report(g.base, g.job, DONE))
  {}

  /** process_report leaves the frame in order and never moves its base down. */
  lemma AbsorbSettled(f: Frame, r: Report, unit: nat)
    requires Settled(f) && InRange(r, |f.blocks|) && unit >= 1
    ensures var (g, out) := Absorb(f, r, unit);
            && Settled(g) && |g.blocks| == |f.blocks| && g.base >= f.base
            && (forall i :: 0 <= i < |out| ==> out[i] == Report(g.base, g.job, DONE))
  {
    if r.base < f.base {
      LowerInRange(r, f.base, unit);
      var l := Lower(r, f.base, unit);
      if l.Some? {
        ProgressSettled(Enter(f, l.value.id, l.value.kind), false, unit);
      }
    } else {
      var g := if r.base > f.base then ClimbTo(f, r.base, unit) else f;
      ProgressSettled(Enter(g, r.id, r.kind), false, unit);
    }
  }

  // ----- the block in work

  lemma ClimbTracksJob(f: Frame, target: nat, unit: nat)
    requires Valid(f) && target > f.base
    ensures var g := ClimbTo(f, target, unit);
            Valid(g) && (g.job == -1 || (f.job >= 0 && g.base + g.job * unit == f.base + f.job * unit))
  {
    Distribute(unit, f.job, Climb(f.base, target, unit, |f.blocks|));
  }

  /**
   * However the frame moves, the block in work keeps its address or is dropped. This holds
   * for every report, aligned with the frame or not.
   */
  lemma AbsorbTracksJob(f: Frame, r: Report, unit: nat)
    requires Settled(f) && InRange(r, |f.blocks|) && unit >= 1
    ensures var g := Absorb(f, r, unit).0;
            g.job == -1 || (f.job >= 0 && g.base + g.job * unit == f.base + f.job * unit)
  {
    if r.base < f.base {
      LowerInRange(r, f.base, unit);
      var l := Lower(r, f.base, unit);
      if l.Some? {
        ProgressTracksJob(Enter(f, l.value.id, l.value.kind), false, unit);
      }
    } else {
      var g := if r.base > f.base then ClimbTo(f, r.base, unit) else f;
      if r.base > f.base {
        ClimbTracksJob(f, r.base, unit);
      }
      ProgressTracksJob(Enter(g, r.id, r.kind), false, unit);
    }
  }

  lemma ProgressTracksJob(f: Frame, fin: bool, unit: nat)
    requires Valid(f)
    ensures var g := Progress(f, fin, unit).0;
            g.job == -1 || (f.job >= 0 && g.base + g.job * unit == f.base + f.job * unit)
  {
    Distribute(unit, f.job, LeadingDone(f.blocks));
  }

  /** The same over any number of reports between the two critical sections of compute_block. */
  lemma {:induction false} JobTrackedAcrossReports(f: Frame, rs: seq<Report>, unit: nat)
    requires Settled(f) && unit >= 1 && AllInRange(rs, |f.blocks|)
    ensures var g := AbsorbAll(f, rs, unit);
            g.job == -1 || (f.job >= 0 && g.base + g.job * unit == f.base + f.job * unit)
    decreases |rs|
  {
    if rs != [] {
      var n := |rs| - 1;
      JobTrackedAcrossReports(f, rs[..n], unit);
      AbsorbTracksJob(AbsorbAll(f, rs[..n], unit), rs[n], unit);
    }
  }
}
