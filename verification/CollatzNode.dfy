/**
 * One node of collatz.c: the statics behind the mutex, updated in place, and the critical
 * sections that update them. Each is proved against its function in module Frames as long as
 * the bases it adds to leave room below 2^300, whatever the overflow flag says.
 */
module CollatzNode {
  import opened Options
  import opened Words
  import opened Limbs
  import opened RlInt
  import opened Frames
  import opened FrameBounds
  import opened Collatz
  import opened Verdicts
  import opened Compute
  import opened Pick

  /** The bit of report_type that marks a message on its way to the root. */
  const BLOCK_UP: int := 8

  /** A `collatz_t` on the wire. */
  datatype Packet = Packet(reportType: int, blockId: int, limbs: seq<Word>)

  /** A `collatz_t` in memory. */
  class Message {
    var reportType: int
    var blockId: int
    const base: BigInt

    constructor (limbs: seq<Word>)
      requires Normal(limbs) && |limbs| <= INT_LEN
      ensures fresh(base) && fresh(base.a) && base.Valid() && base.IsNormal() && base.Digits() == limbs
      ensures reportType == 0 && blockId == 0
    {
      reportType, blockId := 0, 0;
      base := new BigInt(limbs);
    }
  }

  /** Well-formed report types: a block state, possibly with BLOCK_UP. */
  predicate IsReportType(t: int) {
    0 <= t <= 2 || BLOCK_UP <= t <= BLOCK_UP + 2
  }

  /** report_type & BLOCK_MASK, where the mask value 3 is not a block state and never sent. */
  function KindOf(t: int): Mark {
    var k := t % 4;
    if k <= 2 then k else FREE
  }

  predicate WellFormedPacket(p: Packet, blocks: nat) {
    IsReportType(p.reportType) && -1 <= p.blockId < blocks && Normal(p.limbs) && |p.limbs| <= INT_LEN
  }

  ghost function ReportOf(p: Packet): Report {
    Report(Value(p.limbs), p.blockId, KindOf(p.reportType))
  }

  ghost function ReportsOf(ps: seq<Packet>): (rs: seq<Report>)
    ensures |rs| == |ps|
  {
    seq(|ps|, i requires 0 <= i < |ps| => ReportOf(ps[i]))
  }

  /** A report on its way to the root or to the leaves. */
  datatype Sent = Sent(report: Report, up: bool)

  ghost function SentOf(p: Packet): Sent {
    Sent(ReportOf(p), p.reportType >= BLOCK_UP)
  }

  ghost function AllSent(ps: seq<Packet>): (s: seq<Sent>)
    ensures |s| == |ps|
  {
    seq(|ps|, i requires 0 <= i < |ps| => SentOf(ps[i]))
  }

  lemma AllSentSnoc(ps: seq<Packet>, p: Packet)
    ensures AllSent(ps + [p]) == AllSent(ps) + [SentOf(p)]
  {}

  /** Reports sent in one direction. */
  ghost function Directed(rs: seq<Report>, up: bool): (s: seq<Sent>)
    ensures |s| == |rs| && forall i :: 0 <= i < |s| ==> s[i] == Sent(rs[i], up)
  {
    seq(|rs|, i requires 0 <= i < |rs| => Sent(rs[i], up))
  }

  /** What a node with frame f sends on receiving report r: r itself to its children, and what r triggers. */
  ghost function Answer(f: Frame, r: Report, unit: nat, up: bool): seq<Sent>
    requires Settled(f) && unit >= 1 && InRange(r, |f.blocks|)
  {
    [Sent(r, false)] + Directed(Absorb(f, r, unit).1, up)
  }

  /** The same for one report after another. */
  ghost function Relay(f: Frame, rs: seq<Report>, unit: nat, up: bool): seq<Sent>
    requires Settled(f) && unit >= 1 && AllInRange(rs, |f.blocks|)
    decreases |rs|
  {
    if rs == [] then []
    else
      var n := |rs| - 1;
      Relay(f, rs[..n], unit, up) + Answer(AbsorbAll(f, rs[..n], unit), rs[n], unit, up)
  }

  lemma InRangeOf(ps: seq<Packet>, blocks: nat)
    requires forall p :: p in ps ==> WellFormedPacket(p, blocks)
    ensures AllInRange(ReportsOf(ps), blocks)
  {
    assert forall i :: 0 <= i < |ps| ==> ps[i] in ps;
  }

  /** The limbs collatz_init writes: the number below which everything is taken as verified. */
  function InitialLimbs(startFromOne: bool): seq<Word> {
    if startFromOne then [1] else [MASK, MASK, 255]
  }

  /** They are normalised and stand for 1 or for 2^68 - 1. */
  lemma InitialBase(startFromOne: bool)
    ensures var s := InitialLimbs(startFromOne);
            |s| <= INT_LEN && Normal(s) && Value(s) == if startFromOne then 1 else 0xf_ffff_ffff_ffff_ffff
  {
    var s := [MASK, MASK, 255];
    assert s[1..] == [MASK, 255] && s[1..][1..] == [255] && s[1..][1..][1..] == [];
    assert Value(s[1..][1..]) == 255;
  }

  lemma FewerBlocks(d: nat, blocks: nat, unit: nat)
    requires d <= blocks
    ensures d * unit <= blocks * unit
  {
    ProductMonotonic(unit, d, blocks);
  }

  lemma LeadingDoneIs(s: seq<Mark>, d: nat)
    requires d <= |s| && (forall i :: 0 <= i < d ==> s[i] == DONE) && (d < |s| ==> s[d] != DONE)
    ensures LeadingDone(s) == d
  {}

  /** The job with which collatz_init starts. */
  method InitialJob(startFromOne: bool) returns (job: Message)
    ensures fresh(job) && fresh(job.base) && fresh(job.base.a)
    ensures job.base.Valid() && job.base.IsNormal() && job.reportType == 0 && job.blockId == 0
    ensures job.base.Val() == if startFromOne then 1 else 0xf_ffff_ffff_ffff_ffff
  {
    InitialBase(startFromOne);
    job := new Message(InitialLimbs(startFromOne));
  }

  ghost predicate Apart(x: BigInt, y: BigInt) {
    x != y && x.a != y.a
  }

  /** Frame f after taking block bi and processing the reports rs. */
  ghost function Finally(f: Frame, bi: nat, rs: seq<Report>, size: nat): Frame
    requires Settled(f) && bi < |f.blocks| && f.blocks[bi] != DONE && size >= 1 && AllInRange(rs, |f.blocks|)
  {
    AbsorbAll(TakeBlock(f, bi).0, rs, size)
  }

  /**
   * What compute_block makes of frame f while the reports rs come in: the block is completed
   * if and only if its numbers have been checked, and then at the place it has moved to, if it
   * is still in the window.
   */
  ghost predicate Computed(f: Frame, bi: nat, rs: seq<Report>, size: nat, outcome: Outcome, h: Frame)
    requires Settled(f) && bi < |f.blocks| && f.blocks[bi] != DONE && size >= 1 && AllInRange(rs, |f.blocks|)
  {
    var start := f.base + bi * size;
    var g := Finally(f, bi, rs, size);
    if outcome == Checked then
      BlockChecked(start, size) && (g.job == -1 || g.base + g.job * size == start) && h == CompleteBlock(g, size).0
    else h == g
  }

  /** What the last critical section of compute_block sends, if it is reached. */
  ghost function Ending(g: Frame, size: nat, checked: bool, up: bool): seq<Sent>
    requires Valid(g)
  {
    if checked then Directed(CompleteBlock(g, size).1, up) else []
  }

  /** Everything compute_block sends meanwhile. */
  ghost function Says(f: Frame, bi: nat, rs: seq<Report>, size: nat, outcome: Outcome, up: bool): seq<Sent>
    requires Settled(f) && bi < |f.blocks| && f.blocks[bi] != DONE && size >= 1 && AllInRange(rs, |f.blocks|)
  {
    var g := Finally(f, bi, rs, size);
    Directed(TakeBlock(f, bi).1, up) + Relay(TakeBlock(f, bi).0, rs, size, up)
    + Ending(g, size, outcome == Checked, up)
  }

  /** What compute_block does in its first critical section. */
  datatype Begun = Cancelled | AlreadyDone | Started

  class Node {
    const BLOCKS: nat
    const BLOCKSIZE: nat
    const isRoot: bool
    const builtin: bool           // whether the compiler builtin counts trailing zeros
    const overflow: OverflowFlag  // rl_overflow
    const job: Message
    const job2: Message
    const pay: Message            // buffer of the communication task
    const block: array<Mark>
    const waterlevel: BigInt
    const n: BigInt
    var sent: seq<Packet>         // everything handed to the network so far

    /** collatz_init: nothing known above 1 or, by default, above 2^68 - 1. */
    constructor (blocks: nat, blocksize: nat, root: bool, gnuc: bool, startFromOne: bool)
      requires 1 <= blocks <= 0x7fff && 0 < blocksize <= 3 * LIMB && blocksize % 2 == 0
      ensures Valid() && !overflow.raised && sent == []
      ensures BLOCKS == blocks && BLOCKSIZE == blocksize && isRoot == root
      ensures F() == Frame(if startFromOne then 1 else 0xf_ffff_ffff_ffff_ffff, AllFree(blocks), 0)
      ensures job2.base.Valid() && n.Valid() && pay.base.a.Length == waterlevel.a.Length == INT_LEN
    {
      BLOCKS, BLOCKSIZE, isRoot, builtin := blocks, blocksize, root, gnuc;
      overflow := new OverflowFlag();
      var first := InitialJob(startFromOne);
      job := first;
      // The source's other long integers start as zero memory; rl_set writes them before any use.
      job2 := new Message([0]);
      pay := new Message([0]);
      waterlevel := new BigInt([0]);
      n := new BigInt([0]);
      block := new Mark[blocks](_ => FREE);
      sent := [];
      new;
      assert block[..] == AllFree(blocks);
    }

    /** The parameters and the storage of the statics, none of which ever changes. */
    ghost predicate Layout() {
      && 1 <= BLOCKS <= 0x7fff && block.Length == BLOCKS
      && 0 < BLOCKSIZE <= 3 * LIMB && BLOCKSIZE % 2 == 0
      && job != job2 && job != pay && job2 != pay
      && Apart(job.base, job2.base) && Apart(job.base, pay.base) && Apart(job2.base, pay.base)
      && Apart(waterlevel, job.base) && Apart(waterlevel, job2.base) && Apart(waterlevel, pay.base)
      && Apart(n, job.base) && Apart(n, job2.base) && Apart(n, pay.base) && Apart(n, waterlevel)
    }

    /** Adding up to n blocks to the base stays below 2^300. */
    ghost predicate HasRoom(base: nat, n: nat) {
      base + n * BLOCKSIZE < CAP
    }

    /** The own base is normalised and leaves room for n blocks. */
    ghost predicate Roomy(n: nat)
      reads this, job, job.base, job.base.a
      requires job.base.Valid()
    {
      job.base.IsNormal() && HasRoom(job.base.Val(), n)
    }

    /** Holds also inside the critical sections. */
    ghost predicate Consistent()
      reads this, overflow, job, job.base, job.base.a, block
    {
      && Layout()
      && -1 <= job.blockId < BLOCKS
      && job.base.Valid() && (!overflow.raised ==> job.base.IsNormal())
    }

    /** Holds whenever the mutex is free. */
    ghost predicate Valid()
      reads this, overflow, job, job.base, job.base.a, block
    {
      Consistent() && block[0] != DONE
    }

    /** The abstract frame. */
    ghost function F(): Frame
      reads this, overflow, job, job.base, job.base.a, block
      requires Consistent()
    {
      Frame(job.base.Val(), block[..], job.blockId)
    }

    /** A message in memory as a report. */
    ghost function ReportIn(m: Message): Report
      reads m, m.base, m.base.a
      requires m.base.Valid()
    {
      Report(m.base.Val(), m.blockId, KindOf(m.reportType))
    }

    /** The reports sent so far, and which way. */
    ghost function Outgoing(): seq<Sent>
      reads this
    {
      AllSent(sent)
    }

    /** shift_blocks: move the window of block states down, in place. */
    method ShiftBlocks(done: nat)
      requires Layout() && 1 <= done <= BLOCKS && -1 <= job.blockId < BLOCKS
      modifies block, job`blockId
      ensures block[..] == Shift(old(block[..]), done)
      ensures job.blockId == ShiftJob(old(job.blockId), done)
    {
      ghost var s := block[..];
      if done < BLOCKS {
        var left := BLOCKS - done;
        var i, j := 0, done;
        while i < left
          invariant 0 <= i <= left && j == i + done && job.blockId == old(job.blockId)
          invariant forall k :: 0 <= k < i ==> block[k] == s[k + done]
          invariant forall k :: i <= k < BLOCKS ==> block[k] == s[k]
        {
          block[i] := block[j];
          i, j := i + 1, j + 1;
        }
        while i < BLOCKS
          invariant left <= i <= BLOCKS && job.blockId == old(job.blockId)
          invariant forall k :: 0 <= k < left ==> block[k] == s[k + done]
          invariant forall k :: left <= k < i ==> block[k] == FREE
        {
          block[i] := FREE;
          i := i + 1;
        }
        if job.blockId >= done {
          job.blockId := job.blockId - done;
        } else {
          job.blockId := -1;
        }
      } else {
        for i := 0 to BLOCKS
          invariant forall k :: 0 <= k < i ==> block[k] == FREE
          invariant job.blockId == old(job.blockId)
        {
          block[i] := FREE;
        }
        job.blockId := -1;
      }
      assert block[..] == Shift(s, done);
    }

    /** broadcast_message: the root sends down, everybody else up. */
    method Broadcast(kind: Mark)
      requires job.base.Valid()
      modifies job`reportType, this`sent
      ensures sent == old(sent) + [Packet(if isRoot then kind else kind + BLOCK_UP, job.blockId, job.base.Digits())]
      ensures Outgoing() == old(Outgoing()) + Directed([Report(job.base.Val(), job.blockId, kind)], !isRoot)
    {
      job.reportType := if isRoot then kind else kind + BLOCK_UP;
      var p := Packet(job.reportType, job.blockId, job.base.a[..job.base.len]);
      AllSentSnoc(sent, p);
      assert [SentOf(p)] == Directed([Report(job.base.Val(), job.blockId, kind)], !isRoot);
      sent := sent + [p];
    }

    /** Move the base past the finished blocks at the start of the window and count them. */
    method PassDone() returns (done: nat)
      requires Consistent() && block[0] == DONE
      modifies job.base, job.base.a, overflow
      ensures Consistent() && (old(overflow.raised) ==> overflow.raised)
      ensures 1 <= done == LeadingDone(block[..])
      ensures old(Roomy(BLOCKS)) ==>
                && job.base.IsNormal() && job.base.Val() == old(job.base.Val()) + done * BLOCKSIZE
                && overflow.raised == old(overflow.raised)
    {
      ghost var base, room := job.base.Val(), Roomy(BLOCKS);
      FewerBlocks(1, BLOCKS, BLOCKSIZE);
      job.base.Add(BLOCKSIZE, overflow);
      done := 1;
      while done < BLOCKS && block[done] == DONE
        invariant 1 <= done <= BLOCKS && Consistent()
        invariant forall i :: 0 <= i < done ==> block[i] == DONE
        invariant old(overflow.raised) ==> overflow.raised
        invariant room ==>
                    && job.base.IsNormal() && job.base.Val() == base + done * BLOCKSIZE
                    && overflow.raised == old(overflow.raised)
      {
        MoreBlocks(done, BLOCKSIZE);
        FewerBlocks(done + 1, BLOCKS, BLOCKSIZE);
        job.base.Add(BLOCKSIZE, overflow);
        done := done + 1;
      }
      LeadingDoneIs(block[..], done);
    }

    /** report_my_progress. */
    method ReportMyProgress(fin: bool)
      requires Consistent()
      modifies job, job.base, job.base.a, block, overflow, this`sent
      ensures Valid() && (old(overflow.raised) ==> overflow.raised) && old(sent) <= sent
      ensures old(Roomy(BLOCKS)) ==> job.base.IsNormal() && overflow.raised == old(overflow.raised)
      ensures old(Roomy(BLOCKS)) ==> F() == Progress(old(F()), fin, BLOCKSIZE).0
      ensures old(Roomy(BLOCKS)) ==>
                Outgoing() == old(Outgoing()) + Directed(Progress(old(F()), fin, BLOCKSIZE).1, !isRoot)
    {
      if block[0] == DONE {
        var done := PassDone();
        ShiftBlocks(done);
      } else if !fin {
        assert Outgoing() + Directed([], !isRoot) == Outgoing();
        return;
      }
      Broadcast(DONE);
    }

    /** The copy in job2 starts below the own base, which leaves room for a block. */
    ghost predicate IsLower()
      reads this, job, job.base, job.base.a, job2, job2.base, job2.base.a
      requires job.base.Valid() && job2.base.Valid()
    {
      Roomy(1) && job2.base.IsNormal() && job2.base.Val() < job.base.Val()
    }

    /** Raise the copy in job2 by one block; whether it has reached the own base. */
    method RaiseReport() returns (reached: bool)
      requires Consistent() && job2.base.Valid()
      modifies job2`blockId, job2.base, job2.base.a, overflow
      ensures Consistent() && job2.base.Valid() && job2.blockId == old(job2.blockId) - 1
      ensures old(overflow.raised) ==> overflow.raised
      ensures old(IsLower()) ==>
                && overflow.raised == old(overflow.raised) && job2.base.IsNormal()
                && job2.base.Val() == old(job2.base.Val()) + BLOCKSIZE
                && (reached <==> job2.base.Val() >= job.base.Val())
    {
      job2.base.Add(BLOCKSIZE, overflow);
      job2.blockId := job2.blockId - 1;
      var d := job2.base.Compare(job.base);
      reached := d >= 0;
    }

    /** The do-while of process_report for a report with a lower base, on the copy in job2. */
    method LowerReport(ghost kind: Mark) returns (stale: bool)
      requires Consistent() && job2.base.Valid() && -1 <= job2.blockId < BLOCKS
      modifies job2`blockId, job2.base, job2.base.a, overflow
      ensures Consistent() && job2.base.Valid() && (stale || -1 <= job2.blockId < BLOCKS)
      ensures old(overflow.raised) ==> overflow.raised
      ensures old(IsLower()) ==>
                && overflow.raised == old(overflow.raised)
                && var l := Lower(Report(old(job2.base.Val()), old(job2.blockId), kind), job.base.Val(), BLOCKSIZE);
                if stale then l.None? else l == Some(Report(job2.base.Val(), job2.blockId, kind))
    {
      ghost var first := Report(job2.base.Val(), job2.blockId, kind);
      ghost var room := IsLower();
      while true
        invariant Consistent() && job2.base.Valid() && -1 <= job2.blockId < BLOCKS
        invariant old(overflow.raised) ==> overflow.raised
        invariant room ==>
                    && overflow.raised == old(overflow.raised) && IsLower() && first.base < job.base.Val()
                    && Lower(first, job.base.Val(), BLOCKSIZE)
                       == Lower(Report(job2.base.Val(), job2.blockId, kind), job.base.Val(), BLOCKSIZE)
        decreases job2.blockId
      {
        if job2.blockId < 0 {
          return true;  // old news!
        }
        var reached := RaiseReport();
        if reached {
          return false;
        }
      }
    }

    /** The own base lies below a target that leaves room for a block. */
    ghost predicate CanClimb(target: BigInt)
      reads this, job, job.base, job.base.a, target, target.a
      requires job.base.Valid() && target.Valid()
    {
      job.base.IsNormal() && target.IsNormal() && job.base.Val() < target.Val() && HasRoom(target.Val(), 1)
    }

    /** The do-while of process_report that raises the own base; the number of blocks passed. */
    method RaiseBase(target: BigInt) returns (d: nat)
      requires Consistent() && target.Valid() && Apart(target, job.base)
      modifies job.base, job.base.a, overflow
      ensures Consistent() && (old(overflow.raised) ==> overflow.raised)
      ensures 1 <= d <= BLOCKS
      ensures old(CanClimb(target)) ==>
                && job.base.IsNormal() && overflow.raised == old(overflow.raised)
                && d == Climb(old(job.base.Val()), target.Val(), BLOCKSIZE, BLOCKS)
                && job.base.Val() == old(job.base.Val()) + d * BLOCKSIZE
    {
      ghost var first, room := job.base.Val(), CanClimb(target);
      var left := BLOCKS;
      while true
        invariant Consistent() && 1 <= left <= BLOCKS
        invariant old(overflow.raised) ==> overflow.raised
        invariant room ==>
                    && job.base.IsNormal() && overflow.raised == old(overflow.raised)
                    && job.base.Val() < target.Val()
                    && job.base.Val() == first + (BLOCKS - left) * BLOCKSIZE
                    && Climb(first, target.Val(), BLOCKSIZE, BLOCKS)
                       == BLOCKS - left + Climb(job.base.Val(), target.Val(), BLOCKSIZE, left)
        decreases left
      {
        MoreBlocks(BLOCKS - left, BLOCKSIZE);
        job.base.Add(BLOCKSIZE, overflow);
        left := left - 1;
        if left == 0 {
          break;
        }
        var above := target.Greater(job.base);
        if above == 0 {
          break;
        }
      }
      d := BLOCKS - left;
    }

    /** Move the frame to a higher base; a frame that would be left behind entirely jumps. */
    method RaiseFrame(target: BigInt)
      requires Consistent() && target.Valid() && target.IsNormal() && Apart(target, job.base)
      modifies job`blockId, job.base, job.base.a, block, overflow
      ensures Consistent() && (old(overflow.raised) ==> overflow.raised)
      ensures old(CanClimb(target)) ==>
                && job.base.IsNormal() && overflow.raised == old(overflow.raised)
                && F() == ClimbTo(old(F()), target.Val(), BLOCKSIZE)
    {
      var d := RaiseBase(target);
      ShiftBlocks(d);
      if d == BLOCKS {
        job.base.Set(target);
      }
    }

    /** Enter the reported state of a block of the window. */
    method EnterReport(id: int, kind: Mark)
      requires Consistent() && -1 <= id < BLOCKS
      modifies block, job`blockId
      ensures Consistent() && F() == Enter(old(F()), id, kind)
    {
      if id >= 0 {
        block[id] := if block[id] > kind then block[id] else kind;
        if kind == DONE && id == job.blockId {
          job.blockId := -1;
        }
      }
    }

    /**
     * The first half of process_report: bring report and frame to the same base. A report
     * that lies entirely below the frame is stale.
     */
    method AlignReport(rpt: Message) returns (stale: bool, id: int)
      requires Valid() && rpt != job && rpt != job2 && Apart(rpt.base, job.base) && Apart(rpt.base, job2.base)
      requires rpt.base.Valid() && rpt.base.IsNormal() && -1 <= rpt.blockId < BLOCKS
      requires job2.base.Valid()
      modifies job`blockId, job.base, job.base.a, job2, job2.base, job2.base.a, block, overflow
      ensures Consistent() && (stale || -1 <= id < BLOCKS) && (stale ==> block[0] != DONE)
      ensures old(overflow.raised) ==> overflow.raised
      ensures job2.base.Valid()
      ensures old(Roomy(BLOCKS + 1) && HasRoom(rpt.base.Val(), BLOCKS + 1)) ==>
                && Roomy(BLOCKS) && overflow.raised == old(overflow.raised)
                && AlignedTo(old(F()), old(ReportIn(rpt)), BLOCKSIZE, stale, F(), id)
    {
      ghost var f, target := F(), rpt.base.Val();
      MoreBlocks(BLOCKS, BLOCKSIZE);
      FewerBlocks(1, BLOCKS, BLOCKSIZE);
      var d := rpt.base.Compare(job.base);
      stale, id := false, rpt.blockId;
      if d < 0 {
        ghost var kind := KindOf(rpt.reportType);
        job2.reportType, job2.blockId := rpt.reportType, rpt.blockId;
        job2.base.Set(rpt.base);
        stale := LowerReport(kind);
        id := job2.blockId;
      } else if d > 0 {
        RaiseFrame(rpt.base);
        if f.base < target {
          ClimbReaches(f, target, BLOCKSIZE);
        }
      }
    }

    /** The second half of process_report. */
    method EnterAndReport(id: int, kind: Mark)
      requires Consistent() && -1 <= id < BLOCKS
      modifies job, job.base, job.base.a, block, overflow, this`sent
      ensures Valid() && (old(overflow.raised) ==> overflow.raised) && old(sent) <= sent
      ensures old(Roomy(BLOCKS)) ==>
                && job.base.IsNormal() && overflow.raised == old(overflow.raised)
                && F() == Progress(Enter(old(F()), id, kind), false, BLOCKSIZE).0
                && Outgoing() == old(Outgoing())
                                 + Directed(Progress(Enter(old(F()), id, kind), false, BLOCKSIZE).1, !isRoot)
    {
      EnterReport(id, kind);
      ReportMyProgress(false);
    }

    /** process_report. */
    method ProcessReport(rpt: Message)
      requires Valid() && rpt != job && rpt != job2 && Apart(rpt.base, job.base) && Apart(rpt.base, job2.base)
      requires rpt.base.Valid() && rpt.base.IsNormal() && -1 <= rpt.blockId < BLOCKS
      requires job2.base.Valid()
      modifies job, job.base, job.base.a, job2, job2.base, job2.base.a, block, overflow, this`sent
      ensures Valid() && job2.base.Valid() && (old(overflow.raised) ==> overflow.raised) && old(sent) <= sent
      ensures old(Roomy(BLOCKS + 1) && HasRoom(rpt.base.Val(), BLOCKS + 1)) ==>
                && job.base.IsNormal() && overflow.raised == old(overflow.raised)
                && F() == Absorb(old(F()), old(ReportIn(rpt)), BLOCKSIZE).0
                && Outgoing() == old(Outgoing())
                                 + Directed(Absorb(old(F()), old(ReportIn(rpt)), BLOCKSIZE).1, !isRoot)
    {
      var kind := KindOf(rpt.reportType);
      ghost var f, r := F(), ReportIn(rpt);
      ghost var room := Roomy(BLOCKS + 1) && HasRoom(rpt.base.Val(), BLOCKS + 1);
      var stale, id := AlignReport(rpt);
      if room {
        AbsorbByParts(f, r, BLOCKSIZE, stale, F(), id);
      }
      if !stale {
        EnterAndReport(id, kind);
      }
    }

    /** Put a packet into the receive buffer, clear BLOCK_UP and send it on to the children. */
    method PassDown(p: Packet)
      requires Layout() && pay.base.a.Length == INT_LEN && WellFormedPacket(p, BLOCKS)
      modifies pay, pay.base, pay.base.a, this`sent
      ensures pay.base.Valid() && pay.base.IsNormal() && -1 <= pay.blockId < BLOCKS
      ensures ReportIn(pay) == ReportOf(p)
      ensures sent == old(sent) + [p.(reportType := KindOf(p.reportType))]
      ensures Outgoing() == old(Outgoing()) + [Sent(ReportOf(p), false)]
    {
      pay.reportType := if p.reportType >= BLOCK_UP then p.reportType - BLOCK_UP else p.reportType;
      pay.blockId := p.blockId;
      pay.base.Load(p.limbs);
      var down := p.(reportType := pay.reportType);
      AllSentSnoc(sent, down);
      sent := sent + [down];
    }

    /**
     * The communication task on one packet: a packet on its way up passes through a node
     * that is not the root; any other goes down to the children and is processed here.
     */
    method Receive(p: Packet)
      requires Valid() && job2.base.Valid() && pay.base.a.Length == INT_LEN && WellFormedPacket(p, BLOCKS)
      modifies job, job.base, job.base.a, job2, job2.base, job2.base.a, pay, pay.base, pay.base.a
      modifies block, overflow, this`sent
      ensures Valid() && job2.base.Valid() && (old(overflow.raised) ==> overflow.raised)
      ensures p.reportType >= BLOCK_UP && !isRoot ==> F() == old(F()) && sent == old(sent) + [p]
      ensures p.reportType >= BLOCK_UP && !isRoot ==> overflow.raised == old(overflow.raised)
      ensures !(p.reportType >= BLOCK_UP && !isRoot) ==> old(sent) + [p.(reportType := KindOf(p.reportType))] <= sent
      ensures !(p.reportType >= BLOCK_UP && !isRoot)
              && old(Roomy(BLOCKS + 1)) && HasRoom(ReportOf(p).base, BLOCKS + 1) ==>
                && job.base.IsNormal() && overflow.raised == old(overflow.raised)
                && F() == Absorb(old(F()), ReportOf(p), BLOCKSIZE).0
                && Outgoing() == old(Outgoing()) + Answer(old(F()), ReportOf(p), BLOCKSIZE, !isRoot)
    {
      if p.reportType >= BLOCK_UP && !isRoot {
        sent := sent + [p];
      } else {
        PassDown(p);
        ProcessReport(pay);
      }
    }

    /** pick_block: a free block, earlier ones with larger weight; block 0 if none is free. */
    method PickBlock(random: Word) returns (i: nat)
      requires Layout()
      ensures i < BLOCKS
      ensures var mass := Mass(block[..], BLOCKS);
              if mass > 0 then Picks(block[..], random % mass, i) else i == 0
    {
      ghost var s := block[..];
      MassFitsWord(BLOCKS);
      var mass: Word := 0;
      for j := 0 to BLOCKS
        invariant mass == Mass(s, j)
      {
        MassMonotonic(s, j + 1, BLOCKS);
        if block[j] == FREE {
          mass := mass + (BLOCKS - j);
        }
      }
      if mass != 0 {
        var rnd: Word := random % mass;
        for j := 0 to BLOCKS
          invariant rnd + Mass(s, j) == random % mass
        {
          if block[j] != FREE {
            continue;
          }
          var p := BLOCKS - j;
          if rnd < p {
            return j;
          }
          rnd := rnd - p;
        }
        assert false;
      }
      return 0;
    }

    /** compute_block up to its first release of the mutex. */
    method ComputeBegin(bi: nat) returns (begun: Begun)
      requires Valid() && bi < BLOCKS && waterlevel.a.Length == INT_LEN
      modifies job, block, overflow, waterlevel, waterlevel.a, this`sent
      ensures Valid() && (old(overflow.raised) ==> overflow.raised)
      ensures begun == Cancelled <==> old(overflow.raised)
      ensures begun == Cancelled ==> F() == old(F())
      ensures begun != Started ==> sent == old(sent)
      ensures begun != Cancelled ==> F() == TakeBlock(old(F()), bi).0
      ensures begun != Cancelled ==> Outgoing() == old(Outgoing()) + Directed(TakeBlock(old(F()), bi).1, !isRoot)
      ensures begun == AlreadyDone <==> !old(overflow.raised) && old(block[bi]) == DONE
      ensures begun == Started ==> waterlevel.Valid()
      ensures begun == Started && !overflow.raised ==> waterlevel.IsNormal()
      ensures begun == Started && !overflow.raised ==> waterlevel.Val() == job.base.Val() + bi * BLOCKSIZE
      ensures begun == Started ==> (overflow.raised <==> job.base.Val() + bi * BLOCKSIZE >= CAP)
    {
      if overflow.raised {
        return Cancelled;
      }
      var taken := Take(bi);
      if !taken {
        return AlreadyDone;
      }
      RaiseWaterlevel(bi);
      begun := Started;
    }

    /** Make block bi the current one and, unless it is done, take and announce it. */
    method Take(bi: nat) returns (taken: bool)
      requires Valid() && bi < BLOCKS
      modifies job, block, this`sent
      ensures Valid() && (taken <==> old(block[bi]) != DONE) && (!taken ==> sent == old(sent))
      ensures F() == TakeBlock(old(F()), bi).0
      ensures Outgoing() == old(Outgoing()) + Directed(TakeBlock(old(F()), bi).1, !isRoot)
    {
      ghost var f := F();
      job.blockId := bi;
      if block[bi] == DONE {
        assert Outgoing() == old(Outgoing()) + [];
        return false;
      }
      if block[bi] == FREE {
        block[bi] := TAKEN;
      }
      assert block[..] == f.blocks[bi := TAKEN];
      Broadcast(TAKEN);  // report_my_start
      taken := true;
    }

    /** Set the water level to the start of block bi. */
    method RaiseWaterlevel(bi: nat)
      requires Consistent() && waterlevel.a.Length == INT_LEN
      modifies overflow, waterlevel, waterlevel.a
      ensures Consistent() && waterlevel.Valid() && (old(overflow.raised) ==> overflow.raised)
      ensures !overflow.raised ==> waterlevel.IsNormal()
      ensures !overflow.raised ==> waterlevel.Val() == job.base.Val() + bi * BLOCKSIZE
      ensures overflow.raised <==> old(overflow.raised) || job.base.Val() + bi * BLOCKSIZE >= CAP
    {
      waterlevel.Set(job.base);
      var i := bi;
      while i != 0
        invariant 0 <= i <= bi && Consistent() && waterlevel.Valid()
        invariant old(overflow.raised) ==> overflow.raised
        invariant !overflow.raised ==> waterlevel.IsNormal()
        invariant !overflow.raised ==> waterlevel.Val() == job.base.Val() + (bi - i) * BLOCKSIZE
        invariant overflow.raised && !old(overflow.raised) ==> job.base.Val() + bi * BLOCKSIZE >= CAP
      {
        MoreBlocks(bi - i, BLOCKSIZE);
        FewerBlocks(bi - i + 1, bi, BLOCKSIZE);
        waterlevel.Add(BLOCKSIZE, overflow);
        i := i - 1;
      }
      FitsCap(waterlevel.a[..waterlevel.len]);
    }

    /** compute_block from its second acquisition of the mutex on. */
    method ComputeEnd()
      requires Valid()
      modifies job, job.base, job.base.a, block, overflow, this`sent
      ensures Valid() && (old(overflow.raised) ==> overflow.raised)
      ensures old(Roomy(BLOCKS)) ==>
                && job.base.IsNormal() && overflow.raised == old(overflow.raised)
                && F() == CompleteBlock(old(F()), BLOCKSIZE).0
                && Outgoing() == old(Outgoing()) + Directed(CompleteBlock(old(F()), BLOCKSIZE).1, !isRoot)
    {
      if job.blockId >= 0 {
        block[job.blockId] := DONE;
        ReportMyProgress(true);
        job.blockId := -1;
      }
    }

    /** The reports rs have led from frame f to the current one, and to what has been sent after `out`. */
    ghost predicate Followed(f: Frame, rs: seq<Report>, out: seq<Sent>)
      reads this, overflow, job, job.base, job.base.a, block
      requires Consistent() && Settled(f) && |f.blocks| == BLOCKS && AllInRange(rs, BLOCKS)
    {
      && job.base.IsNormal() && F() == AbsorbAll(f, rs, BLOCKSIZE)
      && Outgoing() == out + Relay(f, rs, BLOCKSIZE, !isRoot)
    }

    /** One more packet after those of the reports rs. */
    method ReceiveNext(p: Packet, ghost room: bool, ghost f: Frame, ghost rs: seq<Report>, ghost out: seq<Sent>)
      requires Valid() && job2.base.Valid() && pay.base.a.Length == INT_LEN
      requires WellFormedPacket(p, BLOCKS) && (p.reportType < BLOCK_UP || isRoot)
      requires Settled(f) && |f.blocks| == BLOCKS && AllInRange(rs, BLOCKS)
      requires room ==> Roomy(BLOCKS + 1) && HasRoom(ReportOf(p).base, BLOCKS + 1) && Followed(f, rs, out)
      modifies job, job.base, job.base.a, job2, job2.base, job2.base.a, pay, pay.base, pay.base.a
      modifies block, overflow, this`sent
      ensures Valid() && job2.base.Valid() && (old(overflow.raised) ==> overflow.raised)
      ensures AllInRange(rs + [ReportOf(p)], BLOCKS)
      ensures room ==> overflow.raised == old(overflow.raised) && Followed(f, rs + [ReportOf(p)], out)
    {
      OneMoreReport(f, rs, BLOCKSIZE, ReportOf(p), !isRoot, out);
      Receive(p);
    }

    /** Between the two critical sections of compute_block reports keep coming in. */
    method ReceiveAll(inbox: seq<Packet>)
      requires Valid() && job2.base.Valid() && pay.base.a.Length == INT_LEN
      requires forall p :: p in inbox ==> WellFormedPacket(p, BLOCKS) && (p.reportType < BLOCK_UP || isRoot)
      modifies job, job.base, job.base.a, job2, job2.base, job2.base.a, pay, pay.base, pay.base.a
      modifies block, overflow, this`sent
      ensures Valid() && job2.base.Valid() && (old(overflow.raised) ==> overflow.raised)
      ensures AllInRange(ReportsOf(inbox), BLOCKS)
      ensures var g := AbsorbAll(old(F()), ReportsOf(inbox), BLOCKSIZE);
              old(job.base.IsNormal()) && HasRoom(g.base, BLOCKS + 1) ==>
                && job.base.IsNormal() && overflow.raised == old(overflow.raised) && F() == g
                && Outgoing() == old(Outgoing()) + Relay(old(F()), ReportsOf(inbox), BLOCKSIZE, !isRoot)
    {
      ghost var f, rs := F(), ReportsOf(inbox);
      InRangeOf(inbox, BLOCKS);
      ghost var room := job.base.IsNormal() && HasRoom(AbsorbAll(f, rs, BLOCKSIZE).base, BLOCKS + 1);
      for i := 0 to |inbox|
        invariant Valid() && job2.base.Valid() && (old(overflow.raised) ==> overflow.raised)
        invariant AllInRange(rs[..i], BLOCKS)
        invariant room ==> overflow.raised == old(overflow.raised) && Followed(f, rs[..i], old(Outgoing()))
      {
        assert rs[..i + 1] == rs[..i] + [ReportOf(inbox[i])];
        AbsorbAllReaches(f, rs, BLOCKSIZE, i);
        ReceiveNext(inbox[i], room, f, rs[..i], old(Outgoing()));
      }
      assert rs[..|inbox|] == rs;
    }

    /** The rest of compute_block after the computation, with the reports that came in meanwhile. */
    method ReceiveAndEnd(checked: bool, inbox: seq<Packet>)
      requires Valid() && job2.base.Valid() && pay.base.a.Length == INT_LEN
      requires forall p :: p in inbox ==> WellFormedPacket(p, BLOCKS) && (p.reportType < BLOCK_UP || isRoot)
      modifies job, job.base, job.base.a, job2, job2.base, job2.base.a, pay, pay.base, pay.base.a
      modifies block, overflow, this`sent
      ensures Valid() && AllInRange(ReportsOf(inbox), BLOCKS)
      ensures var g := AbsorbAll(old(F()), ReportsOf(inbox), BLOCKSIZE);
              old(job.base.IsNormal()) && HasRoom(g.base, BLOCKS + 1) ==>
                && job.base.IsNormal() && F() == (if checked then CompleteBlock(g, BLOCKSIZE).0 else g)
                && Outgoing() == old(Outgoing()) + Relay(old(F()), ReportsOf(inbox), BLOCKSIZE, !isRoot)
                                 + Ending(g, BLOCKSIZE, checked, !isRoot)
    {
      ReceiveAll(inbox);
      MoreBlocks(BLOCKS, BLOCKSIZE);
      if checked {
        ComputeEnd();
      }
    }

    /** compute_block from the computation on. */
    method CheckAndEnd(budget: nat, inbox: seq<Packet>) returns (outcome: Outcome)
      requires Valid() && job2.base.Valid() && pay.base.a.Length == INT_LEN
      requires n.Valid() && waterlevel.Valid()
      requires !overflow.raised ==> waterlevel.IsNormal() && waterlevel.Val() % 2 == 1
      requires forall p :: p in inbox ==> WellFormedPacket(p, BLOCKS) && (p.reportType < BLOCK_UP || isRoot)
      modifies job, job.base, job.base.a, job2, job2.base, job2.base.a, pay, pay.base, pay.base.a
      modifies n, n.a, waterlevel, waterlevel.a, block, overflow, this`sent
      ensures Valid() && AllInRange(ReportsOf(inbox), BLOCKS)
      ensures !old(overflow.raised) ==>
                && outcome == BlockVerdict(old(waterlevel.Val()), BLOCKSIZE, budget, CAP)
                && (outcome == Checked ==> BlockChecked(old(waterlevel.Val()), BLOCKSIZE))
      ensures old(overflow.raised) ==> outcome != Checked
      ensures var g := AbsorbAll(old(F()), ReportsOf(inbox), BLOCKSIZE);
              old(job.base.IsNormal()) && HasRoom(g.base, BLOCKS + 1) ==>
                && job.base.IsNormal() && F() == (if outcome == Checked then CompleteBlock(g, BLOCKSIZE).0 else g)
                && Outgoing() == old(Outgoing()) + Relay(old(F()), ReportsOf(inbox), BLOCKSIZE, !isRoot)
                                 + Ending(g, BLOCKSIZE, outcome == Checked, !isRoot)
    {
      ghost var f := F();
      outcome := CheckBlock(n, waterlevel, overflow, BLOCKSIZE, builtin, budget);
      assert F() == f;
      ReceiveAndEnd(outcome == Checked, inbox);
    }

    /** The same, from frame f before block bi was taken. */
    method Proceed(budget: nat, inbox: seq<Packet>, ghost f: Frame, ghost bi: nat, ghost out: seq<Sent>)
      returns (outcome: Outcome)
      requires Valid() && job2.base.Valid() && pay.base.a.Length == INT_LEN
      requires n.Valid() && waterlevel.Valid()
      requires !overflow.raised ==> waterlevel.IsNormal() && waterlevel.Val() % 2 == 1
      requires forall p :: p in inbox ==> WellFormedPacket(p, BLOCKS) && (p.reportType < BLOCK_UP || isRoot)
      requires Settled(f) && |f.blocks| == BLOCKS && bi < BLOCKS && f.blocks[bi] != DONE
      requires F() == TakeBlock(f, bi).0 && Outgoing() == out + Directed(TakeBlock(f, bi).1, !isRoot)
      requires !overflow.raised ==> waterlevel.Val() == f.base + bi * BLOCKSIZE
      modifies job, job.base, job.base.a, job2, job2.base, job2.base.a, pay, pay.base, pay.base.a
      modifies n, n.a, waterlevel, waterlevel.a, block, overflow, this`sent
      ensures Valid() && AllInRange(ReportsOf(inbox), BLOCKS)
      ensures !old(overflow.raised) ==> outcome == BlockVerdict(f.base + bi * BLOCKSIZE, BLOCKSIZE, budget, CAP)
      ensures old(overflow.raised) ==> outcome != Checked
      ensures old(job.base.IsNormal()) && HasRoom(Finally(f, bi, ReportsOf(inbox), BLOCKSIZE).base, BLOCKS + 1) ==>
                && Computed(f, bi, ReportsOf(inbox), BLOCKSIZE, outcome, F())
                && Outgoing() == out + Says(f, bi, ReportsOf(inbox), BLOCKSIZE, outcome, !isRoot)
    {
      ghost var rs, normal := ReportsOf(inbox), job.base.IsNormal();
      InRangeOf(inbox, BLOCKS);
      outcome := CheckAndEnd(budget, inbox);
      if normal && HasRoom(Finally(f, bi, rs, BLOCKSIZE).base, BLOCKS + 1) {
        ComputedFrom(f, bi, rs, BLOCKSIZE, outcome, F());
        SaysFrom(f, bi, rs, BLOCKSIZE, outcome, !isRoot, out);
      }
    }

    /**
     * compute_block as a whole. The reports that arrive while the block is computed touch
     * nothing the computation uses, so they may all be taken to arrive at its end. They are
     * processed whether or not the computation itself has raised the overflow flag.
     */
    method ComputeBlock(bi: nat, budget: nat, inbox: seq<Packet>) returns (begun: Begun, outcome: Outcome)
      requires Valid() && job2.base.Valid() && pay.base.a.Length == INT_LEN && bi < BLOCKS
      requires n.Valid() && waterlevel.a.Length == INT_LEN
      requires forall p :: p in inbox ==> WellFormedPacket(p, BLOCKS) && (p.reportType < BLOCK_UP || isRoot)
      requires !overflow.raised ==> job.base.Val() % 2 == 1
      modifies job, job.base, job.base.a, job2, job2.base, job2.base.a, pay, pay.base, pay.base.a
      modifies n, n.a, waterlevel, waterlevel.a, block, overflow, this`sent
      ensures Valid()
      ensures AllInRange(ReportsOf(inbox), BLOCKS)
      ensures begun == Cancelled <==> old(overflow.raised)
      ensures begun == AlreadyDone <==> !old(overflow.raised) && old(block[bi]) == DONE
      ensures begun == Cancelled ==> F() == old(F())
      ensures begun == AlreadyDone ==> F() == TakeBlock(old(F()), bi).0
      ensures begun != Started ==> outcome == Running && sent == old(sent)
      ensures begun == Started ==>
                var start := old(job.base.Val()) + bi * BLOCKSIZE;
                if start < CAP then outcome == BlockVerdict(start, BLOCKSIZE, budget, CAP) else outcome != Checked
      ensures begun == Started && HasRoom(Finally(old(F()), bi, ReportsOf(inbox), BLOCKSIZE).base, BLOCKS + 1) ==>
                && Computed(old(F()), bi, ReportsOf(inbox), BLOCKSIZE, outcome, F())
                && Outgoing() == old(Outgoing())
                                 + Says(old(F()), bi, ReportsOf(inbox), BLOCKSIZE, outcome, !isRoot)
    {
      outcome := Running;
      ghost var f, out := F(), Outgoing();
      InRangeOf(inbox, BLOCKS);
      begun := ComputeBegin(bi);
      if begun == Started {
        OddStart(f.base, bi, BLOCKSIZE);
        outcome := Proceed(budget, inbox, f, bi, out);
      }
    }
  }

  lemma OneMoreReport(f: Frame, rs: seq<Report>, unit: nat, r: Report, up: bool, out: seq<Sent>)
    requires Settled(f) && unit >= 1 && AllInRange(rs, |f.blocks|) && InRange(r, |f.blocks|)
    ensures AllInRange(rs + [r], |f.blocks|)
    ensures var g := AbsorbAll(f, rs, unit);
            && AbsorbAll(f, rs + [r], unit) == Absorb(g, r, unit).0
            && out + Relay(f, rs + [r], unit, up) == out + Relay(f, rs, unit, up) + Answer(g, r, unit, up)
  {
    assert (rs + [r])[..|rs|] == rs && (rs + [r])[|rs|] == r;
    Reassociate(out, Relay(f, rs, unit, up), Answer(AbsorbAll(f, rs, unit), r, unit, up));
  }

  lemma Reassociate(a: seq<Sent>, b: seq<Sent>, c: seq<Sent>)
    ensures a + b + c == a + (b + c)
  {}

  lemma ComputedFrom(f: Frame, bi: nat, rs: seq<Report>, size: nat, outcome: Outcome, h: Frame)
    requires Settled(f) && bi < |f.blocks| && f.blocks[bi] != DONE && size >= 1 && AllInRange(rs, |f.blocks|)
    requires outcome == Checked ==> BlockChecked(f.base + bi * size, size)
    requires var g := Finally(f, bi, rs, size); h == if outcome == Checked then CompleteBlock(g, size).0 else g
    ensures Computed(f, bi, rs, size, outcome, h)
  {
    JobTrackedAcrossReports(TakeBlock(f, bi).0, rs, size);
  }

  lemma SaysFrom(f: Frame, bi: nat, rs: seq<Report>, size: nat, outcome: Outcome, up: bool, out: seq<Sent>)
    requires Settled(f) && bi < |f.blocks| && f.blocks[bi] != DONE && size >= 1 && AllInRange(rs, |f.blocks|)
    ensures out + Directed(TakeBlock(f, bi).1, up) + Relay(TakeBlock(f, bi).0, rs, size, up)
            + Ending(Finally(f, bi, rs, size), size, outcome == Checked, up)
            == out + Says(f, bi, rs, size, outcome, up)
  {
    var a, b := Directed(TakeBlock(f, bi).1, up), Relay(TakeBlock(f, bi).0, rs, size, up);
    Reassociate(out, a, b);
    Reassociate(out, a + b, Ending(Finally(f, bi, rs, size), size, outcome == Checked, up));
  }

  /** If there is room at the end there was at the beginning. */
  lemma RoomBefore(f: Frame, rs: seq<Report>, blocks: nat, size: nat)
    requires Settled(f) && size >= 1 && AllInRange(rs, |f.blocks|)
    ensures f.base + blocks * size <= AbsorbAll(f, rs, size).base + (blocks + 1) * size
  {
    AbsorbAllReaches(f, rs, size, 0);
    assert rs[..0] == [];
    MoreBlocks(blocks, size);
  }

  lemma OddStart(base: nat, bi: nat, size: nat)
    requires size % 2 == 0
    ensures (base + bi * size) % 2 == base % 2
  {
    var h := size / 2;
    assert bi * size == 2 * (bi * h);
  }
}
