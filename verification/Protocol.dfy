/**
 * N nodes verifying together. Each mutex-protected region of collatz.c is one atomic step,
 * and the network is a growing log of reports any of which may reach any node any number
 * of times, in any order, or never.
 */
module Protocol {
  import opened Options
  import opened Frames
  import opened FrameViews

  /** One node: its frame, the address of the block its worker computes, and whether the worker has ended. */
  datatype Node = Node(frame: Frame, work: Option<int>, halted: bool)

  /** All nodes, the reports ever sent, and the blocks ever started and completely checked. */
  datatype System = System(nodes: seq<Node>, net: seq<Report>, started: seq<int>, verified: seq<int>)

  datatype Action =
    | Start(node: nat, block: nat)   // compute_block up to its first release of the mutex
    | Finish(node: nat)              // compute_block from its second acquisition on
    | Abort(node: nat)               // compute_block gives up on overflow; the worker ends
    | Receive(node: nat, index: nat) // process_report on the given report of the log

  ghost predicate WellFormed(s: System, blocks: nat) {
    && blocks >= 1
    && (forall i :: 0 <= i < |s.nodes| ==> Settled(s.nodes[i].frame) && |s.nodes[i].frame.blocks| == blocks)
    && AllInRange(s.net, blocks)
  }

  /**
   * When an action can happen. `checkable` holds the blocks whose computation runs to its end,
   * that is, those for which the inner loops of compute_block find every odd number dropping.
   */
  ghost predicate Enabled(s: System, a: Action, checkable: iset<int>) {
    a.node < |s.nodes| &&
    var n := s.nodes[a.node];
    match a
    case Start(_, b) => n.work.None? && !n.halted && b < |n.frame.blocks|
    case Finish(_) => n.work.Some? && n.work.value in checkable
    case Abort(_) => n.work.Some?
    case Receive(_, j) => j < |s.net|
  }

  ghost function Apply(s: System, a: Action, blocks: nat, unit: nat, checkable: iset<int>): (t: System)
    requires WellFormed(s, blocks) && Enabled(s, a, checkable) && unit >= 1
    ensures WellFormed(t, blocks) && |t.nodes| == |s.nodes|
  {
    var n := s.nodes[a.node];
    var f := n.frame;
    match a
    case Start(i, b) =>
      var (g, out) := TakeBlock(f, b);
      if f.blocks[b] == DONE then s.(nodes := s.nodes[i := n.(frame := g)])
      else
        var start := f.base + b * unit;
        s.(nodes := s.nodes[i := n.(frame := g, work := Some(start))],
           net := s.net + out, started := s.started + [start])
    case Finish(i) =>
      CompleteSettled(f, unit);
      var (g, out) := CompleteBlock(f, unit);
      s.(nodes := s.nodes[i := n.(frame := g, work := None)],
         net := s.net + out, verified := s.verified + [n.work.value])
    case Abort(i) => s.(nodes := s.nodes[i := n.(work := None, halted := true)])
    case Receive(i, j) =>
      AbsorbSettled(f, s.net[j], unit);
      var (g, out) := Absorb(f, s.net[j], unit);
      s.(nodes := s.nodes[i := n.(frame := g)], net := s.net + out)
  }

  lemma CompleteSettled(f: Frame, unit: nat)
    requires Settled(f)
    ensures var (g, out) := CompleteBlock(f, unit);
            && Settled(g) && |g.blocks| == |f.blocks|
            && AllInRange(out, |f.blocks|)
  {
    if f.job >= 0 {
      ProgressSettled(f.(blocks := f.blocks[f.job := DONE]), true, unit);
    }
  }

  ghost predicate Legal(s: System, run: seq<Action>, blocks: nat, unit: nat, checkable: iset<int>)
    requires WellFormed(s, blocks) && unit >= 1
    decreases |run|
  {
    run != [] ==>
      Enabled(s, run[0], checkable) &&
      Legal(Apply(s, run[0], blocks, unit, checkable), run[1..], blocks, unit, checkable)
  }

  ghost function Run(s: System, run: seq<Action>, blocks: nat, unit: nat, checkable: iset<int>): (t: System)
    requires WellFormed(s, blocks) && unit >= 1 && Legal(s, run, blocks, unit, checkable)
    ensures WellFormed(t, blocks) && |t.nodes| == |s.nodes|
    decreases |run|
  {
    if run == [] then s
    else Run(Apply(s, run[0], blocks, unit, checkable), run[1..], blocks, unit, checkable)
  }

  /** collatz_init on every node: nothing known above the base, block_id still 0 from static storage. */
  ghost function Initial(count: nat, blocks: nat, base: nat): System
    requires blocks >= 1
  {
    System(seq(count, _ => Node(Frame(base, AllFree(blocks), 0), None, false)), [], [], [])
  }

  // ----- invariants, in units of blocks

  /**
   * What holds of one node: the current block and the block in work are the same if both
   * exist, a current block other than the first is not free, and whatever is not free was
   * started by somebody.
   */
  ghost predicate NodeInv(n: Node, started: seq<int>) {
    && Settled(n.frame)
    && (n.work.Some? ==> n.work.value in started)
    && (n.work.Some? && n.frame.job >= 0 ==> n.frame.base + n.frame.job == n.work.value)
    && (n.frame.job > 0 ==> n.frame.blocks[n.frame.job] != FREE)
    && (forall k: nat :: View(n.frame, k) != FREE ==> k in started)
  }

  ghost predicate ReportInv(r: Report, started: seq<int>) {
    forall k: nat :: Claim(r, k) != FREE ==> k in started
  }

  ghost predicate Inv(s: System, blocks: nat) {
    && WellFormed(s, blocks)
    && (forall i :: 0 <= i < |s.nodes| ==> NodeInv(s.nodes[i], s.started))
    && (forall j :: 0 <= j < |s.net| ==> ReportInv(s.net[j], s.started))
  }

  ghost predicate NodeSafe(n: Node, verified: seq<int>) {
    forall k: nat :: View(n.frame, k) == DONE ==> k in verified
  }

  ghost predicate ReportSafe(r: Report, verified: seq<int>) {
    forall k: nat :: Claim(r, k) == DONE ==> k in verified
  }

  /** Everything that counts as done on a node or is reported as done was checked to its end. */
  ghost predicate Safe(s: System) {
    && (forall i :: 0 <= i < |s.nodes| ==> NodeSafe(s.nodes[i], s.verified))
    && (forall j :: 0 <= j < |s.net| ==> ReportSafe(s.net[j], s.verified))
  }

  /** process_report sends the block that is still being computed as the finished one. */
  ghost predicate Leaks(f: Frame, r: Report, unit: nat)
    requires Settled(f) && InRange(r, |f.blocks|) && unit >= 1
  {
    var (g, out) := Absorb(f, r, unit);
    out != [] && 0 <= g.job < |g.blocks| && g.blocks[g.job] == TAKEN
  }

  ghost predicate StepLeaks(s: System, a: Action, blocks: nat, unit: nat)
    requires WellFormed(s, blocks) && unit >= 1
  {
    a.Receive? && a.node < |s.nodes| && a.index < |s.net|
    && Leaks(s.nodes[a.node].frame, s.net[a.index], unit)
  }

  /** No step of the run sends a block that is still being computed as done. */
  ghost predicate LeakFree(s: System, run: seq<Action>, blocks: nat, unit: nat, checkable: iset<int>)
    requires WellFormed(s, blocks) && unit >= 1 && Legal(s, run, blocks, unit, checkable)
    decreases |run|
  {
    run != [] ==>
      && !StepLeaks(s, run[0], blocks, unit)
      && LeakFree(Apply(s, run[0], blocks, unit, checkable), run[1..], blocks, unit, checkable)
  }
}
