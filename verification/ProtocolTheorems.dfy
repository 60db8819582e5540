/** The protocol on real addresses: scaled runs, the main theorems, and the run that breaks safety. */
module ProtocolTheorems {
  import opened Options
  import opened Frames
  import opened FrameViews
  import opened Scaling
  import opened Protocol
  import opened ProtocolSafety
  import opened Collatz

  // ----- runs on addresses are runs on block numbers

  ghost function ScaleNode(n: Node, origin: nat, unit: nat): Node {
    Node(ScaleFrame(n.frame, origin, unit),
         if n.work.None? then None else Some(Address(n.work.value, origin, unit)), n.halted)
  }

  ghost function ScaleSeq(xs: seq<int>, origin: nat, unit: nat): seq<int> {
    seq(|xs|, i requires 0 <= i < |xs| => Address(xs[i], origin, unit))
  }

  ghost function ScaleNodes(ns: seq<Node>, origin: nat, unit: nat): seq<Node> {
    seq(|ns|, i requires 0 <= i < |ns| => ScaleNode(ns[i], origin, unit))
  }

  ghost function ScaleSystem(s: System, origin: nat, unit: nat): System {
    System(ScaleNodes(s.nodes, origin, unit), ScaleReports(s.net, origin, unit),
           ScaleSeq(s.started, origin, unit), ScaleSeq(s.verified, origin, unit))
  }

  /** The block numbers whose addresses are in `checkable`. */
  ghost function Unscale(checkable: iset<int>, origin: nat, unit: nat): iset<int> {
    iset n: int | Address(n, origin, unit) in checkable
  }

  lemma ScaleWellFormed(s: System, blocks: nat, origin: nat, unit: nat)
    requires WellFormed(s, blocks)
    ensures WellFormed(ScaleSystem(s, origin, unit), blocks)
  {
    forall i | 0 <= i < |s.nodes|
      ensures Settled(ScaleNode(s.nodes[i], origin, unit).frame)
    {}
  }

  lemma EnabledScales(s: System, a: Action, blocks: nat, origin: nat, unit: nat, checkable: iset<int>)
    requires WellFormed(s, blocks)
    ensures Enabled(ScaleSystem(s, origin, unit), a, checkable) <==> Enabled(s, a, Unscale(checkable, origin, unit))
  {
    if a.node < |s.nodes| {
      assert ScaleSystem(s, origin, unit).nodes[a.node] == ScaleNode(s.nodes[a.node], origin, unit);
    }
  }

  lemma UpdateScales(ns: seq<Node>, i: nat, n: Node, origin: nat, unit: nat)
    requires i < |ns|
    ensures ScaleNodes(ns[i := n], origin, unit) == ScaleNodes(ns, origin, unit)[i := ScaleNode(n, origin, unit)]
  {}

  lemma SnocScales(xs: seq<int>, x: int, origin: nat, unit: nat)
    ensures ScaleSeq(xs + [x], origin, unit) == ScaleSeq(xs, origin, unit) + [Address(x, origin, unit)]
  {}

  lemma AppendScales(rs: seq<Report>, ts: seq<Report>, origin: nat, unit: nat)
    ensures ScaleReports(rs + ts, origin, unit) == ScaleReports(rs, origin, unit) + ScaleReports(ts, origin, unit)
  {}

  lemma ApplyScales(s: System, a: Action, blocks: nat, origin: nat, unit: nat, checkable: iset<int>)
    requires WellFormed(s, blocks) && unit >= 1 && Enabled(s, a, Unscale(checkable, origin, unit))
    ensures WellFormed(ScaleSystem(s, origin, unit), blocks) && Enabled(ScaleSystem(s, origin, unit), a, checkable)
    ensures Apply(ScaleSystem(s, origin, unit), a, blocks, unit, checkable)
            == ScaleSystem(Apply(s, a, blocks, 1, Unscale(checkable, origin, unit)), origin, unit)
  {
    ScaleWellFormed(s, blocks, origin, unit);
    EnabledScales(s, a, blocks, origin, unit, checkable);
    var n := s.nodes[a.node];
    var f := n.frame;
    assert ScaleSystem(s, origin, unit).nodes[a.node] == ScaleNode(n, origin, unit);
    match a {
      case Start(i, b) =>
        var (g, out) := TakeBlock(f, b);
        TakeBlockScales(f, b, origin, unit);
        AddressAdd(f.base, b, origin, unit);
        UpdateScales(s.nodes, i, n.(frame := g), origin, unit);
        UpdateScales(s.nodes, i, n.(frame := g, work := Some(f.base + b)), origin, unit);
        SnocScales(s.started, f.base + b, origin, unit);
        AppendScales(s.net, out, origin, unit);
      case Finish(i) =>
        var (g, out) := CompleteBlock(f, 1);
        CompleteBlockScales(f, origin, unit);
        UpdateScales(s.nodes, i, n.(frame := g, work := None), origin, unit);
        SnocScales(s.verified, n.work.value, origin, unit);
        AppendScales(s.net, out, origin, unit);
      case Abort(i) =>
        UpdateScales(s.nodes, i, n.(work := None, halted := true), origin, unit);
      case Receive(i, j) =>
        var (g, out) := Absorb(f, s.net[j], 1);
        AbsorbScales(f, s.net[j], origin, unit);
        UpdateScales(s.nodes, i, n.(frame := g), origin, unit);
        AppendScales(s.net, out, origin, unit);
    }
  }

  lemma LeakScales(s: System, a: Action, blocks: nat, origin: nat, unit: nat)
    requires WellFormed(s, blocks) && unit >= 1
    ensures WellFormed(ScaleSystem(s, origin, unit), blocks)
    ensures StepLeaks(ScaleSystem(s, origin, unit), a, blocks, unit) <==> StepLeaks(s, a, blocks, 1)
  {
    ScaleWellFormed(s, blocks, origin, unit);
    if a.Receive? && a.node < |s.nodes| && a.index < |s.net| {
      AbsorbScales(s.nodes[a.node].frame, s.net[a.index], origin, unit);
    }
  }

  /** Runs on addresses and runs on block numbers mirror each other, step for step and leak for leak. */
  lemma {:induction false} RunScales(s: System, run: seq<Action>, blocks: nat, origin: nat, unit: nat,
                                     checkable: iset<int>)
    requires WellFormed(s, blocks) && unit >= 1 && WellFormed(ScaleSystem(s, origin, unit), blocks)
    ensures var c := Unscale(checkable, origin, unit);
            Legal(ScaleSystem(s, origin, unit), run, blocks, unit, checkable) <==> Legal(s, run, blocks, 1, c)
    ensures var c := Unscale(checkable, origin, unit);
            Legal(s, run, blocks, 1, c) ==>
              && Run(ScaleSystem(s, origin, unit), run, blocks, unit, checkable)
                 == ScaleSystem(Run(s, run, blocks, 1, c), origin, unit)
              && (LeakFree(ScaleSystem(s, origin, unit), run, blocks, unit, checkable)
                  <==> LeakFree(s, run, blocks, 1, c))
    decreases |run|
  {
    if run != [] {
      var c := Unscale(checkable, origin, unit);
      EnabledScales(s, run[0], blocks, origin, unit, checkable);
      if Enabled(s, run[0], c) {
        ApplyScales(s, run[0], blocks, origin, unit, checkable);
        LeakScales(s, run[0], blocks, origin, unit);
        RunScales(Apply(s, run[0], blocks, 1, c), run[1..], blocks, origin, unit, checkable);
      }
    }
  }

  lemma InitialScales(count: nat, blocks: nat, base: nat, unit: nat)
    requires blocks >= 1
    ensures ScaleSystem(Initial(count, blocks, 0), base, unit) == Initial(count, blocks, base)
    ensures WellFormed(Initial(count, blocks, base), blocks)
  {}

  // ----- the main theorems

  /** The block starts for which compute_block finds every odd number dropping below itself. */
  ghost function Checkable(size: nat): iset<int> {
    iset x: int | x >= 0 && BlockChecked(x, size)
  }

  /** A legal run of `count` nodes from collatz_init with the given base and block size. */
  ghost predicate LegalRun(run: seq<Action>, count: nat, blocks: nat, base: nat, size: nat) {
    && blocks >= 1 && size >= 1
    && WellFormed(Initial(count, blocks, base), blocks)
    && Legal(Initial(count, blocks, base), run, blocks, size, Checkable(size))
  }

  ghost function Final(run: seq<Action>, count: nat, blocks: nat, base: nat, size: nat): System
    requires LegalRun(run, count, blocks, base, size)
  {
    Run(Initial(count, blocks, base), run, blocks, size, Checkable(size))
  }

  /** The blocks below f.base and the blocks of the window marked at least `mark` are all in xs. */
  ghost predicate FrameCovered(f: Frame, mark: Mark, xs: seq<int>, base: nat, size: nat) {
    && (forall k: nat :: Address(k, base, size) < f.base ==> Address(k, base, size) in xs)
    && (forall j :: 0 <= j < |f.blocks| && f.blocks[j] >= mark ==> Address(j, f.base, size) in xs)
  }

  ghost predicate ReportCovered(r: Report, mark: Mark, xs: seq<int>, base: nat, size: nat) {
    && (forall k: nat :: Address(k, base, size) < r.base ==> Address(k, base, size) in xs)
    && (r.id >= 0 && r.kind >= mark ==> Address(r.id, r.base, size) in xs)
  }

  ghost predicate Covered(s: System, mark: Mark, xs: seq<int>, base: nat, size: nat) {
    && (forall i :: 0 <= i < |s.nodes| ==> FrameCovered(s.nodes[i].frame, mark, xs, base, size))
    && (forall j :: 0 <= j < |s.net| ==> ReportCovered(s.net[j], mark, xs, base, size))
  }

  /** The run on block numbers that a run on addresses mirrors. */
  lemma Mirror(run: seq<Action>, count: nat, blocks: nat, base: nat, size: nat) returns (t: System)
    requires LegalRun(run, count, blocks, base, size)
    ensures Final(run, count, blocks, base, size) == ScaleSystem(t, base, size)
    ensures Inv(t, blocks)
    ensures LeakFree(Initial(count, blocks, base), run, blocks, size, Checkable(size)) ==> Safe(t)
  {
    var c := Unscale(Checkable(size), base, size);
    var s := Initial(count, blocks, 0);
    InitialScales(count, blocks, base, size);
    InitialInv(count, blocks);
    RunScales(s, run, blocks, base, size, Checkable(size));
    t := Run(s, run, blocks, 1, c);
    RunKeepsInv(s, run, blocks, c);
    if LeakFree(Initial(count, blocks, base), run, blocks, size, Checkable(size)) {
      LeakFreeRunIsSafe(s, run, blocks, c);
    }
  }

  lemma InScaleSeq(xs: seq<int>, x: int, base: nat, size: nat)
    requires x in xs
    ensures Address(x, base, size) in ScaleSeq(xs, base, size)
  {
    var i :| 0 <= i < |xs| && xs[i] == x;
    assert ScaleSeq(xs, base, size)[i] == Address(x, base, size);
  }

  lemma FrameCoverScales(f: Frame, mark: Mark, xs: seq<int>, base: nat, size: nat)
    requires mark > FREE && size >= 1 && forall k: nat :: View(f, k) >= mark ==> k in xs
    ensures FrameCovered(ScaleFrame(f, base, size), mark, ScaleSeq(xs, base, size), base, size)
  {
    var g, ys := ScaleFrame(f, base, size), ScaleSeq(xs, base, size);
    forall k: nat | Address(k, base, size) < g.base
      ensures Address(k, base, size) in ys
    {
      AddressMonotonic(k, f.base, base, size);
      assert View(f, k) == DONE;
      InScaleSeq(xs, k, base, size);
    }
    forall j | 0 <= j < |g.blocks| && g.blocks[j] >= mark
      ensures Address(j, g.base, size) in ys
    {
      assert View(f, f.base + j) == g.blocks[j];
      InScaleSeq(xs, f.base + j, base, size);
      AddressAdd(f.base, j, base, size);
    }
  }

  lemma ReportCoverScales(r: Report, mark: Mark, xs: seq<int>, base: nat, size: nat)
    requires mark > FREE && size >= 1 && forall k: nat :: Claim(r, k) >= mark ==> k in xs
    ensures ReportCovered(ScaleReport(r, base, size), mark, ScaleSeq(xs, base, size), base, size)
  {
    var g, ys := ScaleReport(r, base, size), ScaleSeq(xs, base, size);
    forall k: nat | Address(k, base, size) < g.base
      ensures Address(k, base, size) in ys
    {
      AddressMonotonic(k, r.base, base, size);
      assert Claim(r, k) == DONE;
      InScaleSeq(xs, k, base, size);
    }
    if g.id >= 0 && g.kind >= mark {
      assert Claim(r, r.base + r.id) == g.kind;
      InScaleSeq(xs, r.base + r.id, base, size);
      AddressAdd(r.base, r.id, base, size);
    }
  }

  lemma CoverScales(t: System, mark: Mark, xs: seq<int>, base: nat, size: nat)
    requires mark > FREE && size >= 1
    requires forall i :: 0 <= i < |t.nodes| ==> forall k: nat :: View(t.nodes[i].frame, k) >= mark ==> k in xs
    requires forall j :: 0 <= j < |t.net| ==> forall k: nat :: Claim(t.net[j], k) >= mark ==> k in xs
    ensures Covered(ScaleSystem(t, base, size), mark, ScaleSeq(xs, base, size), base, size)
  {
    forall i | 0 <= i < |t.nodes|
      ensures FrameCovered(ScaleFrame(t.nodes[i].frame, base, size), mark, ScaleSeq(xs, base, size), base, size)
    {
      FrameCoverScales(t.nodes[i].frame, mark, xs, base, size);
    }
    forall j | 0 <= j < |t.net|
      ensures ReportCovered(ScaleReport(t.net[j], base, size), mark, ScaleSeq(xs, base, size), base, size)
    {
      ReportCoverScales(t.net[j], mark, xs, base, size);
    }
  }

  /**
   * In every run: whatever a node has passed, marked taken or marked done, and whatever any
   * report claims, is a block that some node's compute_block has started.
   */
  lemma EveryMarkWasStarted(run: seq<Action>, count: nat, blocks: nat, base: nat, size: nat)
    requires LegalRun(run, count, blocks, base, size)
    ensures var t := Final(run, count, blocks, base, size);
            Covered(t, TAKEN, t.started, base, size)
  {
    var t := Mirror(run, count, blocks, base, size);
    CoverScales(t, TAKEN, t.started, base, size);
  }

  /**
   * In every run in which no report_my_progress(0) sends a merely taken block: whatever a
   * node has passed or marked done, and whatever any report claims done, was checked to the
   * end by some node, and all its odd numbers do drop.
   */
  lemma EveryDoneWasVerified(run: seq<Action>, count: nat, blocks: nat, base: nat, size: nat)
    requires LegalRun(run, count, blocks, base, size)
    requires LeakFree(Initial(count, blocks, base), run, blocks, size, Checkable(size))
    ensures var t := Final(run, count, blocks, base, size);
            && Covered(t, DONE, t.verified, base, size)
            && forall x :: x in t.verified ==> BlockChecked(x, size)
  {
    var t := Mirror(run, count, blocks, base, size);
    CoverScales(t, DONE, t.verified, base, size);
    VerifiedWasChecked(Initial(count, blocks, base), run, blocks, size, Checkable(size));
  }

  /**
   * At every point of every run the frames are in order: the first block is open, the base
   * is the initial base plus a whole number of blocks, odd if that was, and a current block
   * is the block in work.
   */
  lemma FramesStayInOrder(run: seq<Action>, count: nat, blocks: nat, base: nat, size: nat, i: nat)
    requires LegalRun(run, count, blocks, base, size) && i < count
    ensures var t := Final(run, count, blocks, base, size);
            && i < |t.nodes|
            && var n := t.nodes[i];
            && Settled(n.frame) && |n.frame.blocks| == blocks
            && (exists m: nat :: n.frame.base == Address(m, base, size))
            && (base % 2 == 1 && size % 2 == 0 ==> n.frame.base % 2 == 1)
            && (n.work.Some? && n.frame.job >= 0 ==> Address(n.frame.job, n.frame.base, size) == n.work.value)
  {
    var t := Mirror(run, count, blocks, base, size);
    var n := t.nodes[i];
    assert Final(run, count, blocks, base, size).nodes[i] == ScaleNode(n, base, size);
    if base % 2 == 1 && size % 2 == 0 {
      OddAddress(n.frame.base, base, size);
    }
    if n.work.Some? && n.frame.job >= 0 {
      AddressAdd(n.frame.base, n.frame.job, base, size);
    }
  }

  lemma OddAddress(m: int, base: nat, size: nat)
    requires base % 2 == 1 && size % 2 == 0
    ensures Address(m, base, size) % 2 == 1
  {
    var h := size / 2;
    assert size * m == 2 * (h * m);
  }

  /**
   * The end-to-end theorem: if every number up to the initial base reaches 1, then in every
   * leak-free run every number up to the base of any node, and up to the base in any report
   * ever sent, reaches 1.
   */
  lemma EveryNumberBelowABaseReachesOne(run: seq<Action>, count: nat, blocks: nat, base: nat, size: nat)
    requires LegalRun(run, count, blocks, base, size) && base >= 1 && VerifiedUpTo(base)
    requires LeakFree(Initial(count, blocks, base), run, blocks, size, Checkable(size))
    ensures var t := Final(run, count, blocks, base, size);
            && (forall i :: 0 <= i < |t.nodes| ==> VerifiedUpTo(t.nodes[i].frame.base))
            && (forall j :: 0 <= j < |t.net| ==> VerifiedUpTo(t.net[j].base))
  {
    var t := Final(run, count, blocks, base, size);
    var u := Mirror(run, count, blocks, base, size);
    EveryDoneWasVerified(run, count, blocks, base, size);
    forall i | 0 <= i < |t.nodes|
      ensures VerifiedUpTo(t.nodes[i].frame.base)
    {
      assert FrameCovered(t.nodes[i].frame, DONE, t.verified, base, size);
      assert t.nodes[i] == ScaleNode(u.nodes[i], base, size);
      CoveredBaseIsVerified(u.nodes[i].frame.base, t.verified, base, size);
    }
    forall j | 0 <= j < |t.net|
      ensures VerifiedUpTo(t.net[j].base)
    {
      assert ReportCovered(t.net[j], DONE, t.verified, base, size);
      assert t.net[j] == ScaleReport(u.net[j], base, size);
      CoveredBaseIsVerified(u.net[j].base, t.verified, base, size);
    }
  }

  lemma CoveredBaseIsVerified(n: nat, verified: seq<int>, base: nat, size: nat)
    requires size >= 1 && base >= 1 && VerifiedUpTo(base)
    requires forall k: nat :: Address(k, base, size) < Address(n, base, size) ==> Address(k, base, size) in verified
    requires forall x :: x in verified ==> x >= 0 ==> BlockChecked(x, size)
    ensures VerifiedUpTo(Address(n, base, size))
  {
    forall k: nat | k < n
      ensures BlockChecked(base + k * size, size)
    {
      AddressMonotonic(k, n, base, size);
      assert Address(k, base, size) in verified;
    }
    BlocksExtend(base, size, n);
  }
}
