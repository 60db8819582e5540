/** What every step of the protocol keeps, and what a DONE mark anywhere in the network means. */
module ProtocolSafety {
  import opened Options
  import opened Frames
  import opened FrameViews
  import opened Protocol

  // ----- the current block across one critical section

  lemma ProgressJobMark(f: Frame, fin: bool)
    requires Valid(f) && (f.job > 0 ==> f.blocks[f.job] != FREE)
    ensures var (g, out) := Progress(f, fin, 1);
            && (g.job > 0 ==> g.blocks[g.job] != FREE)
            && (g.job >= 0 && f.blocks[0] == DONE ==> g.blocks[g.job] != FREE)
            && (g.job >= 0 ==> f.job >= 0 && g.blocks[g.job] == f.blocks[f.job])
  {}

  lemma EnterJobMark(f: Frame, id: int, kind: Mark)
    requires Valid(f) && id < |f.blocks| && (f.job > 0 ==> f.blocks[f.job] != FREE)
    ensures var (g, out) := Progress(Enter(f, id, kind), false, 1);
            && (g.job > 0 ==> g.blocks[g.job] != FREE)
            && (g.job >= 0 && out != [] ==> g.blocks[g.job] != FREE)
  {
    ProgressJobMark(Enter(f, id, kind), false);
  }

  lemma ClimbJobMark(f: Frame, target: nat)
    requires Valid(f) && target > f.base && (f.job > 0 ==> f.blocks[f.job] != FREE)
    ensures var g := ClimbTo(f, target, 1); Valid(g) && (g.job > 0 ==> g.blocks[g.job] != FREE)
  {}

  lemma AbsorbJobMark(f: Frame, r: Report)
    requires Settled(f) && InRange(r, |f.blocks|) && (f.job > 0 ==> f.blocks[f.job] != FREE)
    ensures var (g, out) := Absorb(f, r, 1);
            && Settled(g)
            && (g.job > 0 ==> g.blocks[g.job] != FREE)
            && (g.job >= 0 && out != [] ==> g.blocks[g.job] != FREE)
  {
    AbsorbSettled(f, r, 1);
    if r.base < f.base {
      LowerInRange(r, f.base, 1);
      var l := Lower(r, f.base, 1);
      if l.Some? {
        EnterJobMark(f, l.value.id, l.value.kind);
      }
    } else if r.base == f.base {
      EnterJobMark(f, r.id, r.kind);
    } else {
      ClimbJobMark(f, r.base);
      EnterJobMark(ClimbTo(f, r.base, 1), r.id, r.kind);
    }
  }

  // ----- preservation, action by action

  lemma StartKeepsInv(n: Node, b: nat, started: seq<int>)
    requires NodeInv(n, started) && n.work.None? && b < |n.frame.blocks|
    ensures var (g, out) := TakeBlock(n.frame, b);
            var start := n.frame.base + b;
            && (n.frame.blocks[b] == DONE ==> out == [] && NodeInv(n.(frame := g), started))
            && (n.frame.blocks[b] != DONE ==>
                  && NodeInv(n.(frame := g, work := Some(start)), started + [start])
                  && |out| == 1 && ReportInv(out[0], started + [start]))
  {
    forall k: nat
      ensures View(TakeBlock(n.frame, b).0, k) == Max(View(n.frame, k), if k == n.frame.base + b then TAKEN else FREE)
    {
      TakeBlockView(n.frame, b, k);
    }
  }

  lemma FinishKeepsInv(n: Node, started: seq<int>)
    requires NodeInv(n, started) && n.work.Some?
    ensures var (g, out) := CompleteBlock(n.frame, 1);
            && NodeInv(n.(frame := g, work := None), started)
            && |out| <= 1 && (out != [] ==> ReportInv(out[0], started))
  {
    var f := n.frame;
    var (g, out) := CompleteBlock(f, 1);
    CompleteSettled(f, 1);
    forall k: nat
      ensures View(g, k) == Max(View(f, k), if f.job >= 0 && k == f.base + f.job then DONE else FREE)
    {
      CompleteBlockView(f, k);
    }
    if f.job >= 0 {
      ReportedAfterProgress(f.(blocks := f.blocks[f.job := DONE]), true);
    }
  }

  /** A report sent by report_my_progress claims nothing its sender does not have down as non-free. */
  lemma ReportedAfterProgress(f: Frame, fin: bool)
    requires Valid(f) && (f.job > 0 ==> f.blocks[f.job] != FREE) && (fin ==> f.job >= 0 ==> f.blocks[f.job] != FREE)
    ensures var (g, out) := Progress(f, fin, 1);
            && |out| <= 1
            && (out != [] ==> forall k: nat :: Claim(out[0], k) != FREE ==> View(g, k) != FREE)
            && (out != [] ==> forall k: nat :: Claim(out[0], k) == DONE ==>
                  View(g, k) == DONE || (g.job >= 0 && k == g.base + g.job))
  {
    ProgressJobMark(f, fin);
  }

  lemma AbsorbReports(f: Frame, r: Report)
    requires Settled(f) && InRange(r, |f.blocks|) && (f.job > 0 ==> f.blocks[f.job] != FREE)
    ensures var (g, out) := Absorb(f, r, 1);
            && |out| <= 1
            && (out != [] ==> forall k: nat :: Claim(out[0], k) != FREE ==> View(g, k) != FREE)
            && (out != [] ==> forall k: nat :: Claim(out[0], k) == DONE <==>
                  k < g.base || (g.job >= 0 && k == g.base + g.job))
  {
    AbsorbSettled(f, r, 1);
    AbsorbJobMark(f, r);
  }

  lemma ReceiveKeepsInv(n: Node, r: Report, started: seq<int>)
    requires NodeInv(n, started) && ReportInv(r, started) && InRange(r, |n.frame.blocks|)
    ensures var (g, out) := Absorb(n.frame, r, 1);
            && NodeInv(n.(frame := g), started)
            && |out| <= 1 && (out != [] ==> ReportInv(out[0], started))
  {
    var f := n.frame;
    var (g, out) := Absorb(f, r, 1);
    AbsorbSettled(f, r, 1);
    AbsorbJobMark(f, r);
    AbsorbReports(f, r);
    AbsorbTracksJob(f, r, 1);
    forall k: nat
      ensures View(g, k) == Max(View(f, k), Claim(r, k))
    {
      AbsorbIsJoin(f, r, k);
    }
  }

  lemma InvMonotonic(n: Node, started: seq<int>, more: seq<int>)
    requires NodeInv(n, started) && forall x :: x in started ==> x in more
    ensures NodeInv(n, more)
  {}

  lemma ReportMonotonic(r: Report, started: seq<int>, more: seq<int>)
    requires ReportInv(r, started) && forall x :: x in started ==> x in more
    ensures ReportInv(r, more)
  {}

  /** One node changes and sends at most one report, and the set of started blocks grows. */
  lemma UpdateKeepsInv(s: System, t: System, blocks: nat, i: nat, n: Node, out: seq<Report>)
    requires Inv(s, blocks) && WellFormed(t, blocks) && i < |s.nodes|
    requires t.nodes == s.nodes[i := n] && t.net == s.net + out && |out| <= 1
    requires forall x :: x in s.started ==> x in t.started
    requires NodeInv(n, t.started) && (out != [] ==> ReportInv(out[0], t.started))
    ensures Inv(t, blocks)
  {
    forall j | 0 <= j < |s.nodes|
      ensures NodeInv(s.nodes[j], t.started)
    {
      InvMonotonic(s.nodes[j], s.started, t.started);
    }
    forall j | 0 <= j < |s.net|
      ensures ReportInv(s.net[j], t.started)
    {
      ReportMonotonic(s.net[j], s.started, t.started);
    }
  }

  /** Every step keeps the invariant. */
  lemma StepKeepsInv(s: System, a: Action, blocks: nat, checkable: iset<int>)
    requires Inv(s, blocks) && Enabled(s, a, checkable)
    ensures Inv(Apply(s, a, blocks, 1, checkable), blocks)
  {
    var t := Apply(s, a, blocks, 1, checkable);
    var n := s.nodes[a.node];
    var out := t.net[|s.net|..];
    match a {
      case Start(i, b) => StartKeepsInv(n, b, s.started);
      case Finish(i) => FinishKeepsInv(n, s.started);
      case Abort(i) =>
      case Receive(i, j) => ReceiveKeepsInv(n, s.net[j], s.started);
    }
    UpdateKeepsInv(s, t, blocks, a.node, t.nodes[a.node], out);
  }

  // ----- DONE means verified, exactly as long as nothing leaks

  /** The first block of the window once frame and report are at the same base. */
  function FirstBlock(f: Frame, r: Report): nat {
    if r.base > f.base then r.base else f.base
  }

  /** The frame moves on and a report is sent exactly if that block is done by own view or by claim. */
  lemma AbsorbSendsIff(f: Frame, r: Report)
    requires Settled(f) && InRange(r, |f.blocks|)
    ensures Absorb(f, r, 1).1 != [] <==> Max(View(f, FirstBlock(f, r)), Claim(r, FirstBlock(f, r))) == DONE
  {
    if r.base < f.base {
      LowerInRange(r, f.base, 1);
      LowerClaim(r, f.base, f.base);
    } else {
      var g := if r.base > f.base then ClimbTo(f, r.base, 1) else f;
      if r.base > f.base {
        ClimbView(f, r.base, r.base);
      }
      EnterView(g, r.id, r.kind, r.base);
    }
  }

  lemma ProgressKeepsJob(f: Frame, fin: bool)
    requires Valid(f) && f.job >= 0 && View(Progress(f, fin, 1).0, f.base + f.job) != DONE
    ensures var g := Progress(f, fin, 1).0; g.job == f.base + f.job - g.base
  {}

  /** The second half of process_report: entering the state and moving on. */
  lemma EnterKeepsJob(f: Frame, id: int, kind: Mark)
    requires Valid(f) && id < |f.blocks| && f.job >= 0
    requires View(Progress(Enter(f, id, kind), false, 1).0, f.base + f.job) != DONE
    ensures var g := Progress(Enter(f, id, kind), false, 1).0; g.job == f.base + f.job - g.base
  {
    var h := Enter(f, id, kind);
    ProgressView(h, false, f.base + f.job);
    EnterView(f, id, kind, f.base + f.job);
    assert h.job == f.job && h.base == f.base;
    ProgressKeepsJob(h, false);
  }

  lemma ClimbKeepsJob(f: Frame, target: nat)
    requires Valid(f) && target > f.base && f.job >= 0 && View(ClimbTo(f, target, 1), f.base + f.job) != DONE
    ensures var g := ClimbTo(f, target, 1); Valid(g) && g.job == f.base + f.job - g.base
  {
    ClimbCount(f.base, target, |f.blocks|);
  }

  /** A current block that is still open after a climb and an entry was open after the climb. */
  lemma StillOpen(g: Frame, id: int, kind: Mark, c: int)
    requires Valid(g) && id < |g.blocks| && View(Progress(Enter(g, id, kind), false, 1).0, c) != DONE
    ensures View(g, c) != DONE
  {
    ProgressView(Enter(g, id, kind), false, c);
    EnterView(g, id, kind, c);
  }

  /** A current block that is still open afterwards is still the current block. */
  lemma AbsorbKeepsJob(f: Frame, r: Report)
    requires Settled(f) && InRange(r, |f.blocks|)
    requires f.job >= 0 && View(Absorb(f, r, 1).0, f.base + f.job) != DONE
    ensures var g := Absorb(f, r, 1).0; g.job == f.base + f.job - g.base
  {
    if r.base < f.base {
      LowerInRange(r, f.base, 1);
      var l := Lower(r, f.base, 1);
      if l.Some? {
        EnterKeepsJob(f, l.value.id, l.value.kind);
      }
    } else if r.base == f.base {
      EnterKeepsJob(f, r.id, r.kind);
    } else {
      var g := ClimbTo(f, r.base, 1);
      StillOpen(g, r.id, r.kind, f.base + f.job);
      ClimbKeepsJob(f, r.base);
      EnterKeepsJob(g, r.id, r.kind);
    }
  }

  /** The received report finishes the first block while the own current block is not verified. */
  ghost predicate ReportsUnverified(f: Frame, r: Report, verified: seq<int>) {
    && f.job >= 0 && f.base + f.job !in verified
    && Max(View(f, FirstBlock(f, r)), Claim(r, FirstBlock(f, r))) == DONE
  }

  lemma ReceiveKeepsSafe(n: Node, r: Report, verified: seq<int>)
    requires Settled(n.frame) && InRange(r, |n.frame.blocks|) && NodeSafe(n, verified) && ReportSafe(r, verified)
    ensures NodeSafe(n.(frame := Absorb(n.frame, r, 1).0), verified)
  {
    forall k: nat
      ensures View(Absorb(n.frame, r, 1).0, k) == Max(View(n.frame, k), Claim(r, k))
    {
      AbsorbIsJoin(n.frame, r, k);
    }
  }

  /** What a receiving node sends is safe, except possibly for its current block. */
  lemma SentIsSafe(n: Node, r: Report, started: seq<int>, verified: seq<int>)
    requires NodeInv(n, started) && InRange(r, |n.frame.blocks|)
    requires NodeSafe(n.(frame := Absorb(n.frame, r, 1).0), verified)
    ensures var (g, out) := Absorb(n.frame, r, 1);
            && |out| <= 1
            && (out != [] ==> (ReportSafe(out[0], verified) <==> (g.job >= 0 ==> g.base + g.job in verified)))
  {
    var (g, out) := Absorb(n.frame, r, 1);
    AbsorbReports(n.frame, r);
    AbsorbSettled(n.frame, r, 1);
    if out != [] {
      assert forall k: nat :: k < g.base ==> View(g, k) == DONE;
      if g.job >= 0 {
        assert Claim(out[0], g.base + g.job) == DONE;
      }
    }
  }

  lemma OpenUnlessVerified(n: Node, r: Report, verified: seq<int>, k: nat)
    requires NodeSafe(n, verified) && ReportSafe(r, verified) && k !in verified
    ensures View(n.frame, k) != DONE && Claim(r, k) != DONE
  {}

  lemma StaysOpen(f: Frame, r: Report, k: nat)
    requires Settled(f) && InRange(r, |f.blocks|) && View(f, k) != DONE && Claim(r, k) != DONE
    ensures View(Absorb(f, r, 1).0, k) != DONE
  {
    AbsorbIsJoin(f, r, k);
  }

  lemma OpenJobStays(f: Frame, r: Report, c: nat)
    requires Settled(f) && InRange(r, |f.blocks|) && f.job >= 0 && c == f.base + f.job
    requires View(f, c) != DONE && Claim(r, c) != DONE
    ensures var g := Absorb(f, r, 1).0; View(g, c) != DONE && g.job == c - g.base >= 0
  {
    StaysOpen(f, r, c);
    AbsorbKeepsJob(f, r);
  }

  /** An unverified current block stays the current block. */
  lemma UnverifiedStays(n: Node, r: Report, verified: seq<int>)
    requires Settled(n.frame) && InRange(r, |n.frame.blocks|) && NodeSafe(n, verified) && ReportSafe(r, verified)
    requires n.frame.job >= 0 && n.frame.base + n.frame.job !in verified
    ensures var g, c := Absorb(n.frame, r, 1).0, n.frame.base + n.frame.job;
            View(g, c) != DONE && g.job == c - g.base >= 0
  {
    OpenUnlessVerified(n, r, verified, n.frame.base + n.frame.job);
    OpenJobStays(n.frame, r, n.frame.base + n.frame.job);
  }

  ghost predicate JobUnverified(f: Frame, verified: seq<int>) {
    f.job >= 0 && f.base + f.job !in verified
  }

  /** And no other block becomes the current one. */
  lemma UnverifiedStaysIff(n: Node, r: Report, verified: seq<int>)
    requires Settled(n.frame) && InRange(r, |n.frame.blocks|) && NodeSafe(n, verified) && ReportSafe(r, verified)
    ensures JobUnverified(Absorb(n.frame, r, 1).0, verified) <==> JobUnverified(n.frame, verified)
  {
    AbsorbTracksJob(n.frame, r, 1);
    if JobUnverified(n.frame, verified) {
      UnverifiedStays(n, r, verified);
    }
  }

  lemma ReceiveSafeIff(n: Node, r: Report, started: seq<int>, verified: seq<int>)
    requires NodeInv(n, started) && InRange(r, |n.frame.blocks|)
    requires NodeSafe(n, verified) && ReportSafe(r, verified)
    ensures var (g, out) := Absorb(n.frame, r, 1);
            && NodeSafe(n.(frame := g), verified)
            && |out| <= 1
            && (ReportsUnverified(n.frame, r, verified) <==> (out != [] && !ReportSafe(out[0], verified)))
  {
    ReceiveKeepsSafe(n, r, verified);
    SentIsSafe(n, r, started, verified);
    AbsorbSendsIff(n.frame, r);
    UnverifiedStaysIff(n, r, verified);
  }

  lemma JobIsTaken(g: Frame, c: nat)
    requires Settled(g) && g.job == c - g.base >= 0 && View(g, c) != DONE && g.job < |g.blocks|
    requires g.blocks[g.job] != FREE
    ensures g.blocks[g.job] == TAKEN
  {}

  /** A current block that is sent unverified is merely taken. */
  lemma UnverifiedIsLeak(n: Node, r: Report, started: seq<int>, verified: seq<int>)
    requires NodeInv(n, started) && InRange(r, |n.frame.blocks|)
    requires NodeSafe(n, verified) && ReportSafe(r, verified) && ReportsUnverified(n.frame, r, verified)
    ensures Leaks(n.frame, r, 1)
  {
    AbsorbSettled(n.frame, r, 1);
    AbsorbSendsIff(n.frame, r);
    AbsorbJobMark(n.frame, r);
    UnverifiedStays(n, r, verified);
    JobIsTaken(Absorb(n.frame, r, 1).0, n.frame.base + n.frame.job);
  }

  lemma StartKeepsSafe(n: Node, b: nat, verified: seq<int>)
    requires Settled(n.frame) && NodeSafe(n, verified) && b < |n.frame.blocks|
    ensures var (g, out) := TakeBlock(n.frame, b);
            && NodeSafe(n.(frame := g), verified)
            && |out| <= 1 && (out != [] ==> ReportSafe(out[0], verified))
  {
    forall k: nat
      ensures View(TakeBlock(n.frame, b).0, k) == Max(View(n.frame, k), if k == n.frame.base + b then TAKEN else FREE)
    {
      TakeBlockView(n.frame, b, k);
    }
    forall k: nat | k < n.frame.base
      ensures View(n.frame, k) == DONE
    {}
  }

  lemma FinishKeepsSafe(n: Node, started: seq<int>, verified: seq<int>)
    requires NodeInv(n, started) && NodeSafe(n, verified) && n.work.Some? && n.work.value in verified
    ensures var (g, out) := CompleteBlock(n.frame, 1);
            && NodeSafe(n.(frame := g, work := None), verified)
            && |out| <= 1 && (out != [] ==> ReportSafe(out[0], verified))
  {
    var f := n.frame;
    var (g, out) := CompleteBlock(f, 1);
    forall k: nat
      ensures View(g, k) == Max(View(f, k), if f.job >= 0 && k == f.base + f.job then DONE else FREE)
    {
      CompleteBlockView(f, k);
    }
    if f.job >= 0 {
      var m := f.(blocks := f.blocks[f.job := DONE]);
      ReportedAfterProgress(m, true);
      ProgressTracksJob(m, true, 1);
    }
  }

  ghost predicate StepReportsUnverified(s: System, a: Action, blocks: nat)
    requires WellFormed(s, blocks)
  {
    a.Receive? && a.node < |s.nodes| && a.index < |s.net|
    && ReportsUnverified(s.nodes[a.node].frame, s.net[a.index], s.verified)
  }

  /**
   * A step from a state in which every done block is verified leads to another such state
   * unless it receives a report that finishes the receiver's first block while its current
   * block is unverified; and if a step sends no merely taken current block, it is not such a
   * step.
   */
  lemma StepSafeIff(s: System, a: Action, blocks: nat, checkable: iset<int>)
    requires Inv(s, blocks) && Safe(s) && Enabled(s, a, checkable)
    ensures Safe(Apply(s, a, blocks, 1, checkable)) <==> !StepReportsUnverified(s, a, blocks)
    ensures !StepLeaks(s, a, blocks, 1) ==> !StepReportsUnverified(s, a, blocks)
  {
    var t := Apply(s, a, blocks, 1, checkable);
    var n := s.nodes[a.node];
    match a {
      case Start(i, b) =>
        StartKeepsSafe(n, b, s.verified);
      case Finish(i) =>
        forall j | 0 <= j < |s.nodes|
          ensures NodeSafe(s.nodes[j], t.verified)
        {}
        FinishKeepsSafe(n, s.started, t.verified);
      case Abort(i) =>
      case Receive(i, j) =>
        ReceiveSafeIff(n, s.net[j], s.started, s.verified);
        if ReportsUnverified(n.frame, s.net[j], s.verified) {
          UnverifiedIsLeak(n, s.net[j], s.started, s.verified);
        }
        var (g, out) := Absorb(n.frame, s.net[j], 1);
        if out != [] {
          assert t.net[|s.net|] == out[0];
        }
    }
  }

  // ----- whole runs

  lemma InitialInv(count: nat, blocks: nat)
    requires blocks >= 1
    ensures Inv(Initial(count, blocks, 0), blocks) && Safe(Initial(count, blocks, 0))
  {}

  lemma {:induction false} RunKeepsInv(s: System, run: seq<Action>, blocks: nat, checkable: iset<int>)
    requires Inv(s, blocks) && Legal(s, run, blocks, 1, checkable)
    ensures Inv(Run(s, run, blocks, 1, checkable), blocks)
    decreases |run|
  {
    if run != [] {
      StepKeepsInv(s, run[0], blocks, checkable);
      RunKeepsInv(Apply(s, run[0], blocks, 1, checkable), run[1..], blocks, checkable);
    }
  }

  lemma {:induction false} LeakFreeRunIsSafe(s: System, run: seq<Action>, blocks: nat, checkable: iset<int>)
    requires Inv(s, blocks) && Safe(s) && Legal(s, run, blocks, 1, checkable)
    requires LeakFree(s, run, blocks, 1, checkable)
    ensures Safe(Run(s, run, blocks, 1, checkable))
    decreases |run|
  {
    if run != [] {
      StepKeepsInv(s, run[0], blocks, checkable);
      StepSafeIff(s, run[0], blocks, checkable);
      LeakFreeRunIsSafe(Apply(s, run[0], blocks, 1, checkable), run[1..], blocks, checkable);
    }
  }

  /** Safe now and after every further step. */
  ghost predicate AlwaysSafe(s: System, run: seq<Action>, blocks: nat, checkable: iset<int>)
    requires WellFormed(s, blocks) && Legal(s, run, blocks, 1, checkable)
    decreases |run|
  {
    Safe(s) && (run != [] ==> AlwaysSafe(Apply(s, run[0], blocks, 1, checkable), run[1..], blocks, checkable))
  }

  ghost predicate NeverReportsUnverified(s: System, run: seq<Action>, blocks: nat, checkable: iset<int>)
    requires WellFormed(s, blocks) && Legal(s, run, blocks, 1, checkable)
    decreases |run|
  {
    run != [] ==>
      && !StepReportsUnverified(s, run[0], blocks)
      && NeverReportsUnverified(Apply(s, run[0], blocks, 1, checkable), run[1..], blocks, checkable)
  }

  /** Over a whole run, DONE means verified throughout exactly if no step sends an unverified current block. */
  lemma {:induction false} RunSafeIff(s: System, run: seq<Action>, blocks: nat, checkable: iset<int>)
    requires Inv(s, blocks) && Safe(s) && Legal(s, run, blocks, 1, checkable)
    ensures AlwaysSafe(s, run, blocks, checkable) <==> NeverReportsUnverified(s, run, blocks, checkable)
    decreases |run|
  {
    if run != [] {
      StepKeepsInv(s, run[0], blocks, checkable);
      StepSafeIff(s, run[0], blocks, checkable);
      var t := Apply(s, run[0], blocks, 1, checkable);
      if Safe(t) {
        RunSafeIff(t, run[1..], blocks, checkable);
      }
    }
  }

  /** No step takes back what a node knows about a block. */
  lemma StepOnlyRaises(s: System, a: Action, blocks: nat, checkable: iset<int>, i: nat, k: int)
    requires WellFormed(s, blocks) && Enabled(s, a, checkable) && i < |s.nodes|
    ensures View(Apply(s, a, blocks, 1, checkable).nodes[i].frame, k) >= View(s.nodes[i].frame, k)
  {
    var f := s.nodes[a.node].frame;
    match a {
      case Start(_, b) => TakeBlockView(f, b, k);
      case Finish(_) => CompleteBlockView(f, k);
      case Abort(_) =>
      case Receive(_, j) => AbsorbIsJoin(f, s.net[j], k);
    }
  }

  /** Over whole runs: a block once known to be done stays done. */
  lemma {:induction false} RunOnlyRaises(s: System, run: seq<Action>, blocks: nat, checkable: iset<int>, i: nat, k: int)
    requires WellFormed(s, blocks) && Legal(s, run, blocks, 1, checkable) && i < |s.nodes|
    ensures var t := Run(s, run, blocks, 1, checkable);
            View(t.nodes[i].frame, k) >= View(s.nodes[i].frame, k)
    decreases |run|
  {
    if run != [] {
      StepOnlyRaises(s, run[0], blocks, checkable, i, k);
      RunOnlyRaises(Apply(s, run[0], blocks, 1, checkable), run[1..], blocks, checkable, i, k);
    }
  }

  lemma BaseNeverMovesDown(s: System, run: seq<Action>, blocks: nat, checkable: iset<int>, i: nat)
    requires WellFormed(s, blocks) && Legal(s, run, blocks, 1, checkable) && i < |s.nodes|
    ensures Run(s, run, blocks, 1, checkable).nodes[i].frame.base >= s.nodes[i].frame.base
  {
    var g := Run(s, run, blocks, 1, checkable).nodes[i].frame;
    RunOnlyRaises(s, run, blocks, checkable, i, g.base);
  }

  /** Only blocks whose computation ran to its end are ever recorded as verified. */
  lemma {:induction false} VerifiedWasChecked(s: System, run: seq<Action>, blocks: nat, unit: nat, checkable: iset<int>)
    requires WellFormed(s, blocks) && unit >= 1 && Legal(s, run, blocks, unit, checkable)
    requires forall x :: x in s.verified ==> x in checkable
    ensures forall x :: x in Run(s, run, blocks, unit, checkable).verified ==> x in checkable
    decreases |run|
  {
    if run != [] {
      var t := Apply(s, run[0], blocks, unit, checkable);
      assert forall x :: x in t.verified ==> x in checkable;
      VerifiedWasChecked(t, run[1..], blocks, unit, checkable);
    }
  }
}
