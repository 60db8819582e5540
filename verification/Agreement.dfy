/**
 * Agreement: once every node has received every report, all nodes have the same frame. Nodes
 * know nothing they have not told, so each frame is the join of all reports ever sent.
 */
module Agreement {
  import opened Options
  import opened Frames
  import opened FrameViews
  import opened Protocol
  import opened ProtocolSafety
  import opened ProtocolTheorems

  // ----- nodes know nothing they have not told

  /** Some report ever sent claims at least mark m for block k. */
  ghost predicate Told(net: seq<Report>, k: int, m: Mark) {
    exists j :: 0 <= j < |net| && Claim(net[j], k) >= m
  }

  ghost predicate NodeTells(n: Node, net: seq<Report>) {
    forall k: nat :: View(n.frame, k) == FREE || Told(net, k, View(n.frame, k))
  }

  ghost predicate AllTell(s: System) {
    forall i :: 0 <= i < |s.nodes| ==> NodeTells(s.nodes[i], s.net)
  }

  lemma ToldMore(net: seq<Report>, more: seq<Report>, k: int, m: Mark)
    requires Told(net, k, m)
    ensures Told(net + more, k, m)
  {
    var j :| 0 <= j < |net| && Claim(net[j], k) >= m;
    assert (net + more)[j] == net[j];
  }

  lemma TellsMore(n: Node, net: seq<Report>, more: seq<Report>)
    requires NodeTells(n, net)
    ensures NodeTells(n, net + more)
  {
    forall k: nat | View(n.frame, k) != FREE
      ensures Told(net + more, k, View(n.frame, k))
    {
      ToldMore(net, more, k, View(n.frame, k));
    }
  }

  lemma ToldBy(net: seq<Report>, j: nat, k: int, m: Mark)
    requires j < |net| && Claim(net[j], k) >= m
    ensures Told(net, k, m)
  {}

  lemma StartTells(n: Node, b: nat, net: seq<Report>)
    requires Settled(n.frame) && b < |n.frame.blocks| && NodeTells(n, net)
    ensures var (g, out) := TakeBlock(n.frame, b); forall work :: NodeTells(n.(frame := g, work := work), net + out)
  {
    var f := n.frame;
    var (g, out) := TakeBlock(f, b);
    forall k: nat | View(g, k) != FREE
      ensures Told(net + out, k, View(g, k))
    {
      TakeBlockView(f, b, k);
      if View(g, k) == View(f, k) {
        ToldMore(net, out, k, View(f, k));
      } else {
        ToldBy(net + out, |net|, k, View(g, k));
      }
    }
  }

  /** The report at the end of a computation claims the completed block, in the window or below it. */
  lemma CompleteClaims(f: Frame)
    requires Settled(f) && f.job >= 0
    ensures var (g, out) := CompleteBlock(f, 1); |out| == 1 && Claim(out[0], f.base + f.job) == DONE
  {
    var m := f.(blocks := f.blocks[f.job := DONE]);
    ProgressTracksJob(m, true, 1);
  }

  lemma FinishTells(n: Node, net: seq<Report>)
    requires Settled(n.frame) && NodeTells(n, net)
    ensures var (g, out) := CompleteBlock(n.frame, 1); NodeTells(n.(frame := g, work := None), net + out)
  {
    var f := n.frame;
    var (g, out) := CompleteBlock(f, 1);
    if f.job >= 0 {
      CompleteClaims(f);
    }
    forall k: nat | View(g, k) != FREE
      ensures Told(net + out, k, View(g, k))
    {
      CompleteBlockView(f, k);
      if View(g, k) == View(f, k) {
        ToldMore(net, out, k, View(f, k));
      } else {
        ToldBy(net + out, |net|, k, View(g, k));
      }
    }
  }

  lemma ReceiveTells(n: Node, net: seq<Report>, j: nat)
    requires Settled(n.frame) && j < |net| && InRange(net[j], |n.frame.blocks|) && NodeTells(n, net)
    ensures var (g, out) := Absorb(n.frame, net[j], 1); NodeTells(n.(frame := g), net + out)
  {
    var f := n.frame;
    var (g, out) := Absorb(f, net[j], 1);
    forall k: nat | View(g, k) != FREE
      ensures Told(net + out, k, View(g, k))
    {
      AbsorbIsJoin(f, net[j], k);
      if View(g, k) != View(f, k) {
        ToldBy(net, j, k, View(g, k));
      }
      ToldMore(net, out, k, View(g, k));
    }
  }

  /** No step makes a node know anything that no report says. */
  lemma StepTells(s: System, a: Action, blocks: nat, checkable: iset<int>)
    requires WellFormed(s, blocks) && Enabled(s, a, checkable) && AllTell(s)
    ensures AllTell(Apply(s, a, blocks, 1, checkable))
  {
    var t := Apply(s, a, blocks, 1, checkable);
    var n := s.nodes[a.node];
    var more := t.net[|s.net|..];
    match a {
      case Start(_, b) => StartTells(n, b, s.net);
      case Finish(_) => FinishTells(n, s.net);
      case Abort(_) =>
      case Receive(_, j) => ReceiveTells(n, s.net, j);
    }
    assert t.net == s.net + more;
    forall i | 0 <= i < |t.nodes| && i != a.node
      ensures NodeTells(t.nodes[i], t.net)
    {
      TellsMore(s.nodes[i], s.net, more);
    }
  }

  lemma {:induction false} RunTells(s: System, run: seq<Action>, blocks: nat, checkable: iset<int>)
    requires WellFormed(s, blocks) && Legal(s, run, blocks, 1, checkable) && AllTell(s)
    ensures AllTell(Run(s, run, blocks, 1, checkable))
    decreases |run|
  {
    if run != [] {
      StepTells(s, run[0], blocks, checkable);
      RunTells(Apply(s, run[0], blocks, 1, checkable), run[1..], blocks, checkable);
    }
  }

  // ----- what a node has received it knows

  lemma {:induction false} ReportsStay(s: System, run: seq<Action>, blocks: nat, checkable: iset<int>, j: nat)
    requires WellFormed(s, blocks) && Legal(s, run, blocks, 1, checkable) && j < |s.net|
    ensures var t := Run(s, run, blocks, 1, checkable); j < |t.net| && t.net[j] == s.net[j]
    decreases |run|
  {
    if run != [] {
      ReportsStay(Apply(s, run[0], blocks, 1, checkable), run[1..], blocks, checkable, j);
    }
  }

  lemma {:induction false} ReceivedIsKnown(s: System, run: seq<Action>, blocks: nat, checkable: iset<int>,
                                           i: nat, j: nat, k: int)
    requires WellFormed(s, blocks) && Legal(s, run, blocks, 1, checkable) && Receive(i, j) in run
    ensures var t := Run(s, run, blocks, 1, checkable);
            i < |t.nodes| && j < |t.net| && View(t.nodes[i].frame, k) >= Claim(t.net[j], k)
    decreases |run|
  {
    var u := Apply(s, run[0], blocks, 1, checkable);
    if run[0] == Receive(i, j) {
      AbsorbIsJoin(s.nodes[i].frame, s.net[j], k);
      assert u.net[j] == s.net[j];
      RunOnlyRaises(u, run[1..], blocks, checkable, i, k);
      ReportsStay(u, run[1..], blocks, checkable, j);
    } else {
      ReceivedIsKnown(u, run[1..], blocks, checkable, i, j, k);
    }
  }

  // ----- agreement

  /** Every node has received every report that was ever sent. */
  ghost predicate Quiet(run: seq<Action>, s: System) {
    forall i, j :: 0 <= i < |s.nodes| && 0 <= j < |s.net| ==> Receive(i, j) in run
  }

  /** One node knows at least what another does. */
  lemma KnowsAsMuch(s: System, run: seq<Action>, blocks: nat, checkable: iset<int>, i: nat, i': nat, k: int)
    requires WellFormed(s, blocks) && Legal(s, run, blocks, 1, checkable) && AllTell(s)
    requires Quiet(run, Run(s, run, blocks, 1, checkable)) && i < |s.nodes| && i' < |s.nodes|
    ensures var t := Run(s, run, blocks, 1, checkable); View(t.nodes[i].frame, k) >= View(t.nodes[i'].frame, k)
  {
    var t := Run(s, run, blocks, 1, checkable);
    RunTells(s, run, blocks, checkable);
    assert NodeTells(t.nodes[i'], t.net);
    if k >= 0 && View(t.nodes[i'].frame, k) != FREE {
      var j :| 0 <= j < |t.net| && Claim(t.net[j], k) >= View(t.nodes[i'].frame, k);
      ReceivedIsKnown(s, run, blocks, checkable, i, j, k);
    }
  }

  lemma FramesAgree(s: System, run: seq<Action>, blocks: nat, checkable: iset<int>, i: nat, i': nat)
    requires WellFormed(s, blocks) && Legal(s, run, blocks, 1, checkable) && AllTell(s)
    requires Quiet(run, Run(s, run, blocks, 1, checkable)) && i < |s.nodes| && i' < |s.nodes|
    ensures var t := Run(s, run, blocks, 1, checkable);
            t.nodes[i].frame.base == t.nodes[i'].frame.base && t.nodes[i].frame.blocks == t.nodes[i'].frame.blocks
  {
    var t := Run(s, run, blocks, 1, checkable);
    forall k: int
      ensures View(t.nodes[i].frame, k) == View(t.nodes[i'].frame, k)
    {
      KnowsAsMuch(s, run, blocks, checkable, i, i', k);
      KnowsAsMuch(s, run, blocks, checkable, i', i, k);
    }
    SettledUnique(t.nodes[i].frame, t.nodes[i'].frame);
  }

  /** A run from collatz_init after which every node has received every report ends with equal frames. */
  lemma QuietNodesAgree(run: seq<Action>, count: nat, blocks: nat, base: nat, size: nat, i: nat, i': nat)
    requires LegalRun(run, count, blocks, base, size) && i < count && i' < count
    requires Quiet(run, Final(run, count, blocks, base, size))
    ensures var t := Final(run, count, blocks, base, size);
            && i < |t.nodes| && i' < |t.nodes|
            && t.nodes[i].frame.base == t.nodes[i'].frame.base
            && t.nodes[i].frame.blocks == t.nodes[i'].frame.blocks
  {
    var c, s := Unscale(Checkable(size), base, size), Initial(count, blocks, 0);
    InitialScales(count, blocks, base, size);
    InitialInv(count, blocks);
    RunScales(s, run, blocks, base, size, Checkable(size));
    FramesAgree(s, run, blocks, c, i, i');
  }
}
