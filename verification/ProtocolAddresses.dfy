/**
 * What the nodes know, and when DONE stops to mean verified, stated on addresses: for runs of
 * any block size from any initial base.
 */
module ProtocolAddresses {
  import opened Words
  import opened Frames
  import opened FrameViews
  import opened Scaling
  import opened Protocol
  import opened ProtocolSafety
  import opened ProtocolTheorems

  // ----- runs one after the other

  lemma {:induction false} RunInTwo(s: System, run: seq<Action>, more: seq<Action>, blocks: nat, unit: nat,
                                    checkable: iset<int>)
    requires WellFormed(s, blocks) && unit >= 1 && Legal(s, run + more, blocks, unit, checkable)
    ensures Legal(s, run, blocks, unit, checkable)
    ensures var u := Run(s, run, blocks, unit, checkable);
            && Legal(u, more, blocks, unit, checkable)
            && Run(s, run + more, blocks, unit, checkable) == Run(u, more, blocks, unit, checkable)
    decreases |run|
  {
    if run == [] {
      assert run + more == more;
    } else {
      assert (run + more)[0] == run[0] && (run + more)[1..] == run[1..] + more;
      RunInTwo(Apply(s, run[0], blocks, unit, checkable), run[1..], more, blocks, unit, checkable);
    }
  }

  /** A run on addresses in two parts and the two parts of its mirror. */
  lemma MirrorInTwo(run: seq<Action>, more: seq<Action>, count: nat, blocks: nat, base: nat, size: nat)
      returns (u: System, v: System)
    requires LegalRun(run + more, count, blocks, base, size)
    ensures LegalRun(run, count, blocks, base, size)
    ensures Final(run, count, blocks, base, size) == ScaleSystem(u, base, size)
    ensures Final(run + more, count, blocks, base, size) == ScaleSystem(v, base, size)
    ensures Inv(u, blocks) && |u.nodes| == |v.nodes| == count
    ensures var c := Unscale(Checkable(size), base, size);
            Legal(u, more, blocks, 1, c) && v == Run(u, more, blocks, 1, c)
  {
    var c, s := Unscale(Checkable(size), base, size), Initial(count, blocks, 0);
    InitialScales(count, blocks, base, size);
    InitialInv(count, blocks);
    RunInTwo(Initial(count, blocks, base), run, more, blocks, size, Checkable(size));
    RunScales(s, run + more, blocks, base, size, Checkable(size));
    RunInTwo(s, run, more, blocks, 1, c);
    RunScales(s, run, blocks, base, size, Checkable(size));
    u := Run(s, run, blocks, 1, c);
    v := Run(u, more, blocks, 1, c);
    RunKeepsInv(s, run, blocks, c);
  }

  /** However a run goes on, no node takes back what it knows about any block, and no base moves down. */
  lemma KnowledgeNeverShrinks(run: seq<Action>, more: seq<Action>, count: nat, blocks: nat, base: nat, size: nat,
                              i: nat, k: nat)
    requires LegalRun(run + more, count, blocks, base, size) && i < count
    ensures LegalRun(run, count, blocks, base, size)
    ensures var s, t := Final(run, count, blocks, base, size), Final(run + more, count, blocks, base, size);
            && i < |s.nodes| == |t.nodes|
            && t.nodes[i].frame.base >= s.nodes[i].frame.base
            && MarkAt(t.nodes[i].frame, Address(k, base, size), size)
               >= MarkAt(s.nodes[i].frame, Address(k, base, size), size)
  {
    var c := Unscale(Checkable(size), base, size);
    var u, v := MirrorInTwo(run, more, count, blocks, base, size);
    RunOnlyRaises(u, more, blocks, c, i, k);
    BaseNeverMovesDown(u, more, blocks, c, i);
    MarkScales(u.nodes[i].frame, k, base, size);
    MarkScales(v.nodes[i].frame, k, base, size);
    AddressMonotonic(v.nodes[i].frame.base, u.nodes[i].frame.base, base, size);
  }

  // ----- safety on addresses

  lemma OutOfScaleSeq(xs: seq<int>, x: int, base: nat, size: nat)
    requires size >= 1 && Address(x, base, size) in ScaleSeq(xs, base, size)
    ensures x in xs
  {
    var i :| 0 <= i < |xs| && ScaleSeq(xs, base, size)[i] == Address(x, base, size);
    AddressMonotonic(xs[i], x, base, size);
  }

  lemma FrameUncovers(f: Frame, xs: seq<int>, base: nat, size: nat, k: nat)
    requires size >= 1 && FrameCovered(ScaleFrame(f, base, size), DONE, ScaleSeq(xs, base, size), base, size)
    requires View(f, k) == DONE
    ensures k in xs
  {
    AddressMonotonic(k, f.base, base, size);
    if k >= f.base {
      var g := ScaleFrame(f, base, size);
      assert g.blocks[k - f.base] == DONE;
      AddressAdd(f.base, k - f.base, base, size);
      assert Address(k - f.base, g.base, size) in ScaleSeq(xs, base, size);
      assert Address(k - f.base, g.base, size) == Address(k, base, size) by {
        Distribute(size, k, f.base);
      }
    }
    OutOfScaleSeq(xs, k, base, size);
  }

  lemma ReportUncovers(r: Report, xs: seq<int>, base: nat, size: nat, k: nat)
    requires size >= 1 && ReportCovered(ScaleReport(r, base, size), DONE, ScaleSeq(xs, base, size), base, size)
    requires Claim(r, k) == DONE
    ensures k in xs
  {
    AddressMonotonic(k, r.base, base, size);
    AddressAdd(r.base, r.id, base, size);
    if k >= r.base {
      assert Address(r.id, ScaleReport(r, base, size).base, size) == Address(k, base, size) by {
        Distribute(size, r.base, r.id);
      }
    }
    OutOfScaleSeq(xs, k, base, size);
  }

  /** Done means verified, on block numbers and on addresses. */
  lemma SafeScales(s: System, base: nat, size: nat)
    requires size >= 1
    ensures Safe(s) <==> Covered(ScaleSystem(s, base, size), DONE, ScaleSeq(s.verified, base, size), base, size)
  {
    var t, xs := ScaleSystem(s, base, size), s.verified;
    if Safe(s) {
      CoverScales(s, DONE, xs, base, size);
    }
    if Covered(t, DONE, ScaleSeq(xs, base, size), base, size) {
      forall i, k: nat | 0 <= i < |s.nodes| && View(s.nodes[i].frame, k) == DONE
        ensures k in xs
      {
        assert t.nodes[i] == ScaleNode(s.nodes[i], base, size);
        FrameUncovers(s.nodes[i].frame, xs, base, size, k);
      }
      forall j, k: nat | 0 <= j < |s.net| && Claim(s.net[j], k) == DONE
        ensures k in xs
      {
        assert t.net[j] == ScaleReport(s.net[j], base, size);
        ReportUncovers(s.net[j], xs, base, size, k);
      }
    }
  }

  /** The received report finishes the first block while the own current block is not verified. */
  ghost predicate SendsUnverified(f: Frame, r: Report, verified: seq<int>, size: nat)
    requires size >= 1
  {
    var b := FirstBlock(f, r);
    && f.job >= 0 && Address(f.job, f.base, size) !in verified
    && Max(MarkAt(f, b, size), ClaimAt(r, b, size)) == DONE
  }

  lemma SendsScales(f: Frame, r: Report, verified: seq<int>, base: nat, size: nat)
    requires size >= 1
    ensures SendsUnverified(ScaleFrame(f, base, size), ScaleReport(r, base, size), ScaleSeq(verified, base, size), size)
            <==> ReportsUnverified(f, r, verified)
  {
    var b := FirstBlock(f, r);
    AddressMonotonic(f.base, r.base, base, size);
    assert FirstBlock(ScaleFrame(f, base, size), ScaleReport(r, base, size)) == Address(b, base, size);
    MarkScales(f, b, base, size);
    ClaimScales(r, b, base, size);
    AddressAdd(f.base, f.job, base, size);
    assert Address(f.job, ScaleFrame(f, base, size).base, size) == Address(f.base + f.job, base, size) by {
      Distribute(size, f.base, f.job);
    }
    if f.base + f.job in verified {
      InScaleSeq(verified, f.base + f.job, base, size);
    } else if Address(f.base + f.job, base, size) in ScaleSeq(verified, base, size) {
      OutOfScaleSeq(verified, f.base + f.job, base, size);
    }
  }

  ghost predicate StepSends(s: System, a: Action, size: nat)
    requires size >= 1
  {
    a.Receive? && a.node < |s.nodes| && a.index < |s.net|
    && SendsUnverified(s.nodes[a.node].frame, s.net[a.index], s.verified, size)
  }

  lemma StepSendsScales(s: System, a: Action, blocks: nat, base: nat, size: nat)
    requires size >= 1 && WellFormed(s, blocks)
    ensures StepSends(ScaleSystem(s, base, size), a, size) <==> StepReportsUnverified(s, a, blocks)
  {
    if a.Receive? && a.node < |s.nodes| && a.index < |s.net| {
      var t := ScaleSystem(s, base, size);
      assert t.nodes[a.node] == ScaleNode(s.nodes[a.node], base, size);
      assert t.net[a.index] == ScaleReport(s.net[a.index], base, size);
      SendsScales(s.nodes[a.node].frame, s.net[a.index], s.verified, base, size);
    }
  }

  /** Done means verified now and after every further step. */
  ghost predicate AlwaysCovered(s: System, run: seq<Action>, blocks: nat, base: nat, size: nat, checkable: iset<int>)
    requires WellFormed(s, blocks) && size >= 1 && Legal(s, run, blocks, size, checkable)
    decreases |run|
  {
    && Covered(s, DONE, s.verified, base, size)
    && (run != [] ==> AlwaysCovered(Apply(s, run[0], blocks, size, checkable), run[1..], blocks, base, size, checkable))
  }

  ghost predicate NeverSends(s: System, run: seq<Action>, blocks: nat, size: nat, checkable: iset<int>)
    requires WellFormed(s, blocks) && size >= 1 && Legal(s, run, blocks, size, checkable)
    decreases |run|
  {
    run != [] ==>
      && !StepSends(s, run[0], size)
      && NeverSends(Apply(s, run[0], blocks, size, checkable), run[1..], blocks, size, checkable)
  }

  lemma {:induction false} SafetyScales(s: System, run: seq<Action>, blocks: nat, base: nat, size: nat,
                                        checkable: iset<int>)
    requires WellFormed(s, blocks) && size >= 1 && WellFormed(ScaleSystem(s, base, size), blocks)
    requires Legal(s, run, blocks, 1, Unscale(checkable, base, size))
    requires Legal(ScaleSystem(s, base, size), run, blocks, size, checkable)
    ensures AlwaysCovered(ScaleSystem(s, base, size), run, blocks, base, size, checkable)
            <==> AlwaysSafe(s, run, blocks, Unscale(checkable, base, size))
    ensures NeverSends(ScaleSystem(s, base, size), run, blocks, size, checkable)
            <==> NeverReportsUnverified(s, run, blocks, Unscale(checkable, base, size))
    decreases |run|
  {
    SafeScales(s, base, size);
    if run != [] {
      StepSendsScales(s, run[0], blocks, base, size);
      ApplyScales(s, run[0], blocks, base, size, checkable);
      var t := Apply(s, run[0], blocks, 1, Unscale(checkable, base, size));
      SafetyScales(t, run[1..], blocks, base, size, checkable);
    }
  }

  /**
   * For any run from collatz_init: done means verified after every step if and only if no step
   * processes a report that finishes the first block of the window while the current block of
   * the node is not verified.
   */
  lemma DoneMeansVerifiedIff(run: seq<Action>, count: nat, blocks: nat, base: nat, size: nat)
    requires LegalRun(run, count, blocks, base, size)
    ensures AlwaysCovered(Initial(count, blocks, base), run, blocks, base, size, Checkable(size))
            <==> NeverSends(Initial(count, blocks, base), run, blocks, size, Checkable(size))
  {
    var c, s := Unscale(Checkable(size), base, size), Initial(count, blocks, 0);
    InitialScales(count, blocks, base, size);
    InitialInv(count, blocks);
    RunScales(s, run, blocks, base, size, Checkable(size));
    SafetyScales(s, run, blocks, base, size, Checkable(size));
    RunSafeIff(s, run, blocks, c);
  }

  /** The step at which it is lost, and that such a step sends a current block that is merely TAKEN. */
  lemma DoneStaysVerifiedIff(run: seq<Action>, a: Action, count: nat, blocks: nat, base: nat, size: nat)
    requires LegalRun(run + [a], count, blocks, base, size)
    ensures LegalRun(run, count, blocks, base, size)
    ensures var s, t := Final(run, count, blocks, base, size), Final(run + [a], count, blocks, base, size);
            Covered(s, DONE, s.verified, base, size) ==>
              && (Covered(t, DONE, t.verified, base, size) <==> !StepSends(s, a, size))
              && (StepSends(s, a, size) ==> StepLeaks(s, a, blocks, size))
  {
    var c := Unscale(Checkable(size), base, size);
    var u, v := MirrorInTwo(run, [a], count, blocks, base, size);
    assert [a][0] == a && [a][1..] == [];
    assert v == Apply(u, a, blocks, 1, c);
    SafeScales(u, base, size);
    SafeScales(v, base, size);
    StepSendsScales(u, a, blocks, base, size);
    LeakScales(u, a, blocks, base, size);
    if Safe(u) {
      StepSafeIff(u, a, blocks, c);
    }
  }
}
