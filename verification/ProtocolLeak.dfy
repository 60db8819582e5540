/**
 * A run in which a block counts as done that nobody has checked: without the hypothesis that
 * report_my_progress(0) sends no merely taken block, DONE does not mean verified. The run uses
 * the parameters of the TESTCASE build started from 1: four blocks of 16 numbers.
 */
module ProtocolLeak {
  import opened Options
  import opened Frames
  import opened FrameViews
  import opened Scaling
  import opened Protocol
  import opened ProtocolTheorems
  import opened FirstBlocks

  const BLOCKS: nat := 4
  const BLOCKSIZE: nat := 16

  /**
   * Node 1 completes block 1 while block 0 is still open to it. Node 0 has passed block 0 and
   * computes block 2; on node 1's report it shifts its frame and announces its current block,
   * block 2, as done. Node 1 believes it.
   */
  const LEAKY: seq<Action> :=
    [Start(1, 1), Start(0, 0), Finish(0), Start(0, 1), Finish(1), Receive(0, 4), Receive(1, 5)]

  // ----- the frames of the two nodes along the run, in block numbers

  lemma Node0CompletesBlock0()
    ensures CompleteBlock(Frame(0, [TAKEN, FREE, FREE, FREE], 0), 1)
            == (Frame(1, [FREE, FREE, FREE, FREE], -1), [Report(1, -1, DONE)])
  {
    var m := [TAKEN, FREE, FREE, FREE][0 := DONE];
    assert m[1] != DONE && LeadingDone(m[1..]) == 0;
    assert Shift(m, 1) == [FREE, FREE, FREE, FREE];
  }

  lemma Node1CompletesBlock1()
    ensures CompleteBlock(Frame(0, [FREE, TAKEN, FREE, FREE], 1), 1)
            == (Frame(0, [FREE, DONE, FREE, FREE], -1), [Report(0, 1, DONE)])
  {
    assert [FREE, TAKEN, FREE, FREE][1 := DONE] == [FREE, DONE, FREE, FREE];
  }

  /** The leak: the frame moves up by one and the current block is sent as done. */
  lemma Node0Leaks()
    ensures Absorb(Frame(1, [FREE, TAKEN, FREE, FREE], 1), Report(0, 1, DONE), 1)
            == (Frame(2, [TAKEN, FREE, FREE, FREE], 0), [Report(2, 0, DONE)])
  {
    assert Lower(Report(0, 1, DONE), 1, 1) == Some(Report(1, 0, DONE));
    var m := [FREE, TAKEN, FREE, FREE][0 := DONE];
    assert m[1] != DONE && LeadingDone(m[1..]) == 0;
    assert Shift(m, 1) == [TAKEN, FREE, FREE, FREE];
  }

  lemma Node1Believes()
    ensures Absorb(Frame(0, [FREE, DONE, FREE, FREE], -1), Report(2, 0, DONE), 1)
            == (Frame(3, [FREE, FREE, FREE, FREE], -1), [Report(3, -1, DONE)])
  {
    ClimbCount(0, 2, 4);
    assert Shift([FREE, DONE, FREE, FREE], 2) == [FREE, FREE, FREE, FREE];
    var m := [FREE, FREE, FREE, FREE][0 := DONE];
    assert m[1] != DONE && LeadingDone(m[1..]) == 0;
    assert Shift(m, 1) == [FREE, FREE, FREE, FREE];
  }

  // ----- the run in block numbers

  ghost const SENT: seq<Report> :=
    [Report(0, 1, TAKEN), Report(0, 0, TAKEN), Report(1, -1, DONE), Report(1, 1, TAKEN),
     Report(0, 1, DONE), Report(2, 0, DONE), Report(3, -1, DONE)]

  ghost function Idle(base: nat, blocks: seq<Mark>, job: int): Node { Node(Frame(base, blocks, job), None, false) }

  ghost function Busy(base: nat, blocks: seq<Mark>, job: int): Node
    requires job >= 0
  {
    Node(Frame(base, blocks, job), Some(base + job), false)
  }

  ghost function Node0(k: nat): Node {
    if k < 2 then Idle(0, [FREE, FREE, FREE, FREE], 0)
    else if k == 2 then Busy(0, [TAKEN, FREE, FREE, FREE], 0)
    else if k == 3 then Idle(1, [FREE, FREE, FREE, FREE], -1)
    else if k < 6 then Busy(1, [FREE, TAKEN, FREE, FREE], 1)
    else Busy(2, [TAKEN, FREE, FREE, FREE], 0)
  }

  ghost function Node1(k: nat): Node {
    if k == 0 then Idle(0, [FREE, FREE, FREE, FREE], 0)
    else if k < 5 then Busy(0, [FREE, TAKEN, FREE, FREE], 1)
    else if k < 7 then Idle(0, [FREE, DONE, FREE, FREE], -1)
    else Idle(3, [FREE, FREE, FREE, FREE], -1)
  }

  /** The system after the first k steps: each of them sends one report. */
  ghost function Stage(k: nat): System
    requires k <= 7
  {
    System([Node0(k), Node1(k)], SENT[..k],
           if k < 2 then [1][..k] else if k < 4 then [1, 0] else [1, 0, 2],
           if k < 3 then [] else if k < 5 then [0] else [0, 1])
  }

  ghost predicate Follows(k: nat, a: Action, c: iset<int>)
    requires k < 7
  {
    && WellFormed(Stage(k), BLOCKS) && Enabled(Stage(k), a, c)
    && Apply(Stage(k), a, BLOCKS, 1, c) == Stage(k + 1)
  }

  lemma StartsAtStage0()
    ensures Initial(2, BLOCKS, 0) == Stage(0)
  {
    assert AllFree(BLOCKS) == [FREE, FREE, FREE, FREE];
    var s := Initial(2, BLOCKS, 0);
    assert s.nodes == [s.nodes[0], s.nodes[1]];
  }

  lemma Steps1And2(c: iset<int>)
    ensures Follows(0, Start(1, 1), c) && Follows(1, Start(0, 0), c)
  {
    assert [FREE, FREE, FREE, FREE][1 := TAKEN] == [FREE, TAKEN, FREE, FREE];
    assert [FREE, FREE, FREE, FREE][0 := TAKEN] == [TAKEN, FREE, FREE, FREE];
  }

  lemma Step3(c: iset<int>)
    requires 0 in c
    ensures Follows(2, Finish(0), c)
  {
    Node0CompletesBlock0();
  }

  lemma Step4(c: iset<int>)
    ensures Follows(3, Start(0, 1), c)
  {
    assert [FREE, FREE, FREE, FREE][1 := TAKEN] == [FREE, TAKEN, FREE, FREE];
  }

  lemma Step5(c: iset<int>)
    requires 1 in c
    ensures Follows(4, Finish(1), c)
  {
    Node1CompletesBlock1();
  }

  lemma Step6(c: iset<int>)
    ensures Follows(5, Receive(0, 4), c)
  {
    Node0Leaks();
  }

  lemma Step7(c: iset<int>)
    ensures Follows(6, Receive(1, 5), c)
  {
    Node1Believes();
  }

  lemma EachStepFollows(k: nat, c: iset<int>)
    requires k < 7 && 0 in c && 1 in c
    ensures Follows(k, LEAKY[k], c)
  {
    if k < 2 { Steps1And2(c); } else if k < 3 { Step3(c); } else if k < 4 { Step4(c); }
    else if k < 5 { Step5(c); } else if k < 6 { Step6(c); } else { Step7(c); }
  }

  lemma StageFormed(k: nat, s: System)
    requires k <= 7 && s == Stage(k)
    ensures WellFormed(s, BLOCKS)
  {}

  lemma {:induction false} PlayedFrom(k: nat, s: System, c: iset<int>)
    requires k <= 7 && s == Stage(k) && 0 in c && 1 in c
    ensures WellFormed(s, BLOCKS) && Legal(s, LEAKY[k..], BLOCKS, 1, c)
    ensures Run(s, LEAKY[k..], BLOCKS, 1, c) == Stage(7)
    decreases 7 - k
  {
    StageFormed(k, s);
    if k < 7 {
      EachStepFollows(k, c);
      PlayedFrom(k + 1, Stage(k + 1), c);
      assert LEAKY[k..][0] == LEAKY[k] && LEAKY[k..][1..] == LEAKY[k + 1..];
    }
  }

  // ----- the run on addresses

  lemma Finishing(c: iset<int>)
    requires c == Unscale(Checkable(BLOCKSIZE), 1, BLOCKSIZE)
    ensures 0 in c && 1 in c
  {
    BlocksCheckable();
    assert Address(0, 1, BLOCKSIZE) == 1 && Address(1, 1, BLOCKSIZE) == 17;
  }

  lemma EndOnAddresses(t: System)
    requires t == ScaleSystem(Stage(7), 1, BLOCKSIZE)
    ensures |t.nodes| == 2 && t.nodes[1].frame.base == 49 && t.verified == [1, 17]
  {
    assert Address(3, 1, BLOCKSIZE) == 49;
    var v := Stage(7).verified;
    assert ScaleSeq(v, 1, BLOCKSIZE) == [Address(0, 1, BLOCKSIZE), Address(1, 1, BLOCKSIZE)];
  }

  lemma EndIsNotCovered(t: System)
    requires |t.nodes| == 2 && t.nodes[1].frame.base == 49 && t.verified == [1, 17]
    ensures !Covered(t, DONE, t.verified, 1, BLOCKSIZE)
  {
    assert Address(2, 1, BLOCKSIZE) == 33;
    assert !FrameCovered(t.nodes[1].frame, DONE, t.verified, 1, BLOCKSIZE);
  }

  lemma LeakyOnAddresses(s: System)
    requires s == Stage(0)
    ensures LegalRun(LEAKY, 2, BLOCKS, 1, BLOCKSIZE)
    ensures Final(LEAKY, 2, BLOCKS, 1, BLOCKSIZE) == ScaleSystem(Stage(7), 1, BLOCKSIZE)
  {
    var c := Unscale(Checkable(BLOCKSIZE), 1, BLOCKSIZE);
    Finishing(c);
    StartsAtStage0();
    PlayedFrom(0, s, c);
    assert LEAKY[0..] == LEAKY;
    InitialScales(2, BLOCKS, 1, BLOCKSIZE);
    RunScales(s, LEAKY, BLOCKS, 1, BLOCKSIZE, Checkable(BLOCKSIZE));
  }

  /**
   * A legal run of two nodes from collatz_init that ends with node 1 past the block that starts
   * at 33, although only the blocks that start at 1 and at 17 were ever verified.
   */
  lemma DoneDoesNotImplyVerified() returns (run: seq<Action>)
    ensures LegalRun(run, 2, BLOCKS, 1, BLOCKSIZE)
    ensures var t := Final(run, 2, BLOCKS, 1, BLOCKSIZE);
            && |t.nodes| == 2 && t.nodes[1].frame.base == 49 && t.verified == [1, 17]
            && !Covered(t, DONE, t.verified, 1, BLOCKSIZE)
  {
    run := LEAKY;
    LeakyOnAddresses(Stage(0));
    EndOnAddresses(Final(run, 2, BLOCKS, 1, BLOCKSIZE));
    EndIsNotCovered(Final(run, 2, BLOCKS, 1, BLOCKSIZE));
  }
}
