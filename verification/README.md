# A model of the ESP32 mesh and its applications

A network of microcontrollers joins into a tree over ESP-NOW and runs applications on it. This
project models the parts with the most intricate logic and proves what they are meant to
guarantee.

**Distributed Collatz verification** (`main/collatz.c`, `main/rl_int.c`). Each node keeps an
integer frame: a 300-bit base below which every number is known to reach 1, and a window of
blocks that are free, taken or done. Nodes compute blocks and report to each other.

* `Words`, `Limbs`: 32-bit words and ten 30-bit limbs as numbers. `RlInt`: the class `BigInt`,
  whose methods rewrite the limbs in place. `HexString`: printing.
* `Collatz`: the 3n+1 map and what checking a block proves. `Compute`: the loops that check one.
  `Verdicts`: how they end, as a function of the numbers, and exactly when.
* `Frames`: the frame as a value, with one function per critical section. `FrameViews`: frames as
  maps, and the theorem that processing a report is a join. `FrameBounds`: how far a base moves.
  `Scaling`: frames that count blocks stand for frames that count numbers. `Misaligned`: reports
  for which that is not so. `CurrentBlock`: which reports make a node drop the block it works on,
  and what it then still marks and sends.
* `CollatzNode`: the class with the source's statics; every critical section updates them in
  place and is proved against its function in `Frames`. `Pick`: the weighted choice of a block.
* `Protocol`, `ProtocolSafety`, `ProtocolTheorems`, `ProtocolAddresses`: any number of nodes.
  Each critical section is one atomic step, and every report ever sent may reach any node at any
  time, any number of times, or never. `Agreement`: nodes that have heard everything agree.
  `ProtocolLeak`, with the trajectories in `FirstBlocks`: the run that shows what is not
  guaranteed.

**Link layer** (`main/net_layer.c`). `LinkLayer`: what each packet and each timer does to a
node's flags, link table and timers, as functions, with the invariant they keep. `NetNode`: the
handlers on the state they update in place, each proved against its function. `LinkLaws`: who
receives what, and when nothing gets stuck. `JoinTree`: any number of nodes joining. `JoinStale`:
a run in which two nodes disagree about a link. `Handshakes`: STATUS and joining as conversations
of two nodes, with anything happening in between. `Routing`: frames passed on up to the root and
down to every node. `Checksum`: the frame check.

**Sensor aggregation** (`main/app_sensor.c`). `Samples`: summaries of multisets of readings.
`SensorTree`: the cache, the fold over it, and trees of nodes. `SensorFlat`: trees as the flat
multiset of their samples. `SensorNode`: the in-place state.

**Factoriser** (`main/factor.c`). `Factor`: trial division and unique factorisation.

## What the code does not guarantee

Six statements one would expect are false of the code. Each is refuted by a lemma with a
concrete input, and the exact condition under which it holds is proved for all inputs.

* *A block that counts as done was verified.* `report_my_progress(0)` also sends the block that
  is still being computed (main/collatz.c:227-229). `DoneDoesNotImplyVerified` is a run of two
  nodes with the parameters of the TESTCASE build; `DoneMeansVerifiedIff` says for every run
  whether the statement is lost and `DoneStaysVerifiedIff` at which step. What holds without any
  condition is that such a block was started by somebody (`EveryMarkWasStarted`).
* *A misaligned report is ignored*, as the log message in main/collatz.c:276-277 says. It is not
  (`LowerReportIsMisread`), and a misaligned report with a higher base is not even checked
  (`HigherReportIsMisread`, `JumpLosesAlignment`). `IgnoredIff` says exactly which reports are
  ignored, aligned or not: with a higher base none. `MismatchIff` says when the branch that logs is
  taken, `ReachesReportedBaseIff` and `LosesAlignmentIff` what a higher base does to the frame.
  `FramesStayInOrder` shows that bases stay congruent, so that no such report arises among nodes
  that start from one base.
* *A downlink is the uplink of its child.* An old LOCATE and an old proposal can meet
  (`LinksCanDisagree`). `StepBackedIff` and `LinksAgreeIff` give the exact condition for steps and
  for runs; `LinksAgree` shows that it takes a LOCATE that is answered after its sender has joined.
* *A node goes on trying to join, and a proposal runs out.* If `esp_now_add_peer` fails for the
  chosen uplink (main/net_layer.c:271-274) the node never joins (`NodeGivesUp`, `NeverJoins`); if it fails
  for a proposal (main/net_layer.c:424-427) the node answers no other LOCATE
  (`ProposalIsNotTimed`, `UntimedProposalBlocks`).
  `LivelyIff` shows that nothing else stalls a node, except an upstream timer that fires while the
  last request is unanswered, which the periods in main/net_layer.h rule out: 1 against 15 seconds.
* *The period of a node saturates.* The comparison is made in 32 bits
  (main/app_sensor.c:236) and never fails, so the 16-bit period wraps (`PeriodDoesNotSaturate`);
  `PeriodAboveChildrenIff` says when it does not.
* *A packet carries the number of readings below it.* Samples that count 65536 readings together
  do not combine (`WrappingPackets`, `CountWraps`), and up to 65535 they do
  (`CombineSummarises`, `RootSummarisesFlatIff`). Node ids have 8 bits, so a tree of nodes that
  each measure once never gets there (`AnyTreeIsSummarised`); it takes a packet with such a count.

## How C is rendered

* The limbs are a Dafny subset type of 32 bits, so every sum is shown not to wrap; where the
  source relies on truncation (the left shift in `rl_fdiv2`) the truncation is written out. The
  other sums that may wrap, of sample totals, of sample counts and of the sensor period, wrap
  explicitly.
* Undefined behaviour and endless loops of the source are results, not preconditions:
  `DivideOutTwos` of zero, `Stuck` when 3x + 1 wraps to zero, a push into a full sensor cache,
  and factorising 0 or INT_MIN return `defined == false` or the corresponding outcome. A failing
  assertion, on a frame with source id 0, is `ok == false` in `NetNode.Node.Receive`.
* The inner loop of `compute_block` ends only if the Collatz conjecture holds for its numbers.
  It takes a budget of rounds, and every statement holds for every budget. `Running` is the outcome
  exactly if the budget is used up while the iterates neither overflow nor come down (`VerdictIff`),
  and a block whose numbers all come down is `Checked` with any budget that is large enough
  (`BlockEndsIff`).
* The overflow flag stays up once raised. A trajectory that overflows ends the worker of its node,
  while its communication task keeps processing reports; the contracts about frames therefore do
  not depend on the flag but on room for the next blocks below 2^300.
* `BLOCKS` and `BLOCKSIZE` are parameters: 1 to 32767 blocks of an even positive size that
  `rl_add` accepts. The 32-bit mass of `pick_block` needs no further bound.
* Hardware random numbers, whether `esp_now_add_peer` succeeds, and which packets arrive when
  are parameters that range over everything.
* Timers have no durations: a running timer may fire at any moment, so the statements do not
  depend on the periods chosen in main/net_layer.h.

## Model

| member | source | states |
|---|---|---|
| Limbs.NormalUnique | main/rl_int.h:9-26 | a value has only one normalised representation, which is why comparing lengths and limbs compares values |
| RlInt.CapIsWeight | main/rl_int.h:17-19 | the first value that does not fit into ten limbs of 30 bits is 2^300 |
| RlInt.BigInt.Compare | main/rl_int.c:15-29 | on normalised values the result is 1, 0 or -1 as the represented integer is larger, equal or smaller |
| RlInt.BigInt.Equal | main/rl_int.c:31-39 | 0 exactly for equal limb sequences, hence on normalised values exactly for equal integers |
| RlInt.BigInt.Greater | main/rl_int.c:42-53 | on normalised values 1 exactly if the represented integer is larger |
| RlInt.BigInt.Set | main/rl_int.c:94-99 | copies the value and its normalisation |
| RlInt.BigInt.Add | main/rl_int.c:101-122 | the value becomes x + c cut to 300 bits; the overflow flag is newly raised exactly if x + c >= 2^300, and otherwise the result is normalised; no 32-bit intermediate wraps |
| RlInt.BigInt.TriplePlusOne | main/rl_int.c:125-147 | the same for 3x + 1 |
| RlInt.BigInt.PutSum | main/rl_int.c:107-109 | a limb sum is split into the limb and the carry |
| RlInt.BigInt.StoreCarry | main/rl_int.c:113-121 | a carry out of the top limb becomes a new limb, or sets the overflow flag if there is no room |
| RlInt.BigInt.MoveDown | main/rl_int.c:161-164 | the limbs move down in place |
| RlInt.BigInt.ShiftOutBits | main/rl_int.c:168-197 | the zero bits of the lowest limb are shifted out of the whole value |
| RlInt.BigInt.DivideOutTwos | main/rl_int.c:150-198 | defined exactly for non-zero x; the value becomes the odd part of x, normalised, with either way of counting zero bits |
| RlInt.BigInt.DropLowZeroLimbs | main/rl_int.c:154-166 | the whole-limb shift divides by the largest power of 2^30 and leaves a non-zero lowest limb |
| RlInt.BigInt.ShiftBits | main/rl_int.c:186-192 | every new limb holds the high bits of its old limb and the low bits of the next, although the left shift is truncated to 32 bits |
| RlInt.BigInt.StripTop | main/rl_int.c:194-195 | only leading zero limbs are dropped: the value stays, and the result is normalised |
| Limbs.ShiftPair | main/rl_int.c:190-190 | masking a 32-bit left shift and or-ing in the right shift joins the two parts of neighbouring limbs exactly |
| Limbs.ShiftDivides | main/rl_int.c:186-192 | a cross-limb shift by k is division of the whole value by 2^k |
| Limbs.ShiftedOutTwos | main/rl_int.c:168-192 | shifting by the zero bits of the lowest limb leaves the odd part of the whole value |
| Words.PortableCtz | main/rl_int.c:174-184 | the portable count of trailing zero bits is the one the compiler builtin gives |
| Words.CtzFactors | main/rl_int.c:171-174 | x is 2^ctz(x) times its odd part |
| HexString.ToHex | main/rl_int.c:59-89 | parsing the printed text gives back the value, it has no leading zero except for "0", and it fits MAX_BSTR = 76 bytes with its terminator |
| HexString.PrintLimb | main/rl_int.c:68-83 | nibbles that cross a limb boundary are assembled from both limbs; printed nibbles always account for exactly the bits read |
| HexString.PrintLimbs | main/rl_int.c:68-83 | the limbs are printed from the most significant down, and the buffer is never overrun |
| HexString.PrintSelected | main/rl_int.c:71-82 | the mask selects the next lower bit of the limb |
| HexString.PrintBit | main/rl_int.c:72-80 | one more bit of the value has been read, and a full nibble is printed unless it is a leading zero |
| HexString.NumeralUnique | main/rl_int.c:59-89 | no other numeral without leading zeros parses to the same value, so equal values print equally |
| Compute.TripleWrapsToZero | main/rl_int.c:125-147 | 3x + 1 wraps to exactly zero for one ten-limb value only, (2^300 - 1) / 3 |
| Compute.OddRound | main/collatz.c:366-371 | one pass of the inner loop is one odd-to-odd Collatz step while nothing overflows; it is defined unless 3x + 1 = 2^300 |
| Compute.CheckOdd | main/collatz.c:364-374 | how the inner loop ends and after how many rounds is decided by the odd-map iterates alone, as given by VerdictIff with the cap 2^300; the flag is newly raised exactly by an overflow, and a flag that is up ends the loop in its first round |
| Compute.CheckNext | main/collatz.c:361-374 | the same for the number after the water level, which may itself not fit; when it is checked it drops, and the water level rises to it |
| Compute.CheckBlock | main/collatz.c:359-385 | how the block loop ends is decided by the numbers of the block, as given by BlockEndsIff and BlockStopsAt; when it ends every odd number of the block drops below itself |
| Verdicts.VerdictIff | main/collatz.c:364-374 | exactly when the inner loop ends in which way: Running if in all its rounds no 3x + 1 reaches the cap and no iterate comes down to the water level, otherwise Checked, Overflowed or Stuck as the first round decides that does not go on |
| Verdicts.BlockEndsIff | main/collatz.c:359-385 | the computation of a block ends as Checked, within some number of rounds and any larger one, if and only if every odd number of the block comes below itself before any 3x + 1 reaches the cap |
| Verdicts.BlockStopsAt | main/collatz.c:359-385 | a computation that ends otherwise ends at the first odd number that fails, all those before it having come down, and fails there for the stated reason |
| Collatz.OddIterateIsIterate | main/collatz.c:364-374 | the odd map stays on the Collatz trajectory |
| Collatz.VerificationExtends | main/collatz.c:359-385 | if all numbers up to a level reach 1 and every odd number above it drops, all numbers up to the higher level reach 1 |
| Collatz.BlocksExtend | main/collatz.c:359-385 | checked blocks stacked on a verified base verify everything below their top |
| CollatzNode.Message.constructor | main/collatz.c:67-73 | a message starts with the given base |
| CollatzNode.Node.constructor | main/collatz.c:496-511 | all blocks free above base 1 or 2^68 - 1, with block_id 0 from static storage |
| CollatzNode.InitialBase | main/collatz.c:503-511 | the limbs written are normalised and represent 1 and 2^68 - 1 |
| CollatzNode.Node.PickBlock | main/collatz.c:98-130 | the mass fits 32 bits; when a block is free the one picked is free and is the one whose interval holds the random number, and the end of the loop is never reached; otherwise block 0 |
| Pick.PickExists | main/collatz.c:109-122 | every random number below the mass picks a block |
| Pick.PickUnique | main/collatz.c:109-122 | and only one |
| Pick.PickWeight | main/collatz.c:104-121 | exactly BLOCKS - i of the mass values pick free block i |
| Pick.MassPositive | main/collatz.c:104-107 | the mass is zero exactly if no block is free |
| Pick.MassFitsWord | main/collatz.c:104-106 | the mass fits 32 bits for every block array if and only if BLOCKS <= 92681 |
| CollatzNode.Node.ShiftBlocks | main/collatz.c:135-156 | in place, the window moves down by `done` blocks, freed blocks are FREE, and the current block moves along or is dropped |
| CollatzNode.Node.Broadcast | main/collatz.c:179-199 | sends base, current block and state, up with the mark BLOCK_UP unless at the root, which sends down |
| CollatzNode.Node.ReportMyProgress | main/collatz.c:206-230 | the frame and the message sent are those of the frame function Progress, whatever the overflow flag says, as long as the blocks of the window fit below 2^300 |
| CollatzNode.Node.PassDone | main/collatz.c:210-214 | the base moves past exactly the done blocks at the start of the window |
| CollatzNode.Node.RaiseBase | main/collatz.c:284-289 | the loop passes as many blocks as lie below the other base, at most the whole window |
| CollatzNode.Node.EnterReport | main/collatz.c:302-314 | the larger state is kept, and a DONE for the current block makes it obsolete |
| CollatzNode.Node.AlignReport | main/collatz.c:259-300 | report and frame are brought to the same base, or the report is stale |
| CollatzNode.Node.LowerReport | main/collatz.c:263-272 | a report with a lower base is raised block by block to the own base or found stale |
| CollatzNode.Node.RaiseReport | main/collatz.c:270-272 | one round of that loop: one block up, and whether the own base is reached |
| CollatzNode.Node.RaiseFrame | main/collatz.c:284-299 | the frame is raised to a higher base, at most by its own length, and then jumps |
| CollatzNode.Node.EnterAndReport | main/collatz.c:301-319 | the reported state is entered and the progress reported as by the frame functions Enter and Progress |
| CollatzNode.Node.ProcessReport | main/collatz.c:250-320 | frame and messages are those of the frame function Absorb, whatever the overflow flag says, as long as own and reported base leave room for BLOCKS + 1 blocks below 2^300; the first block is open afterwards |
| CollatzNode.Node.Receive | main/collatz.c:457-469 | a message on its way up only passes through a node that is not the root, unchanged; any other is first sent down without BLOCK_UP and then processed, and what that triggers goes up, from the root down |
| CollatzNode.Node.PassDown | main/collatz.c:457-460 | the report is sent on to the children without the mark of a message on its way up |
| CollatzNode.Node.ReceiveAll | main/collatz.c:452-471 | one report after another is sent down and processed, with everything that triggers |
| CollatzNode.Node.Take | main/collatz.c:335-350 | the block becomes current, and is taken and announced unless it is done |
| CollatzNode.Node.ComputeBegin | main/collatz.c:328-357 | cancelled after an overflow; otherwise the block becomes current, and is taken, announced and its start computed unless it is done |
| CollatzNode.Node.RaiseWaterlevel | main/collatz.c:352-355 | the water level is base + bi * BLOCKSIZE, and the flag is newly raised exactly if that does not fit 300 bits |
| CollatzNode.Node.ComputeEnd | main/collatz.c:387-394 | the current block, wherever it has moved, is marked done and reported, or nothing happens if it was dropped |
| CollatzNode.Node.ComputeBlock | main/collatz.c:326-397 | cancelled exactly if the flag was up, over at once exactly if the block was done before; otherwise the outcome is the one its numbers decide. With any reports processed between the two critical sections, also when the computation itself overflows: the block is completed if and only if its numbers were checked, what is marked done is exactly the block that was checked, and everything sent meanwhile is given |
| CurrentBlock.AbsorbDropsIff | main/collatz.c:302-314 | process_report drops the current block, open or done, exactly if it falls below the frame or the report claims it done |
| CurrentBlock.DroppedIffDone | main/collatz.c:302-314 | over any reports, aligned or not, and any block size: an open current block is dropped exactly if the frame then has it down as done |
| CurrentBlock.DroppedIffClaimed | main/collatz.c:302-314 | on addresses, over any aligned reports: an open current block is dropped exactly if some report claims it done; one that was done before exactly if it falls below the frame or some report claims it |
| CurrentBlock.TakeSendsIff | main/collatz.c:331-350 | the block becomes current, and one report that claims it TAKEN is sent exactly if it was not done |
| CurrentBlock.CompleteSendsIff | main/collatz.c:387-394 | exactly one report is sent, which claims the completed block done and nothing else above the base; nothing is sent or changed if the current block was dropped; there is no current block afterwards |
| CurrentBlock.CompletesIff | main/collatz.c:326-397 | compute_block as a whole, over any reports: its block is done at the end, and its completion is marked and sent if and only if no report had finished it before |
| FrameViews.AbsorbIsJoin | main/collatz.c:250-320 | process_report computes a join: about every block, inside the window or beyond it, the frame says the larger of what it said and what the report claims |
| FrameViews.SettledUnique | main/collatz.c:206-220 | renormalisation is canonical: frames whose first block is open and that say the same about every block are equal |
| FrameViews.AbsorbAllIsJoin | main/collatz.c:250-320 | after any sequence of reports the frame says the strongest of its own view and all claims |
| FrameViews.OrderAndRepetitionDoNotMatter | main/collatz.c:250-320 | base and block states depend only on the set of reports processed |
| Scaling.AlignedReportsCommute | main/collatz.c:250-320 | the same on real addresses for reports whose bases are congruent modulo the block size |
| Scaling.AbsorbScales | main/collatz.c:250-320 | on congruent bases process_report is process_report on block numbers |
| FrameBounds.AbsorbReaches | main/collatz.c:282-300 | a report with a higher base is never ignored: afterwards the own base is at least as high |
| Misaligned.IgnoredIff | main/collatz.c:250-320 | any report, aligned or not, leaves the frame as it is exactly if its base is not higher and it is stale, names no block, or names one that is marked at least as high and not made obsolete |
| Misaligned.LowerIs | main/collatz.c:266-272 | a report with a lower base is entered for the block it reaches at the first own base not below it, and is stale exactly if it names a block too few steps up |
| Misaligned.MismatchIff | main/collatz.c:273-278 | for a report with a lower base that is not stale the mismatch branch, which only logs, is taken exactly if its base is not congruent |
| Misaligned.JumpsIff | main/collatz.c:284-299 | the frame jumps to a higher base exactly if that lies beyond the start of the last block of the window |
| Misaligned.ReachesReportedBaseIff | main/collatz.c:282-300 | a report with a higher base brings the frame to that base, before its state is entered, exactly if it is congruent or the frame jumps; otherwise the frame ends above it, with no check and no log message |
| Misaligned.LosesAlignmentIff | main/collatz.c:298-299 | the frame loses its own alignment exactly when it jumps to an incongruent base |
| Misaligned.LowerReportIsMisread | main/collatz.c:273-314 | a concrete report with a lower base after which numbers 18 to 33 are done, of which it claimed only 26 to 33 |
| Misaligned.HigherReportIsMisread | main/collatz.c:282-314 | a concrete report with a higher base that claims numbers up to 41, after which those up to 49 are done |
| Misaligned.JumpLosesAlignment | main/collatz.c:298-299 | a concrete report after which the base is not congruent to what it was |
| Frames.AbsorbSettled | main/collatz.c:206-220 | process_report leaves the first block open, never moves the base down, and sends only DONE with the current block |
| FrameViews.TakeBlockView | main/collatz.c:331-350 | taking a block raises its state to TAKEN and changes nothing else |
| FrameViews.CompleteBlockView | main/collatz.c:387-394 | completing raises the current block to DONE and changes nothing else |
| Frames.AbsorbTracksJob | main/collatz.c:135-156 | for every report, aligned or not, the current block keeps its address or is dropped |
| Frames.JobTrackedAcrossReports | main/collatz.c:335-394 | the same over any number of reports between the two critical sections |
| ProtocolSafety.StepKeepsInv | main/collatz.c:250-397 | every critical section on every node keeps: what is not free was started, the current block is the one in work, and is not free unless it is the first |
| ProtocolSafety.RunKeepsInv | main/collatz.c:250-397 | the same over all runs |
| ProtocolAddresses.KnowledgeNeverShrinks | main/collatz.c:206-397 | however a run goes on, on every node every block keeps at least its state and the base never decreases |
| ProtocolAddresses.DoneMeansVerifiedIff | main/collatz.c:206-230 | for every run: done means verified after every step if and only if no step processes a report that finishes the first block of the window while the current block of the node is unverified |
| ProtocolAddresses.DoneStaysVerifiedIff | main/collatz.c:206-230 | the step at which it is lost, and that such a step sends a TAKEN current block as done |
| ProtocolSafety.AbsorbSendsIff | main/collatz.c:210-221 | a processed report triggers a report exactly if it finishes the first block of the window at the common base |
| ProtocolSafety.AbsorbKeepsJob | main/collatz.c:145-154 | the current block is dropped only when it is done |
| ProtocolSafety.LeakFreeRunIsSafe | main/collatz.c:206-230 | if no report_my_progress(0) sends a TAKEN current block, done means verified throughout |
| ProtocolLeak.DoneDoesNotImplyVerified | main/collatz.c:227-229 | a concrete legal run of two nodes, with the blocks and the block size of the TESTCASE build started from 1, after which a node has passed the block above 33 that nobody verified |
| FirstBlocks.BlocksCheckable | main/collatz.c:361-374 | every odd number of the first two blocks of that build drops below itself, so their computation ends |
| ProtocolTheorems.RunScales | main/collatz.c:206-397 | runs on addresses and runs on block numbers mirror each other in both directions, leak for leak |
| ProtocolTheorems.EveryMarkWasStarted | main/collatz.c:206-397 | in every run, every block passed, taken or done on any node and every claim of any message ever sent is about a block some compute_block started |
| ProtocolTheorems.EveryDoneWasVerified | main/collatz.c:206-397 | in every leak-free run, every block passed or done on any node or claimed done in any message was checked to its end and all its odd numbers drop |
| ProtocolTheorems.FramesStayInOrder | main/collatz.c:206-397 | in every run each frame has an open first block, an odd base congruent to the initial one, indices within the window, and a current block that is the one in work |
| Agreement.StepTells | main/collatz.c:206-397 | no step makes a node know anything about a block that no report says |
| Agreement.ReceivedIsKnown | main/collatz.c:250-320 | what a node has received it knows for the rest of the run |
| Agreement.QuietNodesAgree | main/collatz.c:206-397 | after every run in which every node has received every report ever sent, all nodes have the same base and the same block states |
| ProtocolTheorems.EveryNumberBelowABaseReachesOne | main/collatz.c:352-385 | if all numbers up to the initial base reach 1, then in every leak-free run all numbers up to the base of every node and of every message do |
| ProtocolSafety.VerifiedWasChecked | main/collatz.c:359-385 | only blocks whose computation ran to its end count as verified |
| NetNode.Node.constructor | main/net_layer.c:38-57 | net_init gives the initial state: a root without timers, or a node waiting to join |
| NetNode.Node.Receive | main/net_layer.c:384-644 | state and packets after any valid frame are those of the handler function for its control field, unless an assertion of the source fails, which only a frame with source id 0 can bring about |
| NetNode.Node.ReceiveFromZero | main/net_layer.c:384-644 | which frames with source id 0 run into the assertions of is_linked |
| LinkLayer.ZeroBreaksInvIff | main/net_layer.c:438-450 | a frame with source id 0 that runs into no assertion breaks the invariant exactly if it changes anything |
| NetNode.Node.Locate | main/net_layer.c:397-436 | a proposal is made exactly by an unfrozen node with an uplink, a free downlink and no other proposal |
| NetNode.Node.Link | main/net_layer.c:438-469 | a LINK is a proposal while locating with the right ident, else the confirmation of the own proposal, else ignored |
| NetNode.Node.Status | main/net_layer.c:474-506 | an answer from up-stream clears the status timer; a request from down-stream restarts the decay timer and is answered |
| NetNode.Node.RestartDecay | main/net_layer.c:489-494 | the timer of the first entry for the node runs again |
| NetNode.Node.Map | main/net_layer.c:508-545 | answers and passes down what comes from above, passes up what comes from below |
| NetNode.Node.Blackout | main/net_layer.c:547-554 | only a blackout from up-stream on an unfrozen node is passed down and restarts the node |
| NetNode.Node.Freeze | main/net_layer.c:556-607 | a toggle from up-stream that stops or restarts the timers of the entries in use |
| NetNode.Node.RestartTimers | main/net_layer.c:565-583 | starts the timers of the entries in use up to the first that is still running |
| NetNode.Node.StopTimers | main/net_layer.c:598-604 | stops the timers of the entries in use |
| NetNode.Node.PassOn | main/net_layer.c:609-642 | frames for an unregistered application go down from above and up from below |
| NetNode.Node.ExecuteBlackout | main/net_layer.c:646-669 | every downlink is told, then the node restarts |
| NetNode.Node.SendDown | main/net_layer.c:652-660 | one packet for every downlink in use, in the order of the table |
| NetNode.Node.AvailableDownlink | main/net_layer.c:688-699 | the first free downlink, or -1 if there is none |
| NetNode.Node.FindEntry | main/net_layer.c:1051-1058 | the first entry in use for the id |
| NetNode.Node.Downstream | main/net_layer.c:818-830 | whether a downlink in use has the id |
| NetNode.Node.Linked | main/net_layer.c:800-802 | whether the id is up-stream or down-stream |
| NetNode.Node.NewUplink | main/net_layer.c:704-725 | succeeds exactly if there is no uplink and its timer is not running |
| NetNode.Node.NewDownlink | main/net_layer.c:730-751 | fills the first free entry; succeeds exactly if there is one and its timer is not running |
| NetNode.Node.SendRaw | main/net_layer.c:1087-1100 | the assertion about the destination holds and the packet is queued |
| NetNode.Node.LocTimerFires | main/net_layer.c:247-291 | one of the responses becomes the uplink and is sent a LINK, or joining starts over |
| NetNode.Node.PendingTimerFires | main/net_layer.c:235-240 | the proposal is forgotten with its id and address |
| NetNode.Node.StatusTimerFires | main/net_layer.c:297-301 | every downlink is told and the node restarts |
| NetNode.Node.JoinTimerFires | main/net_layer.c:360-377 | a LOCATE with the next identification goes to everybody and the search is timed |
| NetNode.Node.UpstreamTimerFires | main/net_layer.c:307-336 | asks up-stream for its status and restarts both timers |
| NetNode.Node.DownstreamTimerFires | main/net_layer.c:342-354 | the decayed entry is cleared |
| LinkLayer.HandleKeepsInv | main/net_layer.c:235-669 | every packet and every timer keeps the invariant: a decay timer runs exactly for the downlinks in use unless frozen, used entries have non-zero ids, a pending proposal has a free entry and without one its fields are clear, a locating node has no uplink, a frozen node runs no link or status timer, a status timer runs only while an answer is awaited |
| LinkLayer.InvAfter | main/net_layer.c:235-669 | the invariant holds after any sequence of packets and timers |
| LinkLayer.SendsAreAllowed | main/net_layer.c:1087-1095 | the assertion of net_send_raw holds for every packet any handler sends, and none goes to id 0 |
| LinkLayer.DecayFindsEntry | main/net_layer.c:342-347 | the assertion of timer_cb_downstream: a decay timer that fires finds its entry in use |
| LinkLayer.ProposalReservesCapacity | main/net_layer.c:451-467 | a confirmed proposal always finds a free downlink whose timer is not running |
| LinkLayer.LocateTimerFormsUplink | main/net_layer.c:276-276 | the locate timer never finds an uplink in place |
| LinkLayer.FrozenTableIsFixed | main/net_layer.c:556-607 | nothing changes the link table of a frozen node |
| LinkLayer.FreezeRoundTrip | main/net_layer.c:556-607 | two FREEZE packets give back the same table with the decay timers running |
| LinkLayer.UplinkIsKept | main/net_layer.c:704-725 | an uplink, once formed, is not changed by any packet or timer |
| LinkLayer.RestartStartsAll | main/net_layer.c:565-583 | if no timer of the table runs, all that should run are started |
| LinkLaws.MapReaches | main/net_layer.c:508-545 | who receives a MAP frame: from above the sender of it once and every downlink once; from below the uplink alone, at the root nobody; from a stranger nobody |
| LinkLaws.DefaultReaches | main/net_layer.c:609-642 | who receives a DEFAULT frame of an unregistered application: from above every downlink once; from below the uplink alone, at the root nobody; from a stranger nobody |
| LinkLaws.BlackoutReaches | main/net_layer.c:547-554 | a BLACKOUT frame restarts the node exactly if it comes from above and the node is not frozen, and then every downlink receives it once |
| LinkLaws.UnansweredEndsInBlackout | main/net_layer.c:297-301 | when the status timer fires every downlink receives a BLACKOUT once and the node restarts |
| LinkLaws.StatusAnsweredIff | main/net_layer.c:474-506 | a STATUS request is answered exactly if its sender is down-stream and the node is not frozen |
| LinkLaws.AnswerEndsWait | main/net_layer.c:480-484 | after a STATUS frame from above the status timer is off |
| LinkLaws.FreezeToggles | main/net_layer.c:556-607 | exactly a FREEZE from above toggles; afterwards the timers of all links run or none does, and nothing else of the table changes |
| LinkLaws.LocateAnsweredIff | main/net_layer.c:397-436 | a LOCATE is answered with a LINK of the same identification exactly by an unfrozen node with uplink, free downlink and no other proposal; if the peer cannot be added the proposal is recorded but neither sent nor timed |
| LinkLaws.LinkTaken | main/net_layer.c:438-469 | a LINK frame is heard as a response, or makes its sender a child, exactly under the conditions stated, never both, and otherwise changes nothing |
| LinkLaws.DecayFrees | main/net_layer.c:342-354 | a decayed entry, and no other, is no longer listed and can be used again |
| LinkLaws.AsksAbove | main/net_layer.c:307-336 | the uplink is asked and the answer awaited; the own timer runs again unless an answer was awaited already |
| LinkLaws.AsksEverybody | main/net_layer.c:360-377 | a search starts with an identification that differs from the last one |
| LinkLaws.SearchEnds | main/net_layer.c:247-291 | at the end of a search the chosen node is the uplink and is told so, or joining starts over if nobody answered |
| LinkLaws.SearchGoesOn | main/net_layer.c:438-450 | until its timer fires nothing ends a search or makes it forget a response |
| LinkLaws.InitAwaitsJoin | main/net_layer.c:38-57 | after net_init only the join timer can fire, and at the root no timer |
| LinkLaws.StepLivelyIff | main/net_layer.c:235-669 | a step keeps "every proposal is timed, a node without uplink goes on trying to join, one with uplink goes on checking it" exactly if it is none of three: esp_now_add_peer fails for a proposal or for the chosen uplink, or the upstream timer fires while an answer is awaited |
| LinkLaws.LivelyIff | main/net_layer.c:235-669 | the same for whole runs from net_init on |
| LinkLaws.ProposesAgain | main/net_layer.c:235-240 | after the timer of a proposal the next LOCATE, whatever happened in between, gets a LINK again if the node is not frozen and a downlink is free |
| LinkLaws.ProposalRoundTrip | main/net_layer.c:397-436 | a proposal that runs out leaves the node as it was before |
| LinkLaws.NeverJoins | main/net_layer.c:269-274 | a node whose chosen uplink could not be added as a peer never joins |
| LinkLaws.NodeGivesUp | main/net_layer.c:269-274 | three concrete events after net_init by which a node gives up joining |
| LinkLaws.ProposalIsNotTimed | main/net_layer.c:421-434 | a concrete LOCATE after which a proposal is pending without a timer |
| LinkLaws.UntimedProposalBlocks | main/net_layer.c:421-434 | a proposal that could not be sent keeps the node from answering any LOCATE until its addressee sends a LINK of its own accord |
| Handshakes.RequestIsAnsweredIff | main/net_layer.c:474-506 | in a network: the STATUS request of a child is answered exactly if its uplink lists it and is not frozen |
| Handshakes.StatusRoundTrip | main/net_layer.c:307-336 | request, delivery and answer, with anything else happening in between: the status timer of the child is off and the blackout it would cause is averted |
| Handshakes.ProposalReachesSearch | main/net_layer.c:397-450 | LOCATE, delivery to a node that can propose, and its LINK, with anything in between: the searching node has the proposer among its responses |
| Handshakes.ChoiceReachesProposer | main/net_layer.c:247-469 | choice of that response, LINK and its delivery: the proposer is the uplink of the node, lists it as a child and is free for the next proposal |
| Routing.GoesToTheTop | main/net_layer.c:508-545 | a MAP or DEFAULT frame on its way up gets along the links to the end of any path in as many deliveries as there are nodes between |
| Routing.GoesToTheBottom | main/net_layer.c:609-642 | and one on its way down to every node below |
| JoinTree.HandleEffect | main/net_layer.c:235-669 | what one event can change about uplink, responses, proposal and downlinks, and who sends a LINK to whom |
| JoinTree.NextKeepsTree | main/net_layer.c:247-469 | every step of every node keeps: only nodes with an uplink send LINK, and every uplink joined before its child |
| JoinTree.RunKeepsTree | main/net_layer.c:247-469 | the same over all runs |
| JoinTree.UplinksAcyclic | main/net_layer.c:247-291 | up-links never lead back to their start, despite loss, duplication and reordering |
| JoinTree.UplinksReachRoot | main/net_layer.c:247-291 | following the up-links from any joined node ends at a root |
| JoinTree.UplinksFormTrees | main/net_layer.c:247-469 | in every run from net_init on no path of up-links returns to its start, and from every node with an uplink the up-links lead to a root |
| JoinTree.StepBackedIff | main/net_layer.c:451-467 | a step keeps "every downlink is the uplink of its child" if and only if it does not confirm a child that has chosen another uplink |
| JoinTree.LinksAgreeIff | main/net_layer.c:397-469 | for every run from net_init on: links agree at both ends after every step if and only if no step confirms such a child |
| JoinTree.LinksAgree | main/net_layer.c:397-469 | in every run in which LOCATEs are answered only while their sender has no uplink, all links agree at both ends |
| JoinStale.LinksCanDisagree | main/net_layer.c:397-469 | a concrete legal run of three nodes, without a repeated delivery, that ends with a child in the table of a node that is not its uplink |
| Checksum.PakChecksum | main/net_layer.c:851-863 | the exclusive or of all bytes but the checksum |
| Checksum.ValidPacket | main/net_layer.c:756-773 | accepts exactly the frames of the right length and version whose bytes cancel out |
| Checksum.Seal | main/net_layer.c:283-283 | setting the checksum changes only byte 3 |
| Checksum.SealedIsAccepted | main/net_layer.c:756-773 | a frame with the right version is accepted once its checksum has been set |
| Checksum.UnnoticedIff | main/net_layer.c:756-773 | a corrupted frame is accepted exactly if length and version are intact and the differences cancel out |
| Checksum.OneByteIsNoticed | main/net_layer.c:756-773 | a change confined to one byte is always rejected |
| Checksum.SwappedBytesAreNot | main/net_layer.c:851-863 | a swap of two bytes other than the version never is |
| SensorNode.Accumulator.constructor | main/app_sensor.c:270-278 | an empty sample has the largest minimum and the smallest maximum |
| SensorNode.Accumulator.Combine | main/app_sensor.c:207-223 | in place, the accumulator becomes the combined sample in 32-bit and 16-bit arithmetic |
| Samples.CombineSummarises | main/app_sensor.c:207-223 | combining summaries of two multisets of readings summarises their sum if and only if there are at most 65535 of them, and then the 32-bit total does not overflow |
| Samples.CountWraps | main/app_sensor.c:211-213 | two samples of 65536 readings together count as none and are lost in the next fold |
| Samples.WrappingPackets | main/app_sensor.c:211-213 | two samples that are right about 65535 readings and about one, whose combination counts none |
| Samples.SummaryUnique | main/app_sensor.c:207-223 | extremes, total and count are determined by the multiset of readings |
| SensorNode.Node.constructor | main/app_sensor.c:132-135 | an empty cache and the default period |
| SensorNode.Node.FindSlot | main/app_sensor.c:189-198 | the entry of the origin, else the last free entry, else -1 |
| SensorNode.Node.PushCache | main/app_sensor.c:185-202 | the cache after the push; defined exactly if there is a slot |
| SensorTree.PushIsUpdate | main/app_sensor.c:185-202 | push_cache is an update of a map from origins to packets, defined exactly if the origin is known or fewer than 8 are |
| SensorTree.PushedTracks | main/app_sensor.c:185-202 | with at most 8 origins the cache holds the latest packet of each |
| SensorNode.Node.UpdatePeriod | main/app_sensor.c:229-238 | a second above every cached period if all of those leave room for it, and in any case the highest plus ten, cut to 16 bits, and at least 100 |
| SensorTree.HighestIs | main/app_sensor.c:230-235 | no cached period is above the result of the loop, which is 0 or the period of some slot |
| SensorTree.PeriodIs | main/app_sensor.c:229-238 | the period sent up, from the highest among the latest packets of the children: a second more, at least 10 seconds, and 10 seconds when the sum wraps, because the saturation is never taken |
| SensorTree.PeriodAboveChildrenIff | main/app_sensor.c:229-238 | the period sent up is a second or more above the latest period of every child if and only if all of those are below 65526 |
| SensorTree.PeriodDoesNotSaturate | main/app_sensor.c:236-237 | a concrete cache with a highest period of 65530 after which the period is 100 |
| SensorNode.Node.ProcessCache | main/app_sensor.c:148-179 | each accumulator ends as the fold over the cache and the local reading, and the cache is empty |
| SensorNode.Node.PushAll | main/app_sensor.c:71-83 | the cache after all received packets; defined exactly for at most 8 origins |
| SensorNode.Node.Report | main/app_sensor.c:85-93 | the packet of the round, and an empty cache |
| SensorNode.Node.Round | main/app_sensor.c:70-93 | everything received is cached and one packet summarising it goes up; defined exactly for at most 8 origins |
| SensorTree.FoldSummarises | main/app_sensor.c:149-156 | the fold over the cache summarises the readings behind the cached packets |
| SensorTree.RootSummarisesTree | main/app_sensor.c:148-202 | the packet leaving the root of a tree in which children may report repeatedly summarises the readings behind the latest packets |
| SensorFlat.ReadingsAreFlat | main/app_sensor.c:148-202 | if every child reports once, the readings behind the packets are the samples of all nodes of the tree put together |
| SensorFlat.RootSummarisesFlatIff | main/app_sensor.c:148-179 | the packet leaving the root summarises the flat multiset of the samples of all nodes if and only if there are at most 65535 |
| SensorFlat.AnyTreeIsSummarised | main/app_sensor.c:148-179 | for any tree with unique node ids and at most 8 children per node: extremes with nodes that measured them, total and count of all samples, without overflow |
| SensorFlat.ShapeDoesNotMatter | main/app_sensor.c:148-179 | two trees of the same flat multiset of samples report the same extremes, total and count |
| SensorTree.TotalsDoNotOverflow | main/app_sensor.c:207-223 | in a tree of at most 65535 readings no addition to a total overflows 32 bits on any node, of a cached packet or of the local reading |
| Factor.Factorise | main/factor.c:26-50 | for every number but 0 and INT_MIN the nondecreasing list of primes whose product is |n| |
| Factor.DivideOut | main/factor.c:36-42 | a candidate is divided out completely; it is prime whenever it divides |
| Factor.TryOdd | main/factor.c:35-43 | when the loop ends no candidate below its last divides what is left, and the square of the last exceeds it |
| Factor.LeftoverIsPrime | main/factor.c:45-50 | what is left when the candidates have passed its root is prime |
| Factor.FactorisationUnique | main/factor.c:26-50 | no other nondecreasing list of primes has that product |

## Left out

- ESP-NOW, Wi-Fi, NVS, GPIO, FreeRTOS queues and tasks, logging: foreign calls, of which only the effect on the modelled state is kept. Queues never overflow in the model; a lost packet is one that is never delivered.
- Restarting a node: `esp_restart` sets a flag and ends the node's part in a run, and `JoinTree` covers runs without restarts. With restarts and lost BLACKOUT packets an uplink can be stale, so no statement about acyclic up-links is made for them.
- `JoinTree` takes node ids to be unique, not 0 and not 255 (the broadcast id), and lets the sender's id stand for its MAC address.
- Usage masks are arrays of booleans, a timer is a boolean of its entry, and a frame's contents beyond the header fields the link layer reads are opaque.
- `worker_send` looks up the destination again when a packet leaves the queue; the link may have gone by then, and nothing is claimed about it.
- Registered applications and their queues (`net_register_app`, `net_receive`): the model covers the packets of applications that are not registered.
- Report types whose state bits are 3, and reports with limbs that are not normalised: no node sends them. Block ids outside the window are not sent either.
- The static long integers start in the source as zero memory of length 0; the model starts them as the number zero, and each is written before it is read.
- Storing or sending a base in `int16_t` and `bigint_t` memory layout, the "f3n1" and "sd01" marks, and the length checks of received messages.
- Floating-point `sqrt` in the factoriser is the comparison i * i <= n, which it decides exactly for 32-bit numbers. The text buffer of 128 bytes and the decimal conversion are left out; the model returns the list of factors.
- Delivery of Collatz reports over the links: `Routing` follows a frame of an unregistered application hop by hop, while in a run of `Protocol` every report may reach every node or not.
- Frames with source id 0: `NetNode` says what each of them does, and the invariant, the runs of `LinkLayer` and those of `JoinTree` are about frames with other ids.
- CollatzNode.Node.ProcessReport: promises the frame only while own and reported base leave room for BLOCKS + 1 blocks below 2^300, because closer to it the sums wrap. The same bound stands in the methods it is made of, and in `Receive`, `ReceiveAll` and `ComputeBlock`.
- `find_mac`, `find_id`, `valid_link`, `find_app`: lookups without state, which would only add easy members.
- main/background.c, main/data.c: their lists are read after parts of them have been freed, so there is no honest invariant to state.
- main/main.c, main/command_functions.c, main/Stack.c, main/util.c, main/serial_out.c, main/app_bounce.c, main/dht.c: command-line plumbing, sensor timing and thin uses of the network.
