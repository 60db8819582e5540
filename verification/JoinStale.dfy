/**
 * Links that disagree: without fresh LOCATEs a node can take as its child a node that has
 * chosen another uplink, even if no packet is lost or duplicated.
 */
module JoinStale {
  import opened LinkLayer
  import opened JoinTree

  /**
   * Node 3 joins the root 1. Node 2 locates; node 3 and the root both propose to it and node 2
   * joins the root. Then node 3's old LOCATE reaches node 2, which proposes to node 3, and
   * node 3's old proposal reaches node 2, which takes it for a confirmation.
   */
  ghost const STALE: seq<Step> :=
    [Fires(3, JoinTimer), Deliver(1, 0, true), Deliver(3, 1, true), Fires(3, LocTimer(0, true)), Deliver(1, 2, true),
     Fires(2, JoinTimer), Deliver(3, 3, true), Deliver(1, 3, true), Deliver(2, 5, true), Fires(2, LocTimer(0, true)),
     Deliver(2, 0, true), Deliver(2, 4, true)]

  ghost const AIR: seq<Packet> :=
    [Packet(3, BROADCAST, Locate, 1), Packet(1, 3, Link, 1), Packet(3, 1, Link, 1), Packet(2, BROADCAST, Locate, 1),
     Packet(3, 2, Link, 1), Packet(1, 2, Link, 1), Packet(2, 1, Link, 1), Packet(2, 3, Link, 1)]

  const EMPTY: Slot := Slot(false, 0, 0, false)

  // ----- the states the nodes go through

  ghost function Unjoined(n: NodeId): Net {
    Init(n, false, 0)
  }

  ghost function Locating(n: NodeId, responses: seq<Peer>): Net {
    Unjoined(n).(joinTimer := false, locating := true, locTimer := true, locIdent := 1, responses := responses)
  }

  /** A node whose uplink is the root, with its first downlink. */
  ghost function Joined(n: NodeId, down: Slot): Net {
    Unjoined(n).(joinTimer := false, locIdent := 1, slots := [Slot(true, 1, 1, true), down, EMPTY, EMPTY])
  }

  ghost function Root(down: Slot): Net {
    Init(1, true, 0).(slots := [Slot(true, 0, 0, false), down, EMPTY, EMPTY])
  }

  ghost function Proposing(s: Net, to: NodeId): Net {
    s.(pending := true, pendingId := to, pendingMac := to, pendingTimer := true)
  }

  ghost function Child(n: NodeId): Slot {
    Slot(true, n, n, true)
  }

  lemma StartsLocating(n: NodeId)
    ensures OnJoinTimer(Unjoined(n)) == (Locating(n, []), [Packet(n, BROADCAST, Locate, 1)])
  {}

  lemma HearsProposal(n: NodeId)
    ensures OnLink(Locating(n, []), 1, 1, 1) == Locating(n, [Peer(1, 1)])
  {
    assert [] + [Peer(1, 1)] == [Peer(1, 1)];
  }

  lemma JoinsRoot(n: NodeId)
    ensures OnLocTimer(Locating(n, [Peer(1, 1)]), 0, true) == (Joined(n, EMPTY), [Packet(n, 1, Link, 1)])
  {
    assert [EMPTY, EMPTY, EMPTY, EMPTY][0 := Slot(true, 1, 1, true)] == [Slot(true, 1, 1, true), EMPTY, EMPTY, EMPTY];
  }

  lemma HasRoom(up: Slot, down: Slot)
    ensures FreeFrom([up, down, EMPTY, EMPTY], 1) < 4
    ensures !down.used ==> FreeFrom([up, down, EMPTY, EMPTY], 1) == 1
  {}

  lemma Proposes(s: Net, up: Slot, down: Slot, to: NodeId)
    requires s.slots == [up, down, EMPTY, EMPTY] && s.responses == [] && up.used && !s.frozen && !s.pending
    ensures OnLocate(s, to, to, 1, true) == (Proposing(s, to), [Packet(s.id, to, Link, 1)])
  {
    HasRoom(up, down);
  }

  lemma TakesChildIn(s: Net, up: Slot, c: NodeId)
    requires s.slots == [up, EMPTY, EMPTY, EMPTY] && s.responses == []
    requires !s.frozen && !s.locating && !s.pending && s.pendingId == 0 && s.pendingMac == 0 && !s.pendingTimer
    ensures OnLink(Proposing(s, c), c, c, 1) == s.(slots := [up, Child(c), EMPTY, EMPTY])
  {
    HasRoom(up, EMPTY);
    assert [up, EMPTY, EMPTY, EMPTY][1 := Child(c)] == [up, Child(c), EMPTY, EMPTY];
  }

  // ----- the run

  ghost function One(k: nat): Net {
    if k < 2 then Root(EMPTY) else if k < 5 then Proposing(Root(EMPTY), 3)
    else if k < 8 then Root(Child(3)) else Proposing(Root(Child(3)), 2)
  }

  ghost function Two(k: nat): Net {
    if k < 6 then Unjoined(2) else if k < 9 then Locating(2, []) else if k < 10 then Locating(2, [Peer(1, 1)])
    else if k < 11 then Joined(2, EMPTY) else if k < 12 then Proposing(Joined(2, EMPTY), 3)
    else Joined(2, Child(3))
  }

  ghost function Three(k: nat): Net {
    if k < 1 then Unjoined(3) else if k < 3 then Locating(3, []) else if k < 4 then Locating(3, [Peer(1, 1)])
    else if k < 7 then Joined(3, EMPTY) else Proposing(Joined(3, EMPTY), 2)
  }

  ghost function NodeAt(k: nat, n: NodeId): Net {
    if n == 1 then One(k) else if n == 2 then Two(k) else Three(k)
  }

  ghost function Sent(k: nat): (n: nat)
    ensures n <= 8
  {
    if k < 1 then 0 else if k < 2 then 1 else if k < 4 then 2 else if k < 6 then 3 else if k < 7 then 4
    else if k < 8 then 5 else if k < 10 then 6 else if k < 11 then 7 else 8
  }

  ghost function OrderAt(k: nat): seq<NodeId> {
    if k < 4 then [1] else if k < 10 then [1, 3] else [1, 3, 2]
  }

  ghost function Stage(k: nat): World {
    World(map[1 := One(k), 2 := Two(k), 3 := Three(k)], AIR[..Sent(k)], OrderAt(k))
  }

  /** What step k is for its node. */
  ghost function EventAt(k: nat): Event
    requires k < 12
  {
    var a := STALE[k];
    if a.Fires? then a.timer
    else if a.index < 8 then Arrives(AIR[a.index], AIR[a.index].source, true) else JoinTimer
  }

  /** Step k takes its node from the state of stage k to that of stage k + 1 and leaves the others alone. */
  ghost predicate Acts(k: nat)
    requires k < 12
  {
    var a := STALE[k];
    var s, t := NodeAt(k, a.node), NodeAt(k + 1, a.node);
    && a.node in {1, 2, 3} && WellFormed(s) && WellFormed(t)
    && (a.node == 1 || One(k + 1) == One(k))
    && (a.node == 2 || Two(k + 1) == Two(k))
    && (a.node == 3 || Three(k + 1) == Three(k))
    && (a.Deliver? ==> a.index < Sent(k) && (AIR[a.index].destination == a.node
                       || (AIR[a.index].destination == BROADCAST && AIR[a.index].source != a.node)))
    && (a.Fires? ==> !a.timer.Arrives?)
    && Enabled(s, EventAt(k)) && !t.restarted
    && Sent(k) <= Sent(k + 1) && Handle(s, EventAt(k)) == (t, AIR[Sent(k)..Sent(k + 1)])
    && OrderAt(k + 1) == if !HasUplink(s) && HasUplink(t) then OrderAt(k) + [a.node] else OrderAt(k)
  }

  lemma OneSent(i: nat)
    requires i < 8
    ensures AIR[i..i + 1] == [AIR[i]] && AIR[i..i] == []
  {}

  lemma Node3Locates()
    ensures Acts(0) && Acts(1)
  {
    StartsLocating(3);
    Proposes(Root(EMPTY), Slot(true, 0, 0, false), EMPTY, 3);
    OneSent(0);
    OneSent(1);
  }

  lemma Node3Joins()
    ensures Acts(2) && Acts(3)
  {
    HearsProposal(3);
    JoinsRoot(3);
    OneSent(2);
  }

  lemma RootTakesNode3()
    ensures Acts(4) && Acts(5)
  {
    TakesChildIn(Root(EMPTY), Slot(true, 0, 0, false), 3);
    StartsLocating(2);
    OneSent(3);
  }

  lemma BothPropose()
    ensures Acts(6) && Acts(7)
  {
    Proposes(Joined(3, EMPTY), Slot(true, 1, 1, true), EMPTY, 2);
    Proposes(Root(Child(3)), Slot(true, 0, 0, false), Child(3), 2);
    OneSent(4);
    OneSent(5);
  }

  lemma Node2Joins()
    ensures Acts(8) && Acts(9)
  {
    HearsProposal(2);
    JoinsRoot(2);
    OneSent(6);
  }

  lemma Node2Errs()
    ensures Acts(10) && Acts(11)
  {
    Proposes(Joined(2, EMPTY), Slot(true, 1, 1, true), EMPTY, 3);
    TakesChildIn(Joined(2, EMPTY), Slot(true, 1, 1, true), 3);
    OneSent(7);
    assert AIR[8..8] == [];
  }

  lemma EveryStepActs(k: nat)
    requires k < 12
    ensures Acts(k)
  {
    if k < 2 { Node3Locates(); } else if k < 4 { Node3Joins(); } else if k < 6 { RootTakesNode3(); }
    else if k < 8 { BothPropose(); } else if k < 10 { Node2Joins(); } else { Node2Errs(); }
  }

  /** A step is what its node's handler makes of it. */
  lemma NextIs(w: World, a: Step, e: Event, t: Net, out: seq<Packet>, v: World)
    requires WorldFormed(w) && a.node in w.nodes
    requires a.Deliver? ==> a.index < |w.air| && var p := w.air[a.index];
               p.destination == a.node || (p.destination == BROADCAST && p.source != a.node)
    requires a.Fires? ==> !a.timer.Arrives?
    requires e == EventOf(w, a) && Enabled(w.nodes[a.node], e)
    requires Handle(w.nodes[a.node], e) == (t, out) && !t.restarted
    requires v.nodes == w.nodes[a.node := t] && v.air == w.air + out
    requires v.order == if !HasUplink(w.nodes[a.node]) && HasUplink(t) then w.order + [a.node] else w.order
    ensures Possible(w, a) && Next(w, a) == v
  {}

  lemma NodesFollow(n: NodeId, one: Net, two: Net, three: Net, t: Net)
    requires n in {1, 2, 3}
    ensures map[1 := one, 2 := two, 3 := three][n := t]
            == map[1 := if n == 1 then t else one, 2 := if n == 2 then t else two, 3 := if n == 3 then t else three]
  {}

  lemma StageParts(k: nat)
    requires k < 12 && Acts(k)
    ensures var w, v, n := Stage(k), Stage(k + 1), STALE[k].node;
            && n in w.nodes && w.nodes[n] == NodeAt(k, n) && v.nodes == w.nodes[n := NodeAt(k + 1, n)]
            && v.air == w.air + AIR[Sent(k)..Sent(k + 1)]
  {
    var n, t := STALE[k].node, NodeAt(k + 1, STALE[k].node);
    NodesFollow(n, One(k), Two(k), Three(k), t);
    var one, two, three := One(k + 1), Two(k + 1), Three(k + 1);
    assert one == if n == 1 then t else One(k);
    assert two == if n == 2 then t else Two(k);
    assert three == if n == 3 then t else Three(k);
    AirFollows(Sent(k), Sent(k + 1));
  }

  lemma AirFollows(i: nat, j: nat)
    requires i <= j <= 8
    ensures AIR[..i] + AIR[i..j] == AIR[..j]
  {}

  lemma StageEvent(k: nat, w: World, a: Step)
    requires k < 12 && Acts(k) && w == Stage(k) && a == STALE[k]
    ensures a.Deliver? ==> a.index < |w.air| && w.air[a.index] == AIR[a.index]
    ensures EventOf(w, a) == EventAt(k)
  {}

  lemma StageFollows(k: nat, w: World, v: World)
    requires k < 12 && w == Stage(k) && v == Stage(k + 1) && WorldFormed(w)
    ensures Possible(w, STALE[k]) && Next(w, STALE[k]) == v
  {
    EveryStepActs(k);
    StageParts(k);
    StageEvent(k, w, STALE[k]);
    NextIs(w, STALE[k], EventAt(k), NodeAt(k + 1, STALE[k].node), AIR[Sent(k)..Sent(k + 1)], v);
  }

  lemma StartsAtStage0(w: World)
    requires w == Stage(0)
    ensures Start(w) && WorldFormed(w)
  {
    assert w.nodes[1] == Init(1, true, 0) && w.nodes[2] == Init(2, false, 0) && w.nodes[3] == Init(3, false, 0);
    StartTree(w);
  }

  lemma {:induction false} PlayedFrom(k: nat, w: World)
    requires k <= 12 && w == Stage(k) && WorldFormed(w)
    ensures LegalRun(w, STALE[k..]) && Final(w, STALE[k..]) == Stage(12)
    decreases 12 - k
  {
    if k < 12 {
      StageFollows(k, w, Stage(k + 1));
      assert STALE[k..][0] == STALE[k] && STALE[k..][1..] == STALE[k + 1..];
      PlayedFrom(k + 1, Stage(k + 1));
    }
  }

  lemma Stage12Disagrees(v: World)
    requires v == Stage(12)
    ensures UpIs(v, 3, 1) && !Backed(v)
  {
    var two := v.nodes[2];
    assert two == Joined(2, Child(3)) && two.slots[1] == Child(3);
    assert !UpIs(v, two.slots[1].id, 2);
  }

  /**
   * A legal run from net_init that ends with node 3 in node 2's table although node 3's uplink
   * is the root.
   */
  lemma LinksCanDisagree() returns (w: World, run: seq<Step>)
    ensures Start(w) && WorldFormed(w) && LegalRun(w, run)
    ensures UpIs(Final(w, run), 3, 1) && !Backed(Final(w, run))
  {
    w, run := Stage(0), STALE;
    StartsAtStage0(w);
    assert STALE[0..] == STALE;
    PlayedFrom(0, w);
    Stage12Disagrees(Final(w, run));
  }
}
