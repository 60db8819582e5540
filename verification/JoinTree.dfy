/**
 * N nodes of module LinkLayer joining a network: what their link tables say about each other.
 * Packets ever sent stay in the air and reach their addressee any number of times, in any
 * order, or never. Node ids are unique and no node restarts.
 */
module JoinTree {
  import opened LinkLayer

  /** The nodes, every packet ever sent, and the nodes that have an uplink in the order of joining. */
  datatype World = World(nodes: map<NodeId, Net>, air: seq<Packet>, order: seq<NodeId>)

  datatype Step =
    | Deliver(node: NodeId, index: nat, added: bool)
    | Fires(node: NodeId, timer: Event)

  ghost predicate WorldFormed(w: World) {
    BROADCAST !in w.nodes &&
    forall k :: k in w.nodes ==> Inv(w.nodes[k]) && w.nodes[k].id == k && !w.nodes[k].restarted
  }

  /** The event a step is for its node; the sender's MAC address stands for its unique id. */
  function EventOf(w: World, a: Step): Event
    requires a.Deliver? ==> a.index < |w.air|
  {
    if a.Deliver? then Arrives(w.air[a.index], w.air[a.index].source, a.added) else a.timer
  }

  /** A packet goes to its addressee, or to everybody but its sender; no step restarts the node. */
  ghost predicate Possible(w: World, a: Step)
    requires WorldFormed(w)
  {
    && a.node in w.nodes
    && (a.Deliver? ==> a.index < |w.air| && var p := w.air[a.index];
          p.destination == a.node || (p.destination == BROADCAST && p.source != a.node))
    && (a.Fires? ==> !a.timer.Arrives?)
    && Enabled(w.nodes[a.node], EventOf(w, a))
    && !Handle(w.nodes[a.node], EventOf(w, a)).0.restarted
  }

  ghost function Next(w: World, a: Step): (v: World)
    requires WorldFormed(w) && Possible(w, a)
    ensures WorldFormed(v) && v.nodes.Keys == w.nodes.Keys
  {
    var s, e := w.nodes[a.node], EventOf(w, a);
    HandleKeepsInv(s, e);
    HandleEffect(s, e);
    var (t, out) := Handle(s, e);
    World(w.nodes[a.node := t], w.air + out,
          if !HasUplink(s) && HasUplink(t) then w.order + [a.node] else w.order)
  }

  // ----- what one event can change

  predicate FormsUplink(s: Net, e: Event)
    requires WellFormed(s)
  {
    e.LocTimer? && e.choice < |s.responses| && e.joined
  }

  predicate ProposesTo(s: Net, e: Event, c: NodeId)
    requires WellFormed(s)
  {
    e.Arrives? && e.packet.control == Locate && e.packet.source == c && HasUplink(s)
  }

  predicate AcceptsFrom(s: Net, e: Event, c: NodeId)
    requires WellFormed(s)
  {
    e.Arrives? && e.packet.control == Link && e.packet.source == c && s.pending && s.pendingId == c
  }

  /** Everything an event does to the fields the tree depends on. */
  ghost predicate Effect(s: Net, e: Event, t: Net, out: seq<Packet>)
    requires WellFormed(s) && WellFormed(t)
  {
    && t.id == s.id && t.isRoot == s.isRoot
    && (HasUplink(s) ==> SameEntry(t.slots[LINK_UP], s.slots[LINK_UP]))
    && (!HasUplink(s) && HasUplink(t) ==> FormsUplink(s, e) && t.slots[LINK_UP].id == s.responses[e.choice].id)
    && (forall r :: r in t.responses ==>
          r in s.responses || (e.Arrives? && e.packet.control == Link && e.packet.source == r.id))
    && (t.pending ==>
          || (s.pending && t.pendingId == s.pendingId && t.pendingMac == s.pendingMac)
          || (ProposesTo(s, e, t.pendingId) && t.pendingMac == e.mac))
    && (forall i :: 1 <= i < LINK_TABLE_SIZE && t.slots[i].used ==>
          SameEntry(t.slots[i], s.slots[i]) || AcceptsFrom(s, e, t.slots[i].id))
    && (forall p :: p in out ==> p.source == s.id)
    && (forall p :: p in out && p.control == Link ==>
          || ProposesTo(s, e, p.destination)
          || (FormsUplink(s, e) && HasUplink(t) && t.slots[LINK_UP].id == p.destination))
  }

  lemma LocateEffect(s: Net, p: Packet, mac: Mac, added: bool)
    requires Inv(s) && p.control == Locate
    ensures var (t, out) := OnLocate(s, p.source, mac, p.ident, added); Effect(s, Arrives(p, mac, added), t, out)
  {}

  lemma LinkEffect(s: Net, p: Packet, mac: Mac, added: bool)
    requires Inv(s) && p.control == Link
    ensures Effect(s, Arrives(p, mac, added), OnLink(s, p.source, mac, p.ident), [])
  {}

  lemma StatusEffect(s: Net, p: Packet, mac: Mac, added: bool)
    requires Inv(s) && p.control == Status
    ensures var (t, out) := OnStatus(s, p.source); Effect(s, Arrives(p, mac, added), t, out)
  {
    StatusKeepsTable(s, p.source);
  }

  /** A STATUS packet changes flags and timers only, and is answered with nothing but STATUS. */
  lemma StatusKeepsTable(s: Net, src: NodeId)
    requires Inv(s)
    ensures var (t, out) := OnStatus(s, src);
            && t == s.(slots := t.slots, upStatus := t.upStatus, statusTimer := t.statusTimer)
            && (forall i :: 0 <= i < LINK_TABLE_SIZE ==> SameEntry(t.slots[i], s.slots[i]))
            && (out == [] || out == [Packet(s.id, src, Status, 0)])
  {}

  lemma FreezeEffect(s: Net, p: Packet, mac: Mac, added: bool)
    requires Inv(s) && p.control == Freeze && p.source != 0
    ensures Effect(s, Arrives(p, mac, added), OnFreeze(s, p.source), [])
  {
    if s.frozen && IsUpstream(s, p.source) {
      RestartStartsAll(s.slots, 0, s.isRoot);
    }
  }

  /** Packets that are passed on change nothing the tree depends on. */
  lemma PassedOnEffect(s: Net, p: Packet, mac: Mac, added: bool)
    requires Inv(s) && (p.control == Map || p.control == Default || p.control == Blackout)
    ensures var (t, out) := OnPacket(s, p, mac, added); Effect(s, Arrives(p, mac, added), t, out)
  {
    match p.control {
      case Map => DownlinkPackets(s, Map, p.ident, 1);
      case Default => DownlinkPackets(s, Default, 0, 1);
      case Blackout => DownlinkPackets(s, Blackout, 0, 1);
      case _ =>
    }
  }

  lemma PacketEffect(s: Net, p: Packet, mac: Mac, added: bool)
    requires Inv(s) && Enabled(s, Arrives(p, mac, added))
    ensures var (t, out) := OnPacket(s, p, mac, added); Effect(s, Arrives(p, mac, added), t, out)
  {
    match p.control {
      case Locate => LocateEffect(s, p, mac, added);
      case Link => LinkEffect(s, p, mac, added);
      case Status => StatusEffect(s, p, mac, added);
      case Freeze => FreezeEffect(s, p, mac, added);
      case _ => PassedOnEffect(s, p, mac, added);
    }
  }

  lemma {:induction false} DownlinkPackets(s: Net, control: Control, ident: NodeId, i: nat)
    requires WellFormed(s) && 1 <= i <= LINK_TABLE_SIZE
    ensures forall p :: p in ToDownlinks(s, control, ident, i) ==> p.source == s.id && p.control == control
    decreases LINK_TABLE_SIZE - i
  {
    if i < LINK_TABLE_SIZE {
      DownlinkPackets(s, control, ident, i + 1);
    }
  }

  lemma HandleEffect(s: Net, e: Event)
    requires Inv(s) && Enabled(s, e)
    ensures var (t, out) := Handle(s, e); Effect(s, e, t, out)
  {
    match e {
      case Arrives(p, mac, added) => PacketEffect(s, p, mac, added);
      case StatusTimer => DownlinkPackets(s.(statusTimer := false), Blackout, 0, 1);
      case _ =>
    }
  }

  // ----- the order of joining

  /** The position of n in the order, or its length if n has not joined. */
  function Rank(order: seq<NodeId>, n: NodeId): (r: nat)
    ensures r <= |order| && (r < |order| <==> n in order)
    ensures r < |order| ==> order[r] == n
  {
    if order == [] then 0
    else if order[0] == n then 0
    else 1 + Rank(order[1..], n)
  }

  /** Joining moves only the ranks of those who have still not joined. */
  lemma {:induction false} RankSnoc(order: seq<NodeId>, x: NodeId, n: NodeId)
    requires x !in order
    ensures Rank(order + [x], n) == if n in order then Rank(order, n) else if n == x then |order| else |order| + 1
    decreases |order|
  {
    if order != [] {
      assert (order + [x])[1..] == order[1..] + [x];
      if order[0] != n {
        RankSnoc(order[1..], x, n);
      }
    }
  }

  ghost predicate UpIs(w: World, c: NodeId, p: NodeId) {
    c in w.nodes && WellFormed(w.nodes[c]) && !w.nodes[c].isRoot
    && w.nodes[c].slots[LINK_UP].used && w.nodes[c].slots[LINK_UP].id == p
  }

  /** Who has joined, and that everybody heard from and every uplink joined before. */
  ghost predicate TreeInv(w: World) {
    && WorldFormed(w)
    && (forall k :: k in w.order <==> k in w.nodes && HasUplink(w.nodes[k]))
    && (forall c, p :: UpIs(w, c, p) ==> Rank(w.order, p) < Rank(w.order, c))
    && (forall p :: p in w.air ==> p.source in w.nodes)
    && (forall p :: p in w.air && p.control == Link ==> p.source in w.order && p.destination != BROADCAST)
    && (forall k, r :: k in w.nodes && r in w.nodes[k].responses ==> r.id in w.order)
    && (forall k :: k in w.nodes && w.nodes[k].pending ==> w.nodes[k].pendingMac == w.nodes[k].pendingId)
  }

  /** Who sends a new packet, and that a new LINK goes to a node. */
  lemma LinkTarget(w: World, a: Step, p: Packet)
    requires TreeInv(w) && Possible(w, a) && p in Handle(w.nodes[a.node], EventOf(w, a)).1
    ensures p.source == a.node
    ensures p.control == Link ==> p.source in Next(w, a).order && p.destination in w.nodes
  {
    var s, e := w.nodes[a.node], EventOf(w, a);
    HandleEffect(s, e);
    if p.control == Link {
      if ProposesTo(s, e, p.destination) {
        assert e.packet in w.air;
      } else {
        assert s.responses[e.choice] in s.responses;
      }
    }
  }

  lemma UplinkRanked(w: World, a: Step, c: NodeId, p: NodeId)
    requires TreeInv(w) && Possible(w, a) && UpIs(Next(w, a), c, p)
    ensures Rank(Next(w, a).order, p) < Rank(Next(w, a).order, c)
  {
    var s, e, v := w.nodes[a.node], EventOf(w, a), Next(w, a);
    HandleEffect(s, e);
    if v.order == w.order {
      assert UpIs(w, c, p);
    } else {
      assert a.node !in w.order;
      RankSnoc(w.order, a.node, c);
      RankSnoc(w.order, a.node, p);
      if c == a.node {
        assert s.responses[e.choice] in s.responses;
      } else {
        assert UpIs(w, c, p);
      }
    }
  }

  lemma ResponseHasJoined(w: World, a: Step, k: NodeId, r: Peer)
    requires TreeInv(w) && Possible(w, a) && k in w.nodes && r in Next(w, a).nodes[k].responses
    ensures r.id in Next(w, a).order
  {
    var s, e := w.nodes[a.node], EventOf(w, a);
    HandleEffect(s, e);
    if k == a.node && r !in s.responses {
      assert e.packet in w.air;
    }
  }

  lemma SendersKnown(w: World, a: Step, p: Packet)
    requires TreeInv(w) && Possible(w, a) && p in Next(w, a).air
    ensures var v := Next(w, a);
            p.source in v.nodes && (p.control == Link ==> p.source in v.order && p.destination != BROADCAST)
  {
    if p in Handle(w.nodes[a.node], EventOf(w, a)).1 {
      LinkTarget(w, a, p);
    }
  }

  lemma OrderIsJoined(w: World, a: Step, k: NodeId)
    requires TreeInv(w) && Possible(w, a)
    ensures var v := Next(w, a);
            && (k in v.order <==> k in v.nodes && HasUplink(v.nodes[k]))
            && (k in v.nodes && v.nodes[k].pending ==> v.nodes[k].pendingMac == v.nodes[k].pendingId)
  {
    HandleEffect(w.nodes[a.node], EventOf(w, a));
  }

  /** Every step keeps the tree. */
  lemma NextKeepsTree(w: World, a: Step)
    requires TreeInv(w) && Possible(w, a)
    ensures TreeInv(Next(w, a))
  {
    var v := Next(w, a);
    forall k
      ensures k in v.order <==> k in v.nodes && HasUplink(v.nodes[k])
      ensures k in v.nodes && v.nodes[k].pending ==> v.nodes[k].pendingMac == v.nodes[k].pendingId
    {
      OrderIsJoined(w, a, k);
    }
    forall c, p | UpIs(v, c, p)
      ensures Rank(v.order, p) < Rank(v.order, c)
    {
      UplinkRanked(w, a, c, p);
    }
    forall p | p in v.air
      ensures p.source in v.nodes
      ensures p.control == Link ==> p.source in v.order && p.destination != BROADCAST
    {
      SendersKnown(w, a, p);
    }
    forall k, r | k in v.nodes && r in v.nodes[k].responses
      ensures r.id in v.order
    {
      ResponseHasJoined(w, a, k, r);
    }
  }

  /** net_init on every node: the roots have joined, nothing has been sent. */
  ghost predicate Start(w: World) {
    && (forall k :: k in w.nodes ==> k != 0 && exists ident :: w.nodes[k] == Init(k, w.nodes[k].isRoot, ident))
    && w.air == [] && BROADCAST !in w.nodes
    && (forall k :: k in w.order <==> k in w.nodes && w.nodes[k].isRoot)
  }

  lemma StartTree(w: World)
    requires Start(w)
    ensures TreeInv(w)
  {
    forall k | k in w.nodes
      ensures Inv(w.nodes[k]) && w.nodes[k].id == k && !w.nodes[k].restarted && w.nodes[k].responses == []
      ensures HasUplink(w.nodes[k]) <==> w.nodes[k].isRoot
    {
      var ident :| w.nodes[k] == Init(k, w.nodes[k].isRoot, ident);
      InitInv(k, w.nodes[k].isRoot, ident);
    }
  }

  ghost predicate LegalRun(w: World, run: seq<Step>)
    requires WorldFormed(w)
    decreases |run|
  {
    run != [] ==> Possible(w, run[0]) && LegalRun(Next(w, run[0]), run[1..])
  }

  ghost function Final(w: World, run: seq<Step>): World
    requires WorldFormed(w) && LegalRun(w, run)
    decreases |run|
  {
    if run == [] then w else Final(Next(w, run[0]), run[1..])
  }

  lemma {:induction false} RunKeepsTree(w: World, run: seq<Step>)
    requires TreeInv(w) && LegalRun(w, run)
    ensures TreeInv(Final(w, run))
    decreases |run|
  {
    if run != [] {
      NextKeepsTree(w, run[0]);
      RunKeepsTree(Next(w, run[0]), run[1..]);
    }
  }

  /** Each node of the path has the next one as its uplink. */
  ghost predicate UpPath(w: World, path: seq<NodeId>) {
    forall i :: 0 <= i < |path| - 1 ==> UpIs(w, path[i], path[i + 1])
  }

  /** Up-links never lead back: no path of one or more uplinks returns to its start. */
  lemma {:induction false} UplinksAcyclic(w: World, path: seq<NodeId>)
    requires TreeInv(w) && |path| >= 2 && UpPath(w, path)
    ensures Rank(w.order, path[|path| - 1]) < Rank(w.order, path[0])
    ensures path[0] != path[|path| - 1]
    decreases |path|
  {
    var n := |path| - 1;
    assert UpIs(w, path[n - 1], path[n]);
    if n > 1 {
      assert UpPath(w, path[..n]);
      UplinksAcyclic(w, path[..n]);
    }
  }

  /** The path follows up-links and ends at a root. */
  ghost predicate EndsAtRoot(w: World, path: seq<NodeId>) {
    path != [] && UpPath(w, path)
    && path[|path| - 1] in w.nodes && w.nodes[path[|path| - 1]].isRoot
  }

  /** Following the uplinks from any node that has joined ends at a root. */
  lemma {:induction false} UplinksReachRoot(w: World, c: NodeId) returns (path: seq<NodeId>)
    requires TreeInv(w) && c in w.order
    ensures path != [] && path[0] == c && EndsAtRoot(w, path)
    decreases Rank(w.order, c)
  {
    if w.nodes[c].isRoot {
      path := [c];
    } else {
      var p := w.nodes[c].slots[LINK_UP].id;
      assert UpIs(w, c, p);
      var rest := UplinksReachRoot(w, p);
      path := [c] + rest;
    }
  }

  /** From net_init on: in every run the up-links form trees below the roots. */
  lemma UplinksFormTrees(w: World, run: seq<Step>, path: seq<NodeId>)
    requires Start(w) && WorldFormed(w) && LegalRun(w, run)
    requires |path| >= 2 && UpPath(Final(w, run), path)
    ensures path[0] != path[|path| - 1]
    ensures exists on: seq<NodeId> :: on != [] && on[0] == path[0] && EndsAtRoot(Final(w, run), on)
  {
    var v := Final(w, run);
    StartTree(w);
    RunKeepsTree(w, run);
    UplinksAcyclic(v, path);
    assert UpIs(v, path[0], path[1]);
    var on := UplinksReachRoot(v, path[0]);
    assert EndsAtRoot(v, on);
  }

  // ----- downlinks

  /** Every downlink entry is backed: the child's uplink is this node. */
  ghost predicate Backed(w: World) {
    forall p, i :: p in w.nodes && WellFormed(w.nodes[p]) && 1 <= i < LINK_TABLE_SIZE && w.nodes[p].slots[i].used
      ==> UpIs(w, w.nodes[p].slots[i].id, p)
  }

  /**
   * Every LINK packet is from a node whose uplink is the addressee, or from one that joined
   * before the addressee; and a node proposes only to nodes that join after it.
   */
  ghost predicate LinkInv(w: World) {
    && (forall q :: q in w.air && q.control == Link ==>
          UpIs(w, q.source, q.destination) || Rank(w.order, q.source) < Rank(w.order, q.destination))
    && (forall p :: p in w.nodes && w.nodes[p].pending ==> Rank(w.order, p) < Rank(w.order, w.nodes[p].pendingId))
  }

  /** A LOCATE is answered only while its sender still has no uplink. */
  ghost predicate Fresh(w: World, a: Step)
    requires WorldFormed(w) && Possible(w, a)
  {
    a.Deliver? && w.air[a.index].control == Locate ==> w.air[a.index].source !in w.order
  }

  lemma UpIsKept(w: World, a: Step, c: NodeId, p: NodeId)
    requires TreeInv(w) && Possible(w, a) && UpIs(w, c, p)
    ensures UpIs(Next(w, a), c, p)
  {
    if c == a.node {
      HandleEffect(w.nodes[a.node], EventOf(w, a));
    }
  }

  /** Ranks keep their order when a node joins. */
  lemma RankKept(w: World, a: Step, x: NodeId, y: NodeId)
    requires TreeInv(w) && Possible(w, a) && Rank(w.order, x) < Rank(w.order, y)
    ensures Rank(Next(w, a).order, x) < Rank(Next(w, a).order, y)
  {
    if Next(w, a).order != w.order {
      assert a.node !in w.order;
      RankSnoc(w.order, a.node, x);
      RankSnoc(w.order, a.node, y);
    }
  }

  /** Who is proposed to in a fresh step joins later. */
  lemma FreshProposal(w: World, a: Step, c: NodeId)
    requires TreeInv(w) && Possible(w, a) && Fresh(w, a) && ProposesTo(w.nodes[a.node], EventOf(w, a), c)
    ensures Rank(Next(w, a).order, a.node) < Rank(Next(w, a).order, c)
  {
    RankKept(w, a, a.node, c);
  }

  lemma FreshStepKeepsLinks(w: World, a: Step, q: Packet)
    requires TreeInv(w) && LinkInv(w) && Possible(w, a) && Fresh(w, a)
    requires q in Next(w, a).air && q.control == Link
    ensures var v := Next(w, a);
            UpIs(v, q.source, q.destination) || Rank(v.order, q.source) < Rank(v.order, q.destination)
  {
    var s, e := w.nodes[a.node], EventOf(w, a);
    HandleEffect(s, e);
    if q in w.air {
      if UpIs(w, q.source, q.destination) {
        UpIsKept(w, a, q.source, q.destination);
      } else {
        RankKept(w, a, q.source, q.destination);
      }
    } else {
      assert q in Handle(s, e).1;
      if ProposesTo(s, e, q.destination) {
        FreshProposal(w, a, q.destination);
      }
    }
  }

  lemma FreshStepKeepsPending(w: World, a: Step, p: NodeId)
    requires TreeInv(w) && LinkInv(w) && Possible(w, a) && Fresh(w, a)
    requires p in w.nodes && Next(w, a).nodes[p].pending
    ensures Rank(Next(w, a).order, p) < Rank(Next(w, a).order, Next(w, a).nodes[p].pendingId)
  {
    var s, e, c := w.nodes[a.node], EventOf(w, a), Next(w, a).nodes[p].pendingId;
    HandleEffect(s, e);
    if p == a.node && ProposesTo(s, e, c) {
      FreshProposal(w, a, c);
    } else {
      RankKept(w, a, p, c);
    }
  }

  lemma FreshStepKeepsLinkInv(w: World, a: Step)
    requires TreeInv(w) && LinkInv(w) && Possible(w, a) && Fresh(w, a)
    ensures LinkInv(Next(w, a))
  {
    var v := Next(w, a);
    forall q | q in v.air && q.control == Link
      ensures UpIs(v, q.source, q.destination) || Rank(v.order, q.source) < Rank(v.order, q.destination)
    {
      FreshStepKeepsLinks(w, a, q);
    }
    forall p | p in v.nodes && v.nodes[p].pending
      ensures Rank(v.order, p) < Rank(v.order, v.nodes[p].pendingId)
    {
      FreshStepKeepsPending(w, a, p);
    }
  }

  /** The step makes a node take the sender of a LINK as its child. */
  ghost predicate TakesChild(w: World, a: Step)
    requires WorldFormed(w) && Possible(w, a)
  {
    a.Deliver? && !w.nodes[a.node].frozen && AcceptsFrom(w.nodes[a.node], EventOf(w, a), w.air[a.index].source)
  }

  /**
   * A step from a backed state leads to a backed state if and only if it does not take a
   * child whose uplink is another node.
   */
  lemma StepBackedIff(w: World, a: Step)
    requires TreeInv(w) && Backed(w) && Possible(w, a)
    ensures Backed(Next(w, a)) <==> (TakesChild(w, a) ==> UpIs(w, w.air[a.index].source, a.node))
  {
    var s, e, v := w.nodes[a.node], EventOf(w, a), Next(w, a);
    HandleEffect(s, e);
    var t := v.nodes[a.node];
    if TakesChild(w, a) {
      var x := FreeFrom(s.slots, 1);
      var c := w.air[a.index].source;
      ProposalReservesCapacity(s, e.packet.ident);
      assert t.slots[x].used && t.slots[x].id == c;
      if UpIs(v, c, a.node) && c == a.node {
        assert UpIs(w, c, a.node);
      }
    }
    if TakesChild(w, a) ==> UpIs(w, w.air[a.index].source, a.node) {
      forall p, i | p in v.nodes && 1 <= i < LINK_TABLE_SIZE && v.nodes[p].slots[i].used
        ensures UpIs(v, v.nodes[p].slots[i].id, p)
      {
        DownlinkStaysBacked(w, a, p, i);
      }
    }
  }

  lemma DownlinkStaysBacked(w: World, a: Step, p: NodeId, i: nat)
    requires TreeInv(w) && Backed(w) && Possible(w, a)
    requires TakesChild(w, a) ==> UpIs(w, w.air[a.index].source, a.node)
    requires p in w.nodes && 1 <= i < LINK_TABLE_SIZE && Next(w, a).nodes[p].slots[i].used
    ensures UpIs(Next(w, a), Next(w, a).nodes[p].slots[i].id, p)
  {
    var s, e, c := w.nodes[a.node], EventOf(w, a), Next(w, a).nodes[p].slots[i].id;
    HandleEffect(s, e);
    if s.frozen && p == a.node {
      FrozenTableIsFixed(s, e, i);
    }
    UpIsKept(w, a, c, p);
  }

  /** The step confirms a child that has chosen another uplink. */
  ghost predicate TakesStranger(w: World, a: Step)
    requires WorldFormed(w) && Possible(w, a)
  {
    TakesChild(w, a) && !UpIs(w, w.air[a.index].source, a.node)
  }

  /** Links agree at both ends now and after every further step. */
  ghost predicate AlwaysBacked(w: World, run: seq<Step>)
    requires WorldFormed(w) && LegalRun(w, run)
    decreases |run|
  {
    Backed(w) && (run != [] ==> AlwaysBacked(Next(w, run[0]), run[1..]))
  }

  ghost predicate NeverTakesStranger(w: World, run: seq<Step>)
    requires WorldFormed(w) && LegalRun(w, run)
    decreases |run|
  {
    run != [] ==> !TakesStranger(w, run[0]) && NeverTakesStranger(Next(w, run[0]), run[1..])
  }

  /** Over whole runs: links agree throughout if and only if no child is taken that chose another uplink. */
  lemma {:induction false} RunBackedIff(w: World, run: seq<Step>)
    requires TreeInv(w) && Backed(w) && LegalRun(w, run)
    ensures AlwaysBacked(w, run) <==> NeverTakesStranger(w, run)
    decreases |run|
  {
    if run != [] {
      NextKeepsTree(w, run[0]);
      StepBackedIff(w, run[0]);
      if Backed(Next(w, run[0])) {
        RunBackedIff(Next(w, run[0]), run[1..]);
      }
    }
  }

  /** In a fresh run every child that is taken has chosen this node, so the links agree at both ends. */
  ghost predicate FreshRun(w: World, run: seq<Step>)
    requires WorldFormed(w) && LegalRun(w, run)
    decreases |run|
  {
    run != [] ==> Fresh(w, run[0]) && FreshRun(Next(w, run[0]), run[1..])
  }

  lemma FreshStepKeepsBacked(w: World, a: Step)
    requires TreeInv(w) && LinkInv(w) && Backed(w) && Possible(w, a)
    ensures Backed(Next(w, a))
  {
    if TakesChild(w, a) {
      var q := w.air[a.index];
      assert q in w.air && q.control == Link && q.destination == a.node;
      assert w.nodes[a.node].pendingId == q.source;
    }
    StepBackedIff(w, a);
  }

  lemma {:induction false} FreshRunIsBacked(w: World, run: seq<Step>)
    requires TreeInv(w) && LinkInv(w) && Backed(w) && LegalRun(w, run) && FreshRun(w, run)
    ensures Backed(Final(w, run))
    decreases |run|
  {
    if run != [] {
      NextKeepsTree(w, run[0]);
      FreshStepKeepsLinkInv(w, run[0]);
      FreshStepKeepsBacked(w, run[0]);
      FreshRunIsBacked(Next(w, run[0]), run[1..]);
    }
  }

  lemma StartBacked(w: World)
    requires Start(w)
    ensures TreeInv(w) && LinkInv(w) && Backed(w)
  {
    StartTree(w);
    forall k | k in w.nodes
      ensures !w.nodes[k].pending && forall i :: 1 <= i < LINK_TABLE_SIZE ==> !w.nodes[k].slots[i].used
    {
      var ident :| w.nodes[k] == Init(k, w.nodes[k].isRoot, ident);
    }
  }

  /** From net_init on: links agree throughout exactly if no child is taken that chose another uplink. */
  lemma LinksAgreeIff(w: World, run: seq<Step>)
    requires Start(w) && WorldFormed(w) && LegalRun(w, run)
    ensures AlwaysBacked(w, run) <==> NeverTakesStranger(w, run)
  {
    StartBacked(w);
    RunBackedIff(w, run);
  }

  /** From net_init on: in every fresh run all links agree at both ends. */
  lemma LinksAgree(w: World, run: seq<Step>)
    requires Start(w) && WorldFormed(w) && LegalRun(w, run) && FreshRun(w, run)
    ensures Backed(Final(w, run))
  {
    StartBacked(w);
    FreshRunIsBacked(w, run);
  }
}
