/**
 * What each packet and each timer of the link layer is answered with and leaves running: who
 * receives what, and which nodes never get stuck.
 */
module LinkLaws {
  import opened LinkLayer

  // ----- who receives what

  /** The entries from lo on in use for a node. */
  ghost function EntriesFor(slots: seq<Slot>, id: NodeId, lo: nat): set<nat> {
    set i: nat | lo <= i < |slots| && slots[i].used && slots[i].id == id
  }

  /** Each down-stream link gets exactly one such packet, and nobody else gets any. */
  ghost predicate GoesDown(s: Net, out: seq<Packet>, control: Control, ident: NodeId) {
    && (forall p :: p in out ==> p == Packet(s.id, p.destination, control, ident))
    && forall d: NodeId :: Copies(out, Packet(s.id, d, control, ident)) == |EntriesFor(s.slots, d, 1)|
  }

  ghost function Copies(out: seq<Packet>, p: Packet): nat {
    multiset(out)[p]
  }

  /** Only the up-stream node gets a packet. */
  ghost predicate GoesUp(s: Net, out: seq<Packet>, control: Control, ident: NodeId)
    requires WellFormed(s)
  {
    out == [Packet(s.id, s.slots[LINK_UP].id, control, ident)]
  }

  lemma EntriesNext(slots: seq<Slot>, id: NodeId, i: nat)
    requires i < |slots|
    ensures |EntriesFor(slots, id, i)|
            == |EntriesFor(slots, id, i + 1)| + if slots[i].used && slots[i].id == id then 1 else 0
  {
    if slots[i].used && slots[i].id == id {
      assert EntriesFor(slots, id, i) == {i} + EntriesFor(slots, id, i + 1);
    } else {
      assert EntriesFor(slots, id, i) == EntriesFor(slots, id, i + 1);
    }
  }

  lemma {:induction false} OnceEach(s: Net, control: Control, ident: NodeId, i: nat, d: NodeId)
    requires WellFormed(s) && 1 <= i <= LINK_TABLE_SIZE
    ensures var out := ToDownlinks(s, control, ident, i);
            && (forall p :: p in out ==> p == Packet(s.id, p.destination, control, ident))
            && Copies(out, Packet(s.id, d, control, ident)) == |EntriesFor(s.slots, d, i)|
    decreases LINK_TABLE_SIZE - i
  {
    if i == LINK_TABLE_SIZE {
      assert EntriesFor(s.slots, d, i) == {};
    } else {
      OnceEach(s, control, ident, i + 1, d);
      EntriesNext(s.slots, d, i);
      var rest := ToDownlinks(s, control, ident, i + 1);
      if s.slots[i].used {
        assert multiset([Packet(s.id, s.slots[i].id, control, ident)] + rest)
            == multiset{Packet(s.id, s.slots[i].id, control, ident)} + multiset(rest);
      } else {
        assert [] + rest == rest;
      }
    }
  }

  /** Forwarding to the downlinks reaches each of them once. */
  lemma DownlinksOnce(s: Net, control: Control, ident: NodeId)
    requires WellFormed(s)
    ensures GoesDown(s, ToDownlinks(s, control, ident, 1), control, ident)
  {
    forall d: NodeId
      ensures Copies(ToDownlinks(s, control, ident, 1), Packet(s.id, d, control, ident)) == |EntriesFor(s.slots, d, 1)|
    {
      OnceEach(s, control, ident, 1, d);
    }
    OnceEach(s, control, ident, 1, 0);
  }

  lemma GoesDownAs(s: Net, out: seq<Packet>, control: Control, ident: NodeId)
    requires WellFormed(s) && out == ToDownlinks(s, control, ident, 1)
    ensures GoesDown(s, out, control, ident)
  {
    DownlinksOnce(s, control, ident);
  }

  /**
   * MAP: from above it is answered and goes on to every downlink; from below it goes on up, except
   * at the root; from a stranger it goes nowhere.
   */
  lemma MapReaches(s: Net, p: Packet, mac: Mac, added: bool)
    requires Inv(s) && p.control == Map && Enabled(s, Arrives(p, mac, added))
    ensures var (t, out) := Handle(s, Arrives(p, mac, added));
            && t == s
            && (IsUpstream(s, p.source) ==>
                  && out != [] && out[0] == Packet(s.id, p.source, Map, s.id)
                  && GoesDown(s, out[1..], Map, p.ident))
            && (!IsUpstream(s, p.source) && IsDownstream(s, p.source) && !s.isRoot ==> GoesUp(s, out, Map, p.ident))
            && (!IsUpstream(s, p.source) && (!IsDownstream(s, p.source) || s.isRoot) ==> out == [])
  {
    var out := Handle(s, Arrives(p, mac, added)).1;
    assert out == OnMap(s, p.source, p.ident);
    if IsUpstream(s, p.source) {
      assert out[1..] == ToDownlinks(s, Map, p.ident, 1);
      GoesDownAs(s, out[1..], Map, p.ident);
    }
  }

  /** DEFAULT without an application: down what comes from above, up what comes from below. */
  lemma DefaultReaches(s: Net, p: Packet, mac: Mac, added: bool)
    requires Inv(s) && p.control == Default && Enabled(s, Arrives(p, mac, added))
    ensures var (t, out) := Handle(s, Arrives(p, mac, added));
            && t == s
            && (IsUpstream(s, p.source) ==> GoesDown(s, out, Default, 0))
            && (!IsUpstream(s, p.source) && IsDownstream(s, p.source) && !s.isRoot ==> GoesUp(s, out, Default, 0))
            && (!IsUpstream(s, p.source) && (!IsDownstream(s, p.source) || s.isRoot) ==> out == [])
  {
    var out := Handle(s, Arrives(p, mac, added)).1;
    assert out == OnDefault(s, p.source);
    if IsUpstream(s, p.source) {
      GoesDownAs(s, out, Default, 0);
    }
  }

  /** BLACKOUT: obeyed exactly from above by a node that is not frozen, and then passed on to every downlink. */
  lemma BlackoutReaches(s: Net, p: Packet, mac: Mac, added: bool)
    requires Inv(s) && p.control == Blackout && Enabled(s, Arrives(p, mac, added))
    ensures var (t, out) := Handle(s, Arrives(p, mac, added));
            && (t.restarted <==> IsUpstream(s, p.source) && !s.frozen)
            && (t.restarted ==> GoesDown(s, out, Blackout, 0))
            && (!t.restarted ==> t == s && out == [])
  {
    if IsUpstream(s, p.source) && !s.frozen {
      GoesDownAs(s, Handle(s, Arrives(p, mac, added)).1, Blackout, 0);
    }
  }

  /** A STATUS request that stays unanswered ends in a blackout of the whole subtree. */
  lemma UnansweredEndsInBlackout(s: Net)
    requires Inv(s) && Enabled(s, StatusTimer)
    ensures var (t, out) := Handle(s, StatusTimer); t.restarted && GoesDown(s, out, Blackout, 0)
  {
    DownlinksOnce(s.(statusTimer := false), Blackout, 0);
  }

  /** STATUS from below is answered unless the node is frozen; from a stranger it is not. */
  lemma StatusAnsweredIff(s: Net, p: Packet, mac: Mac, added: bool)
    requires Inv(s) && p.control == Status && Enabled(s, Arrives(p, mac, added)) && !IsUpstream(s, p.source)
    ensures var (t, out) := Handle(s, Arrives(p, mac, added));
            && t == s
            && out == if IsDownstream(s, p.source) && !s.frozen then [Packet(s.id, p.source, Status, 0)] else []
  {
    var x := EntryFrom(s.slots, p.source, 0);
    if IsDownstream(s, p.source) {
      var i :| 1 <= i < LINK_TABLE_SIZE && s.slots[i].used && s.slots[i].id == p.source;
      assert x <= i;
      assert s.slots[x := s.slots[x].(armed := s.slots[x].armed)] == s.slots;
    }
  }

  /** Any STATUS from above counts as the answer. */
  lemma AnswerEndsWait(s: Net, p: Packet, mac: Mac, added: bool)
    requires Inv(s) && p.control == Status && Enabled(s, Arrives(p, mac, added)) && IsUpstream(s, p.source)
    ensures var t := Handle(s, Arrives(p, mac, added)).0; !t.statusTimer && !t.upStatus
  {}

  /** FREEZE from above toggles: no timer of a link runs while frozen, every one of them afterwards. */
  lemma FreezeToggles(s: Net, p: Packet, mac: Mac, added: bool)
    requires Inv(s) && p.control == Freeze && Enabled(s, Arrives(p, mac, added))
    ensures var (t, out) := Handle(s, Arrives(p, mac, added));
            && out == []
            && (if IsUpstream(s, p.source) then t.frozen == !s.frozen else t == s)
            && (IsUpstream(s, p.source) ==> forall i :: 0 <= i < LINK_TABLE_SIZE ==>
                  SameEntry(s.slots[i], t.slots[i]) && (t.slots[i].armed <==> t.slots[i].used && !t.frozen))
            && (t.frozen ==> !t.statusTimer && !t.upStatus)
  {
    if IsUpstream(s, p.source) && s.frozen {
      RestartStartsAll(s.slots, 0, s.isRoot);
    }
  }

  /** A node can propose a link. */
  predicate CanPropose(s: Net)
    requires WellFormed(s)
  {
    !s.frozen && !s.pending && HasUplink(s) && exists i :: 1 <= i < LINK_TABLE_SIZE && !s.slots[i].used
  }

  /**
   * LOCATE gets a LINK with its own identification exactly from a node that can propose, if its
   * sender can be added as a peer; the proposal is recorded either way, but timed only if sent.
   */
  lemma LocateAnsweredIff(s: Net, p: Packet, mac: Mac, added: bool)
    requires Inv(s) && p.control == Locate && Enabled(s, Arrives(p, mac, added))
    ensures var (t, out) := Handle(s, Arrives(p, mac, added));
            && out == (if CanPropose(s) && added then [Packet(s.id, p.source, Link, p.ident)] else [])
            && (CanPropose(s) ==>
                  t == s.(pending := true, pendingTimer := added, pendingId := p.source, pendingMac := mac))
            && (!CanPropose(s) ==> t == s)
  {
    if HasFreeDownlink(s) {
      var x := FreeFrom(s.slots, 1);
      assert !s.slots[x].used;
    }
  }

  /** A proposal is heard: it answers the running search and there is room for it. */
  predicate Hears(s: Net, p: Packet)
    requires WellFormed(s)
  {
    !s.frozen && s.locating && p.ident == s.locIdent && |s.responses| < LOCATE_SIZE
  }

  /** The addressee of the own proposal accepts it. */
  predicate Confirms(s: Net, p: Packet, mac: Mac) {
    !s.frozen && s.pending && mac == s.pendingMac && p.source == s.pendingId
  }

  /** LINK is either heard, or confirms the own proposal and makes its sender a child, or changes nothing. */
  lemma LinkTaken(s: Net, p: Packet, mac: Mac, added: bool)
    requires Inv(s) && p.control == Link && Enabled(s, Arrives(p, mac, added))
    ensures var (t, out) := Handle(s, Arrives(p, mac, added));
            && out == [] && !(Hears(s, p) && Confirms(s, p, mac))
            && (Hears(s, p) ==> t == s.(responses := s.responses + [Peer(p.source, mac)]))
            && (Confirms(s, p, mac) ==> IsDownstream(t, p.source) && !t.pending && !t.pendingTimer)
            && (!Hears(s, p) && !Confirms(s, p, mac) ==> t == s)
  {
    if Confirms(s, p, mac) {
      var x := FreeFrom(s.slots, 1);
      ProposalReservesCapacity(s, p.ident);
      assert OnLink(s, p.source, mac, p.ident).slots[x].used;
    }
  }

  /** A decayed link is removed, it alone, and its entry can be used again. */
  lemma DecayFrees(s: Net, x: nat, d: NodeId)
    requires Inv(s) && Enabled(s, DownstreamTimer(x))
    ensures var (t, out) := Handle(s, DownstreamTimer(x));
            && out == [] && EntriesFor(t.slots, d, 1) == EntriesFor(s.slots, d, 1) - {x}
            && t == s.(slots := t.slots) && t.slots == s.slots[x := t.slots[x]]
            && HasFreeDownlink(t) && !t.slots[x].armed
  {
    var t := OnDownstreamTimer(s, x);
    assert !t.slots[x].used;
    assert FreeFrom(t.slots, 1) <= x;
  }

  /** The upstream timer asks above and waits for the answer. */
  lemma AsksAbove(s: Net)
    requires Inv(s) && Enabled(s, UpstreamTimer)
    ensures var (t, out) := Handle(s, UpstreamTimer);
            && GoesUp(s, out, Status, 0) && t.statusTimer && t.upStatus
            && (t.slots[LINK_UP].armed <==> !s.statusTimer)
  {}

  /** The join timer starts a new search, with an identification that differs from the last one. */
  lemma AsksEverybody(s: Net)
    requires Inv(s) && Enabled(s, JoinTimer)
    ensures var (t, out) := Handle(s, JoinTimer);
            && out == [Packet(s.id, BROADCAST, Locate, t.locIdent)] && t.locIdent != s.locIdent
            && t.locating && t.locTimer && !t.joinTimer && t.responses == []
  {}

  /** At its end the search starts anew if nobody answered; otherwise the chosen node becomes the uplink and is told. */
  lemma SearchEnds(s: Net, choice: nat)
    requires Inv(s) && Enabled(s, LocTimer(choice, true))
    ensures var (t, out) := Handle(s, LocTimer(choice, true));
            && !t.locating && !t.locTimer && t.responses == []
            && (s.responses == [] ==> out == [] && t.joinTimer && !HasUplink(t))
            && (s.responses != [] ==>
                  && var r := s.responses[choice];
                  && t.slots[LINK_UP] == Slot(true, r.id, r.mac, true) && !t.joinTimer
                  && out == [Packet(s.id, r.id, Link, s.locIdent)])
  {}

  /** Until its timer fires a search goes on, and forgets no response. */
  lemma SearchGoesOn(s: Net, e: Event)
    requires Inv(s) && Enabled(s, e) && s.locating && !e.LocTimer?
    ensures var t := Handle(s, e).0; t.locating && t.locIdent == s.locIdent && s.responses <= t.responses
  {}

  // ----- nothing gets stuck

  /**
   * Every proposal is timed, a node without uplink goes on trying to join, and one with an uplink
   * goes on checking it.
   */
  predicate Lively(s: Net)
    requires WellFormed(s)
  {
    && (s.pending <==> s.pendingTimer)
    && (HasUplink(s) || s.joinTimer || s.locTimer)
    && (HasUplink(s) && !s.isRoot && !s.frozen ==> s.slots[LINK_UP].armed)
    && (s.upStatus && !s.restarted ==> s.statusTimer)
  }

  /**
   * The three ways out: esp_now_add_peer fails for a proposal or for the chosen uplink, or the
   * upstream timer fires while its last request is still unanswered.
   */
  predicate Stalls(s: Net, e: Event)
    requires WellFormed(s)
  {
    match e
    case Arrives(p, _, added) => p.control == Locate && CanPropose(s) && !added
    case LocTimer(_, joined) => s.responses != [] && !joined
    case UpstreamTimer => s.statusTimer
    case _ => false
  }

  /** After net_init only the join timer runs, and at the root no timer at all. */
  lemma InitAwaitsJoin(id: NodeId, isRoot: bool, ident: NodeId, e: Event)
    requires id != 0 && !e.Arrives?
    ensures Enabled(Init(id, isRoot, ident), e) <==> e.JoinTimer? && !isRoot
  {}

  lemma InitLively(id: NodeId, isRoot: bool, ident: NodeId)
    requires id != 0
    ensures Lively(Init(id, isRoot, ident))
  {}

  lemma PacketLivelyIff(s: Net, p: Packet, mac: Mac, added: bool)
    requires Inv(s) && Lively(s) && Enabled(s, Arrives(p, mac, added))
    ensures Lively(OnPacket(s, p, mac, added).0) <==> !Stalls(s, Arrives(p, mac, added))
  {
    match p.control {
      case Locate =>
        if HasFreeDownlink(s) {
          var x := FreeFrom(s.slots, 1);
          assert !s.slots[x].used;
        }
      case Freeze =>
        if IsUpstream(s, p.source) && s.frozen {
          RestartStartsAll(s.slots, 0, s.isRoot);
        }
      case _ =>
    }
  }

  /** A step from a lively state leads to one exactly if it does not stall. */
  lemma StepLivelyIff(s: Net, e: Event)
    requires Inv(s) && Lively(s) && Enabled(s, e)
    ensures Lively(Handle(s, e).0) <==> !Stalls(s, e)
  {
    if e.Arrives? {
      PacketLivelyIff(s, e.packet, e.mac, e.added);
    }
  }

  /** Lively now and after every further event. */
  ghost predicate AlwaysLively(s: Net, events: seq<Event>)
    requires WellFormed(s) && Legal(s, events)
    decreases |events|
  {
    Lively(s) && (events != [] ==> AlwaysLively(Handle(s, events[0]).0, events[1..]))
  }

  ghost predicate NeverStalls(s: Net, events: seq<Event>)
    requires WellFormed(s) && Legal(s, events)
    decreases |events|
  {
    events != [] ==> !Stalls(s, events[0]) && NeverStalls(Handle(s, events[0]).0, events[1..])
  }

  lemma {:induction false} RunLivelyIff(s: Net, events: seq<Event>)
    requires Inv(s) && Lively(s) && Legal(s, events)
    ensures AlwaysLively(s, events) <==> NeverStalls(s, events)
    decreases |events|
  {
    if events != [] {
      var t := Handle(s, events[0]).0;
      HandleKeepsInv(s, events[0]);
      StepLivelyIff(s, events[0]);
      if Lively(t) {
        RunLivelyIff(t, events[1..]);
      }
    }
  }

  /** From net_init on a node stays lively throughout exactly if no event stalls. */
  lemma LivelyIff(id: NodeId, isRoot: bool, ident: NodeId, events: seq<Event>)
    requires id != 0 && Legal(Init(id, isRoot, ident), events)
    ensures AlwaysLively(Init(id, isRoot, ident), events) <==> NeverStalls(Init(id, isRoot, ident), events)
  {
    InitInv(id, isRoot, ident);
    InitLively(id, isRoot, ident);
    RunLivelyIff(Init(id, isRoot, ident), events);
  }

  // ----- proposals end

  predicate IsLocate(e: Event) {
    e.Arrives? && e.packet.control == Locate
  }

  /** Only a LOCATE makes a node propose, and nothing takes its uplink. */
  lemma OnlyLocateProposes(s: Net, e: Event)
    requires Inv(s) && Enabled(s, e) && !IsLocate(e)
    ensures var t := Handle(s, e).0; (t.pending ==> s.pending) && (HasUplink(s) ==> HasUplink(t))
  {
    if HasUplink(s) {
      UplinkIsKept(s, e);
    }
  }

  ghost predicate NoLocate(events: seq<Event>) {
    forall i :: 0 <= i < |events| ==> !IsLocate(events[i])
  }

  lemma {:induction false} StaysUnproposed(s: Net, events: seq<Event>)
    requires Inv(s) && !s.pending && HasUplink(s) && Legal(s, events) && NoLocate(events)
    ensures var t := After(s, events); Inv(t) && !t.pending && HasUplink(t)
    decreases |events|
  {
    if events != [] {
      assert !IsLocate(events[0]);
      OnlyLocateProposes(s, events[0]);
      HandleKeepsInv(s, events[0]);
      StaysUnproposed(Handle(s, events[0]).0, events[1..]);
    }
  }

  /**
   * Once the timer of a proposal has fired, the next LOCATE, whatever happens in between, gets a
   * LINK again if the node is not frozen and has a free downlink.
   */
  lemma ProposesAgain(s: Net, events: seq<Event>, p: Packet, mac: Mac)
    requires Inv(s) && Enabled(s, PendingTimer) && Legal(Handle(s, PendingTimer).0, events) && NoLocate(events)
    requires p.control == Locate && p.source != 0
    ensures var t := After(Handle(s, PendingTimer).0, events);
            Enabled(t, Arrives(p, mac, true)) && !t.frozen && HasFreeDownlink(t) ==>
              Handle(t, Arrives(p, mac, true)).1 == [Packet(t.id, p.source, Link, p.ident)]
  {
    HandleKeepsInv(s, PendingTimer);
    StaysUnproposed(Handle(s, PendingTimer).0, events);
    var t := After(Handle(s, PendingTimer).0, events);
    if HasFreeDownlink(t) && Enabled(t, Arrives(p, mac, true)) {
      assert !t.slots[FreeFrom(t.slots, 1)].used;
      LocateAnsweredIff(t, p, mac, true);
    }
  }

  /** A proposal that nobody accepts leaves no trace. */
  lemma ProposalRoundTrip(s: Net, p: Packet, mac: Mac)
    requires Inv(s) && p.control == Locate && Enabled(s, Arrives(p, mac, true)) && CanPropose(s)
    ensures var t := Handle(s, Arrives(p, mac, true)).0; Enabled(t, PendingTimer) && Handle(t, PendingTimer) == (s, [])
  {
    LocateAnsweredIff(s, p, mac, true);
  }

  // ----- what a stalled node does

  /** Neither joined nor trying to. */
  predicate GaveUp(s: Net)
    requires WellFormed(s)
  {
    !HasUplink(s) && !s.joinTimer && !s.locTimer
  }

  /** Such a node stays so, and sends nothing. */
  lemma GaveUpStep(s: Net, e: Event)
    requires Inv(s) && GaveUp(s) && Enabled(s, e)
    ensures GaveUp(Handle(s, e).0) && Handle(s, e).1 == []
  {
    if e.Arrives? {
      assert !IsDownstream(s, e.packet.source);
    }
  }

  /** If the chosen uplink cannot be added as a peer the node never joins any more. */
  lemma {:induction false} NeverJoins(s: Net, events: seq<Event>)
    requires Inv(s) && GaveUp(s) && Legal(s, events)
    ensures GaveUp(After(s, events))
    decreases |events|
  {
    if events != [] {
      GaveUpStep(s, events[0]);
      HandleKeepsInv(s, events[0]);
      NeverJoins(Handle(s, events[0]).0, events[1..]);
    }
  }

  lemma FailedChoiceGivesUp(s: Net, choice: nat)
    requires Inv(s) && Enabled(s, LocTimer(choice, false)) && s.responses != []
    ensures var (t, out) := Handle(s, LocTimer(choice, false)); GaveUp(t) && out == []
  {}

  /** A proposal that is not timed blocks all others until its addressee sends a LINK of its own accord. */
  lemma UntimedProposalBlocks(s: Net, e: Event)
    requires Inv(s) && s.pending && !s.pendingTimer && Enabled(s, e)
    ensures var (t, out) := Handle(s, e);
            && (t.pending <==> !(e.Arrives? && e.packet.control == Link && Confirms(s, e.packet, e.mac)))
            && (t.pending ==> !t.pendingTimer)
            && (IsLocate(e) ==> out == [])
  {}

  lemma OneFirst(s: Net, e: Event, events: seq<Event>)
    requires WellFormed(s) && Enabled(s, e) && Legal(Handle(s, e).0, events)
    ensures Legal(s, [e] + events) && After(s, [e] + events) == After(Handle(s, e).0, events)
  {
    assert ([e] + events)[1..] == events;
  }

  /** Three events after net_init: a search, one answer to it, and a peer that cannot be added. */
  lemma NodeGivesUp()
    ensures var s := Init(2, false, 7);
            var events := [JoinTimer] + ([Arrives(Packet(3, 2, Link, 8), 3, true)] + [LocTimer(0, false)]);
            Legal(s, events) && GaveUp(After(s, events))
  {
    var s := Init(2, false, 7);
    var e, e', e'' := JoinTimer, Arrives(Packet(3, 2, Link, 8), 3, true), LocTimer(0, false);
    var t := Handle(s, e).0;
    var t' := Handle(t, e').0;
    InitInv(2, false, 7);
    HandleKeepsInv(s, e);
    AsksEverybody(s);
    LinkTaken(t, e'.packet, e'.mac, e'.added);
    HandleKeepsInv(t, e');
    FailedChoiceGivesUp(t', 0);
    OneFirst(t', e'', []);
    assert [e''] + [] == [e''];
    OneFirst(t, e', [e'']);
    OneFirst(s, e, [e'] + [e'']);
  }

  /** One event at a root: a LOCATE whose sender cannot be added as a peer. */
  lemma ProposalIsNotTimed()
    ensures var s, e := Init(1, true, 0), Arrives(Packet(2, BROADCAST, Locate, 1), 2, false);
            Enabled(s, e) && Handle(s, e).0.pending && !Handle(s, e).0.pendingTimer
  {
    var s, e := Init(1, true, 0), Arrives(Packet(2, BROADCAST, Locate, 1), 2, false);
    InitInv(1, true, 0);
    assert !s.slots[1].used;
    LocateAnsweredIff(s, e.packet, e.mac, e.added);
  }
}
