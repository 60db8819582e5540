/**
 * The link layer of net_layer.c on one node: flags, link table and timers, and what each
 * packet and each timer does to them. A timer is one-shot; starting a running timer fails
 * and leaves it running, as esp_timer_start_once does.
 */
module LinkLayer {

  const LINK_TABLE_SIZE: nat := 4
  const LINK_UP: nat := 0
  const LOCATE_SIZE: nat := 16

  type NodeId = x: int | 0 <= x < 256
  const BROADCAST: NodeId := 255

  /** A MAC address as a 48-bit number; 0 is the cleared one. */
  type Mac = x: int | 0 <= x < 0x1_0000_0000_0000

  /** A link table entry, its bit in the usage mask and whether its timer is running. */
  datatype Slot = Slot(used: bool, id: NodeId, mac: Mac, armed: bool)

  datatype Peer = Peer(id: NodeId, mac: Mac)

  datatype Control = Locate | Link | Status | Map | Blackout | Freeze | Default

  /** The header fields of a NetFrame that the link layer reads. */
  datatype Packet = Packet(source: NodeId, destination: NodeId, control: Control, ident: NodeId)

  /** NodeState; `restarted` is set when the node has called esp_restart. */
  datatype Net = Net(
    isRoot: bool, id: NodeId, slots: seq<Slot>,
    locating: bool, pending: bool, upStatus: bool, frozen: bool,
    locIdent: NodeId, responses: seq<Peer>, pendingId: NodeId, pendingMac: Mac,
    pendingTimer: bool, locTimer: bool, statusTimer: bool, joinTimer: bool, restarted: bool)

  // ----- lookups

  predicate WellFormed(s: Net) {
    |s.slots| == LINK_TABLE_SIZE && |s.responses| <= LOCATE_SIZE
  }

  predicate HasUplink(s: Net)
    requires WellFormed(s)
  {
    s.slots[LINK_UP].used
  }

  predicate IsUpstream(s: Net, id: NodeId)
    requires WellFormed(s)
  {
    id == s.slots[LINK_UP].id
  }

  predicate IsDownstream(s: Net, id: NodeId)
    requires WellFormed(s)
  {
    exists i :: 1 <= i < LINK_TABLE_SIZE && s.slots[i].used && s.slots[i].id == id
  }

  predicate IsLinked(s: Net, id: NodeId)
    requires WellFormed(s)
  {
    IsUpstream(s, id) || IsDownstream(s, id)
  }

  /** The first entry at or after i that is not in use, or LINK_TABLE_SIZE. */
  function FreeFrom(slots: seq<Slot>, i: nat): (x: nat)
    requires i <= |slots|
    ensures i <= x <= |slots| && (x < |slots| ==> !slots[x].used)
    ensures forall j :: i <= j < x ==> slots[j].used
    decreases |slots| - i
  {
    if i == |slots| || !slots[i].used then i else FreeFrom(slots, i + 1)
  }

  /** The first entry at or after i in use for id (find_entry), or LINK_TABLE_SIZE. */
  function EntryFrom(slots: seq<Slot>, id: NodeId, i: nat): (x: nat)
    requires i <= |slots|
    ensures i <= x <= |slots| && (x < |slots| ==> slots[x].used && slots[x].id == id)
    ensures forall j :: i <= j < x ==> !(slots[j].used && slots[j].id == id)
    decreases |slots| - i
  {
    if i == |slots| || (slots[i].used && slots[i].id == id) then i else EntryFrom(slots, id, i + 1)
  }

  predicate HasFreeDownlink(s: Net)
    requires WellFormed(s)
  {
    FreeFrom(s.slots, 1) < LINK_TABLE_SIZE
  }

  /** The assertion of net_send_raw. */
  predicate MaySend(s: Net, destination: NodeId)
    requires WellFormed(s)
  {
    IsLinked(s, destination) || destination == BROADCAST || destination == s.pendingId
  }

  // ----- packet handlers

  /** CONTROL_LOCATE; `added` is whether esp_now_add_peer succeeds. */
  function OnLocate(s: Net, src: NodeId, mac: Mac, ident: NodeId, added: bool): (r: (Net, seq<Packet>))
    requires WellFormed(s)
    ensures WellFormed(r.0)
  {
    if !s.frozen && HasUplink(s) && HasFreeDownlink(s) && !s.pending then
      var t := s.(pending := true, pendingId := src, pendingMac := mac);
      if added then (t.(pendingTimer := true), [Packet(s.id, src, Link, ident)]) else (t, [])
    else (s, [])
  }

  /** form_downlink. */
  function FormDownlink(slots: seq<Slot>, mac: Mac, id: NodeId): (r: seq<Slot>)
    requires |slots| == LINK_TABLE_SIZE
    ensures |r| == |slots|
  {
    var x := FreeFrom(slots, 1);
    if x < LINK_TABLE_SIZE then slots[x := Slot(true, id, mac, true)] else slots
  }

  /** CONTROL_LINK: a proposal while locating, or the confirmation of a proposal of ours. */
  function OnLink(s: Net, src: NodeId, mac: Mac, ident: NodeId): (r: Net)
    requires WellFormed(s)
    ensures WellFormed(r)
  {
    if s.frozen then s
    else if s.locating && ident == s.locIdent then
      if |s.responses| < LOCATE_SIZE then s.(responses := s.responses + [Peer(src, mac)]) else s
    else if s.pending && mac == s.pendingMac && src == s.pendingId then
      s.(pendingTimer := false, pending := false, slots := FormDownlink(s.slots, mac, src),
         pendingMac := 0, pendingId := 0)
    else s
  }

  /** The timer of entry x runs again. */
  function Rearmed(slots: seq<Slot>, x: nat): (r: seq<Slot>)
    requires x < |slots|
    ensures |r| == |slots|
  {
    slots[x := slots[x].(armed := true)]
  }

  /** CONTROL_STATUS: the answer from up-stream, or a request from down-stream. */
  function OnStatus(s: Net, src: NodeId): (r: (Net, seq<Packet>))
    requires WellFormed(s)
    ensures WellFormed(r.0)
  {
    if !IsLinked(s, src) || s.frozen then (s, [])
    else if s.upStatus && IsUpstream(s, src) then (s.(upStatus := false, statusTimer := false), [])
    else if IsDownstream(s, src) then
      var x := EntryFrom(s.slots, src, 0);
      if x < LINK_TABLE_SIZE then
        (s.(slots := Rearmed(s.slots, x)), [Packet(s.id, src, Status, 0)])
      else (s, [])
    else (s, [])
  }

  /** Start the timers of the entries in use from i on; the first that is running ends the loop. */
  function RestartFrom(slots: seq<Slot>, i: nat, isRoot: bool): (r: seq<Slot>)
    requires i <= |slots|
    ensures |r| == |slots|
    decreases |slots| - i
  {
    if i == |slots| then slots
    else if slots[i].used && !(i == LINK_UP && isRoot) then
      if slots[i].armed then slots
      else RestartFrom(slots[i := slots[i].(armed := true)], i + 1, isRoot)
    else RestartFrom(slots, i + 1, isRoot)
  }

  /** Stop the timers of the entries in use. */
  function StopAll(slots: seq<Slot>, isRoot: bool): (r: seq<Slot>)
    ensures |r| == |slots|
    ensures forall i :: 0 <= i < |r| ==>
              r[i] == if slots[i].used && !(i == LINK_UP && isRoot) then slots[i].(armed := false) else slots[i]
  {
    seq(|slots|, i requires 0 <= i < |slots| =>
      if slots[i].used && !(i == LINK_UP && isRoot) then slots[i].(armed := false) else slots[i])
  }

  /** CONTROL_FREEZE: a toggle from up-stream. */
  function OnFreeze(s: Net, src: NodeId): (r: Net)
    requires WellFormed(s)
    ensures WellFormed(r)
  {
    if !IsLinked(s, src) || !IsUpstream(s, src) then s
    else if s.frozen then s.(frozen := false, slots := RestartFrom(s.slots, 0, s.isRoot))
    else s.(frozen := true, upStatus := false, statusTimer := false, slots := StopAll(s.slots, s.isRoot))
  }

  /** Packets of one kind to every downlink from entry i on. */
  function ToDownlinks(s: Net, control: Control, ident: NodeId, i: nat): seq<Packet>
    requires WellFormed(s) && 1 <= i <= LINK_TABLE_SIZE
    decreases LINK_TABLE_SIZE - i
  {
    if i == LINK_TABLE_SIZE then []
    else
      (if s.slots[i].used then [Packet(s.id, s.slots[i].id, control, ident)] else [])
      + ToDownlinks(s, control, ident, i + 1)
  }

  /** exec_blackout: tell the downlinks and restart. */
  function ExecBlackout(s: Net): (r: (Net, seq<Packet>))
    requires WellFormed(s)
    ensures WellFormed(r.0)
  {
    (s.(restarted := true), ToDownlinks(s, Blackout, 0, 1))
  }

  function OnBlackout(s: Net, src: NodeId): (r: (Net, seq<Packet>))
    requires WellFormed(s)
    ensures WellFormed(r.0)
  {
    if s.frozen || !IsLinked(s, src) || !IsUpstream(s, src) then (s, []) else ExecBlackout(s)
  }

  /** CONTROL_MAP: answer and pass down what comes from above, pass up what comes from below. */
  function OnMap(s: Net, src: NodeId, ident: NodeId): seq<Packet>
    requires WellFormed(s)
  {
    if !IsLinked(s, src) then []
    else if IsUpstream(s, src) then [Packet(s.id, src, Map, s.id)] + ToDownlinks(s, Map, ident, 1)
    else if !s.isRoot then [Packet(s.id, s.slots[LINK_UP].id, Map, ident)]
    else []
  }

  /** CONTROL_DEFAULT for an application nobody registered: down what comes from above, up what comes from below. */
  function OnDefault(s: Net, src: NodeId): seq<Packet>
    requires WellFormed(s)
  {
    if !IsLinked(s, src) then []
    else if IsUpstream(s, src) then ToDownlinks(s, Default, 0, 1)
    else if s.isRoot || !HasUplink(s) then []
    else [Packet(s.id, s.slots[LINK_UP].id, Default, 0)]
  }

  // ----- timer callbacks; each fires only while its timer is running

  function OnPendingTimer(s: Net): Net {
    s.(pendingTimer := false, pending := false, pendingMac := 0, pendingId := 0)
  }

  /** form_uplink. */
  function FormUplink(slots: seq<Slot>, mac: Mac, id: NodeId): (r: seq<Slot>)
    requires |slots| == LINK_TABLE_SIZE
    ensures |r| == |slots|
  {
    if slots[LINK_UP].used then slots else slots[LINK_UP := Slot(true, id, mac, true)]
  }

  /** timer_cb_locating: `choice` is the response picked at random. */
  function OnLocTimer(s: Net, choice: nat, added: bool): (r: (Net, seq<Packet>))
    requires WellFormed(s) && (s.responses != [] ==> choice < |s.responses|)
    ensures WellFormed(r.0)
  {
    var t := s.(locTimer := false, locating := false);
    if s.responses == [] then (t.(joinTimer := true), [])
    else if !added then (t, [])
    else
      var p := s.responses[choice];
      (t.(slots := FormUplink(s.slots, p.mac, p.id), responses := []),
       [Packet(s.id, p.id, Link, s.locIdent)])
  }

  function OnStatusTimer(s: Net): (r: (Net, seq<Packet>))
    requires WellFormed(s)
    ensures WellFormed(r.0)
  {
    ExecBlackout(s.(statusTimer := false))
  }

  /** timer_cb_upstream: the own timer is restarted only if the status timer could be started. */
  function OnUpstreamTimer(s: Net): (r: (Net, seq<Packet>))
    requires WellFormed(s)
    ensures WellFormed(r.0)
  {
    var up := s.slots[LINK_UP];
    var out := [Packet(s.id, up.id, Status, 0)];
    if s.statusTimer then (s.(slots := s.slots[LINK_UP := up.(armed := false)]), out)
    else (s.(statusTimer := true, upStatus := true, slots := s.slots[LINK_UP := up.(armed := true)]), out)
  }

  /** timer_cb_downstream: the link has decayed. */
  function OnDownstreamTimer(s: Net, x: nat): (r: Net)
    requires WellFormed(s) && x < LINK_TABLE_SIZE
    ensures WellFormed(r)
  {
    s.(slots := s.slots[x := Slot(false, 0, 0, false)])
  }

  /** timer_cb_join: start locating. */
  function OnJoinTimer(s: Net): (Net, seq<Packet>) {
    var ident := (s.locIdent + 1) % 256;
    (s.(joinTimer := false, locating := true, locIdent := ident, locTimer := true),
     [Packet(s.id, BROADCAST, Locate, ident)])
  }

  // ----- events

  datatype Event =
    | Arrives(packet: Packet, mac: Mac, added: bool)
    | PendingTimer
    | LocTimer(choice: nat, joined: bool)
    | StatusTimer
    | UpstreamTimer
    | DownstreamTimer(slot: nat)
    | JoinTimer

  /** A packet has a non-zero source; a timer fires only if it is running. */
  predicate Enabled(s: Net, e: Event)
    requires WellFormed(s)
  {
    !s.restarted &&
    match e
    case Arrives(p, _, _) => p.source != 0
    case PendingTimer => s.pendingTimer
    case LocTimer(c, _) => s.locTimer && (s.responses != [] ==> c < |s.responses|)
    case StatusTimer => s.statusTimer
    case UpstreamTimer => s.slots[LINK_UP].armed
    case DownstreamTimer(x) => 1 <= x < LINK_TABLE_SIZE && s.slots[x].armed
    case JoinTimer => s.joinTimer
  }

  /**
   * A frame with source id 0 runs into an assertion: of is_linked, which net_send_raw calls too,
   * or of form_downlink.
   */
  predicate StopsAtAssertion(s: Net, p: Packet, mac: Mac, added: bool)
    requires WellFormed(s)
  {
    p.source == 0 &&
    match p.control
    case Locate => added && !s.frozen && HasUplink(s) && HasFreeDownlink(s) && !s.pending
    case Link =>
      && !s.frozen && !(s.locating && p.ident == s.locIdent)
      && s.pending && mac == s.pendingMac && s.pendingId == 0
    case Blackout => !s.frozen
    case _ => true
  }

  /** espnow_recv: dispatch on the control field. */
  function OnPacket(s: Net, p: Packet, mac: Mac, added: bool): (r: (Net, seq<Packet>))
    requires WellFormed(s)
    ensures WellFormed(r.0)
  {
    match p.control
    case Locate => OnLocate(s, p.source, mac, p.ident, added)
    case Link => (OnLink(s, p.source, mac, p.ident), [])
    case Status => OnStatus(s, p.source)
    case Freeze => (OnFreeze(s, p.source), [])
    case Blackout => OnBlackout(s, p.source)
    case Map => (s, OnMap(s, p.source, p.ident))
    case Default => (s, OnDefault(s, p.source))
  }

  function Handle(s: Net, e: Event): (r: (Net, seq<Packet>))
    requires WellFormed(s) && Enabled(s, e)
    ensures WellFormed(r.0)
  {
    match e
    case Arrives(p, mac, added) => OnPacket(s, p, mac, added)
    case PendingTimer => (OnPendingTimer(s), [])
    case LocTimer(c, joined) => OnLocTimer(s, c, joined)
    case StatusTimer => OnStatusTimer(s)
    case UpstreamTimer => OnUpstreamTimer(s)
    case DownstreamTimer(x) => (OnDownstreamTimer(s, x), [])
    case JoinTimer => OnJoinTimer(s)
  }

  /** net_init. */
  function Init(id: NodeId, isRoot: bool, ident: NodeId): Net {
    Net(isRoot, id,
        [Slot(isRoot, 0, 0, false), Slot(false, 0, 0, false), Slot(false, 0, 0, false), Slot(false, 0, 0, false)],
        false, false, false, false, ident, [], 0, 0, false, false, false, !isRoot, false)
  }

  // ----- the invariant

  /** Uplink: in use with a non-zero id, or unused and cleared; the root's is a dummy without timer. */
  predicate UplinkInv(s: Net)
    requires WellFormed(s)
  {
    var up := s.slots[LINK_UP];
    && (s.isRoot ==> up.used && up.id == 0 && !up.armed)
    && (!s.isRoot ==> (up.used <==> up.id != 0))
    && (up.armed ==> up.used)
  }

  /** Downlinks: a decay timer runs exactly for the entries in use, and none while frozen. */
  predicate DownlinkInv(s: Net)
    requires WellFormed(s)
  {
    forall i :: 1 <= i < LINK_TABLE_SIZE ==>
      && (s.slots[i].used ==> s.slots[i].id != 0 && HasUplink(s))
      && (s.slots[i].armed <==> s.slots[i].used && !s.frozen)
  }

  predicate JoinInv(s: Net)
    requires WellFormed(s)
  {
    && (s.locating <==> s.locTimer)
    && (s.locating || s.joinTimer ==> !HasUplink(s) && !s.pending)
    && !(s.locating && s.joinTimer)
    && (s.joinTimer ==> s.responses == [])
    && (forall i :: 0 <= i < |s.responses| ==> s.responses[i].id != 0)
  }

  /** A proposal reserves capacity; without one id and address are cleared. */
  predicate PendingInv(s: Net)
    requires WellFormed(s)
  {
    && (s.pending ==> HasUplink(s) && HasFreeDownlink(s) && s.pendingId != 0)
    && (!s.pending ==> !s.pendingTimer && s.pendingId == 0 && s.pendingMac == 0)
  }

  predicate FrozenInv(s: Net)
    requires WellFormed(s)
  {
    && (s.frozen ==> HasUplink(s) && !s.isRoot && !s.slots[LINK_UP].armed && !s.statusTimer && !s.upStatus)
    && (s.statusTimer ==> HasUplink(s) && !s.isRoot && s.upStatus)
  }

  predicate Inv(s: Net) {
    && WellFormed(s) && s.id != 0
    && UplinkInv(s) && DownlinkInv(s) && JoinInv(s) && PendingInv(s) && FrozenInv(s)
  }

  lemma InitInv(id: NodeId, isRoot: bool, ident: NodeId)
    requires id != 0
    ensures Inv(Init(id, isRoot, ident))
  {}

  lemma LocateKeepsInv(s: Net, src: NodeId, mac: Mac, ident: NodeId, added: bool)
    requires Inv(s) && src != 0
    ensures Inv(OnLocate(s, src, mac, ident, added).0)
  {}

  lemma LinkKeepsInv(s: Net, src: NodeId, mac: Mac, ident: NodeId)
    requires Inv(s) && src != 0
    ensures Inv(OnLink(s, src, mac, ident))
  {}

  /** Restarting the timer of an entry in use keeps the invariant. */
  lemma ArmedKeepsInv(s: Net, x: nat)
    requires Inv(s) && x < LINK_TABLE_SIZE && s.slots[x].used && s.slots[x].id != 0 && !s.frozen
    ensures Inv(s.(slots := Rearmed(s.slots, x)))
  {
    StillFree(s.slots, Rearmed(s.slots, x));
  }

  lemma StatusKeepsInv(s: Net, src: NodeId)
    requires Inv(s) && src != 0
    ensures Inv(OnStatus(s, src).0)
  {
    var x := EntryFrom(s.slots, src, 0);
    if x < LINK_TABLE_SIZE && !s.frozen {
      ArmedKeepsInv(s, x);
    }
  }

  /** Whether a downlink is free depends only on which entries are in use. */
  lemma StillFree(slots: seq<Slot>, more: seq<Slot>)
    requires 1 <= |slots| == |more| && forall i :: 1 <= i < |slots| ==> (more[i].used ==> slots[i].used)
    ensures FreeFrom(slots, 1) < |slots| ==> FreeFrom(more, 1) < |more|
  {
    var x := FreeFrom(slots, 1);
    if x < |slots| {
      assert !more[x].used;
    }
  }

  lemma FreezeKeepsInv(s: Net, src: NodeId)
    requires Inv(s) && src != 0
    ensures Inv(OnFreeze(s, src))
  {
    if IsLinked(s, src) && IsUpstream(s, src) && s.frozen {
      RestartStartsAll(s.slots, 0, s.isRoot);
    }
  }

  /** If none of the timers runs, all of them get started. */
  lemma {:induction false} RestartStartsAll(slots: seq<Slot>, i: nat, isRoot: bool)
    requires i <= |slots| && forall j :: i <= j < |slots| ==> !slots[j].armed
    ensures var r := RestartFrom(slots, i, isRoot);
            && (forall j :: 0 <= j < i ==> r[j] == slots[j])
            && (forall j :: i <= j < |slots| ==>
                  r[j] == slots[j].(armed := slots[j].used && !(j == LINK_UP && isRoot)))
    decreases |slots| - i
  {
    if i < |slots| {
      if slots[i].used && !(i == LINK_UP && isRoot) {
        RestartStartsAll(slots[i := slots[i].(armed := true)], i + 1, isRoot);
      } else {
        RestartStartsAll(slots, i + 1, isRoot);
      }
    }
  }

  lemma PacketKeepsInv(s: Net, p: Packet, mac: Mac, added: bool)
    requires Inv(s) && p.source != 0
    ensures Inv(OnPacket(s, p, mac, added).0)
  {
    match p.control {
      case Locate => LocateKeepsInv(s, p.source, mac, p.ident, added);
      case Link => LinkKeepsInv(s, p.source, mac, p.ident);
      case Status => StatusKeepsInv(s, p.source);
      case Freeze => FreezeKeepsInv(s, p.source);
      case _ =>
    }
  }

  /** Every packet and every timer keeps the invariant. */
  lemma HandleKeepsInv(s: Net, e: Event)
    requires Inv(s) && Enabled(s, e)
    ensures Inv(Handle(s, e).0)
  {
    match e {
      case Arrives(p, mac, added) => PacketKeepsInv(s, p, mac, added);
      case LocTimer(c, joined) => LocTimerKeepsInv(s, c, joined);
      case UpstreamTimer => StillFree(s.slots, OnUpstreamTimer(s).0.slots);
      case DownstreamTimer(x) => StillFree(s.slots, OnDownstreamTimer(s, x).slots);
      case _ =>
    }
  }

  lemma LocTimerKeepsInv(s: Net, choice: nat, added: bool)
    requires Inv(s) && s.locTimer && (s.responses != [] ==> choice < |s.responses|)
    ensures Inv(OnLocTimer(s, choice, added).0)
  {}

  /** Which frames with source id 0 break the invariant: those that leave a trace. */
  lemma ZeroBreaksInvIff(s: Net, p: Packet, mac: Mac, added: bool)
    requires Inv(s) && p.source == 0 && !StopsAtAssertion(s, p, mac, added)
    ensures Inv(OnPacket(s, p, mac, added).0) <==> OnPacket(s, p, mac, added).0 == s
  {
    if p.control == Link && s.locating && p.ident == s.locIdent && !s.frozen && |s.responses| < LOCATE_SIZE {
      var t := OnLink(s, 0, mac, p.ident);
      assert t.responses[|s.responses|].id == 0;
    }
  }

  // ----- what the invariant is for

  ghost predicate Legal(s: Net, events: seq<Event>)
    requires WellFormed(s)
    decreases |events|
  {
    events != [] ==> Enabled(s, events[0]) && Legal(Handle(s, events[0]).0, events[1..])
  }

  ghost function After(s: Net, events: seq<Event>): (t: Net)
    requires WellFormed(s) && Legal(s, events)
    ensures WellFormed(t)
    decreases |events|
  {
    if events == [] then s else After(Handle(s, events[0]).0, events[1..])
  }

  /** The invariant holds after any sequence of packets and timers from net_init on. */
  lemma {:induction false} InvAfter(s: Net, events: seq<Event>)
    requires Inv(s) && Legal(s, events)
    ensures Inv(After(s, events))
    decreases |events|
  {
    if events != [] {
      HandleKeepsInv(s, events[0]);
      InvAfter(Handle(s, events[0]).0, events[1..]);
    }
  }

  /** The assertion of net_send_raw holds for every packet any handler sends, and none goes to id 0. */
  lemma SendsAreAllowed(s: Net, e: Event, j: nat)
    requires Inv(s) && Enabled(s, e) && j < |Handle(s, e).1|
    ensures var (t, out) := Handle(s, e); out[j].destination != 0 && MaySend(t, out[j].destination)
  {
    var (t, out) := Handle(s, e);
    match e {
      case Arrives(p, _, _) =>
        match p.control {
          case Status =>
            var i :| 1 <= i < LINK_TABLE_SIZE && s.slots[i].used && s.slots[i].id == p.source;
            assert t.slots[i].used && t.slots[i].id == p.source;
          case Map => DownlinkTargets(s, Map, p.ident, 1);
          case Default => DownlinkTargets(s, Default, 0, 1);
          case Blackout => DownlinkTargets(s, Blackout, 0, 1);
          case _ =>
        }
      case StatusTimer => DownlinkTargets(s.(statusTimer := false), Blackout, 0, 1);
      case _ =>
    }
  }

  lemma {:induction false} DownlinkTargets(s: Net, control: Control, ident: NodeId, i: nat)
    requires WellFormed(s) && DownlinkInv(s) && 1 <= i <= LINK_TABLE_SIZE
    ensures forall j :: 0 <= j < |ToDownlinks(s, control, ident, i)| ==>
              var d := ToDownlinks(s, control, ident, i)[j].destination; d != 0 && IsDownstream(s, d)
    decreases LINK_TABLE_SIZE - i
  {
    if i < LINK_TABLE_SIZE {
      DownlinkTargets(s, control, ident, i + 1);
    }
  }

  /** The assertion of timer_cb_downstream: a decay timer that fires finds its entry in use. */
  lemma DecayFindsEntry(s: Net, x: nat)
    requires Inv(s) && Enabled(s, DownstreamTimer(x))
    ensures s.slots[x].used && s.slots[x].id != 0 && !s.frozen
  {}

  /** A confirmed proposal finds a free entry whose timer is not running, so form_downlink succeeds. */
  lemma ProposalReservesCapacity(s: Net, ident: NodeId)
    requires Inv(s) && s.pending && !s.frozen
    ensures var x := FreeFrom(s.slots, 1);
            && x < LINK_TABLE_SIZE && !s.slots[x].armed
            && OnLink(s, s.pendingId, s.pendingMac, ident).slots
               == s.slots[x := Slot(true, s.pendingId, s.pendingMac, true)]
  {}

  /** The locate timer never finds an uplink in place, so form_uplink succeeds and its timer starts. */
  lemma LocateTimerFormsUplink(s: Net, choice: nat)
    requires Inv(s) && Enabled(s, LocTimer(choice, true)) && s.responses != []
    ensures !s.slots[LINK_UP].used && !s.slots[LINK_UP].armed
    ensures var t := OnLocTimer(s, choice, true).0;
            HasUplink(t) && t.slots[LINK_UP].id == s.responses[choice].id && t.slots[LINK_UP].armed
  {}

  /** The entry without its timer. */
  ghost predicate SameEntry(a: Slot, b: Slot) {
    a.used == b.used && a.id == b.id && a.mac == b.mac
  }

  /** While the node is frozen nothing changes the link table. */
  lemma FrozenTableIsFixed(s: Net, e: Event, i: nat)
    requires Inv(s) && Enabled(s, e) && s.frozen && i < LINK_TABLE_SIZE
    ensures SameEntry(Handle(s, e).0.slots[i], s.slots[i])
  {
    if e.Arrives? && e.packet.control == Freeze {
      RestartStartsAll(s.slots, 0, s.isRoot);
    }
  }

  /** Freezing and unfreezing gives back the same link table with every decay timer running again. */
  lemma FreezeRoundTrip(s: Net, src: NodeId)
    requires Inv(s) && !s.frozen && src != 0 && IsUpstream(s, src)
    ensures var t := OnFreeze(OnFreeze(s, src), src);
            && t.slots == s.slots[LINK_UP := s.slots[LINK_UP].(armed := true)]
            && t == s.(slots := t.slots, upStatus := false, statusTimer := false)
  {
    var f := OnFreeze(s, src);
    FreezeKeepsInv(s, src);
    RestartStartsAll(f.slots, 0, s.isRoot);
    var t := OnFreeze(f, src);
    assert forall i :: 0 <= i < LINK_TABLE_SIZE ==>
        t.slots[i] == s.slots[LINK_UP := s.slots[LINK_UP].(armed := true)][i];
  }

  /** An uplink, once formed, is never changed by anything short of a restart. */
  lemma UplinkIsKept(s: Net, e: Event)
    requires Inv(s) && Enabled(s, e) && HasUplink(s)
    ensures SameEntry(Handle(s, e).0.slots[LINK_UP], s.slots[LINK_UP])
  {
    if e.Arrives? && e.packet.control == Freeze && s.frozen {
      RestartStartsAll(s.slots, 0, s.isRoot);
    }
  }
}
