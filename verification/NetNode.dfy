/** The handlers of net_layer.c on the node state they update in place. */
module NetNode {
  import opened LinkLayer

  class Node {
    const isRoot: bool
    const id: NodeId
    const entry: array<Slot>        // link_table, one timer per entry
    const locResponse: array<Peer>
    var locCount: nat
    var locating: bool              // STATE_LOCATING
    var pending: bool               // STATE_PENDING_LINK
    var upStatus: bool              // STATE_UPLINK_STATUS
    var frozen: bool                // STATE_FROZEN
    var locIdent: NodeId
    var pendingId: NodeId
    var pendingMac: Mac
    var pendingTimer: bool
    var locTimer: bool
    var statusTimer: bool
    var joinTimer: bool
    var restarted: bool
    var outbound: seq<Packet>

    ghost predicate Sized()
      reads this
    {
      entry.Length == LINK_TABLE_SIZE && locResponse.Length == LOCATE_SIZE && locCount <= LOCATE_SIZE
    }

    ghost function State(): Net
      reads this, entry, locResponse
      requires Sized()
    {
      Net(isRoot, id, entry[..], locating, pending, upStatus, frozen, locIdent, locResponse[..locCount],
          pendingId, pendingMac, pendingTimer, locTimer, statusTimer, joinTimer, restarted)
    }

    ghost predicate Valid()
      reads this, entry, locResponse
    {
      Sized() && Inv(State())
    }

    /** net_init. */
    constructor (nodeId: NodeId, debugRoot: bool, random: NodeId)
      requires nodeId != 0
      ensures Valid() && State() == Init(nodeId, debugRoot, random) && outbound == []
      ensures fresh(entry) && fresh(locResponse)
    {
      isRoot, id, locIdent := debugRoot, nodeId, random;
      entry := new Slot[LINK_TABLE_SIZE](i => Slot(i == LINK_UP && debugRoot, 0, 0, false));
      locResponse := new Peer[LOCATE_SIZE](_ => Peer(0, 0));
      locCount := 0;
      locating, pending, upStatus, frozen := false, false, false, false;
      pendingId, pendingMac := 0, 0;
      pendingTimer, locTimer, statusTimer, joinTimer := false, false, false, !debugRoot;
      restarted, outbound := false, [];
      new;
      InitInv(nodeId, debugRoot, random);
      assert entry[..] == Init(nodeId, debugRoot, random).slots;
    }

    // ----- lookups

    /** has_available_downlinks. */
    method AvailableDownlink() returns (x: int)
      requires Sized()
      ensures var f := FreeFrom(entry[..], 1); x == if f < LINK_TABLE_SIZE then f else -1
    {
      for i := 0 to LINK_TABLE_SIZE
        invariant i >= 1 ==> FreeFrom(entry[..], 1) == FreeFrom(entry[..], i)
      {
        if i != LINK_UP && !entry[i].used {
          return i;
        }
      }
      return -1;
    }

    /** find_entry: the index of the first entry for the id. */
    method FindEntry(node: NodeId) returns (x: nat)
      requires Sized()
      ensures x == EntryFrom(entry[..], node, 0)
    {
      for i := 0 to LINK_TABLE_SIZE
        invariant EntryFrom(entry[..], node, 0) == EntryFrom(entry[..], node, i)
      {
        if entry[i].used && entry[i].id == node {
          return i;
        }
      }
      return LINK_TABLE_SIZE;
    }

    /** is_downstream. */
    method Downstream(node: NodeId) returns (b: bool)
      requires Sized()
      ensures b <==> IsDownstream(State(), node)
    {
      for i := 1 to LINK_TABLE_SIZE
        invariant forall j :: 1 <= j < i ==> !(entry[j].used && entry[j].id == node)
      {
        if entry[i].used && entry[i].id == node {
          assert State().slots[i] == entry[i];
          return true;
        }
      }
      return false;
    }

    /** is_linked. */
    method Linked(node: NodeId) returns (b: bool)
      requires Sized()
      ensures b <==> IsLinked(State(), node)
    {
      b := Downstream(node);
      b := b || node == entry[LINK_UP].id;
    }

    /** net_send_raw, with its assertion. */
    method SendRaw(p: Packet)
      requires Sized() && MaySend(State(), p.destination)
      modifies this`outbound
      ensures outbound == old(outbound) + [p]
    {
      var linked := Linked(p.destination);
      assert linked || p.destination == BROADCAST || p.destination == pendingId;
      outbound := outbound + [p];
    }

    /** The loop over the downlinks in exec_blackout, net_send_down and the MAP handler. */
    method SendDown(control: Control, ident: NodeId)
      requires Valid()
      modifies this`outbound
      ensures outbound == old(outbound) + ToDownlinks(State(), control, ident, 1)
    {
      ghost var s, sent := State(), outbound;
      for i := 1 to LINK_TABLE_SIZE
        invariant State() == s
        invariant sent + ToDownlinks(s, control, ident, 1) == outbound + ToDownlinks(s, control, ident, i)
      {
        if entry[i].used {
          assert s.slots[i] == entry[i];
          SendRaw(Packet(id, entry[i].id, control, ident));
        }
      }
    }

    // ----- packets

    method Locate(src: NodeId, mac: Mac, ident: NodeId, added: bool)
      requires Valid() && src != 0
      modifies this
      ensures Valid() && State() == OnLocate(old(State()), src, mac, ident, added).0
      ensures outbound == old(outbound) + OnLocate(old(State()), src, mac, ident, added).1
    {
      LocateKeepsInv(State(), src, mac, ident, added);
      if frozen {
        return;
      }
      var x := AvailableDownlink();
      if entry[LINK_UP].used && x > 0 && !pending {
        pending := true;
        pendingId, pendingMac := src, mac;
        if !added {
          return;
        }
        SendRaw(Packet(id, src, Control.Link, ident));
        pendingTimer := true;
      }
    }

    /** form_downlink; `ok` is false if the table is full or the timer cannot be started. */
    method NewDownlink(mac: Mac, node: NodeId) returns (ok: bool)
      requires Sized()
      modifies entry
      ensures entry[..] == FormDownlink(old(entry[..]), mac, node)
      ensures var x := FreeFrom(old(entry[..]), 1);
              ok <==> x < LINK_TABLE_SIZE && !old(entry[..])[x].armed
    {
      var x := AvailableDownlink();
      if x < 0 {
        return false;
      }
      ok := !entry[x].armed;
      entry[x] := Slot(true, node, mac, true);
    }

    method Link(src: NodeId, mac: Mac, ident: NodeId)
      requires Valid() && src != 0
      modifies this, entry, locResponse
      ensures Valid() && State() == OnLink(old(State()), src, mac, ident)
      ensures outbound == old(outbound)
    {
      ghost var s := State();
      LinkKeepsInv(s, src, mac, ident);
      if frozen {
        return;
      }
      if locating && ident == locIdent {
        if locCount < LOCATE_SIZE {
          locResponse[locCount] := Peer(src, mac);
          locCount := locCount + 1;
          assert locResponse[..locCount] == s.responses + [Peer(src, mac)];
        }
      } else if pending {
        if mac != pendingMac || src != pendingId {
          return;
        }
        ProposalReservesCapacity(s, ident);
        pendingTimer, pending := false, false;
        var ok := NewDownlink(mac, src);
        assert ok;
        pendingMac, pendingId := 0, 0;
      }
    }

    /** Restart the decay timer of the link to a down-stream node. */
    method RestartDecay(node: NodeId)
      requires Sized() && IsDownstream(State(), node)
      modifies entry
      ensures var x := EntryFrom(old(entry[..]), node, 0);
              x < LINK_TABLE_SIZE && entry[..] == Rearmed(old(entry[..]), x)
      ensures IsDownstream(State(), node)
    {
      ghost var s := State();
      var x := FindEntry(node);
      ghost var i :| 1 <= i < LINK_TABLE_SIZE && s.slots[i].used && s.slots[i].id == node;
      assert x <= i;
      entry[x] := entry[x].(armed := true);
      assert State().slots[i].used && State().slots[i].id == node;
    }

    method Status(src: NodeId)
      requires Valid() && src != 0
      modifies this, entry
      ensures Valid() && State() == OnStatus(old(State()), src).0
      ensures outbound == old(outbound) + OnStatus(old(State()), src).1
    {
      StatusKeepsInv(State(), src);
      var linked := Linked(src);
      if !linked || frozen {
        return;
      }
      var down := Downstream(src);
      if upStatus && src == entry[LINK_UP].id {
        upStatus, statusTimer := false, false;
      } else if down {
        RestartDecay(src);
        SendRaw(Packet(id, src, Control.Status, 0));
      }
    }

    /** Restart the timers of all links; stops at the first timer that is still running. */
    method RestartTimers() returns (ok: bool)
      requires Sized()
      modifies entry
      ensures entry[..] == RestartFrom(old(entry[..]), 0, isRoot)
      ensures (forall j :: 0 <= j < LINK_TABLE_SIZE ==> !old(entry[..])[j].armed) ==> ok
    {
      ghost var slots := entry[..];
      for i := 0 to LINK_TABLE_SIZE
        invariant RestartFrom(slots, 0, isRoot) == RestartFrom(entry[..], i, isRoot)
        invariant forall j :: i <= j < LINK_TABLE_SIZE ==> entry[j] == slots[j]
      {
        if entry[i].used && !(i == LINK_UP && isRoot) {
          if entry[i].armed {
            return false;
          }
          ghost var before := entry[..];
          entry[i] := entry[i].(armed := true);
          assert entry[..] == before[i := before[i].(armed := true)];
        }
      }
      ok := true;
    }

    /** Stop the timers of all links. */
    method StopTimers()
      requires Sized()
      modifies entry
      ensures entry[..] == StopAll(old(entry[..]), isRoot)
    {
      ghost var slots := entry[..];
      for i := 0 to LINK_TABLE_SIZE
        invariant forall j :: 0 <= j < i ==> entry[j] == StopAll(slots, isRoot)[j]
        invariant forall j :: i <= j < LINK_TABLE_SIZE ==> entry[j] == slots[j]
      {
        if entry[i].used && ((i == LINK_UP && !isRoot) || i != LINK_UP) {
          entry[i] := entry[i].(armed := false);
        }
      }
      assert entry[..] == StopAll(slots, isRoot);
    }

    method Freeze(src: NodeId)
      requires Valid() && src != 0
      modifies this, entry
      ensures Valid() && State() == OnFreeze(old(State()), src)
      ensures outbound == old(outbound)
    {
      FreezeKeepsInv(State(), src);
      if src != entry[LINK_UP].id {
        return;
      }
      if frozen {
        frozen := false;
        var ok := RestartTimers();
        assert ok;
      } else {
        frozen, upStatus, statusTimer := true, false, false;
        StopTimers();
      }
    }

    /** exec_blackout. */
    method ExecuteBlackout()
      requires Valid()
      modifies this`outbound, this`restarted
      ensures State() == ExecBlackout(old(State())).0
      ensures outbound == old(outbound) + ExecBlackout(old(State())).1
    {
      SendDown(Control.Blackout, 0);
      restarted := true;
    }

    method Blackout(src: NodeId)
      requires Valid() && src != 0
      modifies this`outbound, this`restarted
      ensures State() == OnBlackout(old(State()), src).0
      ensures outbound == old(outbound) + OnBlackout(old(State()), src).1
    {
      if !frozen && src == entry[LINK_UP].id {
        ExecuteBlackout();
      }
    }

    method Map(src: NodeId, ident: NodeId)
      requires Valid() && src != 0
      modifies this`outbound
      ensures outbound == old(outbound) + OnMap(State(), src, ident)
    {
      var linked := Linked(src);
      if !linked {
        return;
      }
      if src == entry[LINK_UP].id {
        SendRaw(Packet(id, src, Control.Map, id));
        SendDown(Control.Map, ident);
      } else if !isRoot {
        assert IsDownstream(State(), src);
        SendRaw(Packet(id, entry[LINK_UP].id, Control.Map, ident));
      }
    }

    /** CONTROL_DEFAULT when no application is registered for the packet. */
    method PassOn(src: NodeId)
      requires Valid() && src != 0
      modifies this`outbound
      ensures outbound == old(outbound) + OnDefault(State(), src)
    {
      var linked := Linked(src);
      if !linked {
        return;
      }
      if src == entry[LINK_UP].id {
        SendDown(Control.Default, 0);
      } else if !isRoot && entry[LINK_UP].used {
        SendRaw(Packet(id, entry[LINK_UP].id, Control.Default, 0));
      }
    }

    /** LOCATE with source id 0: net_send_raw refuses the destination. */
    method LocateFromZero(mac: Mac, ident: NodeId, added: bool) returns (ok: bool)
      requires Valid()
      modifies this`pending, this`pendingId, this`pendingMac
      ensures ok ==> State() == OnLocate(old(State()), 0, mac, ident, added).0
      ensures ok <==> OnLocate(old(State()), 0, mac, ident, added).1 == []
    {
      ok := true;
      if frozen {
        return;
      }
      var x := AvailableDownlink();
      if entry[LINK_UP].used && x > 0 && !pending {
        pending := true;
        pendingId, pendingMac := 0, mac;
        ok := !added;
      }
    }

    /** LINK with source id 0: at most a response is stored. */
    method LinkFromZero(mac: Mac, ident: NodeId)
      requires Valid()
      modifies this`locCount, locResponse
      ensures Sized() && State() == OnLink(old(State()), 0, mac, ident)
    {
      ghost var s := State();
      if !frozen && locating && ident == locIdent && locCount < LOCATE_SIZE {
        locResponse[locCount] := Peer(0, mac);
        locCount := locCount + 1;
        assert locResponse[..locCount] == s.responses + [Peer(0, mac)];
      }
    }

    /** Frames with source id 0; `ok` is false where an assertion of the source fails. */
    method ReceiveFromZero(p: Packet, mac: Mac, added: bool) returns (ok: bool)
      requires Valid() && p.source == 0
      modifies this, locResponse
      ensures Sized() && (ok <==> !StopsAtAssertion(old(State()), p, mac, added))
      ensures ok ==> State() == OnPacket(old(State()), p, mac, added).0
      ensures ok ==> outbound == old(outbound) + OnPacket(old(State()), p, mac, added).1
    {
      match p.control {
        case Locate =>
          ok := LocateFromZero(mac, p.ident, added);
        case Link =>
          LinkFromZero(mac, p.ident);
          ok := true;
        case Blackout => ok := frozen;
        case _ => ok := false;
      }
    }

    /**
     * espnow_recv on a frame that passes valid_packet. Only a frame with source id 0 can run
     * into an assertion, and only such a frame can break the invariant.
     */
    method Receive(p: Packet, mac: Mac, added: bool) returns (ok: bool)
      requires Valid()
      modifies this, entry, locResponse
      ensures ok <==> !StopsAtAssertion(old(State()), p, mac, added)
      ensures Sized() && (p.source != 0 ==> Valid())
      ensures ok ==> State() == OnPacket(old(State()), p, mac, added).0
      ensures ok ==> outbound == old(outbound) + OnPacket(old(State()), p, mac, added).1
    {
      if p.source == 0 {
        ok := ReceiveFromZero(p, mac, added);
        return;
      }
      ok := true;
      match p.control {
        case Locate => Locate(p.source, mac, p.ident, added);
        case Link => Link(p.source, mac, p.ident);
        case Status => Status(p.source);
        case Map => Map(p.source, p.ident);
        case Blackout => Blackout(p.source);
        case Freeze => Freeze(p.source);
        case Default => PassOn(p.source);
      }
    }

    // ----- timers

    /** timer_cb_pending_link. */
    method PendingTimerFires()
      requires Valid() && pendingTimer
      modifies this
      ensures Valid() && State() == OnPendingTimer(old(State())) && outbound == old(outbound)
    {
      pendingTimer := false;
      pending, pendingMac, pendingId := false, 0, 0;
    }

    /** form_uplink; `ok` is false if there is an uplink already or its timer cannot be started. */
    method NewUplink(mac: Mac, node: NodeId) returns (ok: bool)
      requires Sized()
      modifies entry
      ensures entry[..] == FormUplink(old(entry[..]), mac, node)
      ensures ok <==> !old(entry[LINK_UP].used) && !old(entry[LINK_UP].armed)
    {
      if entry[LINK_UP].used {
        return false;
      }
      ok := !entry[LINK_UP].armed;
      entry[LINK_UP] := Slot(true, node, mac, true);
    }

    /** timer_cb_locating. */
    method LocTimerFires(random: nat, added: bool) returns (ghost choice: nat)
      requires Valid() && locTimer
      modifies this, entry, locResponse
      ensures old(locCount) > 0 ==> choice == random % old(locCount)
      ensures Valid() && State() == OnLocTimer(old(State()), choice, added).0
      ensures outbound == old(outbound) + OnLocTimer(old(State()), choice, added).1
    {
      ghost var s := State();
      choice := if locCount > 0 then random % locCount else 0;
      LocTimerKeepsInv(s, choice, added);
      locTimer, locating := false, false;
      if locCount == 0 {
        joinTimer := true;
        return;
      }
      var x := random % locCount;
      if !added {
        return;
      }
      var p := locResponse[x];
      assert p == s.responses[x];
      var ok := NewUplink(p.mac, p.id);
      assert ok;
      SendRaw(Packet(id, p.id, Control.Link, locIdent));
      locCount := 0;
    }

    /** timer_cb_up_status. */
    method StatusTimerFires()
      requires Valid() && statusTimer
      modifies this`outbound, this`restarted, this`statusTimer
      ensures State() == OnStatusTimer(old(State())).0
      ensures outbound == old(outbound) + OnStatusTimer(old(State())).1
    {
      statusTimer := false;
      ExecuteBlackout();
    }

    /** timer_cb_upstream. */
    method UpstreamTimerFires()
      requires Valid() && entry[LINK_UP].armed
      modifies this, entry
      ensures Valid() && State() == OnUpstreamTimer(old(State())).0
      ensures outbound == old(outbound) + OnUpstreamTimer(old(State())).1
    {
      ghost var s := State();
      StillFree(s.slots, OnUpstreamTimer(s).0.slots);
      entry[LINK_UP] := entry[LINK_UP].(armed := false);
      assert entry[..] == s.slots[LINK_UP := s.slots[LINK_UP].(armed := false)];
      SendRaw(Packet(id, entry[LINK_UP].id, Control.Status, 0));
      if statusTimer {
        return;
      }
      statusTimer, upStatus := true, true;
      entry[LINK_UP] := entry[LINK_UP].(armed := true);
      assert entry[..] == s.slots[LINK_UP := s.slots[LINK_UP].(armed := true)];
    }

    /** timer_cb_downstream, with its assertion. */
    method DownstreamTimerFires(x: nat)
      requires Valid() && 1 <= x < LINK_TABLE_SIZE && entry[x].armed
      modifies entry
      ensures Valid() && State() == OnDownstreamTimer(old(State()), x)
    {
      ghost var s := State();
      StillFree(s.slots, OnDownstreamTimer(s, x).slots);
      assert s.slots[x] == entry[x];
      assert x != LINK_UP && x < LINK_TABLE_SIZE && entry[x].used;
      entry[x] := Slot(false, 0, 0, false);
    }

    /** timer_cb_join. */
    method JoinTimerFires()
      requires Valid() && joinTimer
      modifies this
      ensures Valid() && State() == OnJoinTimer(old(State())).0
      ensures outbound == old(outbound) + OnJoinTimer(old(State())).1
    {
      joinTimer, locating := false, true;
      locIdent := (locIdent + 1) % 256;
      SendRaw(Packet(id, BROADCAST, Control.Locate, locIdent));
      locTimer := true;
    }
  }
}
