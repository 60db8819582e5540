/**
 * Frames that are passed on along the links: up to the root from any node that has joined, and
 * down to any node from above.
 */
module Routing {
  import opened LinkLayer
  import opened LinkLaws
  import opened JoinTree
  import opened Handshakes

  /** Node c has p as its uplink, and p lists c. */
  ghost predicate LinkedTo(w: World, c: NodeId, p: NodeId) {
    UpIs(w, c, p) && p in w.nodes && WellFormed(w.nodes[p]) && IsDownstream(w.nodes[p], c)
  }

  /** Each node of the path has the next one as its uplink and is listed by it. */
  ghost predicate ListedPath(w: World, path: seq<NodeId>) {
    forall i :: 0 <= i < |path| - 1 ==> LinkedTo(w, path[i], path[i + 1])
  }

  /** The frames that are passed on both ways; a DEFAULT frame has no identification. */
  predicate PassedOn(control: Control, ident: NodeId) {
    control == Map || (control == Default && ident == 0)
  }

  lemma ListedTail(w: World, path: seq<NodeId>, v: World)
    requires ListedPath(w, path) && |path| >= 1 && v.nodes == w.nodes
    ensures ListedPath(v, path[1..])
  {
    forall i | 0 <= i < |path[1..]| - 1
      ensures LinkedTo(v, path[1..][i], path[1..][i + 1])
    {
      assert LinkedTo(w, path[i + 1], path[i + 2]);
    }
  }

  /** A delivery that leaves its node as it is only adds packets to the air. */
  lemma OnlySends(w: World, n: NodeId, j: nat, out: seq<Packet>)
    requires TreeInv(w) && n in w.nodes && j < |w.air| && w.air[j].destination == n && w.air[j].source != 0
    requires Handle(w.nodes[n], Arrives(w.air[j], w.air[j].source, false)) == (w.nodes[n], out)
    ensures var a := Deliver(n, j, false);
            Possible(w, a) && var v := Next(w, a); TreeInv(v) && v.nodes == w.nodes && v.air == w.air + out
  {
    NextKeepsTree(w, Deliver(n, j, false));
    assert w.nodes[n := w.nodes[n]] == w.nodes;
  }

  lemma PassesUp(s: Net, p: Packet, mac: Mac)
    requires Inv(s) && !s.restarted && p.source != 0 && PassedOn(p.control, p.ident)
    requires !s.isRoot && IsDownstream(s, p.source) && !IsUpstream(s, p.source)
    ensures Handle(s, Arrives(p, mac, false)) == (s, [Packet(s.id, s.slots[LINK_UP].id, p.control, p.ident)])
  {
    if p.control == Map {
      MapReaches(s, p, mac, false);
    } else {
      DefaultReaches(s, p, mac, false);
    }
  }

  lemma PassesDown(s: Net, p: Packet, mac: Mac, d: NodeId)
    requires Inv(s) && !s.restarted && p.source != 0 && PassedOn(p.control, p.ident)
    requires IsUpstream(s, p.source) && IsDownstream(s, d)
    ensures var (t, out) := Handle(s, Arrives(p, mac, false)); t == s && Packet(s.id, d, p.control, p.ident) in out
  {
    var out := Handle(s, Arrives(p, mac, false)).1;
    if p.control == Map {
      MapReaches(s, p, mac, false);
      ListedIsReached(s, out[1..], Map, p.ident, d);
    } else {
      DefaultReaches(s, p, mac, false);
      ListedIsReached(s, out, Default, 0, d);
    }
  }

  lemma ListedIsReached(s: Net, out: seq<Packet>, control: Control, ident: NodeId, d: NodeId)
    requires WellFormed(s) && GoesDown(s, out, control, ident) && IsDownstream(s, d)
    ensures Packet(s.id, d, control, ident) in out
  {
    var i: nat :| 1 <= i < LINK_TABLE_SIZE && s.slots[i].used && s.slots[i].id == d;
    assert i in EntriesFor(s.slots, d, 1);
    assert Copies(out, Packet(s.id, d, control, ident)) > 0;
  }

  /** One hop up: a node that is not the root passes on what comes from a child it lists. */
  lemma HopUp(w: World, c: NodeId, p: NodeId, g: NodeId, j: nat, control: Control, ident: NodeId)
    requires TreeInv(w) && LinkedTo(w, c, p) && UpIs(w, p, g)
    requires j < |w.air| && w.air[j] == Packet(c, p, control, ident) && PassedOn(control, ident)
    ensures var a := Deliver(p, j, false);
            Possible(w, a) && var v := Next(w, a);
            TreeInv(v) && v.nodes == w.nodes && v.air == w.air + [Packet(p, g, control, ident)]
  {
    NotItsChild(w, c, p);
    PassesUp(w.nodes[p], w.air[j], c);
    OnlySends(w, p, j, [Packet(p, g, control, ident)]);
  }

  /** A frame on its way up gets to the end of the path, whatever its length. */
  lemma {:induction false} GoesToTheTop(w: World, path: seq<NodeId>, j: nat, control: Control, ident: NodeId)
      returns (run: seq<Step>)
    requires TreeInv(w) && |path| >= 2 && ListedPath(w, path) && PassedOn(control, ident)
    requires j < |w.air| && w.air[j] == Packet(path[0], path[1], control, ident)
    ensures LegalRun(w, run) && |run| == |path| - 2
    ensures var v, n := Final(w, run), |path|;
            v.nodes == w.nodes && Packet(path[n - 2], path[n - 1], control, ident) in v.air
    decreases |path|
  {
    if |path| == 2 {
      run := [];
    } else {
      assert LinkedTo(w, path[0], path[1]) && LinkedTo(w, path[1], path[2]);
      HopUp(w, path[0], path[1], path[2], j, control, ident);
      var a := Deliver(path[1], j, false);
      var v := Next(w, a);
      ListedTail(w, path, v);
      var rest := GoesToTheTop(v, path[1..], |w.air|, control, ident);
      run := [a] + rest;
    }
  }

  /** One hop down: what comes from the uplink is passed on to every child. */
  lemma HopDown(w: World, p: NodeId, c: NodeId, d: NodeId, j: nat, control: Control, ident: NodeId) returns (k: nat)
    requires TreeInv(w) && LinkedTo(w, d, c) && LinkedTo(w, c, p)
    requires j < |w.air| && w.air[j] == Packet(p, c, control, ident) && PassedOn(control, ident)
    ensures var a := Deliver(c, j, false);
            Possible(w, a) && var v := Next(w, a);
            TreeInv(v) && v.nodes == w.nodes && k < |v.air| && v.air[k] == Packet(c, d, control, ident)
  {
    PassesDown(w.nodes[c], w.air[j], p, d);
    var out := Handle(w.nodes[c], Arrives(w.air[j], p, false)).1;
    OnlySends(w, c, j, out);
    var i :| 0 <= i < |out| && out[i] == Packet(c, d, control, ident);
    k := |w.air| + i;
  }

  /** The path the other way. */
  ghost predicate ListedDown(w: World, path: seq<NodeId>) {
    forall i :: 0 <= i < |path| - 1 ==> LinkedTo(w, path[i + 1], path[i])
  }

  lemma ListedDownTail(w: World, path: seq<NodeId>, v: World)
    requires ListedDown(w, path) && |path| >= 1 && v.nodes == w.nodes
    ensures ListedDown(v, path[1..])
  {
    forall i | 0 <= i < |path[1..]| - 1
      ensures LinkedTo(v, path[1..][i + 1], path[1..][i])
    {
      assert LinkedTo(w, path[i + 2], path[i + 1]);
    }
  }

  /** A frame on its way down gets to every node below. */
  lemma {:induction false} GoesToTheBottom(w: World, path: seq<NodeId>, j: nat, control: Control, ident: NodeId)
      returns (run: seq<Step>)
    requires TreeInv(w) && |path| >= 2 && ListedDown(w, path) && PassedOn(control, ident)
    requires j < |w.air| && w.air[j] == Packet(path[0], path[1], control, ident)
    ensures LegalRun(w, run) && |run| == |path| - 2
    ensures var v, n := Final(w, run), |path|;
            v.nodes == w.nodes && Packet(path[n - 2], path[n - 1], control, ident) in v.air
    decreases |path|
  {
    if |path| == 2 {
      run := [];
    } else {
      assert LinkedTo(w, path[1], path[0]) && LinkedTo(w, path[2], path[1]);
      var k := HopDown(w, path[0], path[1], path[2], j, control, ident);
      var a := Deliver(path[1], j, false);
      var v := Next(w, a);
      ListedDownTail(w, path, v);
      var rest := GoesToTheBottom(v, path[1..], k, control, ident);
      run := [a] + rest;
    }
  }
}
