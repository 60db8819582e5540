/**
 * Conversations between two nodes of a network: a STATUS request and its answer, and the four
 * packets by which a node joins. Between any two of their steps anything else may happen.
 */
module Handshakes {
  import opened LinkLayer
  import opened LinkLaws
  import opened JoinTree

  /** The steps of the run lead from one world to the other. */
  ghost predicate Leads(w: World, run: seq<Step>, v: World) {
    TreeInv(w) && LegalRun(w, run) && TreeInv(v) && v == Final(w, run)
  }

  // ----- what stays while other things happen

  /** Packets stay in the air, and uplinks in place. */
  ghost predicate Kept(w: World, v: World) {
    && v.nodes.Keys == w.nodes.Keys
    && |w.air| <= |v.air|
    && (forall j :: 0 <= j < |w.air| ==> v.air[j] == w.air[j])
    && (forall c, p :: UpIs(w, c, p) ==> UpIs(v, c, p))
    && (forall k :: k in w.order ==> k in v.order)
  }

  lemma StepKeeps(w: World, a: Step)
    requires TreeInv(w) && Possible(w, a)
    ensures TreeInv(Next(w, a)) && Kept(w, Next(w, a))
  {
    NextKeepsTree(w, a);
    forall c, p | UpIs(w, c, p)
      ensures UpIs(Next(w, a), c, p)
    {
      UpIsKept(w, a, c, p);
    }
  }

  lemma {:induction false} RunKeeps(w: World, run: seq<Step>)
    requires TreeInv(w) && LegalRun(w, run)
    ensures TreeInv(Final(w, run)) && Kept(w, Final(w, run))
    decreases |run|
  {
    if run != [] {
      StepKeeps(w, run[0]);
      RunKeeps(Next(w, run[0]), run[1..]);
    }
  }

  // ----- STATUS

  /** A request asks the uplink and is the newest packet in the air. */
  lemma RequestIsSent(w: World, c: NodeId, p: NodeId)
    requires TreeInv(w) && UpIs(w, c, p) && Possible(w, Fires(c, UpstreamTimer))
    ensures var v := Next(w, Fires(c, UpstreamTimer));
            && v.air == w.air + [Packet(c, p, Status, 0)]
            && v.nodes[c].statusTimer && TreeInv(v) && Kept(w, v)
  {
    StepKeeps(w, Fires(c, UpstreamTimer));
    AsksAbove(w.nodes[c]);
  }

  /** A parent is never the child of its child. */
  lemma NotItsChild(w: World, c: NodeId, p: NodeId)
    requires TreeInv(w) && UpIs(w, c, p) && p in w.nodes && c != 0
    ensures !IsUpstream(w.nodes[p], c)
  {
    if IsUpstream(w.nodes[p], c) {
      assert UpIs(w, p, c);
    }
  }

  /** The request is answered exactly if the parent lists the child and is not frozen. */
  lemma RequestIsAnsweredIff(w: World, c: NodeId, p: NodeId, j: nat, added: bool)
    requires TreeInv(w) && UpIs(w, c, p) && j < |w.air| && w.air[j] == Packet(c, p, Status, 0)
    requires Possible(w, Deliver(p, j, added))
    ensures var v := Next(w, Deliver(p, j, added));
            && v.nodes == w.nodes
            && (v.air == w.air + [Packet(p, c, Status, 0)]
                <==> IsDownstream(w.nodes[p], c) && !w.nodes[p].frozen)
  {
    NotItsChild(w, c, p);
    StatusAnsweredIff(w.nodes[p], w.air[j], c, added);
    assert w.nodes[p := w.nodes[p]] == w.nodes;
  }

  /** Later on the uplink and a packet that is in the air are still there. */
  lemma LaterToo(w: World, run: seq<Step>, v: World, c: NodeId, p: NodeId, j: nat)
    requires Leads(w, run, v) && UpIs(w, c, p) && j < |w.air|
    ensures UpIs(v, c, p) && j < |v.air| && v.air[j] == w.air[j]
  {
    RunKeeps(w, run);
  }

  lemma AnswerArrives(w: World, c: NodeId, p: NodeId, j: nat, added: bool)
    requires TreeInv(w) && UpIs(w, c, p) && j < |w.air| && w.air[j] == Packet(p, c, Status, 0)
    requires Possible(w, Deliver(c, j, added))
    ensures var n := Next(w, Deliver(c, j, added)).nodes[c]; !n.statusTimer && !Enabled(n, StatusTimer)
  {
    AnswerEndsWait(w.nodes[c], w.air[j], p, added);
  }

  /**
   * The round trip. Node c asks its uplink p; later p receives the request, and later still c
   * receives what p has sent. If p lists c and is not frozen when the request arrives, c then no
   * longer waits: its status timer is off, and the blackout it would cause is not enabled.
   */
  lemma StatusRoundTrip(w: World, c: NodeId, p: NodeId, run: seq<Step>, w': World, x: bool,
                        more: seq<Step>, w'': World, y: bool)
    requires TreeInv(w) && UpIs(w, c, p) && Possible(w, Fires(c, UpstreamTimer))
    requires Leads(Next(w, Fires(c, UpstreamTimer)), run, w')
    requires Possible(w', Deliver(p, |w.air|, x))
    requires IsDownstream(w'.nodes[p], c) && !w'.nodes[p].frozen
    requires Leads(Next(w', Deliver(p, |w.air|, x)), more, w'')
    requires Possible(w'', Deliver(c, |w'.air|, y))
    ensures var n := Next(w'', Deliver(c, |w'.air|, y)).nodes[c]; !n.statusTimer && !Enabled(n, StatusTimer)
  {
    RequestIsSent(w, c, p);
    LaterToo(Next(w, Fires(c, UpstreamTimer)), run, w', c, p, |w.air|);
    RequestIsAnsweredIff(w', c, p, |w.air|, x);
    StepKeeps(w', Deliver(p, |w.air|, x));
    LaterToo(Next(w', Deliver(p, |w.air|, x)), more, w'', c, p, |w'.air|);
    AnswerArrives(w'', c, p, |w'.air|, y);
  }

  // ----- joining

  /** The locate timer of node n does not fire. */
  ghost predicate Searching(run: seq<Step>, n: NodeId) {
    forall i :: 0 <= i < |run| ==> !(run[i].Fires? && run[i].node == n && run[i].timer.LocTimer?)
  }

  ghost predicate InSearch(w: World, n: NodeId, ident: NodeId) {
    n in w.nodes && w.nodes[n].locating && w.nodes[n].locIdent == ident
  }

  lemma SearchStepStays(w: World, a: Step, n: NodeId, ident: NodeId)
    requires TreeInv(w) && Possible(w, a) && InSearch(w, n, ident) && Searching([a], n)
    ensures var v := Next(w, a); InSearch(v, n, ident) && w.nodes[n].responses <= v.nodes[n].responses
  {
    assert [a][0] == a;
    if a.node == n {
      SearchGoesOn(w.nodes[n], EventOf(w, a));
    }
  }

  lemma {:induction false} SearchStays(w: World, run: seq<Step>, n: NodeId, ident: NodeId)
    requires TreeInv(w) && LegalRun(w, run) && Searching(run, n) && InSearch(w, n, ident)
    ensures var v := Final(w, run); InSearch(v, n, ident) && w.nodes[n].responses <= v.nodes[n].responses
    decreases |run|
  {
    if run != [] {
      SearchStepStays(w, run[0], n, ident);
      NextKeepsTree(w, run[0]);
      SearchStays(Next(w, run[0]), run[1..], n, ident);
    }
  }

  /** Later on the search still goes on, and a packet that is in the air is still there. */
  lemma SearchLater(w: World, run: seq<Step>, v: World, n: NodeId, ident: NodeId, j: nat)
    requires Leads(w, run, v) && Searching(run, n) && InSearch(w, n, ident) && j < |w.air|
    ensures InSearch(v, n, ident) && j < |v.air| && v.air[j] == w.air[j]
  {
    SearchStays(w, run, n, ident);
    RunKeeps(w, run);
  }

  /** The search is announced to everybody. */
  lemma SearchIsSent(w: World, n: NodeId)
    requires TreeInv(w) && Possible(w, Fires(n, JoinTimer))
    ensures var v := Next(w, Fires(n, JoinTimer));
            var ident := v.nodes[n].locIdent;
            TreeInv(v) && v.air == w.air + [Packet(n, BROADCAST, Locate, ident)] && InSearch(v, n, ident)
  {
    NextKeepsTree(w, Fires(n, JoinTimer));
    AsksEverybody(w.nodes[n]);
  }

  /** A node that can propose answers with a LINK. */
  lemma SearchIsAnswered(w: World, n: NodeId, p: NodeId, j: nat, ident: NodeId)
    requires TreeInv(w) && j < |w.air| && w.air[j] == Packet(n, BROADCAST, Locate, ident)
    requires Possible(w, Deliver(p, j, true)) && CanPropose(w.nodes[p])
    ensures var v := Next(w, Deliver(p, j, true));
            && TreeInv(v) && v.air == w.air + [Packet(p, n, Link, ident)]
            && v.nodes[p].pending && v.nodes[p].pendingId == n
            && (n != p && n in w.nodes ==> v.nodes[n] == w.nodes[n])
  {
    NextKeepsTree(w, Deliver(p, j, true));
    LocateAnsweredIff(w.nodes[p], w.air[j], n, true);
  }

  lemma ProposalIsHeard(w: World, n: NodeId, p: NodeId, j: nat, ident: NodeId, added: bool)
    requires TreeInv(w) && j < |w.air| && w.air[j] == Packet(p, n, Link, ident) && InSearch(w, n, ident)
    requires Possible(w, Deliver(n, j, added)) && |w.nodes[n].responses| < LOCATE_SIZE
    ensures var v := Next(w, Deliver(n, j, added));
            TreeInv(v) && InSearch(v, n, ident) && v.nodes[n].responses == w.nodes[n].responses + [Peer(p, p)]
  {
    NextKeepsTree(w, Deliver(n, j, added));
    LinkTaken(w.nodes[n], w.air[j], p, added);
  }

  /** The first half: node n starts a search, p receives it and answers, and n hears the answer. */
  lemma ProposalReachesSearch(w: World, n: NodeId, p: NodeId, run: seq<Step>, w': World,
                              more: seq<Step>, w'': World, x: bool)
    requires TreeInv(w) && n != p && Possible(w, Fires(n, JoinTimer))
    requires Leads(Next(w, Fires(n, JoinTimer)), run, w') && Searching(run, n)
    requires Possible(w', Deliver(p, |w.air|, true)) && CanPropose(w'.nodes[p])
    requires Leads(Next(w', Deliver(p, |w.air|, true)), more, w'') && Searching(more, n)
    requires Possible(w'', Deliver(n, |w'.air|, x)) && |w''.nodes[n].responses| < LOCATE_SIZE
    ensures var v := Next(w'', Deliver(n, |w'.air|, x));
            && TreeInv(v) && v.nodes[n].locating
            && v.nodes[n].responses == w''.nodes[n].responses + [Peer(p, p)]
  {
    var u := Next(w, Fires(n, JoinTimer));
    var ident := u.nodes[n].locIdent;
    SearchIsSent(w, n);
    SearchLater(u, run, w', n, ident, |w.air|);
    SearchIsAnswered(w', n, p, |w.air|, ident);
    var u' := Next(w', Deliver(p, |w.air|, true));
    SearchLater(u', more, w'', n, ident, |w'.air|);
    ProposalIsHeard(w'', n, p, |w'.air|, ident, x);
  }

  /** The chosen node becomes the uplink and is told so. */
  lemma ChoiceIsSent(w: World, n: NodeId, p: NodeId, choice: nat)
    requires TreeInv(w) && Possible(w, Fires(n, LocTimer(choice, true)))
    requires choice < |w.nodes[n].responses| && w.nodes[n].responses[choice].id == p
    ensures var v := Next(w, Fires(n, LocTimer(choice, true)));
            TreeInv(v) && UpIs(v, n, p) && v.air == w.air + [Packet(n, p, Link, w.nodes[n].locIdent)]
  {
    NextKeepsTree(w, Fires(n, LocTimer(choice, true)));
    SearchEnds(w.nodes[n], choice);
  }

  /** The proposer takes the sender of the confirmation as its child. */
  lemma ChoiceIsConfirmed(w: World, n: NodeId, p: NodeId, j: nat, ident: NodeId, added: bool)
    requires TreeInv(w) && UpIs(w, n, p) && j < |w.air| && w.air[j] == Packet(n, p, Link, ident)
    requires Possible(w, Deliver(p, j, added))
    requires w.nodes[p].pending && w.nodes[p].pendingId == n && !w.nodes[p].frozen
    ensures var v := Next(w, Deliver(p, j, added));
            UpIs(v, n, p) && IsDownstream(v.nodes[p], n) && !v.nodes[p].pending
  {
    UpIsKept(w, Deliver(p, j, added), n, p);
    LinkTaken(w.nodes[p], w.air[j], n, added);
  }

  /** The second half: n chooses the answer of p when its search ends, and p receives the confirmation. */
  lemma ChoiceReachesProposer(w: World, n: NodeId, p: NodeId, choice: nat, run: seq<Step>, w': World,
                              more: seq<Step>, w'': World, y: bool)
    requires TreeInv(w) && n in w.nodes && w.nodes[n].locating
    requires choice < |w.nodes[n].responses| && w.nodes[n].responses[choice].id == p
    requires Leads(w, run, w') && Searching(run, n) && Possible(w', Fires(n, LocTimer(choice, true)))
    requires Leads(Next(w', Fires(n, LocTimer(choice, true))), more, w'')
    requires Possible(w'', Deliver(p, |w'.air|, y))
    requires w''.nodes[p].pending && w''.nodes[p].pendingId == n && !w''.nodes[p].frozen
    ensures var v := Next(w'', Deliver(p, |w'.air|, y));
            UpIs(v, n, p) && IsDownstream(v.nodes[p], n) && !v.nodes[p].pending
  {
    SearchStays(w, run, n, w.nodes[n].locIdent);
    assert w'.nodes[n].responses[choice] == w.nodes[n].responses[choice];
    ChoiceIsSent(w', n, p, choice);
    LaterToo(Next(w', Fires(n, LocTimer(choice, true))), more, w'', n, p, |w'.air|);
    ChoiceIsConfirmed(w'', n, p, |w'.air|, w'.nodes[n].locIdent, y);
  }
}
