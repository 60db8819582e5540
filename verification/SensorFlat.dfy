/**
 * Trees in which every child reports once: the packet that leaves the root summarises the flat
 * multiset of the samples of all nodes, whatever the shape of the tree.
 */
module SensorFlat {
  import opened Samples
  import opened SensorTree

  /** The samples of all nodes of a tree. */
  ghost function Flat(t: Tree, field: Field): multiset<Reading>
    decreases t, 0
  {
    Own(t.id, t.local, field) + FlatAll(t.arrivals, field)
  }

  ghost function FlatAll(ts: seq<Tree>, field: Field): multiset<Reading>
    decreases ts, 1
  {
    if ts == [] then multiset{} else FlatAll(ts[..|ts| - 1], field) + Flat(ts[|ts| - 1], field)
  }

  /** At most 8 children per node, with different ids, each of which reports once. */
  ghost predicate OncePerChild(t: Tree)
    decreases t, 0
  {
    && |t.arrivals| <= SLOTS && AllOncePerChild(t.arrivals)
    && forall i, j :: 0 <= i < j < |t.arrivals| ==> t.arrivals[i].id != t.arrivals[j].id
  }

  ghost predicate AllOncePerChild(ts: seq<Tree>)
    decreases ts, 1
  {
    ts != [] ==> AllOncePerChild(ts[..|ts| - 1]) && OncePerChild(ts[|ts| - 1])
  }

  // ----- the readings behind the cached packets are the flat multiset

  lemma {:induction false} LatestAre(ts: seq<Tree>, field: Field)
    ensures |LatestReadings(ts, field)| <= |ts|
    ensures forall o :: o in LatestReadings(ts, field) ==> exists i :: 0 <= i < |ts| && ts[i].id == o
    decreases |ts|
  {
    if ts != [] {
      LatestAre(ts[..|ts| - 1], field);
    }
  }

  /** What a node and all nodes below it have measured is what the latest packets stand for. */
  lemma {:induction false} ReadingsAreFlat(t: Tree, field: Field)
    requires OncePerChild(t)
    ensures Readings(t, field) == Flat(t, field)
    decreases t, 0
  {
    LatestAreFlat(t.arrivals, field);
  }

  lemma {:induction false} LatestAreFlat(ts: seq<Tree>, field: Field)
    requires AllOncePerChild(ts) && forall i, j :: 0 <= i < j < |ts| ==> ts[i].id != ts[j].id
    ensures Sum(LatestReadings(ts, field)) == FlatAll(ts, field)
    decreases ts, 1
  {
    if ts != [] {
      var init, last := ts[..|ts| - 1], ts[|ts| - 1];
      LatestAreFlat(init, field);
      ReadingsAreFlat(last, field);
      LatestAre(init, field);
      SumInsert(LatestReadings(init, field), last.id, Readings(last, field));
    }
  }

  lemma {:induction false} SmallIfFlatIs(t: Tree, field: Field)
    requires OncePerChild(t) && |Flat(t, field)| < 0x1_0000
    ensures Small(t, field)
    decreases t, 0
  {
    LatestAre(t.arrivals, field);
    ReadingsAreFlat(t, field);
    AllSmallIfFlatIs(t.arrivals, field);
  }

  lemma {:induction false} AllSmallIfFlatIs(ts: seq<Tree>, field: Field)
    requires AllOncePerChild(ts) && |FlatAll(ts, field)| < 0x1_0000
    ensures AllSmall(ts, field)
    decreases ts, 1
  {
    if ts != [] {
      AllSmallIfFlatIs(ts[..|ts| - 1], field);
      SmallIfFlatIs(ts[|ts| - 1], field);
    }
  }

  // ----- the main theorems

  /** The root's packet summarises the samples of all nodes exactly up to 65535 of them. */
  lemma RootSummarisesFlatIff(t: Tree, field: Field)
    requires OncePerChild(t)
    ensures Summarises(Get(PacketOf(t), field), Flat(t, field)) <==> |Flat(t, field)| < 0x1_0000
    ensures |Flat(t, field)| < 0x1_0000 ==> AdditionsFit(t, field)
  {
    if |Flat(t, field)| < 0x1_0000 {
      SmallIfFlatIs(t, field);
      RootSummarisesTree(t, field);
      TotalsDoNotOverflow(t, field);
      ReadingsAreFlat(t, field);
    }
  }

  /** Two trees of the same samples report the same extremes, total and count. */
  lemma ShapeDoesNotMatter(t: Tree, u: Tree, field: Field)
    requires OncePerChild(t) && OncePerChild(u)
    requires Flat(t, field) == Flat(u, field) && |Flat(t, field)| < 0x1_0000
    ensures var s, r := Get(PacketOf(t), field), Get(PacketOf(u), field);
            s.min == r.min && s.max == r.max && s.total == r.total && s.count == r.count
  {
    RootSummarisesFlatIff(t, field);
    RootSummarisesFlatIff(u, field);
    SummaryUnique(Get(PacketOf(t), field), Get(PacketOf(u), field), Flat(t, field));
  }

  // ----- unique ids

  ghost function Ids(t: Tree): set<Byte>
    decreases t, 0
  {
    {t.id} + IdsAll(t.arrivals)
  }

  ghost function IdsAll(ts: seq<Tree>): set<Byte>
    decreases ts, 1
  {
    if ts == [] then {} else IdsAll(ts[..|ts| - 1]) + Ids(ts[|ts| - 1])
  }

  /** No two nodes of the tree have the same id, and none has more than 8 children. */
  ghost predicate UniqueIds(t: Tree)
    decreases t, 0
  {
    |t.arrivals| <= SLOTS && t.id !in IdsAll(t.arrivals) && AllUniqueIds(t.arrivals)
  }

  ghost predicate AllUniqueIds(ts: seq<Tree>)
    decreases ts, 1
  {
    ts != [] ==>
      && AllUniqueIds(ts[..|ts| - 1]) && UniqueIds(ts[|ts| - 1])
      && IdsAll(ts[..|ts| - 1]) !! Ids(ts[|ts| - 1])
  }

  lemma {:induction false} IdIsThere(ts: seq<Tree>, i: nat)
    requires i < |ts|
    ensures ts[i].id in IdsAll(ts)
    decreases |ts|
  {
    if i < |ts| - 1 {
      IdIsThere(ts[..|ts| - 1], i);
    }
  }

  lemma {:induction false} UniqueReportOnce(t: Tree)
    requires UniqueIds(t)
    ensures OncePerChild(t)
    decreases t, 0
  {
    AllUniqueReportOnce(t.arrivals);
  }

  lemma {:induction false} AllUniqueReportOnce(ts: seq<Tree>)
    requires AllUniqueIds(ts)
    ensures AllOncePerChild(ts)
    ensures forall i, j :: 0 <= i < j < |ts| ==> ts[i].id != ts[j].id
    decreases ts, 1
  {
    if ts != [] {
      var init, last := ts[..|ts| - 1], ts[|ts| - 1];
      AllUniqueReportOnce(init);
      UniqueReportOnce(last);
      forall i | 0 <= i < |init|
        ensures init[i].id != last.id
      {
        IdIsThere(init, i);
      }
    }
  }

  lemma {:induction false} OneSamplePerId(t: Tree, field: Field)
    requires UniqueIds(t)
    ensures |Flat(t, field)| <= |Ids(t)|
    decreases t, 0
  {
    AllOneSamplePerId(t.arrivals, field);
  }

  lemma {:induction false} AllOneSamplePerId(ts: seq<Tree>, field: Field)
    requires AllUniqueIds(ts)
    ensures |FlatAll(ts, field)| <= |IdsAll(ts)|
    decreases ts, 1
  {
    if ts != [] {
      AllOneSamplePerId(ts[..|ts| - 1], field);
      OneSamplePerId(ts[|ts| - 1], field);
    }
  }

  lemma {:induction false} FewIds(s: set<Byte>, n: nat)
    requires forall b :: b in s ==> b < n
    ensures |s| <= n
    decreases n
  {
    if n == 0 {
      assert s == {};
    } else {
      FewIds(s - {n - 1}, n - 1);
    }
  }

  /**
   * Any tree of nodes with unique ids and at most 8 children each: the packet that leaves the
   * root has the extremes, with nodes that measured them, the total and the count of the samples
   * of all nodes, and no total overflows on the way.
   */
  lemma AnyTreeIsSummarised(t: Tree, field: Field)
    requires UniqueIds(t)
    ensures Summarises(Get(PacketOf(t), field), Flat(t, field)) && AdditionsFit(t, field)
  {
    UniqueReportOnce(t);
    OneSamplePerId(t, field);
    FewIds(Ids(t), 256);
    RootSummarisesFlatIff(t, field);
  }
}
