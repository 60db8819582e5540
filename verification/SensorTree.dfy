/**
 * The sensor application of app_sensor.c over a tree of nodes: the cache of the latest packet
 * of each origin, the fold over it, and what the packet that leaves a node summarises.
 */
module SensorTree {
  import opened Options
  import opened Samples

  const SLOTS: nat := 8

  datatype Field = Temperature | Humidity | Pm025

  /** A sensor_packet_t. */
  datatype Packet = Packet(origin: Byte, period: Word16, temperature: Sample, humidity: Sample, pm025: Sample)

  /** A dht_data_t. */
  datatype Local = Local(temperature: Int16, humidity: Int16)

  function Get(p: Packet, field: Field): Sample {
    match field
    case Temperature => p.temperature
    case Humidity => p.humidity
    case Pm025 => p.pm025
  }

  // ----- the cache

  type Cache = c: seq<Option<Packet>> | |c| == SLOTS witness NOTHING
  const NOTHING: seq<Option<Packet>> := [None, None, None, None, None, None, None, None]

  /** The loop of push_cache from slot i on: the entry of this origin, or the last free slot. */
  function SlotFrom(c: Cache, origin: Byte, i: nat, slot: int): (r: int)
    requires i <= |c| && -1 <= slot < |c|
    ensures -1 <= r < |c|
    decreases |c| - i
  {
    if i == |c| then slot
    else if c[i].Some? && c[i].value.origin == origin then i
    else SlotFrom(c, origin, i + 1, if c[i].None? then i else slot)
  }

  /** push_cache; without a slot the source shifts by -1 and writes before the cache. */
  function Push(c: Cache, p: Packet): Cache {
    var slot := SlotFrom(c, p.origin, 0, -1);
    if slot < 0 then c else c[slot := Some(p)]
  }

  predicate HasRoom(c: Cache, origin: Byte) {
    SlotFrom(c, origin, 0, -1) >= 0
  }

  predicate Distinct(c: Cache) {
    forall i, j :: 0 <= i < j < SLOTS && c[i].Some? && c[j].Some? ==> c[i].value.origin != c[j].value.origin
  }

  /** The first n slots as a map from origins to packets. */
  function Contents(c: Cache, n: nat): map<Byte, Packet>
    requires n <= SLOTS
  {
    if n == 0 then map[]
    else if c[n - 1].Some? then Contents(c, n - 1)[c[n - 1].value.origin := c[n - 1].value]
    else Contents(c, n - 1)
  }

  /** The cache as a map from origins to packets. */
  function Known(c: Cache): map<Byte, Packet> {
    Contents(c, |c|)
  }

  ghost predicate Holds(c: Cache, n: nat, o: Byte)
    requires n <= SLOTS
  {
    exists i :: 0 <= i < n && c[i].Some? && c[i].value.origin == o
  }

  lemma {:induction false} ContentsKeys(c: Cache, n: nat, o: Byte)
    requires n <= SLOTS
    ensures o in Contents(c, n) <==> Holds(c, n, o)
  {
    if n > 0 {
      ContentsKeys(c, n - 1, o);
      if Holds(c, n - 1, o) {
        assert Holds(c, n, o);
      }
    }
  }

  lemma {:induction false} ContentsAt(c: Cache, n: nat, i: nat)
    requires i < n <= SLOTS && Distinct(c) && c[i].Some?
    ensures c[i].value.origin in Contents(c, n) && Contents(c, n)[c[i].value.origin] == c[i].value
  {
    if i < n - 1 {
      ContentsAt(c, n - 1, i);
    }
  }

  lemma {:induction false} ContentsCount(c: Cache, n: nat)
    requires n <= SLOTS && Distinct(c)
    ensures |Contents(c, n)| <= n
    ensures |Contents(c, n)| == n <==> forall i :: 0 <= i < n ==> c[i].Some?
  {
    if n > 0 {
      ContentsCount(c, n - 1);
      if c[n - 1].Some? {
        ContentsKeys(c, n - 1, c[n - 1].value.origin);
      }
    }
  }

  /** Slot i is in use, for another origin. */
  ghost predicate Elsewhere(c: Cache, origin: Byte, i: nat)
    requires i < |c|
  {
    c[i].Some? && c[i].value.origin != origin
  }

  /** The slot is the one of the origin if there is one, else a free one if there is one. */
  lemma {:induction false} SlotFound(c: Cache, origin: Byte, i: nat, slot: int)
    requires i <= |c| && -1 <= slot < i
    requires slot >= 0 ==> c[slot].None?
    requires forall j :: 0 <= j < i ==> Elsewhere(c, origin, j) || (c[j].None? && slot >= 0)
    ensures var r := SlotFrom(c, origin, i, slot);
            if r >= 0 && c[r].Some? then c[r].value.origin == origin
            else forall j :: 0 <= j < |c| ==> Elsewhere(c, origin, j) || (c[j].None? && r >= 0)
    decreases |c| - i
  {
    if i < |c| && !(c[i].Some? && c[i].value.origin == origin) {
      SlotFound(c, origin, i + 1, if c[i].None? then i else slot);
    }
  }

  lemma RoomIff(c: Cache, origin: Byte)
    requires Distinct(c)
    ensures HasRoom(c, origin) <==> origin in Known(c) || |Known(c)| < SLOTS
  {
    SlotFound(c, origin, 0, -1);
    ContentsKeys(c, |c|, origin);
    ContentsCount(c, |c|);
  }

  /** push_cache is a map update, defined exactly if the origin is known or fewer than 8 are. */
  lemma PushIsUpdate(c: Cache, p: Packet)
    requires Distinct(c)
    ensures HasRoom(c, p.origin) <==> p.origin in Known(c) || |Known(c)| < SLOTS
    ensures HasRoom(c, p.origin) ==>
              Distinct(Push(c, p)) && Known(Push(c, p)) == Known(c)[p.origin := p]
  {
    RoomIff(c, p.origin);
    SlotFound(c, p.origin, 0, -1);
    var slot := SlotFrom(c, p.origin, 0, -1);
    if slot >= 0 {
      var d := c[slot := Some(p)];
      var before, after := Known(c)[p.origin := p], Known(d);
      forall o: Byte
        ensures SameAt(after, before, o)
      {
        PushAt(c, d, slot, p, o);
      }
      SameMaps(after, before);
    }
  }

  predicate SameAt(m: map<Byte, Packet>, n: map<Byte, Packet>, o: Byte) {
    (o in m <==> o in n) && (o in m ==> m[o] == n[o])
  }

  lemma SameMaps(m: map<Byte, Packet>, n: map<Byte, Packet>)
    requires forall o: Byte :: SameAt(m, n, o)
    ensures m == n
  {
    assert forall o :: o in m ==> SameAt(m, n, o);
    assert forall o :: o in n ==> SameAt(m, n, o);
  }

  lemma PushAt(c: Cache, d: Cache, slot: nat, p: Packet, o: Byte)
    requires Distinct(c) && Distinct(d) && slot < SLOTS && d == c[slot := Some(p)]
    requires c[slot].Some? ==> c[slot].value.origin == p.origin
    ensures SameAt(Known(d), Known(c)[p.origin := p], o)
  {
    ContentsKeys(c, |c|, o);
    ContentsKeys(d, |d|, o);
    ContentsAt(d, |d|, slot);
    if o != p.origin && Holds(c, |c|, o) {
      var i :| 0 <= i < SLOTS && c[i].Some? && c[i].value.origin == o;
      ContentsAt(c, |c|, i);
      ContentsAt(d, |d|, i);
    } else if o != p.origin && Holds(d, |d|, o) {
      var i :| 0 <= i < SLOTS && d[i].Some? && d[i].value.origin == o;
      assert Holds(c, |c|, o);
    }
  }

  /** Pushing packets one after another into the empty cache. */
  function Pushed(ps: seq<Packet>): Cache {
    if ps == [] then NOTHING else Push(Pushed(ps[..|ps| - 1]), ps[|ps| - 1])
  }

  /** The latest packet of each origin. */
  function Latest(ps: seq<Packet>): map<Byte, Packet> {
    if ps == [] then map[] else Latest(ps[..|ps| - 1])[ps[|ps| - 1].origin := ps[|ps| - 1]]
  }

  lemma NothingIsEmpty(n: nat)
    requires n <= SLOTS
    ensures Contents(NOTHING, n) == map[]
  {}

  /** The cache holds the latest packet of each origin. */
  ghost predicate Tracks(c: Cache, ps: seq<Packet>) {
    Distinct(c) && Known(c) == Latest(ps)
  }

  lemma StartTracks()
    ensures Tracks(NOTHING, [])
  {
    NothingIsEmpty(|NOTHING|);
  }

  /** The next packet keeps the cache up to date exactly if there are at most 8 origins with it. */
  lemma PushTracks(c: Cache, ps: seq<Packet>, p: Packet)
    requires Tracks(c, ps)
    ensures HasRoom(c, p.origin) <==> |Latest(ps + [p])| <= SLOTS
    ensures HasRoom(c, p.origin) ==> Tracks(Push(c, p), ps + [p])
    ensures |Latest(ps)| <= SLOTS && |Latest(ps)| <= |Latest(ps + [p])|
  {
    assert (ps + [p])[..|ps|] == ps;
    PushIsUpdate(c, p);
    ContentsCount(c, |c|);
  }

  lemma {:induction false} PushedTracks(ps: seq<Packet>)
    requires |Latest(ps)| <= SLOTS
    ensures Tracks(Pushed(ps), ps)
    decreases |ps|
  {
    if ps == [] {
      StartTracks();
    } else {
      var init, last := ps[..|ps| - 1], ps[|ps| - 1];
      assert init + [last] == ps;
      assert |Latest(init)| <= |Latest(ps)|;
      PushedTracks(init);
      PushTracks(Pushed(init), init, last);
    }
  }

  // ----- the fold

  /** process_cache on the first n slots for one field. */
  function Fold(c: Cache, field: Field, n: nat): Sample
    requires n <= SLOTS
  {
    if n == 0 then EMPTY
    else if c[n - 1].Some? then Combined(Fold(c, field, n - 1), Get(c[n - 1].value, field))
    else Fold(c, field, n - 1)
  }

  function FoldAll(c: Cache, field: Field): Sample {
    Fold(c, field, |c|)
  }

  type Sources = map<Byte, multiset<Reading>>

  ghost function Sum(m: Sources): multiset<Reading>
    decreases |m|
  {
    if m == map[] then multiset{}
    else
      var o :| o in m;
      m[o] + Sum(m - {o})
  }

  lemma {:induction false} SumOfOne(m: Sources, x: Byte)
    requires x in m
    ensures Sum(m) == m[x] + Sum(m - {x})
    decreases |m|
  {
    var o :| o in m && Sum(m) == m[o] + Sum(m - {o});
    if o != x {
      SumOfOne(m - {o}, x);
      SumOfOne(m - {x}, o);
      assert m - {o} - {x} == m - {x} - {o};
    }
  }

  lemma SumInsert(m: Sources, x: Byte, r: multiset<Reading>)
    requires x !in m
    ensures Sum(m[x := r]) == Sum(m) + r
  {
    SumOfOne(m[x := r], x);
    assert m[x := r] - {x} == m;
  }

  ghost function Within(m: Sources, origins: set<Byte>): Sources {
    map o | o in m && o in origins :: m[o]
  }

  /** The packets of the cache summarise the readings of their origins. */
  ghost predicate CacheSummarises(c: Cache, field: Field, m: Sources) {
    forall i :: 0 <= i < SLOTS && c[i].Some? ==>
      c[i].value.origin in m && Summarises(Get(c[i].value, field), m[c[i].value.origin])
  }

  /** The readings behind the first n slots. */
  ghost function Behind(c: Cache, m: Sources, n: nat): multiset<Reading>
    requires n <= SLOTS
  {
    Sum(Within(m, Contents(c, n).Keys))
  }

  lemma SumWithOneMore(m: Sources, origins: set<Byte>, o: Byte)
    requires o in m && o !in origins
    ensures Sum(Within(m, origins + {o})) == Sum(Within(m, origins)) + m[o]
  {
    SumInsert(Within(m, origins), o, m[o]);
    assert Within(m, origins + {o}) == Within(m, origins)[o := m[o]];
  }

  lemma BehindNext(c: Cache, field: Field, m: Sources, n: nat)
    requires n < SLOTS && Distinct(c) && CacheSummarises(c, field, m)
    ensures Behind(c, m, n + 1)
            == if c[n].Some? then Behind(c, m, n) + m[c[n].value.origin] else Behind(c, m, n)
    ensures |Behind(c, m, n)| <= |Behind(c, m, n + 1)|
  {
    if c[n].Some? {
      var o := c[n].value.origin;
      ContentsKeys(c, n, o);
      SumWithOneMore(m, Contents(c, n).Keys, o);
      assert Contents(c, n + 1).Keys == Contents(c, n).Keys + {o};
    }
  }

  lemma {:induction false} FoldSummarises(c: Cache, field: Field, m: Sources, n: nat)
    requires n <= SLOTS && Distinct(c) && CacheSummarises(c, field, m) && |Behind(c, m, n)| < 0x1_0000
    ensures Summarises(Fold(c, field, n), Behind(c, m, n))
  {
    if n == 0 {
      assert Within(m, Contents(c, 0).Keys) == map[];
    } else {
      BehindNext(c, field, m, n - 1);
      FoldSummarises(c, field, m, n - 1);
      FoldNext(c, field, m, n - 1, Behind(c, m, n - 1), Behind(c, m, n));
    }
  }

  lemma FoldNext(c: Cache, field: Field, m: Sources, n: nat, r: multiset<Reading>, r': multiset<Reading>)
    requires n < SLOTS && CacheSummarises(c, field, m) && Summarises(Fold(c, field, n), r) && |r'| < 0x1_0000
    requires r' == if c[n].Some? then r + m[c[n].value.origin] else r
    ensures Summarises(Fold(c, field, n + 1), r')
  {
    if c[n].Some? {
      CombineSummarises(Fold(c, field, n), r, Get(c[n].value, field), m[c[n].value.origin]);
    }
  }

  // ----- one round of a node

  /** update_period on the first n slots: the highest period in the cache. */
  function Highest(c: Cache, n: nat): Word16
    requires n <= SLOTS
  {
    if n == 0 then 0
    else if c[n - 1].Some? && c[n - 1].value.period > Highest(c, n - 1) then c[n - 1].value.period
    else Highest(c, n - 1)
  }

  const DEFAULT_PERIOD: Word16 := 100

  /** update_period: the sum is compared in 32 bits, so it never looks wrapped, and stored in 16. */
  function PeriodAfter(c: Cache): Word16 {
    var p := (Highest(c, |c|) + 10) % 0x1_0000;
    if p > DEFAULT_PERIOD then p else DEFAULT_PERIOD
  }

  /** No cached period is above it, and it is the period of some slot unless it is 0. */
  lemma {:induction false} HighestIs(c: Cache, n: nat)
    requires n <= SLOTS
    ensures forall i :: 0 <= i < n && c[i].Some? ==> c[i].value.period <= Highest(c, n)
    ensures Highest(c, n) == 0 || exists i :: 0 <= i < n && c[i].Some? && c[i].value.period == Highest(c, n)
  {
    if n > 0 {
      HighestIs(c, n - 1);
      if Highest(c, n) == Highest(c, n - 1) && Highest(c, n) != 0 {
        var i :| 0 <= i < n - 1 && c[i].Some? && c[i].value.period == Highest(c, n - 1);
        assert c[i].value.period == Highest(c, n);
      }
    }
  }

  /** The largest period among these packets, or 0. */
  ghost predicate IsHighest(h: nat, m: map<Byte, Packet>) {
    (forall o :: o in m ==> m[o].period <= h) && (h == 0 || exists o :: o in m && m[o].period == h)
  }

  lemma HighestUnique(h: nat, h': nat, m: map<Byte, Packet>)
    requires IsHighest(h, m) && IsHighest(h', m)
    ensures h == h'
  {}

  lemma HighestOfKnown(c: Cache)
    requires Distinct(c)
    ensures IsHighest(Highest(c, |c|), Known(c))
  {
    var h := Highest(c, |c|);
    HighestIs(c, |c|);
    forall o | o in Known(c)
      ensures Known(c)[o].period <= h
    {
      ContentsKeys(c, |c|, o);
      var i :| 0 <= i < |c| && c[i].Some? && c[i].value.origin == o;
      ContentsAt(c, |c|, i);
    }
    if h != 0 {
      var i :| 0 <= i < |c| && c[i].Some? && c[i].value.period == h;
      ContentsAt(c, |c|, i);
    }
  }

  /** A child with a period of 6553 seconds makes its parent report every 10 seconds. */
  lemma PeriodDoesNotSaturate(c: Cache, p: Packet)
    requires c == NOTHING[7 := Some(p)] && p.period == 65530
    ensures Highest(c, |c|) == 65530 && PeriodAfter(c) == DEFAULT_PERIOD
  {
    HighestIsOnly(c, p, 7);
    assert Highest(c, 8) == 65530;
  }

  lemma {:induction false} HighestIsOnly(c: Cache, p: Packet, n: nat)
    requires n <= 7 && c == NOTHING[7 := Some(p)]
    ensures Highest(c, n) == 0
  {
    if n > 0 {
      HighestIsOnly(c, p, n - 1);
    }
  }

  /** The local part of process_cache; there is no local pm025 sensor. */
  function AddLocal(s: Sample, field: Field, id: Byte, local: Option<Local>): Sample {
    match (local, field)
    case (Some(l), Temperature) => Combined(s, Single(id, l.temperature))
    case (Some(l), Humidity) => Combined(s, Single(id, l.humidity))
    case _ => s
  }

  function Outcome(c: Cache, field: Field, id: Byte, local: Option<Local>): Sample {
    AddLocal(FoldAll(c, field), field, id, local)
  }

  /** The packet app_sensor_task sends up. */
  function RoundPacket(c: Cache, id: Byte, local: Option<Local>): Packet {
    Packet(id, PeriodAfter(c), Outcome(c, Temperature, id, local), Outcome(c, Humidity, id, local),
           Outcome(c, Pm025, id, local))
  }

  // ----- a tree of nodes

  /** A node with its own reading and the packets it has received, each sent by a tree below it. */
  datatype Tree = Node(id: Byte, local: Option<Local>, arrivals: seq<Tree>)

  function PacketOf(t: Tree): Packet
    decreases t, 0
  {
    RoundPacket(Pushed(Packets(t.arrivals)), t.id, t.local)
  }

  function Packets(ts: seq<Tree>): (ps: seq<Packet>)
    ensures |ps| == |ts|
    decreases ts, 1
  {
    if ts == [] then [] else Packets(ts[..|ts| - 1]) + [PacketOf(ts[|ts| - 1])]
  }

  /** A node's own reading. */
  ghost function Own(id: Byte, local: Option<Local>, field: Field): multiset<Reading> {
    match (local, field)
    case (Some(l), Temperature) => multiset{Reading(id, l.temperature)}
    case (Some(l), Humidity) => multiset{Reading(id, l.humidity)}
    case _ => multiset{}
  }

  /** All readings of a tree: the node's own and those behind the latest packet of each child. */
  ghost function Readings(t: Tree, field: Field): multiset<Reading>
    decreases t, 0
  {
    Own(t.id, t.local, field) + Sum(LatestReadings(t.arrivals, field))
  }

  ghost function LatestReadings(ts: seq<Tree>, field: Field): Sources
    decreases ts, 1
  {
    if ts == [] then map[]
    else LatestReadings(ts[..|ts| - 1], field)[ts[|ts| - 1].id := Readings(ts[|ts| - 1], field)]
  }

  /** At most 8 children per node and 65535 readings per field. */
  ghost predicate Small(t: Tree, field: Field)
    decreases t, 0
  {
    && |LatestReadings(t.arrivals, field)| <= SLOTS && |Readings(t, field)| < 0x1_0000
    && AllSmall(t.arrivals, field)
  }

  ghost predicate AllSmall(ts: seq<Tree>, field: Field)
    decreases ts, 1
  {
    ts != [] ==> AllSmall(ts[..|ts| - 1], field) && Small(ts[|ts| - 1], field)
  }

  /** The latest packets summarise the latest readings. */
  ghost predicate LatestSummarise(ps: map<Byte, Packet>, field: Field, m: Sources) {
    ps.Keys == m.Keys && forall o :: o in ps ==> ps[o].origin == o && Summarises(Get(ps[o], field), m[o])
  }

  lemma {:induction false} PacketsSummarise(ts: seq<Tree>, field: Field)
    requires AllSmall(ts, field)
    ensures LatestSummarise(Latest(Packets(ts)), field, LatestReadings(ts, field))
    decreases ts, 1
  {
    if ts != [] {
      var init, last := ts[..|ts| - 1], ts[|ts| - 1];
      PacketsSummarise(init, field);
      RootSummarisesTree(last, field);
      assert Packets(ts)[..|ts| - 1] == Packets(init);
    }
  }

  lemma PushedSummarises(ps: seq<Packet>, field: Field, m: Sources)
    requires LatestSummarise(Latest(ps), field, m) && |m| <= SLOTS
    ensures Distinct(Pushed(ps)) && CacheSummarises(Pushed(ps), field, m)
    ensures Sum(Within(m, Known(Pushed(ps)).Keys)) == Sum(m)
  {
    var c := Pushed(ps);
    assert |Latest(ps).Keys| == |m.Keys|;
    PushedTracks(ps);
    forall i | 0 <= i < SLOTS && c[i].Some?
      ensures c[i].value.origin in m && Summarises(Get(c[i].value, field), m[c[i].value.origin])
    {
      ContentsAt(c, |c|, i);
    }
    assert Within(m, Known(c).Keys) == m;
  }

  lemma LocalSummarises(s: Sample, m: multiset<Reading>, field: Field, id: Byte, local: Option<Local>)
    requires Summarises(s, m) && |Own(id, local, field) + m| < 0x1_0000
    ensures Summarises(AddLocal(s, field, id, local), Own(id, local, field) + m)
  {
    assert m + Own(id, local, field) == Own(id, local, field) + m;
    if local.Some? && field != Pm025 {
      var v := if field == Temperature then local.value.temperature else local.value.humidity;
      SingleSummarises(id, v);
      CombineSummarises(s, m, Single(id, v), multiset{Reading(id, v)});
    } else {
      assert Own(id, local, field) + m == m;
    }
  }

  lemma RoundSummarises(c: Cache, field: Field, m: Sources, id: Byte, local: Option<Local>)
    requires Distinct(c) && CacheSummarises(c, field, m) && Behind(c, m, |c|) == Sum(m)
    requires |Own(id, local, field) + Sum(m)| < 0x1_0000
    ensures Summarises(Get(RoundPacket(c, id, local), field), Own(id, local, field) + Sum(m))
  {
    FoldSummarises(c, field, m, |c|);
    LocalSummarises(FoldAll(c, field), Sum(m), field, id, local);
  }

  /** The packet that leaves the root of a tree summarises all its readings, whatever its shape. */
  lemma {:induction false} RootSummarisesTree(t: Tree, field: Field)
    requires Small(t, field)
    ensures Summarises(Get(PacketOf(t), field), Readings(t, field))
    decreases t, 0
  {
    var ps, m := Packets(t.arrivals), LatestReadings(t.arrivals, field);
    PacketsSummarise(t.arrivals, field);
    PushedSummarises(ps, field, m);
    RoundSummarises(Pushed(ps), field, m, t.id, t.local);
  }

  lemma PeriodAfterPackets(ps: seq<Packet>, h: nat)
    requires |Latest(ps)| <= SLOTS && IsHighest(h, Latest(ps))
    ensures PeriodAfter(Pushed(ps)) == if 90 <= h < 0x1_0000 - 10 then h + 10 else 100
  {
    var c := Pushed(ps);
    PushedTracks(ps);
    HighestOfKnown(c);
    HighestUnique(Highest(c, |c|), h, Latest(ps));
  }

  /**
   * The period a node sends up, from the highest one among the latest packets of its children: a
   * second more, but at least 10 seconds, which is what it falls back to when the sum wraps.
   */
  lemma PeriodIs(t: Tree, h: nat)
    requires |Latest(Packets(t.arrivals))| <= SLOTS && IsHighest(h, Latest(Packets(t.arrivals)))
    ensures PacketOf(t).period == if 90 <= h < 0x1_0000 - 10 then h + 10 else 100
  {
    PeriodAfterPackets(Packets(t.arrivals), h);
  }

  /** It is a second or more above the latest period of every child exactly if all those leave room for a second. */
  lemma PeriodAboveChildrenIff(t: Tree)
    requires |Latest(Packets(t.arrivals))| <= SLOTS
    ensures var m := Latest(Packets(t.arrivals));
            (forall o :: o in m ==> PacketOf(t).period >= m[o].period + 10)
            <==> (forall o :: o in m ==> m[o].period < 0x1_0000 - 10)
  {
    var m, c := Latest(Packets(t.arrivals)), Pushed(Packets(t.arrivals));
    PushedTracks(Packets(t.arrivals));
    HighestOfKnown(c);
    PeriodIs(t, Highest(c, |c|));
    if h :| h in m && m[h].period >= 0x1_0000 - 10 {
      assert PacketOf(t).period < m[h].period + 10;
    }
  }

  lemma {:induction false} BehindGrows(c: Cache, field: Field, m: Sources, n: nat)
    requires n <= SLOTS && Distinct(c) && CacheSummarises(c, field, m)
    ensures |Behind(c, m, n)| <= |Behind(c, m, |c|)|
    decreases SLOTS - n
  {
    if n < SLOTS {
      BehindNext(c, field, m, n);
      BehindGrows(c, field, m, n + 1);
    }
  }

  lemma FoldDoesNotOverflow(c: Cache, field: Field, m: Sources, n: nat)
    requires n < SLOTS && Distinct(c) && CacheSummarises(c, field, m) && c[n].Some? && |Behind(c, m, |c|)| < 0x1_0000
    ensures INT32_MIN <= Fold(c, field, n).total + Get(c[n].value, field).total <= INT32_MAX
  {
    BehindGrows(c, field, m, n + 1);
    BehindNext(c, field, m, n);
    FoldSummarises(c, field, m, n);
    CombineSummarises(Fold(c, field, n), Behind(c, m, n), Get(c[n].value, field), m[c[n].value.origin]);
  }

  lemma LocalDoesNotOverflow(s: Sample, m: multiset<Reading>, id: Byte, v: Int16)
    requires Summarises(s, m) && |m| + 1 < 0x1_0000
    ensures INT32_MIN <= s.total + v <= INT32_MAX
  {
    SingleSummarises(id, v);
    CombineSummarises(s, m, Single(id, v), multiset{Reading(id, v)});
  }

  function LocalValue(local: Option<Local>, field: Field): Option<Int16> {
    match (local, field)
    case (Some(l), Temperature) => Some(l.temperature)
    case (Some(l), Humidity) => Some(l.humidity)
    case _ => None
  }

  predicate Fits32(x: int) {
    INT32_MIN <= x <= INT32_MAX
  }

  /** No addition to a total overflows 32 bits: not the cached ones, not the local one. */
  ghost predicate RoundFits(c: Cache, field: Field, local: Option<Local>) {
    && (forall n :: 0 <= n < SLOTS && c[n].Some? ==> Fits32(Fold(c, field, n).total + Get(c[n].value, field).total))
    && (LocalValue(local, field).Some? ==> Fits32(FoldAll(c, field).total + LocalValue(local, field).value))
  }

  /** The same in the round of this node and of every node below it. */
  ghost predicate AdditionsFit(t: Tree, field: Field)
    decreases t, 0
  {
    RoundFits(Pushed(Packets(t.arrivals)), field, t.local) && AllAdditionsFit(t.arrivals, field)
  }

  ghost predicate AllAdditionsFit(ts: seq<Tree>, field: Field)
    decreases ts, 1
  {
    ts != [] ==> AllAdditionsFit(ts[..|ts| - 1], field) && AdditionsFit(ts[|ts| - 1], field)
  }

  lemma FoldsDoNotOverflow(c: Cache, field: Field, m: Sources)
    requires Distinct(c) && CacheSummarises(c, field, m) && |Behind(c, m, |c|)| < 0x1_0000
    ensures forall n :: 0 <= n < SLOTS && c[n].Some? ==>
              Fits32(Fold(c, field, n).total + Get(c[n].value, field).total)
  {
    forall n | 0 <= n < SLOTS && c[n].Some?
      ensures Fits32(Fold(c, field, n).total + Get(c[n].value, field).total)
    {
      FoldDoesNotOverflow(c, field, m, n);
    }
  }

  lemma LocalAdditionFits(c: Cache, field: Field, m: Sources, id: Byte, local: Option<Local>)
    requires Distinct(c) && CacheSummarises(c, field, m) && Behind(c, m, |c|) == Sum(m)
    requires |Own(id, local, field) + Sum(m)| < 0x1_0000 && LocalValue(local, field).Some?
    ensures Fits32(FoldAll(c, field).total + LocalValue(local, field).value)
  {
    FoldSummarises(c, field, m, |c|);
    LocalDoesNotOverflow(FoldAll(c, field), Sum(m), id, LocalValue(local, field).value);
  }

  lemma RoundDoesNotOverflow(c: Cache, field: Field, m: Sources, id: Byte, local: Option<Local>)
    requires Distinct(c) && CacheSummarises(c, field, m) && Behind(c, m, |c|) == Sum(m)
    requires |Own(id, local, field) + Sum(m)| < 0x1_0000
    ensures RoundFits(c, field, local)
  {
    FoldsDoNotOverflow(c, field, m);
    if LocalValue(local, field).Some? {
      LocalAdditionFits(c, field, m, id, local);
    }
  }

  /** In a tree of at most 65535 readings no total overflows anywhere. */
  lemma {:induction false} TotalsDoNotOverflow(t: Tree, field: Field)
    requires Small(t, field)
    ensures AdditionsFit(t, field)
    decreases t, 0
  {
    var ps, m := Packets(t.arrivals), LatestReadings(t.arrivals, field);
    PacketsSummarise(t.arrivals, field);
    PushedSummarises(ps, field, m);
    RoundDoesNotOverflow(Pushed(ps), field, m, t.id, t.local);
    AllTotalsDoNotOverflow(t.arrivals, field);
  }

  lemma {:induction false} AllTotalsDoNotOverflow(ts: seq<Tree>, field: Field)
    requires AllSmall(ts, field)
    ensures AllAdditionsFit(ts, field)
    decreases ts, 1
  {
    if ts != [] {
      AllTotalsDoNotOverflow(ts[..|ts| - 1], field);
      TotalsDoNotOverflow(ts[|ts| - 1], field);
    }
  }
}
