/**
 * The state of app_sensor.c, updated in place: the cache with its usage mask, the period, and
 * the accumulators of the packet being filled.
 */
module SensorNode {
  import opened Options
  import opened Samples
  import opened SensorTree

  /** A sensor_sample_t that is accumulated into. */
  class Accumulator {
    var min: Int32
    var max: Int32
    var total: Int32
    var count: Word16
    var idMin: Byte
    var idMax: Byte

    /** The sample in init_packet. */
    constructor ()
      ensures Value() == EMPTY
    {
      min, max, total, count, idMin, idMax := INT32_MAX, INT32_MIN, 0, 0, 0, 0;
    }

    function Value(): Sample
      reads this
    {
      Sample(min, max, total, count, idMin, idMax)
    }

    /** combine. */
    method Combine(s: Sample)
      modifies this
      ensures Value() == Combined(old(Value()), s)
    {
      if s.count > 0 {
        total := Wrap32(total + s.total);
        count := (count + s.count) % 0x1_0000;
        if s.max > max {
          max := s.max;
          idMax := s.idMax;
        }
        if s.min < min {
          min := s.min;
          idMin := s.idMin;
        }
      }
    }
  }

  class Node {
    const entry: array<Packet>
    const usage: array<bool>  // the bits of the usage mask
    const id: Byte
    var period: Word16

    /** app_sensor_init. */
    constructor (nodeId: Byte)
      requires nodeId != 0
      ensures Valid() && CacheIs() == NOTHING && id == nodeId && period == DEFAULT_PERIOD
    {
      id, period := nodeId, DEFAULT_PERIOD;
      var zero := Sample(0, 0, 0, 0, 0, 0);
      entry := new Packet[SLOTS](_ => Packet(0, 0, zero, zero, zero));
      usage := new bool[SLOTS](_ => false);
    }

    ghost predicate Valid() {
      entry.Length == usage.Length == SLOTS
    }

    ghost function Slot(i: nat): Option<Packet>
      requires Valid() && i < SLOTS
      reads entry, usage
    {
      if usage[i] then Some(entry[i]) else None
    }

    ghost function CacheIs(): Cache
      requires Valid()
      reads entry, usage
    {
      seq(SLOTS, i requires 0 <= i < SLOTS && Valid() reads entry, usage => Slot(i))
    }

    /** The loop of push_cache. */
    method FindSlot(origin: Byte) returns (slot: int)
      requires Valid()
      ensures slot == SlotFrom(CacheIs(), origin, 0, -1)
    {
      slot := -1;
      var i := 0;
      while i < SLOTS
        invariant 0 <= i <= SLOTS && -1 <= slot < SLOTS
        invariant SlotFrom(CacheIs(), origin, 0, -1) == SlotFrom(CacheIs(), origin, i, slot)
      {
        if usage[i] && entry[i].origin == origin {
          return i;
        }
        if !usage[i] {
          slot := i;
        }
        i := i + 1;
      }
    }

    /** push_cache; false where the source would shift by a negative count. */
    method PushCache(p: Packet) returns (defined: bool)
      requires Valid()
      modifies entry, usage
      ensures defined <==> HasRoom(old(CacheIs()), p.origin)
      ensures CacheIs() == Push(old(CacheIs()), p)
    {
      var slot := FindSlot(p.origin);
      if slot < 0 {
        return false;
      }
      usage[slot] := true;
      entry[slot] := p;
      defined := true;
    }

    /** update_period. */
    method UpdatePeriod()
      requires Valid()
      modifies this`period
      ensures period == PeriodAfter(CacheIs())
      ensures (forall i :: 0 <= i < SLOTS && usage[i] ==> entry[i].period < 0x1_0000 - 10) ==>
                forall i :: 0 <= i < SLOTS && usage[i] ==> period >= entry[i].period + 10
    {
      var highest: Word16 := 0;
      for i := 0 to SLOTS
        invariant highest == Highest(CacheIs(), i)
      {
        if usage[i] && entry[i].period > highest {
          highest := entry[i].period;
        }
      }
      HighestIs(CacheIs(), SLOTS);
      assert forall i :: 0 <= i < SLOTS && usage[i] ==> CacheIs()[i] == Some(entry[i]);
      period := UINT16_MAX;
      if highest + 10 > highest {
        period := (highest + 10) % 0x1_0000;
      }
      period := if period > DEFAULT_PERIOD then period else DEFAULT_PERIOD;
    }

    /** process_cache: fold the cache and the local reading into the packet and clear the cache. */
    method ProcessCache(temperature: Accumulator, humidity: Accumulator, pm025: Accumulator, local: Option<Local>)
      requires Valid() && temperature != humidity && temperature != pm025 && humidity != pm025
      requires temperature.Value() == humidity.Value() == pm025.Value() == EMPTY
      modifies entry, usage, temperature, humidity, pm025
      ensures temperature.Value() == Outcome(old(CacheIs()), Temperature, id, local)
      ensures humidity.Value() == Outcome(old(CacheIs()), Humidity, id, local)
      ensures pm025.Value() == Outcome(old(CacheIs()), Pm025, id, local)
      ensures CacheIs() == NOTHING
    {
      ghost var c := CacheIs();
      for i := 0 to SLOTS
        invariant CacheIs() == c
        invariant temperature.Value() == Fold(c, Temperature, i)
        invariant humidity.Value() == Fold(c, Humidity, i)
        invariant pm025.Value() == Fold(c, Pm025, i)
      {
        if usage[i] {
          var p := entry[i];
          temperature.Combine(p.temperature);
          humidity.Combine(p.humidity);
          pm025.Combine(p.pm025);
        }
      }
      if local.Some? {
        temperature.Combine(Single(id, local.value.temperature));
        humidity.Combine(Single(id, local.value.humidity));
      }
      forall i | 0 <= i < SLOTS {
        usage[i] := false;
      }
    }

    /** The receiving loop of app_sensor_task. */
    method PushAll(inbox: seq<Packet>) returns (defined: bool)
      requires Valid() && CacheIs() == NOTHING
      modifies entry, usage
      ensures defined <==> |Latest(inbox)| <= SLOTS
      ensures defined ==> CacheIs() == Pushed(inbox)
    {
      defined := true;
      StartTracks();
      for i := 0 to |inbox|
        invariant CacheIs() == Pushed(inbox[..i]) && Tracks(CacheIs(), inbox[..i])
      {
        PushTracks(CacheIs(), inbox[..i], inbox[i]);
        PushedSnoc(inbox[..i], inbox[i]);
        assert inbox[..i + 1] == inbox[..i] + [inbox[i]];
        defined := PushCache(inbox[i]);
        if !defined {
          LatestGrows(inbox, i + 1);
          return;
        }
      }
      assert inbox[..|inbox|] == inbox;
      StaysWithin(inbox, CacheIs());
    }

    /** The rest of a round: update the period and fill a packet, which empties the cache. */
    method Report(local: Option<Local>) returns (out: Packet)
      requires Valid()
      modifies this`period, entry, usage
      ensures CacheIs() == NOTHING && out == RoundPacket(old(CacheIs()), id, local)
    {
      UpdatePeriod();
      var temperature := new Accumulator();
      var humidity := new Accumulator();
      var pm025 := new Accumulator();
      ProcessCache(temperature, humidity, pm025, local);
      out := Packet(id, period, temperature.Value(), humidity.Value(), pm025.Value());
    }

    /** One round of app_sensor_task: everything received goes into the cache, one packet goes up. */
    method Round(inbox: seq<Packet>, local: Option<Local>) returns (defined: bool, out: Packet)
      requires Valid() && CacheIs() == NOTHING
      modifies this`period, entry, usage
      ensures defined <==> |Latest(inbox)| <= SLOTS
      ensures defined ==> CacheIs() == NOTHING && out == RoundPacket(Pushed(inbox), id, local)
    {
      out := Packet(id, 0, EMPTY, EMPTY, EMPTY);
      defined := PushAll(inbox);
      if defined {
        out := Report(local);
      }
    }
  }

  lemma PushedSnoc(ps: seq<Packet>, p: Packet)
    ensures Pushed(ps + [p]) == Push(Pushed(ps), p)
  {
    assert (ps + [p])[..|ps|] == ps;
  }

  lemma StaysWithin(ps: seq<Packet>, c: Cache)
    requires Tracks(c, ps)
    ensures |Latest(ps)| <= SLOTS
  {
    ContentsCount(c, |c|);
  }

  lemma {:induction false} LatestGrows(ps: seq<Packet>, n: nat)
    requires n <= |ps|
    ensures |Latest(ps[..n])| <= |Latest(ps)|
    decreases |ps|
  {
    if n < |ps| {
      assert ps[..|ps| - 1][..n] == ps[..n];
      LatestGrows(ps[..|ps| - 1], n);
    } else {
      assert ps[..n] == ps;
    }
  }
}
