/** What every reachable zoned device satisfies, and exactly how far its active counter can drift. */
module ZonedInvariant {
  import opened Zoned

  /** Number of zones whose condition is in cs. */
  function Count(zones: seq<Zone>, cs: set<Cond>): nat {
    if zones == [] then 0
    else Count(zones[..|zones| - 1], cs) + if zones[|zones| - 1].cond in cs then 1 else 0
  }

  const OPEN: set<Cond> := {ImpOpen, ExpOpen}
  const IMP: set<Cond> := {ImpOpen}
  const ACTIVE: set<Cond> := {ImpOpen, ExpOpen, Closed}

  function Holds(c: Cond, cs: set<Cond>): int {
    if c in cs then 1 else 0
  }

  lemma {:induction false} CountUpdate(zones: seq<Zone>, z: nat, zone: Zone, cs: set<Cond>)
    requires z < |zones|
    ensures Count(zones[z := zone], cs) == Count(zones, cs) - Holds(zones[z].cond, cs) + Holds(zone.cond, cs)
  {
    var n := |zones| - 1;
    if z == n {
      assert zones[z := zone][..n] == zones[..n];
    } else {
      CountUpdate(zones[..n], z, zone, cs);
      assert zones[z := zone][..n] == zones[..n][z := zone];
    }
  }

  lemma {:induction false} CountWitness(zones: seq<Zone>, cs: set<Cond>) returns (i: nat)
    requires Count(zones, cs) > 0
    ensures i < |zones| && zones[i].cond in cs
  {
    var n := |zones| - 1;
    if zones[n].cond in cs {
      i := n;
    } else {
      i := CountWitness(zones[..n], cs);
    }
  }

  lemma {:induction false} CountNone(zones: seq<Zone>, cs: set<Cond>)
    requires forall i :: 0 <= i < |zones| ==> zones[i].cond !in cs
    ensures Count(zones, cs) == 0
  {
    if zones != [] {
      CountNone(zones[..|zones| - 1], cs);
    }
  }

  /** One zone: where it lies, where its write pointer may be, which conditions go with which place. */
  predicate ZoneOk(cfg: Config, i: nat, zone: Zone) {
    && zone.start == ZoneStart(cfg, i) && zone.len == zone.capacity == cfg.zoneSectors
    && zone.start <= zone.wp <= zone.start + zone.capacity
    && (zone.ztype == Conventional <==> i < cfg.numConventional)
    && (zone.cond == NotWp <==> zone.ztype == Conventional)
    && (zone.ztype == Conventional ==> zone.wp == zone.start)
    && (zone.ztype == SeqWriteReq ==> (zone.cond == Full <==> zone.wp == zone.start + zone.capacity))
  }

  predicate ZonesOk(cfg: Config, zones: seq<Zone>) {
    |zones| == cfg.numZones && forall i :: 0 <= i < |zones| ==> ZoneOk(cfg, i, zones[i])
  }

  /** Resource accounting; `leaked` is the number of active slots that no zone holds any more. */
  predicate CountersOk(cfg: Config, d: Device, leaked: int) {
    && d.numOpen == Count(d.zones, OPEN) <= cfg.maxOpen
    && d.numImpOpen == Count(d.zones, IMP)
    && d.numActive == Count(d.zones, ACTIVE) + leaked <= cfg.maxActive
    && 0 <= leaked
  }

  predicate Inv(cfg: Config, d: Device, leaked: int) {
    ConfigOk(cfg) && |d.stats| == cfg.numZones && ZonesOk(cfg, d.zones) && CountersOk(cfg, d, leaked)
  }

  lemma FreshInv(cfg: Config, d: Device)
    requires ConfigOk(cfg) && |d.stats| == cfg.numZones && d.zones == FreshZones(cfg)
    requires d.numOpen == d.numImpOpen == d.numActive == 0
    ensures Inv(cfg, d, 0)
  {
    CountNone(d.zones, OPEN);
    CountNone(d.zones, IMP);
    CountNone(d.zones, ACTIVE);
  }

  /** Replacing one zone by a well-formed one moves each count by that zone's share. */
  lemma ReplaceZone(cfg: Config, d: Device, z: nat, zone: Zone, leaked: int, open: int, imp: int, active: int, leaked': int)
    requires Inv(cfg, d, leaked) && z < |d.zones| && ZoneOk(cfg, z, zone)
    requires open == d.numOpen - OpenShare(d.zones[z].cond) + OpenShare(zone.cond) <= cfg.maxOpen
    requires imp == d.numImpOpen - ImpShare(d.zones[z].cond) + ImpShare(zone.cond)
    requires active == d.numActive - ActiveShare(d.zones[z].cond) + ActiveShare(zone.cond) + leaked' - leaked
    requires active <= cfg.maxActive && 0 <= leaked'
    ensures Inv(cfg, d.(zones := d.zones[z := zone], numOpen := open, numImpOpen := imp, numActive := active), leaked')
  {
    CountUpdate(d.zones, z, zone, OPEN);
    CountUpdate(d.zones, z, zone, IMP);
    CountUpdate(d.zones, z, zone, ACTIVE);
  }

  /** The counters never go below zero when a zone gives its share back. */
  lemma SharesHeld(cfg: Config, d: Device, z: nat, leaked: int)
    requires Inv(cfg, d, leaked) && z < |d.zones|
    ensures OpenShare(d.zones[z].cond) <= d.numOpen
    ensures ImpShare(d.zones[z].cond) <= d.numImpOpen <= d.numOpen
    ensures ActiveShare(d.zones[z].cond) <= d.numActive && d.numOpen <= d.numActive
  {
    CountUpdate(d.zones, z, d.zones[z].(cond := Empty), OPEN);
    CountUpdate(d.zones, z, d.zones[z].(cond := Empty), IMP);
    CountUpdate(d.zones, z, d.zones[z].(cond := Empty), ACTIVE);
    CountSubset(d.zones, IMP, OPEN);
    CountSubset(d.zones, OPEN, ACTIVE);
  }

  lemma {:induction false} CountSubset(zones: seq<Zone>, cs: set<Cond>, ds: set<Cond>)
    requires cs <= ds
    ensures Count(zones, cs) <= Count(zones, ds)
  {
    if zones != [] {
      CountSubset(zones[..|zones| - 1], cs, ds);
    }
  }

  // ---------------------------------------------------------------------------------------------
  // Eviction

  /**
   * When the open limit is hit while some zone is implicitly open, the scan finds the lowest such
   * zone other than the caller's, closes exactly that zone, and makes room for one more open zone.
   */
  lemma EvictionSucceeds(cfg: Config, d: Device, skip: nat, leaked: int)
    requires Inv(cfg, d, leaked) && skip < |d.zones| && d.zones[skip].cond != ImpOpen && d.numImpOpen > 0
    ensures var v := FirstImpOpen(d.zones, cfg.numConventional, skip);
      && cfg.numConventional <= v < |d.zones| && v != skip && d.zones[v].cond == ImpOpen
      && (forall i :: 0 <= i < v ==> d.zones[i].cond != ImpOpen)
      && CloseImpOpen(cfg, d, skip).zones == d.zones[v := d.zones[v].(cond := Closed)]
    ensures CloseImpOpen(cfg, d, skip).numOpen < cfg.maxOpen
    ensures Inv(cfg, CloseImpOpen(cfg, d, skip), leaked)
  {
    var i := CountWitness(d.zones, IMP);
    var v := FirstImpOpen(d.zones, cfg.numConventional, skip);
    assert ZoneOk(cfg, i, d.zones[i]);
    assert v < |d.zones|;
    assert ZoneOk(cfg, v, d.zones[v]);
    forall j | 0 <= j < v ensures d.zones[j].cond != ImpOpen {
      assert ZoneOk(cfg, j, d.zones[j]);
    }
    ReplaceZone(cfg, d, v, d.zones[v].(cond := Closed), leaked, d.numOpen - 1, d.numImpOpen - 1, d.numActive, leaked);
  }

  // ---------------------------------------------------------------------------------------------
  // Every operation keeps the invariant

  /** open_zone_locked takes an active slot for an EMPTY zone before it finds the open limit reached. */
  predicate LeaksSlot(cfg: Config, d: Device, z: nat)
    requires z < |d.zones|
  {
    d.zones[z].cond == Empty && d.numActive < cfg.maxActive && d.numOpen >= cfg.maxOpen
  }

  function LeakCount(leaks: bool): int {
    if leaks then 1 else 0
  }

  lemma OpenClosedInv(cfg: Config, d: Device, z: nat, explicit: bool, leaked: int)
    requires Inv(cfg, d, leaked) && z < |d.zones| && d.zones[z].cond == Closed
    ensures Inv(cfg, OpenClosed(cfg, d, z, explicit).0, leaked)
  {
    if d.numOpen >= cfg.maxOpen {
      if d.numImpOpen > 0 {
        EvictionSucceeds(cfg, d, z, leaked);
      }
    } else {
      var c := if explicit then ExpOpen else ImpOpen;
      ReplaceZone(cfg, d, z, d.zones[z].(cond := c), leaked, d.numOpen + 1, d.numImpOpen + ImpShare(c), d.numActive, leaked);
    }
  }

  lemma OpenEmptyInv(cfg: Config, d: Device, z: nat, explicit: bool, leaked: int)
    requires Inv(cfg, d, leaked) && z < |d.zones| && d.zones[z].cond == Empty && d.numActive < cfg.maxActive
    ensures Inv(cfg, OpenClosed(cfg, d.(numActive := d.numActive + 1), z, explicit).0,
                leaked + LeakCount(LeaksSlot(cfg, d, z)))
  {
    if d.numOpen >= cfg.maxOpen {
      var d1 := d.(numActive := d.numActive + 1);
      assert Inv(cfg, d1, leaked + 1);
      if d.numImpOpen > 0 {
        EvictionSucceeds(cfg, d1, z, leaked + 1);
      }
    } else {
      var c := if explicit then ExpOpen else ImpOpen;
      ReplaceZone(cfg, d, z, d.zones[z].(cond := c), leaked, d.numOpen + 1, d.numImpOpen + ImpShare(c), d.numActive + 1, leaked);
    }
  }

  lemma ZoneAt(cfg: Config, d: Device, z: nat, leaked: int)
    requires Inv(cfg, d, leaked) && z < |d.zones|
    ensures ZoneOk(cfg, z, d.zones[z]) && |d.zones| == cfg.numZones
    ensures d.numOpen <= cfg.maxOpen && d.numActive <= cfg.maxActive && 0 <= leaked
  {
  }

  lemma OpenLockedInv(cfg: Config, d: Device, z: nat, explicit: bool, leaked: int)
    requires Inv(cfg, d, leaked) && z < |d.zones|
    ensures Inv(cfg, OpenLocked(cfg, d, z, explicit).0, leaked + LeakCount(LeaksSlot(cfg, d, z)))
  {
    hide ZonesOk, CountersOk, OpenClosed;
    match d.zones[z].cond {
      case ImpOpen =>
        ZoneAt(cfg, d, z, leaked);
        ReplaceZone(cfg, d, z, d.zones[z].(cond := ExpOpen), leaked, d.numOpen, d.numImpOpen - 1, d.numActive, leaked);
      case Empty =>
        if d.numActive < cfg.maxActive {
          OpenEmptyInv(cfg, d, z, explicit, leaked);
        }
      case Closed =>
        OpenClosedInv(cfg, d, z, explicit, leaked);
      case _ =>
    }
  }

  /** Opening moves no write pointer and leaves the zone fit for writing. */
  lemma OpenLockedFrame(cfg: Config, d: Device, z: nat, explicit: bool)
    requires cfg.numConventional <= |d.zones| && z < |d.zones|
    ensures var r := OpenLocked(cfg, d, z, explicit);
      && r.0.stats == d.stats && |r.0.zones| == |d.zones|
      && (forall i :: 0 <= i < |d.zones| ==> r.0.zones[i].(cond := d.zones[i].cond) == d.zones[i])
      && (d.zones[z].cond != NotWp && d.zones[z].cond != Full ==>
            r.0.zones[z].cond != NotWp && r.0.zones[z].cond != Full)
  {
  }

  lemma RetireInv(cfg: Config, d: Device, z: nat, zone: Zone, leaked: int)
    requires Inv(cfg, d, leaked) && z < |d.zones| && ZoneOk(cfg, z, zone)
    requires OpenShare(zone.cond) == ImpShare(zone.cond) == ActiveShare(zone.cond) == 0
    ensures Inv(cfg, Retire(d, z, zone.cond).(zones := d.zones[z := zone]), leaked)
  {
    var was := d.zones[z].cond;
    ReplaceZone(cfg, d, z, zone, leaked, d.numOpen - OpenShare(was), d.numImpOpen - ImpShare(was),
                d.numActive - ActiveShare(was), leaked);
  }

  lemma MarkFullInv(cfg: Config, d: Device, z: nat, leaked: int)
    requires Inv(cfg, d, leaked) && z < |d.zones|
    ensures Inv(cfg, MarkFull(d, z).0, leaked)
  {
    var zone := d.zones[z];
    assert ZoneOk(cfg, z, zone);
    if zone.cond != NotWp {
      RetireInv(cfg, d, z, zone.(cond := Full, wp := zone.start + zone.len), leaked);
      assert MarkFull(d, z).0.zones == d.zones[z := zone.(cond := Full, wp := zone.start + zone.len)];
    }
  }

  lemma AdvanceInv(cfg: Config, d: Device, z: nat, length: nat, leaked: int)
    requires Inv(cfg, d, leaked) && z < |d.zones| && d.zones[z].cond != NotWp && d.zones[z].cond != Full
    requires d.zones[z].wp + Sectors(length) <= d.zones[z].start + d.zones[z].capacity
    ensures Inv(cfg, Advance(d, z, length), leaked)
  {
    var zone := d.zones[z];
    assert ZoneOk(cfg, z, zone);
    var wp := zone.wp + Sectors(length);
    if wp == zone.start + zone.capacity {
      RetireInv(cfg, d, z, zone.(cond := Full, wp := wp), leaked);
      assert Advance(d, z, length).zones == d.zones[z := zone.(cond := Full, wp := wp)];
    } else {
      ReplaceZone(cfg, d, z, zone.(wp := wp), leaked, d.numOpen, d.numImpOpen, d.numActive, leaked);
    }
  }

  lemma OpenForWriteInv(cfg: Config, d: Device, z: nat, leaked: int)
    requires Inv(cfg, d, leaked) && z < |d.zones|
    ensures Inv(cfg, OpenForWrite(cfg, d, z).0, leaked + LeakCount(LeaksSlot(cfg, d, z)))
    ensures OpenForWrite(cfg, d, z).0.stats == d.stats
    ensures var zone := OpenForWrite(cfg, d, z).0.zones[z];
      && zone.(cond := d.zones[z].cond) == d.zones[z]
      && (OpenForWrite(cfg, d, z).1 == Ok ==> zone.cond != NotWp && zone.cond != Full)
  {
    hide ZonesOk, CountersOk, OpenLocked;
    ZoneAt(cfg, d, z, leaked);
    OpenLockedInv(cfg, d, z, false, leaked);
    OpenLockedFrame(cfg, d, z, false);
  }

  /** The checks a write or append to a sequential zone has to pass before the zone is opened. */
  predicate WriteFits(d: Device, z: nat, offset: nat, length: nat, append: bool)
    requires z < |d.zones|
  {
    && (append || Bytes(d.zones[z].wp) == offset)
    && Bytes(d.zones[z].wp) + length <= Bytes(d.zones[z].start + d.zones[z].capacity)
  }

  /** The write loses an active slot. */
  predicate WriteLeaks(cfg: Config, d: Device, offset: nat, length: nat, append: bool)
    requires ConfigOk(cfg) && ZoneNumber(cfg, offset) < |d.zones|
  {
    var z := ZoneNumber(cfg, offset);
    d.zones[z].ztype == SeqWriteReq && WriteFits(d, z, offset, length, append) && LeaksSlot(cfg, d, z)
  }

  lemma WriteSequential(cfg: Config, d: Device, offset: nat, length: nat, append: bool)
    requires ConfigOk(cfg) && cfg.numConventional <= |d.zones| == |d.stats| && ZoneNumber(cfg, offset) < |d.zones|
    requires d.zones[ZoneNumber(cfg, offset)].ztype == SeqWriteReq
    requires |OpenForWrite(cfg, d, ZoneNumber(cfg, offset)).0.zones| == |d.zones|
    requires |Advance(OpenForWrite(cfg, d, ZoneNumber(cfg, offset)).0, ZoneNumber(cfg, offset), length).stats| == |d.stats|
    ensures var z := ZoneNumber(cfg, offset); var o := OpenForWrite(cfg, d, z);
      WriteCommon(cfg, d, offset, length, append).dev
      == if !WriteFits(d, z, offset, length, append) then d
         else if o.1 != Ok then o.0
         else CountWritten(Advance(o.0, z, length), z, length)
  {
  }

  lemma WriteInv(cfg: Config, d: Device, offset: nat, length: nat, append: bool, leaked: int)
    requires Inv(cfg, d, leaked) && ZoneNumber(cfg, offset) < cfg.numZones
    ensures Inv(cfg, WriteCommon(cfg, d, offset, length, append).dev,
                leaked + LeakCount(WriteLeaks(cfg, d, offset, length, append)))
  {
    var z := ZoneNumber(cfg, offset);
    assert ZoneOk(cfg, z, d.zones[z]);
    if d.zones[z].ztype == SeqWriteReq {
      hide OpenForWrite, Advance, WriteCommon, LeaksSlot, CountersOk;
      OpenForWriteInv(cfg, d, z, leaked);
      AdvanceStats(OpenForWrite(cfg, d, z).0, z, length);
      WriteSequential(cfg, d, offset, length, append);
      var o := OpenForWrite(cfg, d, z);
      if WriteFits(d, z, offset, length, append) && o.1 == Ok {
        var leaked1 := leaked + LeakCount(LeaksSlot(cfg, d, z));
        AdvanceInv(cfg, o.0, z, length, leaked1);
        CountWrittenInv(cfg, Advance(o.0, z, length), z, length, leaked1);
      }
    } else {
      CountWrittenInv(cfg, d, z, length, leaked);
    }
  }

  lemma AdvanceStats(d: Device, z: nat, length: nat)
    requires z < |d.zones|
    ensures Advance(d, z, length).stats == d.stats
  {
  }

  lemma CountWrittenInv(cfg: Config, d: Device, z: nat, n: nat, leaked: int)
    requires Inv(cfg, d, leaked) && z < |d.stats|
    ensures Inv(cfg, CountWritten(d, z, n), leaked)
  {
  }

  lemma CloseInv(cfg: Config, d: Device, offset: nat, leaked: int)
    requires Inv(cfg, d, leaked) && ZoneNumber(cfg, offset) < cfg.numZones
    ensures Inv(cfg, CloseZone(cfg, d, offset).0, leaked)
  {
    var z := ZoneNumber(cfg, offset);
    var zone := d.zones[z];
    assert ZoneOk(cfg, z, zone);
    if ActiveShare(zone.cond) != 0 {
      if zone.wp == zone.start {
        RetireInv(cfg, d, z, zone.(cond := Empty), leaked);
      } else {
        ReplaceZone(cfg, d, z, zone.(cond := Closed), leaked, d.numOpen - OpenShare(zone.cond),
                    d.numImpOpen - ImpShare(zone.cond), d.numActive, leaked);
      }
    }
  }

  lemma ResetInv(cfg: Config, d: Device, offset: nat, leaked: int)
    requires Inv(cfg, d, leaked) && ZoneNumber(cfg, offset) < cfg.numZones
    ensures Inv(cfg, ResetZone(cfg, d, offset).0, leaked)
  {
    var z := ZoneNumber(cfg, offset);
    var zone := d.zones[z];
    assert ZoneOk(cfg, z, zone);
    var d1 := CountReset(d, z);
    assert Inv(cfg, d1, leaked);
    if zone.cond != Empty && zone.cond != NotWp {
      RetireInv(cfg, d1, z, zone.(cond := Empty, wp := zone.start), leaked);
      assert SetWp(Retire(d1, z, Empty), z, zone.start).zones == d.zones[z := zone.(cond := Empty, wp := zone.start)];
    }
  }
}
