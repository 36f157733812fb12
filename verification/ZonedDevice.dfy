/** examples/zoned-common.h over examples/zoned-ramdisk.c: the zone table, counters and bytes updated in place. */
module ZonedDevice {
  import opened Memory
  import opened Wrappers
  import opened Zoned
  import opened ZonedInvariant
  import opened ZonedRun

  lemma ResetKeepsPlace(d: Device, z: nat)
    requires z < |d.zones| == |d.stats|
    ensures |ResetAt(d, z).0.zones| == |d.zones|
    ensures ResetAt(d, z).0.zones[z].start == d.zones[z].start && ResetAt(d, z).0.zones[z].len == d.zones[z].len
  {
  }

  class ZonedDisk {
    const cfg: Config
    const zoneInfo: array<Zone>
    const stats: array<Stat>
    const data: array<byte>          // in_memory_data
    var numOpen: nat                 // unsigned: never below zero
    var numImpOpen: nat
    var numActive: nat

    predicate Shape() {
      ConfigOk(cfg) && zoneInfo.Length == stats.Length == cfg.numZones && data.Length == DiskBytes(cfg)
    }

    function Dev(): Device
      reads this, zoneInfo, stats
    {
      Device(zoneInfo[..], stats[..], numOpen, numImpOpen, numActive)
    }

    function Abs(): State
      reads this, zoneInfo, stats, data
    {
      State(Dev(), data[..])
    }

    predicate Valid()
      reads this, zoneInfo, stats, data
    {
      Shape() && SysOk(cfg, Abs())
    }

    /** initialize: a fresh zone table, no statistics, a zeroed disk. */
    constructor (cfg: Config)
      requires ConfigOk(cfg)
      ensures Valid() && this.cfg == cfg && Abs() == InitState(cfg)
      ensures fresh(zoneInfo) && fresh(stats) && fresh(data)
    {
      this.cfg := cfg;
      zoneInfo := new Zone[cfg.numZones](i requires 0 <= i => FreshZone(cfg, i));
      stats := new Stat[cfg.numZones](_ => Stat(0, 0, 0, 0));
      data := new byte[DiskBytes(cfg)](_ => 0);
      numOpen, numImpOpen, numActive := 0, 0, 0;
      new;
      assert zoneInfo[..] == FreshZones(cfg);
      assert stats[..] == InitState(cfg).dev.stats;
      assert data[..] == Zeros(DiskBytes(cfg));
      FreshInv(cfg, Dev());
      LeakedIs(cfg, Dev(), 0);
    }

    /** close_imp_open_zone. */
    method CloseImpOpenZone(skip: nat)
      requires Shape()
      requires FirstImpOpen(zoneInfo[..], cfg.numConventional, skip) < zoneInfo.Length ==> 0 < numOpen && 0 < numImpOpen
      modifies this, zoneInfo
      ensures Dev() == CloseImpOpen(cfg, old(Dev()), skip)
    {
      var zone := cfg.numConventional;
      while zone < zoneInfo.Length
        invariant zone <= zoneInfo.Length && Dev() == old(Dev())
        invariant FirstImpOpen(zoneInfo[..], cfg.numConventional, skip) == FirstImpOpen(zoneInfo[..], zone, skip)
      {
        if zone == skip {
          zone := zone + 1;
          continue;
        }
        if zoneInfo[zone].cond == ImpOpen {
          zoneInfo[zone] := zoneInfo[zone].(cond := Closed);
          numOpen := numOpen - 1;
          numImpOpen := numImpOpen - 1;
          break;
        }
        zone := zone + 1;
      }
    }

    /** Counters cover what zone z holds of them, and eviction finds what it counts on. */
    predicate Covered(z: nat)
      requires Shape() && z < zoneInfo.Length
      reads this, zoneInfo
    {
      && OpenShare(zoneInfo[z].cond) <= numOpen && ImpShare(zoneInfo[z].cond) <= numImpOpen <= numOpen
      && ActiveShare(zoneInfo[z].cond) <= numActive
    }

    /** open_zone_locked: an EMPTY zone falls into the CLOSED case after taking its active slot. */
    method OpenZoneLocked(z: nat, explicit: bool) returns (result: Status)
      requires Shape() && z < zoneInfo.Length && Covered(z)
      modifies this, zoneInfo
      ensures (Dev(), result) == OpenLocked(cfg, old(Dev()), z, explicit)
    {
      result := Ok;
      match zoneInfo[z].cond {
        case ImpOpen =>
          if explicit {
            numImpOpen := numImpOpen - 1;
            zoneInfo[z] := zoneInfo[z].(cond := ExpOpen);
          }
        case ExpOpen =>
        case Empty =>
          if numActive >= cfg.maxActive {
            result := ActiveResource;
          } else {
            numActive := numActive + 1;
            result := OpenZoneClosed(z, explicit);
          }
        case Closed =>
          result := OpenZoneClosed(z, explicit);
        case _ =>
          result := IoErr;
      }
    }

    /** Lines 137-153. */
    method OpenZoneClosed(z: nat, explicit: bool) returns (result: Status)
      requires Shape() && z < zoneInfo.Length && numImpOpen <= numOpen
      modifies this, zoneInfo
      ensures (Dev(), result) == OpenClosed(cfg, old(Dev()), z, explicit)
    {
      result := Ok;
      if numOpen >= cfg.maxOpen {
        if numImpOpen > 0 {
          CloseImpOpenZone(z);
        } else {
          result := OpenResource;
        }
        return;
      }
      numOpen := numOpen + 1;
      if explicit {
        zoneInfo[z] := zoneInfo[z].(cond := ExpOpen);
      } else {
        numImpOpen := numImpOpen + 1;
        zoneInfo[z] := zoneInfo[z].(cond := ImpOpen);
      }
    }

    /** mark_zone_full_locked: IMP_OPEN falls into EXP_OPEN, that into CLOSED, that into the rest. */
    method MarkZoneFullLocked(z: nat) returns (result: Status)
      requires Shape() && z < zoneInfo.Length && Covered(z)
      modifies this, zoneInfo
      ensures (Dev(), result) == MarkFull(old(Dev()), z)
    {
      result := Ok;
      var c := zoneInfo[z].cond;
      if c == NotWp {
        result := IoErr;
      } else {
        if c == ImpOpen {
          numImpOpen := numImpOpen - 1;
        }
        if c == ImpOpen || c == ExpOpen {
          numOpen := numOpen - 1;
        }
        if c == ImpOpen || c == ExpOpen || c == Closed {
          numActive := numActive - 1;
        }
        zoneInfo[z] := zoneInfo[z].(cond := Full);
        zoneInfo[z] := zoneInfo[z].(wp := zoneInfo[z].start + zoneInfo[z].len);
      }
    }

    lemma CoveredHere(z: nat)
      requires Valid() && z < zoneInfo.Length
      ensures Covered(z) && ZoneOk(cfg, z, zoneInfo[z])
    {
      SharesHeld(cfg, Dev(), z, Leaked(Dev()));
    }

    /** zoned_read. */
    method Read(offset: nat, length: nat) returns (out: seq<byte>)
      requires Valid() && OpOk(cfg, ReadOp(offset, length))
      modifies stats
      ensures Valid() && (Abs(), Reply(Ok, None, out)) == Step(cfg, old(Abs()), ReadOp(offset, length))
    {
      StepInv(cfg, Abs(), ReadOp(offset, length));
      var zone := ZoneNumber(cfg, offset);
      ZoneInDisk(cfg, zone);
      stats[zone] := stats[zone].(read := stats[zone].read + length);
      out := data[offset..offset + length];
    }

    /** raw_write: ramdisk_write. */
    method RawWrite(payload: seq<byte>, offset: nat)
      requires offset + |payload| <= data.Length
      modifies data
      ensures data[..] == Splice(old(data[..]), offset, payload)
    {
      forall k | offset <= k < offset + |payload| {
        data[k] := payload[k - offset];
      }
    }

    /** raw_discard: ramdisk_discard. */
    method RawDiscard(offset: nat, length: nat)
      requires offset + length <= data.Length
      modifies data
      ensures data[..] == Splice(old(data[..]), offset, Zeros(length))
    {
      forall k | offset <= k < offset + length {
        data[k] := 0;
      }
    }

    /** Lines 241-247: move the write pointer, finish a filled zone. */
    method AdvanceZone(z: nat, length: nat)
      requires Shape() && z < zoneInfo.Length && Covered(z)
      modifies this, zoneInfo
      ensures Dev() == Advance(old(Dev()), z, length)
    {
      zoneInfo[z] := zoneInfo[z].(wp := zoneInfo[z].wp + Sectors(length));
      if zoneInfo[z].wp == zoneInfo[z].start + zoneInfo[z].capacity {
        var _ := MarkZoneFullLocked(z);
      }
    }

    /** Lines 226-239: an EMPTY or CLOSED zone is opened first; an unwritable one is refused. */
    method OpenZoneForWrite(z: nat) returns (result: Status)
      requires Shape() && z < zoneInfo.Length && Covered(z)
      modifies this, zoneInfo
      ensures (Dev(), result) == OpenForWrite(cfg, old(Dev()), z)
    {
      match zoneInfo[z].cond {
        case Empty => result := OpenZoneLocked(z, false);
        case Closed => result := OpenZoneLocked(z, false);
        case ImpOpen => result := Ok;
        case ExpOpen => result := Ok;
        case _ => result := IoErr;
      }
    }

    /** The part of zoned_write_common under the zone lock; rawAt is where raw_write goes, if at all. */
    method Reserve(position: nat, length: nat, append: bool)
      returns (result: Status, written: Option<nat>, rawAt: Option<nat>)
      requires Valid() && ZoneNumber(cfg, position) < cfg.numZones
      modifies this, zoneInfo, stats
      ensures WriteResult(Dev(), result, written, rawAt) == WriteCommon(cfg, old(Dev()), position, length, append)
    {
      hide SysOk, Inv, OpenForWrite, Advance;
      result, written, rawAt := Ok, None, None;
      var offset := position;
      var zone := ZoneNumber(cfg, offset);
      CoveredHere(zone);
      if zoneInfo[zone].ztype == Conventional {
        if append {
          result := IoErr;
          return;
        }
      } else {
        if append {
          offset := Bytes(zoneInfo[zone].wp);
          written := Some(offset);
        } else if Bytes(zoneInfo[zone].wp) != offset {
          result := IoErr;
          return;
        }
        if Bytes(zoneInfo[zone].start + zoneInfo[zone].capacity) < offset + length {
          result := IoErr;
          return;
        }
        OpenKeepsCover(zone);
        result := OpenZoneForWrite(zone);
        if result != Ok {
          return;
        }
        AdvanceZone(zone, length);
      }
      stats[zone] := stats[zone].(written := stats[zone].written + length);
      rawAt := Some(offset);
    }

    lemma OpenKeepsCover(z: nat)
      requires Valid() && z < zoneInfo.Length
      ensures var d := OpenForWrite(cfg, Dev(), z).0;
        && |d.zones| == |Dev().zones| && d.stats == Dev().stats
        && OpenShare(d.zones[z].cond) <= d.numOpen && ImpShare(d.zones[z].cond) <= d.numImpOpen <= d.numOpen
        && ActiveShare(d.zones[z].cond) <= d.numActive
    {
      hide OpenForWrite, CountersOk, ZonesOk;
      var l := Leaked(Dev()) + LeakCount(LeaksSlot(cfg, Dev(), z));
      OpenForWriteInv(cfg, Dev(), z, Leaked(Dev()));
      ZonesLength(cfg, OpenForWrite(cfg, Dev(), z).0, l);
      SharesHeld(cfg, OpenForWrite(cfg, Dev(), z).0, z, l);
    }

    /** zoned_write and zoned_append_zone. */
    method Write(payload: seq<byte>, offset: nat, append: bool) returns (result: Status, written: Option<nat>)
      requires Valid() && OpOk(cfg, if append then AppendOp(offset, payload) else WriteOp(offset, payload))
      modifies this, zoneInfo, stats, data
      ensures Valid()
      ensures (Abs(), Reply(result, written, []))
           == Step(cfg, old(Abs()), if append then AppendOp(offset, payload) else WriteOp(offset, payload))
    {
      hide SysOk, WriteCommon;
      ghost var s := Abs();
      StepInv(cfg, s, if append then AppendOp(offset, payload) else WriteOp(offset, payload));
      ghost var r := WriteResultOf(cfg, s, offset, payload, append);
      var rawAt;
      result, written, rawAt := Reserve(offset, |payload|, append);
      if rawAt.Some? {
        RawWrite(payload, rawAt.value);
      }
    }

    /** zoned_open_zone. */
    method Open(offset: nat) returns (result: Status)
      requires Valid() && OpOk(cfg, OpenOp(offset))
      modifies this, zoneInfo
      ensures Valid() && (Abs(), Reply(result, None, [])) == Step(cfg, old(Abs()), OpenOp(offset))
    {
      hide Inv;
      StepInv(cfg, Abs(), OpenOp(offset));
      var zone := ZoneNumber(cfg, offset);
      CoveredHere(zone);
      match zoneInfo[zone].cond {
        case Empty => result := OpenZoneLocked(zone, true);
        case ImpOpen => result := OpenZoneLocked(zone, true);
        case Closed => result := OpenZoneLocked(zone, true);
        case ExpOpen => result := Ok;
        case _ => result := IoErr;
      }
    }

    /** zoned_close_zone. */
    method Close(offset: nat) returns (result: Status)
      requires Valid() && OpOk(cfg, CloseOp(offset))
      modifies this, zoneInfo
      ensures Valid() && (Abs(), Reply(result, None, [])) == Step(cfg, old(Abs()), CloseOp(offset))
    {
      hide Inv;
      StepInv(cfg, Abs(), CloseOp(offset));
      var zone := ZoneNumber(cfg, offset);
      CoveredHere(zone);
      var c := zoneInfo[zone].cond;
      if c != ImpOpen && c != ExpOpen && c != Closed {
        return IoErr;
      }
      if c == ImpOpen {
        numImpOpen := numImpOpen - 1;
      }
      if c == ImpOpen || c == ExpOpen {
        numOpen := numOpen - 1;
      }
      if zoneInfo[zone].wp == zoneInfo[zone].start {
        zoneInfo[zone] := zoneInfo[zone].(cond := Empty);
        numActive := numActive - 1;
      } else {
        zoneInfo[zone] := zoneInfo[zone].(cond := Closed);
      }
      result := Ok;
    }

    /** zoned_finish_zone: the status of mark_zone_full_locked is dropped. */
    method Finish(offset: nat) returns (result: Status)
      requires Valid() && OpOk(cfg, FinishOp(offset))
      modifies this, zoneInfo
      ensures Valid() && (Abs(), Reply(result, None, [])) == Step(cfg, old(Abs()), FinishOp(offset))
    {
      hide Inv;
      StepInv(cfg, Abs(), FinishOp(offset));
      var zone := ZoneNumber(cfg, offset);
      CoveredHere(zone);
      var _ := MarkZoneFullLocked(zone);
      result := Ok;
    }

    /** The part of zoned_reset_zone under its locks: an EMPTY zone is left alone, write pointer included. */
    method ResetLocked(z: nat) returns (result: Status, discard: bool)
      requires Shape() && z < zoneInfo.Length && Covered(z) && zoneInfo[z].start <= zoneInfo[z].wp
      modifies this, zoneInfo, stats
      ensures (Dev(), result, discard) == ResetAt(old(Dev()), z)
    {
      stats[z] := stats[z].(resetCount := stats[z].resetCount + 1);
      stats[z] := stats[z].(discardCount := stats[z].discardCount + Bytes(zoneInfo[z].wp - zoneInfo[z].start));
      assert stats[..] == CountReset(old(Dev()), z).stats;
      var c := zoneInfo[z].cond;
      if c == Empty {
        return Ok, false;
      } else if c == NotWp {
        return IoErr, false;
      }
      if c == ImpOpen {
        numImpOpen := numImpOpen - 1;
      }
      if c == ImpOpen || c == ExpOpen {
        numOpen := numOpen - 1;
      }
      if c == ImpOpen || c == ExpOpen || c == Closed {
        numActive := numActive - 1;
      }
      zoneInfo[z] := zoneInfo[z].(cond := Empty);
      zoneInfo[z] := zoneInfo[z].(wp := zoneInfo[z].start);
      return Ok, true;
    }

    /** zoned_reset_zone: after the locks are released, a rewound zone is discarded. */
    method Reset(offset: nat) returns (result: Status)
      requires Valid() && OpOk(cfg, ResetOp(offset))
      modifies this, zoneInfo, stats, data
      ensures Valid() && (Abs(), Reply(result, None, [])) == Step(cfg, old(Abs()), ResetOp(offset))
    {
      hide Inv, ResetAt;
      StepInv(cfg, Abs(), ResetOp(offset));
      var zone := ZoneNumber(cfg, offset);
      CoveredHere(zone);
      ZoneInDisk(cfg, zone);
      ghost var zoneStart := zoneInfo[zone].start;
      ResetKeepsPlace(Dev(), zone);
      var discard;
      result, discard := ResetLocked(zone);
      if discard {
        assert zoneInfo[zone] == Dev().zones[zone];
        RawDiscard(Bytes(zoneInfo[zone].start), Bytes(zoneInfo[zone].len));
      }
    }

    /** zoned_reset_all_zone, with initialize_zone_info inlined; statistics survive. */
    method ResetAllZones() returns (result: Status)
      requires Valid()
      modifies this, zoneInfo, data
      ensures Valid() && (Abs(), Reply(result, None, [])) == Step(cfg, old(Abs()), ResetAllOp)
    {
      StepInv(cfg, Abs(), ResetAllOp);
      for i := 0 to cfg.numConventional
        invariant forall j :: 0 <= j < i ==> zoneInfo[j] == FreshZone(cfg, j)
      {
        zoneInfo[i] := Zone(cfg.zoneSectors * i, cfg.zoneSectors, cfg.zoneSectors * i, Conventional, NotWp, cfg.zoneSectors);
      }
      for i := cfg.numConventional to cfg.numZones
        invariant forall j :: 0 <= j < i ==> zoneInfo[j] == FreshZone(cfg, j)
      {
        zoneInfo[i] := Zone(cfg.zoneSectors * i, cfg.zoneSectors, cfg.zoneSectors * i, SeqWriteReq, Empty, cfg.zoneSectors);
      }
      assert zoneInfo[..] == FreshZones(cfg);
      numOpen, numImpOpen, numActive := 0, 0, 0;
      RawDiscard(0, data.Length);
      assert data[..] == Zeros(data.Length);
      result := Ok;
    }
  }
}
