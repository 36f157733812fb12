/** What concurrent writes and appends leave on the disk once every raw write has landed. */
module ZonedContents {
  import opened Memory
  import opened Zoned
  import opened ZonedInvariant
  import opened ZonedRun
  import opened ZonedLog
  import opened ZonedMachine
  import opened ZonedSafety
  import opened ZonedTiling

  // ---------------------------------------------------------------------------------------------
  // The bytes once every raw write has landed

  /** Once everybody has returned, every reserved payload is on the disk. */
  predicate AllLanded(s: State, c: Machine) {
    && |c.disk| == |s.disk|
    && (forall i :: 0 <= i < |c.log| ==> OnDisk(c.disk, c.log[i]))
    && (forall a :: 0 <= a < |c.disk| && Uncovered(c.log, a) ==> c.disk[a] == s.disk[a])
  }

  predicate OnDisk(disk: seq<byte>, r: Reservation) {
    r.at + |r.data| <= |disk| && disk[r.at..r.at + |r.data|] == r.data
  }

  lemma QuietLanded(cfg: Config, s: State, c: Machine)
    requires Tile(cfg, s, c) && Quiescent(c)
    ensures AllLanded(s, c)
  {
    hide Tiled, AnswersOk, TilePointers;
    forall i | 0 <= i < |c.log| ensures OnDisk(c.disk, c.log[i]) {
      assert EntryLanded(c, i);
      var r := c.log[i];
      forall j | 0 <= j < |r.data| ensures c.disk[r.at..r.at + |r.data|][j] == r.data[j] {
        assert c.disk[r.at + j] == r.data[j];
      }
    }
  }

  lemma ExtendOnDisk(disk: seq<byte>, base: nat, e: nat, payload: seq<byte>, r: Reservation)
    requires base <= e <= |disk| && disk[base..e] == payload && r.at == e && OnDisk(disk, r)
    ensures disk[base..e + |r.data|] == payload + r.data
  {
    assert disk[base..e + |r.data|] == disk[base..e] + disk[e..e + |r.data|];
  }

  lemma TiledAt(cfg: Config, s: State, c: Machine, i: nat)
    requires Tiled(cfg, s, c.log) && AllLanded(s, c) && i < |c.log|
    ensures c.log[i].z < |s.dev.zones| == cfg.numZones && OnDisk(c.disk, c.log[i])
    ensures c.log[i].at == EndOf(c.log[..i], c.log[i].z, Base(s, c.log[i].z))
  {
  }

  /** The disk holds payload p of zone z from its first pointer to e. */
  predicate InPlace(s: State, c: Machine, z: nat, e: nat, p: seq<byte>)
    requires z < |s.dev.zones|
  {
    Base(s, z) <= e <= |c.disk| && c.disk[Base(s, z)..e] == p
  }

  /** From the first pointer to the last reservation's end, the disk holds the zone's payloads in order. */
  lemma {:induction false} PayloadInPlace(cfg: Config, s: State, c: Machine, z: nat, i: nat)
    requires Tiled(cfg, s, c.log) && AllLanded(s, c) && z < |s.dev.zones| && i <= |c.log| && Base(s, z) <= |c.disk|
    ensures InPlace(s, c, z, EndOf(c.log[..i], z, Base(s, z)), ZonePayload(c.log[..i], z))
    decreases i
  {
    hide Tiled, AllLanded, OnDisk;
    if i > 0 {
      hide EndOf, ZonePayload;
      PayloadInPlace(cfg, s, c, z, i - 1);
      EndSnoc(c.log, i - 1, z, Base(s, z));
      var r, p := c.log[i - 1], ZonePayload(c.log[..i - 1], z);
      TiledAt(cfg, s, c, i - 1);
      if r.z == z {
        ExtendOnDisk(c.disk, Base(s, z), r.at, p, r);
        OnDiskFits(c.disk, r);
      } else {
        assert p + [] == p;
      }
    }
  }

  lemma OnDiskFits(disk: seq<byte>, r: Reservation)
    requires OnDisk(disk, r)
    ensures r.at + |r.data| <= |disk|
  {
  }

  /** A byte of zone z outside [first pointer, end) was reserved by nobody. */
  lemma OutsideUncovered(cfg: Config, s: State, c: Machine, z: nat, a: nat)
    requires SysOk(cfg, s) && Tiled(cfg, s, c.log) && z < cfg.numZones
    requires var x := ZoneExtent(cfg, z); x.addr <= a < x.addr + x.len
    requires a < Base(s, z) || EndOf(c.log, z, Base(s, z)) <= a
    ensures Uncovered(c.log, a)
  {
    forall i | 0 <= i < |c.log| ensures !(c.log[i].at <= a < c.log[i].at + |c.log[i].data|) {
      var r := c.log[i];
      if r.z == z {
        EndMono(cfg, s, c.log, 0, i, z);
        EndSnoc(c.log, i, z, Base(s, z));
        EndMono(cfg, s, c.log, i + 1, |c.log|, z);
        assert c.log[..|c.log|] == c.log;
      } else {
        ZonesApart(cfg, z, r.z);
      }
    }
  }

  /** Address a is in zone z but not among the n bytes from its first pointer on. */
  predicate Around(cfg: Config, s: State, z: nat, n: nat, a: nat)
    requires z < |s.dev.zones|
  {
    && ZoneExtent(cfg, z).addr <= a < ZoneExtent(cfg, z).addr + ZoneExtent(cfg, z).len
    && !(Base(s, z) <= a < Base(s, z) + n)
  }

  /** The bytes of zone z: as before, with the zone's payloads from its first pointer on. */
  predicate ZoneBytes(cfg: Config, s: State, disk: seq<byte>, z: nat, payload: seq<byte>)
    requires z < |s.dev.zones|
  {
    && |disk| == |s.disk| && Base(s, z) + |payload| <= |disk|
    && disk[Base(s, z)..Base(s, z) + |payload|] == payload
    && forall a :: 0 <= a < |disk| && Around(cfg, s, z, |payload|, a) ==> disk[a] == s.disk[a]
  }

  /**
   * Once all raw writes have landed, every zone holds what it held before, and from the old pointer to
   * the new one the payloads of its reservations in reservation order. The order in which the raw
   * writes landed is nowhere in this.
   */
  lemma QuietContents(cfg: Config, s: State, n: nat, events: seq<Event>, z: nat)
    requires SysOk(cfg, s) && ScheduleOk(cfg, events) && TilingSchedule(cfg, events) && z < cfg.numZones
    requires Quiescent(Exec(cfg, s, n, events))
    ensures z < |s.dev.zones| == |Exec(cfg, s, n, events).dev.zones|
    ensures var c := Exec(cfg, s, n, events);
      && ZoneBytes(cfg, s, c.disk, z, ZonePayload(c.log, z))
      && (Sequential(cfg, z) ==> Bytes(c.dev.zones[z].wp) == Base(s, z) + |ZonePayload(c.log, z)|)
  {
    hide Tiled, Tile, Safe, ZoneBytes, Quiescent, TilingSchedule, ScheduleOk;
    ExecTile(cfg, s, n, events);
    QuietZone(cfg, s, Exec(cfg, s, n, events), z);
  }

  lemma QuietZone(cfg: Config, s: State, c: Machine, z: nat)
    requires SysOk(cfg, s) && Tile(cfg, s, c) && Quiescent(c) && z < cfg.numZones
    ensures z < |s.dev.zones| == |c.dev.zones| && ZoneBytes(cfg, s, c.disk, z, ZonePayload(c.log, z))
    ensures Sequential(cfg, z) ==> Bytes(c.dev.zones[z].wp) == Base(s, z) + |ZonePayload(c.log, z)|
  {
    hide Tiled, Quiescent, HandsOk, BytesOk, AnswersOk, ZonePayload, EndOf, SysOk, OnDisk;
    QuietLanded(cfg, s, c);
    BaseInDisk(cfg, s, z);
    PayloadInPlace(cfg, s, c, z, |c.log|);
    assert c.log[..|c.log|] == c.log;
    forall a | 0 <= a < |c.disk| && Around(cfg, s, z, |ZonePayload(c.log, z)|, a) ensures c.disk[a] == s.disk[a] {
      OutsideUncovered(cfg, s, c, z, a);
    }
  }

  lemma BaseInDisk(cfg: Config, s: State, z: nat)
    requires SysOk(cfg, s) && z < cfg.numZones
    ensures z < |s.dev.zones| && Base(s, z) <= |s.disk|
  {
    assert ZoneOk(cfg, z, s.dev.zones[z]);
    ZoneInDisk(cfg, z);
  }

  /** Two schedules that reserved the same payloads per zone end with the same disk. */
  lemma LandingOrderIsInvisible(cfg: Config, s: State, n: nat, events: seq<Event>, n': nat, events': seq<Event>)
    requires SysOk(cfg, s) && ScheduleOk(cfg, events) && TilingSchedule(cfg, events)
    requires ScheduleOk(cfg, events') && TilingSchedule(cfg, events')
    requires Quiescent(Exec(cfg, s, n, events)) && Quiescent(Exec(cfg, s, n', events'))
    requires forall z :: 0 <= z < cfg.numZones ==>
               ZonePayload(Exec(cfg, s, n, events).log, z) == ZonePayload(Exec(cfg, s, n', events').log, z)
    ensures Exec(cfg, s, n, events).disk == Exec(cfg, s, n', events').disk
  {
    hide Tiled, Quiescent, ZoneBytes, ScheduleOk, TilingSchedule, ZonePayload;
    var c, c' := Exec(cfg, s, n, events), Exec(cfg, s, n', events');
    DiskSizes(cfg, s, c);
    DiskSizes(cfg, s, c');
    forall a | 0 <= a < |s.disk| ensures c.disk[a] == c'.disk[a] {
      var z := ZoneNumber(cfg, a);
      OffsetInZone(cfg, a);
      ZoneOfByte(cfg, a, z);
      QuietContents(cfg, s, n, events, z);
      QuietContents(cfg, s, n', events', z);
      SameByte(cfg, s, c.disk, c'.disk, z, ZonePayload(c.log, z), a);
    }
  }

  lemma DiskSizes(cfg: Config, s: State, c: Machine)
    requires SysOk(cfg, s) && Safe(cfg, c)
    ensures |c.disk| == |s.disk| == DiskBytes(cfg)
  {
  }

  lemma ZoneOfByte(cfg: Config, a: nat, z: nat)
    requires ConfigOk(cfg) && a < DiskBytes(cfg) && Bytes(ZoneStart(cfg, z)) <= a
    ensures z < cfg.numZones
  {
    if cfg.numZones <= z {
      ZoneStartMono(cfg, cfg.numZones, z);
    }
  }

  lemma SameByte(cfg: Config, s: State, d: seq<byte>, d': seq<byte>, z: nat, payload: seq<byte>, a: nat)
    requires z < |s.dev.zones| && ZoneBytes(cfg, s, d, z, payload) && ZoneBytes(cfg, s, d', z, payload) && a < |s.disk|
    requires ZoneExtent(cfg, z).addr <= a < ZoneExtent(cfg, z).addr + ZoneExtent(cfg, z).len
    ensures d[a] == d'[a]
  {
    var b := Base(s, z);
    if b <= a < b + |payload| {
      assert d[b..b + |payload|][a - b] == d[a] && d'[b..b + |payload|][a - b] == d'[a];
    }
  }
}
