/** Each sequential zone of the RAM disk is an append-only log, and its traffic is conserved. */
module ZonedLog {
  import opened Memory
  import opened Wrappers
  import opened Zoned
  import opened ZonedInvariant
  import opened ZonedRun

  /** Payloads of the block layer: whole, non-empty sectors. */
  predicate WholeSectors(op: Op) {
    match op
    case WriteOp(_, data) => 0 < |data| && |data| % 512 == 0
    case AppendOp(_, data) => 0 < |data| && |data| % 512 == 0
    case _ => true
  }

  predicate RunOk(cfg: Config, ops: seq<Op>) {
    ConfigOk(cfg) && forall i :: 0 <= i < |ops| ==> OpOk(cfg, ops[i]) && WholeSectors(ops[i])
  }

  // ---------------------------------------------------------------------------------------------
  // What an operation does to a zone it does not work on

  /** A zone other than the target is untouched, or was implicitly open and got closed. */
  predicate Bystander(a: Zone, b: Zone) {
    b == a || (a.cond == ImpOpen && b == a.(cond := Closed))
  }

  lemma OpenLockedOthers(cfg: Config, d: Device, z: nat, explicit: bool, y: nat)
    requires cfg.numConventional <= |d.zones| && z < |d.zones| && y < |d.zones| && y != z
    ensures Bystander(d.zones[y], OpenLocked(cfg, d, z, explicit).0.zones[y])
  {
  }

  lemma WriteOthers(cfg: Config, d: Device, offset: nat, length: nat, append: bool, y: nat, leaked: int)
    requires Inv(cfg, d, leaked) && ZoneNumber(cfg, offset) < cfg.numZones
    requires y < cfg.numZones && y != ZoneNumber(cfg, offset)
    ensures var d' := WriteCommon(cfg, d, offset, length, append).dev;
      |d'.zones| == |d.zones| && |d'.stats| == |d.stats| && Bystander(d.zones[y], d'.zones[y]) && d'.stats[y] == d.stats[y]
  {
    var z := ZoneNumber(cfg, offset);
    hide OpenLocked, ZonesOk, CountersOk;
    ZonesLength(cfg, d, leaked);
    OpenForWriteInv(cfg, d, z, leaked);
    OpenLockedOthers(cfg, d, z, false, y);
    OpenLockedFrame(cfg, d, z, false);
  }

  /** Bytes of zone z. */
  function ZoneExtent(cfg: Config, z: nat): Extent {
    Extent(Bytes(ZoneStart(cfg, z)), Bytes(cfg.zoneSectors))
  }

  lemma ExtentInDisk(cfg: Config, s: State, z: nat)
    requires Shaped(cfg, s) && z < cfg.numZones
    ensures ZoneExtent(cfg, z).addr + ZoneExtent(cfg, z).len <= |s.disk|
  {
    ZoneInDisk(cfg, z);
  }

  lemma ZonesApart(cfg: Config, y: nat, z: nat)
    requires y != z
    ensures Apart(ZoneExtent(cfg, y), ZoneExtent(cfg, z))
  {
    NextZoneStart(cfg, y);
    NextZoneStart(cfg, z);
    if y < z {
      ZoneStartMono(cfg, y + 1, z);
    } else {
      ZoneStartMono(cfg, z + 1, y);
    }
  }

  /** A request lies in the zone its offset names. */
  lemma OffsetInZone(cfg: Config, offset: nat)
    requires ConfigOk(cfg)
    ensures var x := ZoneExtent(cfg, ZoneNumber(cfg, offset)); x.addr <= offset < x.addr + x.len
  {
    var b := Bytes(cfg.zoneSectors);
    DivBounds(offset, b);
    var z := ZoneNumber(cfg, offset);
    assert Bytes(ZoneStart(cfg, z)) == z * b;
  }

  lemma StepOthers(cfg: Config, s: State, op: Op, y: nat)
    requires SysOk(cfg, s) && OpOk(cfg, op) && y < cfg.numZones && Target(cfg, op) != Some(y) && op != ResetAllOp
    ensures SysOk(cfg, Step(cfg, s, op).0)
    ensures Bystander(s.dev.zones[y], Step(cfg, s, op).0.dev.zones[y])
    ensures Step(cfg, s, op).0.dev.stats[y] == s.dev.stats[y]
  {
    StepInv(cfg, s, op);
    hide OpenLocked, WriteCommon, ZonesOk, CountersOk;
    var d, l := s.dev, Leaked(s.dev);
    match op {
      case WriteOp(o, data) => WriteOthers(cfg, d, o, |data|, false, y, l);
      case AppendOp(o, data) => WriteOthers(cfg, d, o, |data|, true, y, l);
      case OpenOp(o) =>
        OpenLockedOthers(cfg, d, ZoneNumber(cfg, o), true, y);
        OpenLockedFrame(cfg, d, ZoneNumber(cfg, o), true);
      case _ =>
    }
  }

  /** Where a write may put bytes: inside the zone it names. */
  lemma RawInZone(cfg: Config, s: State, offset: nat, data: seq<byte>, append: bool)
    requires SysOk(cfg, s) && ZoneNumber(cfg, offset) < cfg.numZones && (!append ==> InZone(cfg, offset, |data|))
    ensures var r, x := WriteResultOf(cfg, s, offset, data, append), ZoneExtent(cfg, ZoneNumber(cfg, offset));
      r.rawAt.Some? ==> x.addr <= r.rawAt.value && r.rawAt.value + |data| <= x.addr + x.len
  {
    var z := ZoneNumber(cfg, offset);
    assert ZoneOk(cfg, z, s.dev.zones[z]);
    OffsetInZone(cfg, offset);
    NextZoneStart(cfg, z);
  }

  lemma StepBytesOthers(cfg: Config, s: State, op: Op, y: nat)
    requires SysOk(cfg, s) && OpOk(cfg, op) && y < cfg.numZones && Target(cfg, op) != Some(y) && op != ResetAllOp
    ensures |Step(cfg, s, op).0.disk| == |s.disk| && ZoneExtent(cfg, y).addr + ZoneExtent(cfg, y).len <= |s.disk|
    ensures Slice(Step(cfg, s, op).0.disk, ZoneExtent(cfg, y)) == Slice(s.disk, ZoneExtent(cfg, y))
  {
    ExtentInDisk(cfg, s, y);
    hide WriteResultOf, Slice, Splice, ZoneExtent;
    match op {
      case WriteOp(o, data) => WriteBytesOthers(cfg, s, o, data, false, y);
      case AppendOp(o, data) => WriteBytesOthers(cfg, s, o, data, true, y);
      case ResetOp(o) => ResetBytesOthers(cfg, s, o, y);
      case _ =>
    }
  }

  lemma WriteBytesOthers(cfg: Config, s: State, offset: nat, data: seq<byte>, append: bool, y: nat)
    requires SysOk(cfg, s) && ZoneNumber(cfg, offset) < cfg.numZones && (!append ==> InZone(cfg, offset, |data|))
    requires y < cfg.numZones && y != ZoneNumber(cfg, offset)
    ensures |DoWrite(cfg, s, offset, data, append).0.disk| == |s.disk|
    ensures ZoneExtent(cfg, y).addr + ZoneExtent(cfg, y).len <= |s.disk|
    ensures Slice(DoWrite(cfg, s, offset, data, append).0.disk, ZoneExtent(cfg, y)) == Slice(s.disk, ZoneExtent(cfg, y))
  {
    hide WriteResultOf, Slice, Splice, SysOk;
    assert Shaped(cfg, s) by { ShapedOf(cfg, s); }
    ExtentInDisk(cfg, s, y);
    RawInZone(cfg, s, offset, data, append);
    ZonesApart(cfg, y, ZoneNumber(cfg, offset));
    var r := WriteResultOf(cfg, s, offset, data, append);
    if r.rawAt.Some? {
      SpliceApart(s.disk, r.rawAt.value, data, ZoneExtent(cfg, y));
    }
  }

  lemma ShapedOf(cfg: Config, s: State)
    requires SysOk(cfg, s)
    ensures Shaped(cfg, s)
  {
  }

  lemma ResetBytesOthers(cfg: Config, s: State, offset: nat, y: nat)
    requires SysOk(cfg, s) && ZoneNumber(cfg, offset) < cfg.numZones && y < cfg.numZones && y != ZoneNumber(cfg, offset)
    ensures |DoReset(cfg, s, offset).0.disk| == |s.disk|
    ensures ZoneExtent(cfg, y).addr + ZoneExtent(cfg, y).len <= |s.disk|
    ensures Slice(DoReset(cfg, s, offset).0.disk, ZoneExtent(cfg, y)) == Slice(s.disk, ZoneExtent(cfg, y))
  {
    ExtentInDisk(cfg, s, y);
    var z := ZoneNumber(cfg, offset);
    ExtentInDisk(cfg, s, z);
    ZonesApart(cfg, y, z);
    SpliceApart(s.disk, Bytes(ZoneStart(cfg, z)), Zeros(Bytes(cfg.zoneSectors)), ZoneExtent(cfg, y));
  }

  // ---------------------------------------------------------------------------------------------
  // Writes and appends to a sequential zone

  predicate Sequential(cfg: Config, z: nat) {
    cfg.numConventional <= z < cfg.numZones
  }

  /** Zone z is open, or can be opened or written without opening under the limits. */
  predicate CanOpen(cfg: Config, d: Device, z: nat)
    requires z < |d.zones|
  {
    var c := d.zones[z].cond;
    var room := d.numOpen < cfg.maxOpen || d.numImpOpen > 0;
    c == ImpOpen || c == ExpOpen || (c == Closed && room) || (c == Empty && d.numActive < cfg.maxActive && room)
  }

  /** Exactly when a write or append to a sequential zone is accepted. */
  predicate Accepts(cfg: Config, d: Device, z: nat, offset: nat, n: nat, append: bool)
    requires z < |d.zones|
  {
    WriteFits(d, z, offset, n, append) && CanOpen(cfg, d, z)
  }

  lemma OpenForWriteOk(cfg: Config, d: Device, z: nat, leaked: int)
    requires Inv(cfg, d, leaked) && z < |d.zones|
    ensures |OpenForWrite(cfg, d, z).0.zones| == |d.zones|
    ensures OpenForWrite(cfg, d, z).1 == Ok <==> CanOpen(cfg, d, z)
    ensures OpenForWrite(cfg, d, z).1 != Ok ==> OpenForWrite(cfg, d, z).0.zones == d.zones
  {
    hide ZonesOk, CountersOk, CloseImpOpen;
    ZonesLength(cfg, d, leaked);
    OpenLockedFrame(cfg, d, z, false);
  }

  lemma AdvanceIs(cfg: Config, d: Device, z: nat, n: nat, leaked: int)
    requires Inv(cfg, d, leaked) && z < |d.zones| && d.zones[z].cond != NotWp && d.zones[z].cond != Full
    requires d.zones[z].wp + Sectors(n) <= d.zones[z].start + d.zones[z].capacity
    ensures |Advance(d, z, n).zones| == |d.zones|
    ensures var a, b := d.zones[z], Advance(d, z, n).zones[z];
      b == a.(wp := a.wp + Sectors(n), cond := if a.wp + Sectors(n) == a.start + a.capacity then Full else a.cond)
  {
    assert ZoneOk(cfg, z, d.zones[z]);
  }

  /**
   * A write or append to a sequential zone is accepted exactly under `Accepts`; then it goes to the
   * old write pointer, which is also the position an append reports, and the pointer moves past it.
   * Otherwise the zone, its statistics and the bytes stay as they were.
   */
  lemma SequentialWrite(cfg: Config, d: Device, offset: nat, n: nat, append: bool, leaked: int)
    requires Inv(cfg, d, leaked) && Sequential(cfg, ZoneNumber(cfg, offset))
    ensures var z := ZoneNumber(cfg, offset); var r := WriteCommon(cfg, d, offset, n, append);
      var a := d.zones[z];
      && |r.dev.zones| == |d.zones| && |r.dev.stats| == |d.stats|
      && (r.status == Ok <==> Accepts(cfg, d, z, offset, n, append))
      && (r.status == Ok ==>
            && r.rawAt == Some(Bytes(a.wp)) && r.reported == (if append then Some(Bytes(a.wp)) else None)
            && r.dev.stats == d.stats[z := d.stats[z].(written := d.stats[z].written + n)]
            && r.dev.zones[z].wp == a.wp + Sectors(n) && r.dev.zones[z].start == a.start && a.cond != Full
            && Bytes(a.wp) + n <= Bytes(a.start + a.capacity)
            && (r.dev.zones[z].cond == Full <==> a.wp + Sectors(n) == a.start + a.capacity))
      && (r.status != Ok ==> r.rawAt == None && r.dev.zones[z] == a && r.dev.stats == d.stats)
  {
    hide OpenForWrite, Advance, CountersOk;
    var z := ZoneNumber(cfg, offset);
    assert ZoneOk(cfg, z, d.zones[z]);
    OpenForWriteInv(cfg, d, z, leaked);
    OpenForWriteOk(cfg, d, z, leaked);
    if Accepts(cfg, d, z, offset, n, append) {
      var d1 := OpenForWrite(cfg, d, z).0;
      AdvanceIs(cfg, d1, z, n, leaked + LeakCount(LeaksSlot(cfg, d, z)));
      AdvanceStats(d1, z, n);
    }
  }

  // ---------------------------------------------------------------------------------------------
  // The log of a zone

  /** The log after one operation: accepted payloads are appended, an effective reset empties it. */
  function LogAfter(cfg: Config, s: State, op: Op, z: nat, log: seq<byte>): seq<byte>
    requires SysOk(cfg, s) && OpOk(cfg, op) && z < cfg.numZones
  {
    if op == ResetAllOp then []
    else if Target(cfg, op) != Some(z) then log
    else match op
      case WriteOp(_, data) => if Step(cfg, s, op).1.status == Ok then log + data else log
      case AppendOp(_, data) => if Step(cfg, s, op).1.status == Ok then log + data else log
      case ResetOp(_) => if s.dev.zones[z].cond == Empty then log else []
      case _ => log
  }

  function LogOf(cfg: Config, ops: seq<Op>, z: nat): seq<byte>
    requires RunOk(cfg, ops) && z < cfg.numZones
  {
    if ops == [] then []
    else LogAfter(cfg, Run(cfg, ops[..|ops| - 1]), ops[|ops| - 1], z, LogOf(cfg, ops[..|ops| - 1], z))
  }

  /** Zone z holds the log and then zeros; unless it was finished early, the log ends at the write pointer. */
  ghost predicate LogInv(cfg: Config, s: State, z: nat, log: seq<byte>)
    requires Shaped(cfg, s) && Sequential(cfg, z)
  {
    var zone := s.dev.zones[z];
    && zone.start <= zone.wp && |log| <= Bytes(zone.wp - zone.start) <= Bytes(cfg.zoneSectors)
    && (zone.cond != Full ==> |log| == Bytes(zone.wp - zone.start))
    && ZoneExtent(cfg, z).addr + ZoneExtent(cfg, z).len <= |s.disk|
    && Slice(s.disk, ZoneExtent(cfg, z)) == log + Zeros(Bytes(cfg.zoneSectors) - |log|)
  }

  lemma SpliceTail(m: seq<byte>, x: Extent, log: seq<byte>, data: seq<byte>)
    requires x.addr + x.len <= |m| && |log| + |data| <= x.len
    requires Slice(m, x) == log + Zeros(x.len - |log|)
    ensures Slice(Splice(m, x.addr + |log|, data), x) == (log + data) + Zeros(x.len - |log + data|)
  {
    var r := Slice(Splice(m, x.addr + |log|, data), x);
    forall k | 0 <= k < x.len ensures r[k] == ((log + data) + Zeros(x.len - |log + data|))[k] {
      assert Slice(m, x)[k] == m[x.addr + k];
      assert r[k] == Splice(m, x.addr + |log|, data)[x.addr + k];
    }
  }

  lemma SectorMath(wp: nat, n: nat, start: nat)
    requires start <= wp && n % 512 == 0
    ensures Bytes(Sectors(n)) == n && Bytes(wp + Sectors(n) - start) == Bytes(wp - start) + n
    ensures Bytes(wp) == Bytes(start) + Bytes(wp - start)
  {
  }

  lemma LogWrite(cfg: Config, s: State, offset: nat, data: seq<byte>, append: bool, log: seq<byte>)
    requires SysOk(cfg, s) && Sequential(cfg, ZoneNumber(cfg, offset)) && (!append ==> InZone(cfg, offset, |data|))
    requires |data| % 512 == 0 && LogInv(cfg, s, ZoneNumber(cfg, offset), log)
    ensures var r := DoWrite(cfg, s, offset, data, append);
      && Shaped(cfg, r.0)
      && LogInv(cfg, r.0, ZoneNumber(cfg, offset), if r.1.status == Ok then log + data else log)
  {
    hide WriteCommon, CountersOk, Slice, Splice, Accepts;
    var z := ZoneNumber(cfg, offset);
    var zone := s.dev.zones[z];
    assert ZoneOk(cfg, z, zone);
    SequentialWrite(cfg, s.dev, offset, |data|, append, Leaked(s.dev));
    RawInZone(cfg, s, offset, data, append);
    LogWritten(cfg, s, DoWrite(cfg, s, offset, data, append).0, z, data, log,
               DoWrite(cfg, s, offset, data, append).1.status == Ok);
  }

  lemma LogWritten(cfg: Config, s: State, s': State, z: nat, data: seq<byte>, log: seq<byte>, ok: bool)
    requires Shaped(cfg, s) && Shaped(cfg, s') && Sequential(cfg, z) && LogInv(cfg, s, z, log) && |data| % 512 == 0
    requires ZoneOk(cfg, z, s.dev.zones[z])
    requires !ok ==> s'.dev.zones[z] == s.dev.zones[z] && s'.disk == s.disk
    requires ok ==> s.dev.zones[z].cond != Full && s'.dev.zones[z].wp == s.dev.zones[z].wp + Sectors(|data|)
    requires ok ==> s'.dev.zones[z].start == s.dev.zones[z].start && Bytes(s.dev.zones[z].wp) + |data| <= |s.disk|
    requires ok ==> Bytes(s.dev.zones[z].wp) + |data| <= Bytes(s.dev.zones[z].start + cfg.zoneSectors)
    requires ok ==> s'.disk == Splice(s.disk, Bytes(s.dev.zones[z].wp), data)
    ensures LogInv(cfg, s', z, if ok then log + data else log)
  {
    hide Slice, Splice;
    var zone := s.dev.zones[z];
    SectorMath(zone.wp, |data|, zone.start);
    if ok {
      SpliceTail(s.disk, ZoneExtent(cfg, z), log, data);
    }
  }

  lemma StepLog(cfg: Config, s: State, op: Op, z: nat, log: seq<byte>)
    requires SysOk(cfg, s) && OpOk(cfg, op) && WholeSectors(op) && Sequential(cfg, z) && LogInv(cfg, s, z, log)
    ensures Shaped(cfg, Step(cfg, s, op).0)
    ensures LogInv(cfg, Step(cfg, s, op).0, z, LogAfter(cfg, s, op, z, log))
  {
    StepInv(cfg, s, op);
    if op == ResetAllOp {
      LogResetAll(cfg, s, z);
    } else if Target(cfg, op) != Some(z) {
      StepOthers(cfg, s, op, z);
      StepBytesOthers(cfg, s, op, z);
    } else {
      hide WriteResultOf, DoReset, MarkFull, OpenLocked, CountersOk, Slice;
      match op {
        case WriteOp(o, data) => LogWrite(cfg, s, o, data, false, log);
        case AppendOp(o, data) => LogWrite(cfg, s, o, data, true, log);
        case ResetOp(o) => LogReset(cfg, s, o, log);
        case FinishOp(o) => LogFinish(cfg, s, o, log);
        case OpenOp(o) => LogOpen(cfg, s, o, log);
        case CloseOp(o) => LogClose(cfg, s, o, log);
        case ReadOp(o, n) =>
      }
    }
  }

  lemma LogResetAll(cfg: Config, s: State, z: nat)
    requires SysOk(cfg, s) && Sequential(cfg, z)
    ensures Shaped(cfg, Step(cfg, s, ResetAllOp).0) && LogInv(cfg, Step(cfg, s, ResetAllOp).0, z, [])
  {
    ExtentInDisk(cfg, s, z);
  }

  lemma LogReset(cfg: Config, s: State, offset: nat, log: seq<byte>)
    requires SysOk(cfg, s) && Sequential(cfg, ZoneNumber(cfg, offset)) && LogInv(cfg, s, ZoneNumber(cfg, offset), log)
    ensures Shaped(cfg, DoReset(cfg, s, offset).0)
    ensures LogInv(cfg, DoReset(cfg, s, offset).0, ZoneNumber(cfg, offset),
                   if s.dev.zones[ZoneNumber(cfg, offset)].cond == Empty then log else [])
  {
    hide CountersOk, Slice, Splice;
    var z := ZoneNumber(cfg, offset);
    assert ZoneOk(cfg, z, s.dev.zones[z]);
    if s.dev.zones[z].cond != Empty {
      SpliceHit(s.disk, Bytes(ZoneStart(cfg, z)), Zeros(Bytes(cfg.zoneSectors)));
      assert [] + Zeros(Bytes(cfg.zoneSectors)) == Zeros(Bytes(cfg.zoneSectors));
    }
  }

  lemma LogFinish(cfg: Config, s: State, offset: nat, log: seq<byte>)
    requires SysOk(cfg, s) && Sequential(cfg, ZoneNumber(cfg, offset)) && LogInv(cfg, s, ZoneNumber(cfg, offset), log)
    ensures var s' := State(FinishZone(cfg, s.dev, offset).0, s.disk);
      Shaped(cfg, s') && LogInv(cfg, s', ZoneNumber(cfg, offset), log)
  {
    assert ZoneOk(cfg, ZoneNumber(cfg, offset), s.dev.zones[ZoneNumber(cfg, offset)]);
  }

  lemma LogOpen(cfg: Config, s: State, offset: nat, log: seq<byte>)
    requires SysOk(cfg, s) && Sequential(cfg, ZoneNumber(cfg, offset)) && LogInv(cfg, s, ZoneNumber(cfg, offset), log)
    ensures var s' := State(OpenZone(cfg, s.dev, offset).0, s.disk);
      Shaped(cfg, s') && LogInv(cfg, s', ZoneNumber(cfg, offset), log)
  {
    hide OpenLocked, CountersOk, Slice;
    var z := ZoneNumber(cfg, offset);
    OpenLockedFrame(cfg, s.dev, z, true);
  }

  lemma LogClose(cfg: Config, s: State, offset: nat, log: seq<byte>)
    requires SysOk(cfg, s) && Sequential(cfg, ZoneNumber(cfg, offset)) && LogInv(cfg, s, ZoneNumber(cfg, offset), log)
    ensures var s' := State(CloseZone(cfg, s.dev, offset).0, s.disk);
      Shaped(cfg, s') && LogInv(cfg, s', ZoneNumber(cfg, offset), log)
  {
  }

  /** Over every run, a sequential zone holds its log followed by zeros. */
  lemma {:induction false} ZonesAreLogs(cfg: Config, ops: seq<Op>, z: nat)
    requires RunOk(cfg, ops) && Sequential(cfg, z)
    ensures LogInv(cfg, Run(cfg, ops), z, LogOf(cfg, ops, z))
  {
    if ops == [] {
      ExtentInDisk(cfg, InitState(cfg), z);
    } else {
      hide LogInv, LogAfter, Step;
      ZonesAreLogs(cfg, ops[..|ops| - 1], z);
      StepLog(cfg, Run(cfg, ops[..|ops| - 1]), ops[|ops| - 1], z, LogOf(cfg, ops[..|ops| - 1], z));
    }
  }

  /** A read inside a sequential zone returns that part of the log, padded with zeros. */
  lemma ReadsSeeLog(cfg: Config, s: State, op: Op, log: seq<byte>)
    requires SysOk(cfg, s) && OpOk(cfg, op) && op.ReadOp? && Sequential(cfg, ZoneNumber(cfg, op.offset))
    requires LogInv(cfg, s, ZoneNumber(cfg, op.offset), log)
    ensures var at := op.offset - ZoneExtent(cfg, ZoneNumber(cfg, op.offset)).addr;
      && 0 <= at && at + op.length <= Bytes(cfg.zoneSectors)
      && Step(cfg, s, op).1.data == (log + Zeros(Bytes(cfg.zoneSectors) - |log|))[at..at + op.length]
  {
    hide CountersOk, ZonesOk;
    var z := ZoneNumber(cfg, op.offset);
    var x := ZoneExtent(cfg, z);
    OffsetInZone(cfg, op.offset);
    NextZoneStart(cfg, z);
    ExtentInDisk(cfg, s, z);
    var at := op.offset - x.addr;
    assert s.disk[op.offset..op.offset + op.length] == Slice(s.disk, x)[at..at + op.length] by {
      SliceOfSlice(s.disk, x, at, op.length);
    }
  }

  lemma SliceOfSlice(m: seq<byte>, x: Extent, at: nat, n: nat)
    requires x.addr + x.len <= |m| && at + n <= x.len
    ensures m[x.addr + at..x.addr + at + n] == Slice(m, x)[at..at + n]
  {
    var r, t := Slice(m, x), m[x.addr + at..x.addr + at + n];
    assert forall k :: 0 <= k < x.len ==> r[k] == m[x.addr + k];
    forall k | 0 <= k < n ensures t[k] == r[at..at + n][k] {
      assert r[at + k] == m[x.addr + (at + k)];
    }
  }

  /** An accepted append reports the place its payload has in the log. */
  lemma AppendReportsItsPlace(cfg: Config, s: State, op: Op, log: seq<byte>)
    requires SysOk(cfg, s) && OpOk(cfg, op) && op.AppendOp? && Sequential(cfg, ZoneNumber(cfg, op.offset))
    requires LogInv(cfg, s, ZoneNumber(cfg, op.offset), log) && Step(cfg, s, op).1.status == Ok
    ensures Step(cfg, s, op).1.reported == Some(ZoneExtent(cfg, ZoneNumber(cfg, op.offset)).addr + |log|)
  {
    hide CountersOk, WriteCommon, Accepts;
    var z := ZoneNumber(cfg, op.offset);
    assert ZoneOk(cfg, z, s.dev.zones[z]);
    SequentialWrite(cfg, s.dev, op.offset, |op.data|, true, Leaked(s.dev));
    SectorMath(s.dev.zones[z].wp, 0, s.dev.zones[z].start);
  }

  /** Does the operation rewind zone z? */
  predicate Rewinds(cfg: Config, s: State, op: Op, z: nat)
    requires SysOk(cfg, s) && OpOk(cfg, op) && z < cfg.numZones
  {
    op == ResetAllOp || (op.ResetOp? && ZoneNumber(cfg, op.offset) == z && s.dev.zones[z].cond != Empty)
  }

  /** No operation that does not rewind a sequential zone changes a byte below its write pointer. */
  lemma WrittenBytesStay(cfg: Config, s: State, op: Op, z: nat, a: nat)
    requires SysOk(cfg, s) && OpOk(cfg, op) && Sequential(cfg, z) && !Rewinds(cfg, s, op, z)
    requires Bytes(s.dev.zones[z].start) <= a < Bytes(s.dev.zones[z].wp)
    ensures a < |s.disk| == |Step(cfg, s, op).0.disk| && Step(cfg, s, op).0.disk[a] == s.disk[a]
  {
    assert ZoneOk(cfg, z, s.dev.zones[z]);
    ExtentInDisk(cfg, s, z);
    var x := ZoneExtent(cfg, z);
    if Target(cfg, op) != Some(z) {
      StepBytesOthers(cfg, s, op, z);
      assert Slice(Step(cfg, s, op).0.disk, x)[a - x.addr] == Slice(s.disk, x)[a - x.addr];
    } else if op.WriteOp? || op.AppendOp? {
      hide WriteCommon, CountersOk, ZonesOk, Accepts, Slice;
      SequentialWrite(cfg, s.dev, op.offset, |op.data|, op.AppendOp?, Leaked(s.dev));
    }
  }

  // ---------------------------------------------------------------------------------------------
  // Write pointers of zones that were written and not finished

  /** A zone that is implicitly open or closed has been written. */
  predicate PointersOk(d: Device) {
    forall i :: 0 <= i < |d.zones| && (d.zones[i].cond == ImpOpen || d.zones[i].cond == Closed) ==>
      d.zones[i].start < d.zones[i].wp
  }

  lemma WritePointers(cfg: Config, s: State, offset: nat, data: seq<byte>, append: bool)
    requires SysOk(cfg, s) && ZoneNumber(cfg, offset) < cfg.numZones && (!append ==> InZone(cfg, offset, |data|))
    requires PointersOk(s.dev) && 512 <= |data|
    ensures PointersOk(DoWrite(cfg, s, offset, data, append).0.dev)
  {
    hide WriteCommon, CountersOk, Accepts, Splice;
    var z := ZoneNumber(cfg, offset);
    var d, d' := s.dev, DoWrite(cfg, s, offset, data, append).0.dev;
    WriteInv(cfg, d, offset, |data|, append, Leaked(d));
    if Sequential(cfg, z) {
      SequentialWrite(cfg, d, offset, |data|, append, Leaked(d));
    } else {
      ConventionalWrite(cfg, d, offset, |data|, append, Leaked(d));
    }
    forall i | 0 <= i < |d'.zones| && (d'.zones[i].cond == ImpOpen || d'.zones[i].cond == Closed)
      ensures d'.zones[i].start < d'.zones[i].wp
    {
      assert ZoneOk(cfg, i, d.zones[i]);
      if i != z {
        WriteOthers(cfg, d, offset, |data|, append, i, Leaked(d));
      }
    }
  }

  lemma ConventionalWrite(cfg: Config, d: Device, offset: nat, n: nat, append: bool, leaked: int)
    requires Inv(cfg, d, leaked) && ZoneNumber(cfg, offset) < cfg.numConventional
    ensures WriteCommon(cfg, d, offset, n, append).dev.zones == d.zones
  {
    assert ZoneOk(cfg, ZoneNumber(cfg, offset), d.zones[ZoneNumber(cfg, offset)]);
  }

  lemma StepPointers(cfg: Config, s: State, op: Op)
    requires SysOk(cfg, s) && OpOk(cfg, op) && WholeSectors(op) && PointersOk(s.dev)
    ensures PointersOk(Step(cfg, s, op).0.dev)
  {
    hide WriteResultOf, WriteCommon, CountersOk, Splice;
    var d := s.dev;
    match op {
      case WriteOp(o, data) => WritePointers(cfg, s, o, data, false);
      case AppendOp(o, data) => WritePointers(cfg, s, o, data, true);
      case OpenOp(o) => OpenPointers(cfg, d, o);
      case CloseOp(o) =>
      case FinishOp(o) =>
      case ResetOp(o) =>
      case ResetAllOp =>
      case ReadOp(o, n) =>
    }
  }

  lemma OpenPointers(cfg: Config, d: Device, offset: nat)
    requires ConfigOk(cfg) && cfg.numConventional <= |d.zones| && ZoneNumber(cfg, offset) < |d.zones| && PointersOk(d)
    ensures PointersOk(OpenZone(cfg, d, offset).0)
  {
  }

  /** The write-pointer rules of every reachable state. */
  lemma {:induction false} ReachablePointers(cfg: Config, ops: seq<Op>, z: nat)
    requires RunOk(cfg, ops) && z < cfg.numZones
    ensures var zone := Run(cfg, ops).dev.zones[z];
      && zone.start == ZoneStart(cfg, z) && zone.start <= zone.wp <= zone.start + zone.capacity
      && (z < cfg.numConventional <==> zone.cond == NotWp)
      && (Sequential(cfg, z) ==> (zone.cond == Full <==> zone.wp == zone.start + zone.capacity))
      && (zone.cond == ImpOpen || zone.cond == Closed ==> zone.start < zone.wp)
  {
    RunPointers(cfg, ops);
    assert ZoneOk(cfg, z, Run(cfg, ops).dev.zones[z]);
  }

  lemma {:induction false} RunPointers(cfg: Config, ops: seq<Op>)
    requires RunOk(cfg, ops)
    ensures PointersOk(Run(cfg, ops).dev)
  {
    if ops != [] {
      hide Step, PointersOk;
      RunPointers(cfg, ops[..|ops| - 1]);
      StepPointers(cfg, Run(cfg, ops[..|ops| - 1]), ops[|ops| - 1]);
    }
  }
}
