/**
 * The zoned device of examples/zoned-common.h over the RAM disk, as functions on a device value:
 * what each operation does to the zone table, the counters, the statistics and the bytes.
 */
module Zoned {
  import opened Memory
  import opened Wrappers

  datatype Cond = NotWp | Empty | ImpOpen | ExpOpen | Closed | Full
  datatype ZoneType = Conventional | SeqWriteReq
  datatype Status = Ok | IoErr | ActiveResource | OpenResource
  /** struct blk_zone; all fields count sectors. */
  datatype Zone = Zone(start: nat, len: nat, wp: nat, ztype: ZoneType, cond: Cond, capacity: nat)

  /** struct zone_stat; all fields but resetCount count bytes. */
  datatype Stat = Stat(written: nat, read: nat, resetCount: nat, discardCount: nat)

  datatype Config = Config(zoneSectors: nat, numZones: nat, numConventional: nat, maxOpen: nat, maxActive: nat)

  /** Counters are integers here; that they never go below zero is part of the invariant. */
  datatype Device = Device(zones: seq<Zone>, stats: seq<Stat>, numOpen: int, numImpOpen: int, numActive: int)

  predicate ConfigOk(cfg: Config) {
    0 < cfg.zoneSectors && cfg.numConventional <= cfg.numZones
  }

  function Bytes(sectors: nat): nat {
    sectors * 512
  }

  function Sectors(bytes: nat): nat {
    bytes / 512
  }

  function ZoneStart(cfg: Config, i: nat): nat {
    cfg.zoneSectors * i
  }

  function ZoneNumber(cfg: Config, offset: nat): nat
    requires ConfigOk(cfg)
  {
    DivBounds(offset, Bytes(cfg.zoneSectors));
    offset / Bytes(cfg.zoneSectors)
  }

  lemma DivBounds(a: nat, b: nat)
    requires 0 < b
    ensures 0 <= a / b && (a / b) * b <= a < (a / b) * b + b
  {
    var q, r := a / b, a % b;
    assert a == q * b + r;
    if q < 0 {
      MulMono(q, -1, b);
    }
  }

  lemma MulMono(x: int, y: int, b: nat)
    requires x <= y
    ensures x * b <= y * b
  {
    assert (y - x) * b >= 0;
  }

  // ---------------------------------------------------------------------------------------------
  // Zone table

  function FreshZone(cfg: Config, i: nat): Zone {
    Zone(ZoneStart(cfg, i), cfg.zoneSectors, ZoneStart(cfg, i),
         if i < cfg.numConventional then Conventional else SeqWriteReq,
         if i < cfg.numConventional then NotWp else Empty, cfg.zoneSectors)
  }

  function FreshZones(cfg: Config): (zs: seq<Zone>)
    ensures |zs| == cfg.numZones
  {
    seq(cfg.numZones, i requires 0 <= i < cfg.numZones => FreshZone(cfg, i))
  }

  function SetCond(d: Device, z: nat, c: Cond): Device
    requires z < |d.zones|
  {
    d.(zones := d.zones[z := d.zones[z].(cond := c)])
  }

  /** The lowest-numbered implicitly open zone from `from` on, other than `skip`; |zones| if none. */
  function FirstImpOpen(zones: seq<Zone>, from: nat, skip: nat): (r: nat)
    requires from <= |zones|
    ensures from <= r <= |zones|
    ensures r < |zones| ==> r != skip && zones[r].cond == ImpOpen
    ensures forall i :: from <= i < r && i != skip ==> zones[i].cond != ImpOpen
    decreases |zones| - from
  {
    if from == |zones| then from
    else if from != skip && zones[from].cond == ImpOpen then from
    else FirstImpOpen(zones, from + 1, skip)
  }

  function CloseImpOpen(cfg: Config, d: Device, skip: nat): Device
    requires cfg.numConventional <= |d.zones|
  {
    var v := FirstImpOpen(d.zones, cfg.numConventional, skip);
    if v == |d.zones| then d
    else SetCond(d, v, Closed).(numOpen := d.numOpen - 1, numImpOpen := d.numImpOpen - 1)
  }

  /** The CLOSED half of open_zone_locked, which an EMPTY zone falls into. */
  function OpenClosed(cfg: Config, d: Device, z: nat, explicit: bool): (Device, Status)
    requires z < |d.zones| && cfg.numConventional <= |d.zones|
  {
    if d.numOpen >= cfg.maxOpen then
      if d.numImpOpen > 0 then (CloseImpOpen(cfg, d, z), Ok) else (d, OpenResource)
    else if explicit then
      (SetCond(d, z, ExpOpen).(numOpen := d.numOpen + 1), Ok)
    else
      (SetCond(d, z, ImpOpen).(numOpen := d.numOpen + 1, numImpOpen := d.numImpOpen + 1), Ok)
  }

  function OpenLocked(cfg: Config, d: Device, z: nat, explicit: bool): (Device, Status)
    requires z < |d.zones| && cfg.numConventional <= |d.zones|
  {
    match d.zones[z].cond
    case ImpOpen => (if explicit then SetCond(d, z, ExpOpen).(numImpOpen := d.numImpOpen - 1) else d, Ok)
    case ExpOpen => (d, Ok)
    case Empty =>
      if d.numActive >= cfg.maxActive then (d, ActiveResource)
      else OpenClosed(cfg, d.(numActive := d.numActive + 1), z, explicit)
    case Closed => OpenClosed(cfg, d, z, explicit)
    case _ => (d, IoErr)
  }

  /** What a zone in condition c holds of the three counters. */
  function OpenShare(c: Cond): int {
    if c == ImpOpen || c == ExpOpen then 1 else 0
  }

  function ImpShare(c: Cond): int {
    if c == ImpOpen then 1 else 0
  }

  function ActiveShare(c: Cond): int {
    if c == ImpOpen || c == ExpOpen || c == Closed then 1 else 0
  }

  /** Give back what zone z holds of the counters and put it in condition c. */
  function Retire(d: Device, z: nat, c: Cond): Device
    requires z < |d.zones|
  {
    var was := d.zones[z].cond;
    SetCond(d, z, c).(numOpen := d.numOpen - OpenShare(was), numImpOpen := d.numImpOpen - ImpShare(was),
                      numActive := d.numActive - ActiveShare(was))
  }

  function SetWp(d: Device, z: nat, wp: nat): Device
    requires z < |d.zones|
  {
    d.(zones := d.zones[z := d.zones[z].(wp := wp)])
  }

  function MarkFull(d: Device, z: nat): (Device, Status)
    requires z < |d.zones|
  {
    var zone := d.zones[z];
    if zone.cond == NotWp then (d, IoErr)
    else (SetWp(Retire(d, z, Full), z, zone.start + zone.len), Ok)
  }

  // ---------------------------------------------------------------------------------------------
  // Operations. A write or append that is accepted says where its raw write goes.

  datatype WriteResult = WriteResult(dev: Device, status: Status, reported: Option<nat>, rawAt: Option<nat>)

  function CountWritten(d: Device, z: nat, n: nat): Device
    requires z < |d.stats|
  {
    d.(stats := d.stats[z := d.stats[z].(written := d.stats[z].written + n)])
  }

  /** Move the write pointer over an accepted payload, and finish the zone if that fills it. */
  function Advance(d: Device, z: nat, length: nat): Device
    requires z < |d.zones|
  {
    var d1 := SetWp(d, z, d.zones[z].wp + Sectors(length));
    var zone := d1.zones[z];
    if zone.wp == zone.start + zone.capacity then MarkFull(d1, z).0 else d1
  }

  function OpenForWrite(cfg: Config, d: Device, z: nat): (Device, Status)
    requires z < |d.zones| && cfg.numConventional <= |d.zones|
  {
    match d.zones[z].cond
    case Empty => OpenLocked(cfg, d, z, false)
    case Closed => OpenLocked(cfg, d, z, false)
    case ImpOpen => (d, Ok)
    case ExpOpen => (d, Ok)
    case _ => (d, IoErr)
  }

  function WriteCommon(cfg: Config, d: Device, offset: nat, length: nat, append: bool): WriteResult
    requires ConfigOk(cfg) && cfg.numConventional <= |d.zones| == |d.stats| && ZoneNumber(cfg, offset) < |d.zones|
  {
    var z := ZoneNumber(cfg, offset);
    var zone := d.zones[z];
    if zone.ztype == Conventional then
      if append then WriteResult(d, IoErr, None, None)
      else WriteResult(CountWritten(d, z, length), Ok, None, Some(offset))
    else
      var at := if append then Bytes(zone.wp) else offset;
      var reported := if append then Some(at) else None;
      if !append && Bytes(zone.wp) != offset then WriteResult(d, IoErr, None, None)
      else if Bytes(zone.start + zone.capacity) < at + length then WriteResult(d, IoErr, reported, None)
      else
        var o := OpenForWrite(cfg, d, z);
        if o.1 != Ok then WriteResult(o.0, o.1, reported, None)
        else WriteResult(CountWritten(Advance(o.0, z, length), z, length), Ok, reported, Some(at))
  }

  function OpenZone(cfg: Config, d: Device, offset: nat): (Device, Status)
    requires ConfigOk(cfg) && cfg.numConventional <= |d.zones| && ZoneNumber(cfg, offset) < |d.zones|
  {
    var z := ZoneNumber(cfg, offset);
    match d.zones[z].cond
    case Empty => OpenLocked(cfg, d, z, true)
    case ImpOpen => OpenLocked(cfg, d, z, true)
    case Closed => OpenLocked(cfg, d, z, true)
    case ExpOpen => (d, Ok)
    case _ => (d, IoErr)
  }

  function CloseZone(cfg: Config, d: Device, offset: nat): (Device, Status)
    requires ConfigOk(cfg) && ZoneNumber(cfg, offset) < |d.zones|
  {
    var z := ZoneNumber(cfg, offset);
    var zone := d.zones[z];
    if ActiveShare(zone.cond) == 0 then (d, IoErr)
    else if zone.wp == zone.start then (Retire(d, z, Empty), Ok)
    else (SetCond(d, z, Closed).(numOpen := d.numOpen - OpenShare(zone.cond),
                                 numImpOpen := d.numImpOpen - ImpShare(zone.cond)), Ok)
  }

  function FinishZone(cfg: Config, d: Device, offset: nat): (Device, Status)
    requires ConfigOk(cfg) && ZoneNumber(cfg, offset) < |d.zones|
  {
    (MarkFull(d, ZoneNumber(cfg, offset)).0, Ok)
  }

  function CountReset(d: Device, z: nat): Device
    requires z < |d.zones| == |d.stats|
  {
    var s, zone := d.stats[z], d.zones[z];
    d.(stats := d.stats[z := s.(resetCount := s.resetCount + 1,
                                discardCount := s.discardCount + if zone.start <= zone.wp then Bytes(zone.wp - zone.start) else 0)])
  }

  function ResetZone(cfg: Config, d: Device, offset: nat): (Device, Status, bool)
    requires ConfigOk(cfg) && |d.zones| == |d.stats| && ZoneNumber(cfg, offset) < |d.zones|
  {
    ResetAt(d, ZoneNumber(cfg, offset))
  }

  /** A reset that rewinds also discards the zone's bytes; the flag says so. */
  function ResetAt(d: Device, z: nat): (Device, Status, bool)
    requires z < |d.zones| == |d.stats|
  {
    var d1 := CountReset(d, z);
    match d.zones[z].cond
    case Empty => (d1, Ok, false)
    case NotWp => (d1, IoErr, false)
    case _ => (SetWp(Retire(d1, z, Empty), z, d.zones[z].start), Ok, true)
  }

  function ResetAll(cfg: Config, d: Device): Device {
    d.(zones := FreshZones(cfg), numOpen := 0, numImpOpen := 0, numActive := 0)
  }

  function CountRead(d: Device, z: nat, n: nat): Device
    requires z < |d.stats|
  {
    d.(stats := d.stats[z := d.stats[z].(read := d.stats[z].read + n)])
  }

  // ---------------------------------------------------------------------------------------------
  // The device with its bytes, and runs of operations

  datatype State = State(dev: Device, disk: seq<byte>)

  datatype Op =
    | ReadOp(offset: nat, length: nat)
    | WriteOp(offset: nat, data: seq<byte>)
    | AppendOp(offset: nat, data: seq<byte>)
    | OpenOp(offset: nat)
    | CloseOp(offset: nat)
    | FinishOp(offset: nat)
    | ResetOp(offset: nat)
    | ResetAllOp

  datatype Reply = Reply(status: Status, reported: Option<nat>, data: seq<byte>)

  function DiskBytes(cfg: Config): nat {
    Bytes(ZoneStart(cfg, cfg.numZones))
  }

  predicate Shaped(cfg: Config, s: State) {
    ConfigOk(cfg) && |s.dev.zones| == |s.dev.stats| == cfg.numZones && |s.disk| == DiskBytes(cfg)
  }

  /** What the block layer guarantees of a request: it addresses the disk and does not leave its zone. */
  predicate OpOk(cfg: Config, op: Op) {
    ConfigOk(cfg) &&
    match op
    case ReadOp(o, n) => InZone(cfg, o, n)
    case WriteOp(o, data) => InZone(cfg, o, |data|)
    case AppendOp(o, data) => ZoneNumber(cfg, o) < cfg.numZones
    case ResetAllOp => true
    case _ => ZoneNumber(cfg, op.offset) < cfg.numZones
  }

  predicate InZone(cfg: Config, offset: nat, n: nat)
    requires ConfigOk(cfg)
  {
    ZoneNumber(cfg, offset) < cfg.numZones && offset + n <= Bytes(ZoneStart(cfg, ZoneNumber(cfg, offset) + 1))
  }

  function InitState(cfg: Config): State {
    State(Device(FreshZones(cfg), seq(cfg.numZones, _ => Stat(0, 0, 0, 0)), 0, 0, 0), Zeros(DiskBytes(cfg)))
  }
}
