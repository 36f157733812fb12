/** Runs of the zoned RAM disk: resource safety and the write-pointer rules in every reachable state. */
module ZonedRun {
  import opened Memory
  import opened Wrappers
  import opened Zoned
  import opened ZonedInvariant

  /** Active slots that are counted but that no zone holds. */
  function Leaked(d: Device): int {
    d.numActive - Count(d.zones, ACTIVE)
  }

  predicate SysOk(cfg: Config, s: State) {
    Shaped(cfg, s) && Inv(cfg, s.dev, Leaked(s.dev))
  }

  lemma NextZoneStart(cfg: Config, i: nat)
    ensures ZoneStart(cfg, i + 1) == ZoneStart(cfg, i) + cfg.zoneSectors
  {
  }

  lemma ZoneStartMono(cfg: Config, i: nat, j: nat)
    requires i <= j
    ensures ZoneStart(cfg, i) <= ZoneStart(cfg, j)
  {
    MulMono(i, j, cfg.zoneSectors);
  }

  /** The zone an operation works on; reset-all has none. */
  function Target(cfg: Config, op: Op): Option<nat>
    requires ConfigOk(cfg)
  {
    if op == ResetAllOp then None else Some(ZoneNumber(cfg, op.offset))
  }

  /** Zone z ends inside the disk. */
  lemma ZoneInDisk(cfg: Config, z: nat)
    requires z < cfg.numZones
    ensures Bytes(ZoneStart(cfg, z) + cfg.zoneSectors) == Bytes(ZoneStart(cfg, z + 1)) <= DiskBytes(cfg)
  {
    NextZoneStart(cfg, z);
    ZoneStartMono(cfg, z + 1, cfg.numZones);
  }

  /** The result of a write, with room on the disk for its bytes. */
  function WriteResultOf(cfg: Config, s: State, offset: nat, data: seq<byte>, append: bool): (r: WriteResult)
    requires SysOk(cfg, s) && ZoneNumber(cfg, offset) < cfg.numZones && (!append ==> InZone(cfg, offset, |data|))
    ensures r.rawAt.Some? ==> r.rawAt.value + |data| <= |s.disk|
  {
    assert ZoneOk(cfg, ZoneNumber(cfg, offset), s.dev.zones[ZoneNumber(cfg, offset)]);
    ZoneInDisk(cfg, ZoneNumber(cfg, offset));
    WriteCommon(cfg, s.dev, offset, |data|, append)
  }

  function DoWrite(cfg: Config, s: State, offset: nat, data: seq<byte>, append: bool): (State, Reply)
    requires SysOk(cfg, s) && ZoneNumber(cfg, offset) < cfg.numZones && (!append ==> InZone(cfg, offset, |data|))
  {
    var r := WriteResultOf(cfg, s, offset, data, append);
    (State(r.dev, if r.rawAt.Some? then Splice(s.disk, r.rawAt.value, data) else s.disk),
     Reply(r.status, r.reported, []))
  }

  function DoReset(cfg: Config, s: State, offset: nat): (State, Reply)
    requires SysOk(cfg, s) && ZoneNumber(cfg, offset) < cfg.numZones
  {
    var z := ZoneNumber(cfg, offset);
    var r := ResetZone(cfg, s.dev, offset);
    assert ZoneOk(cfg, z, s.dev.zones[z]);
    ZoneInDisk(cfg, z);
    (State(r.0, if r.2 then Splice(s.disk, Bytes(ZoneStart(cfg, z)), Zeros(Bytes(cfg.zoneSectors))) else s.disk),
     Reply(r.1, None, []))
  }

  /** One operation, executed alone. */
  function Step(cfg: Config, s: State, op: Op): (State, Reply)
    requires SysOk(cfg, s) && OpOk(cfg, op)
  {
    match op
    case ReadOp(o, n) =>
      ZoneInDisk(cfg, ZoneNumber(cfg, o));
      (State(CountRead(s.dev, ZoneNumber(cfg, o), n), s.disk), Reply(Ok, None, s.disk[o..o + n]))
    case WriteOp(o, data) => DoWrite(cfg, s, o, data, false)
    case AppendOp(o, data) => DoWrite(cfg, s, o, data, true)
    case OpenOp(o) => var r := OpenZone(cfg, s.dev, o); (State(r.0, s.disk), Reply(r.1, None, []))
    case CloseOp(o) => var r := CloseZone(cfg, s.dev, o); (State(r.0, s.disk), Reply(r.1, None, []))
    case FinishOp(o) => var r := FinishZone(cfg, s.dev, o); (State(r.0, s.disk), Reply(r.1, None, []))
    case ResetOp(o) => DoReset(cfg, s, o)
    case ResetAllOp => (State(ResetAll(cfg, s.dev), Zeros(|s.disk|)), Reply(Ok, None, []))
  }

  /** Does this operation lose an active slot? */
  predicate Leaks(cfg: Config, s: State, op: Op)
    requires SysOk(cfg, s) && OpOk(cfg, op)
  {
    match op
    case WriteOp(o, data) => WriteLeaks(cfg, s.dev, o, |data|, false)
    case AppendOp(o, data) => WriteLeaks(cfg, s.dev, o, |data|, true)
    case OpenOp(o) => LeaksSlot(cfg, s.dev, ZoneNumber(cfg, o))
    case _ => false
  }

  function LeaksAfter(cfg: Config, s: State, op: Op, n: int): int
    requires SysOk(cfg, s) && OpOk(cfg, op)
  {
    if op == ResetAllOp then 0 else n + LeakCount(Leaks(cfg, s, op))
  }

  lemma LeakedIs(cfg: Config, d: Device, leaked: int)
    requires Inv(cfg, d, leaked)
    ensures Leaked(d) == leaked
  {
  }

  /** Every operation keeps the invariant, and the drift of the active counter is exactly the leaks. */
  lemma StepInv(cfg: Config, s: State, op: Op)
    requires SysOk(cfg, s) && OpOk(cfg, op)
    ensures SysOk(cfg, Step(cfg, s, op).0)
    ensures Leaked(Step(cfg, s, op).0.dev) == LeaksAfter(cfg, s, op, Leaked(s.dev))
  {
    hide CountersOk, ZonesOk, Leaked;
    var d, d', l := s.dev, Step(cfg, s, op).0.dev, Leaked(s.dev);
    assert Inv(cfg, d', LeaksAfter(cfg, s, op, l)) by {
      DevStepInv(cfg, s, op);
    }
    LeakedIs(cfg, d', LeaksAfter(cfg, s, op, l));
    ZonesLength(cfg, d', LeaksAfter(cfg, s, op, l));
  }

  lemma ZonesLength(cfg: Config, d: Device, leaked: int)
    requires Inv(cfg, d, leaked)
    ensures |d.zones| == cfg.numZones
  {
  }

  lemma DevStepInv(cfg: Config, s: State, op: Op)
    requires SysOk(cfg, s) && OpOk(cfg, op)
    ensures Inv(cfg, Step(cfg, s, op).0.dev, LeaksAfter(cfg, s, op, Leaked(s.dev)))
  {
    hide CountersOk, ZonesOk, OpenLocked, WriteCommon, MarkFull, CloseZone, ResetZone, WriteLeaks, Leaked, LeaksSlot;
    var d, l := s.dev, Leaked(s.dev);
    match op {
      case ReadOp(o, n) =>
        CountReadInv(cfg, d, ZoneNumber(cfg, o), n, l);
      case WriteOp(o, data) => WriteInv(cfg, d, o, |data|, false, l);
      case AppendOp(o, data) => WriteInv(cfg, d, o, |data|, true, l);
      case OpenOp(o) => OpenZoneInv(cfg, d, o, l);
      case CloseOp(o) => CloseInv(cfg, d, o, l);
      case FinishOp(o) => MarkFullInv(cfg, d, ZoneNumber(cfg, o), l);
      case ResetOp(o) => ResetInv(cfg, d, o, l);
      case ResetAllOp => FreshInv(cfg, ResetAll(cfg, d));
    }
  }

  lemma CountReadInv(cfg: Config, d: Device, z: nat, n: nat, leaked: int)
    requires Inv(cfg, d, leaked) && z < |d.stats|
    ensures Inv(cfg, CountRead(d, z, n), leaked)
  {
  }

  lemma OpenZoneInv(cfg: Config, d: Device, offset: nat, leaked: int)
    requires Inv(cfg, d, leaked) && ZoneNumber(cfg, offset) < cfg.numZones
    ensures Inv(cfg, OpenZone(cfg, d, offset).0, leaked + LeakCount(LeaksSlot(cfg, d, ZoneNumber(cfg, offset))))
  {
    OpenLockedInv(cfg, d, ZoneNumber(cfg, offset), true, leaked);
  }

  /** A run from the freshly initialised device. */
  function Run(cfg: Config, ops: seq<Op>): (s: State)
    requires ConfigOk(cfg) && forall i :: 0 <= i < |ops| ==> OpOk(cfg, ops[i])
    ensures SysOk(cfg, s)
  {
    if ops == [] then
      FreshInv(cfg, InitState(cfg).dev);
      LeakedIs(cfg, InitState(cfg).dev, 0);
      InitState(cfg)
    else
      var s := Run(cfg, ops[..|ops| - 1]);
      StepInv(cfg, s, ops[|ops| - 1]);
      Step(cfg, s, ops[|ops| - 1]).0
  }

  /** The slots lost since the last reset-all. */
  function LeaksOf(cfg: Config, ops: seq<Op>): int
    requires ConfigOk(cfg) && forall i :: 0 <= i < |ops| ==> OpOk(cfg, ops[i])
  {
    if ops == [] then 0
    else LeaksAfter(cfg, Run(cfg, ops[..|ops| - 1]), ops[|ops| - 1], LeaksOf(cfg, ops[..|ops| - 1]))
  }

  /**
   * Resource safety in every reachable state: open and implicitly-open counters are exact, limits
   * hold, nothing is below zero, and the active counter exceeds the number of active zones by exactly
   * the slots lost so far; it is exact if and only if none was lost.
   */
  lemma {:induction false} ReachableResources(cfg: Config, ops: seq<Op>)
    requires ConfigOk(cfg) && forall i :: 0 <= i < |ops| ==> OpOk(cfg, ops[i])
    ensures var d := Run(cfg, ops).dev;
      && d.numOpen == Count(d.zones, OPEN) <= cfg.maxOpen
      && d.numImpOpen == Count(d.zones, IMP) <= d.numOpen
      && Count(d.zones, ACTIVE) <= d.numActive <= cfg.maxActive
      && d.numActive - Count(d.zones, ACTIVE) == LeaksOf(cfg, ops)
      && (d.numActive == Count(d.zones, ACTIVE) <==> LeaksOf(cfg, ops) == 0)
  {
    var d := Run(cfg, ops).dev;
    CountSubset(d.zones, IMP, OPEN);
    if ops == [] {
      FreshInv(cfg, d);
      LeakedIs(cfg, d, 0);
    } else {
      var front, op := ops[..|ops| - 1], ops[|ops| - 1];
      ReachableResources(cfg, front);
      StepInv(cfg, Run(cfg, front), op);
    }
  }
}
