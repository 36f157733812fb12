/** Traffic accounting of the zoned RAM disk, and the run that shows an active slot getting lost. */
module ZonedTraffic {
  import opened Memory
  import opened Wrappers
  import opened Zoned
  import opened ZonedInvariant
  import opened ZonedRun
  import opened ZonedLog

  /** Bytes between the start and the write pointer of zone z. */
  function Using(d: Device, z: nat): int
    requires z < |d.zones|
  {
    (d.zones[z].wp - d.zones[z].start) * 512
  }

  /** What the statistics of zone z leave unexplained: discarded plus in use, minus written. */
  function Surplus(d: Device, z: nat): int
    requires z < |d.zones| && z < |d.stats|
  {
    d.stats[z].discardCount + Using(d, z) - d.stats[z].written
  }

  /**
   * How much one operation adds to the surplus of zone z: finishing counts the unwritten rest as
   * used, resetting an EMPTY zone counts its bytes as discarded without rewinding, and reset-all
   * rewinds without counting.
   */
  function Slack(cfg: Config, s: State, op: Op, z: nat): int
    requires SysOk(cfg, s) && OpOk(cfg, op) && z < cfg.numZones
  {
    var zone := s.dev.zones[z];
    if op == ResetAllOp then -Using(s.dev, z)
    else if Target(cfg, op) != Some(z) then 0
    else match op
      case FinishOp(_) => (zone.start + zone.len - zone.wp) * 512
      case ResetOp(_) => if zone.cond == Empty then Using(s.dev, z) else 0
      case _ => 0
  }

  lemma StepTraffic(cfg: Config, s: State, op: Op, z: nat)
    requires SysOk(cfg, s) && OpOk(cfg, op) && WholeSectors(op) && Sequential(cfg, z)
    ensures |Step(cfg, s, op).0.dev.zones| == |Step(cfg, s, op).0.dev.stats| == cfg.numZones
    ensures Surplus(Step(cfg, s, op).0.dev, z) == Surplus(s.dev, z) + Slack(cfg, s, op, z)
  {
    assert Shaped(cfg, Step(cfg, s, op).0) by { StepInv(cfg, s, op); }
    if op == ResetAllOp {
    } else if Target(cfg, op) != Some(z) {
      StepOthers(cfg, s, op, z);
    } else {
      OwnTraffic(cfg, s, op, z);
    }
  }

  lemma OwnTraffic(cfg: Config, s: State, op: Op, z: nat)
    requires SysOk(cfg, s) && OpOk(cfg, op) && WholeSectors(op) && Sequential(cfg, z) && Target(cfg, op) == Some(z)
    requires |Step(cfg, s, op).0.dev.zones| == |Step(cfg, s, op).0.dev.stats| == cfg.numZones
    ensures Surplus(Step(cfg, s, op).0.dev, z) == Surplus(s.dev, z) + Slack(cfg, s, op, z)
  {
    hide WriteCommon, OpenLocked, CountersOk, ZonesOk, Splice, MarkFull, ResetZone, CloseZone, Surplus,
         InZone;
    var d := s.dev;
    match op {
      case WriteOp(o, data) => WriteTraffic(cfg, d, o, |data|, false, Leaked(d));
      case AppendOp(o, data) => WriteTraffic(cfg, d, o, |data|, true, Leaked(d));
      case OpenOp(o) => OpenTraffic(cfg, d, o, Leaked(d));
      case CloseOp(o) => CloseTraffic(cfg, d, o, Leaked(d));
      case FinishOp(o) => FinishTraffic(cfg, d, o, Leaked(d));
      case ResetOp(o) => ResetTraffic(cfg, d, o, Leaked(d));
      case ReadOp(o, n) => ReadTraffic(cfg, d, z, n);
    }
  }

  lemma OpenTraffic(cfg: Config, d: Device, offset: nat, leaked: int)
    requires Inv(cfg, d, leaked) && ZoneNumber(cfg, offset) < cfg.numZones
    ensures |OpenZone(cfg, d, offset).0.zones| == |d.zones| && |OpenZone(cfg, d, offset).0.stats| == |d.stats|
    ensures Surplus(OpenZone(cfg, d, offset).0, ZoneNumber(cfg, offset)) == Surplus(d, ZoneNumber(cfg, offset))
  {
    hide OpenLocked, CountersOk;
    OpenLockedFrame(cfg, d, ZoneNumber(cfg, offset), true);
  }

  lemma ReadTraffic(cfg: Config, d: Device, z: nat, n: nat)
    requires z < |d.stats| && z < |d.zones|
    ensures Surplus(CountRead(d, z, n), z) == Surplus(d, z)
  {
  }

  lemma WriteTraffic(cfg: Config, d: Device, offset: nat, n: nat, append: bool, leaked: int)
    requires Inv(cfg, d, leaked) && Sequential(cfg, ZoneNumber(cfg, offset)) && n % 512 == 0
    ensures var d' := WriteCommon(cfg, d, offset, n, append).dev;
      |d'.zones| == |d'.stats| == cfg.numZones
      && Surplus(d', ZoneNumber(cfg, offset)) == Surplus(d, ZoneNumber(cfg, offset))
  {
    hide WriteCommon, CountersOk, ZonesOk, Accepts;
    ZonesLength(cfg, d, leaked);
    SequentialWrite(cfg, d, offset, n, append, leaked);
    WriteStart(cfg, d, offset, n, append, leaked);
  }

  lemma WriteStart(cfg: Config, d: Device, offset: nat, n: nat, append: bool, leaked: int)
    requires Inv(cfg, d, leaked) && Sequential(cfg, ZoneNumber(cfg, offset))
    ensures |WriteCommon(cfg, d, offset, n, append).dev.zones| == |d.zones|
    ensures var z := ZoneNumber(cfg, offset);
            WriteCommon(cfg, d, offset, n, append).dev.zones[z].start == d.zones[z].start
  {
    hide WriteCommon, CountersOk;
    WriteInv(cfg, d, offset, n, append, leaked);
    var z := ZoneNumber(cfg, offset);
    assert ZoneOk(cfg, z, d.zones[z]) && ZoneOk(cfg, z, WriteCommon(cfg, d, offset, n, append).dev.zones[z]);
  }

  lemma CloseTraffic(cfg: Config, d: Device, offset: nat, leaked: int)
    requires Inv(cfg, d, leaked) && ZoneNumber(cfg, offset) < cfg.numZones
    ensures Surplus(CloseZone(cfg, d, offset).0, ZoneNumber(cfg, offset)) == Surplus(d, ZoneNumber(cfg, offset))
  {
  }

  lemma FinishTraffic(cfg: Config, d: Device, offset: nat, leaked: int)
    requires Inv(cfg, d, leaked) && Sequential(cfg, ZoneNumber(cfg, offset))
    ensures var z := ZoneNumber(cfg, offset); var zone := d.zones[z];
      Surplus(MarkFull(d, z).0, z) == Surplus(d, z) + (zone.start + zone.len - zone.wp) * 512
  {
    assert ZoneOk(cfg, ZoneNumber(cfg, offset), d.zones[ZoneNumber(cfg, offset)]);
  }

  lemma ResetTraffic(cfg: Config, d: Device, offset: nat, leaked: int)
    requires Inv(cfg, d, leaked) && Sequential(cfg, ZoneNumber(cfg, offset))
    ensures var z := ZoneNumber(cfg, offset);
      Surplus(ResetZone(cfg, d, offset).0, z) == Surplus(d, z) + if d.zones[z].cond == Empty then Using(d, z) else 0
  {
    assert ZoneOk(cfg, ZoneNumber(cfg, offset), d.zones[ZoneNumber(cfg, offset)]);
  }

  function SlackOf(cfg: Config, ops: seq<Op>, z: nat): int
    requires RunOk(cfg, ops) && z < cfg.numZones
  {
    if ops == [] then 0
    else SlackOf(cfg, ops[..|ops| - 1], z) + Slack(cfg, Run(cfg, ops[..|ops| - 1]), ops[|ops| - 1], z)
  }

  /** Traffic is conserved up to the slack of finishes, idle resets and reset-alls. */
  lemma {:induction false} TrafficConserved(cfg: Config, ops: seq<Op>, z: nat)
    requires RunOk(cfg, ops) && Sequential(cfg, z)
    ensures var d := Run(cfg, ops).dev;
      d.stats[z].discardCount + Using(d, z) == d.stats[z].written + SlackOf(cfg, ops, z)
  {
    if ops == [] {
    } else {
      hide Step, Slack, SysOk;
      TrafficConserved(cfg, ops[..|ops| - 1], z);
      StepTraffic(cfg, Run(cfg, ops[..|ops| - 1]), ops[|ops| - 1], z);
    }
  }

  /** No operation of the run cut zone z short by a finish or hit it with a reset while EMPTY and written. */
  predicate NeverIdle(cfg: Config, ops: seq<Op>, z: nat)
    requires RunOk(cfg, ops) && z < cfg.numZones
  {
    ops == []
    || (NeverIdle(cfg, ops[..|ops| - 1], z) && Slack(cfg, Run(cfg, ops[..|ops| - 1]), ops[|ops| - 1], z) == 0)
  }

  /**
   * Without reset-all, a zone never reports more written than discarded plus in use, with equality
   * exactly when no finish cut the zone short and no reset hit it EMPTY with bytes in it.
   */
  lemma {:induction false} WrittenIsAccountedFor(cfg: Config, ops: seq<Op>, z: nat)
    requires RunOk(cfg, ops) && Sequential(cfg, z) && ResetAllOp !in ops
    ensures var d := Run(cfg, ops).dev;
      && d.stats[z].written <= d.stats[z].discardCount + Using(d, z)
      && (d.stats[z].written == d.stats[z].discardCount + Using(d, z) <==> NeverIdle(cfg, ops, z))
  {
    hide Slack, SlackOf, NeverIdle;
    TrafficConserved(cfg, ops, z);
    SlackSign(cfg, ops, z);
  }

  lemma {:induction false} SlackSign(cfg: Config, ops: seq<Op>, z: nat)
    requires RunOk(cfg, ops) && Sequential(cfg, z) && ResetAllOp !in ops
    ensures 0 <= SlackOf(cfg, ops, z)
    ensures SlackOf(cfg, ops, z) == 0 <==> NeverIdle(cfg, ops, z)
  {
    if ops != [] {
      hide SysOk, Run, Slack;
      SlackSign(cfg, ops[..|ops| - 1], z);
      SlackNonNegative(cfg, ops[..|ops| - 1], ops[|ops| - 1], z);
    }
  }

  lemma SlackNonNegative(cfg: Config, ops: seq<Op>, op: Op, z: nat)
    requires RunOk(cfg, ops) && OpOk(cfg, op) && op != ResetAllOp && Sequential(cfg, z)
    ensures 0 <= Slack(cfg, Run(cfg, ops), op, z)
  {
    assert ZoneOk(cfg, z, Run(cfg, ops).dev.zones[z]);
  }

  // ---------------------------------------------------------------------------------------------
  // Where the active counter stops being exact

  /**
   * An append to an EMPTY zone that finds the open limit reached evicts another zone and is accepted,
   * but does not open its own: the zone stays EMPTY with bytes in it, and the active slot it took
   * belongs to nobody from then on.
   */
  lemma EvictedAppendLosesSlot(cfg: Config, s: State, op: Op)
    requires SysOk(cfg, s) && OpOk(cfg, op) && op.AppendOp? && Sequential(cfg, ZoneNumber(cfg, op.offset))
    requires var z := ZoneNumber(cfg, op.offset);
      s.dev.zones[z].cond == Empty
      && 512 <= |op.data| && Bytes(s.dev.zones[z].wp) + |op.data| < Bytes(s.dev.zones[z].start + s.dev.zones[z].capacity)
    requires s.dev.numActive < cfg.maxActive && s.dev.numOpen == cfg.maxOpen && s.dev.numImpOpen > 0
    ensures var s' := Step(cfg, s, op).0; var z := ZoneNumber(cfg, op.offset);
      && SysOk(cfg, s') && Step(cfg, s, op).1.status == Ok
      && s'.dev.zones[z].cond == Empty && s'.dev.zones[z].start < s'.dev.zones[z].wp
      && Leaked(s'.dev) == Leaked(s.dev) + 1
  {
    StepInv(cfg, s, op);
    hide CountersOk, Splice;
    var z, d := ZoneNumber(cfg, op.offset), s.dev;
    assert ZoneOk(cfg, z, d.zones[z]);
    EvictionSucceeds(cfg, d, z, Leaked(d));
  }

  /** Two one-sector appends to two zones, with one zone allowed open: the second loses a slot. */
  lemma SlotsDoGetLost()
    ensures exists cfg: Config, ops: seq<Op> :: RunOk(cfg, ops) && LeaksOf(cfg, ops) == 1
  {
    var cfg := Config(2, 2, 0, 1, 2);
    var a, b := AppendOp(0, Zeros(512)), AppendOp(1024, Zeros(512));
    var s0 := InitState(cfg);
    assert Run(cfg, []) == s0;
    assert ZoneNumber(cfg, 0) == 0 && ZoneNumber(cfg, 1024) == 1;
    var s1 := Step(cfg, s0, a).0;
    assert [a][..0] == [];
    assert Run(cfg, [a]) == s1;
    assert !Leaks(cfg, s0, a);
    assert s1.dev.numOpen == 1 && s1.dev.numActive == 1 && s1.dev.numImpOpen == 1 && s1.dev.zones[1].cond == Empty;
    assert [a, b][..1] == [a];
    assert Leaks(cfg, s1, b);
    assert LeaksOf(cfg, [a]) == 0;
    assert LeaksOf(cfg, [a, b]) == 1;
  }
}
