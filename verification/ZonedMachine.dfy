/**
 * examples/zoned-common.h run by many threads: every zone lock and the global lock are explicit, a raw
 * write lands byte by byte after its zone was unlocked, and the eviction scan takes one zone lock after
 * the other under the global lock. A schedule says who moves next; a thread that spins does not move.
 */
module ZonedMachine {
  import opened Memory
  import opened Wrappers
  import opened Zoned
  import opened ZonedRun
  import opened ZonedLog

  datatype Task =
    | Put(offset: nat, data: seq<byte>, append: bool)
    | Open(offset: nat)
    | Close(offset: nat)
    | Finish(offset: nat)
    | Reset(offset: nat)

  datatype Stage =
    | Wanting                 // spins on the zone lock
    | Entered                 // holds the zone lock from here on
    | Opening                 // spins on the global lock in open_zone_locked
    | Scanning(next: nat)     // holds the global lock too, in close_imp_open_zone
    | Advancing               // about to move the write pointer
    | Filling                 // spins on the global lock in mark_zone_full_locked
    | Counting                // about to count and to release the zone lock
    | Landing(k: nat)         // raw_write, k bytes done
    | Discarding              // raw_discard

  /** at: where the payload goes; slot: its place among the reservations; reported: what an append told its caller. */
  datatype Thread = Idle | Busy(z: nat, task: Task, at: nat, slot: nat, reported: Option<nat>, stage: Stage)

  datatype Reservation = Reservation(t: nat, z: nat, at: nat, data: seq<byte>)
  datatype Answer = Answer(t: nat, task: Task, status: Status, reported: Option<nat>, at: nat)

  /** log and answers record what happened; no thread looks at them. */
  datatype Machine = Machine(dev: Device, disk: seq<byte>, zoneLock: seq<Option<nat>>, globalLock: Option<nat>,
                             threads: seq<Thread>, log: seq<Reservation>, answers: seq<Answer>)

  datatype Event = Begin(t: nat, task: Task) | Run(t: nat)

  function OpOf(task: Task): Op {
    match task
    case Put(o, data, append) => if append then AppendOp(o, data) else WriteOp(o, data)
    case Open(o) => OpenOp(o)
    case Close(o) => CloseOp(o)
    case Finish(o) => FinishOp(o)
    case Reset(o) => ResetOp(o)
  }

  predicate TaskOk(cfg: Config, task: Task) {
    ConfigOk(cfg) && OpOk(cfg, OpOf(task)) && WholeSectors(OpOf(task)) && ZoneNumber(cfg, task.offset) < cfg.numZones
  }

  /** The machine as far as its moves depend on it. */
  predicate Sized(cfg: Config, c: Machine) {
    && ConfigOk(cfg) && |c.dev.zones| == |c.dev.stats| == |c.zoneLock| == cfg.numZones
    && |c.disk| == DiskBytes(cfg)
  }

  predicate ThreadSized(cfg: Config, c: Machine, t: nat) {
    && Sized(cfg, c) && t < |c.threads|
    && (c.threads[t].Busy? ==> c.threads[t].z < cfg.numZones && TaskOk(cfg, c.threads[t].task)
                               && c.threads[t].z == ZoneNumber(cfg, c.threads[t].task.offset))
  }

  // ---------------------------------------------------------------------------------------------
  // Moves

  function Goto(c: Machine, t: nat, stage: Stage): Machine
    requires t < |c.threads| && c.threads[t].Busy?
  {
    c.(threads := c.threads[t := c.threads[t].(stage := stage)])
  }

  function Unlock(c: Machine, z: nat): Machine
    requires z < |c.zoneLock|
  {
    c.(zoneLock := c.zoneLock[z := None])
  }

  /** The call returns. */
  function Return(c: Machine, t: nat, status: Status): Machine
    requires t < |c.threads| && c.threads[t].Busy?
  {
    var me := c.threads[t];
    c.(threads := c.threads[t := Idle], answers := c.answers + [Answer(t, me.task, status, me.reported, me.at)])
  }

  /** Out through out_unlock. */
  function Leave(c: Machine, t: nat, status: Status): Machine
    requires t < |c.threads| && c.threads[t].Busy? && c.threads[t].z < |c.zoneLock|
  {
    Return(Unlock(c, c.threads[t].z), t, status)
  }

  /** zoned_write_common from taking the zone lock to the switch on the condition. */
  function EnterPut(cfg: Config, c: Machine, t: nat): Machine
    requires ThreadSized(cfg, c, t) && c.threads[t].Busy? && c.threads[t].task.Put?
  {
    var me := c.threads[t];
    var zone := c.dev.zones[me.z];
    if zone.ztype == Conventional then
      if me.task.append then Leave(c, t, IoErr)
      else c.(threads := c.threads[t := me.(at := me.task.offset, stage := Counting)])
    else
      var at := if me.task.append then Bytes(zone.wp) else me.task.offset;
      var c1 := c.(threads := c.threads[t := me.(at := at, reported := if me.task.append then Some(at) else None)]);
      if !me.task.append && Bytes(zone.wp) != me.task.offset then Leave(c, t, IoErr)
      else if Bytes(zone.start + zone.capacity) < at + |me.task.data| then Leave(c1, t, IoErr)
      else if zone.cond == Empty || zone.cond == Closed then Goto(c1, t, Opening)
      else if zone.cond == ImpOpen || zone.cond == ExpOpen then Goto(c1, t, Advancing)
      else Leave(c1, t, IoErr)
  }

  function Enter(cfg: Config, c: Machine, t: nat): Machine
    requires ThreadSized(cfg, c, t) && c.threads[t].Busy?
  {
    var z, d := c.threads[t].z, c.dev;
    match c.threads[t].task
    case Put(_, _, _) => EnterPut(cfg, c, t)
    case Open(_) =>
      (match d.zones[z].cond
       case ExpOpen => Leave(c, t, Ok)
       case NotWp => Leave(c, t, IoErr)
       case Full => Leave(c, t, IoErr)
       case _ => Goto(c, t, Opening))
    case Close(o) =>
      if c.globalLock.Some? then c
      else var r := CloseZone(cfg, d, o); Leave(c.(dev := r.0), t, r.1)
    case Finish(o) =>
      if c.globalLock.Some? then c
      else var r := FinishZone(cfg, d, o); Leave(c.(dev := r.0), t, r.1)
    case Reset(_) =>
      if c.globalLock.Some? then c
      else
        var r := ResetAt(d, z);
        if r.2 then Goto(Unlock(c.(dev := r.0), z), t, Discarding) else Leave(c.(dev := r.0), t, r.1)
  }

  /** open_zone_locked succeeded. */
  function Proceed(c: Machine, t: nat): Machine
    requires t < |c.threads| && c.threads[t].Busy? && c.threads[t].z < |c.zoneLock|
  {
    if c.threads[t].task.Put? then Goto(c, t, Advancing) else Leave(c, t, Ok)
  }

  /** open_zone_locked has to evict. */
  predicate MustEvict(cfg: Config, d: Device, z: nat)
    requires z < |d.zones|
  {
    && ((d.zones[z].cond == Empty && d.numActive < cfg.maxActive) || d.zones[z].cond == Closed)
    && d.numOpen >= cfg.maxOpen && d.numImpOpen > 0
  }

  function OpenMove(cfg: Config, c: Machine, t: nat): Machine
    requires ThreadSized(cfg, c, t) && c.threads[t].Busy?
  {
    var me, d := c.threads[t], c.dev;
    if c.globalLock.Some? then c
    else if MustEvict(cfg, d, me.z) then
      Goto(c.(dev := if d.zones[me.z].cond == Empty then d.(numActive := d.numActive + 1) else d,
              globalLock := Some(t)), t, Scanning(cfg.numConventional))
    else
      var r := OpenLocked(cfg, d, me.z, me.task.Open?);
      if r.1 == Ok then Proceed(c.(dev := r.0), t) else Leave(c.(dev := r.0), t, r.1)
  }

  /** One turn of the loop of close_imp_open_zone. */
  function ScanMove(cfg: Config, c: Machine, t: nat, next: nat): Machine
    requires ThreadSized(cfg, c, t) && c.threads[t].Busy?
  {
    var d := c.dev;
    if next >= cfg.numZones then Proceed(c.(globalLock := None), t)
    else if next == c.threads[t].z then Goto(c, t, Scanning(next + 1))
    else if c.zoneLock[next].Some? then c
    else if d.zones[next].cond == ImpOpen then
      Proceed(c.(dev := SetCond(d, next, Closed).(numOpen := d.numOpen - 1, numImpOpen := d.numImpOpen - 1),
                 globalLock := None), t)
    else Goto(c, t, Scanning(next + 1))
  }

  /** wp moves: the range is reserved. */
  function AdvanceMove(cfg: Config, c: Machine, t: nat): Machine
    requires ThreadSized(cfg, c, t) && c.threads[t].Busy? && c.threads[t].task.Put?
  {
    var me := c.threads[t];
    var d := SetWp(c.dev, me.z, c.dev.zones[me.z].wp + Sectors(|me.task.data|));
    var zone := d.zones[me.z];
    c.(dev := d, log := c.log + [Reservation(t, me.z, me.at, me.task.data)],
       threads := c.threads[t := me.(slot := |c.log|,
                                     stage := if zone.wp == zone.start + zone.capacity then Filling else Counting)])
  }

  function Move(cfg: Config, c: Machine, t: nat): Machine
    requires ThreadSized(cfg, c, t)
  {
    if c.threads[t].Idle? then c
    else
      var me := c.threads[t];
      match me.stage
      case Wanting =>
        if c.zoneLock[me.z].Some? then c else Goto(c.(zoneLock := c.zoneLock[me.z := Some(t)]), t, Entered)
      case Entered => Enter(cfg, c, t)
      case Opening => OpenMove(cfg, c, t)
      case Scanning(next) => ScanMove(cfg, c, t, next)
      case Advancing => if me.task.Put? then AdvanceMove(cfg, c, t) else c
      case Filling =>
        if c.globalLock.Some? then c else Goto(c.(dev := MarkFull(c.dev, me.z).0), t, Counting)
      case Counting =>
        if me.task.Put? then Goto(Unlock(c.(dev := CountWritten(c.dev, me.z, |me.task.data|)), me.z), t, Landing(0))
        else c
      case Landing(k) =>
        if me.task.Put? && k < |me.task.data| && me.at + k < |c.disk| then
          Goto(c.(disk := c.disk[me.at + k := me.task.data[k]]), t, Landing(k + 1))
        else Return(c, t, Ok)
      case Discarding =>
        ZoneInDisk(cfg, me.z);
        Return(c.(disk := Splice(c.disk, Bytes(ZoneStart(cfg, me.z)), Zeros(Bytes(cfg.zoneSectors)))), t, Ok)
  }

  function Happen(cfg: Config, c: Machine, e: Event): Machine
    requires e.t < |c.threads| ==> ThreadSized(cfg, c, e.t)
    requires e.Begin? ==> TaskOk(cfg, e.task)
  {
    if e.t >= |c.threads| then c
    else match e
      case Begin(t, task) =>
        if c.threads[t].Idle? then c.(threads := c.threads[t := Busy(ZoneNumber(cfg, task.offset), task, 0, 0, None, Wanting)])
        else c
      case Run(t) => Move(cfg, c, t)
  }
}
