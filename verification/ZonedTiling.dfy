/** Concurrent writes and appends tile their zones, whatever the interleaving and the order of raw writes. */
module ZonedTiling {
  import opened Memory
  import opened Wrappers
  import opened Zoned
  import opened ZonedInvariant
  import opened ZonedRun
  import opened ZonedLog
  import opened ZonedMachine
  import opened ZonedSafety

  // ---------------------------------------------------------------------------------------------
  // Reservations

  /** Where the last reservation of zone z ends; `base` if there is none. */
  function EndOf(log: seq<Reservation>, z: nat, base: nat): nat {
    if log == [] then base
    else
      var last := log[|log| - 1];
      if last.z == z then last.at + |last.data| else EndOf(log[..|log| - 1], z, base)
  }

  /** The payloads reserved in zone z, in order. */
  function ZonePayload(log: seq<Reservation>, z: nat): seq<byte> {
    if log == [] then []
    else
      var last := log[|log| - 1];
      ZonePayload(log[..|log| - 1], z) + if last.z == z then last.data else []
  }

  function Base(s: State, z: nat): nat
    requires z < |s.dev.zones|
  {
    Bytes(s.dev.zones[z].wp)
  }

  predicate InsideZone(cfg: Config, r: Reservation) {
    && Sequential(cfg, r.z) && 0 < |r.data|
    && Bytes(ZoneStart(cfg, r.z)) <= r.at && r.at + |r.data| <= Bytes(ZoneStart(cfg, r.z) + cfg.zoneSectors)
  }

  /** Every reservation starts where the previous one of its zone ends, the first one at the write pointer. */
  predicate Tiled(cfg: Config, s: State, log: seq<Reservation>) {
    && |s.dev.zones| == cfg.numZones
    && forall i :: 0 <= i < |log| ==>
         InsideZone(cfg, log[i]) && log[i].at == EndOf(log[..i], log[i].z, Base(s, log[i].z))
  }

  function Range(r: Reservation): Extent {
    Extent(r.at, |r.data|)
  }

  lemma EndSnoc(log: seq<Reservation>, i: nat, z: nat, base: nat)
    requires i < |log|
    ensures EndOf(log[..i + 1], z, base) == if log[i].z == z then log[i].at + |log[i].data| else EndOf(log[..i], z, base)
    ensures ZonePayload(log[..i + 1], z) == ZonePayload(log[..i], z) + if log[i].z == z then log[i].data else []
  {
    assert log[..i + 1][..i] == log[..i];
  }

  lemma {:induction false} EndMono(cfg: Config, s: State, log: seq<Reservation>, i: nat, j: nat, z: nat)
    requires Tiled(cfg, s, log) && i <= j <= |log| && z < cfg.numZones
    ensures EndOf(log[..i], z, Base(s, z)) <= EndOf(log[..j], z, Base(s, z))
    decreases j
  {
    if i < j {
      EndMono(cfg, s, log, i, j - 1, z);
      EndSnoc(log, j - 1, z, Base(s, z));
    }
  }

  /** No two reservations share a byte. */
  lemma TiledApart(cfg: Config, s: State, log: seq<Reservation>, i: nat, j: nat)
    requires Tiled(cfg, s, log) && i < j < |log|
    ensures Apart(Range(log[i]), Range(log[j]))
  {
    var z := log[i].z;
    if log[j].z == z {
      EndSnoc(log, i, z, Base(s, z));
      EndMono(cfg, s, log, i + 1, j, z);
    } else {
      ZonesApart(cfg, z, log[j].z);
    }
  }

  // ---------------------------------------------------------------------------------------------
  // The machine, as long as nobody finishes or resets a zone

  /** A task of the tiling claim: a write or append to a sequential zone, an open, a close. */
  predicate Tiling(cfg: Config, task: Task) {
    match task
    case Put(o, _, _) => ConfigOk(cfg) && Sequential(cfg, ZoneNumber(cfg, o))
    case Open(_) => true
    case Close(_) => true
    case _ => false
  }

  /** The thread has a reservation whose bytes are not all written, or whose call has not returned. */
  predicate Carrying(th: Thread) {
    th.Busy? && th.task.Put? && (th.stage.Filling? || th.stage.Counting? || th.stage.Landing?)
  }

  /** The bytes of its payload that a carrying thread has written. */
  function Progress(th: Thread): nat {
    if th.Busy? && th.stage.Landing? then th.stage.k else 0
  }

  function Landed(c: Machine, i: nat): nat
    requires i < |c.log|
  {
    var t := c.log[i].t;
    if t < |c.threads| && Carrying(c.threads[t]) && c.threads[t].slot == i then Progress(c.threads[t]) else |c.log[i].data|
  }

  predicate Uncovered(log: seq<Reservation>, a: nat) {
    forall i :: 0 <= i < |log| ==> !(log[i].at <= a < log[i].at + |log[i].data|)
  }

  predicate TilePointers(cfg: Config, s: State, c: Machine) {
    && |s.dev.zones| == |c.dev.zones| == cfg.numZones
    && forall z :: cfg.numConventional <= z < cfg.numZones ==> Bytes(c.dev.zones[z].wp) == EndOf(c.log, z, Base(s, z))
  }

  /** What a thread of the tiling claim has in hand. */
  predicate HandOk(cfg: Config, c: Machine, t: nat)
    requires t < |c.threads|
  {
    var th := c.threads[t];
    th.Busy? ==>
      && Tiling(cfg, th.task) && !th.stage.Discarding?
      && (th.task.Put? && !th.stage.Wanting? && !th.stage.Entered? ==>
            th.reported == (if th.task.append then Some(th.at) else None) && (!th.task.append ==> th.at == th.task.offset))
      && (Carrying(th) ==> th.slot < |c.log| && c.log[th.slot] == Reservation(t, th.z, th.at, th.task.data))
  }

  predicate HandsOk(cfg: Config, c: Machine) {
    forall t :: 0 <= t < |c.threads| ==> HandOk(cfg, c, t)
  }

  predicate EntryLanded(c: Machine, i: nat)
    requires i < |c.log|
  {
    && c.log[i].at + |c.log[i].data| <= |c.disk|
    && forall j :: 0 <= j < Landed(c, i) && j < |c.log[i].data| ==> c.disk[c.log[i].at + j] == c.log[i].data[j]
  }

  predicate BytesOk(s: State, c: Machine) {
    && |c.disk| == |s.disk|
    && (forall i :: 0 <= i < |c.log| ==> EntryLanded(c, i))
    && (forall a :: 0 <= a < |c.disk| && Uncovered(c.log, a) ==> c.disk[a] == s.disk[a])
  }

  /** An accepted call was told the truth: its range is the one it reserved. */
  predicate AnswerOk(cfg: Config, log: seq<Reservation>, a: Answer) {
    a.task.Put? && a.status == Ok ==>
      && ConfigOk(cfg) && Reservation(a.t, ZoneNumber(cfg, a.task.offset), a.at, a.task.data) in log
      && a.reported == (if a.task.append then Some(a.at) else None)
      && (!a.task.append ==> a.at == a.task.offset)
  }

  predicate AnswersOk(cfg: Config, c: Machine) {
    forall k :: 0 <= k < |c.answers| ==> AnswerOk(cfg, c.log, c.answers[k])
  }

  predicate Tile(cfg: Config, s: State, c: Machine) {
    TilePointers(cfg, s, c) && Tiled(cfg, s, c.log) && HandsOk(cfg, c) && BytesOk(s, c) && AnswersOk(cfg, c)
  }

  // ---------------------------------------------------------------------------------------------
  // Moves that reserve nothing and write no byte

  predicate SamePointers(d: Device, d': Device) {
    |d'.zones| == |d.zones| && forall i :: 0 <= i < |d.zones| ==> d'.zones[i].wp == d.zones[i].wp
  }

  predicate SameLanded(c: Machine, c': Machine) {
    c'.log == c.log && forall i :: 0 <= i < |c.log| ==> Landed(c', i) == Landed(c, i)
  }

  lemma TileKept(cfg: Config, s: State, c: Machine, c': Machine, t: nat)
    requires Tile(cfg, s, c) && c'.disk == c.disk && SamePointers(c.dev, c'.dev) && SameLanded(c, c')
    requires t < |c.threads| == |c'.threads| && c'.threads == c.threads[t := c'.threads[t]] && HandOk(cfg, c', t)
    requires AnswersOk(cfg, c')
    ensures Tile(cfg, s, c')
  {
    hide Tiled, AnswersOk, Landed;
    forall u | 0 <= u < |c'.threads| ensures HandOk(cfg, c', u) {
      assert HandOk(cfg, c, u);
    }
    forall i | 0 <= i < |c'.log| ensures EntryLanded(c', i) {
      assert EntryLanded(c, i);
    }
  }

  lemma SameLandedIf(c: Machine, c': Machine, t: nat)
    requires t < |c.threads| == |c'.threads| && c'.threads == c.threads[t := c'.threads[t]] && c'.log == c.log
    requires Carrying(c.threads[t]) == Carrying(c'.threads[t])
    requires Carrying(c.threads[t]) ==> c'.threads[t].slot == c.threads[t].slot && Progress(c'.threads[t]) == Progress(c.threads[t])
    ensures SameLanded(c, c')
  {
  }

  lemma AnswerSnoc(cfg: Config, c: Machine, a: Answer)
    requires AnswersOk(cfg, c) && AnswerOk(cfg, c.log, a)
    ensures AnswersOk(cfg, c.(answers := c.answers + [a]))
  {
    hide AnswerOk;
  }

  /** A thread without a payload in hand moves on. */
  lemma TileStage(cfg: Config, s: State, c: Machine, t: nat, th: Thread)
    requires Tile(cfg, s, c) && t < |c.threads| && !Carrying(c.threads[t]) && !Carrying(th)
    requires HandOk(cfg, c.(threads := c.threads[t := th]), t)
    ensures Tile(cfg, s, c.(threads := c.threads[t := th]))
  {
    hide Tiled, AnswerOk, HandOk, Landed;
    var c' := c.(threads := c.threads[t := th]);
    SameLandedIf(c, c', t);
    TileKept(cfg, s, c, c', t);
  }

  /** Locks, the device but for its pointers: nothing of the claim depends on them. */
  lemma TileDevice(cfg: Config, s: State, c: Machine, d: Device, zoneLock: seq<Option<nat>>, globalLock: Option<nat>)
    requires Tile(cfg, s, c) && SamePointers(c.dev, d)
    ensures Tile(cfg, s, c.(dev := d, zoneLock := zoneLock, globalLock := globalLock))
  {
    hide Tiled;
    var c' := c.(dev := d, zoneLock := zoneLock, globalLock := globalLock);
    forall u | 0 <= u < |c'.threads| ensures HandOk(cfg, c', u) {
      assert HandOk(cfg, c, u);
    }
    forall i | 0 <= i < |c'.log| ensures EntryLanded(c', i) {
      assert EntryLanded(c, i) && Landed(c', i) == Landed(c, i);
    }
  }

  /** A call that reserved nothing returns. */
  lemma TileLeave(cfg: Config, s: State, c: Machine, t: nat, status: Status)
    requires Tile(cfg, s, c) && t < |c.threads| && c.threads[t].Busy? && c.threads[t].z < |c.zoneLock|
    requires !Carrying(c.threads[t]) && (c.threads[t].task.Put? ==> status != Ok)
    ensures Tile(cfg, s, Leave(c, t, status))
  {
    hide Tiled, Landed, BytesOk, TilePointers;
    TileStage(cfg, s, c, t, Idle);
    var c1 := c.(threads := c.threads[t := Idle]);
    TileDevice(cfg, s, c1, c.dev, Unlock(c, c.threads[t].z).zoneLock, c.globalLock);
    var c2 := c1.(zoneLock := Unlock(c, c.threads[t].z).zoneLock);
    TileAnswer(cfg, s, c2, Answer(t, c.threads[t].task, status, c.threads[t].reported, c.threads[t].at));
  }

  lemma TileAnswer(cfg: Config, s: State, c: Machine, a: Answer)
    requires Tile(cfg, s, c) && AnswerOk(cfg, c.log, a)
    ensures Tile(cfg, s, c.(answers := c.answers + [a]))
  {
    hide Tiled, AnswerOk;
    var c' := c.(answers := c.answers + [a]);
    AnswerSnoc(cfg, c, a);
    forall u | 0 <= u < |c'.threads| ensures HandOk(cfg, c', u) {
      assert HandOk(cfg, c, u);
    }
    forall i | 0 <= i < |c'.log| ensures EntryLanded(c', i) {
      assert EntryLanded(c, i) && Landed(c', i) == Landed(c, i);
    }
  }

  lemma EnterPutTile(cfg: Config, s: State, c: Machine, t: nat)
    requires Safe(cfg, c) && Tile(cfg, s, c) && ThreadSized(cfg, c, t) && c.threads[t].Busy?
    requires c.threads[t].stage == Entered && c.threads[t].task.Put?
    ensures Tile(cfg, s, EnterPut(cfg, c, t))
  {
    hide Tiled, Landed, BytesOk, TilePointers, Tile, Locks, CountersOk, Leave;
    var me := c.threads[t];
    var zone := c.dev.zones[me.z];
    HandAt(cfg, s, c, t);
    assert zone.ztype == SeqWriteReq by {
      assert ZoneFine(cfg, me.z, zone, BeingFilled(c, me.z));
    }
    var at := if me.task.append then Bytes(zone.wp) else me.task.offset;
    var me1 := me.(at := at, reported := if me.task.append then Some(at) else None);
    var c1 := c.(threads := c.threads[t := me1]);
    if !me.task.append && Bytes(zone.wp) != me.task.offset {
      TileLeave(cfg, s, c, t, IoErr);
    } else {
      TileStage(cfg, s, c, t, me1);
      if Bytes(zone.start + zone.capacity) < at + |me.task.data| {
        TileLeave(cfg, s, c1, t, IoErr);
      } else if zone.cond == Empty || zone.cond == Closed {
        TileStage(cfg, s, c1, t, me1.(stage := Opening));
      } else if zone.cond == ImpOpen || zone.cond == ExpOpen {
        TileStage(cfg, s, c1, t, me1.(stage := Advancing));
      } else {
        TileLeave(cfg, s, c1, t, IoErr);
      }
    }
  }

  lemma HandAt(cfg: Config, s: State, c: Machine, t: nat)
    requires Tile(cfg, s, c) && t < |c.threads|
    ensures HandOk(cfg, c, t)
  {
  }

  lemma ProceedTile(cfg: Config, s: State, c: Machine, t: nat)
    requires Tile(cfg, s, c) && t < |c.threads| && c.threads[t].Busy? && c.threads[t].z < |c.zoneLock|
    requires c.threads[t].stage.Opening? || c.threads[t].stage.Scanning?
    ensures Tile(cfg, s, Proceed(c, t))
  {
    hide Tile, Leave;
    HandAt(cfg, s, c, t);
    if c.threads[t].task.Put? {
      TileStage(cfg, s, c, t, c.threads[t].(stage := Advancing));
    } else {
      TileLeave(cfg, s, c, t, Ok);
    }
  }

  lemma OpenKeepsPointers(cfg: Config, d: Device, z: nat, explicit: bool)
    requires cfg.numConventional <= |d.zones| && z < |d.zones|
    ensures SamePointers(d, OpenLocked(cfg, d, z, explicit).0)
  {
    OpenLockedFrame(cfg, d, z, explicit);
    hide OpenLocked;
    var d' := OpenLocked(cfg, d, z, explicit).0;
    forall i | 0 <= i < |d.zones| ensures d'.zones[i].wp == d.zones[i].wp {
      assert d'.zones[i].(cond := d.zones[i].cond) == d.zones[i];
    }
  }

  lemma OpenMoveTile(cfg: Config, s: State, c: Machine, t: nat)
    requires Tile(cfg, s, c) && ThreadSized(cfg, c, t) && c.threads[t].Busy? && c.threads[t].stage == Opening
    ensures Tile(cfg, s, OpenMove(cfg, c, t))
  {
    hide Tile, Leave, OpenLocked, Proceed;
    HandAt(cfg, s, c, t);
    var me, d := c.threads[t], c.dev;
    if c.globalLock.None? {
      if MustEvict(cfg, d, me.z) {
        var d1 := if d.zones[me.z].cond == Empty then d.(numActive := d.numActive + 1) else d;
        TileDevice(cfg, s, c, d1, c.zoneLock, Some(t));
        TileStage(cfg, s, c.(dev := d1, globalLock := Some(t)), t, me.(stage := Scanning(cfg.numConventional)));
      } else {
        var r := OpenLocked(cfg, d, me.z, me.task.Open?);
        OpenKeepsPointers(cfg, d, me.z, me.task.Open?);
        TileDevice(cfg, s, c, r.0, c.zoneLock, c.globalLock);
        if r.1 == Ok {
          ProceedTile(cfg, s, c.(dev := r.0), t);
        } else {
          TileLeave(cfg, s, c.(dev := r.0), t, r.1);
        }
      }
    }
  }

  lemma ScanMoveTile(cfg: Config, s: State, c: Machine, t: nat)
    requires Tile(cfg, s, c) && ThreadSized(cfg, c, t) && c.threads[t].Busy? && c.threads[t].stage.Scanning?
    ensures Tile(cfg, s, ScanMove(cfg, c, t, c.threads[t].stage.next))
  {
    hide Tile, Proceed;
    HandAt(cfg, s, c, t);
    var me, d := c.threads[t], c.dev;
    var next := me.stage.next;
    if next >= cfg.numZones {
      TileDevice(cfg, s, c, d, c.zoneLock, None);
      ProceedTile(cfg, s, c.(globalLock := None), t);
    } else if next != me.z && c.zoneLock[next].None? && d.zones[next].cond == ImpOpen {
      TileDevice(cfg, s, c, Evicted(d, next), c.zoneLock, None);
      ProceedTile(cfg, s, c.(dev := Evicted(d, next), globalLock := None), t);
    } else {
      TileStage(cfg, s, c, t, me.(stage := Scanning(next + 1)));
    }
  }

  lemma EnterTile(cfg: Config, s: State, c: Machine, t: nat)
    requires Safe(cfg, c) && Tile(cfg, s, c) && ThreadSized(cfg, c, t) && c.threads[t].Busy? && c.threads[t].stage == Entered
    ensures Tile(cfg, s, Enter(cfg, c, t))
  {
    hide Tile, Leave, EnterPut, Safe, Tiled;
    HandAt(cfg, s, c, t);
    var me, d := c.threads[t], c.dev;
    match me.task {
      case Put(_, _, _) => EnterPutTile(cfg, s, c, t);
      case Open(_) =>
        if d.zones[me.z].cond == ExpOpen {
          TileLeave(cfg, s, c, t, Ok);
        } else if d.zones[me.z].cond == NotWp || d.zones[me.z].cond == Full {
          TileLeave(cfg, s, c, t, IoErr);
        } else {
          TileStage(cfg, s, c, t, me.(stage := Opening));
        }
      case Close(o) =>
        if c.globalLock.None? {
          var r := CloseZone(cfg, d, o);
          TileDevice(cfg, s, c, r.0, c.zoneLock, c.globalLock);
          TileLeave(cfg, s, c.(dev := r.0), t, r.1);
        }
      case _ =>
    }
  }

  lemma WantTile(cfg: Config, s: State, c: Machine, t: nat)
    requires Tile(cfg, s, c) && ThreadSized(cfg, c, t) && c.threads[t].Busy? && c.threads[t].stage == Wanting
    ensures Tile(cfg, s, Move(cfg, c, t))
  {
    hide Tile, Tiled;
    HandAt(cfg, s, c, t);
    var me := c.threads[t];
    if c.zoneLock[me.z].None? {
      TileDevice(cfg, s, c, c.dev, c.zoneLock[me.z := Some(t)], c.globalLock);
      TileStage(cfg, s, c.(zoneLock := c.zoneLock[me.z := Some(t)]), t, me.(stage := Entered));
    }
  }

  /** The payload in hand stays in hand, with as many bytes written. */
  lemma TileCarry(cfg: Config, s: State, c: Machine, t: nat, stage: Stage)
    requires Tile(cfg, s, c) && t < |c.threads| && Carrying(c.threads[t])
    requires Carrying(c.threads[t].(stage := stage))
    requires Progress(c.threads[t].(stage := stage)) == Progress(c.threads[t])
    ensures Tile(cfg, s, Goto(c, t, stage))
  {
    hide Tiled, AnswerOk, Landed;
    HandAt(cfg, s, c, t);
    var c' := Goto(c, t, stage);
    SameLandedIf(c, c', t);
    TileKept(cfg, s, c, c', t);
  }

  lemma FillTile(cfg: Config, s: State, c: Machine, t: nat)
    requires Safe(cfg, c) && Tile(cfg, s, c) && ThreadSized(cfg, c, t) && c.threads[t].Busy? && c.threads[t].stage == Filling
    ensures Tile(cfg, s, Move(cfg, c, t))
  {
    hide Tile, Tiled, MarkFull, Locks, CountersOk;
    HandAt(cfg, s, c, t);
    assert ThreadOk(cfg, c, t);
    if c.globalLock.None? {
      var z := c.threads[t].z;
      assert ZoneFine(cfg, z, c.dev.zones[z], BeingFilled(c, z));
      FullKeepsPointers(c.dev, z);
      TileDevice(cfg, s, c, MarkFull(c.dev, z).0, c.zoneLock, c.globalLock);
      TileCarry(cfg, s, c.(dev := MarkFull(c.dev, z).0), t, Counting);
    }
  }

  lemma FullKeepsPointers(d: Device, z: nat)
    requires z < |d.zones| && d.zones[z].wp == d.zones[z].start + d.zones[z].len
    ensures SamePointers(d, MarkFull(d, z).0)
  {
  }

  lemma CountTile(cfg: Config, s: State, c: Machine, t: nat)
    requires Tile(cfg, s, c) && ThreadSized(cfg, c, t) && c.threads[t].Busy? && c.threads[t].stage == Counting
    requires c.threads[t].task.Put?
    ensures Tile(cfg, s, Move(cfg, c, t))
  {
    hide Tile, Tiled;
    HandAt(cfg, s, c, t);
    var me := c.threads[t];
    var d := CountWritten(c.dev, me.z, |me.task.data|);
    TileDevice(cfg, s, c, d, c.zoneLock[me.z := None], c.globalLock);
    TileCarry(cfg, s, c.(dev := d, zoneLock := c.zoneLock[me.z := None]), t, Landing(0));
  }

  // ---------------------------------------------------------------------------------------------
  // Reserving

  lemma TiledSnoc(cfg: Config, s: State, log: seq<Reservation>, r: Reservation)
    requires Tiled(cfg, s, log) && InsideZone(cfg, r) && r.at == EndOf(log, r.z, Base(s, r.z))
    ensures Tiled(cfg, s, log + [r])
  {
    hide EndOf;
    var log' := log + [r];
    assert log'[..|log|] == log;
    forall i | 0 <= i < |log'| ensures InsideZone(cfg, log'[i]) && log'[i].at == EndOf(log'[..i], log'[i].z, Base(s, log'[i].z)) {
      if i < |log| {
        assert log'[..i] == log[..i] && log'[i] == log[i];
      }
    }
  }

  lemma PointersSnoc(cfg: Config, s: State, c: Machine, c': Machine, r: Reservation)
    requires TilePointers(cfg, s, c) && Sequential(cfg, r.z) && c'.log == c.log + [r]
    requires |c'.dev.zones| == |c.dev.zones| && Bytes(c'.dev.zones[r.z].wp) == r.at + |r.data|
    requires c'.dev.zones == c.dev.zones[r.z := c'.dev.zones[r.z]]
    ensures TilePointers(cfg, s, c')
  {
    forall z | cfg.numConventional <= z < cfg.numZones ensures Bytes(c'.dev.zones[z].wp) == EndOf(c'.log, z, Base(s, z)) {
      assert c'.log[..|c.log|] == c.log;
    }
  }

  /** The range a thread is about to reserve lies in its zone. */
  lemma ReadyInside(cfg: Config, c: Machine, t: nat)
    requires Safe(cfg, c) && ThreadSized(cfg, c, t) && c.threads[t].Busy? && c.threads[t].stage == Advancing
    ensures PutReady(c, c.threads[t])
    ensures var me := c.threads[t]; var zone := c.dev.zones[me.z];
      Sequential(cfg, me.z) && InsideZone(cfg, Reservation(t, me.z, me.at, me.task.data)) && Bytes(zone.wp + Sectors(|me.task.data|)) == me.at + |me.task.data|
  {
    hide Locks, CountersOk;
    assert ThreadOk(cfg, c, t);
    var z := c.threads[t].z;
    assert ZoneFine(cfg, z, c.dev.zones[z], BeingFilled(c, z));
  }

  lemma ReservedLanded(cfg: Config, s: State, c: Machine, c': Machine, t: nat, r: Reservation)
    requires BytesOk(s, c) && c'.log == c.log + [r] && r.t == t && c'.disk == c.disk && t < |c.threads| == |c'.threads|
    requires c'.threads == c.threads[t := c'.threads[t]] && !Carrying(c.threads[t])
    requires Carrying(c'.threads[t]) && c'.threads[t].slot == |c.log| && Progress(c'.threads[t]) == 0
    requires r.at + |r.data| <= |c.disk|
    ensures BytesOk(s, c')
  {
    forall i | 0 <= i < |c'.log| ensures EntryLanded(c', i) {
      if i < |c.log| {
        assert EntryLanded(c, i) && c'.log[i] == c.log[i] && Landed(c', i) == Landed(c, i);
      }
    }
    forall a | 0 <= a < |c'.disk| && Uncovered(c'.log, a) ensures c'.disk[a] == s.disk[a] {
      forall i | 0 <= i < |c.log| ensures !(c.log[i].at <= a < c.log[i].at + |c.log[i].data|) {
        assert c'.log[i] == c.log[i];
      }
      assert Uncovered(c.log, a);
    }
  }

  lemma AnswersKept(cfg: Config, c: Machine, c': Machine, r: Reservation)
    requires AnswersOk(cfg, c) && c'.log == c.log + [r] && c'.answers == c.answers
    ensures AnswersOk(cfg, c')
  {
    forall k | 0 <= k < |c'.answers| ensures AnswerOk(cfg, c'.log, c'.answers[k]) {
      assert AnswerOk(cfg, c.log, c.answers[k]);
    }
  }

  lemma AdvanceTile(cfg: Config, s: State, c: Machine, t: nat)
    requires Safe(cfg, c) && Tile(cfg, s, c) && ThreadSized(cfg, c, t) && c.threads[t].Busy? && c.threads[t].stage == Advancing
    ensures c.threads[t].task.Put? && Tile(cfg, s, AdvanceMove(cfg, c, t))
  {
    hide Tiled, Safe, AnswersOk, BytesOk, TilePointers, InsideZone, EndOf;
    ReadyInside(cfg, c, t);
    HandAt(cfg, s, c, t);
    var me, c' := c.threads[t], AdvanceMove(cfg, c, t);
    var r := Reservation(t, me.z, me.at, me.task.data);
    PointerAt(cfg, s, c, r.z);
    TiledSnoc(cfg, s, c.log, r);
    PointersSnoc(cfg, s, c, c', r);
    ReservedLanded(cfg, s, c, c', t, r);
    AnswersKept(cfg, c, c', r);
    forall u | 0 <= u < |c'.threads| ensures HandOk(cfg, c', u) {
      assert HandOk(cfg, c, u);
    }
  }

  lemma PointerAt(cfg: Config, s: State, c: Machine, z: nat)
    requires TilePointers(cfg, s, c) && Sequential(cfg, z)
    ensures z < |s.dev.zones| == |c.dev.zones| && Bytes(c.dev.zones[z].wp) == EndOf(c.log, z, Base(s, z))
  {
  }

  // ---------------------------------------------------------------------------------------------
  // Writing

  /** One byte of thread t's payload is written: everybody else's bytes are elsewhere. */
  lemma LandByte(cfg: Config, s: State, c: Machine, t: nat, k: nat)
    requires Tile(cfg, s, c) && t < |c.threads| && Carrying(c.threads[t]) && c.threads[t].stage == Landing(k)
    requires k < |c.threads[t].task.data| && c.threads[t].at + k < |c.disk|
    ensures BytesOk(s, Goto(c.(disk := c.disk[c.threads[t].at + k := c.threads[t].task.data[k]]), t, Landing(k + 1)))
  {
    hide Tiled, AnswersOk, TilePointers;
    HandAt(cfg, s, c, t);
    var me := c.threads[t];
    var c' := Goto(c.(disk := c.disk[me.at + k := me.task.data[k]]), t, Landing(k + 1));
    forall i | 0 <= i < |c'.log| ensures EntryLanded(c', i) {
      assert EntryLanded(c, i);
      if i != me.slot {
        SlotsApart(cfg, s, c.log, i, me.slot);
        assert Landed(c', i) == Landed(c, i);
      }
    }
  }

  lemma SlotsApart(cfg: Config, s: State, log: seq<Reservation>, i: nat, j: nat)
    requires Tiled(cfg, s, log) && i < |log| && j < |log| && i != j
    ensures log[i].at + |log[i].data| <= log[j].at || log[j].at + |log[j].data| <= log[i].at
  {
    if i < j {
      TiledApart(cfg, s, log, i, j);
    } else {
      TiledApart(cfg, s, log, j, i);
    }
  }

  lemma LandTile(cfg: Config, s: State, c: Machine, t: nat)
    requires Safe(cfg, c) && Tile(cfg, s, c) && ThreadSized(cfg, c, t) && c.threads[t].Busy? && c.threads[t].stage.Landing?
    ensures Tile(cfg, s, Move(cfg, c, t))
  {
    hide Tiled, AnswersOk, BytesOk, Locks, CountersOk, PutReady, Return;
    assert ThreadOk(cfg, c, t);
    HandAt(cfg, s, c, t);
    var me, k := c.threads[t], c.threads[t].stage.k;
    if k < |me.task.data| {
      LandByte(cfg, s, c, t, k);
      var c' := Move(cfg, c, t);
      forall u | 0 <= u < |c'.threads| ensures HandOk(cfg, c', u) {
        assert HandOk(cfg, c, u);
      }
      AnswersSame(cfg, c, c');
    } else {
      ReturnTile(cfg, s, c, t);
    }
  }

  lemma AnswersSame(cfg: Config, c: Machine, c': Machine)
    requires AnswersOk(cfg, c) && c'.log == c.log && c'.answers == c.answers
    ensures AnswersOk(cfg, c')
  {
  }

  /** The last byte is written: the call returns what it reserved. */
  lemma ReturnTile(cfg: Config, s: State, c: Machine, t: nat)
    requires Tile(cfg, s, c) && ThreadSized(cfg, c, t) && Carrying(c.threads[t])
    requires c.threads[t].stage == Landing(|c.threads[t].task.data|)
    ensures Tile(cfg, s, Return(c, t, Ok))
  {
    hide Tiled, AnswerOk, BytesOk, TilePointers;
    HandAt(cfg, s, c, t);
    var me := c.threads[t];
    var a := Answer(t, me.task, Ok, me.reported, me.at);
    assert AnswerOk(cfg, c.log, a) by { ReturnAnswer(cfg, c, t); }
    TileAnswer(cfg, s, c, a);
    var c1, c' := c.(answers := c.answers + [a]), Return(c, t, Ok);
    forall i | 0 <= i < |c.log| ensures Landed(c', i) == Landed(c1, i) {
    }
    TileKept(cfg, s, c1, c', t);
  }

  lemma ReturnAnswer(cfg: Config, c: Machine, t: nat)
    requires ThreadSized(cfg, c, t) && HandOk(cfg, c, t) && Carrying(c.threads[t])
    ensures AnswerOk(cfg, c.log, Answer(t, c.threads[t].task, Ok, c.threads[t].reported, c.threads[t].at))
  {
    assert c.log[c.threads[t].slot] in c.log;
  }

  /** Every move keeps the claim. */
  lemma MoveTile(cfg: Config, s: State, c: Machine, t: nat)
    requires Safe(cfg, c) && Tile(cfg, s, c) && t < |c.threads|
    ensures ThreadSized(cfg, c, t) && Tile(cfg, s, Move(cfg, c, t))
  {
    hide CountersOk, Locks, ZonesFine, Tile, Tiled, Enter, OpenMove, ScanMove, AdvanceMove, MarkFull, PutReady;
    assert ThreadOk(cfg, c, t);
    HandAt(cfg, s, c, t);
    if c.threads[t].Busy? {
      match c.threads[t].stage {
        case Wanting => WantTile(cfg, s, c, t);
        case Entered => EnterTile(cfg, s, c, t);
        case Opening => OpenMoveTile(cfg, s, c, t);
        case Scanning(next) => ScanMoveTile(cfg, s, c, t);
        case Advancing => AdvanceTile(cfg, s, c, t);
        case Filling => FillTile(cfg, s, c, t);
        case Counting => CountTile(cfg, s, c, t);
        case Landing(k) => LandTile(cfg, s, c, t);
        case Discarding =>
      }
    }
  }

  // ---------------------------------------------------------------------------------------------
  // Whole schedules

  predicate TilingSchedule(cfg: Config, events: seq<Event>) {
    forall i :: 0 <= i < |events| && events[i].Begin? ==> TaskOk(cfg, events[i].task) && Tiling(cfg, events[i].task)
  }

  lemma InitiallyTile(cfg: Config, s: State, n: nat)
    requires SysOk(cfg, s)
    ensures Tile(cfg, s, Initially(s, n))
  {
    forall a | 0 <= a < |s.disk| && Uncovered([], a) ensures Initially(s, n).disk[a] == s.disk[a] {
    }
  }

  lemma BeginTile(cfg: Config, s: State, c: Machine, t: nat, task: Task)
    requires Safe(cfg, c) && Tile(cfg, s, c) && TaskOk(cfg, task) && Tiling(cfg, task) && t < |c.threads|
    requires ThreadSized(cfg, c, t)
    ensures Tile(cfg, s, Happen(cfg, c, Begin(t, task)))
  {
    hide Tile, Safe, Tiled;
    if c.threads[t].Idle? {
      TileStage(cfg, s, c, t, Busy(ZoneNumber(cfg, task.offset), task, 0, 0, None, Wanting));
    }
  }

  lemma {:induction false} ExecTile(cfg: Config, s: State, n: nat, events: seq<Event>)
    requires SysOk(cfg, s) && ScheduleOk(cfg, events) && TilingSchedule(cfg, events)
    ensures Tile(cfg, s, Exec(cfg, s, n, events))
    decreases |events|
  {
    hide Tile, Safe, SysOk, Happen, TaskOk;
    if events == [] {
      InitiallyTile(cfg, s, n);
    } else {
      var front, e := events[..|events| - 1], events[|events| - 1];
      ExecTile(cfg, s, n, front);
      HappenTile(cfg, s, Exec(cfg, s, n, front), e);
    }
  }

  lemma HappenTile(cfg: Config, s: State, c: Machine, e: Event)
    requires Safe(cfg, c) && Tile(cfg, s, c) && (e.Begin? ==> TaskOk(cfg, e.task) && Tiling(cfg, e.task))
    ensures e.t < |c.threads| ==> ThreadSized(cfg, c, e.t)
    ensures Tile(cfg, s, Happen(cfg, c, e))
  {
    hide Tile, Safe, Move;
    HappenSafe(cfg, c, e);
    if e.t < |c.threads| {
      match e {
        case Begin(t, task) => BeginTile(cfg, s, c, t, task);
        case Run(t) => MoveTile(cfg, s, c, t);
      }
    }
  }

  /**
   * Concurrent appends tile the zone. After every schedule of writes, appends, opens and closes:
   * the write pointer of a zone is where its last reservation ends; every reservation starts where
   * the zone's previous one ended, so they are contiguous from the first pointer and share no byte;
   * and every accepted call was told the start of a range reserved for it, of its own payload.
   */
  lemma ReservationsTile(cfg: Config, s: State, n: nat, events: seq<Event>)
    requires SysOk(cfg, s) && ScheduleOk(cfg, events) && TilingSchedule(cfg, events)
    ensures var c := Exec(cfg, s, n, events);
      && TilePointers(cfg, s, c) && Tiled(cfg, s, c.log) && AnswersOk(cfg, c)
      && (forall i, j :: 0 <= i < j < |c.log| ==> Apart(Range(c.log[i]), Range(c.log[j])))
  {
    ExecTile(cfg, s, n, events);
    var c := Exec(cfg, s, n, events);
    hide Tiled, Apart;
    forall i, j | 0 <= i < j < |c.log| ensures Apart(Range(c.log[i]), Range(c.log[j])) {
      TiledApart(cfg, s, c.log, i, j);
    }
  }
}
