/** Resource safety of the zoned device under every interleaving of its threads. */
module ZonedSafety {
  import opened Memory
  import opened Wrappers
  import opened Zoned
  import opened ZonedInvariant
  import opened ZonedRun
  import opened ZonedMachine

  predicate HasZone(th: Thread) {
    th.Busy? && !th.stage.Wanting? && !th.stage.Landing? && !th.stage.Discarding?
  }

  predicate HasGlobal(th: Thread) {
    th.Busy? && th.stage.Scanning?
  }

  /** Each lock is held by exactly the thread whose stage says so. */
  predicate Locks(c: Machine) {
    && (forall t :: 0 <= t < |c.threads| && HasZone(c.threads[t]) ==>
          c.threads[t].z < |c.zoneLock| && c.zoneLock[c.threads[t].z] == Some(t))
    && (forall z :: 0 <= z < |c.zoneLock| && c.zoneLock[z].Some? ==>
          c.zoneLock[z].value < |c.threads| && HasZone(c.threads[c.zoneLock[z].value])
          && c.threads[c.zoneLock[z].value].z == z)
    && (forall t :: 0 <= t < |c.threads| && HasGlobal(c.threads[t]) ==> c.globalLock == Some(t))
    && (c.globalLock.Some? ==> c.globalLock.value < |c.threads| && HasGlobal(c.threads[c.globalLock.value]))
  }

  /** The owner of the zone is between filling it and marking it full. */
  predicate BeingFilled(c: Machine, z: nat) {
    && z < |c.zoneLock| && c.zoneLock[z].Some? && c.zoneLock[z].value < |c.threads|
    && c.threads[c.zoneLock[z].value].Busy? && c.threads[c.zoneLock[z].value].stage.Filling?
  }

  /** A zone at any moment: as between operations, but for the one that is being filled. */
  predicate ZoneFine(cfg: Config, i: nat, zone: Zone, filling: bool) {
    && zone.start == ZoneStart(cfg, i) && zone.len == zone.capacity == cfg.zoneSectors
    && zone.start <= zone.wp <= zone.start + zone.capacity
    && (zone.ztype == Conventional <==> i < cfg.numConventional)
    && (zone.cond == NotWp <==> zone.ztype == Conventional)
    && (zone.ztype == Conventional ==> zone.wp == zone.start)
    && (zone.ztype == SeqWriteReq && zone.cond == Full ==> zone.wp == zone.start + zone.capacity)
    && (zone.ztype == SeqWriteReq && zone.wp == zone.start + zone.capacity ==> zone.cond == Full || filling)
  }

  predicate ZonesFine(cfg: Config, c: Machine) {
    forall z :: 0 <= z < |c.dev.zones| ==> ZoneFine(cfg, z, c.dev.zones[z], BeingFilled(c, z))
  }

  /** The payload was checked against its zone and goes to the write pointer. */
  predicate PutReady(c: Machine, me: Thread)
    requires me.Busy? && me.z < |c.dev.zones|
  {
    && me.task.Put? && c.dev.zones[me.z].ztype == SeqWriteReq && me.at == Bytes(c.dev.zones[me.z].wp)
    && me.at + |me.task.data| <= Bytes(c.dev.zones[me.z].start + c.dev.zones[me.z].capacity)
    && me.at + |me.task.data| <= |c.disk|
  }

  predicate Writable(cond: Cond) {
    cond != NotWp && cond != Full
  }

  /** What a thread may rely on at its stage. */
  predicate ThreadOk(cfg: Config, c: Machine, t: nat) {
    && ThreadSized(cfg, c, t)
    && (c.threads[t].Busy? ==>
          var me := c.threads[t];
          var zone := c.dev.zones[me.z];
          match me.stage
          case Opening =>
            && (me.task.Open? || PutReady(c, me)) && Writable(zone.cond) && (zone.cond == Empty || zone.cond == Closed || me.task.Open?)
          case Scanning(next) =>
            && (me.task.Open? || PutReady(c, me)) && (zone.cond == Empty || zone.cond == Closed)
            && cfg.numConventional <= next <= cfg.numZones && c.dev.numImpOpen > 0
            && forall i :: cfg.numConventional <= i < next ==> i == me.z || c.dev.zones[i].cond != ImpOpen
          case Advancing => PutReady(c, me) && Writable(zone.cond)
          case Filling =>
            me.task.Put? && me.at + |me.task.data| <= |c.disk| && Writable(zone.cond) && zone.wp == zone.start + zone.capacity
          case Counting => me.task.Put? && me.at + |me.task.data| <= |c.disk| && !(Writable(zone.cond) && zone.wp == zone.start + zone.capacity)
          case Landing(k) => me.task.Put? && k <= |me.task.data| && me.at + |me.task.data| <= |c.disk|
          case Discarding => me.task.Reset?
          case _ => true)
  }

  /** Everything but what the acting thread may rely on. */
  predicate SafeBut(cfg: Config, c: Machine, t: nat) {
    && ThreadSized(cfg, c, t) && Locks(c) && ZonesFine(cfg, c) && CountersOk(cfg, c.dev, Leaked(c.dev))
    && forall u :: 0 <= u < |c.threads| && u != t ==> ThreadOk(cfg, c, u)
  }

  predicate Safe(cfg: Config, c: Machine) {
    && Sized(cfg, c) && Locks(c) && ZonesFine(cfg, c) && CountersOk(cfg, c.dev, Leaked(c.dev))
    && forall u :: 0 <= u < |c.threads| ==> ThreadOk(cfg, c, u)
  }

  lemma SafeWithout(cfg: Config, c: Machine, t: nat)
    requires Safe(cfg, c) && t < |c.threads|
    ensures SafeBut(cfg, c, t) && ThreadOk(cfg, c, t)
  {
    assert ThreadOk(cfg, c, t);
  }

  lemma SafeWith(cfg: Config, c: Machine, t: nat)
    requires SafeBut(cfg, c, t) && ThreadOk(cfg, c, t)
    ensures Safe(cfg, c)
  {
  }

  // ---------------------------------------------------------------------------------------------
  // What one thread may do without disturbing the others

  predicate SameConds(d: Device, d': Device) {
    && d'.numImpOpen == d.numImpOpen && |d'.zones| == |d.zones|
    && forall i :: 0 <= i < |d.zones| ==> d'.zones[i].cond == d.zones[i].cond
  }

  /** Nothing that thread u relies on differs. */
  predicate Undisturbed(cfg: Config, c: Machine, c': Machine, u: nat) {
    && u < |c.threads| && |c'.threads| == |c.threads| && c'.threads[u] == c.threads[u]
    && Sized(cfg, c) && Sized(cfg, c')
    && (HasZone(c.threads[u]) && c.threads[u].z < cfg.numZones ==> c'.dev.zones[c.threads[u].z] == c.dev.zones[c.threads[u].z])
    && (HasGlobal(c.threads[u]) ==> SameConds(c.dev, c'.dev))
  }

  lemma StaysOk(cfg: Config, c: Machine, c': Machine, u: nat)
    requires ThreadOk(cfg, c, u) && Undisturbed(cfg, c, c', u)
    ensures ThreadOk(cfg, c', u)
  {
  }

  /** The thread moves on within the locks it holds. */
  lemma Rethread(cfg: Config, c: Machine, t: nat, me: Thread)
    requires SafeBut(cfg, c, t) && c.threads[t].Busy?
    requires me.Busy? ==> me.z == c.threads[t].z && me.task == c.threads[t].task
    requires HasZone(me) == HasZone(c.threads[t]) && HasGlobal(me) == HasGlobal(c.threads[t])
    requires c.threads[t].stage.Filling? && me.Busy? && !me.stage.Filling? ==> c.dev.zones[me.z].cond == Full
    ensures SafeBut(cfg, c.(threads := c.threads[t := me]), t)
  {
    hide ThreadOk, CountersOk;
    var c' := c.(threads := c.threads[t := me]);
    forall u | 0 <= u < |c.threads| && u != t ensures ThreadOk(cfg, c', u) {
      StaysOk(cfg, c, c', u);
    }
    forall z | 0 <= z < |c.dev.zones| ensures ZoneFine(cfg, z, c'.dev.zones[z], BeingFilled(c', z)) {
      assert ZoneFine(cfg, z, c.dev.zones[z], BeingFilled(c, z));
    }
  }

  lemma Acquire(cfg: Config, c: Machine, t: nat)
    requires SafeBut(cfg, c, t) && c.threads[t].Busy? && c.threads[t].stage.Wanting? && c.zoneLock[c.threads[t].z].None?
    ensures SafeBut(cfg, Goto(c.(zoneLock := c.zoneLock[c.threads[t].z := Some(t)]), t, Entered), t)
  {
    hide ThreadOk, CountersOk;
    var c' := Goto(c.(zoneLock := c.zoneLock[c.threads[t].z := Some(t)]), t, Entered);
    forall u | 0 <= u < |c.threads| && u != t ensures ThreadOk(cfg, c', u) {
      StaysOk(cfg, c, c', u);
    }
    forall z | 0 <= z < |c.dev.zones| ensures ZoneFine(cfg, z, c'.dev.zones[z], BeingFilled(c', z)) {
      assert ZoneFine(cfg, z, c.dev.zones[z], BeingFilled(c, z));
    }
  }

  /** The thread gives its zone back, whatever it does next. */
  lemma GiveBack(cfg: Config, c: Machine, t: nat, me: Thread)
    requires SafeBut(cfg, c, t) && HasZone(c.threads[t]) && !HasGlobal(c.threads[t]) && !c.threads[t].stage.Filling?
    requires !HasZone(me) && (me.Busy? ==> me.z == c.threads[t].z && me.task == c.threads[t].task)
    ensures SafeBut(cfg, Unlock(c, c.threads[t].z).(threads := c.threads[t := me]), t)
  {
    hide ThreadOk, CountersOk;
    var c' := Unlock(c, c.threads[t].z).(threads := c.threads[t := me]);
    forall u | 0 <= u < |c.threads| && u != t ensures ThreadOk(cfg, c', u) {
      StaysOk(cfg, c, c', u);
    }
    forall z | 0 <= z < |c.dev.zones| ensures ZoneFine(cfg, z, c'.dev.zones[z], BeingFilled(c', z)) {
      assert ZoneFine(cfg, z, c.dev.zones[z], BeingFilled(c, z));
    }
  }

  /** The thread changes the zone it holds; conditions and counters only while nobody else has the global lock. */
  lemma Redevice(cfg: Config, c: Machine, t: nat, d: Device)
    requires SafeBut(cfg, c, t) && HasZone(c.threads[t])
    requires var z := c.threads[t].z;
      && |d.zones| == |c.dev.zones| && |d.stats| == |c.dev.stats| && d.zones == c.dev.zones[z := d.zones[z]]
      && ZoneFine(cfg, z, d.zones[z], c.threads[t].stage.Filling?)
      && (c.globalLock.Some? && c.globalLock != Some(t) ==>
            d.zones[z].cond == c.dev.zones[z].cond && d.numImpOpen == c.dev.numImpOpen)
    requires CountersOk(cfg, d, Leaked(d))
    ensures SafeBut(cfg, c.(dev := d), t)
  {
    hide ThreadOk, CountersOk;
    var c' := c.(dev := d);
    forall u | 0 <= u < |c.threads| && u != t ensures ThreadOk(cfg, c', u) {
      StaysOk(cfg, c, c', u);
    }
    forall z | 0 <= z < |c.dev.zones| ensures ZoneFine(cfg, z, c'.dev.zones[z], BeingFilled(c', z)) {
      assert ZoneFine(cfg, z, c.dev.zones[z], BeingFilled(c, z));
    }
  }

  /** The thread takes the global lock and starts the scan; an EMPTY zone has taken its active slot by now. */
  lemma TakeGlobal(cfg: Config, c: Machine, t: nat, active: int)
    requires SafeBut(cfg, c, t) && HasZone(c.threads[t]) && !c.threads[t].stage.Filling? && c.globalLock.None?
    requires c.dev.numActive <= active <= cfg.maxActive
    ensures SafeBut(cfg, Goto(c.(dev := c.dev.(numActive := active), globalLock := Some(t)), t, Scanning(cfg.numConventional)), t)
  {
    hide ThreadOk;
    var c' := Goto(c.(dev := c.dev.(numActive := active), globalLock := Some(t)), t, Scanning(cfg.numConventional));
    forall u | 0 <= u < |c.threads| && u != t ensures ThreadOk(cfg, c', u) {
      StaysOk(cfg, c, c', u);
    }
    forall z | 0 <= z < |c.dev.zones| ensures ZoneFine(cfg, z, c'.dev.zones[z], BeingFilled(c', z)) {
      assert ZoneFine(cfg, z, c.dev.zones[z], BeingFilled(c, z));
    }
  }

  /** The scan is over: the thread gives the global lock back and keeps its zone. */
  lemma GiveGlobal(cfg: Config, c: Machine, t: nat, stage: Stage)
    requires SafeBut(cfg, c, t) && HasGlobal(c.threads[t]) && (stage == Opening || stage == Advancing)
    ensures SafeBut(cfg, Goto(c.(globalLock := None), t, stage), t)
  {
    hide ThreadOk, CountersOk;
    var c' := Goto(c.(globalLock := None), t, stage);
    forall u | 0 <= u < |c.threads| && u != t ensures ThreadOk(cfg, c', u) {
      StaysOk(cfg, c, c', u);
    }
    forall z | 0 <= z < |c.dev.zones| ensures ZoneFine(cfg, z, c'.dev.zones[z], BeingFilled(c', z)) {
      assert ZoneFine(cfg, z, c.dev.zones[z], BeingFilled(c, z));
    }
  }

  function Evicted(d: Device, v: nat): Device
    requires v < |d.zones|
  {
    SetCond(d, v, Closed).(numOpen := d.numOpen - 1, numImpOpen := d.numImpOpen - 1)
  }

  /** The scan closes an implicitly open zone that nobody holds. */
  lemma Evict(cfg: Config, c: Machine, t: nat, v: nat)
    requires SafeBut(cfg, c, t) && HasGlobal(c.threads[t]) && v < cfg.numZones
    requires c.zoneLock[v].None? && c.dev.zones[v].cond == ImpOpen
    ensures SafeBut(cfg, c.(dev := Evicted(c.dev, v)), t)
  {
    hide ThreadOk, CountersOk;
    var d := Evicted(c.dev, v);
    var c' := c.(dev := d);
    EvictedCounters(cfg, c.dev, v);
    forall u | 0 <= u < |c.threads| && u != t ensures ThreadOk(cfg, c', u) {
      StaysOk(cfg, c, c', u);
    }
    forall z | 0 <= z < |c.dev.zones| ensures ZoneFine(cfg, z, c'.dev.zones[z], BeingFilled(c', z)) {
      assert ZoneFine(cfg, z, c.dev.zones[z], BeingFilled(c, z));
    }
  }

  // ---------------------------------------------------------------------------------------------
  // Counters

  /** d' differs from d in zone z, and the counters moved by what that zone holds of them. */
  predicate SharesMoved(d: Device, d': Device, z: nat, lost: int) {
    && z < |d.zones| == |d'.zones| && d'.zones == d.zones[z := d'.zones[z]]
    && d'.numOpen - OpenShare(d'.zones[z].cond) == d.numOpen - OpenShare(d.zones[z].cond)
    && d'.numImpOpen - ImpShare(d'.zones[z].cond) == d.numImpOpen - ImpShare(d.zones[z].cond)
    && d'.numActive - ActiveShare(d'.zones[z].cond) == d.numActive - ActiveShare(d.zones[z].cond) + lost
  }

  lemma CountersMove(cfg: Config, d: Device, d': Device, z: nat, lost: int)
    requires CountersOk(cfg, d, Leaked(d)) && SharesMoved(d, d', z, lost) && 0 <= lost
    requires d'.numOpen <= cfg.maxOpen && d'.numActive <= cfg.maxActive
    ensures CountersOk(cfg, d', Leaked(d'))
  {
    CountUpdate(d.zones, z, d'.zones[z], OPEN);
    CountUpdate(d.zones, z, d'.zones[z], IMP);
    CountUpdate(d.zones, z, d'.zones[z], ACTIVE);
  }

  lemma EvictedCounters(cfg: Config, d: Device, v: nat)
    requires CountersOk(cfg, d, Leaked(d)) && v < |d.zones| && d.zones[v].cond == ImpOpen
    ensures CountersOk(cfg, Evicted(d, v), Leaked(Evicted(d, v)))
  {
    CountersMove(cfg, d, Evicted(d, v), v, 0);
  }

  /** What one of the operations under both locks does to the device, as far as safety is concerned. */
  predicate GoodChange(cfg: Config, d: Device, d': Device, z: nat) {
    && z < |d.zones| == |d'.zones| && |d.stats| == |d'.stats| && d'.zones == d.zones[z := d'.zones[z]]
    && CountersOk(cfg, d', Leaked(d')) && ZoneFine(cfg, z, d'.zones[z], false)
  }

  lemma OpenChange(cfg: Config, d: Device, z: nat, explicit: bool)
    requires CountersOk(cfg, d, Leaked(d)) && z < |d.zones| && cfg.numConventional <= |d.zones|
    requires ZoneFine(cfg, z, d.zones[z], false) && Writable(d.zones[z].cond) && !MustEvict(cfg, d, z)
    ensures var r := OpenLocked(cfg, d, z, explicit);
      && GoodChange(cfg, d, r.0, z) && r.0.zones[z].(cond := d.zones[z].cond) == d.zones[z]
      && Writable(r.0.zones[z].cond)
  {
    hide Count;
    var d' := OpenLocked(cfg, d, z, explicit).0;
    assert d'.zones == d.zones[z := d'.zones[z]];
    CountersMove(cfg, d, d', z, LeakCount(LeaksSlot(cfg, d, z)));
  }

  lemma CloseChange(cfg: Config, d: Device, offset: nat)
    requires CountersOk(cfg, d, Leaked(d)) && ConfigOk(cfg) && ZoneNumber(cfg, offset) < |d.zones|
    requires ZoneFine(cfg, ZoneNumber(cfg, offset), d.zones[ZoneNumber(cfg, offset)], false)
    ensures GoodChange(cfg, d, CloseZone(cfg, d, offset).0, ZoneNumber(cfg, offset))
  {
    var z, d' := ZoneNumber(cfg, offset), CloseZone(cfg, d, offset).0;
    assert d'.zones == d.zones[z := d'.zones[z]];
    CountersMove(cfg, d, d', z, 0);
  }

  lemma FullChange(cfg: Config, d: Device, z: nat)
    requires CountersOk(cfg, d, Leaked(d)) && z < |d.zones|
    requires ZoneFine(cfg, z, d.zones[z], true)
    ensures GoodChange(cfg, d, MarkFull(d, z).0, z)
    ensures d.zones[z].cond != NotWp ==> MarkFull(d, z).0.zones[z].cond == Full
  {
    var d' := MarkFull(d, z).0;
    assert d'.zones == d.zones[z := d'.zones[z]];
    CountersMove(cfg, d, d', z, 0);
  }

  lemma ResetChange(cfg: Config, d: Device, z: nat)
    requires CountersOk(cfg, d, Leaked(d)) && ConfigOk(cfg) && z < |d.zones| == |d.stats|
    requires ZoneFine(cfg, z, d.zones[z], false)
    ensures GoodChange(cfg, d, ResetAt(d, z).0, z)
  {
    hide Count;
    var d' := ResetAt(d, z).0;
    assert d'.zones == d.zones[z := d'.zones[z]];
    CountersMove(cfg, d, d', z, 0);
  }

  // ---------------------------------------------------------------------------------------------
  // Every move is safe

  /** Bytes and history matter to nobody's safety. */
  lemma Forget(cfg: Config, c: Machine, t: nat, disk: seq<byte>, log: seq<Reservation>, answers: seq<Answer>)
    requires SafeBut(cfg, c, t) && |disk| == |c.disk|
    ensures SafeBut(cfg, c.(disk := disk, log := log, answers := answers), t)
  {
    hide ThreadOk, CountersOk;
    var c' := c.(disk := disk, log := log, answers := answers);
    forall u | 0 <= u < |c.threads| && u != t ensures ThreadOk(cfg, c', u) {
      StaysOk(cfg, c, c', u);
    }
    forall z | 0 <= z < |c.dev.zones| ensures ZoneFine(cfg, z, c'.dev.zones[z], BeingFilled(c', z)) {
      assert ZoneFine(cfg, z, c.dev.zones[z], BeingFilled(c, z));
    }
  }

  lemma IdleSafe(cfg: Config, c: Machine, t: nat)
    requires SafeBut(cfg, c, t) && c.threads[t].Idle?
    ensures Safe(cfg, c)
  {
    hide Locks, ZonesFine, CountersOk;
    assert ThreadOk(cfg, c, t);
  }

  lemma LeaveSafe(cfg: Config, c: Machine, t: nat, status: Status)
    requires SafeBut(cfg, c, t) && HasZone(c.threads[t]) && !HasGlobal(c.threads[t]) && !c.threads[t].stage.Filling?
    ensures Safe(cfg, Leave(c, t, status))
  {
    hide ThreadOk, CountersOk, Locks, ZonesFine;
    GiveBack(cfg, c, t, Idle);
    var c1 := Unlock(c, c.threads[t].z).(threads := c.threads[t := Idle]);
    Forget(cfg, c1, t, c.disk, c.log, Leave(c, t, status).answers);
    IdleSafe(cfg, Leave(c, t, status), t);
  }

  /** The zone a thread holds, when that thread is not just filling it. */
  lemma MyZone(cfg: Config, c: Machine, t: nat)
    requires SafeBut(cfg, c, t) && HasZone(c.threads[t])
    ensures c.threads[t].z < cfg.numZones == |c.dev.zones| == |c.zoneLock| && cfg.numConventional <= cfg.numZones
    ensures c.zoneLock[c.threads[t].z] == Some(t)
    ensures ZoneFine(cfg, c.threads[t].z, c.dev.zones[c.threads[t].z], c.threads[t].stage.Filling?)
  {
    assert ZoneFine(cfg, c.threads[t].z, c.dev.zones[c.threads[t].z], BeingFilled(c, c.threads[t].z));
  }

  lemma PayloadInDisk(cfg: Config, c: Machine, me: Thread, zone: Zone, at: nat)
    requires Sized(cfg, c) && me.Busy? && me.task.Put? && me.z < cfg.numZones && ZoneFine(cfg, me.z, zone, false)
    requires at + |me.task.data| <= Bytes(zone.start + zone.capacity)
    ensures at + |me.task.data| <= |c.disk|
  {
    ZoneInDisk(cfg, me.z);
  }

  lemma EnterPutSafe(cfg: Config, c: Machine, t: nat)
    requires Safe(cfg, c) && t < |c.threads| && c.threads[t].Busy? && c.threads[t].stage == Entered && c.threads[t].task.Put?
    requires ThreadSized(cfg, c, t)
    ensures Safe(cfg, EnterPut(cfg, c, t))
  {
    hide CountersOk, Locks, ZonesFine;
    SafeWithout(cfg, c, t);
    MyZone(cfg, c, t);
    var me := c.threads[t];
    var zone := c.dev.zones[me.z];
    if zone.ztype == Conventional {
      if me.task.append {
        LeaveSafe(cfg, c, t, IoErr);
      } else {
        ZoneInDisk(cfg, me.z);
        Rethread(cfg, c, t, me.(at := me.task.offset, stage := Counting));
        SafeWith(cfg, EnterPut(cfg, c, t), t);
      }
    } else {
      var at := if me.task.append then Bytes(zone.wp) else me.task.offset;
      EnterSequentialSafe(cfg, c, t, at);
    }
  }

  lemma EnterSequentialSafe(cfg: Config, c: Machine, t: nat, at: nat)
    requires Safe(cfg, c) && t < |c.threads| && c.threads[t].Busy? && c.threads[t].stage == Entered && c.threads[t].task.Put?
    requires ThreadSized(cfg, c, t) && c.dev.zones[c.threads[t].z].ztype == SeqWriteReq
    requires at == if c.threads[t].task.append then Bytes(c.dev.zones[c.threads[t].z].wp) else c.threads[t].task.offset
    ensures Safe(cfg, EnterPut(cfg, c, t))
  {
    hide CountersOk, Locks, ZonesFine;
    SafeWithout(cfg, c, t);
    MyZone(cfg, c, t);
    var me := c.threads[t];
    var zone := c.dev.zones[me.z];
    var me1 := me.(at := at, reported := if me.task.append then Some(at) else None);
    var c1 := c.(threads := c.threads[t := me1]);
    Rethread(cfg, c, t, me1);
    if !me.task.append && Bytes(zone.wp) != me.task.offset {
      LeaveSafe(cfg, c, t, IoErr);
    } else if Bytes(zone.start + zone.capacity) < at + |me.task.data| {
      LeaveSafe(cfg, c1, t, IoErr);
    } else {
      PayloadInDisk(cfg, c, me, zone, at);
      if zone.cond == Empty || zone.cond == Closed {
        Rethread(cfg, c1, t, me1.(stage := Opening));
        SafeWith(cfg, EnterPut(cfg, c, t), t);
      } else if zone.cond == ImpOpen || zone.cond == ExpOpen {
        Rethread(cfg, c1, t, me1.(stage := Advancing));
        SafeWith(cfg, EnterPut(cfg, c, t), t);
      } else {
        LeaveSafe(cfg, c1, t, IoErr);
      }
    }
  }

  /** A device change under both locks, and out. */
  lemma ChangeAndLeave(cfg: Config, c: Machine, t: nat, d: Device, status: Status)
    requires SafeBut(cfg, c, t) && HasZone(c.threads[t]) && !HasGlobal(c.threads[t]) && !c.threads[t].stage.Filling?
    requires c.globalLock.None? && GoodChange(cfg, c.dev, d, c.threads[t].z)
    ensures SafeBut(cfg, c.(dev := d), t) && Safe(cfg, Leave(c.(dev := d), t, status))
  {
    hide CountersOk, Locks, ZonesFine, ThreadOk, ZoneFine;
    Redevice(cfg, c, t, d);
    LeaveSafe(cfg, c.(dev := d), t, status);
  }

  lemma EnterSafe(cfg: Config, c: Machine, t: nat)
    requires Safe(cfg, c) && t < |c.threads| && c.threads[t].Busy? && c.threads[t].stage == Entered
    requires ThreadSized(cfg, c, t)
    ensures Safe(cfg, Enter(cfg, c, t))
  {
    hide CountersOk, Locks, ZonesFine, CloseZone, MarkFull, ResetAt, EnterPut, ZoneFine;
    SafeWithout(cfg, c, t);
    MyZone(cfg, c, t);
    var me, d := c.threads[t], c.dev;
    CountersAt(cfg, c);
    match me.task {
      case Put(_, _, _) => EnterPutSafe(cfg, c, t);
      case Open(_) =>
        if d.zones[me.z].cond == ExpOpen {
          LeaveSafe(cfg, c, t, Ok);
        } else if !Writable(d.zones[me.z].cond) {
          LeaveSafe(cfg, c, t, IoErr);
        } else {
          Rethread(cfg, c, t, me.(stage := Opening));
          SafeWith(cfg, Enter(cfg, c, t), t);
        }
      case Close(o) =>
        if c.globalLock.None? {
          CloseChange(cfg, d, o);
          ChangeAndLeave(cfg, c, t, CloseZone(cfg, d, o).0, CloseZone(cfg, d, o).1);
        }
      case Finish(o) =>
        if c.globalLock.None? {
          Fuller(cfg, me.z, d.zones[me.z]);
          FullChange(cfg, d, me.z);
          ChangeAndLeave(cfg, c, t, FinishZone(cfg, d, o).0, FinishZone(cfg, d, o).1);
        }
      case Reset(_) =>
        if c.globalLock.None? {
          ResetChange(cfg, d, me.z);
          ChangeAndLeave(cfg, c, t, ResetAt(d, me.z).0, ResetAt(d, me.z).1);
          if ResetAt(d, me.z).2 {
            GiveBack(cfg, c.(dev := ResetAt(d, me.z).0), t, me.(stage := Discarding));
            SafeWith(cfg, Enter(cfg, c, t), t);
          }
        }
    }
  }

  lemma Fuller(cfg: Config, i: nat, zone: Zone)
    requires ZoneFine(cfg, i, zone, false)
    ensures ZoneFine(cfg, i, zone, true)
  {
  }

  lemma CountersAt(cfg: Config, c: Machine)
    requires Safe(cfg, c)
    ensures CountersOk(cfg, c.dev, Leaked(c.dev))
  {
  }

  lemma OpenMoveSafe(cfg: Config, c: Machine, t: nat)
    requires Safe(cfg, c) && t < |c.threads| && c.threads[t].Busy? && c.threads[t].stage == Opening
    requires ThreadSized(cfg, c, t)
    ensures Safe(cfg, OpenMove(cfg, c, t))
  {
    hide CountersOk, Locks, ZonesFine, OpenLocked, ZoneFine;
    SafeWithout(cfg, c, t);
    MyZone(cfg, c, t);
    CountersAt(cfg, c);
    var me, d := c.threads[t], c.dev;
    if c.globalLock.None? {
      if MustEvict(cfg, d, me.z) {
        var d1 := d.(numActive := if d.zones[me.z].cond == Empty then d.numActive + 1 else d.numActive);
        ActiveLimit(cfg, d, me.z);
        TakeGlobal(cfg, c, t, d1.numActive);
        assert d1 == if d.zones[me.z].cond == Empty then d.(numActive := d.numActive + 1) else d;
        SafeWith(cfg, OpenMove(cfg, c, t), t);
      } else {
        OpenChange(cfg, d, me.z, me.task.Open?);
        var r := OpenLocked(cfg, d, me.z, me.task.Open?);
        ChangeAndLeave(cfg, c, t, r.0, r.1);
        if r.1 == Ok && me.task.Put? {
          Rethread(cfg, c.(dev := r.0), t, me.(stage := Advancing));
          SafeWith(cfg, OpenMove(cfg, c, t), t);
        }
      }
    }
  }

  lemma ActiveLimit(cfg: Config, d: Device, z: nat)
    requires CountersOk(cfg, d, Leaked(d)) && z < |d.zones| && MustEvict(cfg, d, z)
    ensures d.numActive <= (if d.zones[z].cond == Empty then d.numActive + 1 else d.numActive) <= cfg.maxActive
  {
  }

  /** open_zone_locked ends well after a scan. */
  lemma ScanEnds(cfg: Config, c: Machine, t: nat)
    requires SafeBut(cfg, c, t) && HasGlobal(c.threads[t])
    requires c.threads[t].task.Put? ==> PutReady(c, c.threads[t]) && Writable(c.dev.zones[c.threads[t].z].cond)
    ensures Safe(cfg, Proceed(c.(globalLock := None), t))
  {
    hide CountersOk, Locks, ZonesFine;
    if c.threads[t].task.Put? {
      GiveGlobal(cfg, c, t, Advancing);
      SafeWith(cfg, Proceed(c.(globalLock := None), t), t);
    } else {
      GiveGlobal(cfg, c, t, Opening);
      var c1 := Goto(c.(globalLock := None), t, Opening);
      LeaveSafe(cfg, c1, t, Ok);
      assert c1.threads[t := Idle] == c.threads[t := Idle];
    }
  }

  /**
   * The scan cannot run off the end: while the global lock is held no condition changes, so the
   * implicitly open zone that num_imp_open_zones promises is still ahead.
   */
  lemma ScanFinds(cfg: Config, c: Machine, t: nat)
    requires Safe(cfg, c) && t < |c.threads| && HasGlobal(c.threads[t])
    ensures c.threads[t].stage.next < cfg.numZones
  {
    assert ThreadOk(cfg, c, t);
    var i := CountWitness(c.dev.zones, IMP);
    assert ZoneFine(cfg, i, c.dev.zones[i], BeingFilled(c, i));
  }

  lemma ScanOn(cfg: Config, c: Machine, t: nat)
    requires Safe(cfg, c) && t < |c.threads| && HasGlobal(c.threads[t]) && c.threads[t].stage.next < cfg.numZones
    requires |c.dev.zones| == cfg.numZones
    requires c.threads[t].stage.next == c.threads[t].z || c.dev.zones[c.threads[t].stage.next].cond != ImpOpen
    ensures Safe(cfg, Goto(c, t, Scanning(c.threads[t].stage.next + 1)))
  {
    hide CountersOk, Locks, ZonesFine, ZoneFine;
    SafeWithout(cfg, c, t);
    var r := Goto(c, t, Scanning(c.threads[t].stage.next + 1));
    Rethread(cfg, c, t, r.threads[t]);
    assert ThreadOk(cfg, r, t);
    SafeWith(cfg, r, t);
  }

  lemma ScanHit(cfg: Config, c: Machine, t: nat, v: nat)
    requires Safe(cfg, c) && t < |c.threads| && HasGlobal(c.threads[t]) && v < cfg.numZones == |c.dev.zones| == |c.zoneLock|
    requires v != c.threads[t].z && c.zoneLock[v].None? && c.dev.zones[v].cond == ImpOpen
    ensures Safe(cfg, Proceed(c.(dev := Evicted(c.dev, v), globalLock := None), t))
  {
    hide CountersOk, Locks, ZonesFine, ZoneFine;
    SafeWithout(cfg, c, t);
    MyZone(cfg, c, t);
    Evict(cfg, c, t, v);
    ScanEnds(cfg, c.(dev := Evicted(c.dev, v)), t);
  }

  lemma ScanMoveSafe(cfg: Config, c: Machine, t: nat)
    requires Safe(cfg, c) && t < |c.threads| && HasGlobal(c.threads[t])
    requires ThreadSized(cfg, c, t)
    ensures Safe(cfg, ScanMove(cfg, c, t, c.threads[t].stage.next))
  {
    hide Safe, Proceed, Goto;
    ScanFinds(cfg, c, t);
    var next := c.threads[t].stage.next;
    if next == c.threads[t].z {
      ScanOn(cfg, c, t);
    } else if c.zoneLock[next].None? {
      if c.dev.zones[next].cond == ImpOpen {
        ScanHit(cfg, c, t, next);
      } else {
        ScanOn(cfg, c, t);
      }
    }
  }

  /** A payload of whole sectors that fits leaves the pointer inside the zone. */
  lemma Advanced(cfg: Config, i: nat, zone: Zone, n: nat, filling: bool)
    requires ZoneFine(cfg, i, zone, false) && zone.ztype == SeqWriteReq && Writable(zone.cond)
    requires n % 512 == 0 && Bytes(zone.wp) + n <= Bytes(zone.start + zone.capacity)
    requires filling <==> zone.wp + Sectors(n) == zone.start + zone.capacity
    ensures ZoneFine(cfg, i, zone.(wp := zone.wp + Sectors(n)), filling)
  {
  }

  lemma PointerCounters(cfg: Config, d: Device, z: nat, wp: nat)
    requires CountersOk(cfg, d, Leaked(d)) && z < |d.zones|
    ensures CountersOk(cfg, SetWp(d, z, wp), Leaked(SetWp(d, z, wp)))
  {
    CountersMove(cfg, d, SetWp(d, z, wp), z, 0);
  }

  lemma AdvanceMoveSafe(cfg: Config, c: Machine, t: nat)
    requires Safe(cfg, c) && t < |c.threads| && c.threads[t].Busy? && c.threads[t].stage == Advancing && c.threads[t].task.Put?
    requires ThreadSized(cfg, c, t)
    ensures Safe(cfg, AdvanceMove(cfg, c, t))
  {
    hide CountersOk, Locks, ZonesFine, ZoneFine;
    SafeWithout(cfg, c, t);
    MyZone(cfg, c, t);
    CountersAt(cfg, c);
    var me, r := c.threads[t], AdvanceMove(cfg, c, t);
    var zone, n := c.dev.zones[me.z], |me.task.data|;
    var c1 := c.(threads := r.threads);
    Rethread(cfg, c, t, r.threads[t]);
    Advanced(cfg, me.z, zone, n, r.threads[t].stage.Filling?);
    PointerCounters(cfg, c.dev, me.z, zone.wp + Sectors(n));
    Redevice(cfg, c1, t, r.dev);
    Forget(cfg, c1.(dev := r.dev), t, c.disk, r.log, c.answers);
    SafeWith(cfg, r, t);
  }

  lemma FillSafe(cfg: Config, c: Machine, t: nat)
    requires Safe(cfg, c) && t < |c.threads| && c.threads[t].Busy? && c.threads[t].stage == Filling && c.globalLock.None?
    requires ThreadSized(cfg, c, t)
    ensures Safe(cfg, Goto(c.(dev := MarkFull(c.dev, c.threads[t].z).0), t, Counting))
  {
    hide CountersOk, Locks, ZonesFine, ZoneFine, MarkFull;
    SafeWithout(cfg, c, t);
    MyZone(cfg, c, t);
    CountersAt(cfg, c);
    var me := c.threads[t];
    FullChange(cfg, c.dev, me.z);
    var d := MarkFull(c.dev, me.z).0;
    Fuller(cfg, me.z, d.zones[me.z]);
    Redevice(cfg, c, t, d);
    Rethread(cfg, c.(dev := d), t, me.(stage := Counting));
    SafeWith(cfg, Goto(c.(dev := d), t, Counting), t);
  }

  lemma CountSafe(cfg: Config, c: Machine, t: nat)
    requires Safe(cfg, c) && t < |c.threads| && c.threads[t].Busy? && c.threads[t].stage == Counting && c.threads[t].task.Put?
    requires ThreadSized(cfg, c, t)
    ensures Safe(cfg, Move(cfg, c, t))
  {
    hide Locks, ZonesFine, ZoneFine;
    SafeWithout(cfg, c, t);
    MyZone(cfg, c, t);
    CountersAt(cfg, c);
    var me := c.threads[t];
    var d := CountWritten(c.dev, me.z, |me.task.data|);
    Redevice(cfg, c, t, d);
    GiveBack(cfg, c.(dev := d), t, me.(stage := Landing(0)));
    SafeWith(cfg, Move(cfg, c, t), t);
  }

  lemma ReturnSafe(cfg: Config, c: Machine, t: nat, disk: seq<byte>, status: Status)
    requires SafeBut(cfg, c, t) && c.threads[t].Busy? && !HasZone(c.threads[t]) && |disk| == |c.disk|
    ensures Safe(cfg, Return(c.(disk := disk), t, status))
  {
    hide CountersOk, Locks, ZonesFine, ThreadOk;
    var r := Return(c.(disk := disk), t, status);
    Rethread(cfg, c, t, Idle);
    Forget(cfg, c.(threads := c.threads[t := Idle]), t, disk, c.log, r.answers);
    IdleSafe(cfg, r, t);
  }

  lemma LandSafe(cfg: Config, c: Machine, t: nat)
    requires Safe(cfg, c) && t < |c.threads| && c.threads[t].Busy? && c.threads[t].stage.Landing?
    requires ThreadSized(cfg, c, t)
    ensures Safe(cfg, Move(cfg, c, t))
  {
    hide CountersOk, Locks, ZonesFine;
    SafeWithout(cfg, c, t);
    var me := c.threads[t];
    var k := me.stage.k;
    if k < |me.task.data| {
      Rethread(cfg, c, t, me.(stage := Landing(k + 1)));
      var disk := c.disk[me.at + k := me.task.data[k]];
      Forget(cfg, c.(threads := c.threads[t := me.(stage := Landing(k + 1))]), t, disk, c.log, c.answers);
      SafeWith(cfg, Move(cfg, c, t), t);
    } else {
      ReturnSafe(cfg, c, t, c.disk, Ok);
    }
  }

  lemma DiscardSafe(cfg: Config, c: Machine, t: nat)
    requires Safe(cfg, c) && t < |c.threads| && c.threads[t].Busy? && c.threads[t].stage == Discarding
    requires ThreadSized(cfg, c, t)
    ensures Safe(cfg, Move(cfg, c, t))
  {
    hide CountersOk, Locks, ZonesFine, ThreadOk;
    SafeWithout(cfg, c, t);
    ZoneInDisk(cfg, c.threads[t].z);
    ReturnSafe(cfg, c, t, Splice(c.disk, Bytes(ZoneStart(cfg, c.threads[t].z)), Zeros(Bytes(cfg.zoneSectors))), Ok);
  }

  lemma WantSafe(cfg: Config, c: Machine, t: nat)
    requires Safe(cfg, c) && t < |c.threads| && c.threads[t].Busy? && c.threads[t].stage == Wanting
    requires ThreadSized(cfg, c, t)
    ensures Safe(cfg, Move(cfg, c, t))
  {
    hide CountersOk, Locks, ZonesFine;
    SafeWithout(cfg, c, t);
    if c.zoneLock[c.threads[t].z].None? {
      Acquire(cfg, c, t);
      SafeWith(cfg, Move(cfg, c, t), t);
    }
  }

  /** No move of any thread breaks safety. */
  lemma MoveSafe(cfg: Config, c: Machine, t: nat)
    requires Safe(cfg, c) && t < |c.threads|
    ensures ThreadSized(cfg, c, t) && Safe(cfg, Move(cfg, c, t))
  {
    assert ThreadOk(cfg, c, t);
    if c.threads[t].Busy? {
      hide CountersOk, Locks, ZonesFine, Safe, Enter, OpenMove, ScanMove, AdvanceMove, MarkFull;
      match c.threads[t].stage {
        case Wanting => WantSafe(cfg, c, t);
        case Entered => EnterSafe(cfg, c, t);
        case Opening => OpenMoveSafe(cfg, c, t);
        case Scanning(next) => ScanMoveSafe(cfg, c, t);
        case Advancing => AdvanceMoveSafe(cfg, c, t);
        case Filling =>
          if c.globalLock.None? {
            FillSafe(cfg, c, t);
          }
        case Counting => CountSafe(cfg, c, t);
        case Landing(k) => LandSafe(cfg, c, t);
        case Discarding => DiscardSafe(cfg, c, t);
      }
    }
  }

  lemma HappenSafe(cfg: Config, c: Machine, e: Event)
    requires Safe(cfg, c) && (e.Begin? ==> TaskOk(cfg, e.task))
    ensures e.t < |c.threads| ==> ThreadSized(cfg, c, e.t)
    ensures Safe(cfg, Happen(cfg, c, e))
  {
    hide CountersOk, Locks, ZonesFine, Move;
    if e.t < |c.threads| {
      assert ThreadOk(cfg, c, e.t);
      if e.Run? {
        MoveSafe(cfg, c, e.t);
      } else if c.threads[e.t].Idle? {
        BeginSafe(cfg, c, e.t, e.task);
      }
    }
  }

  lemma BeginSafe(cfg: Config, c: Machine, t: nat, task: Task)
    requires Safe(cfg, c) && t < |c.threads| && c.threads[t].Idle? && TaskOk(cfg, task)
    ensures Safe(cfg, c.(threads := c.threads[t := Busy(ZoneNumber(cfg, task.offset), task, 0, 0, None, Wanting)]))
  {
    hide CountersOk;
    var c' := c.(threads := c.threads[t := Busy(ZoneNumber(cfg, task.offset), task, 0, 0, None, Wanting)]);
    forall u | 0 <= u < |c.threads| ensures ThreadOk(cfg, c', u) {
      assert ThreadOk(cfg, c, u);
    }
    forall z | 0 <= z < |c.dev.zones| ensures ZoneFine(cfg, z, c'.dev.zones[z], BeingFilled(c', z)) {
      assert ZoneFine(cfg, z, c.dev.zones[z], BeingFilled(c, z));
    }
  }

  // ---------------------------------------------------------------------------------------------
  // Schedules

  /** n threads, nobody at work, over a device between operations. */
  function Initially(s: State, n: nat): Machine {
    Machine(s.dev, s.disk, seq(|s.dev.zones|, _ => None), None, seq(n, _ => Idle), [], [])
  }

  predicate ScheduleOk(cfg: Config, events: seq<Event>) {
    forall i :: 0 <= i < |events| ==> events[i].Begin? ==> TaskOk(cfg, events[i].task)
  }

  lemma InitiallySafe(cfg: Config, s: State, n: nat)
    requires SysOk(cfg, s)
    ensures Safe(cfg, Initially(s, n))
  {
    var c := Initially(s, n);
    forall z | 0 <= z < |c.dev.zones| ensures ZoneFine(cfg, z, c.dev.zones[z], BeingFilled(c, z)) {
      assert ZoneOk(cfg, z, s.dev.zones[z]);
    }
  }

  /** The machine after a schedule. */
  function Exec(cfg: Config, s: State, n: nat, events: seq<Event>): (c: Machine)
    requires SysOk(cfg, s) && ScheduleOk(cfg, events)
    ensures Safe(cfg, c)
    decreases |events|
  {
    if events == [] then
      InitiallySafe(cfg, s, n);
      Initially(s, n)
    else
      var c := Exec(cfg, s, n, events[..|events| - 1]);
      HappenSafe(cfg, c, events[|events| - 1]);
      Happen(cfg, c, events[|events| - 1])
  }

  /** Nobody is at work. */
  predicate Quiescent(c: Machine) {
    forall t :: 0 <= t < |c.threads| ==> c.threads[t].Idle?
  }

  /**
   * Under every schedule: the open counters are exact and within their limits, the active counter is
   * at least the number of active zones and within its limit, no two threads hold one zone's lock,
   * and whoever scans for a zone to evict has one still ahead of it.
   */
  lemma SafeUnderEverySchedule(cfg: Config, s: State, n: nat, events: seq<Event>)
    requires SysOk(cfg, s) && ScheduleOk(cfg, events)
    ensures var c := Exec(cfg, s, n, events); var d := c.dev;
      && d.numOpen == Count(d.zones, OPEN) <= cfg.maxOpen && d.numImpOpen == Count(d.zones, IMP) <= d.numOpen
      && Count(d.zones, ACTIVE) <= d.numActive <= cfg.maxActive
      && (forall t, u :: 0 <= t < u < |c.threads| && HasZone(c.threads[t]) && HasZone(c.threads[u]) ==>
            c.threads[t].z != c.threads[u].z)
      && (forall t, u :: 0 <= t < u < |c.threads| ==> !(HasGlobal(c.threads[t]) && HasGlobal(c.threads[u])))
      && (forall t :: 0 <= t < |c.threads| && HasGlobal(c.threads[t]) ==> c.threads[t].stage.next < |d.zones|)
  {
    var c := Exec(cfg, s, n, events);
    CountSubset(c.dev.zones, IMP, OPEN);
    forall t | 0 <= t < |c.threads| && HasGlobal(c.threads[t]) ensures c.threads[t].stage.next < |c.dev.zones| {
      ScanFinds(cfg, c, t);
    }
  }

  /** Once everybody has returned, the device is as between operations again. */
  lemma QuietIsConsistent(cfg: Config, c: Machine)
    requires Safe(cfg, c) && Quiescent(c)
    ensures SysOk(cfg, State(c.dev, c.disk))
  {
    forall z | 0 <= z < |c.dev.zones| ensures ZoneOk(cfg, z, c.dev.zones[z]) {
      assert ZoneFine(cfg, z, c.dev.zones[z], BeingFilled(c, z));
    }
  }
}
