/** A thread that runs alone does what the sequential operations say: the machine refines `Step`. */
module ZonedSolo {
  import opened Memory
  import opened Wrappers
  import opened Zoned
  import opened ZonedInvariant
  import opened ZonedRun
  import opened ZonedMachine
  import opened ZonedSafety

  lemma MoveThreads(cfg: Config, c: Machine, t: nat)
    requires ThreadSized(cfg, c, t)
    ensures |Move(cfg, c, t).threads| == |c.threads|
  {
    hide CloseZone, FinishZone, ResetAt, OpenLocked, MarkFull, MustEvict, ZoneNumber, OpOk;
  }

  /** k moves of thread t in a row. */
  function Moves(cfg: Config, c: Machine, t: nat, k: nat): (r: Machine)
    requires Safe(cfg, c) && t < |c.threads|
    ensures Safe(cfg, r) && |r.threads| == |c.threads|
    decreases k
  {
    if k == 0 then c
    else
      MoveSafe(cfg, c, t);
      MoveThreads(cfg, c, t);
      Moves(cfg, Move(cfg, c, t), t, k - 1)
  }

  ghost predicate Reaches(cfg: Config, c: Machine, t: nat, r: Machine) {
    Safe(cfg, c) && t < |c.threads| && exists k: nat :: Moves(cfg, c, t, k) == r
  }

  lemma {:induction false} MovesAdd(cfg: Config, c: Machine, t: nat, j: nat, k: nat)
    requires Safe(cfg, c) && t < |c.threads|
    ensures Moves(cfg, Moves(cfg, c, t, j), t, k) == Moves(cfg, c, t, j + k)
    decreases j
  {
    hide Safe, Move;
    if j > 0 {
      MoveSafe(cfg, c, t);
      MoveThreads(cfg, c, t);
      MovesAdd(cfg, Move(cfg, c, t), t, j - 1, k);
    }
  }

  lemma ReachTrans(cfg: Config, c: Machine, t: nat, m: Machine, r: Machine)
    requires Reaches(cfg, c, t, m) && Reaches(cfg, m, t, r)
    ensures Reaches(cfg, c, t, r)
  {
    hide Safe, Moves;
    var j: nat :| Moves(cfg, c, t, j) == m;
    var k: nat :| Moves(cfg, m, t, k) == r;
    MovesAdd(cfg, c, t, j, k);
  }

  lemma ReachNext(cfg: Config, c: Machine, t: nat, r: Machine)
    requires Safe(cfg, c) && t < |c.threads| && (ThreadSized(cfg, c, t) ==> Move(cfg, c, t) == r)
    ensures Safe(cfg, r) && Reaches(cfg, c, t, r)
  {
    hide Safe, Move;
    MoveSafe(cfg, c, t);
    MoveThreads(cfg, c, t);
    assert Moves(cfg, Move(cfg, c, t), t, 0) == r;
    assert Moves(cfg, c, t, 1) == r;
  }

  // ---------------------------------------------------------------------------------------------
  // The machine while thread t alone is at work

  /** Thread t holds zone z; everything it has not touched is as in the quiet machine c. */
  function With(c: Machine, t: nat, th: Thread, d: Device): Machine
    requires t < |c.threads| && th.Busy? && th.z < |c.zoneLock|
  {
    c.(dev := d, zoneLock := c.zoneLock[th.z := Some(t)], threads := c.threads[t := th])
  }

  /** The call of thread t returned. */
  function Returned(c: Machine, t: nat, th: Thread, d: Device, status: Status): Machine
    requires th.Busy?
  {
    c.(dev := d, answers := c.answers + [Answer(t, th.task, status, th.reported, th.at)])
  }

  predicate Quiet(c: Machine, t: nat, z: nat) {
    && t < |c.threads| && c.threads[t].Idle? && c.globalLock.None? && z < |c.zoneLock|
    && forall y :: 0 <= y < |c.zoneLock| ==> c.zoneLock[y].None?
  }

  lemma QuietLocks(cfg: Config, c: Machine, t: nat, z: nat)
    requires Safe(cfg, c) && Quiescent(c) && t < |c.threads| && z < cfg.numZones
    ensures Quiet(c, t, z)
  {
  }

  lemma LeaveAlone(c: Machine, t: nat, th: Thread, d: Device, status: Status)
    requires th.Busy? && Quiet(c, t, th.z)
    ensures Leave(With(c, t, th, d), t, status) == Returned(c, t, th, d, status)
  {
    assert c.threads[t := th][t := Idle] == c.threads;
    assert c.zoneLock[th.z := Some(t)][th.z := None] == c.zoneLock;
  }

  lemma GotoAlone(c: Machine, t: nat, th: Thread, d: Device, stage: Stage)
    requires th.Busy? && Quiet(c, t, th.z)
    ensures Goto(With(c, t, th, d), t, stage) == With(c, t, th.(stage := stage), d)
  {
    assert c.threads[t := th][t := th.(stage := stage)] == c.threads[t := th.(stage := stage)];
  }

  /** Where a thread is once its zone is open: a write goes on, an open is done. */
  function OpenedAlone(c: Machine, t: nat, th: Thread, d: Device): Machine
    requires th.Busy? && Quiet(c, t, th.z)
  {
    if th.task.Put? then With(c, t, th.(stage := Advancing), d) else Returned(c, t, th, d, Ok)
  }

  lemma ProceedAlone(c: Machine, t: nat, th: Thread, d: Device)
    requires th.Busy? && Quiet(c, t, th.z)
    ensures Proceed(With(c, t, th, d), t) == OpenedAlone(c, t, th, d)
  {
    LeaveAlone(c, t, th, d, Ok);
    GotoAlone(c, t, th, d, Advancing);
  }

  /** The scan under the global lock. */
  function Scan(c: Machine, t: nat, th: Thread, d: Device, next: nat): Machine
    requires th.Busy? && Quiet(c, t, th.z)
  {
    With(c, t, th.(stage := Scanning(next)), d).(globalLock := Some(t))
  }

  lemma {:induction false} ScanAlone(cfg: Config, c: Machine, t: nat, th: Thread, d: Device, next: nat)
    requires th.Busy? && Quiet(c, t, th.z) && Safe(cfg, Scan(c, t, th, d, next)) && next <= cfg.numZones == |d.zones|
    ensures var v := FirstImpOpen(d.zones, next, th.z);
      Reaches(cfg, Scan(c, t, th, d, next), t,
              OpenedAlone(c, t, th.(stage := Scanning(v)), if v == |d.zones| then d else Evicted(d, v)))
    decreases cfg.numZones - next
  {
    hide Safe, OpenedAlone, Proceed;
    var m, th1 := Scan(c, t, th, d, next), th.(stage := Scanning(next));
    if next == cfg.numZones {
      ProceedAlone(c, t, th1, d);
      ReachNext(cfg, m, t, OpenedAlone(c, t, th1, d));
    } else if next != th.z && d.zones[next].cond == ImpOpen {
      ProceedAlone(c, t, th1, Evicted(d, next));
      ReachNext(cfg, m, t, OpenedAlone(c, t, th1, Evicted(d, next)));
    } else {
      GotoAlone(c, t, th1, d, Scanning(next + 1));
      ReachNext(cfg, m, t, Scan(c, t, th, d, next + 1));
      ScanAlone(cfg, c, t, th, d, next + 1);
      var v := FirstImpOpen(d.zones, next + 1, th.z);
      ReachTrans(cfg, m, t, Scan(c, t, th, d, next + 1),
                 OpenedAlone(c, t, th.(stage := Scanning(v)), if v == |d.zones| then d else Evicted(d, v)));
    }
  }

  /** Where open_zone_locked ends with result r. */
  function AfterOpen(c: Machine, t: nat, th: Thread, r: (Device, Status)): Machine
    requires th.Busy? && Quiet(c, t, th.z)
  {
    if r.1 == Ok then OpenedAlone(c, t, th, r.0) else Returned(c, t, th, r.0, r.1)
  }

  lemma EvictAlone(cfg: Config, c: Machine, t: nat, th: Thread, d: Device)
    requires th.Busy? && th.stage == Opening && Quiet(c, t, th.z) && Safe(cfg, With(c, t, th, d))
    requires th.z < cfg.numZones == |d.zones| && cfg.numConventional <= cfg.numZones && MustEvict(cfg, d, th.z)
    ensures Reaches(cfg, With(c, t, th, d), t, AfterOpen(c, t, th, OpenLocked(cfg, d, th.z, th.task.Open?)))
  {
    hide Safe, OpenedAlone, Reaches, OpenLocked;
    var m, r := With(c, t, th, d), OpenLocked(cfg, d, th.z, th.task.Open?);
    var d1 := if d.zones[th.z].cond == Empty then d.(numActive := d.numActive + 1) else d;
    EvictingOpen(cfg, d, th.z, th.task.Open?);
    GotoAlone(c, t, th, d1, Scanning(cfg.numConventional));
    ReachNext(cfg, m, t, Scan(c, t, th, d1, cfg.numConventional));
    ScanAlone(cfg, c, t, th, d1, cfg.numConventional);
    OpenedStage(c, t, th, r.0, Scanning(FirstImpOpen(d1.zones, cfg.numConventional, th.z)));
    ReachTrans(cfg, m, t, Scan(c, t, th, d1, cfg.numConventional), OpenedAlone(c, t, th, r.0));
  }

  lemma PlainOpenAlone(cfg: Config, c: Machine, t: nat, th: Thread, d: Device)
    requires th.Busy? && th.stage == Opening && Quiet(c, t, th.z) && Safe(cfg, With(c, t, th, d))
    requires th.z < cfg.numZones == |d.zones| && cfg.numConventional <= cfg.numZones && !MustEvict(cfg, d, th.z)
    ensures Reaches(cfg, With(c, t, th, d), t, AfterOpen(c, t, th, OpenLocked(cfg, d, th.z, th.task.Open?)))
  {
    hide Safe, OpenedAlone, Reaches, OpenLocked, Proceed, Leave, MustEvict;
    var m, r := With(c, t, th, d), OpenLocked(cfg, d, th.z, th.task.Open?);
    ProceedAlone(c, t, th, r.0);
    LeaveAlone(c, t, th, r.0, r.1);
    ReachNext(cfg, m, t, AfterOpen(c, t, th, r));
  }

  /** open_zone_locked without interference is `OpenLocked`. */
  lemma OpenAlone(cfg: Config, c: Machine, t: nat, th: Thread, d: Device)
    requires th.Busy? && th.stage == Opening && Quiet(c, t, th.z) && Safe(cfg, With(c, t, th, d))
    requires th.z < cfg.numZones == |d.zones| && cfg.numConventional <= cfg.numZones
    ensures Reaches(cfg, With(c, t, th, d), t, AfterOpen(c, t, th, OpenLocked(cfg, d, th.z, th.task.Open?)))
  {
    if MustEvict(cfg, d, th.z) {
      EvictAlone(cfg, c, t, th, d);
    } else {
      PlainOpenAlone(cfg, c, t, th, d);
    }
  }

  lemma OpenedStage(c: Machine, t: nat, th: Thread, d: Device, stage: Stage)
    requires th.Busy? && Quiet(c, t, th.z)
    ensures OpenedAlone(c, t, th.(stage := stage), d) == OpenedAlone(c, t, th, d)
  {
  }

  lemma EvictingOpen(cfg: Config, d: Device, z: nat, explicit: bool)
    requires z < |d.zones| && cfg.numConventional <= |d.zones| && MustEvict(cfg, d, z)
    ensures var d1 := if d.zones[z].cond == Empty then d.(numActive := d.numActive + 1) else d;
      var v := FirstImpOpen(d1.zones, cfg.numConventional, z);
      OpenLocked(cfg, d, z, explicit) == (if v == |d1.zones| then d1 else Evicted(d1, v), Ok)
  {
  }

  // ---------------------------------------------------------------------------------------------
  // A write from moving the pointer to the last byte

  /** The zone is unlocked, k bytes of the payload are written. */
  function Written(c: Machine, t: nat, th: Thread, d: Device, k: nat): Machine
    requires th.Busy? && th.task.Put? && t < |c.threads| && k <= |th.task.data| && th.at + k <= |c.disk|
  {
    c.(dev := d, disk := Splice(c.disk, th.at, th.task.data[..k]), threads := c.threads[t := th.(stage := Landing(k))])
  }

  lemma {:induction false} LandAlone(cfg: Config, c: Machine, t: nat, th: Thread, d: Device, k: nat)
    requires th.Busy? && th.task.Put? && t < |c.threads| && c.threads[t].Idle?
    requires k <= |th.task.data| && th.at + |th.task.data| <= |c.disk| && Safe(cfg, Written(c, t, th, d, k))
    ensures Reaches(cfg, Written(c, t, th, d, k), t,
                    Returned(c.(disk := Splice(c.disk, th.at, th.task.data)), t, th, d, Ok))
    decreases |th.task.data| - k
  {
    hide Safe, Splice, Reaches;
    var m, data := Written(c, t, th, d, k), th.task.data;
    var r := Returned(c.(disk := Splice(c.disk, th.at, data)), t, th, d, Ok);
    if k == |data| {
      assert data[..k] == data;
      assert m.threads[t := Idle] == c.threads;
      ReachNext(cfg, m, t, r);
    } else {
      LandOne(c, t, th, d, k);
      ReachNext(cfg, m, t, Written(c, t, th, d, k + 1));
      LandAlone(cfg, c, t, th, d, k + 1);
      ReachTrans(cfg, m, t, Written(c, t, th, d, k + 1), r);
    }
  }

  lemma LandOne(c: Machine, t: nat, th: Thread, d: Device, k: nat)
    requires th.Busy? && th.task.Put? && t < |c.threads| && k < |th.task.data| && th.at + k < |c.disk|
    ensures var m := Written(c, t, th, d, k);
      Goto(m.(disk := m.disk[th.at + k := th.task.data[k]]), t, Landing(k + 1)) == Written(c, t, th, d, k + 1)
  {
    hide Splice;
    var data := th.task.data;
    SpliceSnoc(c.disk, th.at, data[..k + 1]);
    assert data[..k + 1][..k] == data[..k];
    assert Written(c, t, th, d, k).threads[t := th.(stage := Landing(k + 1))] == c.threads[t := th.(stage := Landing(k + 1))];
  }

  lemma ReachSafe(cfg: Config, c: Machine, t: nat, r: Machine)
    requires Reaches(cfg, c, t, r)
    ensures Safe(cfg, r)
  {
  }

  lemma CountingHere(cfg: Config, c: Machine, t: nat, th: Thread, d: Device)
    requires th.Busy? && th.task.Put? && th.stage == Counting && Quiet(c, t, th.z) && Safe(cfg, With(c, t, th, d))
    ensures ThreadSized(cfg, With(c, t, th, d), t) && th.z < |d.stats| && th.at + |th.task.data| <= |c.disk|
  {
    assert ThreadOk(cfg, With(c, t, th, d), t);
  }

  /** From counting to the return. */
  lemma CountAlone(cfg: Config, c: Machine, t: nat, th: Thread, d: Device)
    requires th.Busy? && th.task.Put? && th.stage == Counting && Quiet(c, t, th.z) && Safe(cfg, With(c, t, th, d))
    ensures th.z < |d.stats| && th.at + |th.task.data| <= |c.disk|
    ensures Reaches(cfg, With(c, t, th, d), t,
                    Returned(c.(disk := Splice(c.disk, th.at, th.task.data)), t, th, CountWritten(d, th.z, |th.task.data|), Ok))
  {
    hide Safe, Reaches, Splice, ThreadSized, With, CountWritten;
    CountingHere(cfg, c, t, th, d);
    var m, d1 := With(c, t, th, d), CountWritten(d, th.z, |th.task.data|);
    var r := Returned(c.(disk := Splice(c.disk, th.at, th.task.data)), t, th, d1, Ok);
    CountOne(cfg, c, t, th, d);
    ThreadCount(c, t, th, d);
    ReachNext(cfg, m, t, Written(c, t, th, d1, 0));
    LandAlone(cfg, c, t, th, d1, 0);
    ReachTrans(cfg, m, t, Written(c, t, th, d1, 0), r);
  }

  lemma ThreadCount(c: Machine, t: nat, th: Thread, d: Device)
    requires t < |c.threads| && th.Busy? && th.z < |c.zoneLock|
    ensures |With(c, t, th, d).threads| == |c.threads|
  {
  }

  lemma CountOne(cfg: Config, c: Machine, t: nat, th: Thread, d: Device)
    requires th.Busy? && th.task.Put? && th.stage == Counting && Quiet(c, t, th.z)
    requires ThreadSized(cfg, With(c, t, th, d), t) && th.z < |d.stats| && th.at + |th.task.data| <= |c.disk|
    ensures Move(cfg, With(c, t, th, d), t) == Written(c, t, th, CountWritten(d, th.z, |th.task.data|), 0)
  {
    assert c.zoneLock[th.z := Some(t)][th.z := None] == c.zoneLock;
    assert c.threads[t := th][t := th.(stage := Landing(0))] == c.threads[t := th.(stage := Landing(0))];
    assert th.task.data[..0] == [];
    assert Splice(c.disk, th.at, []) == c.disk;
  }

  /** The range is in the log. */
  function Logged(c: Machine, t: nat, th: Thread): Machine
    requires th.Busy? && th.task.Put?
  {
    c.(log := c.log + [Reservation(t, th.z, th.at, th.task.data)])
  }

  lemma AdvanceOne(cfg: Config, c: Machine, t: nat, th: Thread, d: Device)
    requires th.Busy? && th.task.Put? && th.stage == Advancing && Quiet(c, t, th.z)
    requires ThreadSized(cfg, With(c, t, th, d), t)
    ensures var d1 := SetWp(d, th.z, d.zones[th.z].wp + Sectors(|th.task.data|)); var zone := d1.zones[th.z];
      Move(cfg, With(c, t, th, d), t)
      == With(Logged(c, t, th), t,
              th.(slot := |c.log|, stage := if zone.wp == zone.start + zone.capacity then Filling else Counting), d1)
  {
    var d1 := SetWp(d, th.z, d.zones[th.z].wp + Sectors(|th.task.data|));
    var zone := d1.zones[th.z];
    var th1 := th.(slot := |c.log|, stage := if zone.wp == zone.start + zone.capacity then Filling else Counting);
    assert c.threads[t := th][t := th1] == c.threads[t := th1];
  }

  lemma FillOne(cfg: Config, c: Machine, t: nat, th: Thread, d: Device)
    requires th.Busy? && th.stage == Filling && Quiet(c, t, th.z) && ThreadSized(cfg, With(c, t, th, d), t)
    ensures Move(cfg, With(c, t, th, d), t) == With(c, t, th.(stage := Counting), MarkFull(d, th.z).0)
  {
    GotoAlone(c, t, th, MarkFull(d, th.z).0, Counting);
  }

  lemma SizedHere(cfg: Config, c: Machine, t: nat)
    requires Safe(cfg, c) && t < |c.threads|
    ensures ThreadSized(cfg, c, t)
  {
    assert ThreadOk(cfg, c, t);
  }

  /** From moving the pointer to counting, by way of mark_zone_full_locked if the zone is filled. */
  lemma AdvanceAlone(cfg: Config, c: Machine, t: nat, th: Thread, d: Device)
    requires th.Busy? && th.task.Put? && th.stage == Advancing && Quiet(c, t, th.z) && Safe(cfg, With(c, t, th, d))
    ensures th.z < |d.zones|
    ensures Reaches(cfg, With(c, t, th, d), t,
                    With(Logged(c, t, th), t, th.(slot := |c.log|, stage := Counting), Advance(d, th.z, |th.task.data|)))
  {
    hide Safe, Reaches, Move, MarkFull, TaskOk, ZoneNumber;
    var m := With(c, t, th, d);
    SizedHere(cfg, m, t);
    AdvanceOne(cfg, c, t, th, d);
    var d1 := SetWp(d, th.z, d.zones[th.z].wp + Sectors(|th.task.data|));
    var zone := d1.zones[th.z];
    if zone.wp == zone.start + zone.capacity {
      var c1, th1 := Logged(c, t, th), th.(slot := |c.log|, stage := Filling);
      ReachNext(cfg, m, t, With(c1, t, th1, d1));
      SizedHere(cfg, With(c1, t, th1, d1), t);
      FillOne(cfg, c1, t, th1, d1);
      ReachNext(cfg, With(c1, t, th1, d1), t, With(c1, t, th1.(stage := Counting), MarkFull(d1, th.z).0));
      ReachTrans(cfg, m, t, With(c1, t, th1, d1), With(c1, t, th1.(stage := Counting), MarkFull(d1, th.z).0));
    } else {
      ReachNext(cfg, m, t, With(Logged(c, t, th), t, th.(slot := |c.log|, stage := Counting), d1));
    }
  }

  // ---------------------------------------------------------------------------------------------
  // Whole calls

  /** r is the quiet machine c after one more call, with device d, bytes disk and this answer. */
  predicate Finished(c: Machine, r: Machine, t: nat, task: Task, d: Device, disk: seq<byte>, reply: Reply) {
    && r.dev == d && r.disk == disk && r.threads == c.threads && r.zoneLock == c.zoneLock && r.globalLock == c.globalLock
    && |r.answers| == |c.answers| + 1 && r.answers[..|c.answers|] == c.answers
    && var a := r.answers[|c.answers|]; a.t == t && a.task == task && a.status == reply.status && a.reported == reply.reported
  }

  ghost predicate Ends(cfg: Config, c: Machine, m: Machine, t: nat, task: Task, d: Device, disk: seq<byte>, reply: Reply) {
    exists r :: Reaches(cfg, m, t, r) && Finished(c, r, t, task, d, disk, reply)
  }

  lemma EndsLater(cfg: Config, c: Machine, m: Machine, m': Machine, t: nat, task: Task, d: Device, disk: seq<byte>, reply: Reply)
    requires Reaches(cfg, m, t, m') && Ends(cfg, c, m', t, task, d, disk, reply)
    ensures Ends(cfg, c, m, t, task, d, disk, reply)
  {
    hide Reaches, Finished;
    var r :| Reaches(cfg, m', t, r) && Finished(c, r, t, task, d, disk, reply);
    ReachTrans(cfg, m, t, m', r);
  }

  lemma EndsReturned(cfg: Config, c: Machine, m: Machine, t: nat, th: Thread, d: Device, status: Status)
    requires th.Busy? && Reaches(cfg, m, t, Returned(c, t, th, d, status))
    ensures Ends(cfg, c, m, t, th.task, d, c.disk, Reply(status, th.reported, []))
  {
    hide Reaches;
    assert Finished(c, Returned(c, t, th, d, status), t, th.task, d, c.disk, Reply(status, th.reported, []));
  }

  /** A write in an open zone. */
  lemma PutAlone(cfg: Config, c: Machine, t: nat, th: Thread, d: Device)
    requires th.Busy? && th.task.Put? && th.stage == Advancing && Quiet(c, t, th.z) && Safe(cfg, With(c, t, th, d))
    ensures th.z < |d.zones| && th.z < |Advance(d, th.z, |th.task.data|).stats| && th.at + |th.task.data| <= |c.disk|
    ensures Ends(cfg, c, With(c, t, th, d), t, th.task, CountWritten(Advance(d, th.z, |th.task.data|), th.z, |th.task.data|),
                 Splice(c.disk, th.at, th.task.data), Reply(Ok, th.reported, []))
  {
    hide Safe, Reaches, Advance, CountWritten, Splice;
    var n := |th.task.data|;
    AdvanceAlone(cfg, c, t, th, d);
    var c1, th1, d1 := Logged(c, t, th), th.(slot := |c.log|, stage := Counting), Advance(d, th.z, n);
    ReachSafe(cfg, With(c, t, th, d), t, With(c1, t, th1, d1));
    CountAlone(cfg, c1, t, th1, d1);
    var r := Returned(c1.(disk := Splice(c1.disk, th.at, th.task.data)), t, th1, CountWritten(d1, th.z, n), Ok);
    ReachTrans(cfg, With(c, t, th, d), t, With(c1, t, th1, d1), r);
    assert Finished(c, r, t, th.task, CountWritten(d1, th.z, n), Splice(c.disk, th.at, th.task.data), Reply(Ok, th.reported, []));
  }

  /** Thread t has just taken the lock of its zone, in the quiet machine c. */
  predicate JustEntered(cfg: Config, c: Machine, t: nat, th: Thread) {
    && th.Busy? && th.stage == Entered && th.at == 0 && th.reported == None && Quiet(c, t, th.z)
    && Safe(cfg, With(c, t, th, c.dev)) && ThreadSized(cfg, With(c, t, th, c.dev), t)
  }

  lemma OneMove(cfg: Config, c: Machine, t: nat, th: Thread, d: Device, status: Status)
    requires JustEntered(cfg, c, t, th)
    requires Move(cfg, With(c, t, th, c.dev), t) == Leave(With(c, t, th, d), t, status)
    ensures Ends(cfg, c, With(c, t, th, c.dev), t, th.task, d, c.disk, Reply(status, None, []))
  {
    hide Safe, Move, Leave, Reaches, ThreadSized, Ends;
    LeaveAlone(c, t, th, d, status);
    ThreadCount(c, t, th, c.dev);
    ReachNext(cfg, With(c, t, th, c.dev), t, Returned(c, t, th, d, status));
    EndsReturned(cfg, c, With(c, t, th, c.dev), t, th, d, status);
  }

  lemma EnterAs(cfg: Config, c: Machine, t: nat, th: Thread)
    requires JustEntered(cfg, c, t, th)
    ensures Move(cfg, With(c, t, th, c.dev), t) == Enter(cfg, With(c, t, th, c.dev), t)
    ensures th.z < cfg.numZones == |c.dev.zones| && TaskOk(cfg, th.task) && th.z == ZoneNumber(cfg, th.task.offset)
  {
    hide Safe, Enter;
  }

  lemma CloseAlone(cfg: Config, c: Machine, t: nat, th: Thread)
    requires JustEntered(cfg, c, t, th) && th.task.Close?
    ensures th.z < |c.dev.zones| && th.z == ZoneNumber(cfg, th.task.offset)
    ensures var r := CloseZone(cfg, c.dev, th.task.offset);
      Ends(cfg, c, With(c, t, th, c.dev), t, th.task, r.0, c.disk, Reply(r.1, None, []))
  {
    hide Safe, CloseZone, Move, Leave, Ends, TaskOk, ZoneNumber;
    EnterAs(cfg, c, t, th);
    var r := CloseZone(cfg, c.dev, th.task.offset);
    assert With(c, t, th, c.dev).(dev := r.0) == With(c, t, th, r.0);
    OneMove(cfg, c, t, th, r.0, r.1);
  }

  lemma FinishAlone(cfg: Config, c: Machine, t: nat, th: Thread)
    requires JustEntered(cfg, c, t, th) && th.task.Finish?
    ensures th.z < |c.dev.zones| && th.z == ZoneNumber(cfg, th.task.offset)
    ensures var r := FinishZone(cfg, c.dev, th.task.offset);
      Ends(cfg, c, With(c, t, th, c.dev), t, th.task, r.0, c.disk, Reply(r.1, None, []))
  {
    hide Safe, FinishZone, Move, Leave, Ends, TaskOk, ZoneNumber;
    EnterAs(cfg, c, t, th);
    var r := FinishZone(cfg, c.dev, th.task.offset);
    assert With(c, t, th, c.dev).(dev := r.0) == With(c, t, th, r.0);
    OneMove(cfg, c, t, th, r.0, r.1);
  }

  lemma OpenTaskAlone(cfg: Config, c: Machine, t: nat, th: Thread)
    requires JustEntered(cfg, c, t, th) && th.task.Open? && cfg.numConventional <= cfg.numZones
    ensures th.z < |c.dev.zones| == cfg.numZones && th.z == ZoneNumber(cfg, th.task.offset)
    ensures var r := OpenZone(cfg, c.dev, th.task.offset);
      Ends(cfg, c, With(c, t, th, c.dev), t, th.task, r.0, c.disk, Reply(r.1, None, []))
  {
    hide Safe, OpenLocked, Move, Leave, Ends, TaskOk, ZoneNumber, Reaches;
    EnterAs(cfg, c, t, th);
    var m, cond := With(c, t, th, c.dev), c.dev.zones[th.z].cond;
    if cond == ExpOpen {
      OneMove(cfg, c, t, th, c.dev, Ok);
    } else if cond == NotWp || cond == Full {
      OneMove(cfg, c, t, th, c.dev, IoErr);
    } else {
      GotoAlone(c, t, th, c.dev, Opening);
      ThreadCount(c, t, th, c.dev);
      ReachNext(cfg, m, t, With(c, t, th.(stage := Opening), c.dev));
      OpenAlone(cfg, c, t, th.(stage := Opening), c.dev);
      var r := OpenLocked(cfg, c.dev, th.z, true);
      EndsReturned(cfg, c, With(c, t, th.(stage := Opening), c.dev), t, th.(stage := Opening), r.0, r.1);
      EndsLater(cfg, c, m, With(c, t, th.(stage := Opening), c.dev), t, th.task, r.0, c.disk, Reply(r.1, None, []));
    }
  }

  lemma ResetAlone(cfg: Config, c: Machine, t: nat, th: Thread)
    requires JustEntered(cfg, c, t, th) && th.task.Reset?
    ensures th.z < |c.dev.zones| == |c.dev.stats| && th.z == ZoneNumber(cfg, th.task.offset)
    ensures Bytes(ZoneStart(cfg, th.z)) + Bytes(cfg.zoneSectors) <= |c.disk|
    ensures var r := ResetAt(c.dev, th.z);
      Ends(cfg, c, With(c, t, th, c.dev), t, th.task, r.0,
           if r.2 then Splice(c.disk, Bytes(ZoneStart(cfg, th.z)), Zeros(Bytes(cfg.zoneSectors))) else c.disk,
           Reply(r.1, None, []))
  {
    ZoneInDisk(cfg, th.z);
    hide Safe, ResetAt, Move, Leave, Ends, TaskOk, ZoneNumber, Reaches, Splice, ZoneStart;
    EnterAs(cfg, c, t, th);
    var m, r := With(c, t, th, c.dev), ResetAt(c.dev, th.z);
    assert m.(dev := r.0) == With(c, t, th, r.0);
    if r.2 {
      DiscardAlone(cfg, c, t, th);
    } else {
      OneMove(cfg, c, t, th, r.0, r.1);
    }
  }

  lemma DiscardAlone(cfg: Config, c: Machine, t: nat, th: Thread)
    requires JustEntered(cfg, c, t, th) && th.task.Reset? && th.z < |c.dev.zones| == |c.dev.stats| && ResetAt(c.dev, th.z).2
    requires th.z < cfg.numZones && Bytes(ZoneStart(cfg, th.z)) + Bytes(cfg.zoneSectors) <= |c.disk|
    ensures Ends(cfg, c, With(c, t, th, c.dev), t, th.task, ResetAt(c.dev, th.z).0,
                 Splice(c.disk, Bytes(ZoneStart(cfg, th.z)), Zeros(Bytes(cfg.zoneSectors))), Reply(Ok, None, []))
  {
    hide Safe, ResetAt, TaskOk, ZoneNumber, Reaches, Splice, ZoneStart, Ends;
    var m, d := With(c, t, th, c.dev), ResetAt(c.dev, th.z).0;
    var th1 := th.(stage := Discarding);
    var c1 := c.(dev := d, threads := c.threads[t := th1]);
    var disk := Splice(c.disk, Bytes(ZoneStart(cfg, th.z)), Zeros(Bytes(cfg.zoneSectors)));
    assert c.zoneLock[th.z := Some(t)][th.z := None] == c.zoneLock;
    assert c.threads[t := th][t := th1] == c.threads[t := th1];
    ReachNext(cfg, m, t, c1);
    assert c1.threads[t := Idle] == c.threads;
    var r := Returned(c.(disk := disk), t, th1, d, Ok);
    ReachNext(cfg, c1, t, r);
    ReachTrans(cfg, m, t, c1, r);
    EndsIs(cfg, c, m, r, t, th.task, d, disk, Reply(Ok, None, []));
  }

  lemma EndsIs(cfg: Config, c: Machine, m: Machine, r: Machine, t: nat, task: Task, d: Device, disk: seq<byte>, reply: Reply)
    requires Reaches(cfg, m, t, r) && Finished(c, r, t, task, d, disk, reply)
    ensures Ends(cfg, c, m, t, task, d, disk, reply)
  {
    hide Reaches, Finished;
  }

  /** The thread after it looked up where its payload goes. */
  function Placed(th: Thread, at: nat, stage: Stage): Thread
    requires th.Busy? && th.task.Put?
  {
    th.(at := at, reported := if th.task.append then Some(at) else None, stage := stage)
  }

  /** An accepted payload, from the switch on the condition on. */
  lemma OpenedPutAlone(cfg: Config, c: Machine, t: nat, th: Thread, at: nat)
    requires JustEntered(cfg, c, t, th) && th.task.Put? && th.z < |c.dev.zones| == cfg.numZones
    requires cfg.numConventional <= cfg.numZones && OpenForWrite(cfg, c.dev, th.z).1 == Ok
    requires Move(cfg, With(c, t, th, c.dev), t)
          == With(c, t, Placed(th, at, if c.dev.zones[th.z].cond == Empty || c.dev.zones[th.z].cond == Closed
                                       then Opening else Advancing), c.dev)
    ensures var o, n := OpenForWrite(cfg, c.dev, th.z).0, |th.task.data|;
      && th.z < |o.zones| && th.z < |Advance(o, th.z, n).stats| && at + n <= |c.disk|
      && Ends(cfg, c, With(c, t, th, c.dev), t, th.task, CountWritten(Advance(o, th.z, n), th.z, n),
              Splice(c.disk, at, th.task.data), Reply(Ok, if th.task.append then Some(at) else None, []))
  {
    hide Safe, OpenLocked, Move, Ends, ThreadSized, Reaches, Advance, CountWritten, Splice;
    var m, th1 := With(c, t, th, c.dev), Placed(th, at, Advancing);
    ThreadCount(c, t, th, c.dev);
    var o, n := OpenForWrite(cfg, c.dev, th.z).0, |th.task.data|;
    if c.dev.zones[th.z].cond == Empty || c.dev.zones[th.z].cond == Closed {
      var th0 := Placed(th, at, Opening);
      ReachNext(cfg, m, t, With(c, t, th0, c.dev));
      OpenAlone(cfg, c, t, th0, c.dev);
      ReachTrans(cfg, m, t, With(c, t, th0, c.dev), With(c, t, th1, o));
    } else {
      ReachNext(cfg, m, t, With(c, t, th1, o));
    }
    ReachSafe(cfg, m, t, With(c, t, th1, o));
    PutAlone(cfg, c, t, th1, o);
    EndsLater(cfg, c, m, With(c, t, th1, o), t, th.task, CountWritten(Advance(o, th.z, n), th.z, n),
              Splice(c.disk, at, th.task.data), Reply(Ok, if th.task.append then Some(at) else None, []));
  }

  /** A payload that was placed and then refused. */
  lemma RefusedAlone(cfg: Config, c: Machine, t: nat, th: Thread, at: nat)
    requires JustEntered(cfg, c, t, th) && th.task.Put?
    requires Move(cfg, With(c, t, th, c.dev), t) == Leave(With(c, t, Placed(th, at, Entered), c.dev), t, IoErr)
    ensures Ends(cfg, c, With(c, t, th, c.dev), t, th.task, c.dev, c.disk,
                 Reply(IoErr, if th.task.append then Some(at) else None, []))
  {
    hide Safe, Move, Leave, Reaches, ThreadSized, Ends;
    var th1 := Placed(th, at, Entered);
    LeaveAlone(c, t, th1, c.dev, IoErr);
    ThreadCount(c, t, th, c.dev);
    ReachNext(cfg, With(c, t, th, c.dev), t, Returned(c, t, th1, c.dev, IoErr));
    EndsReturned(cfg, c, With(c, t, th, c.dev), t, th1, c.dev, IoErr);
  }

  /** A payload whose zone could not be opened. */
  lemma UnopenedPutAlone(cfg: Config, c: Machine, t: nat, th: Thread, at: nat)
    requires JustEntered(cfg, c, t, th) && th.task.Put? && th.z < |c.dev.zones| == cfg.numZones
    requires cfg.numConventional <= cfg.numZones && OpenForWrite(cfg, c.dev, th.z).1 != Ok
    requires c.dev.zones[th.z].cond == Empty || c.dev.zones[th.z].cond == Closed
    requires Move(cfg, With(c, t, th, c.dev), t) == With(c, t, Placed(th, at, Opening), c.dev)
    ensures var o := OpenForWrite(cfg, c.dev, th.z);
      Ends(cfg, c, With(c, t, th, c.dev), t, th.task, o.0, c.disk,
           Reply(o.1, if th.task.append then Some(at) else None, []))
  {
    hide Safe, OpenLocked, Move, Ends, ThreadSized, Reaches;
    var m, th0, o := With(c, t, th, c.dev), Placed(th, at, Opening), OpenForWrite(cfg, c.dev, th.z);
    ThreadCount(c, t, th, c.dev);
    ReachNext(cfg, m, t, With(c, t, th0, c.dev));
    OpenAlone(cfg, c, t, th0, c.dev);
    ReachTrans(cfg, m, t, With(c, t, th0, c.dev), Returned(c, t, th0, o.0, o.1));
    EndsReturned(cfg, c, m, t, th0, o.0, o.1);
  }

  /** What EnterPut does next, alone. */
  lemma EnterPutAlone(cfg: Config, c: Machine, t: nat, th: Thread, at: nat)
    requires JustEntered(cfg, c, t, th) && th.task.Put? && th.z < |c.dev.zones| && c.dev.zones[th.z].ztype != Conventional
    requires at == if th.task.append then Bytes(c.dev.zones[th.z].wp) else th.task.offset
    ensures var zone, m := c.dev.zones[th.z], Move(cfg, With(c, t, th, c.dev), t);
      if !th.task.append && Bytes(zone.wp) != th.task.offset then m == Leave(With(c, t, th, c.dev), t, IoErr)
      else if Bytes(zone.start + zone.capacity) < at + |th.task.data| || zone.cond == NotWp || zone.cond == Full then
        m == Leave(With(c, t, Placed(th, at, Entered), c.dev), t, IoErr)
      else m == With(c, t, Placed(th, at, if zone.cond == Empty || zone.cond == Closed then Opening else Advancing), c.dev)
  {
    hide Safe, Leave, OpOk, ZoneNumber;
    var th1 := Placed(th, at, Entered);
    assert c.threads[t := th][t := th1] == c.threads[t := th1];
    GotoAlone(c, t, th1, c.dev, Opening);
    GotoAlone(c, t, th1, c.dev, Advancing);
  }

  lemma SequentialPutAlone(cfg: Config, c: Machine, t: nat, th: Thread)
    requires th.Busy? && JustEntered(cfg, c, t, th) && th.task.Put? && th.z < |c.dev.zones| == |c.dev.stats| == cfg.numZones
    requires ConfigOk(cfg) && c.dev.zones[th.z].ztype != Conventional && th.z == ZoneNumber(cfg, th.task.offset)
    requires |Advance(OpenForWrite(cfg, c.dev, th.z).0, th.z, |th.task.data|).stats| == |c.dev.stats|
    requires |OpenForWrite(cfg, c.dev, th.z).0.zones| == |c.dev.zones|
    ensures var r := WriteCommon(cfg, c.dev, th.task.offset, |th.task.data|, th.task.append);
      && (r.rawAt.Some? ==> r.rawAt.value + |th.task.data| <= |c.disk|)
      && Ends(cfg, c, With(c, t, th, c.dev), t, th.task, r.dev,
              if r.rawAt.Some? then Splice(c.disk, r.rawAt.value, th.task.data) else c.disk, Reply(r.status, r.reported, []))
  {
    hide Safe, Move, Leave, Ends, ThreadSized, Reaches, Advance, CountWritten, Splice, ZoneNumber, JustEntered, OpenLocked;
    var zone := c.dev.zones[th.z];
    var at := if th.task.append then Bytes(zone.wp) else th.task.offset;
    EnterPutAlone(cfg, c, t, th, at);
    if !th.task.append && Bytes(zone.wp) != th.task.offset {
      OneMove(cfg, c, t, th, c.dev, IoErr);
    } else if Bytes(zone.start + zone.capacity) < at + |th.task.data| || zone.cond == NotWp || zone.cond == Full {
      RefusedAlone(cfg, c, t, th, at);
    } else if OpenForWrite(cfg, c.dev, th.z).1 == Ok {
      OpenedPutAlone(cfg, c, t, th, at);
    } else {
      UnopenedPutAlone(cfg, c, t, th, at);
    }
  }

  lemma ConventionalPutAlone(cfg: Config, c: Machine, t: nat, th: Thread)
    requires JustEntered(cfg, c, t, th) && th.task.Put? && th.z < |c.dev.zones| == |c.dev.stats| == cfg.numZones
    requires ConfigOk(cfg) && c.dev.zones[th.z].ztype == Conventional && th.z == ZoneNumber(cfg, th.task.offset)
    ensures var r := WriteCommon(cfg, c.dev, th.task.offset, |th.task.data|, th.task.append);
      && (r.rawAt.Some? ==> r.rawAt.value + |th.task.data| <= |c.disk|)
      && Ends(cfg, c, With(c, t, th, c.dev), t, th.task, r.dev,
              if r.rawAt.Some? then Splice(c.disk, r.rawAt.value, th.task.data) else c.disk, Reply(r.status, r.reported, []))
  {
    hide Safe, Leave, Ends, Reaches, Splice, ZoneNumber, OpOk;
    var m, d1 := With(c, t, th, c.dev), CountWritten(c.dev, th.z, |th.task.data|);
    if th.task.append {
      OneMove(cfg, c, t, th, c.dev, IoErr);
    } else {
      var th1 := th.(at := th.task.offset, stage := Counting);
      assert c.threads[t := th][t := th1] == c.threads[t := th1];
      ReachNext(cfg, m, t, With(c, t, th1, c.dev));
      CountAlone(cfg, c, t, th1, c.dev);
      ReachTrans(cfg, m, t, With(c, t, th1, c.dev),
                 Returned(c.(disk := Splice(c.disk, th1.at, th.task.data)), t, th1, d1, Ok));
      EndsIs(cfg, c, m, Returned(c.(disk := Splice(c.disk, th1.at, th.task.data)), t, th1, d1, Ok), t, th.task, d1,
             Splice(c.disk, th1.at, th.task.data), Reply(Ok, None, []));
    }
  }

  lemma StatsKept(cfg: Config, d: Device, z: nat, n: nat)
    requires cfg.numConventional <= |d.zones| && z < |d.zones|
    ensures |OpenForWrite(cfg, d, z).0.zones| == |d.zones| && |Advance(OpenForWrite(cfg, d, z).0, z, n).stats| == |d.stats|
  {
    OpenLockedFrame(cfg, d, z, false);
    hide OpenLocked;
    AdvanceStats(OpenForWrite(cfg, d, z).0, z, n);
  }

  /** With the zone lock just taken, the rest of the call is the sequential operation. */
  lemma EnteredIsStep(cfg: Config, c: Machine, t: nat, th: Thread)
    requires th.Busy? && JustEntered(cfg, c, t, th) && SysOk(cfg, State(c.dev, c.disk)) && TaskOk(cfg, th.task)
    ensures var r := Step(cfg, State(c.dev, c.disk), OpOf(th.task));
      Ends(cfg, c, With(c, t, th, c.dev), t, th.task, r.0.dev, r.0.disk, r.1)
  {
    hide Safe, Ends, Splice, Inv, Quiet, With, CloseZone, FinishZone, OpenLocked, WriteCommon, ResetAt;
    EnterAs(cfg, c, t, th);
    match th.task {
      case Put(o, data, append) =>
        StatsKept(cfg, c.dev, th.z, |data|);
        if c.dev.zones[th.z].ztype == Conventional {
          ConventionalPutAlone(cfg, c, t, th);
        } else {
          SequentialPutAlone(cfg, c, t, th);
        }
      case Open(_) => OpenTaskAlone(cfg, c, t, th);
      case Close(_) => CloseAlone(cfg, c, t, th);
      case Finish(_) => FinishAlone(cfg, c, t, th);
      case Reset(_) => ResetAlone(cfg, c, t, th);
    }
  }

  /**
   * A call made while nobody else is at work ends with the device, the bytes and the answer of the
   * sequential operation, however many moves it takes.
   */
  lemma AloneIsStep(cfg: Config, c: Machine, t: nat, task: Task)
    requires Safe(cfg, c) && Quiescent(c) && t < |c.threads| && TaskOk(cfg, task)
    ensures SysOk(cfg, State(c.dev, c.disk)) && ThreadSized(cfg, c, t)
    ensures var r := Step(cfg, State(c.dev, c.disk), OpOf(task));
      Ends(cfg, c, Happen(cfg, c, Begin(t, task)), t, task, r.0.dev, r.0.disk, r.1)
  {
    hide Safe, Ends, Step, SysOk, Reaches, OpOk;
    QuietIsConsistent(cfg, c);
    SizedHere(cfg, c, t);
    HappenSafe(cfg, c, Begin(t, task));
    var z := ZoneNumber(cfg, task.offset);
    QuietLocks(cfg, c, t, z);
    var th, m := Busy(z, task, 0, 0, None, Entered), Happen(cfg, c, Begin(t, task));
    assert m.threads[t := th] == c.threads[t := th];
    ReachNext(cfg, m, t, With(c, t, th, c.dev));
    SizedHere(cfg, With(c, t, th, c.dev), t);
    EnteredIsStep(cfg, c, t, th);
    var r := Step(cfg, State(c.dev, c.disk), OpOf(task));
    EndsLater(cfg, c, m, With(c, t, th, c.dev), t, task, r.0.dev, r.0.disk, r.1);
  }
}
