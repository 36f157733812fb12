/** What each operation answers and does, condition by condition. */
module ZonedLaws {
  import opened Memory
  import opened Wrappers
  import opened Zoned
  import opened ZonedInvariant
  import opened ZonedRun
  import opened ZonedLog

  /** Zone z is where offset lies. */
  predicate Lies(cfg: Config, offset: nat, z: nat) {
    z < cfg.numZones && 512 * cfg.zoneSectors * z <= offset < 512 * cfg.zoneSectors * (z + 1)
  }

  lemma LiesIn(cfg: Config, offset: nat, z: nat)
    requires ConfigOk(cfg) && Lies(cfg, offset, z)
    ensures ZoneNumber(cfg, offset) == z
  {
    var b := Bytes(cfg.zoneSectors);
    DivBounds(offset, b);
    var q := ZoneNumber(cfg, offset);
    assert 512 * cfg.zoneSectors * z == z * b && 512 * cfg.zoneSectors * (z + 1) == z * b + b;
    if q < z {
      MulMono(q + 1, z, b);
    } else if z < q {
      MulMono(z + 1, q, b);
    }
  }

  /** The zone that makes room: the lowest implicitly open one other than z. */
  predicate Victim(zones: seq<Zone>, z: nat, v: nat) {
    v < |zones| && v != z && zones[v].cond == ImpOpen && forall i :: 0 <= i < v && i != z ==> zones[i].cond != ImpOpen
  }

  /** The zone is not open, but may have the active slot it needs. */
  predicate Openable(cfg: Config, d: Device, z: nat)
    requires z < |d.zones|
  {
    d.zones[z].cond == Closed || (d.zones[z].cond == Empty && d.numActive < cfg.maxActive)
  }

  /** Only an EMPTY zone takes an active slot. */
  function Slot(c: Cond): nat {
    if c == Empty then 1 else 0
  }

  /** There is one, and only one, and the scan finds it. */
  lemma Chosen(cfg: Config, d: Device, z: nat) returns (v: nat)
    requires Inv(cfg, d, Leaked(d)) && z < |d.zones| && d.zones[z].cond != ImpOpen && 0 < d.numImpOpen
    ensures Victim(d.zones, z, v) && v == FirstImpOpen(d.zones, cfg.numConventional, z)
    ensures forall w: nat :: Victim(d.zones, z, w) ==> w == v
  {
    EvictionSucceeds(cfg, d, z, Leaked(d));
    v := FirstImpOpen(d.zones, cfg.numConventional, z);
    forall w: nat | Victim(d.zones, z, w) ensures w == v {
      assert !(v < w) && !(w < v);
    }
  }

  // ---------------------------------------------------------------------------------------------
  // Open

  /** With which status an explicit open is answered; nothing but conditions and counters change. */
  lemma OpenAnswers(cfg: Config, s: State, offset: nat, z: nat)
    requires SysOk(cfg, s) && OpOk(cfg, OpenOp(offset)) && Lies(cfg, offset, z)
    ensures var d, c := s.dev, s.dev.zones[z].cond; var (s', r) := Step(cfg, s, OpenOp(offset));
      && (r.status == IoErr <==> c == NotWp || c == Full)
      && (r.status == ActiveResource <==> c == Empty && d.numActive >= cfg.maxActive)
      && (r.status == OpenResource <==> Openable(cfg, d, z) && d.numOpen >= cfg.maxOpen && d.numImpOpen == 0)
      && (r.status == Ok <==> c == ImpOpen || c == ExpOpen || (Openable(cfg, d, z) && (d.numOpen < cfg.maxOpen || 0 < d.numImpOpen)))
      && r.reported == None && r.data == [] && s'.disk == s.disk && s'.dev.stats == d.stats
  {
    LiesIn(cfg, offset, z);
    CountsNatural(cfg, s.dev);
  }

  lemma CountsNatural(cfg: Config, d: Device)
    requires Inv(cfg, d, Leaked(d))
    ensures 0 <= d.numImpOpen <= d.numOpen
  {
    CountSubset(d.zones, IMP, OPEN);
  }

  /** An open that is refused changes nothing, but at the open limit an EMPTY zone has lost a slot. */
  lemma OpenRefused(cfg: Config, s: State, offset: nat, z: nat)
    requires SysOk(cfg, s) && OpOk(cfg, OpenOp(offset)) && Lies(cfg, offset, z)
    requires Step(cfg, s, OpenOp(offset)).1.status != Ok
    ensures var c := s.dev.zones[z].cond;
      var refused := if Openable(cfg, s.dev, z) then s.dev.(numActive := s.dev.numActive + Slot(c)) else s.dev;
      Step(cfg, s, OpenOp(offset)).0 == s.(dev := refused)
  {
    LiesIn(cfg, offset, z);
  }

  /** An open that is granted at once: the zone is explicitly open, and the counters say so. */
  lemma OpenGranted(cfg: Config, s: State, offset: nat, z: nat)
    requires SysOk(cfg, s) && OpOk(cfg, OpenOp(offset)) && Lies(cfg, offset, z)
    requires var c := s.dev.zones[z].cond; c == ImpOpen || c == ExpOpen || (Openable(cfg, s.dev, z) && s.dev.numOpen < cfg.maxOpen)
    ensures var d, c := s.dev, s.dev.zones[z].cond; var d' := Step(cfg, s, OpenOp(offset)).0.dev;
      && d'.zones == d.zones[z := d.zones[z].(cond := ExpOpen)]
      && d'.numOpen == d.numOpen + (if c == ImpOpen || c == ExpOpen then 0 else 1)
      && d'.numImpOpen == d.numImpOpen - (if c == ImpOpen then 1 else 0)
      && d'.numActive == d.numActive + Slot(c)
  {
    LiesIn(cfg, offset, z);
  }

  /** At the open limit an implicitly open zone is closed instead, and the zone asked for stays as it is. */
  lemma OpenEvicts(cfg: Config, s: State, offset: nat, z: nat) returns (v: nat)
    requires SysOk(cfg, s) && OpOk(cfg, OpenOp(offset)) && Lies(cfg, offset, z)
    requires Openable(cfg, s.dev, z) && s.dev.numOpen >= cfg.maxOpen && 0 < s.dev.numImpOpen
    ensures Victim(s.dev.zones, z, v)
    ensures var d, d' := s.dev, Step(cfg, s, OpenOp(offset)).0.dev;
      && d'.zones == d.zones[v := d.zones[v].(cond := Closed)]
      && d'.numOpen == d.numOpen - 1 && d'.numImpOpen == d.numImpOpen - 1
      && d'.numActive == d.numActive + Slot(d.zones[z].cond)
  {
    LiesIn(cfg, offset, z);
    v := Chosen(cfg, s.dev, z);
    hide Inv, Victim;
  }

  // ---------------------------------------------------------------------------------------------
  // Close, finish, reset

  lemma CloseLaw(cfg: Config, s: State, offset: nat, z: nat)
    requires SysOk(cfg, s) && OpOk(cfg, CloseOp(offset)) && Lies(cfg, offset, z)
    ensures var d, a := s.dev, s.dev.zones[z]; var (s', r) := Step(cfg, s, CloseOp(offset));
      && (r.status == Ok <==> a.cond == ImpOpen || a.cond == ExpOpen || a.cond == Closed)
      && (r.status != Ok ==> r.status == IoErr && s' == s)
      && r.reported == None && r.data == [] && s'.disk == s.disk && s'.dev.stats == d.stats
      && (r.status == Ok ==>
            && s'.dev.zones == d.zones[z := a.(cond := if a.wp == a.start then Empty else Closed)]
            && s'.dev.numOpen == d.numOpen - (if a.cond == ImpOpen || a.cond == ExpOpen then 1 else 0)
            && s'.dev.numImpOpen == d.numImpOpen - (if a.cond == ImpOpen then 1 else 0)
            && s'.dev.numActive == d.numActive - (if a.wp == a.start then 1 else 0))
  {
    LiesIn(cfg, offset, z);
  }

  /** Every finish is answered Ok, also that of a conventional zone, of which it changes nothing. */
  lemma FinishLaw(cfg: Config, s: State, offset: nat, z: nat)
    requires SysOk(cfg, s) && OpOk(cfg, FinishOp(offset)) && Lies(cfg, offset, z)
    ensures var d, a := s.dev, s.dev.zones[z]; var (s', r) := Step(cfg, s, FinishOp(offset));
      && r == Reply(Ok, None, []) && s'.disk == s.disk && s'.dev.stats == d.stats
      && (a.ztype == Conventional ==> s' == s)
      && (a.ztype != Conventional ==>
            && s'.dev.zones == d.zones[z := a.(cond := Full, wp := a.start + a.len)]
            && s'.dev.numOpen == d.numOpen - (if a.cond == ImpOpen || a.cond == ExpOpen then 1 else 0)
            && s'.dev.numImpOpen == d.numImpOpen - (if a.cond == ImpOpen then 1 else 0)
            && s'.dev.numActive == d.numActive - (if a.cond == ImpOpen || a.cond == ExpOpen || a.cond == Closed then 1 else 0))
  {
    LiesIn(cfg, offset, z);
    assert ZoneOk(cfg, z, s.dev.zones[z]);
  }

  /** A reset is refused by conventional zones only; an EMPTY zone is counted but not rewound. */
  lemma ResetLaw(cfg: Config, s: State, offset: nat, z: nat)
    requires SysOk(cfg, s) && OpOk(cfg, ResetOp(offset)) && Lies(cfg, offset, z)
    ensures var d, a := s.dev, s.dev.zones[z]; var (s', r) := Step(cfg, s, ResetOp(offset)); var t := d.stats[z];
      && r == Reply(if a.ztype == Conventional then IoErr else Ok, None, [])
      && s'.dev.stats == d.stats[z := t.(resetCount := t.resetCount + 1, discardCount := t.discardCount + 512 * (a.wp - a.start))]
      && (a.ztype == Conventional || a.cond == Empty ==> s' == s.(dev := d.(stats := s'.dev.stats)))
      && (a.ztype != Conventional && a.cond != Empty ==>
            && s'.dev.zones == d.zones[z := a.(cond := Empty, wp := a.start)]
            && s'.dev.numOpen == d.numOpen - (if a.cond == ImpOpen || a.cond == ExpOpen then 1 else 0)
            && s'.dev.numImpOpen == d.numImpOpen - (if a.cond == ImpOpen then 1 else 0)
            && s'.dev.numActive == d.numActive - (if a.cond == ImpOpen || a.cond == ExpOpen || a.cond == Closed then 1 else 0)
            && |s'.disk| == |s.disk|
            && forall k :: 0 <= k < |s.disk| ==> s'.disk[k] == if 512 * a.start <= k < 512 * (a.start + a.len) then 0 else s.disk[k])
  {
    LiesIn(cfg, offset, z);
    assert ZoneOk(cfg, z, s.dev.zones[z]);
    ZoneInDisk(cfg, z);
  }

  /** A new device: every zone at its start, nothing counted, a zeroed disk. */
  lemma InitLaw(cfg: Config, i: nat)
    requires ConfigOk(cfg) && i < cfg.numZones
    ensures var s, start := InitState(cfg), cfg.zoneSectors * i;
      && |s.dev.zones| == |s.dev.stats| == cfg.numZones && s.dev.stats[i] == Stat(0, 0, 0, 0)
      && s.dev.zones[i] == (if i < cfg.numConventional then Zone(start, cfg.zoneSectors, start, Conventional, NotWp, cfg.zoneSectors)
                            else Zone(start, cfg.zoneSectors, start, SeqWriteReq, Empty, cfg.zoneSectors))
      && s.dev.numOpen == s.dev.numImpOpen == s.dev.numActive == 0
      && |s.disk| == 512 * cfg.zoneSectors * cfg.numZones && forall k :: 0 <= k < |s.disk| ==> s.disk[k] == 0
  {
  }

  /** Reset-all is a fresh zone table and a zeroed disk; the statistics stay. */
  lemma ResetAllLaw(cfg: Config, s: State)
    requires SysOk(cfg, s)
    ensures var (s', r) := Step(cfg, s, ResetAllOp);
      && r == Reply(Ok, None, []) && s'.dev.stats == s.dev.stats
      && s'.dev.numOpen == s'.dev.numImpOpen == s'.dev.numActive == 0
      && |s'.disk| == |s.disk| && (forall k :: 0 <= k < |s.disk| ==> s'.disk[k] == 0)
      && |s'.dev.zones| == cfg.numZones
      && forall i :: 0 <= i < cfg.numZones ==>
           var start := cfg.zoneSectors * i;
           s'.dev.zones[i] == if i < cfg.numConventional then Zone(start, cfg.zoneSectors, start, Conventional, NotWp, cfg.zoneSectors)
                              else Zone(start, cfg.zoneSectors, start, SeqWriteReq, Empty, cfg.zoneSectors)
  {
  }

  lemma ReadLaw(cfg: Config, s: State, offset: nat, n: nat, z: nat)
    requires SysOk(cfg, s) && OpOk(cfg, ReadOp(offset, n)) && Lies(cfg, offset, z)
    ensures var (s', r) := Step(cfg, s, ReadOp(offset, n)); var t := s.dev.stats[z];
      && offset + n <= |s.disk| && r == Reply(Ok, None, s.disk[offset..offset + n])
      && s' == s.(dev := s.dev.(stats := s.dev.stats[z := t.(read := t.read + n)]))
  {
    LiesIn(cfg, offset, z);
    ZoneInDisk(cfg, z);
  }

  // ---------------------------------------------------------------------------------------------
  // Writes and appends

  function Put(offset: nat, data: seq<byte>, append: bool): Op {
    if append then AppendOp(offset, data) else WriteOp(offset, data)
  }

  lemma SpliceIs(m: seq<byte>, at: nat, data: seq<byte>)
    requires at + |data| <= |m|
    ensures Splice(m, at, data) == m[..at] + data + m[at + |data|..]
  {
  }

  /** A conventional zone takes writes anywhere, and no appends. */
  lemma ConventionalLaw(cfg: Config, s: State, offset: nat, data: seq<byte>, append: bool, z: nat)
    requires SysOk(cfg, s) && OpOk(cfg, Put(offset, data, append)) && Lies(cfg, offset, z) && z < cfg.numConventional
    ensures var (s', r) := Step(cfg, s, Put(offset, data, append)); var t := s.dev.stats[z];
      && r == Reply(if append then IoErr else Ok, None, [])
      && (append ==> s' == s)
      && (!append ==>
            && offset + |data| <= |s.disk| && s'.disk == s.disk[..offset] + data + s.disk[offset + |data|..]
            && s'.dev == s.dev.(stats := s.dev.stats[z := t.(written := t.written + |data|)]))
  {
    LiesIn(cfg, offset, z);
    assert ZoneOk(cfg, z, s.dev.zones[z]);
    ZoneInDisk(cfg, z);
    assert offset + |data| <= |s.disk| || append;
    if !append {
      SpliceIs(s.disk, offset, data);
    }
    hide Splice, OpenForWrite, Advance, Inv;
  }

  /** The payload fits where it has to go, and the zone is not finished. */
  predicate Fits(zone: Zone, offset: nat, n: nat, append: bool) {
    (append || offset == 512 * zone.wp) && 512 * zone.wp + n <= 512 * (zone.start + zone.capacity) && zone.cond != Full
  }

  /** Opening for a write, as open_zone_locked answers it. */
  lemma OpeningAnswers(cfg: Config, d: Device, z: nat)
    requires Inv(cfg, d, Leaked(d)) && z < |d.zones|
    ensures var c := d.zones[z].cond; var (o, status) := OpenForWrite(cfg, d, z);
      && (status == IoErr <==> c == NotWp || c == Full)
      && (status == ActiveResource <==> c == Empty && d.numActive >= cfg.maxActive)
      && (status == OpenResource <==> Openable(cfg, d, z) && d.numOpen >= cfg.maxOpen && d.numImpOpen == 0)
      && (status == OpenResource ==> o == d.(numActive := d.numActive + Slot(c)))
      && (status == IoErr || status == ActiveResource ==> o == d)
  {
    CountsNatural(cfg, d);
  }

  /** With which status a write or append to a sequential zone is answered, and what a refusal leaves. */
  lemma WriteAnswers(cfg: Config, s: State, offset: nat, data: seq<byte>, append: bool, z: nat)
    requires SysOk(cfg, s) && OpOk(cfg, Put(offset, data, append)) && Lies(cfg, offset, z) && cfg.numConventional <= z
    ensures var d, a := s.dev, s.dev.zones[z]; var (s', r) := Step(cfg, s, Put(offset, data, append));
      var fits := Fits(a, offset, |data|, append);
      && (r.status == IoErr <==> !fits)
      && (r.status == ActiveResource <==> fits && a.cond == Empty && d.numActive >= cfg.maxActive)
      && (r.status == OpenResource <==> fits && Openable(cfg, d, z) && d.numOpen >= cfg.maxOpen && d.numImpOpen == 0)
      && (r.status == OpenResource ==> s' == s.(dev := d.(numActive := d.numActive + Slot(a.cond))))
      && (r.status == IoErr || r.status == ActiveResource ==> s' == s)
  {
    LiesIn(cfg, offset, z);
    OpeningAnswers(cfg, s.dev, z);
    assert ZoneOk(cfg, z, s.dev.zones[z]);
    hide OpenForWrite, Advance, CountWritten, Inv, Openable;
  }

  /** An append is told where the pointer was, whether it is accepted or not; nothing else is reported. */
  lemma WriteReports(cfg: Config, s: State, offset: nat, data: seq<byte>, append: bool, z: nat)
    requires SysOk(cfg, s) && OpOk(cfg, Put(offset, data, append)) && Lies(cfg, offset, z) && cfg.numConventional <= z
    ensures var r := Step(cfg, s, Put(offset, data, append)).1;
      r.data == [] && r.reported == if append then Some(512 * s.dev.zones[z].wp) else None
  {
    LiesIn(cfg, offset, z);
    assert ZoneOk(cfg, z, s.dev.zones[z]);
    hide OpenForWrite, Advance, CountWritten, Inv;
  }

  /** Must another zone make room? */
  predicate Evicts(cfg: Config, d: Device, z: nat)
    requires z < |d.zones|
  {
    (d.zones[z].cond == Empty || d.zones[z].cond == Closed) && d.numOpen >= cfg.maxOpen
  }

  /** The condition in which an accepted payload finds its zone: opened, unless another one made room for it. */
  function Receiving(cfg: Config, d: Device, z: nat): Cond
    requires z < |d.zones|
  {
    var c := d.zones[z].cond;
    if (c == Empty || c == Closed) && d.numOpen < cfg.maxOpen then ImpOpen else c
  }

  /** The victim of an accepted write, or the zone itself if it needs none. */
  predicate MakesRoom(cfg: Config, d: Device, z: nat, v: nat)
    requires z < |d.zones|
  {
    if Evicts(cfg, d, z) then Victim(d.zones, z, v) else v == z
  }

  /** Opening for a write that is granted. */
  lemma OpeningGranted(cfg: Config, d: Device, z: nat) returns (v: nat)
    requires Inv(cfg, d, Leaked(d)) && z < |d.zones| && OpenForWrite(cfg, d, z).1 == Ok
    ensures MakesRoom(cfg, d, z, v) && v < |d.zones| && (Evicts(cfg, d, z) ==> v != z)
    ensures var o, c := OpenForWrite(cfg, d, z).0, d.zones[z].cond; var e := Evicts(cfg, d, z);
      var gain := (if Receiving(cfg, d, z) != c then 1 else 0) - if e then 1 else 0;
      && o.zones == (if e then d.zones[v := d.zones[v].(cond := Closed)] else d.zones[z := d.zones[z].(cond := Receiving(cfg, d, z))])
      && o.numOpen == d.numOpen + gain
      && o.numImpOpen == d.numImpOpen + gain
      && o.numActive == d.numActive + Slot(c) && o.stats == d.stats
  {
    v := z;
    if Evicts(cfg, d, z) {
      v := Chosen(cfg, d, z);
    }
    assert d.zones[z := d.zones[z]] == d.zones;
    hide Victim, Inv, FirstImpOpen;
  }

  /** The payload ends where the zone ends. */
  predicate Fills(zone: Zone, n: nat) {
    zone.wp + n / 512 == zone.start + zone.capacity
  }

  /** Moving the pointer over an accepted payload. */
  lemma AdvanceSpelled(d: Device, z: nat, n: nat)
    requires z < |d.zones| && d.zones[z].len == d.zones[z].capacity && d.zones[z].cond != NotWp
    ensures var d', a := Advance(d, z, n), d.zones[z]; var f := Fills(a, n);
      && d'.zones == d.zones[z := a.(wp := a.wp + n / 512, cond := if f then Full else a.cond)] && d'.stats == d.stats
      && d'.numOpen == d.numOpen - (if f && (a.cond == ImpOpen || a.cond == ExpOpen) then 1 else 0)
      && d'.numImpOpen == d.numImpOpen - (if f && a.cond == ImpOpen then 1 else 0)
      && d'.numActive == d.numActive - (if f && (a.cond == ImpOpen || a.cond == ExpOpen || a.cond == Closed) then 1 else 0)
  {
  }

  /** What an accepted write makes of the device, in one line. */
  lemma AcceptedForm(cfg: Config, d: Device, offset: nat, n: nat, append: bool, z: nat)
    requires Inv(cfg, d, Leaked(d)) && Lies(cfg, offset, z) && cfg.numConventional <= z && ZoneNumber(cfg, offset) == z
    requires WriteCommon(cfg, d, offset, n, append).status == Ok
    ensures var r, o := WriteCommon(cfg, d, offset, n, append), OpenForWrite(cfg, d, z);
      && o.1 == Ok && |o.0.zones| == |d.zones| && |Advance(o.0, z, n).stats| == |d.stats|
      && r.dev == CountWritten(Advance(o.0, z, n), z, n) && r.rawAt == Some(512 * d.zones[z].wp)
  {
    assert ZoneOk(cfg, z, d.zones[z]);
    OpenForWriteInv(cfg, d, z, Leaked(d));
    OpenLockedFrame(cfg, d, z, false);
    AdvanceStats(OpenForWrite(cfg, d, z).0, z, n);
    hide OpenForWrite, Advance, CountWritten, Inv;
  }

  lemma WriteForm(cfg: Config, s: State, offset: nat, data: seq<byte>, append: bool, z: nat)
    requires SysOk(cfg, s) && OpOk(cfg, Put(offset, data, append)) && Lies(cfg, offset, z) && cfg.numConventional <= z
    requires Step(cfg, s, Put(offset, data, append)).1.status == Ok
    ensures var at, o := 512 * s.dev.zones[z].wp, OpenForWrite(cfg, s.dev, z);
      && o.1 == Ok && at + |data| <= |s.disk| && |o.0.zones| == |s.dev.zones| && |Advance(o.0, z, |data|).stats| == |s.dev.stats|
      && Step(cfg, s, Put(offset, data, append)).0 == State(CountWritten(Advance(o.0, z, |data|), z, |data|), Splice(s.disk, at, data))
  {
    hide OpenForWrite, Advance, CountWritten, Inv, Splice, WriteCommon;
    LiesIn(cfg, offset, z);
    ZoneAt(cfg, s.dev, z, Leaked(s.dev));
    var r := WriteResultOf(cfg, s, offset, data, append);
    AcceptedForm(cfg, s.dev, offset, |data|, append, z);
  }

  /** d' is d after n bytes were accepted by zone z, v making room if need be. */
  predicate Takes(cfg: Config, d: Device, d': Device, z: nat, n: nat, v: nat)
    requires z < |d.zones| && z < |d.stats| && v < |d.zones|
  {
    var a, t := d.zones[z], d.stats[z];
    var e, f, c := Evicts(cfg, d, z), Fills(a, n), Receiving(cfg, d, z);
    var gain := (if c != a.cond then 1 else 0) - if e then 1 else 0;
    && d'.zones == (if e then d.zones[v := d.zones[v].(cond := Closed)] else d.zones)
                   [z := a.(wp := a.wp + n / 512, cond := if f then Full else c)]
    && d'.numOpen == d.numOpen + gain - (if f && (c == ImpOpen || c == ExpOpen) then 1 else 0)
    && d'.numImpOpen == d.numImpOpen + gain - (if f && c == ImpOpen then 1 else 0)
    && d'.numActive == d.numActive + Slot(a.cond) - (if f && (c == ImpOpen || c == ExpOpen || c == Closed) then 1 else 0)
    && d'.stats == d.stats[z := t.(written := t.written + n)]
  }

  lemma DeviceTakes(cfg: Config, d: Device, z: nat, n: nat) returns (v: nat)
    requires Inv(cfg, d, Leaked(d)) && cfg.numConventional <= z < |d.zones| && OpenForWrite(cfg, d, z).1 == Ok
    ensures MakesRoom(cfg, d, z, v) && v < |d.zones| && z < |d.stats|
    ensures var o := OpenForWrite(cfg, d, z).0;
      && |o.zones| == |d.zones| && |Advance(o, z, n).stats| == |d.stats|
      && Takes(cfg, d, CountWritten(Advance(o, z, n), z, n), z, n, v)
  {
    hide OpenForWrite, Advance, Victim, CountersOk;
    v := OpeningGranted(cfg, d, z);
    assert ZoneOk(cfg, z, d.zones[z]);
    AdvanceSpelled(OpenForWrite(cfg, d, z).0, z, n);
    Overwritten(d.zones, z, d.zones[z].(cond := Receiving(cfg, d, z)), Advance(OpenForWrite(cfg, d, z).0, z, n).zones[z]);
  }

  lemma Overwritten(zones: seq<Zone>, z: nat, a: Zone, b: Zone)
    requires z < |zones|
    ensures zones[z := a][z := b] == zones[z := b]
  {
  }

  /**
   * An accepted write or append: its bytes go to the old pointer, which moves past them; its zone is
   * open unless another one made room for it, and full if they fill it; the counters follow.
   */
  lemma WriteDoes(cfg: Config, s: State, offset: nat, data: seq<byte>, append: bool, z: nat) returns (v: nat)
    requires SysOk(cfg, s) && OpOk(cfg, Put(offset, data, append)) && Lies(cfg, offset, z) && cfg.numConventional <= z
    requires Step(cfg, s, Put(offset, data, append)).1.status == Ok
    ensures MakesRoom(cfg, s.dev, z, v) && v < |s.dev.zones|
    ensures var s', at := Step(cfg, s, Put(offset, data, append)).0, 512 * s.dev.zones[z].wp;
      && Takes(cfg, s.dev, s'.dev, z, |data|, v)
      && at + |data| <= |s.disk| && s'.disk == s.disk[..at] + data + s.disk[at + |data|..]
  {
    hide Splice, OpenForWrite, Advance, Inv, OpOk, Step, Takes, MakesRoom, CountWritten;
    WriteForm(cfg, s, offset, data, append, z);
    SpliceIs(s.disk, 512 * s.dev.zones[z].wp, data);
    v := DeviceTakes(cfg, s.dev, z, |data|);
  }

  // ---------------------------------------------------------------------------------------------
  // What no operation on other zones changes

  /** A zone the user opened stays open whatever is done to other zones. */
  lemma ExplicitStays(cfg: Config, s: State, op: Op, y: nat)
    requires SysOk(cfg, s) && OpOk(cfg, op) && op != ResetAllOp && y < cfg.numZones && !Lies(cfg, op.offset, y)
    requires s.dev.zones[y].cond == ExpOpen
    ensures |Step(cfg, s, op).0.dev.zones| == cfg.numZones && Step(cfg, s, op).0.dev.zones[y] == s.dev.zones[y]
  {
    NotThere(cfg, op.offset, y);
    StepOthers(cfg, s, op, y);
  }

  lemma NotThere(cfg: Config, offset: nat, y: nat)
    requires ConfigOk(cfg) && y < cfg.numZones && !Lies(cfg, offset, y)
    ensures ZoneNumber(cfg, offset) != y
  {
    DivBounds(offset, Bytes(cfg.zoneSectors));
    assert 512 * cfg.zoneSectors * y == y * Bytes(cfg.zoneSectors);
    assert 512 * cfg.zoneSectors * (y + 1) == y * Bytes(cfg.zoneSectors) + Bytes(cfg.zoneSectors);
  }

  /** What an operation adds to the statistics of zone y. */
  function Adds(cfg: Config, s: State, op: Op, y: nat, accepted: bool): Stat
    requires y < |s.dev.zones|
  {
    match op
    case ReadOp(o, n) => Stat(0, if Lies(cfg, o, y) then n else 0, 0, 0)
    case WriteOp(o, data) => Stat(if Lies(cfg, o, y) && accepted then |data| else 0, 0, 0, 0)
    case AppendOp(o, data) => Stat(if Lies(cfg, o, y) && accepted then |data| else 0, 0, 0, 0)
    case ResetOp(o) =>
      var zone := s.dev.zones[y];
      if Lies(cfg, o, y) && zone.start <= zone.wp then Stat(0, 0, 1, 512 * (zone.wp - zone.start)) else Stat(0, 0, 0, 0)
    case _ => Stat(0, 0, 0, 0)
  }

  /**
   * The statistics: reads count what was asked for, writes and appends what was accepted, resets
   * themselves and what they find below the pointer, each for its own zone; nothing else counts.
   */
  lemma StatsLaw(cfg: Config, s: State, op: Op, y: nat)
    requires SysOk(cfg, s) && OpOk(cfg, op) && y < cfg.numZones
    ensures var (s', r) := Step(cfg, s, op); var t, more := s.dev.stats[y], Adds(cfg, s, op, y, r.status == Ok);
      && |s'.dev.stats| == cfg.numZones
      && s'.dev.stats[y] == Stat(t.written + more.written, t.read + more.read, t.resetCount + more.resetCount,
                                 t.discardCount + more.discardCount)
  {
    StepInv(cfg, s, op);
    if op == ResetAllOp {
      ResetAllLaw(cfg, s);
    } else if Lies(cfg, op.offset, y) {
      StatsHere(cfg, s, op, y);
    } else {
      NotThere(cfg, op.offset, y);
      StepOthers(cfg, s, op, y);
    }
  }

  lemma StatsHere(cfg: Config, s: State, op: Op, y: nat)
    requires SysOk(cfg, s) && OpOk(cfg, op) && op != ResetAllOp && Lies(cfg, op.offset, y)
    ensures var (s', r) := Step(cfg, s, op); var t, more := s.dev.stats[y], Adds(cfg, s, op, y, r.status == Ok);
      |s'.dev.stats| == cfg.numZones
      && s'.dev.stats[y] == Stat(t.written + more.written, t.read + more.read, t.resetCount + more.resetCount,
                                 t.discardCount + more.discardCount)
  {
    hide Inv, Step, Fits, Openable;
    assert ZoneOk(cfg, y, s.dev.zones[y]) by { ZoneAt(cfg, s.dev, y, Leaked(s.dev)); }
    match op {
      case ReadOp(o, n) => ReadLaw(cfg, s, o, n, y);
      case WriteOp(o, data) => StatsWrite(cfg, s, o, data, false, y);
      case AppendOp(o, data) => StatsWrite(cfg, s, o, data, true, y);
      case OpenOp(o) => OpenAnswers(cfg, s, o, y);
      case CloseOp(o) => CloseLaw(cfg, s, o, y);
      case FinishOp(o) => FinishLaw(cfg, s, o, y);
      case ResetOp(o) => ResetLaw(cfg, s, o, y);
    }
  }

  lemma StatsWrite(cfg: Config, s: State, offset: nat, data: seq<byte>, append: bool, z: nat)
    requires SysOk(cfg, s) && OpOk(cfg, Put(offset, data, append)) && Lies(cfg, offset, z)
    ensures var (s', r) := Step(cfg, s, Put(offset, data, append)); var t := s.dev.stats[z];
      s'.dev.stats == s.dev.stats[z := t.(written := t.written + if r.status == Ok then |data| else 0)]
  {
    hide Inv, Step, Fits, Openable;
    assert s.dev.stats[z := s.dev.stats[z]] == s.dev.stats;
    if z < cfg.numConventional {
      ConventionalLaw(cfg, s, offset, data, append, z);
    } else {
      WriteAnswers(cfg, s, offset, data, append, z);
      if Step(cfg, s, Put(offset, data, append)).1.status == Ok {
        var _ := WriteDoes(cfg, s, offset, data, append, z);
      }
    }
  }
}
