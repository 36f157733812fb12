/** A mapped write or append arrives piece by piece: when that equals a single call on the whole payload. */
module ZonedDispatch {
  import opened Memory
  import opened Wrappers
  import opened Zoned
  import opened ZonedInvariant
  import opened ZonedRun
  import opened ZonedLog

  function Flat(pieces: seq<seq<byte>>): seq<byte> {
    if pieces == [] then [] else pieces[0] + Flat(pieces[1..])
  }

  /** The calls of a dispatch are well formed as long as they stay in zone z. */
  predicate Addressed(cfg: Config, z: nat, offset: nat, n: nat) {
    ConfigOk(cfg) && Sequential(cfg, z)
    && Bytes(ZoneStart(cfg, z)) <= offset && offset + n <= Bytes(ZoneStart(cfg, z + 1))
  }

  lemma AddressedZone(cfg: Config, z: nat, offset: nat, n: nat)
    requires Addressed(cfg, z, offset, n) && 0 < n
    ensures ZoneNumber(cfg, offset) == z && InZone(cfg, offset, n)
  {
    OffsetInZone(cfg, offset);
    var y := ZoneNumber(cfg, offset);
    NextZoneStart(cfg, z);
    if y < z {
      NextZoneStart(cfg, y);
      ZoneStartMono(cfg, y + 1, z);
    } else if z < y {
      ZoneStartMono(cfg, z + 1, y);
    }
  }

  predicate SectorPieces(pieces: seq<seq<byte>>) {
    forall i :: 0 <= i < |pieces| ==> 0 < |pieces[i]| && |pieces[i]| % 512 == 0
  }

  lemma {:induction false} FlatSize(pieces: seq<seq<byte>>)
    requires SectorPieces(pieces)
    ensures |Flat(pieces)| % 512 == 0 && (pieces != [] ==> 0 < |Flat(pieces)|)
  {
    if pieces != [] {
      FlatSize(pieces[1..]);
    }
  }

  /** One write or append as an operation. */
  function WriteOf(offset: nat, data: seq<byte>, append: bool): Op {
    if append then AppendOp(offset, data) else WriteOp(offset, data)
  }

  /**
   * handle_blk_command_with_datamap_list over zoned_write or zoned_append_zone: one call per piece,
   * the offset moving along, stopping at the first failure; only the first call reports a position.
   */
  function Segmented(cfg: Config, s: State, z: nat, offset: nat, pieces: seq<seq<byte>>, append: bool): (State, Reply)
    requires SysOk(cfg, s) && SectorPieces(pieces) && Addressed(cfg, z, offset, |Flat(pieces)|)
    decreases |pieces|
  {
    if pieces == [] then (s, Reply(Ok, None, []))
    else
      AddressedZone(cfg, z, offset, |pieces[0]|);
      var op := WriteOf(offset, pieces[0], append);
      StepInv(cfg, s, op);
      var r := Step(cfg, s, op);
      if r.1.status != Ok then r
      else
        var rest := Segmented(cfg, r.0, z, offset + |pieces[0]|, pieces[1..], append);
        (rest.0, Reply(rest.1.status, r.1.reported, []))
  }

  /** The zone is open, or opens without evicting anybody. */
  predicate OpensFreely(cfg: Config, d: Device, z: nat)
    requires z < |d.zones|
  {
    var c := d.zones[z].cond;
    c == ImpOpen || c == ExpOpen
    || (d.numOpen < cfg.maxOpen && (c == Closed || (c == Empty && d.numActive < cfg.maxActive)))
  }

  lemma OpensFreelyOk(cfg: Config, d: Device, z: nat, leaked: int)
    requires Inv(cfg, d, leaked) && z < |d.zones| && OpensFreely(cfg, d, z)
    ensures var o := OpenForWrite(cfg, d, z);
      o.1 == Ok && |o.0.zones| == |d.zones| && o.0.stats == d.stats
      && (o.0.zones[z].cond == ImpOpen || o.0.zones[z].cond == ExpOpen)
      && o.0.zones[z].(cond := d.zones[z].cond) == d.zones[z]
  {
  }

  /** One accepted write in closed form. */
  lemma AcceptedWrite(cfg: Config, d: Device, z: nat, offset: nat, n: nat, append: bool, leaked: int)
    requires Inv(cfg, d, leaked) && Sequential(cfg, z) && ZoneNumber(cfg, offset) == z
    requires WriteFits(d, z, offset, n, append) && OpenForWrite(cfg, d, z).1 == Ok
    ensures var o := OpenForWrite(cfg, d, z).0;
      && |o.zones| == |d.zones| && |Advance(o, z, n).stats| == |d.stats|
      && WriteCommon(cfg, d, offset, n, append)
         == WriteResult(CountWritten(Advance(o, z, n), z, n), Ok,
                        if append then Some(Bytes(d.zones[z].wp)) else None, Some(Bytes(d.zones[z].wp)))
  {
    hide OpenForWrite, Advance, CountersOk;
    assert ZoneOk(cfg, z, d.zones[z]);
    OpenForWriteInv(cfg, d, z, leaked);
    AdvanceStats(OpenForWrite(cfg, d, z).0, z, n);
    ZonesLength(cfg, OpenForWrite(cfg, d, z).0, leaked + LeakCount(LeaksSlot(cfg, d, z)));
  }

  /** Advancing in two steps is advancing at once, statistics included. */
  lemma AdvanceTwice(o: Device, z: nat, n: nat, k: nat)
    requires z < |o.zones| && z < |o.stats| && n % 512 == 0 && k % 512 == 0 && 0 < k
    requires o.zones[z].wp + Sectors(n) + Sectors(k) <= o.zones[z].start + o.zones[z].capacity
    ensures var d1 := CountWritten(Advance(o, z, n), z, n);
      && d1 == CountWritten(SetWp(o, z, o.zones[z].wp + Sectors(n)), z, n)
      && CountWritten(Advance(d1, z, k), z, k) == CountWritten(Advance(o, z, n + k), z, n + k)
  {
    assert Sectors(n + k) == Sectors(n) + Sectors(k) && 0 < Sectors(k);
    var d1 := CountWritten(Advance(o, z, n), z, n);
    var l, r := CountWritten(Advance(d1, z, k), z, k), CountWritten(Advance(o, z, n + k), z, n + k);
    assert l.zones == r.zones;
    assert l.stats == r.stats;
  }

  /** The state right after an accepted write, in closed form. */
  lemma AcceptedStep(cfg: Config, s: State, z: nat, offset: nat, data: seq<byte>, append: bool)
    requires SysOk(cfg, s) && Addressed(cfg, z, offset, |data|) && 0 < |data|
    requires WriteFits(s.dev, z, offset, |data|, append) && OpenForWrite(cfg, s.dev, z).1 == Ok
    ensures OpOk(cfg, WriteOf(offset, data, append))
    ensures var o, at := OpenForWrite(cfg, s.dev, z).0, Bytes(s.dev.zones[z].wp);
      && |o.zones| == |s.dev.zones| && |Advance(o, z, |data|).stats| == |s.dev.stats| && at + |data| <= |s.disk|
      && Step(cfg, s, WriteOf(offset, data, append))
         == (State(CountWritten(Advance(o, z, |data|), z, |data|), Splice(s.disk, at, data)),
             Reply(Ok, if append then Some(at) else None, []))
  {
    hide OpenForWrite, Advance, CountersOk, WriteCommon, Splice;
    AddressedZone(cfg, z, offset, |data|);
    AcceptedWrite(cfg, s.dev, z, offset, |data|, append, Leaked(s.dev));
    var r := WriteResultOf(cfg, s, offset, data, append);
  }

  /** Where an open zone stands after an accepted write that did not fill it. */
  lemma StillOpen(cfg: Config, o: Device, z: nat, n: nat)
    requires z < |o.zones| && z < |o.stats| && cfg.numConventional <= |o.zones|
    requires o.zones[z].cond == ImpOpen || o.zones[z].cond == ExpOpen
    requires o.zones[z].wp + Sectors(n) < o.zones[z].start + o.zones[z].capacity
    ensures var d1 := CountWritten(Advance(o, z, n), z, n);
      && |d1.zones| == |o.zones| && d1.zones[z] == o.zones[z].(wp := o.zones[z].wp + Sectors(n))
      && OpensFreely(cfg, d1, z) && OpenForWrite(cfg, d1, z) == (d1, Ok)
  {
  }

  /** A write that opens freely can be cut anywhere on a sector boundary. */
  lemma WriteSplit(cfg: Config, s: State, z: nat, offset: nat, a: seq<byte>, b: seq<byte>, append: bool)
    requires SysOk(cfg, s) && Addressed(cfg, z, offset, |a| + |b|)
    requires 0 < |a| && |a| % 512 == 0 && 0 < |b| && |b| % 512 == 0
    requires WriteFits(s.dev, z, offset, |a| + |b|, append) && OpensFreely(cfg, s.dev, z)
    ensures OpOk(cfg, WriteOf(offset, a, append)) && OpOk(cfg, WriteOf(offset, a + b, append))
    ensures OpOk(cfg, WriteOf(offset + |a|, b, append))
    ensures var whole, one := Step(cfg, s, WriteOf(offset, a + b, append)), Step(cfg, s, WriteOf(offset, a, append));
      && SysOk(cfg, one.0) && one.1 == whole.1 && whole.1.status == Ok
      && OpensFreely(cfg, one.0.dev, z) && WriteFits(one.0.dev, z, offset + |a|, |b|, append)
      && Step(cfg, one.0, WriteOf(offset + |a|, b, append)).0 == whole.0
      && Step(cfg, one.0, WriteOf(offset + |a|, b, append)).1.status == Ok
  {
    hide OpenForWrite, Advance, Inv, Splice, SetWp, CountWritten, Step, OpensFreely, Addressed, OpOk;
    AddressedParts(cfg, z, offset, |a|, |b|);
    ZoneAt(cfg, s.dev, z, Leaked(s.dev));
    var o, zone := OpenForWrite(cfg, s.dev, z).0, s.dev.zones[z];
    OpensFreelyOk(cfg, s.dev, z, Leaked(s.dev));
    AcceptedStep(cfg, s, z, offset, a, append);
    AcceptedStep(cfg, s, z, offset, a + b, append);
    var one := Step(cfg, s, WriteOf(offset, a, append)).0;
    StepInv(cfg, s, WriteOf(offset, a, append));
    SectorSums(zone.wp, |a|, |b|, zone.start + zone.capacity);
    StillOpen(cfg, o, z, |a|);
    AdvanceTwice(o, z, |a|, |b|);
    AcceptedStep(cfg, one, z, offset + |a|, b, append);
    SpliceJoin(s.disk, Bytes(zone.wp), a, b);
  }

  lemma AddressedParts(cfg: Config, z: nat, offset: nat, n: nat, k: nat)
    requires Addressed(cfg, z, offset, n + k)
    ensures ConfigOk(cfg) && z < cfg.numZones && cfg.numConventional <= cfg.numZones
    ensures Addressed(cfg, z, offset, n) && Addressed(cfg, z, offset + n, k)
  {
  }

  lemma SectorSums(wp: nat, n: nat, k: nat, end: nat)
    requires n % 512 == 0 && k % 512 == 0 && 0 < k && Bytes(wp) + (n + k) <= Bytes(end)
    ensures wp + Sectors(n) + Sectors(k) <= end && wp + Sectors(n) < end
    ensures Bytes(wp + Sectors(n)) == Bytes(wp) + n
  {
  }

  /** The dispatch equals one accepted call on the whole payload. */
  ghost predicate SameAsWhole(cfg: Config, s: State, z: nat, offset: nat, pieces: seq<seq<byte>>, append: bool)
    requires SysOk(cfg, s) && SectorPieces(pieces) && Addressed(cfg, z, offset, |Flat(pieces)|)
  {
    && OpOk(cfg, WriteOf(offset, Flat(pieces), append))
    && Segmented(cfg, s, z, offset, pieces, append) == Step(cfg, s, WriteOf(offset, Flat(pieces), append))
  }

  /** The first call of a dispatch, and what is left to dispatch. */
  lemma DispatchFirst(cfg: Config, s: State, z: nat, offset: nat, pieces: seq<seq<byte>>, append: bool)
    requires SysOk(cfg, s) && SectorPieces(pieces) && pieces != [] && Addressed(cfg, z, offset, |Flat(pieces)|)
    ensures OpOk(cfg, WriteOf(offset, pieces[0], append)) && SysOk(cfg, Step(cfg, s, WriteOf(offset, pieces[0], append)).0)
    ensures SectorPieces(pieces[1..]) && Addressed(cfg, z, offset + |pieces[0]|, |Flat(pieces[1..])|)
    ensures var r := Step(cfg, s, WriteOf(offset, pieces[0], append));
      Segmented(cfg, s, z, offset, pieces, append)
      == if r.1.status != Ok then r
         else var rest := Segmented(cfg, r.0, z, offset + |pieces[0]|, pieces[1..], append);
              (rest.0, Reply(rest.1.status, r.1.reported, []))
  {
    hide Step;
    AddressedZone(cfg, z, offset, |pieces[0]|);
    StepInv(cfg, s, WriteOf(offset, pieces[0], append));
  }

  lemma OneCall(cfg: Config, s: State, z: nat, offset: nat, pieces: seq<seq<byte>>, append: bool)
    requires SysOk(cfg, s) && SectorPieces(pieces) && |pieces| == 1 && Addressed(cfg, z, offset, |Flat(pieces)|)
    ensures SameAsWhole(cfg, s, z, offset, pieces, append)
  {
    hide Step;
    assert pieces[1..] == [] && Flat(pieces) == pieces[0] + [] && pieces[0] + [] == pieces[0];
    DispatchFirst(cfg, s, z, offset, pieces, append);
    WriteReplies(cfg, s, offset, pieces[0], append);
  }

  lemma WriteReplies(cfg: Config, s: State, offset: nat, data: seq<byte>, append: bool)
    requires SysOk(cfg, s) && OpOk(cfg, WriteOf(offset, data, append))
    ensures Step(cfg, s, WriteOf(offset, data, append)).1.data == []
  {
  }

  /**
   * Segmented dispatch equals one call: same device, same bytes, same status and reported position,
   * whenever the payload fits and the zone opens without an eviction.
   */
  lemma {:induction false} SegmentedEqualsWhole(cfg: Config, s: State, z: nat, offset: nat, pieces: seq<seq<byte>>, append: bool)
    requires SysOk(cfg, s) && SectorPieces(pieces) && pieces != [] && Addressed(cfg, z, offset, |Flat(pieces)|)
    requires z < |s.dev.zones|
    requires WriteFits(s.dev, z, offset, |Flat(pieces)|, append) && OpensFreely(cfg, s.dev, z)
    ensures SameAsWhole(cfg, s, z, offset, pieces, append)
    decreases |pieces|
  {
    hide Step, SysOk, OpensFreely, WriteFits, Addressed, OpOk, SameAsWhole, Segmented, SectorPieces, Flat;
    if |pieces| == 1 {
      OneCall(cfg, s, z, offset, pieces, append);
    } else {
      FirstFits(cfg, s, z, offset, pieces, append);
      SegmentedEqualsWhole(cfg, Step(cfg, s, WriteOf(offset, pieces[0], append)).0, z, offset + |pieces[0]|,
                           pieces[1..], append);
      SameAsWholeStep(cfg, s, z, offset, pieces, append);
    }
  }

  lemma FirstFits(cfg: Config, s: State, z: nat, offset: nat, pieces: seq<seq<byte>>, append: bool)
    requires SysOk(cfg, s) && SectorPieces(pieces) && |pieces| > 1 && Addressed(cfg, z, offset, |Flat(pieces)|)
    requires z < |s.dev.zones|
    requires WriteFits(s.dev, z, offset, |Flat(pieces)|, append) && OpensFreely(cfg, s.dev, z)
    ensures OpOk(cfg, WriteOf(offset, pieces[0], append)) && SysOk(cfg, Step(cfg, s, WriteOf(offset, pieces[0], append)).0)
    ensures SectorPieces(pieces[1..]) && Addressed(cfg, z, offset + |pieces[0]|, |Flat(pieces[1..])|)
    ensures var one := Step(cfg, s, WriteOf(offset, pieces[0], append)).0;
      z < |one.dev.zones| && OpensFreely(cfg, one.dev, z)
      && WriteFits(one.dev, z, offset + |pieces[0]|, |Flat(pieces[1..])|, append)
  {
    hide Step, OpensFreely, WriteFits, OpOk, Inv;
    FlatSize(pieces[1..]);
    WriteSplit(cfg, s, z, offset, pieces[0], Flat(pieces[1..]), append);
  }

  lemma SameAsWholeStep(cfg: Config, s: State, z: nat, offset: nat, pieces: seq<seq<byte>>, append: bool)
    requires SysOk(cfg, s) && SectorPieces(pieces) && |pieces| > 1 && Addressed(cfg, z, offset, |Flat(pieces)|)
    requires z < |s.dev.zones|
    requires WriteFits(s.dev, z, offset, |Flat(pieces)|, append) && OpensFreely(cfg, s.dev, z)
    requires OpOk(cfg, WriteOf(offset, pieces[0], append)) && SysOk(cfg, Step(cfg, s, WriteOf(offset, pieces[0], append)).0)
    requires SectorPieces(pieces[1..]) && Addressed(cfg, z, offset + |pieces[0]|, |Flat(pieces[1..])|)
    requires SameAsWhole(cfg, Step(cfg, s, WriteOf(offset, pieces[0], append)).0, z, offset + |pieces[0]|, pieces[1..], append)
    ensures SameAsWhole(cfg, s, z, offset, pieces, append)
  {
    hide Step, SysOk, OpensFreely, WriteFits, Addressed, OpOk, Segmented;
    FlatSize(pieces[1..]);
    WriteSplit(cfg, s, z, offset, pieces[0], Flat(pieces[1..]), append);
    DispatchFirst(cfg, s, z, offset, pieces, append);
    WriteReplies(cfg, s, offset, pieces[0], append);
  }

  // ---------------------------------------------------------------------------------------------
  // What an eviction does to the equality

  /** The whole payload would fill the zone. */
  predicate Fills(d: Device, z: nat, n: nat)
    requires z < |d.zones|
  {
    d.zones[z].wp + Sectors(n) == d.zones[z].start + d.zones[z].capacity
  }

  /** When a call that is accepted as a whole has the same effect piece by piece. */
  predicate SplitsCleanly(cfg: Config, d: Device, z: nat, n: nat)
    requires z < |d.zones|
  {
    OpensFreely(cfg, d, z)
    || (Fills(d, z, n) && (d.zones[z].cond == Closed || d.numActive + 1 < cfg.maxActive))
  }

  /** Opening by eviction leaves the zone itself as it was. */
  lemma EvictedOpen(cfg: Config, d: Device, z: nat, leaked: int)
    requires Inv(cfg, d, leaked) && z < |d.zones| && CanOpen(cfg, d, z) && !OpensFreely(cfg, d, z)
    ensures var o := OpenForWrite(cfg, d, z);
      && o.1 == Ok && |o.0.zones| == |d.zones| && o.0.zones[z] == d.zones[z] && o.0.stats == d.stats
      && (d.zones[z].cond == Closed || d.zones[z].cond == Empty) && o.0.numOpen < cfg.maxOpen
      && o.0.numActive == d.numActive + if d.zones[z].cond == Empty then 1 else 0
  {
    var d1 := if d.zones[z].cond == Empty then d.(numActive := d.numActive + 1) else d;
    var l := if d.zones[z].cond == Empty then leaked + 1 else leaked;
    EvictionSucceeds(cfg, d1, z, l);
  }

  /** A zone that was written without being opened, and how it opens when its turn comes. */
  predicate Unopened(cfg: Config, o: Device, z: nat, n: nat, k: nat) {
    && z < |o.zones| && z < |o.stats| && cfg.numConventional <= |o.zones|
    && n % 512 == 0 && k % 512 == 0 && 0 < k && o.zones[z].len == o.zones[z].capacity
    && o.zones[z].wp + Sectors(n) + Sectors(k) <= o.zones[z].start + o.zones[z].capacity
    && (o.zones[z].cond == Closed || o.zones[z].cond == Empty) && o.numOpen < cfg.maxOpen
  }

  /** The device after a zone, opened late, took what was left of the payload. */
  function Late(o: Device, z: nat, n: nat): Device
    requires z < |o.zones| && z < |o.stats|
  {
    var was := o.zones[z].cond;
    SetCond(CountWritten(SetWp(o, z, o.zones[z].wp + Sectors(n)), z, n), z, ImpOpen)
    .(numOpen := o.numOpen + 1, numImpOpen := o.numImpOpen + 1,
      numActive := o.numActive + if was == Empty then 1 else 0)
  }

  lemma LateForm(cfg: Config, o: Device, z: nat, n: nat, k: nat)
    requires Unopened(cfg, o, z, n, k) && (o.zones[z].cond == Empty ==> o.numActive < cfg.maxActive)
    ensures var d1 := CountWritten(Advance(o, z, n), z, n);
      |d1.zones| == |o.zones| && OpensFreely(cfg, d1, z) && OpenForWrite(cfg, d1, z) == (Late(o, z, n), Ok)
      && d1.zones[z] == o.zones[z].(wp := o.zones[z].wp + Sectors(n))
  {
    AdvanceTwice(o, z, n, k);
  }

  /** Opening late and filling ends like filling without opening. */
  lemma LateFull(cfg: Config, o: Device, z: nat, n: nat, k: nat)
    requires Unopened(cfg, o, z, n, k) && Fills(o, z, n + k)
    ensures |Advance(Late(o, z, n), z, k).stats| == |Advance(o, z, n + k).stats| == |o.stats|
    ensures CountWritten(Advance(Late(o, z, n), z, k), z, k) == CountWritten(Advance(o, z, n + k), z, n + k)
  {
    assert Sectors(n + k) == Sectors(n) + Sectors(k);
    var l, r := Advance(Late(o, z, n), z, k), Advance(o, z, n + k);
    assert l.zones == r.zones;
    assert CountWritten(l, z, k).stats == CountWritten(r, z, n + k).stats;
  }

  /** Opening late without filling leaves the zone open where the single call leaves it unopened. */
  lemma LateShort(cfg: Config, o: Device, z: nat, n: nat, k: nat)
    requires Unopened(cfg, o, z, n, k) && !Fills(o, z, n + k)
    ensures |Advance(Late(o, z, n), z, k).stats| == |Advance(o, z, n + k).stats| == |o.stats|
    ensures CountWritten(Advance(Late(o, z, n), z, k), z, k) != CountWritten(Advance(o, z, n + k), z, n + k)
  {
    assert Sectors(n + k) == Sectors(n) + Sectors(k);
    var l, r := Advance(Late(o, z, n), z, k), Advance(o, z, n + k);
    assert l.zones[z].cond == ImpOpen && r.zones[z].cond == o.zones[z].cond;
  }

  /** With no active slot left the second call is refused. */
  lemma LateStuck(cfg: Config, o: Device, z: nat, n: nat, k: nat)
    requires Unopened(cfg, o, z, n, k) && o.zones[z].cond == Empty && o.numActive >= cfg.maxActive
    ensures var d1 := CountWritten(Advance(o, z, n), z, n);
      |d1.zones| == |o.zones| && OpenForWrite(cfg, d1, z).1 == ActiveResource
      && d1.zones[z] == o.zones[z].(wp := o.zones[z].wp + Sectors(n))
  {
    AdvanceTwice(o, z, n, k);
  }

  lemma EvictedUnopened(cfg: Config, d: Device, z: nat, n: nat, k: nat, leaked: int)
    requires Inv(cfg, d, leaked) && Sequential(cfg, z) && z < |d.zones| && CanOpen(cfg, d, z) && !OpensFreely(cfg, d, z)
    requires n % 512 == 0 && k % 512 == 0 && 0 < k
    requires Bytes(d.zones[z].wp) + (n + k) <= Bytes(d.zones[z].start + d.zones[z].capacity)
    ensures var o := OpenForWrite(cfg, d, z).0;
      && OpenForWrite(cfg, d, z).1 == Ok && Unopened(cfg, o, z, n, k) && o.zones[z] == d.zones[z]
      && o.numActive == d.numActive + (if d.zones[z].cond == Empty then 1 else 0)
  {
    hide CanOpen, OpensFreely, OpenForWrite, CountersOk;
    EvictedOpen(cfg, d, z, leaked);
    ZoneAt(cfg, d, z, leaked);
    SectorSums(d.zones[z].wp, n, k, d.zones[z].start + d.zones[z].capacity);
  }

  /** The second call finds no active slot: the first one's eviction took the last. */
  predicate Stuck(cfg: Config, d: Device, z: nat)
    requires z < |d.zones|
  {
    d.zones[z].cond == Empty && d.numActive + 1 >= cfg.maxActive
  }

  /** What is left of a payload fits behind the part that was accepted. */
  predicate RestFits(cfg: Config, d: Device, z: nat, offset: nat, n: nat, append: bool) {
    z < |d.zones| && cfg.numConventional <= |d.zones| && WriteFits(d, z, offset, n, append)
  }

  /** A call that opened by eviction, cut in two. */
  lemma EvictedFirst(cfg: Config, s: State, z: nat, offset: nat, a: seq<byte>, b: seq<byte>, append: bool)
    requires EvictedWrite(cfg, s, z, offset, a, b, append)
    ensures OpOk(cfg, WriteOf(offset, a, append)) && OpOk(cfg, WriteOf(offset, a + b, append))
    ensures var one, whole := Step(cfg, s, WriteOf(offset, a, append)), Step(cfg, s, WriteOf(offset, a + b, append));
      && SysOk(cfg, one.0) && one.1 == whole.1 && whole.1.status == Ok
      && RestFits(cfg, one.0.dev, z, offset + |a|, |b|, append)
      && (if Stuck(cfg, s.dev, z) then OpenForWrite(cfg, one.0.dev, z).1 != Ok else OpensFreely(cfg, one.0.dev, z))
  {
    hide OpenForWrite, Advance, Inv, Splice, SetWp, CountWritten, Step, OpensFreely, Addressed, OpOk, CanOpen, Unopened;
    AddressedParts(cfg, z, offset, |a|, |b|);
    ZoneAt(cfg, s.dev, z, Leaked(s.dev));
    EvictedUnopened(cfg, s.dev, z, |a|, |b|, Leaked(s.dev));
    AcceptedStep(cfg, s, z, offset, a, append);
    AcceptedStep(cfg, s, z, offset, a + b, append);
    StepInv(cfg, s, WriteOf(offset, a, append));
    var o, zone := OpenForWrite(cfg, s.dev, z).0, s.dev.zones[z];
    SectorSums(zone.wp, |a|, |b|, zone.start + zone.capacity);
    if Stuck(cfg, s.dev, z) {
      LateStuck(cfg, o, z, |a|, |b|);
    } else {
      LateForm(cfg, o, z, |a|, |b|);
    }
  }

  predicate EvictedWrite(cfg: Config, s: State, z: nat, offset: nat, a: seq<byte>, b: seq<byte>, append: bool) {
    && SysOk(cfg, s) && Addressed(cfg, z, offset, |a| + |b|) && z < |s.dev.zones|
    && 0 < |a| && |a| % 512 == 0 && 0 < |b| && |b| % 512 == 0
    && WriteFits(s.dev, z, offset, |a| + |b|, append) && CanOpen(cfg, s.dev, z) && !OpensFreely(cfg, s.dev, z)
  }

  /** When the second call goes through, the two calls end like the single one exactly if the payload fills the zone. */
  lemma EvictedSecond(cfg: Config, s: State, z: nat, offset: nat, a: seq<byte>, b: seq<byte>, append: bool)
    requires EvictedWrite(cfg, s, z, offset, a, b, append) && !Stuck(cfg, s.dev, z)
    ensures OpOk(cfg, WriteOf(offset, a, append)) && OpOk(cfg, WriteOf(offset, a + b, append))
    ensures OpOk(cfg, WriteOf(offset + |a|, b, append)) && SysOk(cfg, Step(cfg, s, WriteOf(offset, a, append)).0)
    ensures var one, whole := Step(cfg, s, WriteOf(offset, a, append)).0, Step(cfg, s, WriteOf(offset, a + b, append)).0;
      var two := Step(cfg, one, WriteOf(offset + |a|, b, append));
      two.1.status == Ok && (two.0 == whole <==> Fills(s.dev, z, |a| + |b|))
  {
    hide OpenForWrite, Advance, Inv, Splice, SetWp, CountWritten, Step, OpensFreely, Addressed, OpOk, CanOpen, Unopened, Late;
    AddressedParts(cfg, z, offset, |a|, |b|);
    ZoneAt(cfg, s.dev, z, Leaked(s.dev));
    EvictedUnopened(cfg, s.dev, z, |a|, |b|, Leaked(s.dev));
    EvictedFirst(cfg, s, z, offset, a, b, append);
    AcceptedStep(cfg, s, z, offset, a, append);
    AcceptedStep(cfg, s, z, offset, a + b, append);
    var o, zone := OpenForWrite(cfg, s.dev, z).0, s.dev.zones[z];
    var one := Step(cfg, s, WriteOf(offset, a, append)).0;
    SectorSums(zone.wp, |a|, |b|, zone.start + zone.capacity);
    LateForm(cfg, o, z, |a|, |b|);
    AcceptedStep(cfg, one, z, offset + |a|, b, append);
    SpliceJoin(s.disk, Bytes(zone.wp), a, b);
    if Fills(s.dev, z, |a| + |b|) {
      LateFull(cfg, o, z, |a|, |b|);
    } else {
      LateShort(cfg, o, z, |a|, |b|);
    }
  }

  /** A call that cannot open its zone, or does not fit, is not accepted. */
  lemma NotAccepted(cfg: Config, s: State, z: nat, offset: nat, data: seq<byte>, append: bool)
    requires SysOk(cfg, s) && Addressed(cfg, z, offset, |data|) && 0 < |data| && z < |s.dev.zones|
    requires WriteFits(s.dev, z, offset, |data|, append) ==> !CanOpen(cfg, s.dev, z)
    ensures OpOk(cfg, WriteOf(offset, data, append)) && Step(cfg, s, WriteOf(offset, data, append)).1.status != Ok
  {
    hide OpenForWrite, Advance, CountersOk, Splice, CanOpen;
    AddressedZone(cfg, z, offset, |data|);
    ZoneAt(cfg, s.dev, z, Leaked(s.dev));
    OpenForWriteOk(cfg, s.dev, z, Leaked(s.dev));
  }

  /** Refused before anything is opened, a call says so and changes nothing. */
  lemma TooLong(cfg: Config, s: State, z: nat, offset: nat, data: seq<byte>, append: bool)
    requires SysOk(cfg, s) && Addressed(cfg, z, offset, |data|) && 0 < |data| && z < |s.dev.zones|
    requires !WriteFits(s.dev, z, offset, |data|, append)
    ensures OpOk(cfg, WriteOf(offset, data, append))
    ensures Step(cfg, s, WriteOf(offset, data, append))
            == (s, Reply(IoErr, if append then Some(Bytes(s.dev.zones[z].wp)) else None, []))
  {
    hide OpenForWrite, Advance, CountersOk, Splice;
    AddressedZone(cfg, z, offset, |data|);
    ZoneAt(cfg, s.dev, z, Leaked(s.dev));
  }

  /** A call that cannot open its zone ends the same whatever the payload. */
  lemma CannotOpen(cfg: Config, s: State, z: nat, offset: nat, a: seq<byte>, whole: seq<byte>, append: bool)
    requires SysOk(cfg, s) && Addressed(cfg, z, offset, |a|) && Addressed(cfg, z, offset, |whole|)
    requires 0 < |a| <= |whole| && z < |s.dev.zones|
    requires WriteFits(s.dev, z, offset, |whole|, append) && !CanOpen(cfg, s.dev, z)
    ensures OpOk(cfg, WriteOf(offset, a, append)) && OpOk(cfg, WriteOf(offset, whole, append))
    ensures Step(cfg, s, WriteOf(offset, a, append)) == Step(cfg, s, WriteOf(offset, whole, append))
    ensures Step(cfg, s, WriteOf(offset, a, append)).1.status != Ok
  {
    hide OpenForWrite, Advance, CountersOk, Splice, CanOpen;
    AddressedZone(cfg, z, offset, |a|);
    AddressedZone(cfg, z, offset, |whole|);
    ZoneAt(cfg, s.dev, z, Leaked(s.dev));
    OpenForWriteOk(cfg, s.dev, z, Leaked(s.dev));
  }

  lemma WriteStepIs(cfg: Config, s: State, offset: nat, data: seq<byte>, append: bool)
    requires SysOk(cfg, s) && OpOk(cfg, WriteOf(offset, data, append)) && ZoneNumber(cfg, offset) < |s.dev.zones|
    requires cfg.numConventional <= |s.dev.zones| == |s.dev.stats|
    ensures var r, c := Step(cfg, s, WriteOf(offset, data, append)), WriteCommon(cfg, s.dev, offset, |data|, append);
      r.0.dev == c.dev && r.1.status == c.status
  {
    hide WriteCommon, Inv, Splice;
  }

  /** A write never moves its zone's pointer back, and moves it when it is accepted. */
  lemma WriteMovesOn(cfg: Config, s: State, z: nat, offset: nat, data: seq<byte>, append: bool)
    requires SysOk(cfg, s) && Addressed(cfg, z, offset, |data|) && 0 < |data| && |data| % 512 == 0
    ensures OpOk(cfg, WriteOf(offset, data, append)) && SysOk(cfg, Step(cfg, s, WriteOf(offset, data, append)).0)
    ensures z < |s.dev.zones| == |Step(cfg, s, WriteOf(offset, data, append)).0.dev.zones|
    ensures var r := Step(cfg, s, WriteOf(offset, data, append));
      && (if r.1.status == Ok then s.dev.zones[z].wp < r.0.dev.zones[z].wp else s.dev.zones[z] == r.0.dev.zones[z])
      && (WriteFits(s.dev, z, offset, |data|, append) && r.1.status != Ok ==> r.1.status != IoErr)
  {
    hide WriteCommon, Inv, Splice, WriteFits, CanOpen, Step;
    AddressedZone(cfg, z, offset, |data|);
    StepInv(cfg, s, WriteOf(offset, data, append));
    ZoneAt(cfg, s.dev, z, Leaked(s.dev));
    WriteStepIs(cfg, s, offset, data, append);
    SequentialWrite(cfg, s.dev, offset, |data|, append, Leaked(s.dev));
    if WriteFits(s.dev, z, offset, |data|, append) {
      WhyRefused(cfg, s.dev, offset, |data|, append, Leaked(s.dev));
    }
  }

  /** A write that fits is only ever refused for want of a slot. */
  lemma WhyRefused(cfg: Config, d: Device, offset: nat, n: nat, append: bool, leaked: int)
    requires Inv(cfg, d, leaked) && Sequential(cfg, ZoneNumber(cfg, offset)) && 0 < n
    requires WriteFits(d, ZoneNumber(cfg, offset), offset, n, append)
    ensures WriteCommon(cfg, d, offset, n, append).status != IoErr
  {
    hide CountersOk, Advance, CloseImpOpen;
    var z := ZoneNumber(cfg, offset);
    ZoneAt(cfg, d, z, leaked);
    OpenForWriteInv(cfg, d, z, leaked);
    OpenForWriteOk(cfg, d, z, leaked);
  }

  lemma {:induction false} DispatchMovesOn(cfg: Config, s: State, z: nat, offset: nat, pieces: seq<seq<byte>>, append: bool)
    requires SysOk(cfg, s) && SectorPieces(pieces) && Addressed(cfg, z, offset, |Flat(pieces)|)
    ensures var r := Segmented(cfg, s, z, offset, pieces, append);
      z < |s.dev.zones| == |r.0.dev.zones| && s.dev.zones[z].wp <= r.0.dev.zones[z].wp
    decreases |pieces|
  {
    hide Step;
    ZoneAt(cfg, s.dev, z, Leaked(s.dev));
    if pieces != [] {
      DispatchFirst(cfg, s, z, offset, pieces, append);
      WriteMovesOn(cfg, s, z, offset, pieces[0], append);
      var one := Step(cfg, s, WriteOf(offset, pieces[0], append));
      if one.1.status == Ok {
        DispatchMovesOn(cfg, one.0, z, offset + |pieces[0]|, pieces[1..], append);
      }
    }
  }

  /** Exactly when a dispatch in pieces has the effect and the answer of one call on the whole payload. */
  predicate SplitsWell(cfg: Config, d: Device, z: nat, offset: nat, first: nat, total: nat, append: bool)
    requires z < |d.zones|
  {
    if first == total then true
    else if WriteFits(d, z, offset, total, append) then CanOpen(cfg, d, z) ==> SplitsCleanly(cfg, d, z, total)
    else !WriteFits(d, z, offset, first, append)
  }

  /** The payload is more than its first piece. */
  lemma FirstOfMany(pieces: seq<seq<byte>>)
    requires SectorPieces(pieces) && pieces != []
    ensures SectorPieces(pieces[1..]) && Flat(pieces) == pieces[0] + Flat(pieces[1..])
    ensures 0 < |pieces[0]| <= |Flat(pieces)| && |pieces[0]| % 512 == 0 && |Flat(pieces[1..])| % 512 == 0
    ensures (|pieces| == 1 <==> |pieces[0]| == |Flat(pieces)|) && (|pieces| > 1 ==> 0 < |Flat(pieces[1..])|)
  {
    FlatSize(pieces[1..]);
  }

  lemma TooLongSplits(cfg: Config, s: State, z: nat, offset: nat, pieces: seq<seq<byte>>, append: bool)
    requires SysOk(cfg, s) && SectorPieces(pieces) && |pieces| > 1 && Addressed(cfg, z, offset, |Flat(pieces)|)
    requires z < |s.dev.zones| && !WriteFits(s.dev, z, offset, |Flat(pieces)|, append)
    ensures SameAsWhole(cfg, s, z, offset, pieces, append) <==> !WriteFits(s.dev, z, offset, |pieces[0]|, append)
  {
    hide Step, SysOk, WriteFits, OpOk, Flat, Segmented;
    FirstOfMany(pieces);
    TooLong(cfg, s, z, offset, Flat(pieces), append);
    DispatchFirst(cfg, s, z, offset, pieces, append);
    WriteMovesOn(cfg, s, z, offset, pieces[0], append);
    var one := Step(cfg, s, WriteOf(offset, pieces[0], append));
    if !WriteFits(s.dev, z, offset, |pieces[0]|, append) {
      TooLong(cfg, s, z, offset, pieces[0], append);
    } else if one.1.status == Ok {
      DispatchMovesOn(cfg, one.0, z, offset + |pieces[0]|, pieces[1..], append);
    }
  }

  lemma EvictedSplits(cfg: Config, s: State, z: nat, offset: nat, pieces: seq<seq<byte>>, append: bool)
    requires SysOk(cfg, s) && SectorPieces(pieces) && |pieces| > 1 && Addressed(cfg, z, offset, |Flat(pieces)|)
    requires z < |s.dev.zones| && EvictedWrite(cfg, s, z, offset, pieces[0], Flat(pieces[1..]), append)
    ensures SameAsWhole(cfg, s, z, offset, pieces, append)
            <==> Fills(s.dev, z, |Flat(pieces)|) && !Stuck(cfg, s.dev, z)
  {
    hide Step, SysOk, WriteFits, OpOk, Flat, Segmented, Fills, Addressed, OpenForWrite, EvictedWrite, SectorPieces;
    FirstOfMany(pieces);
    var a, rest := pieces[0], pieces[1..];
    DispatchFirst(cfg, s, z, offset, pieces, append);
    EvictedFirst(cfg, s, z, offset, a, Flat(rest), append);
    WriteReplies(cfg, s, offset, Flat(pieces), append);
    var one := Step(cfg, s, WriteOf(offset, a, append)).0;
    if Stuck(cfg, s.dev, z) {
      StuckRest(cfg, one, z, offset + |a|, rest, append);
    } else {
      SegmentedEqualsWhole(cfg, one, z, offset + |a|, rest, append);
      EvictedSecond(cfg, s, z, offset, a, Flat(rest), append);
    }
  }

  lemma StuckRest(cfg: Config, s: State, z: nat, offset: nat, pieces: seq<seq<byte>>, append: bool)
    requires SysOk(cfg, s) && SectorPieces(pieces) && pieces != [] && Addressed(cfg, z, offset, |Flat(pieces)|)
    requires z < |s.dev.zones| && cfg.numConventional <= |s.dev.zones| && OpenForWrite(cfg, s.dev, z).1 != Ok
    ensures Segmented(cfg, s, z, offset, pieces, append).1.status != Ok
  {
    hide Step, SysOk, OpOk, OpenForWrite, CanOpen, WriteFits;
    FirstOfMany(pieces);
    DispatchFirst(cfg, s, z, offset, pieces, append);
    CannotOpenIs(cfg, s, z);
    NotAccepted(cfg, s, z, offset, pieces[0], append);
  }

  lemma CannotOpenIs(cfg: Config, s: State, z: nat)
    requires SysOk(cfg, s) && z < |s.dev.zones| && cfg.numConventional <= |s.dev.zones|
    requires OpenForWrite(cfg, s.dev, z).1 != Ok
    ensures !CanOpen(cfg, s.dev, z)
  {
    hide CanOpen, OpenForWrite, CountersOk;
    OpenForWriteOk(cfg, s.dev, z, Leaked(s.dev));
  }

  /**
   * Segmented dispatch equals one call exactly under `SplitsWell`. For a payload that fits and is
   * accepted: the zone opens without evicting anybody, or the payload fills it and, if it was EMPTY,
   * another active slot is free.
   */
  lemma SplitsWellIff(cfg: Config, s: State, z: nat, offset: nat, pieces: seq<seq<byte>>, append: bool)
    requires SysOk(cfg, s) && SectorPieces(pieces) && pieces != [] && Addressed(cfg, z, offset, |Flat(pieces)|)
    requires z < |s.dev.zones|
    ensures SameAsWhole(cfg, s, z, offset, pieces, append)
            <==> SplitsWell(cfg, s.dev, z, offset, |pieces[0]|, |Flat(pieces)|, append)
  {
    hide Step, SysOk, WriteFits, OpOk, Flat, Fills, Addressed, OpenForWrite, SectorPieces, OpensFreely, CanOpen, SameAsWhole, Segmented;
    FirstOfMany(pieces);
    var n := |Flat(pieces)|;
    if |pieces| == 1 {
      OneCall(cfg, s, z, offset, pieces, append);
    } else if !WriteFits(s.dev, z, offset, n, append) {
      TooLongSplits(cfg, s, z, offset, pieces, append);
    } else if !CanOpen(cfg, s.dev, z) {
      UnopenableSplits(cfg, s, z, offset, pieces, append);
    } else if OpensFreely(cfg, s.dev, z) {
      SegmentedEqualsWhole(cfg, s, z, offset, pieces, append);
    } else {
      EvictedSplits(cfg, s, z, offset, pieces, append);
      ClosedOrEmpty(cfg, s, z);
    }
  }

  lemma ClosedOrEmpty(cfg: Config, s: State, z: nat)
    requires SysOk(cfg, s) && z < |s.dev.zones| && CanOpen(cfg, s.dev, z) && !OpensFreely(cfg, s.dev, z)
    ensures s.dev.zones[z].cond == Closed || s.dev.zones[z].cond == Empty
  {
  }

  lemma UnopenableSplits(cfg: Config, s: State, z: nat, offset: nat, pieces: seq<seq<byte>>, append: bool)
    requires SysOk(cfg, s) && SectorPieces(pieces) && |pieces| > 1 && Addressed(cfg, z, offset, |Flat(pieces)|)
    requires z < |s.dev.zones| && WriteFits(s.dev, z, offset, |Flat(pieces)|, append) && !CanOpen(cfg, s.dev, z)
    ensures SameAsWhole(cfg, s, z, offset, pieces, append)
  {
    hide Step, SysOk, WriteFits, OpOk, Flat, CanOpen, Segmented;
    FirstOfMany(pieces);
    AddressedParts(cfg, z, offset, |pieces[0]|, |Flat(pieces[1..])|);
    DispatchFirst(cfg, s, z, offset, pieces, append);
    CannotOpen(cfg, s, z, offset, pieces[0], Flat(pieces), append);
  }

  // ---------------------------------------------------------------------------------------------
  // A reachable dispatch that differs

  /** Two zones of four sectors, one of which may be open. */
  const TIGHT := Config(4, 2, 0, 1, 3)

  const FIRST_APPEND := AppendOp(0, Zeros(512))
  const TWO_SECTORS := [Zeros(512), Zeros(512)]

  lemma TightRun()
    ensures RunOk(TIGHT, [FIRST_APPEND])
    ensures var d := Run(TIGHT, [FIRST_APPEND]).dev;
      && d.numOpen == d.numActive == d.numImpOpen == 1 && |d.zones| == 2 && d.zones[1] == FreshZone(TIGHT, 1)
  {
    var s0 := InitState(TIGHT);
    assert ZoneNumber(TIGHT, 0) == 0;
    assert Run(TIGHT, []) == s0;
    assert [FIRST_APPEND][..0] == [];
    assert Run(TIGHT, [FIRST_APPEND]) == Step(TIGHT, s0, FIRST_APPEND).0;
  }

  lemma TwoSectors()
    ensures SectorPieces(TWO_SECTORS) && |Flat(TWO_SECTORS)| == 1024 && Addressed(TIGHT, 1, 2048, 1024)
  {
    assert Flat(TWO_SECTORS) == Zeros(512) + Flat(TWO_SECTORS[1..]) && Flat(TWO_SECTORS[1..]) == Zeros(512) + Flat([]);
  }

  /**
   * After one append to zone 0, an append of two sectors to zone 1 in two pieces does not end like
   * the one call: the first piece evicts zone 0 and leaves zone 1 EMPTY, so the second one opens it.
   */
  lemma PiecesDoDiffer()
    ensures RunOk(TIGHT, [FIRST_APPEND]) && SectorPieces(TWO_SECTORS) && Addressed(TIGHT, 1, 2048, |Flat(TWO_SECTORS)|)
    ensures !SameAsWhole(TIGHT, Run(TIGHT, [FIRST_APPEND]), 1, 2048, TWO_SECTORS, true)
  {
    hide Run, Flat, SameAsWhole, SysOk;
    TightRun();
    TwoSectors();
    SplitsWellIff(TIGHT, Run(TIGHT, [FIRST_APPEND]), 1, 2048, TWO_SECTORS, true);
  }
}
