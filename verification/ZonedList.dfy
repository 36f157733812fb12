/** The loop of handle_blk_command_with_datamap_list over the zoned device. */
module ZonedList {
  import opened Memory
  import opened Wrappers
  import opened Zoned
  import opened ZonedRun
  import opened ZonedDevice
  import opened ZonedDispatch

  /** The answer of a dispatch that already made its first call. */
  function AfterFirst(r: (State, Reply), firstCall: bool, reported: Option<nat>): (State, Reply) {
    if firstCall then r else (r.0, Reply(r.1.status, reported, []))
  }

  lemma {:induction false} SegmentedReplies(cfg: Config, s: State, z: nat, offset: nat, pieces: seq<seq<byte>>, append: bool)
    requires SysOk(cfg, s) && SectorPieces(pieces) && Addressed(cfg, z, offset, |Flat(pieces)|)
    ensures Segmented(cfg, s, z, offset, pieces, append).1.data == []
    decreases |pieces|
  {
    hide Step;
    if pieces != [] {
      DispatchFirst(cfg, s, z, offset, pieces, append);
      WriteReplies(cfg, s, offset, pieces[0], append);
    }
  }

  /** Only the first call reports a position; the first failure ends the loop. */
  method ListWrite(disk: ZonedDisk, z: nat, start: nat, pieces: seq<seq<byte>>, append: bool)
    returns (status: Status, userData: Option<nat>)
    requires disk.Valid() && SectorPieces(pieces) && Addressed(disk.cfg, z, start, |Flat(pieces)|)
    modifies disk, disk.zoneInfo, disk.stats, disk.data
    ensures disk.Valid()
    ensures (disk.Abs(), Reply(status, userData, []))
         == Segmented(disk.cfg, old(disk.Abs()), z, start, pieces, append)
  {
    hide Step, SysOk, OpOk, Addressed, SectorPieces, Flat, Segmented;
    ghost var cfg, s0 := disk.cfg, disk.Abs();
    var offset: nat, firstCall := start, true;
    userData := None;
    SegmentedReplies(cfg, s0, z, start, pieces, append);
    assert pieces[0..] == pieces;
    for i := 0 to |pieces|
      invariant disk.Valid() && SectorPieces(pieces[i..]) && Addressed(cfg, z, offset, |Flat(pieces[i..])|)
      invariant firstCall <==> i == 0
      invariant firstCall ==> userData == None
      invariant Segmented(cfg, s0, z, start, pieces, append)
             == AfterFirst(Segmented(cfg, disk.Abs(), z, offset, pieces[i..], append), firstCall, userData)
    {
      ghost var rest := pieces[i..];
      assert rest[0] == pieces[i] && rest[1..] == pieces[i + 1..];
      DispatchFirst(cfg, disk.Abs(), z, offset, rest, append);
      WriteReplies(cfg, disk.Abs(), offset, pieces[i], append);
      var result, position := disk.Write(pieces[i], offset, append);
      if firstCall {
        userData := position;
      }
      if result != Ok {
        return result, userData;
      }
      offset := offset + |pieces[i]|;
      firstCall := false;
    }
    NothingLeft(cfg, disk.Abs(), z, offset, pieces[|pieces|..], append);
    return Ok, userData;
  }

  lemma NothingLeft(cfg: Config, s: State, z: nat, offset: nat, pieces: seq<seq<byte>>, append: bool)
    requires SysOk(cfg, s) && pieces == [] && SectorPieces(pieces) && Addressed(cfg, z, offset, |Flat(pieces)|)
    ensures Segmented(cfg, s, z, offset, pieces, append) == (s, Reply(Ok, None, []))
  {
  }
}
