/** One turn of the library's loop over the zoned RAM disk, on the copying path. */
module ZonedExchange {
  import opened Memory
  import opened Wrappers
  import opened CharDev
  import opened Exchange
  import opened ZonedDevice
  import opened ZonedLaws
  import Z = Zoned
  import R = ZonedRun

  /** blk_status_t is one type on both sides of the device. */
  function Blk(status: Z.Status): (b: BlkStatus)
    ensures (b == OK <==> status == Z.Ok) && (b == IOERR <==> status == Z.IoErr)
    ensures (b == ZoneActiveResource <==> status == Z.ActiveResource) && (b == ZoneOpenResource <==> status == Z.OpenResource)
  {
    match status
    case Ok => OK
    case IoErr => IOERR
    case ActiveResource => ZoneActiveResource
    case OpenResource => ZoneOpenResource
  }

  /** The operation was done: the new state and the answer are those of the zoned device. */
  predicate Did(cfg: Z.Config, s: Z.State, op: Z.Op, s': Z.State, reply: BlkStatus, userData: nat, out: seq<byte>)
  {
    && R.SysOk(cfg, s) && Z.OpOk(cfg, op)
    && var r := R.Step(cfg, s, op).1;
      s' == R.Step(cfg, s, op).0 && reply == Blk(r.status) && out == r.data
      && userData == if r.reported.Some? then r.reported.value else 0
  }

  /** What the block layer guarantees of a request to a zoned disk. */
  predicate Reaches(cfg: Z.Config, op: ReqType, offset: nat, length: nat, data: seq<byte>) {
    && Z.ConfigOk(cfg)
    && (op == Read ==> Z.OpOk(cfg, Z.ReadOp(offset, length))) && (op == Write ==> Z.OpOk(cfg, Z.WriteOp(offset, data)))
    && (op == Append || op == ZoneOpen || op == ZoneClose || op == ZoneFinish || op == ZoneReset ==>
          Z.ZoneNumber(cfg, offset) < cfg.numZones)
  }

  /** The bytes of a request matter only to a write. */
  lemma OnlyWrites(cfg: Z.Config, op: ReqType, offset: nat, length: nat, data: seq<byte>, buffer: seq<byte>)
    requires Reaches(cfg, op, offset, length, data) && (op == Write ==> buffer == data)
    ensures Reaches(cfg, op, offset, length, buffer)
  {
  }

  /** What is done for a request, kind by kind. */
  predicate Handled(cfg: Z.Config, s: Z.State, s': Z.State, op: ReqType, offset: nat, length: nat, data: seq<byte>,
                    reply: BlkStatus, userData: nat, out: seq<byte>)
  {
    && (op == Read ==> Did(cfg, s, Z.ReadOp(offset, length), s', reply, userData, out))
    && (op == Write ==> Did(cfg, s, Z.WriteOp(offset, data), s', reply, userData, out))
    && (op == Append ==> Did(cfg, s, Z.AppendOp(offset, data), s', reply, userData, out))
    && (op == ZoneOpen ==> Did(cfg, s, Z.OpenOp(offset), s', reply, userData, out))
    && (op == ZoneClose ==> Did(cfg, s, Z.CloseOp(offset), s', reply, userData, out))
    && (op == ZoneFinish ==> Did(cfg, s, Z.FinishOp(offset), s', reply, userData, out))
    && (op == ZoneReset ==> Did(cfg, s, Z.ResetOp(offset), s', reply, userData, out))
    && (op == ZoneResetAll ==> Did(cfg, s, Z.ResetAllOp, s', reply, userData, out))
    && (op == Discard || op == Flush ==> s' == s && reply == NOTSUPP && userData == 0 && out == [])
  }

  lemma NoPosition(cfg: Z.Config, s: Z.State, offset: nat, data: seq<byte>)
    requires R.SysOk(cfg, s) && Z.OpOk(cfg, Z.WriteOp(offset, data))
    ensures R.Step(cfg, s, Z.WriteOp(offset, data)).1.reported == None
  {
  }

  /** handle_blk_command with the operations of the zoned disk. */
  method Handle(disk: ZonedDisk, header: Header, buffer: seq<byte>) returns (reply: BlkStatus, userData: nat, out: seq<byte>)
    requires disk.Valid() && Reaches(disk.cfg, header.op, header.offset, header.length, buffer)
    modifies disk, disk.zoneInfo, disk.stats, disk.data
    ensures disk.Valid()
    ensures Handled(disk.cfg, old(disk.Abs()), disk.Abs(), header.op, header.offset, header.length, buffer, reply, userData, out)
  {
    hide R.Step, R.SysOk;
    var status := Z.Ok;
    userData, out := 0, [];
    match header.op {
      case Read =>
        out := disk.Read(header.offset, header.length);
      case Write =>
        var none;
        NoPosition(disk.cfg, disk.Abs(), header.offset, buffer);
        status, none := disk.Write(buffer, header.offset, false);
      case Append =>
        var position;
        status, position := disk.Write(buffer, header.offset, true);
        if position.Some? {
          userData := position.value;
        }
      case ZoneOpen => status := disk.Open(header.offset);
      case ZoneClose => status := disk.Close(header.offset);
      case ZoneFinish => status := disk.Finish(header.offset);
      case ZoneReset => status := disk.Reset(header.offset);
      case ZoneResetAll => status := disk.ResetAllZones();
      case _ =>
        return NOTSUPP, 0, [];
    }
    reply := Blk(status);
  }

  /** The bytes at pos are the payload. */
  predicate Lands(disk: seq<byte>, pos: nat, payload: seq<byte>) {
    pos + |payload| <= |disk| && disk[pos..pos + |payload|] == payload
  }

  /**
   * One turn of handle_requests: the request is done by the zoned device as its kind says, ends once
   * with the device's status, and gets its data; or its payload does not come, the thread gives up,
   * and nothing was done.
   */
  method ServeZoned(conn: Connection, disk: ZonedDisk, sound: bool, ghost payload: seq<byte>)
    returns (ok: bool, ghost userData: nat, ghost out: seq<byte>)
    requires conn.blockDev != null && conn.blockDev.pending != [] && conn.sending == null
    requires Others(conn.waiting, conn.blockDev.pending[0], conn.mem.Length) && conn.mem != disk.data
    requires disk.Valid()
    requires var r := conn.blockDev.pending[0];
      && r.Carries(conn.mem[..], payload) && InBounds(r.vecs, conn.mem.Length) && (r.op == Read ==> Total(r.vecs) == r.length)
      && Reaches(disk.cfg, r.op, r.pos, r.length, payload)
    modifies conn`sending, conn`waiting, conn.blockDev, conn.blockDev.pending[0], conn.waiting, conn.mem
    modifies disk, disk.zoneInfo, disk.stats, disk.data
    ensures disk.Valid() && conn.blockDev.pending == old(conn.blockDev.pending)[1..] && forall q :: q in old(conn.waiting) ==> unchanged(q)
    ensures var r, pos := old(conn.blockDev.pending)[0], old(conn.blockDev.pending[0].pos);
      if ok then
        && conn.waiting == old(conn.waiting) && conn.sending == null && r.ends == old(conn.blockDev.pending[0].ends) + 1
        && Handled(disk.cfg, old(disk.Abs()), disk.Abs(), r.op, pos, r.length, if r.op == Write || r.op == Append then payload else [],
                   r.result, userData, out)
        && r.pos == (if r.op == Append then userData else pos)
        && (r.op == Append && r.result == OK ==> Lands(disk.data[..], r.pos, payload))
        && (r.op == Read && r.result == OK ==> |out| == r.length && conn.mem[..] == Scatter(old(conn.mem[..]), r.vecs, out))
        && (r.op != Read || r.result != OK ==> conn.mem[..] == old(conn.mem[..]))
      else
        && !sound && (r.op == Write || r.op == Append) && disk.Abs() == old(disk.Abs()) && conn.mem[..] == old(conn.mem[..])
        && conn.waiting == old(conn.waiting) + [r] && r.ends == old(conn.blockDev.pending[0].ends)
  {
    hide R.Step, R.SysOk, Scatter, Total, InBounds, Handled, Reaches, Lands, Others, ZonedDisk.Valid, ZonedDisk.Shape;
    var r := conn.blockDev.pending[0];
    ghost var others := conn.waiting;
    NotAmong(others, r, conn.mem.Length);
    var header, buffer;
    ok, header, buffer := Fetch(conn, sound, payload);
    userData, out := 0, [];
    if ok {
      OnlyWrites(disk.cfg, r.op, header.offset, r.length, payload, buffer);
      var reply, position, data := Handle(disk, header, buffer);
      ReadSize(disk.cfg, old(disk.Abs()), disk.Abs(), header, buffer, reply, position, data);
      if r.op == Append && reply == OK {
        AppendedAt(disk.cfg, old(disk.Abs()), disk.Abs(), header.offset, header.length, payload, position, data);
      }
      Answer(conn, r, others, header.id, reply, position, data);
      userData, out := position, data;
    }
  }

  /** A read brings as many bytes as were asked for. */
  lemma ReadSize(cfg: Z.Config, s: Z.State, s': Z.State, header: Header, buffer: seq<byte>, reply: BlkStatus, userData: nat, out: seq<byte>)
    requires Handled(cfg, s, s', header.op, header.offset, header.length, buffer, reply, userData, out)
    ensures header.op == Read ==> |out| == header.length
  {
    hide R.Step, R.SysOk;
    if header.op == Read {
      NumberLies(cfg, header.offset);
      ReadLaw(cfg, s, header.offset, header.length, Z.ZoneNumber(cfg, header.offset));
    }
  }

  /**
   * An append that succeeds tells the block layer where its payload is: the bytes of the disk at the
   * request's position are those its bios held.
   */
  lemma AppendedAt(cfg: Z.Config, s: Z.State, s': Z.State, offset: nat, length: nat, payload: seq<byte>, userData: nat, out: seq<byte>)
    requires Handled(cfg, s, s', Append, offset, length, payload, OK, userData, out)
    ensures Lands(s'.disk, userData, payload)
  {
    var z := Z.ZoneNumber(cfg, offset);
    NumberLies(cfg, offset);
    if z < cfg.numConventional {
      ConventionalLaw(cfg, s, offset, payload, true, z);
    } else {
      var _ := WriteDoes(cfg, s, offset, payload, true, z);
      WriteReports(cfg, s, offset, payload, true, z);
    }
  }

  lemma NumberLies(cfg: Z.Config, offset: nat)
    requires Z.ConfigOk(cfg) && Z.ZoneNumber(cfg, offset) < cfg.numZones
    ensures Lies(cfg, offset, Z.ZoneNumber(cfg, offset))
  {
    var z := Z.ZoneNumber(cfg, offset);
    if !Lies(cfg, offset, z) {
      NotThere(cfg, offset, z);
    }
  }
}
