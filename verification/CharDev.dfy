/**
 * kernel/char_dev.c, the lists of kernel/block_dev.c and kernel/request.h, in the build without
 * CONFIG_BIUS_DATAMAP: requests move from the device's pending list to a connection's waiting list
 * and end, and a write's payload is streamed through `sending`.
 */
module CharDev {
  import opened Memory
  import opened Wrappers
  import opened CopyPath

  const HEADER_SIZE := 56
  const ERESTARTSYS := 512

  /** bius_req_t, but for requests that are not of the block layer. */
  datatype ReqType =
    Read | Write | Discard | Flush | Append | ZoneOpen | ZoneClose | ZoneFinish | ZoneReset | ZoneResetAll

  datatype BlkStatus = OK | IOERR | NOTSUPP | ZoneActiveResource | ZoneOpenResource | Other(code: int)

  /** request_is_write. */
  predicate IsWrite(op: ReqType) {
    op == Write || op == Append
  }

  /** struct bius_k2u_header of a request that is not mapped. */
  datatype Header = Header(id: nat, op: ReqType, offset: nat, length: nat)

  /** struct bius_request; ends counts the calls of on_request_end. */
  class Request {
    const id: nat
    const op: ReqType
    const length: nat
    const vecs: seq<Extent>        // what rq_for_each_segment visits
    var pos: nat
    var bio: seq<Bio>
    var mapData: nat
    var ends: nat
    var result: BlkStatus

    constructor (id: nat, op: ReqType, pos: nat, length: nat, vecs: seq<Extent>, bio: seq<Bio>)
      ensures this.id == id && this.op == op && this.pos == pos && this.length == length && this.vecs == vecs
      ensures this.bio == bio && ends == 0
    {
      this.id, this.op, this.pos, this.length, this.vecs, this.bio := id, op, pos, length, vecs, bio;
      mapData, ends, result := 0, 0, OK;
    }

    /** The request still has to send exactly these bytes. */
    ghost predicate Streams(mem: seq<byte>, payload: seq<byte>)
      reads this
    {
      Holds(mem, bio, payload) && mapData == |payload|
    }

    /** A write as the block layer hands it over: its bios hold `length` bytes. */
    ghost predicate Carries(mem: seq<byte>, payload: seq<byte>)
      reads this
    {
      op == Write || op == Append ==> Holds(mem, bio, payload) && |payload| == length
    }

    /** end_blk_request. */
    method End(status: BlkStatus)
      modifies this`ends, this`result
      ensures ends == old(ends) + 1 && result == status
    {
      ends, result := ends + 1, status;
    }

    /** request_io_done. */
    predicate IoDone()
      reads this
    {
      mapData == 0
    }
  }

  /** The user's iov_iter; a copy may stop short unless the buffer is good. */
  class UserBuffer {
    const good: bool
    var got: seq<byte>
    var header: Option<Header>

    constructor (good: bool)
      ensures this.good == good && got == [] && header == None
    {
      this.good, got, header := good, [], None;
    }

    method Copy(data: seq<byte>) returns (n: nat)
      modifies this`got
      ensures n <= |data| && got == old(got) + data[..n] && (good ==> n == |data|)
    {
      n := |data|;
      if !good {
        n :| 0 <= n <= |data|;
      }
      got := got + data[..n];
    }

    method CopyHeader(h: Header) returns (n: nat)
      modifies this`header
      ensures n <= HEADER_SIZE && (header == if n == HEADER_SIZE then Some(h) else old(header))
      ensures good ==> n == HEADER_SIZE
    {
      n := HEADER_SIZE;
      if !good {
        n :| 0 <= n <= HEADER_SIZE;
      }
      if n == HEADER_SIZE {
        header := Some(h);
      }
    }
  }

  class Device {
    const name: string
    var pending: seq<Request>
    var numConnection: nat

    constructor (name: string)
      ensures this.name == name && pending == [] && numConnection == 0
    {
      this.name, pending, numConnection := name, [], 0;
    }

    /** The tail of bius_queue_rq for a supported operation. */
    method QueueRq(r: Request)
      modifies this`pending
      ensures pending == old(pending) + [r]
    {
      pending := pending + [r];
    }
  }

  lemma NothingHeld(mem: seq<byte>, payload: seq<byte>)
    requires Holds(mem, [], payload)
    ensures payload == []
  {
  }

  lemma SliceSum<T>(s: seq<T>, a: nat, n: nat)
    requires a + n <= |s|
    ensures s[a..][..n] == s[a..a + n] && s[..a] + s[a..a + n] == s[..a + n] && s[a..][n..] == s[a + n..]
  {
  }

  /** One turn of bius_send_data, on values. */
  lemma SendStep(m: seq<byte>, bios: seq<Bio>, payload: seq<byte>, total: nat, n: nat, sent: nat)
    requires total <= |payload| && Holds(m, bios, payload[total..]) && bios != [] && BioOk(bios[0])
    requires sent <= n <= Iovec(bios[0]).len
    ensures var x := Iovec(bios[0]);
      && x.addr + n <= |m| && total + sent <= |payload|
      && payload[..total] + m[x.addr..x.addr + n][..sent] == payload[..total + sent]
      && Holds(m, ChainAdvanced(bios, sent), payload[total + sent..])
  {
    hide Holds, Iovec, Advanced, ChainAdvanced;
    ChainStep(m, bios, payload[total..], n);
    ChainStep(m, bios, payload[total..], sent);
    SliceSum(payload, total, sent);
    SentPart(m, Iovec(bios[0]).addr, n, sent, payload[total..]);
  }

  /** A bio that sent nothing is not exhausted, so the loop breaks instead of spinning. */
  lemma NothingSent(b: Bio)
    requires BioOk(b)
    ensures Advanced(b, 0).size != 0
  {
    RestParts(b, 0);
  }

  /** bius_send_data: as much of the payload as the buffer has room for, from where the last call stopped. */
  method SendData(mem: array<byte>, r: Request, room: nat, to: UserBuffer, ghost payload: seq<byte>) returns (total: nat)
    requires r.Streams(mem[..], payload)
    modifies r`bio, r`mapData, to`got
    ensures total <= room && total <= |payload| && to.got == old(to.got) + payload[..total]
    ensures r.Streams(mem[..], payload[total..])
    ensures to.good ==> total == room || total == |payload|
  {
    hide Holds, Iovec, Advanced, BioOk;
    total := 0;
    if r.bio == [] {
      NothingHeld(mem[..], payload);
      return;
    }
    var remain := room;
    assert payload[0..] == payload && payload[..0] == [];
    while r.mapData > 0 && remain > 0
      invariant total + remain == room && total <= |payload|
      invariant to.got == old(to.got) + payload[..total]
      invariant r.Streams(mem[..], payload[total..])
      decreases r.mapData
    {
      HeadOk(mem[..], r.bio, payload[total..]);
      var x := Iovec(r.bio[0]);
      var n := Min(x.len, remain);
      SendStep(mem[..], r.bio, payload, total, n, n);
      var sent := to.Copy(mem[x.addr..x.addr + n]);
      SendStep(mem[..], r.bio, payload, total, n, sent);
      SeqAssoc(old(to.got), payload[..total], mem[x.addr..x.addr + n][..sent]);
      NothingSent(r.bio[0]);
      remain, total, r.mapData := remain - sent, total + sent, r.mapData - sent;
      var b := Advanced(r.bio[0], sent);
      if b.size == 0 {
        r.bio := r.bio[1..];
      } else {
        r.bio := [b] + r.bio[1..];
        if sent == 0 {
          break;
        }
      }
    }
  }

  lemma HeadOk(mem: seq<byte>, bios: seq<Bio>, payload: seq<byte>)
    requires Holds(mem, bios, payload) && payload != []
    ensures bios != [] && BioOk(bios[0])
  {
  }

  lemma SentPart(m: seq<byte>, a: nat, n: nat, sent: nat, payload: seq<byte>)
    requires a + n <= |m| && sent <= n <= |payload| && payload[..n] == m[a..a + n]
    ensures m[a..a + n][..sent] == payload[..sent]
  {
    assert payload[..n][..sent] == payload[..sent];
  }

  // ---------------------------------------------------------------------------------------------
  // Lists

  /** get_request_by_id, as an index; |list| for NULL. */
  function FirstWithId(list: seq<Request>, id: nat): (k: nat)
    ensures k <= |list| && (k < |list| ==> list[k].id == id) && forall i :: 0 <= i < k ==> list[i].id != id
  {
    if list == [] then 0
    else if list[0].id == id then 0
    else 1 + FirstWithId(list[1..], id)
  }

  method GetRequestById(list: seq<Request>, id: nat) returns (k: nat)
    ensures k == FirstWithId(list, id)
  {
    k := 0;
    assert list[0..] == list;
    while k < |list| && list[k].id != id
      invariant k <= |list| && FirstWithId(list, id) == k + FirstWithId(list[k..], id)
    {
      assert list[k..][1..] == list[k + 1..];
      k := k + 1;
    }
  }

  function Without<T>(list: seq<T>, k: nat): seq<T>
    requires k < |list|
  {
    list[..k] + list[k + 1..]
  }

  /** What a read consumes of the pending list, and where the request is afterwards. */
  class Connection {
    const mem: array<byte>         // the pages of all bios
    var blockDev: Device?
    var waiting: seq<Request>
    var sending: Request?

    constructor (mem: array<byte>)
      ensures this.mem == mem && blockDev == null && waiting == [] && sending == null
    {
      this.mem, blockDev, waiting, sending := mem, null, [], null;
    }

    /** The request a read call works on. */
    function Current(): Request?
      reads this, blockDev
    {
      if sending != null then sending
      else if blockDev != null && blockDev.pending != [] then blockDev.pending[0]
      else null
    }

    /** bius_dev_read while a payload is being streamed. */
    method ReadData(to: UserBuffer, size: nat, ghost payload: seq<byte>) returns (ret: nat)
      requires sending != null && sending.Streams(mem[..], payload)
      modifies `sending, sending`bio, sending`mapData, to`got
      ensures ret <= size && ret <= |payload| && to.got == old(to.got) + payload[..ret]
      ensures to.good ==> ret == size || ret == |payload|
      ensures old(sending).Streams(mem[..], payload[ret..])
      ensures sending == if ret == |payload| then null else old(sending)
    {
      var request := sending;
      ret := SendData(mem, request, size, to, payload);
      if request.IoDone() {
        sending := null;
      }
    }

    /** The section under the pending lock, and what is set up before anything is sent. */
    method TakeFirst(ghost payload: seq<byte>) returns (request: Request)
      requires sending == null && blockDev != null && blockDev.pending != [] && blockDev.pending[0].Carries(mem[..], payload)
      modifies `sending, blockDev`pending, Current()
      ensures request == old(blockDev.pending)[0] && request.ends == old(request.ends) && request.pos == old(request.pos)
      ensures blockDev.pending == old(blockDev.pending)[1..]
      ensures (request.op == Write || request.op == Append) && request.length > 0 ==>
                sending == request && request.Streams(mem[..], payload)
      ensures !(request.op == Write || request.op == Append) || request.length == 0 ==> sending == null
    {
      request := blockDev.pending[0];
      blockDev.pending := blockDev.pending[1..];
      if IsWrite(request.op) && request.length > 0 {
        request.mapData := request.length;
        sending := request;
      }
    }

    /** bius_send_command, and the section under the waiting lock if it succeeds. */
    method SendHeader(request: Request, to: UserBuffer) returns (ret: int)
      modifies `sending, `waiting, request`ends, request`result, to`header
      ensures if 0 < ret then waiting == old(waiting) + [request] && sending == old(sending) && request.ends == old(request.ends)
              else ret == 0 && waiting == old(waiting)
                   && sending == null && request.ends == old(request.ends) + 1 && request.result == IOERR
      ensures ret == HEADER_SIZE ==> to.header == Some(Header(request.id, request.op, request.pos, request.length))
      ensures to.good ==> ret == HEADER_SIZE
    {
      var n := to.CopyHeader(Header(request.id, request.op, request.pos, request.length));
      ret := n;
      if ret <= 0 {
        request.End(IOERR);
        sending := null;
        return;
      }
      waiting := waiting + [request];
    }

    /** bius_dev_read when it starts a new request; a read that keeps waiting has not happened yet. */
    method ReadCommand(to: UserBuffer, size: nat, ghost payload: seq<byte>) returns (ret: int)
      requires sending == null && blockDev != null
      requires blockDev.pending != [] ==> blockDev.pending[0].Carries(mem[..], payload)
      modifies `sending, `waiting, blockDev`pending, Current(), to`header
      ensures blockDev == old(blockDev)
      ensures size < HEADER_SIZE || old(blockDev.pending) == [] ==>
                ret == (if size < HEADER_SIZE then -EINVAL else -ERESTARTSYS) && blockDev.pending == old(blockDev.pending) && waiting == old(waiting)
                     && sending == null
                && to.header == old(to.header) && (old(Current()) != null ==> unchanged(old(Current())))
      ensures size >= HEADER_SIZE && old(blockDev.pending) != [] ==>
                var r := old(blockDev.pending)[0];
                && blockDev.pending == old(blockDev.pending)[1..]
                && if 0 < ret then
                     && waiting == old(waiting) + [r] && r.ends == old(r.ends) && r.pos == old(r.pos)
                     && ((r.op == Write || r.op == Append) && r.length > 0 ==> sending == r && r.Streams(mem[..], payload))
                     && (!(r.op == Write || r.op == Append) || r.length == 0 ==> sending == null)
                     && (ret == HEADER_SIZE ==> to.header == Some(Header(r.id, r.op, r.pos, r.length)))
                   else ret == 0 && waiting == old(waiting) && sending == null && r.ends == old(r.ends) + 1 && r.result == IOERR
      ensures size >= HEADER_SIZE && to.good && old(blockDev.pending) != [] ==> ret == HEADER_SIZE
    {
      if size < HEADER_SIZE {
        return -EINVAL;
      }
      if blockDev.pending == [] {
        return -ERESTARTSYS;
      }
      var request := TakeFirst(payload);
      ret := SendHeader(request, to);
    }

    /** bius_receive_data: the user's bytes go to the segments in order; data is what can be read there. */
    method ReceiveData(request: Request, data: seq<byte>) returns (ret: int)
      requires InBounds(request.vecs, mem.Length)
      modifies mem
      ensures ret == if Total(request.vecs) <= |data| then 0 else -EIO
      ensures ret == 0 ==> mem[..] == Scatter(old(mem[..]), request.vecs, data[..Total(request.vecs)])
      ensures forall a :: 0 <= a < mem.Length && !Covers(request.vecs, a) ==> mem[a] == old(mem[a])
    {
      ghost var m0, xs := mem[..], request.vecs;
      var c := 0;
      assert xs[..|xs|] == xs && data[..0] == [];
      for i := 0 to |request.vecs|
        invariant c == Total(xs[..i]) <= |data| && InBounds(xs[..i], mem.Length)
        invariant mem[..] == Scatter(m0, xs[..i], data[..c])
      {
        hide Scatter, Total;
        var x := request.vecs[i];
        PrefixTotal(xs, i);
        ScatteredOutside(m0, xs, i, data[..c]);
        if |data| < c + x.len {
          CopyFromUser(x.addr, data[c..]);
          return -EIO;
        }
        ScatterMore(m0, xs, i, data, c);
        CopyFromUser(x.addr, data[c..c + x.len]);
        c := c + x.len;
      }
      ScatteredOutside(m0, xs, |xs|, data[..c]);
      return 0;
    }

    method CopyFromUser(addr: nat, data: seq<byte>)
      requires addr + |data| <= mem.Length
      modifies mem
      ensures mem[..] == Splice(old(mem[..]), addr, data)
    {
      forall k | addr <= k < addr + |data| {
        mem[k] := data[k - addr];
      }
    }

    /** The section under the waiting lock: the request named stops waiting, and being sent. */
    method FindReply(id: nat) returns (request: Request?)
      modifies `waiting, `sending
      ensures var k := FirstWithId(old(waiting), id);
        if k == |old(waiting)| then request == null && waiting == old(waiting) && sending == old(sending)
        else request == old(waiting)[k] && waiting == Without(old(waiting), k)
             && sending == if old(sending) == request then null else old(sending)
    {
      var k := GetRequestById(waiting, id);
      if k == |waiting| {
        return null;
      }
      request := waiting[k];
      waiting := Without(waiting, k);
      if request == sending {
        sending := null;
      }
    }

    /** The rest of a reply: the data is delivered and the request ends. */
    method EndReply(request: Request, reply: BlkStatus, userPos: nat, data: seq<byte>) returns (ret: int)
      requires InBounds(request.vecs, mem.Length)
      modifies mem, request
      ensures var failed := reply == OK && request.op == Read && |data| < Total(request.vecs);
        && request.ends == old(request.ends) + 1 && request.result == (if failed then IOERR else reply)
        && ret == (if failed then -EIO else REPLY_SIZE)
        && request.pos == (if request.op == Append && !failed then userPos else old(request.pos))
        && (if reply == OK && request.op == Read then
              (!failed ==> mem[..] == Scatter(old(mem[..]), request.vecs, data[..Total(request.vecs)]))
              && forall a :: 0 <= a < mem.Length && !Covers(request.vecs, a) ==> mem[a] == old(mem[a])
            else mem[..] == old(mem[..]))
    {
      if reply == OK && request.op == Read {
        var error := ReceiveData(request, data);
        if error < 0 {
          request.End(IOERR);
          return error;
        }
      }
      if request.op == Append {
        request.pos := userPos;
      }
      request.End(reply);
      return REPLY_SIZE;
    }

    /** bius_dev_write of a reply on an initialised connection. */
    method Reply(size: nat, id: nat, reply: BlkStatus, userPos: nat, data: seq<byte>) returns (ret: int)
      requires blockDev != null && forall r :: r in waiting ==> InBounds(r.vecs, mem.Length)
      modifies `waiting, `sending, mem, waiting
      ensures size < REPLY_SIZE || FirstWithId(old(waiting), id) == |old(waiting)| ==>
                && ret == -EINVAL && waiting == old(waiting) && sending == old(sending) && mem[..] == old(mem[..])
                && forall r :: r in old(waiting) ==> unchanged(r)
      ensures size >= REPLY_SIZE && FirstWithId(old(waiting), id) < |old(waiting)| ==>
                var k := FirstWithId(old(waiting), id);
                var r, failed := old(waiting)[k], reply == OK && old(waiting)[k].op == Read && |data| < Total(old(waiting)[k].vecs);
                && waiting == Without(old(waiting), k)
                && sending == (if old(sending) == r then null else old(sending))
                && r.ends == old(r.ends) + 1 && r.result == (if failed then IOERR else reply)
                && ret == (if failed then -EIO else REPLY_SIZE)
                && r.pos == (if r.op == Append && !failed then userPos else old(r.pos))
                && (forall q :: q in old(waiting) && q != r ==> unchanged(q))
                && (if reply == OK && r.op == Read then
                      (!failed ==> mem[..] == Scatter(old(mem[..]), r.vecs, data[..Total(r.vecs)]))
                      && forall a :: 0 <= a < mem.Length && !Covers(r.vecs, a) ==> mem[a] == old(mem[a])
                    else mem[..] == old(mem[..]))
    {
      if size < REPLY_SIZE {
        return -EINVAL;
      }
      var request := FindReply(id);
      if request == null {
        return -EINVAL;
      }
      ret := EndReply(request, reply, userPos, data);
    }

    /**
     * handle_initialization, once the device is created or found; finding none is an error. Creating one
     * is taken to succeed: the test for its failure is of an unsigned long and never true, so the code
     * would go on with a device that was never set.
     */
    method Connect(device: Device?) returns (ret: int)
      requires blockDev == null
      modifies `blockDev, device
      ensures device == null ==> ret == -ENOENT && blockDev == null
      ensures device != null ==> ret == REPLY_SIZE && blockDev == device
                                 && device.numConnection == old(device.numConnection) + 1 && device.pending == old(device.pending)
    {
      if device == null {
        return -ENOENT;
      }
      device.numConnection := device.numConnection + 1;
      blockDev := device;
      return REPLY_SIZE;
    }

    /** What waits here ends, and the device counts one connection less; was it the last? */
    method Drop() returns (last: bool)
      requires Distinct(waiting) && (blockDev != null ==> 0 < blockDev.numConnection)
      modifies waiting, blockDev
      ensures forall r :: r in waiting ==> r.ends == old(r.ends) + 1 && r.result == IOERR
      ensures blockDev != null ==> blockDev.numConnection == old(blockDev.numConnection) - 1 && blockDev.pending == old(blockDev.pending)
      ensures last <==> blockDev != null && blockDev.numConnection == 0
    {
      EndAll(waiting);
      last := false;
      if blockDev != null {
        blockDev.numConnection := blockDev.numConnection - 1;
        last := blockDev.numConnection == 0;
      }
    }

    /** bius_dev_release: what waits here ends, and the last connection takes the device with it. */
    method Release(disks: Registry)
      requires disks.Once() && Distinct(waiting) && (blockDev != null ==> 0 < blockDev.numConnection)
      requires var f := Found(disks, blockDev); f != null ==> Distinct(f.pending) && Separate(waiting, f.pending)
      modifies waiting, disks, blockDev, Doomed(disks, blockDev)
      ensures waiting == old(waiting)
      ensures forall r :: r in waiting ==> r.ends == old(r.ends) + 1 && r.result == IOERR
      ensures blockDev != null ==> blockDev.numConnection == old(blockDev.numConnection) - 1 && blockDev.pending == old(blockDev.pending)
      ensures blockDev == null || old(blockDev.numConnection) != 1 ==> disks.list == old(disks.list)
      ensures blockDev != null && old(blockDev.numConnection) == 1 ==>
                var list := old(disks.list); var k := NewestNamed(list, blockDev.name);
                if k == |list| then disks.list == list
                else
                  && disks.list == Without(list, k)
                  && forall r :: r in list[k].pending ==> r.ends == old(r.ends) + 1 && r.result == IOERR
    {
      var last := Drop();
      if last {
        disks.Remove(blockDev.name);
      }
    }
  }

  const REPLY_SIZE := 24
  const ENOENT := 2

  predicate Distinct(rs: seq<Request>) {
    forall i, j :: 0 <= i < j < |rs| ==> rs[i] != rs[j]
  }

  predicate Separate(rs: seq<Request>, qs: seq<Request>) {
    forall r, q :: r in rs && q in qs ==> r != q
  }

  /** Ends every request of a list, without taking it off. */
  method EndAll(list: seq<Request>)
    requires Distinct(list)
    modifies list
    ensures forall r :: r in list ==> r.ends == old(r.ends) + 1 && r.result == IOERR
  {
    for i := 0 to |list|
      invariant forall j :: 0 <= j < i ==> list[j].ends == old(list[j].ends) + 1 && list[j].result == IOERR
      invariant forall j :: i <= j < |list| ==> list[j].ends == old(list[j].ends)
    {
      list[i].End(IOERR);
    }
  }

  // ---------------------------------------------------------------------------------------------
  // all_disk_list

  /** The newest device of that name; |list| if there is none. */
  function NewestNamed(list: seq<Device>, name: string): (k: nat)
    ensures k <= |list| && (k < |list| ==> list[k].name == name)
    ensures if k < |list| then forall i :: k < i < |list| ==> list[i].name != name else forall i :: 0 <= i < |list| ==> list[i].name != name
  {
    if list == [] then 0
    else
      var n := |list| - 1;
      if list[n].name == name then n
      else
        var k := NewestNamed(list[..n], name);
        if k == n then |list| else k
  }

  function PlaceOf(list: seq<Device>, device: Device): (k: nat)
    ensures k <= |list| && (k < |list| ==> list[k] == device) && (k == |list| ==> device !in list)
    ensures forall i :: 0 <= i < k ==> list[i] != device
  {
    if list == [] then 0 else if list[0] == device then 0 else 1 + PlaceOf(list[1..], device)
  }

  lemma OnlyPlace(list: seq<Device>, k: nat)
    requires k < |list| && forall i, j :: 0 <= i < j < |list| ==> list[i] != list[j]
    ensures PlaceOf(list, list[k]) == k
  {
  }

  class Registry {
    var list: seq<Device>

    constructor ()
      ensures list == []
    {
      list := [];
    }

    /** An entry is in a list once. */
    predicate Once()
      reads this
    {
      forall i, j :: 0 <= i < j < |list| ==> list[i] != list[j]
    }

    /** The end of create_block_device. */
    method Add(device: Device)
      modifies this
      ensures list == old(list) + [device]
    {
      list := list + [device];
    }

    /** get_block_device searches from the newest device back. */
    method GetBlockDevice(name: string) returns (device: Device?)
      ensures var k := NewestNamed(list, name); device == if k == |list| then null else list[k]
    {
      var i := |list|;
      assert list[..|list|] == list;
      while i > 0
        invariant 0 <= i <= |list|
        invariant NewestNamed(list, name) == if NewestNamed(list[..i], name) == i then |list| else NewestNamed(list[..i], name)
      {
        assert list[..i][..i - 1] == list[..i - 1];
        if list[i - 1].name == name {
          return list[i - 1];
        }
        i := i - 1;
      }
      return null;
    }

    /** list_del; of a device that is off the list it breaks the list, and that is not followed up. */
    method Unlink(device: Device)
      modifies this
      ensures var k := PlaceOf(old(list), device);
        list == if k == |old(list)| then old(list) else Without(old(list), k)
    {
      var k := PlaceOf(list, device);
      if k < |list| {
        list := Without(list, k);
      }
    }

    /** remove_block_device: the device found by name goes, and its pending requests end. */
    method Remove(name: string)
      requires Once()
      requires var k := NewestNamed(list, name); k < |list| ==> Distinct(list[k].pending)
      modifies this, var k := NewestNamed(list, name); if k < |list| then set r | r in list[k].pending else {}
      ensures var k := NewestNamed(old(list), name);
        if k == |old(list)| then list == old(list)
        else
          && list == Without(old(list), k)
          && forall r :: r in old(list)[k].pending ==> r.ends == old(r.ends) + 1 && r.result == IOERR
    {
      var device := GetBlockDevice(name);
      if device == null {
        return;
      }
      OnlyPlace(list, NewestNamed(list, name));
      Unlink(device);
      EndAll(device.pending);
    }
  }

  /** The device that the last release of a connection to `device` removes. */
  function Found(disks: Registry, device: Device?): Device?
    reads disks, device
  {
    if device == null || device.numConnection != 1 then null
    else
      var k := NewestNamed(disks.list, device.name);
      if k == |disks.list| then null else disks.list[k]
  }

  function Doomed(disks: Registry, device: Device?): set<object>
    reads disks, device, Found(disks, device)
  {
    var f := Found(disks, device);
    if f == null then {} else set r | r in f.pending
  }

  lemma {:induction false} PrefixTotal(xs: seq<Extent>, i: nat)
    requires i < |xs|
    ensures Total(xs[..i + 1]) == Total(xs[..i]) + xs[i].len <= Total(xs)
    decreases |xs|
  {
    assert xs[..i + 1][..i] == xs[..i];
    if i + 1 == |xs| {
      assert xs[..i + 1] == xs;
    } else {
      var front := xs[..|xs| - 1];
      PrefixTotal(front, i);
      assert front[..i + 1] == xs[..i + 1] && front[..i] == xs[..i] && front[i] == xs[i];
    }
  }

  lemma ScatterMore(m: seq<byte>, xs: seq<Extent>, i: nat, data: seq<byte>, c: nat)
    requires i < |xs| && InBounds(xs, |m|) && c == Total(xs[..i]) && c + xs[i].len <= |data|
    ensures InBounds(xs[..i], |m|) && InBounds(xs[..i + 1], |m|) && Total(xs[..i + 1]) == c + xs[i].len
    ensures Scatter(m, xs[..i + 1], data[..c + xs[i].len])
         == Splice(Scatter(m, xs[..i], data[..c]), xs[i].addr, data[c..c + xs[i].len])
  {
    hide Scatter, Total, Splice;
    PrefixTotal(xs, i);
    assert xs[..i + 1] == xs[..i] + [xs[i]];
    assert data[..c + xs[i].len] == data[..c] + data[c..c + xs[i].len];
    ScatterSnoc(m, xs[..i], xs[i], data[..c], data[c..c + xs[i].len]);
  }

  lemma ScatteredOutside(m: seq<byte>, xs: seq<Extent>, i: nat, b: seq<byte>)
    requires i <= |xs| && InBounds(xs, |m|) && InBounds(xs[..i], |m|) && |b| == Total(xs[..i])
    ensures forall a :: 0 <= a < |m| && !Covers(xs, a) ==> Scatter(m, xs[..i], b)[a] == m[a]
  {
    hide Scatter, Total;
    forall a | 0 <= a < |m| && !Covers(xs, a) ensures Scatter(m, xs[..i], b)[a] == m[a] {
      forall j | 0 <= j < |xs[..i]| ensures !Inside(xs[..i][j], a) {
        assert !Inside(xs[j], a);
      }
      ScatterOutside(m, xs[..i], b, a);
    }
  }
}
