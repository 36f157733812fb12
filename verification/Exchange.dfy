/** One thread of library/libbius.c on the copying path: header, payload, backend, reply. */
module Exchange {
  import opened Memory
  import opened CopyPath
  import opened CharDev

  lemma PrefixGrows<T>(p: seq<T>, a: nat, n: nat)
    requires a <= |p| && n <= |p[a..]|
    ensures p[..a] + p[a..][..n] == p[..a + n] && p[a..][n..] == p[a + n..] && a + n <= |p|
  {
  }

  /** Where the stream of a write stands after `done` bytes: at the end, the next read starts a header. */
  ghost predicate InStep(conn: Connection, r: Request, payload: seq<byte>, done: nat)
    reads conn, r
    reads conn.mem
  {
    && done <= |payload|
    && if done < |payload| then conn.sending == r && r.Streams(conn.mem[..], payload[done..]) else conn.sending == null
  }

  /** One read(2) in the middle of a payload. */
  method ReadOn(conn: Connection, r: Request, room: nat, sound: bool, ghost payload: seq<byte>, ghost done: nat) returns (got: seq<byte>)
    requires done < |payload| && InStep(conn, r, payload, done) && 0 < room
    modifies conn`sending, r`bio, r`mapData
    ensures |got| <= room && done + |got| <= |payload| && InStep(conn, r, payload, done + |got|)
    ensures payload[..done] + got == payload[..done + |got|] && (sound ==> 0 < |got|)
  {
    hide Holds;
    var good: bool := *;
    var to := new UserBuffer(good || sound);
    var n := conn.ReadData(to, room, payload[done..]);
    got := to.got;
    assert got == payload[done..][..n];
    PrefixGrows(payload, done, n);
  }

  /**
   * handle_copy_in for a write: read until `length` bytes are there. However the kernel cuts the
   * stream, the buffer is the payload, and `sending` is cleared by the read that completes it and by
   * no earlier one. A read that brings nothing makes the thread give up; if no copy to the user faults
   * (sound), there is none.
   */
  method HandleCopyIn(conn: Connection, header: Header, r: Request, sound: bool, ghost payload: seq<byte>)
    returns (ok: bool, buffer: seq<byte>)
    requires header.length == |payload| && InStep(conn, r, payload, 0)
    modifies conn`sending, r`bio, r`mapData
    ensures |buffer| <= |payload| && InStep(conn, r, payload, |buffer|) && buffer == payload[..|buffer|]
    ensures (ok <==> |buffer| == header.length) && (sound ==> ok)
    ensures ok ==> buffer == payload && conn.sending == null
  {
    hide InStep;
    buffer := [];
    while |buffer| < header.length
      invariant |buffer| <= |payload| && InStep(conn, r, payload, |buffer|) && buffer == payload[..|buffer|]
      decreases header.length - |buffer|
    {
      var got := ReadOn(conn, r, header.length - |buffer|, sound, payload, |buffer|);
      if |got| == 0 {
        return false, buffer;
      }
      buffer := buffer + got;
    }
    AtTheEnd(conn, r, payload);
    assert payload[..|payload|] == payload;
    return true, buffer;
  }

  lemma AtTheEnd(conn: Connection, r: Request, payload: seq<byte>)
    requires InStep(conn, r, payload, |payload|)
    ensures conn.sending == null
  {
  }

  /** examples/ramdisk.c. */
  class Backend {
    const data: array<byte>

    constructor (data: array<byte>)
      ensures this.data == data
    {
      this.data := data;
    }

    method ReadAt(offset: nat, n: nat) returns (out: seq<byte>)
      requires offset + n <= data.Length
      ensures out == data[offset..offset + n]
    {
      out := data[offset..offset + n];
    }

    method WriteAt(payload: seq<byte>, offset: nat)
      requires offset + |payload| <= data.Length
      modifies data
      ensures data[..] == Splice(old(data[..]), offset, payload)
    {
      forall k | offset <= k < offset + |payload| {
        data[k] := payload[k - offset];
      }
    }

    method DiscardAt(offset: nat, n: nat)
      requires offset + n <= data.Length
      modifies data
      ensures data[..] == Splice(old(data[..]), offset, Zeros(n))
    {
      forall k | offset <= k < offset + n {
        data[k] := 0;
      }
    }

    /** handle_blk_command, with the operations this disk has. */
    method Handle(header: Header, buffer: seq<byte>) returns (reply: BlkStatus, out: seq<byte>)
      requires header.op == Read || header.op == Write || header.op == Discard ==> header.offset + header.length <= data.Length
      requires header.op == Write ==> |buffer| == header.length
      modifies data
      ensures reply == if header.op == Read || header.op == Write || header.op == Discard || header.op == Flush then OK else NOTSUPP
      ensures header.op == Read ==> out == old(data[header.offset..header.offset + header.length])
      ensures header.op == Write ==> data[..] == Splice(old(data[..]), header.offset, buffer)
      ensures header.op == Discard ==> data[..] == Splice(old(data[..]), header.offset, Zeros(header.length))
      ensures header.op != Write && header.op != Discard ==> data[..] == old(data[..])
    {
      out := [];
      match header.op {
        case Read =>
          out := ReadAt(header.offset, header.length);
          reply := OK;
        case Write =>
          WriteAt(buffer, header.offset);
          reply := OK;
        case Discard =>
          DiscardAt(header.offset, header.length);
          reply := OK;
        case Flush =>
          reply := OK;
        case _ =>
          reply := NOTSUPP;
      }
    }
  }

  /** A request the block layer queued, in the bounds of the disk and of memory. */
  ghost predicate Sound(r: Request, mem: seq<byte>, disk: nat, payload: seq<byte>)
    reads r
  {
    && r.Carries(mem, payload) && InBounds(r.vecs, |mem|) && (r.op == Read ==> Total(r.vecs) == r.length)
    && (r.op == Read || r.op == Write || r.op == Discard ==> r.pos + r.length <= disk)
  }

  /** What else is waiting on a connection: requests with other ids. */
  predicate Others(waiting: seq<Request>, r: Request, size: nat) {
    FirstWithId(waiting, r.id) == |waiting| && forall q :: q in waiting ==> InBounds(q.vecs, size)
  }

  lemma {:induction false} FoundLast(others: seq<Request>, r: Request)
    requires FirstWithId(others, r.id) == |others|
    ensures FirstWithId(others + [r], r.id) == |others| && Without(others + [r], |others|) == others
  {
    if others != [] {
      FoundLast(others[1..], r);
      assert (others + [r])[1..] == others[1..] + [r];
    }
  }

  lemma NotAmong(others: seq<Request>, r: Request, size: nat)
    requires Others(others, r, size)
    ensures r !in others
  {
  }

  /**
   * read_command and handle_copy_in: the header describes the first pending request, and the buffer is
   * its payload if it is a write or an append. Nothing of the stream is left, so that the next read
   * finds a header; or a read brought nothing and the thread gives up.
   */
  method Fetch(conn: Connection, sound: bool, ghost payload: seq<byte>) returns (ok: bool, header: Header, buffer: seq<byte>)
    requires conn.blockDev != null && conn.blockDev.pending != [] && conn.sending == null
    requires conn.blockDev.pending[0].Carries(conn.mem[..], payload)
    modifies conn`sending, conn`waiting, conn.blockDev`pending, conn.blockDev.pending[0]
    ensures conn.blockDev == old(conn.blockDev) && conn.blockDev.pending == old(conn.blockDev.pending)[1..]
    ensures var r := old(conn.blockDev.pending)[0];
      && conn.waiting == old(conn.waiting) + [r] && header == Header(r.id, r.op, r.pos, r.length)
      && r.ends == old(conn.blockDev.pending[0].ends) && r.pos == old(conn.blockDev.pending[0].pos)
      && (!ok ==> !sound && (r.op == Write || r.op == Append) && r.length > 0)
      && (ok ==> conn.sending == null && buffer == if r.op == Write || r.op == Append then payload else [])
  {
    hide Holds;
    var r := conn.blockDev.pending[0];
    var to := new UserBuffer(true);
    var ret := conn.ReadCommand(to, HEADER_SIZE, payload);
    header := to.header.value;
    ok, buffer := true, [];
    if IsWrite(header.op) {
      assert payload[0..] == payload;
      ok, buffer := HandleCopyIn(conn, header, r, sound, payload);
    }
  }

  /** write_command: the reply ends the request, with its result and its data delivered. */
  method Answer(conn: Connection, r: Request, ghost others: seq<Request>, id: nat, reply: BlkStatus, userData: nat, out: seq<byte>)
    requires conn.blockDev != null && conn.waiting == others + [r] && Others(others, r, conn.mem.Length) && id == r.id
    requires InBounds(r.vecs, conn.mem.Length) && (r.op == Read && reply == OK ==> |out| == Total(r.vecs))
    requires conn.sending != r
    modifies conn`sending, conn`waiting, r, conn.waiting, conn.mem
    ensures conn.waiting == others && conn.sending == old(conn.sending) && forall q :: q in others ==> unchanged(q)
    ensures r.ends == old(r.ends) + 1 && r.result == reply
    ensures r.pos == if r.op == Append then userData else old(r.pos)
    ensures r.op == Read && reply == OK ==> conn.mem[..] == Scatter(old(conn.mem[..]), r.vecs, out)
    ensures r.op != Read || reply != OK ==> conn.mem[..] == old(conn.mem[..])
  {
    hide Scatter, Total, InBounds;
    NotAmong(others, r, conn.mem.Length);
    FoundLast(others, r);
    assert out[..|out|] == out;
    var ret := conn.Reply(REPLY_SIZE, id, reply, userData, out);
    forall q | q in others ensures unchanged(q) {
      assert q in others + [r] && q != r;
    }
  }

  /** One turn of handle_requests, whatever else is waiting on the connection. */
  method ServeOne(conn: Connection, disk: Backend, sound: bool, ghost payload: seq<byte>) returns (ok: bool)
    requires conn.blockDev != null && conn.blockDev.pending != [] && conn.sending == null
    requires Others(conn.waiting, conn.blockDev.pending[0], conn.mem.Length) && conn.mem != disk.data
    requires Sound(conn.blockDev.pending[0], conn.mem[..], disk.data.Length, payload)
    modifies conn`sending, conn`waiting, conn.blockDev, conn.blockDev.pending[0], conn.waiting, conn.mem, disk.data
    ensures forall q :: q in old(conn.waiting) ==> unchanged(q)
    ensures conn.blockDev.pending == old(conn.blockDev.pending)[1..]
    ensures var r, pos := old(conn.blockDev.pending)[0], old(conn.blockDev.pending[0].pos);
      if ok then
        && conn.waiting == old(conn.waiting) && conn.sending == null && r.ends == old(conn.blockDev.pending[0].ends) + 1
        && r.result == (if r.op == Read || r.op == Write || r.op == Discard || r.op == Flush then OK else NOTSUPP)
        && (r.op == Write ==> disk.data[..] == Splice(old(disk.data[..]), pos, payload))
        && (r.op == Discard ==> disk.data[..] == Splice(old(disk.data[..]), pos, Zeros(r.length)))
        && (r.op != Write && r.op != Discard ==> disk.data[..] == old(disk.data[..]))
        && (r.op == Read ==> conn.mem[..] == Scatter(old(conn.mem[..]), r.vecs, old(disk.data[..])[pos..pos + r.length]))
        && (r.op != Read ==> conn.mem[..] == old(conn.mem[..]))
      else
        && !sound && (r.op == Write || r.op == Append) && disk.data[..] == old(disk.data[..]) && conn.mem[..] == old(conn.mem[..])
        && conn.waiting == old(conn.waiting) + [r] && r.ends == old(conn.blockDev.pending[0].ends)
  {
    hide Holds, Splice, Scatter, Total, InBounds, Zeros;
    var r := conn.blockDev.pending[0];
    ghost var others := conn.waiting;
    NotAmong(others, r, conn.mem.Length);
    var header, buffer;
    ok, header, buffer := Fetch(conn, sound, payload);
    if ok {
      var reply, out := disk.Handle(header, buffer);
      Answer(conn, r, others, header.id, reply, 0, out);
    }
  }
}
