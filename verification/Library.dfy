/** The user side of a mapped request: dispatch along the mapping list onto the flat RAM disk. */
module Library {
  import opened Memory
  import opened Layout
  import opened Window
  import opened DataMapping

  datatype Opcode = Read | Write | Other
  datatype Status = Ok | NotSupp

  /** Memory once the first i entries were filled from b. */
  ghost predicate FilledUpTo(m0: seq<byte>, t: Table, es: seq<Entry>, b: seq<byte>, i: nat, m: seq<byte>)
    requires Backed(t, |m0|) && EntriesMapped(t, es) && |b| == ListBytes(es)
  {
    && i <= |es| && EntriesMapped(t, es[..i]) && ListBytes(es[..i]) <= |b|
    && m == StoreEntries(m0, t, es[..i], b[..ListBytes(es[..i])])
  }

  /** The disk once the first i entries were written from pos on. */
  ghost predicate DrainedUpTo(d0: seq<byte>, pos: nat, m: seq<byte>, t: Table, es: seq<Entry>, i: nat, d: seq<byte>)
    requires Backed(t, |m|) && EntriesMapped(t, es) && pos + ListBytes(es) <= |d0|
  {
    && i <= |es| && EntriesMapped(t, es[..i]) && ListBytes(es[..i]) <= ListBytes(es)
    && d == Splice(d0, pos, LoadEntries(m, t, es[..i]))
  }

  lemma DispatchStart(m: seq<byte>, d: seq<byte>, t: Table, pos: nat, es: seq<Entry>, b: seq<byte>)
    requires Backed(t, |m|) && EntriesMapped(t, es) && |b| == ListBytes(es) && pos + |b| <= |d|
    ensures ListBytes(es[..0]) == 0 && FilledUpTo(m, t, es, b, 0, m) && DrainedUpTo(d, pos, m, t, es, 0, d)
  {
  }

  lemma FilledEnd(m0: seq<byte>, t: Table, es: seq<Entry>, b: seq<byte>, m: seq<byte>)
    requires Backed(t, |m0|) && EntriesMapped(t, es) && |b| == ListBytes(es) && FilledUpTo(m0, t, es, b, |es|, m)
    ensures m == StoreEntries(m0, t, es, b)
  {
    assert es[..|es|] == es && b[..|b|] == b;
  }

  lemma DrainedEnd(d0: seq<byte>, pos: nat, m: seq<byte>, t: Table, es: seq<Entry>, d: seq<byte>)
    requires Backed(t, |m|) && EntriesMapped(t, es) && pos + ListBytes(es) <= |d0| && DrainedUpTo(d0, pos, m, t, es, |es|, d)
    ensures d == Splice(d0, pos, LoadEntries(m, t, es))
  {
    assert es[..|es|] == es;
  }

  lemma FillStep(m0: seq<byte>, t: Table, es: seq<Entry>, b: seq<byte>, i: nat, m: seq<byte>)
    requires Backed(t, |m0|) && EntriesMapped(t, es) && |b| == ListBytes(es) && i < |es|
    requires FilledUpTo(m0, t, es, b, i, m)
    ensures |m| == |m0| && Mapped(t, es[i].addr, es[i].len)
    ensures ListBytes(es[..i]) + es[i].len == ListBytes(es[..i + 1]) <= |b|
    ensures FilledUpTo(m0, t, es, b, i + 1,
                       Store(m, t, es[i].addr, b[ListBytes(es[..i])..ListBytes(es[..i]) + es[i].len]))
  {
    hide Store, StoreEntries, EntriesMapped, ListBytes, Backed;
    EntryRoom(es, t, i);
    StoreOneMore(m0, t, es, i, b);
  }

  lemma DrainStep(d0: seq<byte>, pos: nat, m: seq<byte>, t: Table, es: seq<Entry>, i: nat, d: seq<byte>)
    requires Backed(t, |m|) && EntriesMapped(t, es) && pos + ListBytes(es) <= |d0| && i < |es|
    requires DrainedUpTo(d0, pos, m, t, es, i, d)
    ensures |d| == |d0| && Mapped(t, es[i].addr, es[i].len)
    ensures ListBytes(es[..i]) + es[i].len == ListBytes(es[..i + 1]) <= ListBytes(es)
    ensures DrainedUpTo(d0, pos, m, t, es, i + 1,
                        Splice(d, pos + ListBytes(es[..i]), Load(m, t, es[i].addr, es[i].len)))
  {
    hide Load, LoadEntries, Splice, EntriesMapped, ListBytes, Backed;
    EntryRoom(es, t, i);
    WriteOneMore(d0, pos, m, t, es, i);
  }

  lemma SubSlice(d: seq<byte>, pos: nat, n: nat, c: nat, k: nat)
    requires c + k <= n && pos + n <= |d|
    ensures d[pos..pos + n][c..c + k] == d[pos + c..pos + c + k]
  {
    var e := d[pos..pos + n];
    assert forall j :: 0 <= j < n ==> e[j] == d[pos + j];
  }

  lemma {:induction false} ListBytesUpTo(es: seq<Entry>, i: nat)
    requires i <= |es|
    ensures ListBytes(es[..i]) <= ListBytes(es)
  {
    if i == |es| {
      assert es[..i] == es;
    } else {
      ListBytesUpTo(es[..|es| - 1], i);
      assert es[..|es| - 1][..i] == es[..i];
    }
  }

  lemma SnocSlice<T>(b: seq<T>, k: nat)
    requires k < |b|
    ensures b[..k + 1] == b[..k] + [b[k]]
  {
  }

  lemma ListBytesSnoc(es: seq<Entry>, e: Entry)
    ensures ListBytes(es + [e]) == ListBytes(es) + e.len
  {
    assert (es + [e])[..|es|] == es;
  }

  /** Entry i is mapped, and its bytes fit behind those of its predecessors. */
  lemma EntryRoom(es: seq<Entry>, t: Table, i: nat)
    requires EntriesMapped(t, es) && i < |es|
    ensures es[..i + 1] == es[..i] + [es[i]]
    ensures Mapped(t, es[i].addr, es[i].len) && EntriesMapped(t, es[..i]) && EntriesMapped(t, es[..i + 1])
    ensures ListBytes(es[..i + 1]) == ListBytes(es[..i]) + es[i].len <= ListBytes(es)
  {
    hide ListBytes, Mapped;
    SnocSlice(es, i);
    ListBytesUpTo(es, i + 1);
    ListBytesSnoc(es[..i], es[i]);
  }

  lemma StoreOneMore(m: seq<byte>, t: Table, es: seq<Entry>, i: nat, b: seq<byte>)
    requires Backed(t, |m|) && EntriesMapped(t, es) && i < |es| && |b| == ListBytes(es)
    ensures EntriesMapped(t, es[..i]) && EntriesMapped(t, es[..i + 1]) && Mapped(t, es[i].addr, es[i].len)
    ensures ListBytes(es[..i]) + es[i].len == ListBytes(es[..i + 1]) <= |b|
    ensures StoreEntries(m, t, es[..i + 1], b[..ListBytes(es[..i + 1])])
         == Store(StoreEntries(m, t, es[..i], b[..ListBytes(es[..i])]), t, es[i].addr,
                  b[ListBytes(es[..i])..ListBytes(es[..i + 1])])
  {
    hide StoreEntries, Store, EntriesMapped, ListBytes;
    EntryRoom(es, t, i);
    var c, c' := ListBytes(es[..i]), ListBytes(es[..i + 1]);
    assert b[..c'] == b[..c] + b[c..c'];
    StoreEntriesSnoc(m, t, es[..i], es[i], b[..c], b[c..c']);
  }

  lemma WriteOneMore(d: seq<byte>, pos: nat, m: seq<byte>, t: Table, es: seq<Entry>, i: nat)
    requires Backed(t, |m|) && EntriesMapped(t, es) && i < |es| && pos + ListBytes(es) <= |d|
    ensures EntriesMapped(t, es[..i]) && EntriesMapped(t, es[..i + 1]) && Mapped(t, es[i].addr, es[i].len)
    ensures ListBytes(es[..i + 1]) == ListBytes(es[..i]) + es[i].len <= ListBytes(es)
    ensures Splice(d, pos, LoadEntries(m, t, es[..i + 1]))
         == Splice(Splice(d, pos, LoadEntries(m, t, es[..i])), pos + ListBytes(es[..i]), Load(m, t, es[i].addr, es[i].len))
  {
    hide Splice, Load, EntriesMapped, LoadEntries, Backed, ListBytes, Mapped;
    EntryRoom(es, t, i);
    LoadEntriesSnoc(m, t, es[..i], es[i]);
    SpliceJoin(d, pos, LoadEntries(m, t, es[..i]), Load(m, t, es[i].addr, es[i].len));
  }

  lemma LoadEntriesSnoc(m: seq<byte>, t: Table, front: seq<Entry>, e: Entry)
    requires Backed(t, |m|) && EntriesMapped(t, front) && Mapped(t, e.addr, e.len)
    ensures EntriesMapped(t, front + [e])
    ensures LoadEntries(m, t, front + [e]) == LoadEntries(m, t, front) + Load(m, t, e.addr, e.len)
  {
    assert (front + [e])[..|front|] == front;
  }

  lemma LoadByte(m: seq<byte>, t: Table, a: nat, n: nat, k: nat)
    requires Backed(t, |m|) && Mapped(t, a, n) && k < n
    ensures Translate(t, a + k) < |m| && Load(m, t, a, n)[k] == m[Translate(t, a + k)]
  {
  }

  lemma InListPage(base: nat, k: nat)
    requires OffsetOf(base) == 0 && k < PAGE_SIZE && k % 8 == 0
    ensures PageOf(base + k) == PageOf(base) && OffsetOf(base + k) == k
  {
  }

  lemma OneEntry(m: seq<byte>, t: Table, e: Entry, d: seq<byte>, pos: nat)
    requires Backed(t, |m|) && EntriesMapped(t, [e]) && pos + ListBytes([e]) <= |d|
    ensures ListBytes([e]) == e.len && Mapped(t, e.addr, e.len)
    ensures LoadEntries(m, t, [e]) == Load(m, t, e.addr, e.len)
    ensures StoreEntries(m, t, [e], d[pos..pos + e.len]) == Store(m, t, e.addr, d[pos..pos + e.len])
  {
    hide Load, Store;
    assert [e][..0] == [] && [e][0] == e;
    LoadEntriesSnoc(m, t, [], e);
    StoreEntriesSnoc(m, t, [], e, [], d[pos..pos + e.len]);
    assert [] + [e] == [e] && [] + d[pos..pos + e.len] == d[pos..pos + e.len];
    assert [] + Load(m, t, e.addr, e.len) == Load(m, t, e.addr, e.len);
  }

  /** A thread of the user process: its window, and the disk contents it serves requests from. */
  class Process {
    const conn: Connection
    const disk: array<byte>

    constructor (conn: Connection, disk: array<byte>)
      ensures this.conn == conn && this.disk == disk
    {
      this.conn, this.disk := conn, disk;
    }

    function View(): Table
      reads conn.ptes
    {
      Table(conn.vm, conn.ptes[..])
    }

    predicate Ready()
      reads conn.ptes
    {
      conn.Valid() && conn.mem != disk && Backed(View(), conn.mem.Length)
    }

    method StoreByte(a: nat, x: byte)
      requires Ready() && Mapped(View(), a, 1)
      modifies conn.mem
      ensures Translate(View(), a) < conn.mem.Length
      ensures conn.mem[..] == old(conn.mem[..])[Translate(View(), a) := x]
    {
      TranslateBound(View(), a, conn.mem.Length);
      conn.mem[Translate(View(), a)] := x;
    }

    /** ramdisk_read into the window. */
    method ReadInto(a: nat, offset: nat, n: nat)
      requires Ready() && Mapped(View(), a, n) && offset + n <= disk.Length
      modifies conn.mem
      ensures conn.mem[..] == Store(old(conn.mem[..]), View(), a, disk[offset..offset + n])
    {
      ghost var m0 := conn.mem[..];
      ghost var b := disk[offset..offset + n];
      ghost var t := View();
      assert Store(m0, t, a, b[..0]) == m0;
      hide Store, Translate, Backed;
      for k := 0 to n
        invariant conn.mem[..] == Store(m0, t, a, b[..k])
      {
        StoreSnoc(m0, t, a, b[..k], b[k]);
        SnocSlice(b, k);
        StoreByte(a + k, disk[offset + k]);
      }
      assert b[..n] == b;
    }

    /** ramdisk_write out of the window. */
    method WriteFrom(a: nat, offset: nat, n: nat)
      requires Ready() && Mapped(View(), a, n) && offset + n <= disk.Length
      modifies disk
      ensures disk[..] == Splice(old(disk[..]), offset, Load(conn.mem[..], View(), a, n))
    {
      ghost var d0 := disk[..];
      ghost var b := Load(conn.mem[..], View(), a, n);
      for k := 0 to n
        invariant disk[..] == Splice(d0, offset, b[..k])
      {
        hide Splice, Load;
        TranslateBound(View(), a + k, conn.mem.Length);
        LoadByte(conn.mem[..], View(), a, n, k);
        disk[offset + k] := conn.mem[Translate(View(), a + k)];
        SpliceSnoc(d0, offset, b[..k + 1]);
        assert b[..k + 1][..k] == b[..k];
      }
      assert b[..n] == b;
    }

    /** The word at window address a: the window shows the list page, or the zero page behind it. */
    function UserWord(a: nat): nat
      requires Ready() && conn.vm <= a
      reads conn.ptes, conn.words
    {
      var page := PageOf(a - conn.vm);
      if page < conn.ptes.Length && conn.ptes[page] == conn.f.reserved then conn.words[OffsetOf(a - conn.vm) / 8] else 0
    }

    /** The list es is what the user finds at window address a. */
    ghost predicate ListAt(a: nat, es: seq<Entry>)
      reads conn.ptes, conn.words
    {
      && Ready() && conn.vm <= a && OffsetOf(a) == 0 && |es| <= MAX_SEGMENTS
      && PageOf(a - conn.vm) < conn.ptes.Length && conn.ptes[PageOf(a - conn.vm)] == conn.f.reserved
      && (PageOf(a - conn.vm) + 1 < conn.ptes.Length ==> conn.ptes[PageOf(a - conn.vm) + 1] == conn.f.zero)
      && ListIs(conn.words[..LIST_WORDS], es) && conn.words[2 * |es|] == 0
      && forall i :: 0 <= i < |es| ==> 0 < es[i].addr
    }

    /**
     * The user finds every entry, and then a zero address: from the terminator if it fits in the
     * list page, from the zero page behind it when all 256 entries are used.
     */
    lemma UserSeesList(a: nat, es: seq<Entry>, i: nat)
      requires ListAt(a, es) && i <= |es|
      ensures Ready() && conn.vm <= a
      ensures i < |es| ==> UserWord(a + 16 * i) == es[i].addr && UserWord(a + 16 * i + 8) == es[i].len
      ensures UserWord(a + 16 * i) == 0 <==> i == |es|
    {
      var base := a - conn.vm;
      if i < MAX_SEGMENTS {
        InListPage(base, 16 * i);
        InListPage(base, 16 * i + 8);
        if i < |es| {
          assert conn.words[..LIST_WORDS][2 * i] == es[i].addr && conn.words[..LIST_WORDS][2 * i + 1] == es[i].len;
        }
      } else {
        assert PageOf(base + 16 * i) == PageOf(base) + 1;
      }
    }

    lemma ReadyAt(a: nat, es: seq<Entry>)
      requires ListAt(a, es)
      ensures Ready() && conn.vm <= a
    {
    }

    /** handle_blk_command_with_datamap_list over a device that has read and write only. */
    method ListCommand(op: Opcode, a: nat, pos: nat, ghost es: seq<Entry>) returns (status: Status)
      requires ListAt(a, es) && EntriesMapped(View(), es) && pos + ListBytes(es) <= disk.Length
      modifies conn.mem, disk
      ensures status == if es == [] || op == Read || op == Write then Ok else NotSupp
      ensures conn.mem[..] == if op == Read
                              then StoreEntries(old(conn.mem[..]), View(), es, old(disk[pos..pos + ListBytes(es)]))
                              else old(conn.mem[..])
      ensures disk[..] == if op == Write
                          then Splice(old(disk[..]), pos, LoadEntries(old(conn.mem[..]), View(), es))
                          else old(disk[..])
    {
      hide ListAt, FilledUpTo, DrainedUpTo, Backed, UserWord, EntriesMapped, Store, Load, ListBytes, Splice;
      ghost var m0, d0 := conn.mem[..], disk[..];
      ghost var b := disk[pos..pos + ListBytes(es)];
      var offset := pos;
      var i := 0;
      ReadyAt(a, es);
      DispatchStart(m0, d0, View(), pos, es, b);
      while UserWord(a + 16 * i) != 0
        invariant 0 <= i <= |es| && Ready() && conn.vm <= a && ListAt(a, es) && EntriesMapped(View(), es)
        invariant op == Other ==> i == 0
        invariant offset == pos + ListBytes(es[..i])
        invariant if op == Read then FilledUpTo(m0, View(), es, b, i, conn.mem[..]) else conn.mem[..] == m0
        invariant if op == Write then DrainedUpTo(d0, pos, m0, View(), es, i, disk[..]) else disk[..] == d0
        decreases |es| - i
      {
        UserSeesList(a, es, i);
        var dataAddress, segmentSize := UserWord(a + 16 * i), UserWord(a + 16 * i + 8);
        match op {
          case Read =>
            FillStep(m0, View(), es, b, i, conn.mem[..]);
            SubSlice(d0, pos, |b|, ListBytes(es[..i]), segmentSize);
            ReadInto(dataAddress, offset, segmentSize);
          case Write =>
            DrainStep(d0, pos, m0, View(), es, i, disk[..]);
            WriteFrom(dataAddress, offset, segmentSize);
          case Other =>
            return NotSupp;
        }
        offset := offset + segmentSize;
        i := i + 1;
      }
      UserSeesList(a, es, i);
      if op == Read {
        FilledEnd(m0, View(), es, b, conn.mem[..]);
      } else if op == Write {
        DrainedEnd(d0, pos, m0, View(), es, disk[..]);
      }
      return Ok;
    }

    /** handle_blk_command: one call for a simple mapping, the list walk otherwise. */
    method Command(op: Opcode, req: Request, pos: nat, ghost es: seq<Entry>) returns (status: Status)
      requires Ready() && EntriesMapped(View(), es) && pos + ListBytes(es) <= disk.Length
      requires if req.mapType == List then ListAt(req.mapData, es) && 0 < |es|
               else es == [Entry(conn.vm + req.mapData, req.length)]
      modifies conn.mem, disk
      ensures status == if op == Read || op == Write then Ok else NotSupp
      ensures conn.mem[..] == if op == Read
                              then StoreEntries(old(conn.mem[..]), View(), es, old(disk[pos..pos + ListBytes(es)]))
                              else old(conn.mem[..])
      ensures disk[..] == if op == Write
                          then Splice(old(disk[..]), pos, LoadEntries(old(conn.mem[..]), View(), es))
                          else old(disk[..])
    {
      hide ListAt, StoreEntries, LoadEntries, Splice, EntriesMapped, Store, Load, Backed;
      if req.mapType == List {
        status := ListCommand(op, req.mapData, pos, es);
      } else {
        OneEntry(conn.mem[..], View(), es[0], disk[..], pos);
        match op {
          case Read =>
            ReadInto(conn.vm + req.mapData, pos, req.length);
            status := Ok;
          case Write =>
            WriteFrom(conn.vm + req.mapData, pos, req.length);
            status := Ok;
          case Other =>
            status := NotSupp;
        }
      }
    }
  }

  lemma TranslateBound(t: Table, a: nat, n: nat)
    requires Backed(t, n) && t.vm <= a && a - t.vm < |t.pt| * 4096
    ensures Translate(t, a) < n
  {
  }
}
