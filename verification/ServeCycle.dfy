/** One mapped request from end to end: map, serve, copy in, unmap. */
module ServeCycle {
  import opened Memory
  import opened Layout
  import opened Window
  import opened ZeroCopy
  import opened Replay
  import opened DataMapping
  import opened Transfer
  import opened Accounting
  import opened Library

  /** Whole pages of memory: a page that holds one byte of a piece is there completely. */
  lemma WholePages(ps: seq<Piece>, n: nat, i: nat)
    requires PiecesOk(ps) && InBounds(Homes(ps), n) && n % 4096 == 0 && i < |ps|
    ensures At(ps[i].pfn, PAGE_SIZE) <= n
  {
    assert Homes(ps)[i] == Home(ps[i]);
  }

  /** Every frame the window can show is real memory. */
  lemma FramesBacked(segs: seq<Segment>, f: Frames, m: seq<byte>, i: nat)
    requires RequestOk(segs, f, |m|) && |m| % 4096 == 0 && i < |Pieces(segs)|
    ensures At(WindowFrames(Pieces(segs), f)[i], PAGE_SIZE) <= |m|
  {
    hide Gather;
    var ps := Pieces(segs);
    RequestPieces(segs, f, m);
    FrameAt(ps, f, i);
    WholePages(ps, |m|, i);
  }

  predicate AllZero(pt: seq<nat>, f: Frames) {
    forall i :: 0 <= i < |pt| ==> pt[i] == f.zero
  }

  /** The page table during a request. */
  function Mapping(segs: seq<Segment>, f: Frames, vm: nat, pt0: seq<nat>): (pt: seq<nat>)
    requires SegmentsOk(segs) && |Pieces(segs)| < |pt0|
    ensures |pt| == |pt0|
  {
    var ps := Pieces(segs);
    var tail := if |Entries(ps, vm)| > 1 then [f.reserved] else [];
    WindowFrames(ps, f) + tail + pt0[|ps| + |tail|..]
  }

  lemma MappingBacked(segs: seq<Segment>, f: Frames, vm: nat, pt0: seq<nat>, m: seq<byte>)
    requires RequestOk(segs, f, |m|) && |m| % 4096 == 0 && |Pieces(segs)| < |pt0| && AllZero(pt0, f)
    requires At(f.zero, PAGE_SIZE) <= |m|
    ensures Backed(Table(vm, Mapping(segs, f, vm, pt0)), |m|)
    ensures WindowFrames(Pieces(segs), f) <= Mapping(segs, f, vm, pt0)
  {
    var pt, ps := Mapping(segs, f, vm, pt0), Pieces(segs);
    forall i | 0 <= i < |pt| ensures At(pt[i], PAGE_SIZE) <= |m| {
      if i < |ps| {
        FramesBacked(segs, f, m, i);
      }
    }
  }

  /** Behind a mapped list page comes the zero page. */
  lemma MappingListPage(segs: seq<Segment>, f: Frames, vm: nat, pt0: seq<nat>)
    requires SegmentsOk(segs) && |Pieces(segs)| < |pt0| && AllZero(pt0, f) && |Entries(Pieces(segs), vm)| > 1
    ensures Mapping(segs, f, vm, pt0)[|Pieces(segs)|] == f.reserved
    ensures |Pieces(segs)| + 1 < |pt0| ==> Mapping(segs, f, vm, pt0)[|Pieces(segs)| + 1] == f.zero
  {
  }

  lemma {:induction false} FirstEntry(ps: seq<Piece>, vm: nat)
    requires PiecesOk(ps) && ps != []
    ensures Entries(ps, vm)[0].addr == vm + ps[0].lo
  {
    if |ps| > 1 {
      FirstEntry(ps[..|ps| - 1], vm);
    }
  }

  lemma FirstOffset(vm: nat, p: Piece)
    requires OffsetOf(vm) == 0 && PieceOk(p)
    ensures OffsetOf(vm + p.lo) == p.lo
  {
  }

  lemma OneEntryBytes(es: seq<Entry>)
    requires |es| == 1
    ensures ListBytes(es) == es[0].len
  {
    assert es[..0] == [];
  }

  /** A single entry is found from its offset in the first page and the request length. */
  lemma SingleEntry(segs: seq<Segment>, f: Frames, vm: nat, m: seq<byte>)
    requires RequestOk(segs, f, |m|) && OffsetOf(vm) == 0 && |Entries(Pieces(segs), vm)| == 1
    ensures var e := Entries(Pieces(segs), vm)[0];
            e == Entry(vm + OffsetOf(e.addr), Total(SegExtents(segs)))
  {
    hide Entries, Gather, Clear, Disjoint, InBounds;
    var ps := Pieces(segs);
    var es := Entries(ps, vm);
    assert ps != [] by { assert |es| <= |ps|; }
    FirstEntry(ps, vm);
    FirstOffset(vm, ps[0]);
    EntryBytes(segs, f, vm, m);
    OneEntryBytes(es);
  }

  lemma EntryBytes(segs: seq<Segment>, f: Frames, vm: nat, m: seq<byte>)
    requires RequestOk(segs, f, |m|)
    ensures ListBytes(Entries(Pieces(segs), vm)) == Total(SegExtents(segs))
    ensures segs != [] ==> Entries(Pieces(segs), vm) != []
  {
    var ps := Pieces(segs);
    PayloadLength(m, segs, f);
    ListBytesIsTotal(ps, vm);
    TargetsTotal(ps, WindowFrames(ps, f));
    if segs != [] {
      assert SegPieces(segs[|segs| - 1]) != [];
      assert ps != [];
    }
  }

  lemma EntriesPositive(segs: seq<Segment>, vm: nat)
    requires SegmentsOk(segs) && 0 < vm
    ensures forall i :: 0 <= i < |Entries(Pieces(segs), vm)| ==>
              0 < Entries(Pieces(segs), vm)[i].addr && 0 < Entries(Pieces(segs), vm)[i].len
  {
    EntriesOrdered(Pieces(segs), vm);
  }

  /** The reserve list the mapper wrote is good for exactly the copies copy-in makes. */
  lemma ReserveRunnable(segs: seq<Segment>, f: Frames, m: seq<byte>, ws: seq<nat>, homes: seq<nat>)
    requires RequestOk(segs, f, |m|) && |m| % 4096 == 0
    requires ReserveIs(ws, Bounced(Pieces(segs))) && homes == ws[LIST_WORDS + FIRST_BOUNCE..]
    ensures HomePages(Bounced(Pieces(segs))) <= homes && Runnable(|Bounced(Pieces(segs))|, homes, f, |m|)
  {
    hide Gather;
    var ps := Pieces(segs);
    var bs := Bounced(ps);
    RequestPieces(segs, f, m);
    forall k | 0 <= k < |bs| ensures homes[k] == At(bs[k].pfn, 0) && homes[k] + PAGE_SIZE <= |m| {
      assert homes[k] == ws[LIST_WORDS + FIRST_BOUNCE + k];
      var i := BounceIndex(ps, k);
      WholePages(ps, |m|, i);
    }
  }

  /** What the cycle relies on while the window is mapped. */
  ghost predicate InFlight(p: Process, o: Before, segs: seq<Segment>, req: Request)
    requires SegmentsOk(segs)
    reads req, p.conn.ptes, p.conn.words, p.conn.mem
  {
    var es := Entries(Pieces(segs), p.conn.vm);
    && p.Ready() && es != [] && |Pieces(segs)| < |o.pt|
    && p.conn.ptes[..] == Mapping(segs, o.f, o.vm, o.pt)
    && WindowFrames(Pieces(segs), o.f) <= p.View().pt && EntriesMapped(p.View(), es)
    && ListBytes(es) == Total(SegExtents(segs))
    && (if req.mapType == List then p.ListAt(req.mapData, es) && Walks(p.conn.words[..], es)
        else req.mapType == Simple && es == [Entry(p.conn.vm + req.mapData, req.length)])
    && (forall i :: 0 <= i < |es| ==> 0 < es[i].len)
    && HomePages(Bounced(Pieces(segs))) <= p.conn.ReserveHomes()
    && Runnable(|Bounced(Pieces(segs))|, p.conn.ReserveHomes(), o.f, |o.m|)
    && req.mappedSize == At(if |es| > 1 then |Pieces(segs)| + 1 else |Pieces(segs)|, 0)
    && (forall i :: PageOf(req.mappedSize) <= i < |o.pt| ==> p.conn.ptes[..][i] == o.pt[i])
  }

  /** The window as MapData left it. */
  ghost predicate JustMapped(p: Process, o: Before, segs: seq<Segment>, req: Request)
    reads req, p.conn.ptes, p.conn.words, p.conn.mem
  {
    && p.conn.Valid() && p.conn.mem != p.disk && RequestOk(segs, o.f, |o.m|) && p.conn.WindowFor(o, segs, req)
    && o.f == p.conn.f && o.vm == p.conn.vm && |o.m| == p.conn.mem.Length && |o.pt| == p.conn.ptes.Length
    && AllZero(o.pt, o.f) && segs != [] && |Entries(Pieces(segs), o.vm)| <= MAX_SEGMENTS && |Pieces(segs)| < |o.pt|
    && req.length == Total(SegExtents(segs))
  }

  /** The window shows the frames of the layout, and real memory everywhere. */
  lemma MappedTable(p: Process, o: Before, segs: seq<Segment>, req: Request)
    requires JustMapped(p, o, segs, req)
    ensures SegmentsOk(segs) && p.Ready() && p.conn.ptes[..] == Mapping(segs, o.f, o.vm, o.pt)
    ensures WindowFrames(Pieces(segs), o.f) <= p.View().pt && EntriesMapped(p.View(), Entries(Pieces(segs), p.conn.vm))
  {
    hide Gather, FillBounces, Entries, Pieces, RequestOk, Bounceable, ListIs, ReserveIs,
         WindowFrames, Bounced, HomePages, Runnable, EntriesMapped, Backed;
    BounceableRequest(segs, o.f, |o.m|);
    MappingBacked(segs, o.f, o.vm, o.pt, o.m);
    EntriesFit(Pieces(segs), p.View());
  }

  /** The request says where the user finds its entries. */
  lemma MappedEntries(p: Process, o: Before, segs: seq<Segment>, req: Request)
    requires JustMapped(p, o, segs, req) && SegmentsOk(segs) && p.Ready()
    requires p.conn.ptes[..] == Mapping(segs, o.f, o.vm, o.pt)
    ensures var es := Entries(Pieces(segs), p.conn.vm);
      && es != [] && ListBytes(es) == Total(SegExtents(segs)) && (forall i :: 0 <= i < |es| ==> 0 < es[i].len)
      && (if req.mapType == List then p.ListAt(req.mapData, es) && Walks(p.conn.words[..], es)
          else req.mapType == Simple && es == [Entry(p.conn.vm + req.mapData, req.length)])
  {
    hide Gather, FillBounces, Entries, Pieces, RequestOk, Bounceable, ListIs, ReserveIs, Mapping,
         WindowFrames, Bounced, HomePages, Runnable, EntriesMapped, Backed;
    var es := Entries(Pieces(segs), o.vm);
    EntryBytes(segs, o.f, o.vm, o.m);
    EntriesPositive(segs, o.vm);
    if |es| > 1 {
      MappingListPage(segs, o.f, o.vm, o.pt);
      ListInWhole(p.conn.words[..], es);
    } else {
      SingleEntry(segs, o.f, o.vm, o.m);
    }
  }

  lemma MappedInFlight(p: Process, o: Before, segs: seq<Segment>, req: Request)
    requires JustMapped(p, o, segs, req)
    ensures SegmentsOk(segs) && InFlight(p, o, segs, req)
  {
    hide Gather, FillBounces, Entries, Pieces, RequestOk, Bounceable, ListIs, Mapping,
         WindowFrames, Bounced, HomePages, Runnable, EntriesMapped, Backed;
    MappedTable(p, o, segs, req);
    MappedEntries(p, o, segs, req);
    ReserveRunnable(segs, o.f, o.m, p.conn.words[..], p.conn.ReserveHomes());
  }

  lemma ListInWhole(ws: seq<nat>, es: seq<Entry>)
    requires |ws| == 2 * LIST_WORDS && ListIs(ws[..LIST_WORDS], es)
    ensures ListIs(ws, es)
  {
    forall i | 0 <= i < |es| ensures ws[2 * i] == es[i].addr && ws[2 * i + 1] == es[i].len {
      assert ws[..LIST_WORDS][2 * i] == es[i].addr && ws[..LIST_WORDS][2 * i + 1] == es[i].len;
    }
  }

  /** d is d0 with the payload of the bio written from pos on. */
  ghost predicate Wrote(d0: seq<byte>, d: seq<byte>, pos: nat, m: seq<byte>, segs: seq<Segment>) {
    && InBounds(SegExtents(segs), |m|) && pos + |Gather(m, SegExtents(segs))| <= |d0|
    && d == Splice(d0, pos, Gather(m, SegExtents(segs)))
  }

  /** Copy-in as written is the right plan when the words it reads agree with the addresses. */
  lemma CopyInIsRight(segs: seq<Segment>, vm: nat)
    requires SegmentsOk(segs) && OffsetOf(vm) == 0 && WordsAgree(Entries(Pieces(segs), vm))
    requires forall i :: 0 <= i < |Entries(Pieces(segs), vm)| ==> 0 < Entries(Pieces(segs), vm)[i].len
    ensures Plan(Entries(Pieces(segs), vm), WordsUsed(Entries(Pieces(segs), vm))) == RightPlan(segs, vm)
    ensures |RightPlan(segs, vm)| == |Bounced(Pieces(segs))|
  {
    AsWrittenIsRight(Entries(Pieces(segs), vm));
    ReplayMatchesLayout(Pieces(segs), vm);
  }

  /**
   * One mapped request: bius_dev_read maps it, the library serves it, bius_dev_write copies in and
   * unmaps. A write puts the payload of the bio on the disk; a read delivers the disk's bytes to the
   * bio, provided copy-in reads the right words; either way the whole window is the zero page again.
   */
  method Serve(p: Process, req: Request, segs: seq<Segment>, op: Opcode, pos: nat) returns (status: Status)
    requires p.conn.Valid() && p.conn.mem != p.disk && AllZero(p.conn.ptes[..], p.conn.f)
    requires RequestOk(segs, p.conn.f, p.conn.mem.Length)
    requires segs != [] && |Entries(Pieces(segs), p.conn.vm)| <= MAX_SEGMENTS && |Pieces(segs)| < p.conn.ptes.Length
    requires req.mapType == Unmapped && req.length == Total(SegExtents(segs))
    requires pos + req.length <= p.disk.Length
    requires op == Read ==> WordsAgree(Entries(Pieces(segs), p.conn.vm))
    modifies req, p.conn.ptes, p.conn.words, p.conn.mem, p.disk
    ensures AllZero(p.conn.ptes[..], p.conn.f) && req.mapType == Unmapped
    ensures status == if op == Read || op == Write then Ok else NotSupp
    ensures op == Write ==> Wrote(old(p.disk[..]), p.disk[..], pos, old(p.conn.mem[..]), segs)
    ensures op != Write ==> p.disk[..] == old(p.disk[..])
    ensures op != Read ==> forall a :: 0 <= a < p.conn.mem.Length && !InReserved(p.conn.f, a) ==>
                             p.conn.mem[a] == old(p.conn.mem[a])
    ensures op == Read ==>
              Delivered(old(p.conn.mem[..]), p.conn.mem[..], segs, p.conn.f, old(p.disk[pos..pos + req.length]))
  {
    hide Connection.WindowFor, InFlight, RequestOk, Delivered, Gather, FillBounces, Wrote,
         Mapping, Pieces, Entries, WordsAgree, Plan, RunPlan, Bounced;
    ghost var o := Before(p.conn.f, p.conn.vm, p.conn.ptes[..], p.conn.mem[..], op == Write);
    ghost var b := p.disk[pos..pos + req.length];
    assert SegmentsOk(segs) by { BounceableRequest(segs, o.f, |o.m|); }
    ghost var es := Entries(Pieces(segs), p.conn.vm);
    p.conn.MapData(req, segs, op == Write);
    MappedInFlight(p, o, segs, req);
    MappedMemory(p, o, segs, req);
    status := Dispatch(p, o, req, segs, op, pos);
    if op == Read {
      Deliver(p, o, req, segs, b);
    }
    Release(p, o, req, segs);
  }

  lemma MappedMemory(p: Process, o: Before, segs: seq<Segment>, req: Request)
    requires RequestOk(segs, o.f, |o.m|) && p.conn.WindowFor(o, segs, req) && o.f == p.conn.f
    ensures Bounceable(Bounced(Pieces(segs)), o.f, |o.m|)
    ensures p.conn.mem[..] == FillBounces(o.m, Bounced(Pieces(segs)), o.f, o.isWrite)
    ensures forall a :: 0 <= a < |o.m| && !InReserved(o.f, a) ==> p.conn.mem[..][a] == o.m[a]
  {
    forall a | 0 <= a < |o.m| && !InReserved(o.f, a) ensures p.conn.mem[..][a] == o.m[a] {
      FillOutside(o.m, Bounced(Pieces(segs)), o.f, o.isWrite, a);
    }
  }

  /** The user's half: handle_blk_command on the mapped window. */
  method Dispatch(p: Process, ghost o: Before, req: Request, ghost segs: seq<Segment>, op: Opcode, pos: nat)
    returns (status: Status)
    requires RequestOk(segs, o.f, |o.m|) && InFlight(p, o, segs, req) && o.f == p.conn.f && o.vm == p.conn.vm
    requires |o.m| == p.conn.mem.Length && o.isWrite == (op == Write) && pos + Total(SegExtents(segs)) <= p.disk.Length
    requires Bounceable(Bounced(Pieces(segs)), o.f, |o.m|)
    requires p.conn.mem[..] == FillBounces(o.m, Bounced(Pieces(segs)), o.f, o.isWrite)
    modifies p.conn.mem, p.disk
    ensures InFlight(p, o, segs, req)
    ensures status == if op == Read || op == Write then Ok else NotSupp
    ensures if op == Write then Wrote(old(p.disk[..]), p.disk[..], pos, o.m, segs) else p.disk[..] == old(p.disk[..])
    ensures op != Read ==> p.conn.mem[..] == old(p.conn.mem[..])
    ensures op == Read ==>
              p.conn.mem[..] == Filled(o.m, segs, o.f, p.View(), old(p.disk[pos..pos + Total(SegExtents(segs))]))
  {
    hide Gather, FillBounces, Splice, LoadEntries, StoreEntries, Mapping, Pieces, Entries, Clear, Disjoint;
    ghost var es := Entries(Pieces(segs), p.conn.vm);
    if op == Write {
      ZeroCopyWrite(o.m, segs, o.f, p.View());
    }
    status := p.Command(op, req, pos, es);
  }

  /** The kernel's half of a read reply: copy in what the user left in the window. */
  method Deliver(p: Process, ghost o: Before, req: Request, ghost segs: seq<Segment>, ghost b: seq<byte>)
    requires RequestOk(segs, o.f, |o.m|) && InFlight(p, o, segs, req) && o.f == p.conn.f && o.vm == p.conn.vm
    requires |o.m| == p.conn.mem.Length && |b| == Total(SegExtents(segs))
    requires WordsAgree(Entries(Pieces(segs), p.conn.vm)) && Bounceable(Bounced(Pieces(segs)), o.f, |o.m|)
    requires p.conn.mem[..] == Filled(o.m, segs, o.f, p.View(), b)
    modifies p.conn.mem
    ensures InFlight(p, o, segs, req) && Delivered(o.m, p.conn.mem[..], segs, o.f, b)
  {
    hide Gather, Filled, Mapping, Pieces, Entries, Clear, Disjoint, Plan, RunPlan, WordsAgree, Delivered, RightPlan;
    CopyInIsRight(segs, p.conn.vm);
    ZeroCopyRead(o.m, segs, o.f, p.View(), b, p.conn.ReserveHomes());
    p.conn.CopyIn(req, Entries(Pieces(segs), p.conn.vm));
  }

  /** Unmapping puts the zero page back everywhere. */
  method Release(p: Process, ghost o: Before, req: Request, ghost segs: seq<Segment>)
    requires SegmentsOk(segs) && InFlight(p, o, segs, req) && AllZero(o.pt, o.f) && o.f == p.conn.f
    requires |o.pt| == p.conn.ptes.Length
    modifies req, p.conn.ptes
    ensures AllZero(p.conn.ptes[..], p.conn.f) && req.mapType == Unmapped
  {
    p.conn.Unmap(req);
  }
}
