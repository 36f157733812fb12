/** The connection's mapping state, and the three operations that lay out, copy in and undo a window. */
module DataMapping {
  import opened Memory
  import opened Layout
  import opened Window
  import opened ZeroCopy
  import opened Replay
  import opened Accounting

  const LIST_WORDS := 512      // words per list page; word 512 + r is slot r of the reserve list

  datatype MapType = Unmapped | Simple | List

  /** The mapping fields of struct bius_request. */
  class Request {
    const length: nat
    var mapType: MapType
    var mapData: nat
    var mappedSize: nat

    constructor (length: nat)
      ensures this.length == length && mapType == Unmapped
    {
      this.length := length;
      mapType, mapData, mappedSize := Unmapped, 0, 0;
    }
  }

  /** The running state of the layout loop. */
  datatype Cursor = Cursor(userAddr: nat, userPage: nat, listIndex: nat, nextReserved: nat, endAligned: bool)

  /** The list words hold exactly the entries es, from word 0 on. */
  predicate ListIs(ws: seq<nat>, es: seq<Entry>) {
    2 * |es| <= |ws| && forall i :: 0 <= i < |es| ==> ws[2 * i] == es[i].addr && ws[2 * i + 1] == es[i].len
  }

  /** The reserve list names the home page of every bounce page. */
  predicate ReserveIs(ws: seq<nat>, bs: seq<Piece>) {
    LIST_WORDS + FIRST_BOUNCE + |bs| <= |ws|
    && forall k :: 0 <= k < |bs| ==> ws[LIST_WORDS + FIRST_BOUNCE + k] == At(bs[k].pfn, 0)
  }

  /** Everything before the window, after the pieces `done` have been laid out. */
  datatype Before = Before(f: Frames, vm: nat, pt: seq<nat>, m: seq<byte>, isWrite: bool)

  ghost predicate Laid(o: Before, done: seq<Piece>, cur: Cursor, pt: seq<nat>, m: seq<byte>, ws: seq<nat>) {
    && PiecesOk(done) && Bounceable(Bounced(done), o.f, |o.m|) && |done| <= |o.pt|
    && cur.userPage == |done| && cur.userAddr == o.vm + At(|done|, 0)
    && cur.nextReserved == FIRST_BOUNCE + |Bounced(done)|
    && pt == WindowFrames(done, o.f) + o.pt[|done|..]
    && m == FillBounces(o.m, Bounced(done), o.f, o.isWrite)
    && ReserveIs(ws, Bounced(done))
  }

  function NextPage(cur: Cursor): Cursor {
    cur.(userAddr := cur.userAddr + PAGE_SIZE, userPage := cur.userPage + 1)
  }

  lemma FramesSnoc(done: seq<Piece>, p: Piece, f: Frames)
    ensures WindowFrames(done + [p], f)
         == WindowFrames(done, f) + [if Whole(p) then p.pfn else BounceFrame(f, |Bounced(done)|)]
    ensures Bounced(done + [p]) == if Whole(p) then Bounced(done) else Bounced(done) + [p]
  {
    assert (done + [p])[..|done|] == done;
  }

  lemma TableStep(fs: seq<nat>, pt0: seq<nat>, x: nat)
    requires |fs| < |pt0|
    ensures (fs + pt0[|fs|..])[|fs| := x] == (fs + [x]) + pt0[|fs| + 1..]
  {
  }

  lemma LaidWhole(o: Before, done: seq<Piece>, cur: Cursor, pt: seq<nat>, m: seq<byte>, ws: seq<nat>, p: Piece)
    requires Laid(o, done, cur, pt, m, ws) && Whole(p) && |done| < |o.pt|
    ensures |pt| == |o.pt| && Laid(o, done + [p], NextPage(cur), pt[|done| := p.pfn], m, ws)
  {
    hide FillBounces, WindowFrames, Bounced, Bounceable, ReserveIs;
    FramesSnoc(done, p, o.f);
    TableStep(WindowFrames(done, o.f), o.pt, p.pfn);
  }

  lemma FillSnoc(m: seq<byte>, bs: seq<Piece>, b: Piece, f: Frames, isWrite: bool)
    requires Bounceable(bs + [b], f, |m|)
    ensures Bounceable(bs, f, |m|) && PieceOk(b) && At(b.pfn, b.hi) <= |m|
    ensures FillBounces(m, bs + [b], f, isWrite)
         == FillOne(FillBounces(m, bs, f, isWrite), b, BounceFrame(f, |bs|), isWrite)
  {
    hide FillOne;
    BounceableFront(bs + [b], f, |m|);
    assert (bs + [b])[..|bs|] == bs;
  }

  lemma ReserveSnoc(ws: seq<nat>, bs: seq<Piece>, b: Piece)
    requires ReserveIs(ws, bs) && LIST_WORDS + FIRST_BOUNCE + |bs| < |ws|
    ensures ReserveIs(ws[LIST_WORDS + FIRST_BOUNCE + |bs| := At(b.pfn, 0)], bs + [b])
  {
  }

  lemma LaidBounce(o: Before, done: seq<Piece>, cur: Cursor, pt: seq<nat>, m: seq<byte>, ws: seq<nat>, b: Piece)
    requires Laid(o, done, cur, pt, m, ws) && !Whole(b) && |done| < |o.pt|
    requires Bounceable(Bounced(done) + [b], o.f, |o.m|) && LIST_WORDS + FIRST_BOUNCE + MAX_SEGMENTS <= |ws|
    ensures |m| == |o.m| && |pt| == |o.pt| && PieceOk(b) && At(b.pfn, b.hi) <= |m|
    ensures |Bounced(done)| < MAX_SEGMENTS && cur.nextReserved < NUM_RESERVED
    ensures PiecesOk(done + [b])
    ensures Laid(o, done + [b], NextPage(cur).(nextReserved := cur.nextReserved + 1),
                 pt[|done| := o.f.reserved + cur.nextReserved],
                 FillOne(m, b, o.f.reserved + cur.nextReserved, o.isWrite),
                 ws[LIST_WORDS + cur.nextReserved := At(b.pfn, 0)])
  {
    hide FillOne, FillBounces, WindowFrames, Bounced;
    FillSnoc(o.m, Bounced(done), b, o.f, o.isWrite);
    FramesSnoc(done, b, o.f);
    TableStep(WindowFrames(done, o.f), o.pt, BounceFrame(o.f, |Bounced(done)|));
    ReserveSnoc(ws, Bounced(done), b);
  }

  lemma LastClear(bs: seq<Piece>, b: Piece, f: Frames, n: nat)
    requires Bounceable(bs + [b], f, n)
    ensures !Driver(f, b.pfn)
  {
    assert (bs + [b])[|bs|] == b;
  }

  predicate EndsAligned(ps: seq<Piece>) {
    ps != [] && ps[|ps| - 1].hi == PAGE_SIZE
  }

  function FirstPiece(pfn: nat, off: nat, len: nat): Piece
    requires off < PAGE_SIZE
  {
    Piece(pfn, off, off + Min(PAGE_SIZE - off, len))
  }

  /** The layout does not depend on the list index or on the alignment flag. */
  lemma LaidSame(o: Before, done: seq<Piece>, cur: Cursor, r: Cursor, pt: seq<nat>, m: seq<byte>, ws: seq<nat>)
    requires Laid(o, done, cur, pt, m, ws)
    requires r.userPage == cur.userPage && r.userAddr == cur.userAddr && r.nextReserved == cur.nextReserved
    ensures Laid(o, done, r, pt, m, ws)
  {
  }

  /** Taking the next page off a run keeps the goal and the room for it. */
  lemma GoalStep(d: seq<Piece>, pfn: nat, off: nat, len: nat, f: Frames, n: nat)
    requires off < PAGE_SIZE && 0 < len && Bounceable(Bounced(d + RunPieces(pfn, off, len)), f, n)
    ensures (d + [FirstPiece(pfn, off, len)]) + RunPieces(pfn + 1, 0, len - Min(PAGE_SIZE - off, len))
         == d + RunPieces(pfn, off, len)
    ensures |d| < |d + RunPieces(pfn, off, len)|
    ensures !Whole(FirstPiece(pfn, off, len)) ==> Bounceable(Bounced(d) + [FirstPiece(pfn, off, len)], f, n)
  {
    var k: nat := Min(PAGE_SIZE - off, len);
    var p, rest := FirstPiece(pfn, off, len), RunPieces(pfn + 1, 0, len - k);
    assert RunPieces(pfn, off, len) == [p] + rest;
    SeqAssoc(d, [p], rest);
    BouncedConcat(d + [p], rest);
    FramesSnoc(d, p, f);
    BounceablePrefix(Bounced(d + [p]), Bounced(rest), f, n);
  }

  lemma BounceablePrefix(bs: seq<Piece>, cs: seq<Piece>, f: Frames, n: nat)
    requires Bounceable(bs + cs, f, n)
    ensures Bounceable(bs, f, n)
  {
    assert forall k :: 0 <= k < |bs| ==> (bs + cs)[k] == bs[k];
    assert Homes(bs + cs)[..|bs|] == Homes(bs);
  }

  lemma StartLaid(o: Before, cur: Cursor, ws: seq<nat>)
    requires cur == Cursor(o.vm, 0, 0, FIRST_BOUNCE, false) && |ws| == 2 * LIST_WORDS
    requires At(o.f.reserved + NUM_RESERVED, 0) <= |o.m|
    ensures Laid(o, [], cur, o.pt, o.m, ws) && ListIs(ws[..LIST_WORDS], Entries([], o.vm))
  {
    hide FillBounces, Bounced;
    assert Bounced([]) == [] by { NoBounces(o); }
    assert FillBounces(o.m, [], o.f, o.isWrite) == o.m by { NoBounces(o); }
    assert WindowFrames([], o.f) + o.pt[0..] == o.pt;
  }

  lemma NoBounces(o: Before)
    requires At(o.f.reserved + NUM_RESERVED, 0) <= |o.m|
    ensures Bounced([]) == [] && FillBounces(o.m, [], o.f, o.isWrite) == o.m
  {
  }

  lemma CursorAt(o: Before, done: seq<Piece>, cur: Cursor, pt: seq<nat>, m: seq<byte>, ws: seq<nat>)
    requires Laid(o, done, cur, pt, m, ws)
    ensures cur.userPage == |done| && cur.userAddr == o.vm + At(|done|, 0)
  {
  }

  /** Changing list words leaves the page layout alone. */
  lemma ListedLaid(o: Before, done: seq<Piece>, cur: Cursor, r: Cursor, pt: seq<nat>, m: seq<byte>,
                   ws: seq<nat>, ws': seq<nat>)
    requires Laid(o, done, cur, pt, m, ws) && r == cur.(listIndex := r.listIndex)
    requires |ws| == |ws'| == 2 * LIST_WORDS && ws[LIST_WORDS..] == ws'[LIST_WORDS..]
    ensures Laid(o, done, r, pt, m, ws')
  {
    hide FillBounces, WindowFrames, Bounceable;
    var bs := Bounced(done);
    forall k | 0 <= k < |bs| ensures ws'[LIST_WORDS + FIRST_BOUNCE + k] == At(bs[k].pfn, 0) {
      assert ws'[LIST_WORDS..][FIRST_BOUNCE + k] == ws[LIST_WORDS..][FIRST_BOUNCE + k];
    }
  }

  lemma BounceableRequest(segs: seq<Segment>, f: Frames, n: nat)
    requires RequestOk(segs, f, n)
    ensures SegmentsOk(segs) && Bounceable(Bounced(Pieces(segs)), f, n)
  {
    RequestPieces(segs, f, Zeros(n));
  }

  lemma {:induction false} PiecesPrefix(segs: seq<Segment>, i: nat)
    requires SegmentsOk(segs) && i <= |segs|
    ensures Pieces(segs[..i]) <= Pieces(segs)
  {
    if i == |segs| {
      assert segs[..i] == segs;
    } else {
      PiecesPrefix(segs[..|segs| - 1], i);
      assert segs[..|segs| - 1][..i] == segs[..i];
    }
  }

  lemma PrefixBounceable(ps: seq<Piece>, qs: seq<Piece>, f: Frames, n: nat)
    requires ps <= qs && Bounceable(Bounced(qs), f, n)
    ensures Bounceable(Bounced(ps), f, n)
  {
    hide Bounceable, Bounced;
    assert qs == ps + qs[|ps|..];
    BouncedConcat(ps, qs[|ps|..]);
    BounceablePrefix(Bounced(ps), Bounced(qs[|ps|..]), f, n);
  }

  lemma FirstWord(ws: seq<nat>, es: seq<Entry>)
    requires ListIs(ws, es)
    ensures 2 * |es| <= |ws| && (es != [] ==> ws[0] == es[0].addr)
  {
    assert es != [] ==> ws[2 * 0] == es[0].addr;
  }

  lemma ListOpened(ws: seq<nat>, es: seq<Entry>, a: nat)
    requires ListIs(ws, es) && 2 * |es| + 2 <= |ws|
    ensures ListIs(ws[2 * |es| := a][2 * |es| + 1 := 0], es + [Entry(a, 0)])
  {
  }

  lemma ListAdded(ws: seq<nat>, es: seq<Entry>, len: nat)
    requires ListIs(ws, es) && es != []
    ensures ListIs(ws[2 * |es| - 1 := ws[2 * |es| - 1] + len], Grown(es, len))
  {
  }

  /** Laying out more segments never takes an entry off the list. */
  lemma {:induction false} EntriesGrow(segs: seq<Segment>, i: nat, vm: nat)
    requires SegmentsOk(segs) && i <= |segs|
    ensures |Entries(Pieces(segs[..i]), vm)| <= |Entries(Pieces(segs), vm)|
  {
    hide Entries, SegPieces;
    var n := |segs| - 1;
    if i == |segs| {
      assert segs[..i] == segs;
    } else {
      assert segs[..n][..i] == segs[..i];
      EntriesGrow(segs[..n], i, vm);
      SegmentEntry(Pieces(segs[..n]), segs[n], vm);
    }
  }

  /** The next segment extends the layout, and there is room for it. */
  lemma NextSegment(segs: seq<Segment>, i: nat, f: Frames, vm: nat, n: nat)
    requires SegmentsOk(segs) && i < |segs| && Bounceable(Bounced(Pieces(segs)), f, n)
    ensures Pieces(segs[..i + 1]) == Pieces(segs[..i]) + SegPieces(segs[i])
    ensures |Pieces(segs[..i + 1])| <= |Pieces(segs)| && Bounceable(Bounced(Pieces(segs[..i + 1])), f, n)
    ensures |Entries(Pieces(segs[..i + 1]), vm)| <= |Entries(Pieces(segs), vm)|
    ensures Entries(Pieces(segs[..i + 1]), vm) == AddSegment(Entries(Pieces(segs[..i]), vm), Pieces(segs[..i]), segs[i], vm)
  {
    hide Bounceable, Entries, Bounced;
    assert segs[..i + 1][..i] == segs[..i];
    PiecesPrefix(segs, i + 1);
    var ps, qs := Pieces(segs[..i + 1]), Pieces(segs);
    PrefixBounceable(ps, qs, f, n);
    EntriesGrow(segs, i + 1, vm);
    SegmentEntry(Pieces(segs[..i]), segs[i], vm);
  }

  /**
   * The terminator never hits a list entry or a used reserve slot, not even with all 256 entries:
   * then it lands in slots 0 and 1 of the reserve list, which starts at slot 2.
   */
  lemma TerminatorSafe(ws: seq<nat>, ws': seq<nat>, es: seq<Entry>, bs: seq<Piece>)
    requires |ws| == |ws'| == 2 * LIST_WORDS && ListIs(ws[..LIST_WORDS], es) && ReserveIs(ws, bs)
    requires ws' == ws[2 * |es| := 0][2 * |es| + 1 := 0]
    ensures ListIs(ws'[..LIST_WORDS], es) && ReserveIs(ws', bs)
  {
  }

  lemma StartWalk(es: seq<Entry>, ws: seq<nat>, m: seq<byte>, homes: seq<nat>, f: Frames)
    requires |ws| == |es| && Runnable(|Plan(es, ws)|, homes, f, |m|)
    ensures Plan(es[..0], ws[..0]) == [] && Runnable(0, homes, f, |m|) && RunPlan(m, [], homes, f) == m
  {
  }

  /** The entries a list walk sees: it stops at the first zero address word. */
  ghost predicate Walks(list: seq<nat>, es: seq<Entry>) {
    && ListIs(list, es) && 2 * |es| + 1 < |list| && list[2 * |es|] == 0
    && forall i :: 0 <= i < |es| ==> 0 < es[i].addr
  }

  lemma WalkEnds(list: seq<nat>, es: seq<Entry>, i: nat)
    requires Walks(list, es) && i <= |es| && list[2 * i] == 0
    ensures i == |es|
  {
  }

  /** One entry of the walk: the words it reads, and room for the copies it makes. */
  lemma WalkStep(list: seq<nat>, es: seq<Entry>, i: nat, homes: seq<nat>, f: Frames, n: nat)
    requires ListIs(list, es) && 2 * |es| + 1 < |list| && i < |es|
    requires Runnable(|Plan(es, WordsUsed(es))|, homes, f, n)
    ensures list[2 * i] == es[i].addr && list[2 * i + 1] == es[i].len && list[i] == WordsUsed(es)[i]
    ensures Plan(es[..i + 1], WordsUsed(es)[..i + 1])
         == Plan(es[..i], WordsUsed(es)[..i]) + EntryPlan(es[i], WordsUsed(es)[i])
    ensures Runnable(|Plan(es[..i + 1], WordsUsed(es)[..i + 1])|, homes, f, n)
  {
    hide Plan, EntryPlan, Runnable, WordsUsed, ListIs;
    var ws := WordsUsed(es);
    WordRead(list, es, i);
    PlanPrefix(es, ws, i + 1);
    PlanOneMore(es, ws, i);
    RunnableLess(|Plan(es[..i + 1], ws[..i + 1])|, |Plan(es, ws)|, homes, f, n);
  }

  lemma WordRead(list: seq<nat>, es: seq<Entry>, i: nat)
    requires ListIs(list, es) && i < |es|
    ensures list[2 * i] == es[i].addr && list[2 * i + 1] == es[i].len && list[i] == WordsUsed(es)[i]
  {
    assert list[2 * (i / 2)] == es[i / 2].addr && list[2 * (i / 2) + 1] == es[i / 2].len;
  }

  lemma PlanOneMore(es: seq<Entry>, ws: seq<nat>, i: nat)
    requires |ws| == |es| && i < |es|
    ensures Plan(es[..i + 1], ws[..i + 1]) == Plan(es[..i], ws[..i]) + EntryPlan(es[i], ws[i])
  {
    assert es[..i + 1][..i] == es[..i] && ws[..i + 1][..i] == ws[..i];
  }

  lemma RunnableLess(k: nat, l: nat, homes: seq<nat>, f: Frames, n: nat)
    requires k <= l && Runnable(l, homes, f, n)
    ensures Runnable(k, homes, f, n)
  {
  }

  method MemZero(mem: array<byte>, a: nat, n: nat)
    requires a + n <= mem.Length
    modifies mem
    ensures mem[..] == Splice(old(mem[..]), a, Zeros(n))
  {
    forall k | a <= k < a + n {
      mem[k] := 0;
    }
  }

  method MemCopy(mem: array<byte>, dst: nat, src: nat, n: nat)
    requires dst + n <= mem.Length && src + n <= mem.Length
    modifies mem
    ensures mem[..] == Splice(old(mem[..]), dst, Slice(old(mem[..]), Extent(src, n)))
  {
    forall k | dst <= k < dst + n {
      mem[k] := mem[k - dst + src];
    }
  }

  lemma HomeUntouched(m: seq<byte>, b: Piece, frame: nat)
    requires PieceOk(b) && At(b.pfn, b.hi) <= |m| && At(frame, PAGE_SIZE) <= |m| && b.pfn != frame
    ensures Slice(Splice(m, At(frame, 0), Zeros(PAGE_SIZE)), Home(b)) == Slice(m, Home(b))
  {
    SpliceApart(m, At(frame, 0), Zeros(PAGE_SIZE), Home(b));
  }

  class Connection {
    const vm: nat               // vma->vm_start
    const f: Frames
    const ptes: array<nat>      // page frame number in each window page
    const words: array<nat>     // the two list pages, as unsigned longs
    const mem: array<byte>      // physical memory

    constructor (vm: nat, f: Frames, ptes: array<nat>, words: array<nat>, mem: array<byte>)
      ensures this.vm == vm && this.f == f && this.ptes == ptes && this.words == words && this.mem == mem
    {
      this.vm, this.f, this.ptes, this.words, this.mem := vm, f, ptes, words, mem;
    }

    predicate Valid() {
      && 0 < vm && OffsetOf(vm) == 0 && ptes != words
      && words.Length == 2 * LIST_WORDS
      && At(f.reserved + NUM_RESERVED, 0) <= mem.Length && At(f.zero, PAGE_SIZE) <= mem.Length
      && !(f.reserved <= f.zero < f.reserved + NUM_RESERVED) && mem.Length % 4096 == 0
    }

    /** bius_map_data, lines 92-106 and 124-137: route one partial page through a bounce page. */
    method MapBounce(b: Piece, cur: Cursor, isWrite: bool) returns (r: Cursor)
      requires Valid() && PieceOk(b) && At(b.pfn, b.hi) <= mem.Length && !Driver(f, b.pfn)
      requires cur.userPage < ptes.Length && FIRST_BOUNCE <= cur.nextReserved < NUM_RESERVED
      modifies ptes, words, mem
      ensures r == NextPage(cur).(nextReserved := cur.nextReserved + 1)
      ensures ptes[..] == old(ptes[..])[cur.userPage := f.reserved + cur.nextReserved]
      ensures words[..] == old(words[..])[LIST_WORDS + cur.nextReserved := At(b.pfn, 0)]
      ensures mem[..] == FillOne(old(mem[..]), b, f.reserved + cur.nextReserved, isWrite)
    {
      var frame := f.reserved + cur.nextReserved;
      MemZero(mem, At(frame, 0), PAGE_SIZE);
      if isWrite {
        HomeUntouched(old(mem[..]), b, frame);
        MemCopy(mem, At(frame, b.lo), At(b.pfn, b.lo), b.hi - b.lo);
      }
      ptes[cur.userPage] := frame;
      words[LIST_WORDS + cur.nextReserved] := At(b.pfn, 0);
      r := NextPage(cur).(nextReserved := cur.nextReserved + 1);
    }

    ghost predicate LaidHere(o: Before, done: seq<Piece>, cur: Cursor)
      reads ptes, words, mem
    {
      Laid(o, done, cur, ptes[..], mem[..], words[..])
    }

    /** Lines 83-88: open an entry for the segment unless it continues the last one, then add its length. */
    method ListSegment(s: Segment, cur: Cursor, ghost es: seq<Entry>) returns (r: Cursor)
      requires Valid() && SegmentOk(s) && ListIs(words[..LIST_WORDS], es) && cur.listIndex == |es|
      requires if cur.endAligned && s.off == 0 then es != [] else |es| < MAX_SEGMENTS
      modifies words
      ensures r == if cur.endAligned && s.off == 0 then cur else cur.(listIndex := cur.listIndex + 1)
      ensures ListIs(words[..LIST_WORDS],
                     if cur.endAligned && s.off == 0 then Grown(es, s.len) else es + [Entry(cur.userAddr + s.off, s.len)])
      ensures words[LIST_WORDS..] == old(words[LIST_WORDS..])
    {
      hide ListIs;
      FirstWord(words[..LIST_WORDS], es);
      r := cur;
      ghost var gs := es;
      ghost var ws := words[..LIST_WORDS];
      if !cur.endAligned || s.off != 0 {
        ListOpened(ws, es, cur.userAddr + s.off);
        words[r.listIndex * 2] := cur.userAddr + s.off;
        words[r.listIndex * 2 + 1] := 0;
        r := r.(listIndex := r.listIndex + 1);
        gs := es + [Entry(cur.userAddr + s.off, 0)];
        ws := ws[2 * |es| := cur.userAddr + s.off][2 * |es| + 1 := 0];
        assert Grown(gs, s.len) == es + [Entry(cur.userAddr + s.off, s.len)];
      }
      ListAdded(ws, gs, s.len);
      assert words[..LIST_WORDS] == ws;
      words[r.listIndex * 2 - 1] := words[r.listIndex * 2 - 1] + s.len;
      assert words[..LIST_WORDS] == ws[2 * |gs| - 1 := ws[2 * |gs| - 1] + s.len];
    }

    /** One partial page, with the layout it advances. */
    method LayBounce(ghost o: Before, ghost done: seq<Piece>, b: Piece, cur: Cursor, isWrite: bool) returns (r: Cursor)
      requires Valid() && LaidHere(o, done, cur) && o.f == f && o.isWrite == isWrite
      requires |o.m| == mem.Length && |o.pt| == ptes.Length
      requires !Whole(b) && |done| < ptes.Length && Bounceable(Bounced(done) + [b], f, mem.Length)
      modifies ptes, words, mem
      ensures LaidHere(o, done + [b], r) && words[..LIST_WORDS] == old(words[..LIST_WORDS])
      ensures r == NextPage(cur).(nextReserved := cur.nextReserved + 1)
    {
      hide FillOne, Bounceable;
      LaidBounce(o, done, cur, ptes[..], mem[..], words[..], b);
      assert !Driver(f, b.pfn) by { LastClear(Bounced(done), b, f, mem.Length); }
      r := MapBounce(b, cur, isWrite);
    }

    /** Lines 114-121: map one whole page directly. */
    method LayWhole(ghost o: Before, ghost done: seq<Piece>, pfn: nat, cur: Cursor) returns (r: Cursor)
      requires Valid() && LaidHere(o, done, cur) && |o.pt| == ptes.Length && |done| < ptes.Length
      modifies ptes
      ensures LaidHere(o, done + [Piece(pfn, 0, PAGE_SIZE)], r)
      ensures r == NextPage(cur)
    {
      LaidWhole(o, done, cur, ptes[..], mem[..], words[..], Piece(pfn, 0, PAGE_SIZE));
      ptes[cur.userPage] := pfn;
      r := NextPage(cur);
    }

    /** The page loop for one segment, lines 90-143. */
    method MapSegment(ghost o: Before, ghost done: seq<Piece>, s: Segment, start: Cursor, isWrite: bool) returns (cur: Cursor)
      requires Valid() && SegmentOk(s) && LaidHere(o, done, start) && o.f == f && o.isWrite == isWrite
      requires |o.m| == mem.Length && |o.pt| == ptes.Length
      requires |done + SegPieces(s)| <= ptes.Length && Bounceable(Bounced(done + SegPieces(s)), f, mem.Length)
      modifies ptes, words, mem
      ensures LaidHere(o, done + SegPieces(s), cur) && words[..LIST_WORDS] == old(words[..LIST_WORDS])
      ensures cur.listIndex == start.listIndex
      ensures cur.endAligned <==> EndsAligned(done + SegPieces(s))
    {
      hide Bounceable, Laid, Bounced;
      if s.off != 0 {
        var n := Min(PAGE_SIZE - s.off, s.len);
        GoalStep(done, s.pfn, s.off, s.len, f, mem.Length);
        cur := LayBounce(o, done, Piece(s.pfn, s.off, s.off + n), start, isWrite);
        ghost var d := done + [Piece(s.pfn, s.off, s.off + n)];
        if n != PAGE_SIZE - s.off {
          assert d + RunPieces(s.pfn + 1, 0, 0) == d;
          LaidSame(o, d, cur, cur.(endAligned := false), ptes[..], mem[..], words[..]);
          cur := cur.(endAligned := false);
        } else {
          cur := MapAligned(o, d, s.pfn + 1, s.len - n, cur, isWrite);
        }
      } else {
        cur := MapAligned(o, done, s.pfn, s.len, start, isWrite);
      }
    }

    /** Lines 114-143: the whole pages from a page boundary on, and the partial page that may follow. */
    method MapAligned(ghost o: Before, ghost done: seq<Piece>, pfn: nat, len: nat, start: Cursor, isWrite: bool)
      returns (cur: Cursor)
      requires Valid() && LaidHere(o, done, start) && o.f == f && o.isWrite == isWrite
      requires |o.m| == mem.Length && |o.pt| == ptes.Length && (len == 0 ==> EndsAligned(done))
      requires |done + RunPieces(pfn, 0, len)| <= ptes.Length
      requires Bounceable(Bounced(done + RunPieces(pfn, 0, len)), f, mem.Length)
      modifies ptes, words, mem
      ensures LaidHere(o, done + RunPieces(pfn, 0, len), cur) && words[..LIST_WORDS] == old(words[..LIST_WORDS])
      ensures cur.listIndex == start.listIndex
      ensures cur.endAligned <==> EndsAligned(done + RunPieces(pfn, 0, len))
    {
      hide Bounceable, Laid, Bounced;
      cur := start;
      var dataPfn, remain := pfn, len;
      ghost var d := done;
      while remain >= PAGE_SIZE
        invariant 0 <= remain && LaidHere(o, d, cur) && d + RunPieces(dataPfn, 0, remain) == done + RunPieces(pfn, 0, len)
        invariant cur.listIndex == start.listIndex && words[..LIST_WORDS] == old(words[..LIST_WORDS])
        invariant remain == 0 ==> EndsAligned(d)
      {
        GoalStep(d, dataPfn, 0, remain, f, mem.Length);
        cur := LayWhole(o, d, dataPfn, cur);
        d := d + [Piece(dataPfn, 0, PAGE_SIZE)];
        dataPfn, remain := dataPfn + 1, remain - PAGE_SIZE;
      }
      if remain > 0 {
        GoalStep(d, dataPfn, 0, remain, f, mem.Length);
        cur := LayBounce(o, d, Piece(dataPfn, 0, remain), cur, isWrite);
        d := d + [Piece(dataPfn, 0, remain)];
      }
      assert forall q :: d + RunPieces(q, 0, 0) == d;
      assert d == done + RunPieces(pfn, 0, len);
      LaidSame(o, d, cur, cur.(endAligned := remain == 0), ptes[..], mem[..], words[..]);
      cur := cur.(endAligned := remain == 0);
    }

    /** The window as bius_map_data leaves it, told from the state before. */
    ghost predicate WindowFor(o: Before, segs: seq<Segment>, req: Request)
      requires SegmentsOk(segs)
      reads req, ptes, words, mem
    {
      var ps := Pieces(segs);
      var es := Entries(ps, vm);
      var pages := |ps| + if |es| > 1 then 1 else 0;
      && words.Length == 2 * LIST_WORDS && Bounceable(Bounced(ps), f, |o.m|) && mem[..] == FillBounces(o.m, Bounced(ps), f, o.isWrite)
      && ListIs(words[..LIST_WORDS], es) && ReserveIs(words[..], Bounced(ps))
      && req.mappedSize == At(pages, 0) && pages <= |o.pt|
      && ptes[..] == WindowFrames(ps, f) + (if |es| > 1 then [f.reserved] else []) + o.pt[pages..]
      && if |es| > 1 then
           && req.mapType == List && req.mapData == vm + At(|ps|, 0)
           && 2 * |es| + 1 < words.Length && words[2 * |es|] == 0 && words[2 * |es| + 1] == 0
         else if |es| == 1 then
           req.mapType == Simple && req.mapData == OffsetOf(es[0].addr)
         else
           req.mapType == Unmapped
    }

    /** bius_map_data. */
    method MapData(req: Request, segs: seq<Segment>, isWrite: bool)
      requires Valid() && RequestOk(segs, f, mem.Length)
      requires |Entries(Pieces(segs), vm)| <= MAX_SEGMENTS && |Pieces(segs)| < ptes.Length
      modifies req, ptes, words, mem
      ensures old(req.mapType) == Unmapped ==>
                WindowFor(Before(f, vm, old(ptes[..]), old(mem[..]), isWrite), segs, req)
      ensures old(req.mapType) != Unmapped ==>
                unchanged(req) && ptes[..] == old(ptes[..]) && words[..] == old(words[..]) && mem[..] == old(mem[..])
    {
      if req.mapType != Unmapped {
        return;
      }
      ghost var o := Before(f, vm, ptes[..], mem[..], isWrite);
      var cur := LayAll(o, segs, isWrite);
      Finish(o, segs, req, cur);
    }

    /** The loop over the segments, lines 78-144. */
    method LayAll(ghost o: Before, segs: seq<Segment>, isWrite: bool) returns (cur: Cursor)
      requires Valid() && RequestOk(segs, f, mem.Length)
      requires |Entries(Pieces(segs), vm)| <= MAX_SEGMENTS && |Pieces(segs)| < ptes.Length
      requires o == Before(f, vm, ptes[..], mem[..], isWrite)
      modifies ptes, words, mem
      ensures LaidHere(o, Pieces(segs), cur)
      ensures ListIs(words[..LIST_WORDS], Entries(Pieces(segs), vm)) && cur.listIndex == |Entries(Pieces(segs), vm)|
    {
      hide Laid, ListIs, RequestOk, Bounceable;
      cur := Cursor(vm, 0, 0, FIRST_BOUNCE, false);
      StartLaid(o, cur, words[..]);
      BounceableRequest(segs, f, mem.Length);
      for i := 0 to |segs|
        invariant LaidUpTo(o, segs[..i], cur)
      {
        cur := LayNext(o, segs, i, cur, isWrite);
      }
      assert segs[..|segs|] == segs;
    }

    ghost predicate LaidUpTo(o: Before, segs: seq<Segment>, cur: Cursor)
      reads ptes, words, mem
    {
      && words.Length == 2 * LIST_WORDS && SegmentsOk(segs) && LaidHere(o, Pieces(segs), cur)
      && ListIs(words[..LIST_WORDS], Entries(Pieces(segs), vm))
      && cur.listIndex == |Entries(Pieces(segs), vm)|
      && (cur.endAligned <==> EndsAligned(Pieces(segs)))
    }

    /** One round of the loop: list the segment, then lay its pages. */
    method LayNext(ghost o: Before, segs: seq<Segment>, i: nat, cur: Cursor, isWrite: bool) returns (r: Cursor)
      requires Valid() && SegmentsOk(segs) && Bounceable(Bounced(Pieces(segs)), f, mem.Length)
      requires i < |segs| && |Entries(Pieces(segs), vm)| <= MAX_SEGMENTS && |Pieces(segs)| < ptes.Length
      requires LaidUpTo(o, segs[..i], cur)
      requires o.f == f && o.vm == vm && o.isWrite == isWrite && |o.m| == mem.Length && |o.pt| == ptes.Length
      modifies ptes, words, mem
      ensures LaidUpTo(o, segs[..i + 1], r)
    {
      hide Laid, ListIs, Bounceable, Entries, Pieces, Bounced;
      ghost var done, s := Pieces(segs[..i]), segs[i];
      NextSegment(segs, i, f, vm, mem.Length);
      CursorAt(o, done, cur, ptes[..], mem[..], words[..]);
      r := ListSegment(segs[i], cur, Entries(done, vm));
      ListedLaid(o, done, cur, r, ptes[..], mem[..], old(words[..]), words[..]);
      r := MapSegment(o, done, segs[i], r, isWrite);
    }

    /** Lines 146-159: pick the map type; a list gets its page and its terminator. */
    method Finish(ghost o: Before, ghost segs: seq<Segment>, req: Request, cur: Cursor)
      requires Valid() && SegmentsOk(segs) && LaidHere(o, Pieces(segs), cur)
      requires o.f == f && o.vm == vm && |o.pt| == ptes.Length && |Pieces(segs)| < ptes.Length
      requires ListIs(words[..LIST_WORDS], Entries(Pieces(segs), vm)) && cur.listIndex == |Entries(Pieces(segs), vm)|
      modifies req, ptes, words
      ensures WindowFor(o, segs, req)
    {
      hide FillBounces, Bounceable, Entries, WindowFrames, Bounced, Pieces, ListIs, ReserveIs;
      FirstWord(words[..LIST_WORDS], Entries(Pieces(segs), vm));
      var userAddr := cur.userAddr;
      if cur.listIndex > 1 {
        ghost var ws := words[..];
        ptes[cur.userPage] := f.reserved;
        words[cur.listIndex * 2] := 0;
        words[cur.listIndex * 2 + 1] := 0;
        TerminatorSafe(ws, words[..], Entries(Pieces(segs), vm), Bounced(Pieces(segs)));
        req.mapType := List;
        req.mapData := userAddr;
        userAddr := userAddr + PAGE_SIZE;
      } else if cur.listIndex == 1 {
        req.mapType := Simple;
        req.mapData := OffsetOf(words[0]);
      } else {
        req.mapType := Unmapped;
      }
      req.mappedSize := userAddr - vm;
    }

    /** The page addresses in the reserve list, from its first used slot on. */
    function ReserveHomes(): seq<nat>
      requires Valid()
      reads words
    {
      words[LIST_WORDS + FIRST_BOUNCE..]
    }

    /** One memcpy of bius_copy_in_misaligned_pages, through reserve slot n. */
    method CopyOut(ghost m0: seq<byte>, ghost cs: seq<Copy>, c: Copy, n: nat) returns (r: nat)
      requires Valid() && CopiesFit(cs) && c.off + c.len <= PAGE_SIZE && n == FIRST_BOUNCE + |cs|
      requires |m0| == mem.Length && Runnable(|cs| + 1, ReserveHomes(), f, mem.Length)
      requires mem[..] == RunPlan(m0, cs, ReserveHomes(), f)
      modifies mem
      ensures CopiesFit(cs + [c]) && mem[..] == RunPlan(m0, cs + [c], ReserveHomes(), f)
      ensures r == n + 1
    {
      hide RunPlan;
      RunPlanSnoc(m0, cs, c, ReserveHomes(), f);
      var src, dest := At(f.reserved + n, 0), words[LIST_WORDS + n];
      assert dest == ReserveHomes()[|cs|] && dest + PAGE_SIZE <= mem.Length;
      MemCopy(mem, dest + c.off, src + c.off, c.len);
      r := n + 1;
    }

    /** Lines 188-215, for one entry; `word` is the word the body reads for offsets. */
    method CopyEntry(ghost m0: seq<byte>, ghost cs: seq<Copy>, e: Entry, word: nat, n: nat) returns (r: nat)
      requires Valid() && CopiesFit(cs) && n == FIRST_BOUNCE + |cs| && |m0| == mem.Length
      requires Runnable(|cs + EntryPlan(e, word)|, ReserveHomes(), f, mem.Length)
      requires Runnable(|cs|, ReserveHomes(), f, mem.Length) && mem[..] == RunPlan(m0, cs, ReserveHomes(), f)
      modifies mem
      ensures CopiesFit(cs + EntryPlan(e, word))
      ensures mem[..] == RunPlan(m0, cs + EntryPlan(e, word), ReserveHomes(), f)
      ensures r == FIRST_BOUNCE + |cs + EntryPlan(e, word)|
    {
      hide RunPlan;
      r := n;
      ghost var done := cs;
      var frontAligned := OffsetOf(e.addr) == 0;
      var endAligned := OffsetOf(e.addr + e.len) == 0;
      if !frontAligned {
        var offset := OffsetOf(word);
        var length;
        if offset + e.len < PAGE_SIZE {
          length := e.len;
          endAligned := true;
        } else {
          length := PAGE_SIZE - offset;
        }
        r := CopyOut(m0, done, Copy(offset, length), r);
        done := done + [Copy(offset, length)];
      }
      if !endAligned {
        var length := OffsetOf(word + e.len);
        r := CopyOut(m0, done, Copy(0, length), r);
        done := done + [Copy(0, length)];
      }
      assert done == cs + EntryPlan(e, word);
    }

    /** bius_copy_in_misaligned_pages, exactly as written. */
    method CopyIn(req: Request, ghost es: seq<Entry>)
      requires Valid()
      requires req.mapType == Simple ==> es == [Entry(vm + req.mapData, req.length)]
      requires req.mapType == List ==> Walks(words[..], es)
      requires Runnable(|Plan(es, WordsUsed(es))|, ReserveHomes(), f, mem.Length)
      modifies mem
      ensures mem[..] == if req.mapType == Unmapped then old(mem[..])
                         else RunPlan(old(mem[..]), Plan(es, WordsUsed(es)), ReserveHomes(), f)
    {
      if req.mapType == Unmapped {
        return;
      }
      var list := words;
      if req.mapType == Simple {
        list := new nat[4](_ => 0);
        list[0] := vm + req.mapData;
        list[1] := req.length;
      }
      WalkList(list, es);
    }

    /** The loop, lines 187-216. */
    method WalkList(list: array<nat>, ghost es: seq<Entry>)
      requires Valid() && Walks(list[..], es)
      requires Runnable(|Plan(es, WordsUsed(es))|, ReserveHomes(), f, mem.Length)
      modifies mem
      ensures mem[..] == RunPlan(old(mem[..]), Plan(es, WordsUsed(es)), ReserveHomes(), f)
    {
      hide RunPlan, Plan, EntryPlan, Runnable, WordsUsed;
      ghost var m0, ws := mem[..], WordsUsed(es);
      var i, n := 0, FIRST_BOUNCE;
      StartWalk(es, ws, m0, ReserveHomes(), f);
      while list[i * 2] != 0
        invariant 0 <= i <= |es| && |ws| == |es| && |m0| == mem.Length
        invariant Runnable(|Plan(es[..i], ws[..i])|, ReserveHomes(), f, mem.Length)
        invariant mem[..] == RunPlan(m0, Plan(es[..i], ws[..i]), ReserveHomes(), f)
        invariant n == FIRST_BOUNCE + |Plan(es[..i], ws[..i])|
        decreases |es| - i
      {
        ghost var cs := Plan(es[..i], ws[..i]);
        WalkStep(list[..], es, i, ReserveHomes(), f, mem.Length);
        n := CopyEntry(m0, cs, Entry(list[i * 2], list[i * 2 + 1]), list[i], n);
        i := i + 1;
      }
      WalkEnds(list[..], es, i);
      assert es[..i] == es && ws[..i] == ws;
    }

    /** bius_unmap_data. */
    method Unmap(req: Request)
      requires Valid() && req.mappedSize <= At(ptes.Length, 0)
      modifies req, ptes
      ensures old(req.mapType) == Unmapped ==> unchanged(req) && ptes[..] == old(ptes[..])
      ensures old(req.mapType) != Unmapped ==>
                req.mapType == Unmapped && req.mappedSize == old(req.mappedSize) && req.mapData == old(req.mapData)
      ensures old(req.mapType) != Unmapped ==>
                forall i :: 0 <= i < ptes.Length ==>
                  ptes[i] == if i < PageOf(req.mappedSize) then f.zero else old(ptes[i])
    {
      var mappedPages := PageOf(req.mappedSize);
      if req.mapType == Unmapped {
        return;
      }
      for i := 0 to mappedPages
        invariant req.mappedSize == old(req.mappedSize) && req.mapData == old(req.mapData)
        invariant forall j :: 0 <= j < ptes.Length ==> ptes[j] == if j < i then f.zero else old(ptes[j])
      {
        ptes[i] := f.zero;
      }
      req.mapType := Unmapped;
    }
  }
}
