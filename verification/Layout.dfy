/**
 * The window layout: what a request's segments look like page by page, which page frame backs
 * each window page, and the list of (address, length) entries that describes the payload.
 */
module Layout {
  import opened Memory

  const PAGE_SIZE := 4096

  // Products and remainders are spelled with the literal, which keeps the arithmetic linear.

  /** page_address: byte `off` of page frame `pfn`. */
  function At(pfn: nat, off: nat): nat {
    pfn * 4096 + off
  }

  function PageOf(a: nat): nat {
    a / 4096
  }

  function OffsetOf(a: nat): (r: nat) {
    a % 4096
  }

  const MAX_SEGMENTS := 256                   // BIUS_MAX_SEGMENTS
  const NUM_RESERVED := MAX_SEGMENTS + 2      // BIUS_NUM_RESERVED_PAGES
  const FIRST_BOUNCE := 2                     // pages 0 and 1 hold the two lists

  /** A bio_vec: it starts `off` bytes into page frame `pfn` and may run over several frames. */
  datatype Segment = Segment(pfn: nat, off: nat, len: nat)

  /** The part [lo, hi) of one page frame. */
  datatype Piece = Piece(pfn: nat, lo: nat, hi: nat)

  /** One (address, length) pair of the mapping list; addresses are window addresses. */
  datatype Entry = Entry(addr: nat, len: nat)

  /** Page frame numbers of the areas the driver owns. */
  datatype Frames = Frames(reserved: nat, zero: nat)

  predicate SegmentOk(s: Segment) {
    s.off < PAGE_SIZE && 0 < s.len
  }

  predicate SegmentsOk(segs: seq<Segment>) {
    forall i :: 0 <= i < |segs| ==> SegmentOk(segs[i])
  }

  predicate PieceOk(p: Piece) {
    0 <= p.lo < p.hi <= PAGE_SIZE
  }

  predicate PiecesOk(ps: seq<Piece>) {
    forall i :: 0 <= i < |ps| ==> PieceOk(ps[i])
  }

  predicate Whole(p: Piece) {
    p.lo == 0 && p.hi == PAGE_SIZE
  }

  /** The pages that `len` bytes from offset `off` of frame `pfn` touch, in order. */
  function RunPieces(pfn: nat, off: nat, len: nat): (ps: seq<Piece>)
    requires off < PAGE_SIZE
    ensures PiecesOk(ps)
    ensures 0 < len ==> 0 < |ps| && ps[0].lo == off
    decreases len
  {
    if len == 0 then []
    else
      var n := Min(PAGE_SIZE - off, len);
      [Piece(pfn, off, off + n)] + RunPieces(pfn + 1, 0, len - n)
  }

  function SegPieces(s: Segment): (ps: seq<Piece>)
    requires SegmentOk(s)
    ensures PiecesOk(ps) && 0 < |ps| && ps[0].lo == s.off
  {
    RunPieces(s.pfn, s.off, s.len)
  }

  function Pieces(segs: seq<Segment>): (ps: seq<Piece>)
    requires SegmentsOk(segs)
    ensures PiecesOk(ps)
  {
    if segs == [] then [] else Pieces(segs[..|segs| - 1]) + SegPieces(segs[|segs| - 1])
  }

  /** The pieces that cannot be mapped directly and go through a bounce page. */
  function Bounced(ps: seq<Piece>): (bs: seq<Piece>)
    ensures |bs| <= |ps|
  {
    if ps == [] then []
    else
      var front, p := ps[..|ps| - 1], ps[|ps| - 1];
      if Whole(p) then Bounced(front) else Bounced(front) + [p]
  }

  /** Page frame numbers to put in the page table, one per window page. */
  function WindowFrames(ps: seq<Piece>, f: Frames): (fs: seq<nat>)
    ensures |fs| == |ps|
  {
    if ps == [] then []
    else
      var front, p := ps[..|ps| - 1], ps[|ps| - 1];
      WindowFrames(front, f)
      + [if Whole(p) then p.pfn else f.reserved + FIRST_BOUNCE + |Bounced(front)|]
  }

  /** A piece starts a new entry unless it continues its predecessor across a page boundary. */
  predicate Continues(front: seq<Piece>, p: Piece) {
    front != [] && front[|front| - 1].hi == PAGE_SIZE && p.lo == 0
  }

  /** The list after one more page: the last entry grows, or a new one is opened. */
  function AddPiece(es: seq<Entry>, front: seq<Piece>, p: Piece, vm: nat): seq<Entry>
    requires PieceOk(p) && (front != [] ==> es != [])
  {
    if Continues(front, p) then
      es[..|es| - 1] + [es[|es| - 1].(len := es[|es| - 1].len + (p.hi - p.lo))]
    else
      es + [Entry(vm + At(|front|, p.lo), p.hi - p.lo)]
  }

  /** The mapping list for a window whose first page is at address vm. */
  function Entries(ps: seq<Piece>, vm: nat): (es: seq<Entry>)
    requires PiecesOk(ps)
    ensures |es| <= |ps| && (ps != [] ==> es != [])
  {
    if ps == [] then []
    else AddPiece(Entries(ps[..|ps| - 1], vm), ps[..|ps| - 1], ps[|ps| - 1], vm)
  }

  // ---------------------------------------------------------------------------------------------
  // Where the bytes live

  function SegExtent(s: Segment): Extent {
    Extent(At(s.pfn, s.off), s.len)
  }

  function SegExtents(segs: seq<Segment>): seq<Extent> {
    seq(|segs|, i requires 0 <= i < |segs| => SegExtent(segs[i]))
  }

  /** The place of a piece when its page is backed by frame `pfn`. */
  function InFrame(p: Piece, pfn: nat): Extent
    requires PieceOk(p)
  {
    Extent(At(pfn, p.lo), p.hi - p.lo)
  }

  function Home(p: Piece): Extent
    requires PieceOk(p)
  {
    InFrame(p, p.pfn)
  }

  /** Where the bio has the bytes. */
  function Homes(ps: seq<Piece>): seq<Extent>
    requires PiecesOk(ps)
  {
    seq(|ps|, i requires 0 <= i < |ps| => Home(ps[i]))
  }

  /** Where the user sees the bytes, as physical extents. */
  function Targets(ps: seq<Piece>, fs: seq<nat>): seq<Extent>
    requires PiecesOk(ps) && |fs| == |ps|
  {
    seq(|ps|, i requires 0 <= i < |ps| => InFrame(ps[i], fs[i]))
  }

  // ---------------------------------------------------------------------------------------------
  // Segments and pieces describe the same bytes

  lemma HomesConcat(ps: seq<Piece>, qs: seq<Piece>)
    requires PiecesOk(ps) && PiecesOk(qs)
    ensures PiecesOk(ps + qs) && Homes(ps + qs) == Homes(ps) + Homes(qs)
  {
  }

  lemma GatherOne(m: seq<byte>, x: Extent)
    requires x.addr + x.len <= |m|
    ensures InBounds([x], |m|) && Gather(m, [x]) == Slice(m, x)
  {
    assert [x][..0] == [];
    assert Gather(m, []) == [];
  }

  lemma GatherPrepend(m: seq<byte>, p: Piece, ps: seq<Piece>)
    requires PieceOk(p) && PiecesOk(ps) && InBounds(Homes(ps), |m|) && Home(p).addr + Home(p).len <= |m|
    ensures PiecesOk([p] + ps) && InBounds(Homes([p] + ps), |m|)
    ensures Gather(m, Homes([p] + ps)) == Slice(m, Home(p)) + Gather(m, Homes(ps))
  {
    hide Gather;
    HomesConcat([p], ps);
    assert Homes([p]) == [Home(p)];
    GatherOne(m, Home(p));
    GatherConcat(m, [Home(p)], Homes(ps));
  }

  lemma RunStep(m: seq<byte>, p: Piece, rest: seq<Piece>, k: nat)
    requires PieceOk(p) && PiecesOk(rest) && InBounds(Homes(rest), |m|) && Home(p).addr + Home(p).len + k <= |m|
    requires Gather(m, Homes(rest)) == if k == 0 then [] else Slice(m, Extent(At(p.pfn, p.hi), k))
    ensures PiecesOk([p] + rest) && InBounds(Homes([p] + rest), |m|)
    ensures Gather(m, Homes([p] + rest)) == Slice(m, Extent(At(p.pfn, p.lo), p.hi - p.lo + k))
  {
    hide Gather, Homes, Slice;
    GatherPrepend(m, p, rest);
    SliceSplit(m, Home(p).addr, Home(p).len, k);
    assert k == 0 ==> Slice(m, Extent(At(p.pfn, p.hi), k)) == [] by {
      EmptySlice(m, At(p.pfn, p.hi));
    }
  }

  lemma EmptySlice(m: seq<byte>, a: nat)
    requires a <= |m|
    ensures Slice(m, Extent(a, 0)) == []
  {
  }

  /** The bytes of a run, page by page, are the bytes of the run. */
  ghost predicate RunAgrees(m: seq<byte>, pfn: nat, off: nat, len: nat)
    requires off < PAGE_SIZE && (0 < len ==> At(pfn, off) + len <= |m|)
  {
    var xs := Homes(RunPieces(pfn, off, len));
    InBounds(xs, |m|) && Gather(m, xs) == if len == 0 then [] else Slice(m, Extent(At(pfn, off), len))
  }

  lemma {:induction false} RunGather(m: seq<byte>, pfn: nat, off: nat, len: nat)
    requires off < PAGE_SIZE && (0 < len ==> At(pfn, off) + len <= |m|)
    ensures RunAgrees(m, pfn, off, len)
    decreases len
  {
    if len == 0 {
      assert Gather(m, Homes([])) == [];
    } else {
      RunGather(m, pfn + 1, 0, len - Min(PAGE_SIZE - off, len));
      RunLonger(m, pfn, off, len);
    }
  }

  lemma RunLonger(m: seq<byte>, pfn: nat, off: nat, len: nat)
    requires off < PAGE_SIZE && 0 < len && At(pfn, off) + len <= |m|
    requires RunAgrees(m, pfn + 1, 0, len - Min(PAGE_SIZE - off, len))
    ensures RunAgrees(m, pfn, off, len)
  {
    hide Gather, Homes, Slice, InBounds, PiecesOk;
    var n: nat := Min(PAGE_SIZE - off, len);
    RunStep(m, Piece(pfn, off, off + n), RunPieces(pfn + 1, 0, len - n), len - n);
    assert At(pfn, off) + n == At(pfn, off + n);
    assert n < len ==> At(pfn, off + n) == At(pfn + 1, 0);
  }

  lemma {:induction false} PiecesGather(m: seq<byte>, segs: seq<Segment>)
    requires SegmentsOk(segs) && InBounds(SegExtents(segs), |m|)
    ensures InBounds(Homes(Pieces(segs)), |m|)
    ensures Gather(m, Homes(Pieces(segs))) == Gather(m, SegExtents(segs))
  {
    if segs != [] {
      var n := |segs| - 1;
      var front, s := segs[..n], segs[n];
      var xs := SegExtents(segs);
      assert SegExtents(front) == xs[..n] && xs[n] == SegExtent(s);
      PiecesGather(m, front);
      RunGather(m, s.pfn, s.off, s.len);
      HomesConcat(Pieces(front), SegPieces(s));
      GatherConcat(m, Homes(Pieces(front)), Homes(SegPieces(s)));
    }
  }
}
