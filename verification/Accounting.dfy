/** How many window pages, bounce pages and list entries a request needs. */
module Accounting {
  import opened Memory
  import opened Layout
  import opened Window
  import opened ZeroCopy

  function CeilPages(n: nat): nat {
    (n + 4095) / 4096
  }

  /** Window pages of all segments: each one is rounded out to page boundaries on its own. */
  function WindowPages(segs: seq<Segment>): nat {
    if segs == [] then 0
    else WindowPages(segs[..|segs| - 1]) + CeilPages(segs[|segs| - 1].off + segs[|segs| - 1].len)
  }

  /** Partial pages of one segment: its ragged front and its ragged end, or its only page. */
  function PartialPages(s: Segment): nat {
    var end := s.off + s.len;
    if end <= PAGE_SIZE then (if s.off == 0 && s.len == PAGE_SIZE then 0 else 1)
    else (if s.off != 0 then 1 else 0) + (if OffsetOf(end) != 0 then 1 else 0)
  }

  function AllPartialPages(segs: seq<Segment>): nat {
    if segs == [] then 0 else AllPartialPages(segs[..|segs| - 1]) + PartialPages(segs[|segs| - 1])
  }

  lemma {:induction false} BouncedConcat(ps: seq<Piece>, qs: seq<Piece>)
    ensures Bounced(ps + qs) == Bounced(ps) + Bounced(qs)
  {
    if qs == [] {
      assert ps + qs == ps;
    } else {
      var front := qs[..|qs| - 1];
      assert (ps + qs)[..|ps + qs| - 1] == ps + front;
      BouncedConcat(ps, front);
      if !Whole(qs[|qs| - 1]) {
        SeqAssoc(Bounced(ps), Bounced(front), [qs[|qs| - 1]]);
      }
    }
  }

  /** Cutting the first page off a run, in numbers. */
  lemma FirstPageCounts(pfn: nat, off: nat, len: nat, n: nat)
    requires off < PAGE_SIZE && 0 < len && n == Min(PAGE_SIZE - off, len)
    ensures CeilPages(off + len) == 1 + CeilPages(len - n)
    ensures PartialPages(Segment(pfn, off, len))
         == (if off == 0 && n == PAGE_SIZE then 0 else 1)
          + (if n < len then PartialPages(Segment(pfn + 1, 0, len - n)) else 0)
  {
  }

  ghost predicate RunCounted(pfn: nat, off: nat, len: nat)
    requires off < PAGE_SIZE
  {
    && |RunPieces(pfn, off, len)| == CeilPages(off + len)
    && |Bounced(RunPieces(pfn, off, len))| == PartialPages(Segment(pfn, off, len))
  }

  lemma {:induction false} RunCounts(pfn: nat, off: nat, len: nat)
    requires off < PAGE_SIZE && 0 < len
    ensures RunCounted(pfn, off, len)
    decreases len
  {
    hide PartialPages, CeilPages;
    var n: nat := Min(PAGE_SIZE - off, len);
    var p, rest := Piece(pfn, off, off + n), RunPieces(pfn + 1, 0, len - n);
    FirstPageCounts(pfn, off, len, n);
    assert RunPieces(pfn, off, len) == [p] + rest;
    BouncedConcat([p], rest);
    BouncedOne(p);
    if n < len {
      RunCounts(pfn + 1, 0, len - n);
    } else {
      assert CeilPages(0) == 0 by { NoPages(); }
    }
  }

  lemma NoPages()
    ensures CeilPages(0) == 0
  {
  }

  lemma BouncedOne(p: Piece)
    ensures Bounced([p]) == if Whole(p) then [] else [p]
  {
    assert [p][..0] == [];
  }

  /** Exact page accounting for a whole request. */
  lemma {:induction false} PageAccounting(segs: seq<Segment>)
    requires SegmentsOk(segs)
    ensures |Pieces(segs)| == WindowPages(segs)
    ensures |Bounced(Pieces(segs))| == AllPartialPages(segs)
  {
    if segs != [] {
      var n := |segs| - 1;
      PageAccounting(segs[..n]);
      RunCounts(segs[n].pfn, segs[n].off, segs[n].len);
      BouncedConcat(Pieces(segs[..n]), SegPieces(segs[n]));
    }
  }

  /** Every bounce page of the request is one of the pages reserved for it. */
  predicate BouncesReserved(segs: seq<Segment>, f: Frames)
    requires SegmentsOk(segs)
  {
    forall k :: 0 <= k < |Bounced(Pieces(segs))| ==> BounceFrame(f, k) < f.reserved + NUM_RESERVED
  }

  /** The reserved pages suffice exactly if the segments have no more than 256 partial pages together. */
  lemma BouncePagesSuffice(segs: seq<Segment>, f: Frames)
    requires SegmentsOk(segs)
    ensures BouncesReserved(segs, f) <==> AllPartialPages(segs) <= MAX_SEGMENTS
  {
    PageAccounting(segs);
    if MAX_SEGMENTS < AllPartialPages(segs) {
      assert BounceFrame(f, MAX_SEGMENTS) == f.reserved + NUM_RESERVED;
    }
  }

  /** Single-page segments never need more bounce pages than there are segments... */
  lemma {:induction false} SinglePageSegmentsFit(segs: seq<Segment>)
    requires SegmentsOk(segs) && forall i :: 0 <= i < |segs| ==> segs[i].off + segs[i].len <= PAGE_SIZE
    ensures |Bounced(Pieces(segs))| <= |segs|
  {
    PageAccounting(segs);
    if segs != [] {
      SinglePageSegmentsFit(segs[..|segs| - 1]);
      PageAccounting(segs[..|segs| - 1]);
    }
  }

  /** n segments of one page each, every one straddling a page boundary. */
  function Straddling(n: nat): seq<Segment> {
    seq(n, i requires 0 <= i < n => Segment(2 * i, 512, PAGE_SIZE))
  }

  /** ...but 256 segments that straddle a page boundary need 512, twice what is reserved. */
  lemma {:induction false} StraddlingSegmentsOverflow(n: nat)
    ensures SegmentsOk(Straddling(n)) && Disjoint(SegExtents(Straddling(n)))
    ensures |Bounced(Pieces(Straddling(n)))| == 2 * n
  {
    forall i, j | 0 <= i < j < n ensures Apart(SegExtents(Straddling(n))[i], SegExtents(Straddling(n))[j]) {
      assert At(2 * i, 512) + PAGE_SIZE <= At(2 * j, 512);
    }
    PageAccounting(Straddling(n));
    StraddlingCount(n);
  }

  lemma {:induction false} StraddlingCount(n: nat)
    ensures AllPartialPages(Straddling(n)) == 2 * n
  {
    if n > 0 {
      StraddlingCount(n - 1);
      assert Straddling(n)[..n - 1] == Straddling(n - 1);
    }
  }

  // ---------------------------------------------------------------------------------------------
  // Entries

  /** The pages after the first of a run all continue its entry. */
  ghost predicate RunJoins(done: seq<Piece>, pfn: nat, len: nat, vm: nat)
    requires PiecesOk(done) && done != []
  {
    && PiecesOk(done + RunPieces(pfn, 0, len))
    && Entries(done + RunPieces(pfn, 0, len), vm) == Grown(Entries(done, vm), len)
  }

  lemma {:induction false} RunContinues(done: seq<Piece>, pfn: nat, len: nat, vm: nat)
    requires PiecesOk(done) && done != [] && (0 < len ==> done[|done| - 1].hi == PAGE_SIZE)
    ensures RunJoins(done, pfn, len, vm)
    decreases len
  {
    if len == 0 {
      assert done + RunPieces(pfn, 0, len) == done;
      SeqSnoc(Entries(done, vm));
    } else {
      hide RunJoins, Entries, AddPiece;
      var n: nat := Min(PAGE_SIZE, len);
      EntriesSnoc(done, Piece(pfn, 0, n), vm);
      RunContinues(done + [Piece(pfn, 0, n)], pfn + 1, len - n, vm);
      RunJoinsStep(done, pfn, len, n, vm);
    }
  }

  lemma RunJoinsStep(done: seq<Piece>, pfn: nat, len: nat, n: nat, vm: nat)
    requires PiecesOk(done) && done != [] && 0 < len && n == Min(PAGE_SIZE, len) && done[|done| - 1].hi == PAGE_SIZE
    requires PiecesOk(done + [Piece(pfn, 0, n)]) && RunJoins(done + [Piece(pfn, 0, n)], pfn + 1, len - n, vm)
    ensures RunJoins(done, pfn, len, vm)
  {
    hide Entries;
    var p, rest := Piece(pfn, 0, n), RunPieces(pfn + 1, 0, len - n);
    assert RunPieces(pfn, 0, len) == [p] + rest;
    SeqAssoc(done, [p], rest);
    EntriesSnoc(done, p, vm);
    assert AddPiece(Entries(done, vm), done, p, vm) == Grown(Entries(done, vm), n);
  }

  lemma EntriesSnoc(done: seq<Piece>, p: Piece, vm: nat)
    requires PiecesOk(done) && PieceOk(p)
    ensures PiecesOk(done + [p]) && Entries(done + [p], vm) == AddPiece(Entries(done, vm), done, p, vm)
  {
    assert (done + [p])[..|done|] == done;
  }

  /** A whole segment adds its length to the last entry, or opens one entry of its length. */
  function AddSegment(es: seq<Entry>, done: seq<Piece>, s: Segment, vm: nat): seq<Entry>
    requires done != [] ==> es != []
  {
    if done != [] && done[|done| - 1].hi == PAGE_SIZE && s.off == 0 then Grown(es, s.len)
    else es + [Entry(vm + At(|done|, s.off), s.len)]
  }

  lemma SegmentEntry(done: seq<Piece>, s: Segment, vm: nat)
    requires PiecesOk(done) && SegmentOk(s)
    ensures PiecesOk(done + SegPieces(s))
    ensures Entries(done + SegPieces(s), vm) == AddSegment(Entries(done, vm), done, s, vm)
  {
    hide Entries;
    var n: nat := Min(PAGE_SIZE - s.off, s.len);
    var p, rest := Piece(s.pfn, s.off, s.off + n), RunPieces(s.pfn + 1, 0, s.len - n);
    assert SegPieces(s) == [p] + rest;
    SeqAssoc(done, [p], rest);
    EntriesSnoc(done, p, vm);
    RunContinues(done + [p], s.pfn + 1, s.len - n, vm);
    SegmentGrows(Entries(done, vm), done, s, p, vm);
  }

  lemma SegmentGrows(es: seq<Entry>, done: seq<Piece>, s: Segment, p: Piece, vm: nat)
    requires PieceOk(p) && p.lo == s.off && p.hi - p.lo <= s.len && (done != [] ==> es != [])
    ensures Grown(AddPiece(es, done, p, vm), s.len - (p.hi - p.lo)) == AddSegment(es, done, s, vm)
  {
  }

  lemma {:induction false} EntriesPerSegment(segs: seq<Segment>, vm: nat)
    requires SegmentsOk(segs)
    ensures |Entries(Pieces(segs), vm)| <= |segs|
  {
    if segs != [] {
      EntriesPerSegment(segs[..|segs| - 1], vm);
      SegmentEntry(Pieces(segs[..|segs| - 1]), segs[|segs| - 1], vm);
    }
  }

  /** First and last window page of an entry. */
  function FirstPage(e: Entry, vm: nat): nat {
    if vm <= e.addr then PageOf(e.addr - vm) else 0
  }

  function LastPage(e: Entry, vm: nat): nat {
    if vm < e.addr + e.len then PageOf(e.addr + e.len - 1 - vm) else 0
  }

  /** Entries in address order that never share a window page, all within the first n pages. */
  predicate Ordered(es: seq<Entry>, vm: nat, n: nat) {
    && (forall i :: 0 <= i < |es| ==> vm <= es[i].addr && 0 < es[i].len && LastPage(es[i], vm) < n)
    && (forall i, j :: 0 <= i < j < |es| ==> LastPage(es[i], vm) < FirstPage(es[j], vm))
  }

  lemma {:induction false} EntriesOrdered(ps: seq<Piece>, vm: nat)
    requires PiecesOk(ps)
    ensures Ordered(Entries(ps, vm), vm, |ps|)
  {
    if ps != [] {
      var front, p := ps[..|ps| - 1], ps[|ps| - 1];
      EntriesOrdered(front, vm);
      EntriesAbut(front, vm);
      OrderedStep(Entries(front, vm), front, p, vm);
    }
  }

  lemma OrderedStep(es: seq<Entry>, front: seq<Piece>, p: Piece, vm: nat)
    requires PieceOk(p) && PiecesOk(front) && Abuts(es, front, vm) && Ordered(es, vm, |front|)
    ensures Ordered(AddPiece(es, front, p, vm), vm, |front| + 1)
  {
    var r := AddPiece(es, front, p, vm);
    var n := |r| - 1;
    if Continues(front, p) {
      assert r[n].addr + r[n].len == vm + At(|front|, p.hi);
      assert FirstPage(r[n], vm) == FirstPage(es[n], vm);
    } else {
      assert r[n] == Entry(vm + At(|front|, p.lo), p.hi - p.lo);
      assert FirstPage(r[n], vm) == |front|;
    }
    assert LastPage(r[n], vm) == |front|;
    forall i, j | 0 <= i < j < |r| ensures LastPage(r[i], vm) < FirstPage(r[j], vm) {
      assert r[i] == es[i];
    }
  }

  /** One segment per page. */
  function PageSegments(ps: seq<Piece>): seq<Segment>
    requires PiecesOk(ps)
  {
    seq(|ps|, i requires 0 <= i < |ps| => Segment(ps[i].pfn, ps[i].lo, ps[i].hi - ps[i].lo))
  }

  /** Mapping the pages of a request one by one gives the same layout as mapping its segments. */
  lemma {:induction false} SplittingIsInvisible(ps: seq<Piece>)
    requires PiecesOk(ps)
    ensures SegmentsOk(PageSegments(ps)) && Pieces(PageSegments(ps)) == ps
  {
    assert forall i :: 0 <= i < |ps| ==> PieceOk(ps[i]);
    if ps != [] {
      hide SegPieces, Pieces;
      var front, p := ps[..|ps| - 1], ps[|ps| - 1];
      SplittingIsInvisible(front);
      PiecesSnoc(PageSegments(front), Segment(p.pfn, p.lo, p.hi - p.lo));
      assert PageSegments(ps) == PageSegments(front) + [Segment(p.pfn, p.lo, p.hi - p.lo)];
      OnePage(p);
      SeqSnoc(ps);
    }
  }

  lemma PiecesSnoc(segs: seq<Segment>, s: Segment)
    requires SegmentsOk(segs) && SegmentOk(s)
    ensures SegmentsOk(segs + [s]) && Pieces(segs + [s]) == Pieces(segs) + SegPieces(s)
  {
    assert (segs + [s])[..|segs|] == segs;
  }

  lemma OnePage(p: Piece)
    requires PieceOk(p)
    ensures SegPieces(Segment(p.pfn, p.lo, p.hi - p.lo)) == [p]
  {
    assert RunPieces(p.pfn + 1, 0, 0) == [];
  }
}
