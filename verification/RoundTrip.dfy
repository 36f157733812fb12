/** What is written from one segmentation is read back into any other, on either path. */
module RoundTrip {
  import opened Memory
  import opened Layout
  import opened ZeroCopy
  import opened Replay
  import opened Accounting
  import opened Transfer
  import opened CopyPath
  import opened ServeCycle
  import D = DataMapping
  import L = Library
  import C = CharDev
  import X = Exchange

  lemma ReadBack(d: seq<byte>, pos: nat, payload: seq<byte>)
    requires pos + |payload| <= |d|
    ensures Splice(d, pos, payload)[pos..pos + |payload|] == payload
  {
    SpliceHit(d, pos, payload);
  }

  /**
   * Zero-copy write equals copying write: the mapper walks the request page by page, the copying path
   * walks the bios' whole vectors, and the two leave the same disk.
   */
  lemma WritesAgree(m: seq<byte>, bio: seq<Bio>, payload: seq<byte>, vecs: seq<Segment>,
                    d: seq<byte>, mapped: seq<byte>, pos: nat)
    requires SegmentsOk(vecs) && Holds(m, bio, payload) && ChainRest(bio) == SegExtents(vecs)
    requires Wrote(d, mapped, pos, m, PageSegments(Pieces(vecs)))
    ensures pos + |payload| <= |d| && mapped == Splice(d, pos, payload)
  {
    hide Gather, Splice, Pieces, PageSegments;
    var ps := Pieces(vecs);
    PiecesGather(m, vecs);
    SplittingIsInvisible(ps);
    PiecesGather(m, PageSegments(ps));
  }

  /** The copying path delivers, page by page, what a mapped read delivers. */
  lemma CopyDelivers(m: seq<byte>, segs: seq<Segment>, f: Frames, b: seq<byte>)
    requires SegmentsOk(segs) && InBounds(SegExtents(segs), |m|) && Disjoint(SegExtents(segs))
    requires |b| == Total(SegExtents(segs))
    ensures InBounds(Homes(Pieces(segs)), |m|) && |b| == Total(Homes(Pieces(segs)))
    ensures Delivered(m, Scatter(m, Homes(Pieces(segs)), b), segs, f, b)
  {
    hide Scatter, Gather, Homes, Pieces, Disjoint, Total, InBounds;
    var xs := Homes(Pieces(segs));
    PiecesGather(m, segs);
    PiecesDisjoint(segs);
    GatherLength(m, xs);
    GatherLength(m, SegExtents(segs));
    var r := Scatter(m, xs, b);
    GatherScatter(m, xs, b);
    PiecesGather(r, segs);
    forall a | 0 <= a < |m| && !Covers(SegExtents(segs), a) ensures r[a] == m[a] {
      HomesInSegments(segs, a);
      OutsideHomes(m, xs, b, a);
    }
  }

  lemma OutsideHomes(m: seq<byte>, xs: seq<Extent>, b: seq<byte>, a: nat)
    requires InBounds(xs, |m|) && |b| == Total(xs) && a < |m| && !Covers(xs, a)
    ensures Scatter(m, xs, b)[a] == m[a]
  {
    ScatterOutside(m, xs, b, a);
  }

  /** Zero-copy read equals copying read: the two memories differ at most in the driver's own pages. */
  lemma ReadsAgree(m: seq<byte>, segs: seq<Segment>, f: Frames, b: seq<byte>, mapped: seq<byte>)
    requires SegmentsOk(segs) && InBounds(SegExtents(segs), |m|) && Disjoint(SegExtents(segs)) && |b| == Total(SegExtents(segs))
    requires Delivered(m, mapped, segs, f, b)
    ensures InBounds(Homes(Pieces(segs)), |m|) && |b| == Total(Homes(Pieces(segs)))
    ensures forall a :: 0 <= a < |m| && !InReserved(f, a) ==> mapped[a] == Scatter(m, Homes(Pieces(segs)), b)[a]
  {
    hide Delivered, Scatter, Homes, Pieces, Total, InBounds;
    CopyDelivers(m, segs, f, b);
    DeliveredAgree(m, mapped, Scatter(m, Homes(Pieces(segs)), b), segs, f, b);
  }

  /** The round trip, whichever path took the payload out and whichever brought it back. */
  lemma WrittenIsRead(d0: seq<byte>, d1: seq<byte>, pos: nat, m: seq<byte>, out: seq<Segment>,
                      m1: seq<byte>, m2: seq<byte>, back: seq<Segment>, f: Frames)
    requires Wrote(d0, d1, pos, m, out) && Total(SegExtents(back)) == Total(SegExtents(out))
    requires pos + Total(SegExtents(back)) <= |d1|
    requires Delivered(m1, m2, back, f, d1[pos..pos + Total(SegExtents(back))])
    ensures Gather(m2, SegExtents(back)) == Gather(m, SegExtents(out))
  {
    hide Gather, Splice, Total;
    GatherLength(m, SegExtents(out));
    ReadBack(d0, pos, Gather(m, SegExtents(out)));
  }

  /** Both requests mapped: a whole write and a whole read, with different segments of the same length. */
  method MappedRoundTrip(p: L.Process, w: D.Request, out: seq<Segment>, r: D.Request, back: seq<Segment>, pos: nat)
    requires p.conn.Valid() && p.conn.mem != p.disk && AllZero(p.conn.ptes[..], p.conn.f) && w != r
    requires RequestOk(out, p.conn.f, p.conn.mem.Length) && RequestOk(back, p.conn.f, p.conn.mem.Length)
    requires out != [] && |Entries(Pieces(out), p.conn.vm)| <= MAX_SEGMENTS && |Pieces(out)| < p.conn.ptes.Length
    requires back != [] && |Entries(Pieces(back), p.conn.vm)| <= MAX_SEGMENTS && |Pieces(back)| < p.conn.ptes.Length
    requires w.mapType == D.Unmapped && w.length == Total(SegExtents(out))
    requires r.mapType == D.Unmapped && r.length == Total(SegExtents(back)) == w.length
    requires pos + w.length <= p.disk.Length && WordsAgree(Entries(Pieces(back), p.conn.vm))
    modifies w, r, p.conn.ptes, p.conn.words, p.conn.mem, p.disk
    ensures InBounds(SegExtents(out), p.conn.mem.Length) && InBounds(SegExtents(back), p.conn.mem.Length)
    ensures Gather(p.conn.mem[..], SegExtents(back)) == old(Gather(p.conn.mem[..], SegExtents(out)))
    ensures AllZero(p.conn.ptes[..], p.conn.f)
  {
    hide RequestOk, Gather, Wrote, Delivered, Pieces, Entries, WordsAgree, InBounds, Total;
    SegmentsInBounds(out, p.conn.f, p.conn.mem.Length);
    SegmentsInBounds(back, p.conn.f, p.conn.mem.Length);
    ghost var m, d0 := p.conn.mem[..], p.disk[..];
    var status := Serve(p, w, out, L.Write, pos);
    ghost var d1, m1 := p.disk[..], p.conn.mem[..];
    status := Serve(p, r, back, L.Read, pos);
    assert d1[pos..pos + r.length] == d1[pos..pos + Total(SegExtents(back))];
    WrittenIsRead(d0, d1, pos, m, out, m1, p.conn.mem[..], back, p.conn.f);
  }

  lemma SegmentsInBounds(segs: seq<Segment>, f: Frames, n: nat)
    requires RequestOk(segs, f, n)
    ensures InBounds(SegExtents(segs), n)
  {
  }

  /**
   * Both requests copied: two turns of the library's loop, with the stream cut at will. If neither
   * turn gave up, the read request's segments hold the write's payload.
   */
  method CopiedRoundTrip(conn: C.Connection, disk: X.Backend, sound: bool, ghost payload: seq<byte>) returns (ok: bool)
    requires conn.blockDev != null && |conn.blockDev.pending| >= 2 && conn.sending == null
    requires X.Others(conn.waiting, conn.blockDev.pending[0], conn.mem.Length)
    requires X.Others(conn.waiting, conn.blockDev.pending[1], conn.mem.Length)
    requires conn.mem != disk.data && conn.blockDev.pending[0] != conn.blockDev.pending[1]
    requires var w, r := conn.blockDev.pending[0], conn.blockDev.pending[1];
      && X.Sound(w, conn.mem[..], disk.data.Length, payload) && w.op == C.Write
      && X.Sound(r, conn.mem[..], disk.data.Length, []) && r.op == C.Read && Disjoint(r.vecs)
      && r.pos == w.pos && r.length == w.length
    modifies conn`sending, conn`waiting, conn.blockDev, conn.blockDev.pending[0], conn.blockDev.pending[1],
             conn.waiting, conn.mem, disk.data
    ensures var r := old(conn.blockDev.pending)[1];
      ok ==> InBounds(r.vecs, conn.mem.Length) && Gather(conn.mem[..], r.vecs) == payload
    ensures sound ==> ok
  {
    hide Holds, Splice, Scatter, Total, InBounds, Gather, Disjoint;
    var r := conn.blockDev.pending[1];
    ghost var d0, pos := disk.data[..], r.pos;
    ok := X.ServeOne(conn, disk, sound, payload);
    if ok {
      ghost var m1 := conn.mem[..];
      ok := X.ServeOne(conn, disk, sound, []);
      if ok {
        ReadBack(d0, pos, payload);
        GatherScatter(m1, r.vecs, payload);
      }
    }
  }
}
