/** Bounce pages: what mapping puts in them, what copy-in takes out, and why zero copy equals copying. */
module ZeroCopy {
  import opened Memory
  import opened Layout

  /** The driver's own pages: the two list pages, the bounce pages and the shared zero page. */
  predicate Driver(f: Frames, pfn: nat) {
    f.reserved <= pfn < f.reserved + NUM_RESERVED || pfn == f.zero
  }

  /** Bio pages are never driver pages. */
  predicate Clear(ps: seq<Piece>, f: Frames) {
    forall i :: 0 <= i < |ps| ==> !Driver(f, ps[i].pfn)
  }

  predicate InReserved(f: Frames, a: nat) {
    At(f.reserved, 0) <= a < At(f.reserved + NUM_RESERVED, 0)
  }

  /** The bounce page of the k-th partial piece. */
  function BounceFrame(f: Frames, k: nat): nat {
    f.reserved + FIRST_BOUNCE + k
  }

  /** Memory after mapping: each bounce page is zeroed and, for a write, takes its piece's bytes. */
  function FillBounces(m: seq<byte>, bs: seq<Piece>, f: Frames, isWrite: bool): (r: seq<byte>)
    requires PiecesOk(bs) && InBounds(Homes(bs), |m|) && At(BounceFrame(f, |bs|), 0) <= |m|
    ensures |r| == |m|
  {
    if bs == [] then m
    else
      var k := |bs| - 1;
      assert Homes(bs)[k] == Home(bs[k]);
      assert Homes(bs[..k]) == Homes(bs)[..k];
      FillOne(FillBounces(m, bs[..k], f, isWrite), bs[k], BounceFrame(f, k), isWrite)
  }

  function FillOne(m: seq<byte>, b: Piece, frame: nat, isWrite: bool): (r: seq<byte>)
    requires PieceOk(b) && Home(b).addr + Home(b).len <= |m| && At(frame, PAGE_SIZE) <= |m|
    ensures |r| == |m|
  {
    var z := Splice(m, At(frame, 0), Zeros(PAGE_SIZE));
    if isWrite then Splice(z, InFrame(b, frame).addr, Slice(m, Home(b))) else z
  }

  /** Memory after copy-in: each bounce page goes back to the bytes its piece covers, in order. */
  function CopyBack(m: seq<byte>, bs: seq<Piece>, f: Frames): (r: seq<byte>)
    requires PiecesOk(bs) && InBounds(Homes(bs), |m|) && At(BounceFrame(f, |bs|), 0) <= |m|
    ensures |r| == |m|
  {
    if bs == [] then m
    else
      var k := |bs| - 1;
      assert Homes(bs)[k] == Home(bs[k]);
      assert Homes(bs[..k]) == Homes(bs)[..k];
      CopyOne(CopyBack(m, bs[..k], f), bs[k], BounceFrame(f, k))
  }

  function CopyOne(m: seq<byte>, b: Piece, frame: nat): (r: seq<byte>)
    requires PieceOk(b) && Home(b).addr + Home(b).len <= |m| && At(frame, PAGE_SIZE) <= |m|
    ensures |r| == |m|
  {
    Splice(m, Home(b).addr, Slice(m, InFrame(b, frame)))
  }

  // ---------------------------------------------------------------------------------------------
  // The window shows the same payload as the bio

  lemma {:induction false} BouncedIn(ps: seq<Piece>, k: nat)
    requires k < |Bounced(ps)|
    ensures Bounced(ps)[k] in ps && !Whole(Bounced(ps)[k])
  {
    var front := ps[..|ps| - 1];
    if k < |Bounced(front)| {
      BouncedIn(front, k);
    }
  }

  lemma BouncedOk(ps: seq<Piece>, f: Frames)
    requires PiecesOk(ps)
    ensures PiecesOk(Bounced(ps))
    ensures Clear(ps, f) ==> Clear(Bounced(ps), f)
    ensures forall n: nat :: InBounds(Homes(ps), n) ==> InBounds(Homes(Bounced(ps)), n)
  {
    var bs := Bounced(ps);
    forall k | 0 <= k < |bs| ensures bs[k] in ps {
      BouncedIn(ps, k);
    }
    forall n: nat | InBounds(Homes(ps), n) ensures InBounds(Homes(bs), n) {
      forall k | 0 <= k < |bs| ensures Home(bs[k]).addr + Home(bs[k]).len <= n {
        var i :| 0 <= i < |ps| && ps[i] == bs[k];
        assert Homes(ps)[i] == Home(bs[k]);
      }
    }
  }

  /** Byte o of window page i. */
  predicate InPiece(ps: seq<Piece>, i: int, o: int) {
    0 <= i < |ps| && 0 <= ps[i].lo <= o < ps[i].hi
  }

  predicate InBoundsBoth(ps: seq<Piece>, fs: seq<nat>, n: nat) {
    PiecesOk(ps) && |fs| == |ps| && InBounds(Homes(ps), n) && InBounds(Targets(ps, fs), n)
  }

  lemma BoundsAt(ps: seq<Piece>, fs: seq<nat>, n: nat, i: nat, o: nat)
    requires InBoundsBoth(ps, fs, n) && InPiece(ps, i, o)
    ensures At(ps[i].pfn, o) < n && At(fs[i], o) < n
  {
    assert Homes(ps)[i] == Home(ps[i]) && Targets(ps, fs)[i] == InFrame(ps[i], fs[i]);
  }

  /** Whenever every window byte equals its home byte, the window and the bio hold the same payload. */
  lemma MirrorGather(m': seq<byte>, m: seq<byte>, ps: seq<Piece>, fs: seq<nat>)
    requires |m'| == |m| && InBoundsBoth(ps, fs, |m|)
    requires forall i, o {:trigger InPiece(ps, i, o)} | InPiece(ps, i, o) ::
               At(fs[i], o) < |m| && At(ps[i].pfn, o) < |m| && m'[At(fs[i], o)] == m[At(ps[i].pfn, o)]
    ensures Gather(m', Targets(ps, fs)) == Gather(m, Homes(ps))
  {
    hide Gather, Slice;
    var xs, ys := Targets(ps, fs), Homes(ps);
    forall i | 0 <= i < |ps| ensures Slice(m', xs[i]) == Slice(m, ys[i]) {
      MirrorPiece(m', m, ps, fs, i);
    }
    GatherParallel(m', xs, m, ys);
  }

  lemma MirrorPiece(m': seq<byte>, m: seq<byte>, ps: seq<Piece>, fs: seq<nat>, i: nat)
    requires |m'| == |m| && InBoundsBoth(ps, fs, |m|) && i < |ps|
    requires forall i, o {:trigger InPiece(ps, i, o)} | InPiece(ps, i, o) ::
               At(fs[i], o) < |m| && At(ps[i].pfn, o) < |m| && m'[At(fs[i], o)] == m[At(ps[i].pfn, o)]
    ensures Slice(m', Targets(ps, fs)[i]) == Slice(m, Homes(ps)[i])
  {
    hide Slice;
    assert Targets(ps, fs)[i] == InFrame(ps[i], fs[i]) && Homes(ps)[i] == Home(ps[i]);
    forall o | ps[i].lo <= o < ps[i].hi ensures m'[At(fs[i], o)] == m[At(ps[i].pfn, o)] {
      assert InPiece(ps, i, o);
    }
    MirrorSlice(m', m, ps[i], fs[i]);
  }

  lemma MirrorSlice(m': seq<byte>, m: seq<byte>, p: Piece, frame: nat)
    requires PieceOk(p) && At(frame, p.hi) <= |m'| && At(p.pfn, p.hi) <= |m|
    requires forall o | p.lo <= o < p.hi :: m'[At(frame, o)] == m[At(p.pfn, o)]
    ensures Slice(m', InFrame(p, frame)) == Slice(m, Home(p))
  {
    forall a | At(frame, p.lo) <= a < At(frame, p.hi) ensures m'[a] == m[a - At(frame, p.lo) + At(p.pfn, p.lo)] {
      var o := a - At(frame, 0);
      assert m'[At(frame, o)] == m[At(p.pfn, o)];
    }
    SliceEqual(m', m, InFrame(p, frame), Home(p));
  }

  /** The frame of window page i: the piece's own, or the bounce page that carries the piece. */
  lemma {:induction false} FrameAt(ps: seq<Piece>, f: Frames, i: nat)
    requires i < |ps|
    ensures Whole(ps[i]) ==> WindowFrames(ps, f)[i] == ps[i].pfn
    ensures !Whole(ps[i]) ==> var k := |Bounced(ps[..i])|;
      WindowFrames(ps, f)[i] == BounceFrame(f, k) && k < |Bounced(ps)| && Bounced(ps)[k] == ps[i]
  {
    var n := |ps| - 1;
    if i < n {
      FrameAt(ps[..n], f, i);
      assert ps[..n][..i] == ps[..i];
    }
  }

  /** Different window pages carry their pieces in different places. */
  lemma {:induction false} TargetsDisjoint(ps: seq<Piece>, f: Frames)
    requires PiecesOk(ps) && Clear(ps, f) && Disjoint(Homes(ps)) && |Bounced(ps)| <= MAX_SEGMENTS
    ensures Disjoint(Targets(ps, WindowFrames(ps, f)))
  {
    var xs := Targets(ps, WindowFrames(ps, f));
    forall i, j | 0 <= i < j < |ps| ensures Apart(xs[i], xs[j]) {
      FrameAt(ps, f, i);
      FrameAt(ps, f, j);
      if Whole(ps[i]) && Whole(ps[j]) {
        assert Apart(Homes(ps)[i], Homes(ps)[j]);
      } else if !Whole(ps[i]) && !Whole(ps[j]) {
        BouncedGrows(ps, i, j);
      }
    }
  }

  lemma {:induction false} BouncedGrows(ps: seq<Piece>, i: nat, j: nat)
    requires i < j <= |ps| && !Whole(ps[i])
    ensures |Bounced(ps[..i])| < |Bounced(ps[..j])|
    decreases j
  {
    assert ps[..j][..j - 1] == ps[..j - 1];
    if i < j - 1 {
      BouncedGrows(ps, i, j - 1);
    }
  }

  /** The window page that carries the k-th bounced piece. */
  lemma {:induction false} BounceIndex(ps: seq<Piece>, k: nat) returns (i: nat)
    requires k < |Bounced(ps)|
    ensures i < |ps| && ps[i] == Bounced(ps)[k] && !Whole(ps[i]) && |Bounced(ps[..i])| == k
  {
    var n := |ps| - 1;
    if k < |Bounced(ps[..n])| {
      i := BounceIndex(ps[..n], k);
      assert ps[..n][..i] == ps[..i];
    } else {
      i := n;
    }
  }

  lemma BouncedDisjoint(ps: seq<Piece>)
    requires PiecesOk(ps) && Disjoint(Homes(ps))
    ensures PiecesOk(Bounced(ps)) && Disjoint(Homes(Bounced(ps)))
  {
    BouncedOk(ps, Frames(0, 0));
    var bs := Bounced(ps);
    forall k, l | 0 <= k < l < |bs| ensures Apart(Homes(bs)[k], Homes(bs)[l]) {
      var i := BounceIndex(ps, k);
      var j := BounceIndex(ps, l);
      assert Homes(ps)[i] == Homes(bs)[k] && Homes(ps)[j] == Homes(bs)[l];
    }
  }

  // ---------------------------------------------------------------------------------------------
  // Filling the bounce pages

  predicate Bounceable(bs: seq<Piece>, f: Frames, n: nat) {
    && PiecesOk(bs) && InBounds(Homes(bs), n) && Clear(bs, f)
    && |bs| <= MAX_SEGMENTS && At(f.reserved + NUM_RESERVED, 0) <= n
  }

  lemma FillOneOutside(m: seq<byte>, b: Piece, frame: nat, isWrite: bool, a: nat)
    requires PieceOk(b) && Home(b).addr + Home(b).len <= |m| && At(frame, PAGE_SIZE) <= |m| && a < |m|
    requires !(At(frame, 0) <= a < At(frame, PAGE_SIZE))
    ensures FillOne(m, b, frame, isWrite)[a] == m[a]
  {
  }

  lemma BounceableFront(bs: seq<Piece>, f: Frames, n: nat)
    requires Bounceable(bs, f, n) && bs != []
    ensures Bounceable(bs[..|bs| - 1], f, n)
    ensures Home(bs[|bs| - 1]).addr + Home(bs[|bs| - 1]).len <= n && !Driver(f, bs[|bs| - 1].pfn)
  {
    assert Homes(bs)[|bs| - 1] == Home(bs[|bs| - 1]);
    assert Homes(bs[..|bs| - 1]) == Homes(bs)[..|bs| - 1];
  }

  /** Mapping writes nothing but bounce pages. */
  lemma {:induction false} FillOutside(m: seq<byte>, bs: seq<Piece>, f: Frames, isWrite: bool, a: nat)
    requires Bounceable(bs, f, |m|) && a < |m|
    requires !(At(f.reserved + FIRST_BOUNCE, 0) <= a < At(BounceFrame(f, |bs|), 0))
    ensures FillBounces(m, bs, f, isWrite)[a] == m[a]
  {
    if bs != [] {
      hide FillOne;
      var k := |bs| - 1;
      BounceableFront(bs, f, |m|);
      FillOutside(m, bs[..k], f, isWrite, a);
      FillOneOutside(FillBounces(m, bs[..k], f, isWrite), bs[k], BounceFrame(f, k), isWrite, a);
    }
  }

  /** One bounce page: its piece's bytes for a write, zeros everywhere else. */
  lemma FillOneHolds(m: seq<byte>, b: Piece, frame: nat, isWrite: bool, o: nat)
    requires PieceOk(b) && Home(b).addr + Home(b).len <= |m| && At(frame, PAGE_SIZE) <= |m| && o < PAGE_SIZE
    ensures FillOne(m, b, frame, isWrite)[At(frame, o)]
         == if isWrite && b.lo <= o < b.hi then m[At(b.pfn, o)] else 0
  {
    hide Splice;
    var z := Splice(m, At(frame, 0), Zeros(PAGE_SIZE));
    SpliceAt(m, At(frame, 0), Zeros(PAGE_SIZE), At(frame, o));
    SpliceAt(z, InFrame(b, frame).addr, Slice(m, Home(b)), At(frame, o));
  }

  /** Every bounce page, byte by byte, after mapping. */
  lemma {:induction false} FillHolds(m: seq<byte>, bs: seq<Piece>, f: Frames, isWrite: bool, k: nat, o: nat)
    requires Bounceable(bs, f, |m|) && k < |bs| && o < PAGE_SIZE
    ensures At(bs[k].pfn, o) < |m| || !(bs[k].lo <= o < bs[k].hi)
    ensures FillBounces(m, bs, f, isWrite)[At(BounceFrame(f, k), o)]
         == if isWrite && bs[k].lo <= o < bs[k].hi then m[At(bs[k].pfn, o)] else 0
  {
    hide FillOne;
    assert Homes(bs)[k] == Home(bs[k]);
    var n := |bs| - 1;
    BounceableFront(bs, f, |m|);
    var m1 := FillBounces(m, bs[..n], f, isWrite);
    if k < n {
      FillHolds(m, bs[..n], f, isWrite, k, o);
      FillOneOutside(m1, bs[n], BounceFrame(f, n), isWrite, At(BounceFrame(f, k), o));
    } else {
      FillOneHolds(m1, bs[n], BounceFrame(f, n), isWrite, o);
      if isWrite && bs[k].lo <= o < bs[k].hi {
        FillOutside(m, bs[..n], f, isWrite, At(bs[k].pfn, o));
      }
    }
  }

  // ---------------------------------------------------------------------------------------------
  // Emptying the bounce pages

  lemma {:induction false} CopyOutside(m: seq<byte>, bs: seq<Piece>, f: Frames, a: nat)
    requires Bounceable(bs, f, |m|) && a < |m|
    requires forall k :: 0 <= k < |bs| ==> !Inside(Homes(bs)[k], a)
    ensures CopyBack(m, bs, f)[a] == m[a]
  {
    if bs != [] {
      var k := |bs| - 1;
      BounceableFront(bs, f, |m|);
      assert Homes(bs[..k]) == Homes(bs)[..k];
      assert !Inside(Homes(bs)[k], a);
      CopyOutside(m, bs[..k], f, a);
    }
  }

  lemma {:induction false} CopyReserved(m: seq<byte>, bs: seq<Piece>, f: Frames, a: nat)
    requires Bounceable(bs, f, |m|) && a < |m| && InReserved(f, a)
    ensures CopyBack(m, bs, f)[a] == m[a]
  {
    forall k | 0 <= k < |bs| ensures !Inside(Homes(bs)[k], a) {
      assert !Driver(f, bs[k].pfn);
    }
    CopyOutside(m, bs, f, a);
  }

  lemma CopyOneHolds(m: seq<byte>, b: Piece, frame: nat, o: nat)
    requires PieceOk(b) && Home(b).addr + Home(b).len <= |m| && At(frame, PAGE_SIZE) <= |m| && b.lo <= o < b.hi
    ensures CopyOne(m, b, frame)[At(b.pfn, o)] == m[At(frame, o)]
  {
    assert Slice(m, InFrame(b, frame))[o - b.lo] == m[At(frame, o)];
  }

  lemma CopyOneOutside(m: seq<byte>, b: Piece, frame: nat, a: nat)
    requires PieceOk(b) && Home(b).addr + Home(b).len <= |m| && At(frame, PAGE_SIZE) <= |m| && a < |m|
    requires !Inside(Home(b), a)
    ensures CopyOne(m, b, frame)[a] == m[a]
  {
  }

  /** Copy-in delivers every bounce page to the bytes its piece covers. */
  lemma {:induction false} CopyHolds(m: seq<byte>, bs: seq<Piece>, f: Frames, k: nat, o: nat)
    requires Bounceable(bs, f, |m|) && Disjoint(Homes(bs)) && k < |bs| && bs[k].lo <= o < bs[k].hi
    ensures At(bs[k].pfn, o) < |m| && CopyBack(m, bs, f)[At(bs[k].pfn, o)] == m[At(BounceFrame(f, k), o)]
  {
    hide CopyOne;
    assert Homes(bs)[k] == Home(bs[k]);
    var n := |bs| - 1;
    BounceableFront(bs, f, |m|);
    var c := CopyBack(m, bs[..n], f);
    if k < n {
      assert Homes(bs[..n]) == Homes(bs)[..n];
      CopyHolds(m, bs[..n], f, k, o);
      assert Apart(Homes(bs)[k], Homes(bs)[n]);
      CopyOneOutside(c, bs[n], BounceFrame(f, n), At(bs[k].pfn, o));
    } else {
      CopyReserved(m, bs[..n], f, At(BounceFrame(f, n), o));
      CopyOneHolds(c, bs[n], BounceFrame(f, n), o);
    }
  }

  // ---------------------------------------------------------------------------------------------
  // Segments that do not overlap have pieces that do not overlap

  lemma {:induction false} RunWithin(pfn: nat, off: nat, len: nat, i: nat)
    requires off < PAGE_SIZE && i < |RunPieces(pfn, off, len)|
    ensures var x := Home(RunPieces(pfn, off, len)[i]);
            At(pfn, off) <= x.addr && x.addr + x.len <= At(pfn, off) + len
    decreases len
  {
    if i > 0 {
      RunWithin(pfn + 1, 0, len - Min(PAGE_SIZE - off, len), i - 1);
    }
  }

  lemma {:induction false} RunDisjoint(pfn: nat, off: nat, len: nat)
    requires off < PAGE_SIZE
    ensures Disjoint(Homes(RunPieces(pfn, off, len)))
    decreases len
  {
    if len > 0 {
      var n := Min(PAGE_SIZE - off, len);
      var ps, rest := RunPieces(pfn, off, len), RunPieces(pfn + 1, 0, len - n);
      RunDisjoint(pfn + 1, 0, len - n);
      forall i, j | 0 <= i < j < |ps| ensures Apart(Homes(ps)[i], Homes(ps)[j]) {
        RunWithin(pfn + 1, 0, len - n, j - 1);
        assert ps[j] == rest[j - 1];
        if i > 0 {
          assert ps[i] == rest[i - 1];
          assert Apart(Homes(rest)[i - 1], Homes(rest)[j - 1]);
        }
      }
    }
  }

  /** Every piece lies inside the segment it was cut from. */
  lemma {:induction false} PieceWithin(segs: seq<Segment>, i: nat) returns (s: nat)
    requires SegmentsOk(segs) && i < |Pieces(segs)|
    ensures s < |segs|
    ensures var x, y := Home(Pieces(segs)[i]), SegExtent(segs[s]); y.addr <= x.addr && x.addr + x.len <= y.addr + y.len
  {
    var n := |segs| - 1;
    var front := Pieces(segs[..n]);
    if i < |front| {
      s := PieceWithin(segs[..n], i);
    } else {
      s := n;
      RunWithin(segs[n].pfn, segs[n].off, segs[n].len, i - |front|);
    }
  }

  lemma {:induction false} PiecesDisjoint(segs: seq<Segment>)
    requires SegmentsOk(segs) && Disjoint(SegExtents(segs))
    ensures Disjoint(Homes(Pieces(segs)))
  {
    if segs != [] {
      var n := |segs| - 1;
      var xs := SegExtents(segs);
      assert SegExtents(segs[..n]) == xs[..n];
      PiecesDisjoint(segs[..n]);
      RunDisjoint(segs[n].pfn, segs[n].off, segs[n].len);
      var front, ps := Pieces(segs[..n]), Pieces(segs);
      forall i, j | 0 <= i < j < |ps| ensures Apart(Homes(ps)[i], Homes(ps)[j]) {
        if j < |front| {
          assert Apart(Homes(front)[i], Homes(front)[j]);
        } else if i < |front| {
          var s := PieceWithin(segs[..n], i);
          assert Apart(xs[s], xs[n]);
          RunWithin(segs[n].pfn, segs[n].off, segs[n].len, j - |front|);
        } else {
          assert Apart(Homes(SegPieces(segs[n]))[i - |front|], Homes(SegPieces(segs[n]))[j - |front|]);
        }
      }
    }
  }

  // ---------------------------------------------------------------------------------------------
  // The two transfer theorems, in terms of physical memory

  /** What the block layer promises about a data request, plus room for its bounce pages. */
  predicate RequestOk(segs: seq<Segment>, f: Frames, n: nat) {
    && SegmentsOk(segs) && InBounds(SegExtents(segs), n) && Disjoint(SegExtents(segs))
    && Clear(Pieces(segs), f) && |Bounced(Pieces(segs))| <= MAX_SEGMENTS
    && At(f.reserved + NUM_RESERVED, 0) <= n
  }

  lemma RequestPieces(segs: seq<Segment>, f: Frames, m: seq<byte>)
    requires RequestOk(segs, f, |m|)
    ensures var ps := Pieces(segs);
      && InBounds(Homes(ps), |m|) && Disjoint(Homes(ps)) && Bounceable(Bounced(ps), f, |m|)
      && Disjoint(Homes(Bounced(ps))) && InBounds(Targets(ps, WindowFrames(ps, f)), |m|)
      && Disjoint(Targets(ps, WindowFrames(ps, f)))
  {
    var ps := Pieces(segs);
    PiecesGather(m, segs);
    PiecesDisjoint(segs);
    BouncedOk(ps, f);
    BouncedDisjoint(ps);
    TargetsDisjoint(ps, f);
    forall i | 0 <= i < |ps| ensures InFrame(ps[i], WindowFrames(ps, f)[i]).addr + (ps[i].hi - ps[i].lo) <= |m| {
      FrameAt(ps, f, i);
      assert Homes(ps)[i] == Home(ps[i]);
    }
  }

  /** Writes: after mapping, the frames behind the window hold exactly the payload of the bio. */
  lemma WriteThroughWindow(m: seq<byte>, segs: seq<Segment>, f: Frames)
    requires RequestOk(segs, f, |m|)
    ensures Bounceable(Bounced(Pieces(segs)), f, |m|)
    ensures InBounds(Targets(Pieces(segs), WindowFrames(Pieces(segs), f)), |m|)
    ensures Gather(FillBounces(m, Bounced(Pieces(segs)), f, true), Targets(Pieces(segs), WindowFrames(Pieces(segs), f)))
         == Gather(m, SegExtents(segs))
  {
    var ps := Pieces(segs);
    RequestPieces(segs, f, m);
    PiecesGather(m, segs);
    FilledPayload(m, ps, f);
  }

  lemma FilledPayload(m: seq<byte>, ps: seq<Piece>, f: Frames)
    requires InBoundsBoth(ps, WindowFrames(ps, f), |m|) && Clear(ps, f) && Bounceable(Bounced(ps), f, |m|)
    ensures Gather(FillBounces(m, Bounced(ps), f, true), Targets(ps, WindowFrames(ps, f))) == Gather(m, Homes(ps))
  {
    hide Gather, Targets, Homes, FillBounces;
    var fs := WindowFrames(ps, f);
    forall i, o | InPiece(ps, i, o)
      ensures At(fs[i], o) < |m| && At(ps[i].pfn, o) < |m|
           && FillBounces(m, Bounced(ps), f, true)[At(fs[i], o)] == m[At(ps[i].pfn, o)]
    {
      BoundsAt(ps, fs, |m|, i, o);
      FilledByte(m, ps, f, i, o);
    }
    MirrorGather(FillBounces(m, Bounced(ps), f, true), m, ps, fs);
  }

  lemma FilledByte(m: seq<byte>, ps: seq<Piece>, f: Frames, i: nat, o: nat)
    requires InBoundsBoth(ps, WindowFrames(ps, f), |m|) && Clear(ps, f) && Bounceable(Bounced(ps), f, |m|)
    requires InPiece(ps, i, o) && At(WindowFrames(ps, f)[i], o) < |m| && At(ps[i].pfn, o) < |m|
    ensures FillBounces(m, Bounced(ps), f, true)[At(WindowFrames(ps, f)[i], o)] == m[At(ps[i].pfn, o)]
  {
    hide Homes, Targets, FillBounces;
    FrameAt(ps, f, i);
    if Whole(ps[i]) {
      FillOutside(m, Bounced(ps), f, true, At(ps[i].pfn, o));
    } else {
      FillHolds(m, Bounced(ps), f, true, |Bounced(ps[..i])|, o);
    }
  }

  /** Memory after a read request was mapped, filled with b through the window, and copied in. */
  function AfterRead(m: seq<byte>, ps: seq<Piece>, f: Frames, b: seq<byte>): (r: seq<byte>)
    requires InBoundsBoth(ps, WindowFrames(ps, f), |m|) && Bounceable(Bounced(ps), f, |m|)
    requires |b| == Total(Targets(ps, WindowFrames(ps, f)))
    ensures |r| == |m|
  {
    var filled := Scatter(FillBounces(m, Bounced(ps), f, false), Targets(ps, WindowFrames(ps, f)), b);
    CopyBack(filled, Bounced(ps), f)
  }

  lemma CopiedByte(m: seq<byte>, ps: seq<Piece>, f: Frames, i: nat, o: nat)
    requires InBoundsBoth(ps, WindowFrames(ps, f), |m|) && Clear(ps, f) && Bounceable(Bounced(ps), f, |m|)
    requires Disjoint(Homes(ps)) && Disjoint(Homes(Bounced(ps)))
    requires InPiece(ps, i, o) && At(WindowFrames(ps, f)[i], o) < |m| && At(ps[i].pfn, o) < |m|
    ensures m[At(WindowFrames(ps, f)[i], o)] == CopyBack(m, Bounced(ps), f)[At(ps[i].pfn, o)]
  {
    hide Targets, CopyBack;
    var bs := Bounced(ps);
    FrameAt(ps, f, i);
    if Whole(ps[i]) {
      forall k | 0 <= k < |bs| ensures !Inside(Homes(bs)[k], At(ps[i].pfn, o)) {
        var j := BounceIndex(ps, k);
        assert Homes(ps)[j] == Homes(bs)[k] && Homes(ps)[i] == Home(ps[i]);
        assert if i < j then Apart(Homes(ps)[i], Homes(ps)[j]) else Apart(Homes(ps)[j], Homes(ps)[i]);
      }
      CopyOutside(m, bs, f, At(ps[i].pfn, o));
    } else {
      CopyHolds(m, bs, f, |Bounced(ps[..i])|, o);
    }
  }

  /** Copy-in makes the bio hold what the window holds. */
  lemma CopiedPayload(m: seq<byte>, ps: seq<Piece>, f: Frames)
    requires InBoundsBoth(ps, WindowFrames(ps, f), |m|) && Clear(ps, f) && Bounceable(Bounced(ps), f, |m|)
    requires Disjoint(Homes(ps)) && Disjoint(Homes(Bounced(ps)))
    ensures Gather(CopyBack(m, Bounced(ps), f), Homes(ps)) == Gather(m, Targets(ps, WindowFrames(ps, f)))
  {
    hide Gather, Targets, Homes, CopyBack, Disjoint;
    var fs := WindowFrames(ps, f);
    forall i, o | InPiece(ps, i, o)
      ensures At(fs[i], o) < |m| && At(ps[i].pfn, o) < |m|
           && m[At(fs[i], o)] == CopyBack(m, Bounced(ps), f)[At(ps[i].pfn, o)]
    {
      BoundsAt(ps, fs, |m|, i, o);
      CopiedByte(m, ps, f, i, o);
    }
    MirrorGather(m, CopyBack(m, Bounced(ps), f), ps, fs);
  }

  /** Nothing outside the bio's own bytes and the bounce pages changes. */
  lemma ReadFrame(m: seq<byte>, ps: seq<Piece>, f: Frames, b: seq<byte>, a: nat)
    requires InBoundsBoth(ps, WindowFrames(ps, f), |m|) && Clear(ps, f) && Bounceable(Bounced(ps), f, |m|)
    requires |b| == Total(Targets(ps, WindowFrames(ps, f)))
    requires a < |m| && !InReserved(f, a) && !Covers(Homes(ps), a)
    ensures AfterRead(m, ps, f, b)[a] == m[a]
  {
    hide Gather, Scatter, CopyBack, FillBounces;
    var fs, bs := WindowFrames(ps, f), Bounced(ps);
    var m1 := FillBounces(m, bs, f, false);
    FillOutside(m, bs, f, false, a);
    forall i | 0 <= i < |ps| ensures !Inside(Targets(ps, fs)[i], a) {
      FrameAt(ps, f, i);
      assert !Inside(Homes(ps)[i], a);
    }
    ScatterOutside(m1, Targets(ps, fs), b, a);
    forall k | 0 <= k < |bs| ensures !Inside(Homes(bs)[k], a) {
      var j := BounceIndex(ps, k);
      assert !Inside(Homes(ps)[j], a);
    }
    CopyOutside(Scatter(m1, Targets(ps, fs), b), bs, f, a);
  }

  /**
   * Reads: bytes stored into the frames behind the window and then copied in reach the bio exactly
   * as a direct scatter over the segments would deliver them, and nothing else changes outside the
   * driver's bounce pages.
   */
  lemma ReadThroughWindow(m: seq<byte>, segs: seq<Segment>, f: Frames, b: seq<byte>)
    requires RequestOk(segs, f, |m|) && |b| == Total(SegExtents(segs))
    ensures InBoundsBoth(Pieces(segs), WindowFrames(Pieces(segs), f), |m|) && Bounceable(Bounced(Pieces(segs)), f, |m|)
    ensures |b| == Total(Targets(Pieces(segs), WindowFrames(Pieces(segs), f)))
    ensures Gather(AfterRead(m, Pieces(segs), f, b), SegExtents(segs)) == b
    ensures forall a :: 0 <= a < |m| && !InReserved(f, a) && !Covers(SegExtents(segs), a)
              ==> AfterRead(m, Pieces(segs), f, b)[a] == m[a]
  {
    hide Gather, Scatter, CopyBack, FillBounces, Targets, Homes, Disjoint, Pieces, Clear;
    var ps := Pieces(segs);
    RequestPieces(segs, f, m);
    PayloadLength(m, segs, f);
    var m2 := Scatter(FillBounces(m, Bounced(ps), f, false), Targets(ps, WindowFrames(ps, f)), b);
    GatherScatter(FillBounces(m, Bounced(ps), f, false), Targets(ps, WindowFrames(ps, f)), b);
    CopiedPayload(m2, ps, f);
    PiecesGather(AfterRead(m, ps, f, b), segs);
    forall a | 0 <= a < |m| && !InReserved(f, a) && !Covers(SegExtents(segs), a)
      ensures AfterRead(m, ps, f, b)[a] == m[a]
    {
      HomesInSegments(segs, a);
      ReadFrame(m, ps, f, b, a);
    }
  }

  lemma PayloadLength(m: seq<byte>, segs: seq<Segment>, f: Frames)
    requires RequestOk(segs, f, |m|)
    ensures InBounds(Homes(Pieces(segs)), |m|)
    ensures Total(Targets(Pieces(segs), WindowFrames(Pieces(segs), f))) == Total(SegExtents(segs))
  {
    hide Gather;
    var ps := Pieces(segs);
    PiecesGather(m, segs);
    GatherLength(m, Homes(ps));
    GatherLength(m, SegExtents(segs));
    SameTotals(Targets(ps, WindowFrames(ps, f)), Homes(ps));
  }

  lemma {:induction false} SameTotals(xs: seq<Extent>, ys: seq<Extent>)
    requires |xs| == |ys| && forall i :: 0 <= i < |xs| ==> xs[i].len == ys[i].len
    ensures Total(xs) == Total(ys)
  {
    if xs != [] {
      SameTotals(xs[..|xs| - 1], ys[..|ys| - 1]);
    }
  }

  lemma HomesInSegments(segs: seq<Segment>, a: nat)
    requires SegmentsOk(segs) && !Covers(SegExtents(segs), a)
    ensures !Covers(Homes(Pieces(segs)), a)
  {
    forall i | 0 <= i < |Pieces(segs)| ensures !Inside(Homes(Pieces(segs))[i], a) {
      var s := PieceWithin(segs, i);
      assert !Inside(SegExtents(segs)[s], a);
    }
  }
}
