/** Exactly when copy-in as written delivers: for every memory and payload, and no condition on either. */
module AsWritten {
  import opened Memory
  import opened Layout
  import opened Window
  import opened ZeroCopy
  import opened Replay
  import opened Accounting
  import opened Transfer

  /** The copies the code makes. */
  function UsedPlan(segs: seq<Segment>, vm: nat): (cs: seq<Copy>)
    requires SegmentsOk(segs)
    ensures CopiesFit(cs)
  {
    Plan(Entries(Pieces(segs), vm), WordsUsed(Entries(Pieces(segs), vm)))
  }

  /** No page is copied to twice. */
  predicate PagesApart(homes: seq<nat>, n: nat) {
    n <= |homes| && forall i, j :: 0 <= i < j < n ==> TwoPagesApart(homes[i], homes[j])
  }

  predicate TwoPagesApart(a: nat, b: nat) {
    a + 4096 <= b || b + 4096 <= a
  }

  /** A mapped read in memory of n bytes, with a reserve list good for the copies the code makes. */
  ghost predicate Setting(segs: seq<Segment>, f: Frames, t: Table, homes: seq<nat>, n: nat) {
    && SegmentsOk(segs) && RequestOk(segs, f, n) && OffsetOf(t.vm) == 0 && WindowFrames(Pieces(segs), f) <= t.pt && Backed(t, n)
    && HomePages(Bounced(Pieces(segs))) <= homes && Runnable(|UsedPlan(segs, t.vm)|, homes, f, n)
  }

  /** Memory m after the user filled the window with b and copy-in ran as written. */
  ghost function Result(segs: seq<Segment>, f: Frames, t: Table, homes: seq<nat>, m: seq<byte>, b: seq<byte>): (r: seq<byte>)
    requires Setting(segs, f, t, homes, |m|) && |b| == Total(SegExtents(segs))
    ensures |r| == |m|
  {
    FilledIsScatter(m, segs, f, t, b);
    RunPlan(Filled(m, segs, f, t, b), UsedPlan(segs, t.vm), homes, f)
  }

  ghost predicate DeliversAsWritten(segs: seq<Segment>, f: Frames, t: Table, homes: seq<nat>, n: nat)
    requires Setting(segs, f, t, homes, n)
  {
    forall m, b :: |m| == n && |b| == Total(SegExtents(segs)) ==>
      Delivered(m, Result(segs, f, t, homes, m, b), segs, f, b)
  }

  // ---------------------------------------------------------------------------------------------
  // Where each byte comes from

  /** A copy writes address a. */
  predicate Writes(c: Copy, home: nat, a: nat) {
    home + c.off <= a < home + c.off + c.len
  }

  /** The address whose byte a plan brings to address a. */
  function Origin(cs: seq<Copy>, homes: seq<nat>, f: Frames, a: nat): nat
    requires |cs| <= |homes|
  {
    if cs == [] then a
    else
      var n := |cs| - 1;
      Origin(cs[..n], homes, f, if Writes(cs[n], homes[n], a) then At(BounceFrame(f, n), a - homes[n]) else a)
  }

  lemma {:induction false} RunOrigin(m: seq<byte>, cs: seq<Copy>, homes: seq<nat>, f: Frames, a: nat)
    requires Runnable(|cs|, homes, f, |m|) && CopiesFit(cs) && a < |m|
    ensures Origin(cs, homes, f, a) < |m| && RunPlan(m, cs, homes, f)[a] == m[Origin(cs, homes, f, a)]
  {
    if cs != [] {
      hide RunCopy, Writes;
      var n := |cs| - 1;
      RunnableFewer(|cs|, homes, f, |m|);
      LastCopyFits(cs, homes, f, |m|);
      var from := if Writes(cs[n], homes[n], a) then At(BounceFrame(f, n), a - homes[n]) else a;
      CopyFrom(RunPlan(m, cs[..n], homes, f), cs[n], homes[n], BounceFrame(f, n), a);
      RunOrigin(m, cs[..n], homes, f, from);
    }
  }

  lemma LastCopyFits(cs: seq<Copy>, homes: seq<nat>, f: Frames, n: nat)
    requires Runnable(|cs|, homes, f, n) && CopiesFit(cs) && cs != []
    ensures var k := |cs| - 1; homes[k] + cs[k].off + cs[k].len <= n && At(BounceFrame(f, k), cs[k].off) + cs[k].len <= n
    ensures CopiesFit(cs[..|cs| - 1])
  {
  }

  lemma CopyFrom(m: seq<byte>, c: Copy, home: nat, frame: nat, a: nat)
    requires home + c.off + c.len <= |m| && At(frame, c.off) + c.len <= |m| && a < |m|
    ensures var from := if Writes(c, home, a) then At(frame, a - home) else a;
      from < |m| && RunCopy(m, c, home, frame)[a] == m[from]
  {
    if Writes(c, home, a) {
      assert Slice(m, Extent(At(frame, c.off), c.len))[a - home - c.off] == m[At(frame, a - home)];
    }
  }

  lemma {:induction false} OriginAway(cs: seq<Copy>, homes: seq<nat>, f: Frames, a: nat)
    requires |cs| <= |homes| && forall j :: 0 <= j < |cs| ==> !Writes(cs[j], homes[j], a)
    ensures Origin(cs, homes, f, a) == a
  {
    if cs != [] {
      OriginAway(cs[..|cs| - 1], homes, f, a);
    }
  }

  /** Copy k is the last to write a, and nobody writes what it copies. */
  lemma {:induction false} OriginAt(cs: seq<Copy>, homes: seq<nat>, f: Frames, k: nat, a: nat)
    requires |cs| <= |homes| && k < |cs| && Writes(cs[k], homes[k], a)
    requires forall j :: k < j < |cs| ==> !Writes(cs[j], homes[j], a)
    requires forall j :: 0 <= j < k ==> !Writes(cs[j], homes[j], At(BounceFrame(f, k), a - homes[k]))
    ensures Origin(cs, homes, f, a) == At(BounceFrame(f, k), a - homes[k])
  {
    var n := |cs| - 1;
    if k == n {
      OriginAway(cs[..n], homes, f, At(BounceFrame(f, n), a - homes[n]));
    } else {
      OriginAt(cs[..n], homes, f, k, a);
    }
  }

  /** The address whose byte belongs at a: its bounce page if a is in a partial piece, else a itself. */
  function Belongs(bs: seq<Piece>, f: Frames, a: nat): nat {
    if bs == [] then a
    else
      var n := |bs| - 1;
      if At(bs[n].pfn, bs[n].lo) <= a < At(bs[n].pfn, bs[n].hi) then At(BounceFrame(f, n), a - At(bs[n].pfn, 0))
      else Belongs(bs[..n], f, a)
  }

  /** The plan brings every byte outside the driver's pages from where it belongs. */
  predicate FetchesRight(cs: seq<Copy>, homes: seq<nat>, bs: seq<Piece>, f: Frames, n: nat)
    requires |cs| <= |homes|
  {
    forall a :: 0 <= a < n && !InReserved(f, a) ==> Origin(cs, homes, f, a) == Belongs(bs, f, a)
  }

  /** The copies of the pieces themselves do. */
  lemma {:induction false} RightOrigin(bs: seq<Piece>, f: Frames, homes: seq<nat>, a: nat)
    requires PiecesOk(bs) && Clear(bs, f) && |bs| <= MAX_SEGMENTS && HomePages(bs) <= homes
    ensures Origin(PieceCopies(bs), homes, f, a) == Belongs(bs, f, a)
  {
    if bs != [] {
      hide Writes, PieceCopies, HomePages, Clear;
      var n := |bs| - 1;
      FrontCopies(bs, f, homes);
      PieceWrites(bs, homes, n, a);
      if Writes(PieceCopies(bs)[n], homes[n], a) {
        BounceUnwritten(bs, f, homes, a - homes[n]);
        OriginAway(PieceCopies(bs)[..n], homes, f, At(BounceFrame(f, n), a - homes[n]));
      } else {
        RightOrigin(bs[..n], f, homes, a);
      }
    }
  }

  lemma FrontCopies(bs: seq<Piece>, f: Frames, homes: seq<nat>)
    requires PiecesOk(bs) && Clear(bs, f) && HomePages(bs) <= homes && bs != []
    ensures var n := |bs| - 1;
      && |bs| <= |homes| && |PieceCopies(bs)| == |bs| && PieceCopies(bs)[..n] == PieceCopies(bs[..n])
      && Clear(bs[..n], f) && HomePages(bs[..n]) <= homes
  {
  }

  lemma BounceUnwritten(bs: seq<Piece>, f: Frames, homes: seq<nat>, x: nat)
    requires PiecesOk(bs) && Clear(bs, f) && 0 < |bs| <= MAX_SEGMENTS && HomePages(bs) <= homes && x < PAGE_SIZE
    ensures |bs| <= |homes|
    ensures var n := |bs| - 1;
      forall j :: 0 <= j < n ==> !Writes(PieceCopies(bs)[..n][j], homes[j], At(BounceFrame(f, n), x))
  {
    var n := |bs| - 1;
    forall j | 0 <= j < n ensures !Writes(PieceCopies(bs)[j], homes[j], At(BounceFrame(f, n), x)) {
      HomeNotBounce(bs, f, homes, PieceCopies(bs)[j], j, n, x);
    }
  }

  /** The copy of a piece writes that piece. */
  lemma PieceWrites(bs: seq<Piece>, homes: seq<nat>, n: nat, a: nat)
    requires PiecesOk(bs) && HomePages(bs) <= homes && n < |bs|
    ensures homes[n] == At(bs[n].pfn, 0) && (Writes(PieceCopies(bs)[n], homes[n], a) ==> 0 <= a - homes[n] < PAGE_SIZE)
    ensures Writes(PieceCopies(bs)[n], homes[n], a) <==> At(bs[n].pfn, bs[n].lo) <= a < At(bs[n].pfn, bs[n].hi)
  {
    assert homes[n] == HomePages(bs)[n];
  }

  lemma {:induction false} BelongsCases(bs: seq<Piece>, f: Frames, a: nat) returns (k: nat)
    ensures if k < |bs| then
              At(bs[k].pfn, bs[k].lo) <= a < At(bs[k].pfn, bs[k].hi) && Belongs(bs, f, a) == At(BounceFrame(f, k), a - At(bs[k].pfn, 0))
            else Belongs(bs, f, a) == a && forall i :: 0 <= i < |bs| ==> !(At(bs[i].pfn, bs[i].lo) <= a < At(bs[i].pfn, bs[i].hi))
  {
    k := 0;
    if bs != [] {
      var n := |bs| - 1;
      if At(bs[n].pfn, bs[n].lo) <= a < At(bs[n].pfn, bs[n].hi) {
        k := n;
      } else {
        k := BelongsCases(bs[..n], f, a);
        if k >= n {
          k := |bs|;
        }
      }
    }
  }

  // ---------------------------------------------------------------------------------------------
  // A memory and a payload that show where a byte comes from

  /** Zeros, but for one byte. */
  function Mark(n: nat, w: nat): (m: seq<byte>)
    ensures |m| == n && forall i :: 0 <= i < n ==> m[i] == if i == w then 1 else 0
  {
    seq(n, i => if i == w then 1 else 0)
  }

  lemma {:induction false} FillClears(m: seq<byte>, bs: seq<Piece>, f: Frames, a: nat)
    requires Bounceable(bs, f, |m|) && a < |m|
    ensures FillBounces(m, bs, f, false)[a] == m[a] || FillBounces(m, bs, f, false)[a] == 0
  {
    if bs != [] {
      BounceableFront(bs, f, |m|);
      FillClears(m, bs[..|bs| - 1], f, a);
    }
  }

  lemma FilledIs(m: seq<byte>, segs: seq<Segment>, f: Frames, t: Table, b: seq<byte>)
    requires RequestOk(segs, f, |m|) && WindowFrames(Pieces(segs), f) <= t.pt && Backed(t, |m|)
    requires |b| == Total(SegExtents(segs))
    ensures Bounceable(Bounced(Pieces(segs)), f, |m|) && EntriesMapped(t, Entries(Pieces(segs), t.vm))
    ensures |b| == ListBytes(Entries(Pieces(segs), t.vm)) == Total(Targets(Pieces(segs), WindowFrames(Pieces(segs), f)))
    ensures InBounds(Targets(Pieces(segs), WindowFrames(Pieces(segs), f)), |m|)
    ensures Filled(m, segs, f, t, b)
         == Scatter(FillBounces(m, Bounced(Pieces(segs)), f, false), Targets(Pieces(segs), WindowFrames(Pieces(segs), f)), b)
  {
    hide Scatter, Gather, FillBounces, Targets, Pieces, Backed, StoreEntries;
    RequestPieces(segs, f, m);
    PayloadLength(m, segs, f);
    StoreEntriesIsScatter(FillBounces(m, Bounced(Pieces(segs)), f, false), t, Pieces(segs), WindowFrames(Pieces(segs), f), b);
  }

  /** The part of bounce page k with a piece in it is in the window. */
  lemma BounceInWindow(ps: seq<Piece>, f: Frames, k: nat, x: nat)
    requires PiecesOk(ps) && k < |Bounced(ps)| && Bounced(ps)[k].lo <= x < Bounced(ps)[k].hi
    ensures Covers(Targets(ps, WindowFrames(ps, f)), At(BounceFrame(f, k), x))
  {
    var i := BounceIndex(ps, k);
    FrameAt(ps, f, i);
    assert Inside(Targets(ps, WindowFrames(ps, f))[i], At(BounceFrame(f, k), x));
  }

  /** Filling the window with the marked memory's own bytes leaves the mark, and only it. */
  lemma MarkFilled(segs: seq<Segment>, f: Frames, t: Table, n: nat, w: nat, b: seq<byte>)
    requires RequestOk(segs, f, n) && WindowFrames(Pieces(segs), f) <= t.pt && Backed(t, n)
    requires InBounds(Targets(Pieces(segs), WindowFrames(Pieces(segs), f)), n)
    requires b == Gather(Mark(n, w), Targets(Pieces(segs), WindowFrames(Pieces(segs), f))) && |b| == Total(SegExtents(segs))
    requires !InReserved(f, w) || Covers(Targets(Pieces(segs), WindowFrames(Pieces(segs), f)), w)
    ensures Bounceable(Bounced(Pieces(segs)), f, n) && EntriesMapped(t, Entries(Pieces(segs), t.vm))
    ensures |b| == ListBytes(Entries(Pieces(segs), t.vm)) && Filled(Mark(n, w), segs, f, t, b) == Mark(n, w)
  {
    hide Scatter, Gather, FillBounces, Targets, Pieces, Backed, Filled, Mark, Disjoint, Covers;
    var m, ps := Mark(n, w), Pieces(segs);
    var bs, xs := Bounced(ps), Targets(ps, WindowFrames(ps, f));
    FilledIs(m, segs, f, t, b);
    var r := Filled(m, segs, f, t, b);
    RequestPieces(segs, f, m);
    TargetsDisjoint(ps, f);
    GatherScatter(FillBounces(m, bs, f, false), xs, b);
    forall a | 0 <= a < n ensures r[a] == m[a] {
      if Covers(xs, a) {
        GatherDetermines(r, m, xs, a);
      } else {
        MarkOutside(m, bs, f, xs, b, a, w);
      }
    }
  }

  lemma MarkOutside(m: seq<byte>, bs: seq<Piece>, f: Frames, xs: seq<Extent>, b: seq<byte>, a: nat, w: nat)
    requires Bounceable(bs, f, |m|) && |bs| <= MAX_SEGMENTS && InBounds(xs, |m|) && |b| == Total(xs)
    requires a < |m| && !Covers(xs, a) && m == Mark(|m|, w) && (!InReserved(f, w) || Covers(xs, w))
    ensures Scatter(FillBounces(m, bs, f, false), xs, b)[a] == m[a]
  {
    hide Scatter, FillBounces;
    ScatterOutside(FillBounces(m, bs, f, false), xs, b, a);
    FillClears(m, bs, f, a);
    if a == w {
      FillOutside(m, bs, f, false, a);
    }
  }

  // ---------------------------------------------------------------------------------------------
  // Copies the code gets wrong

  /** A copy that is not its piece's has a byte too few or a byte too many. */
  lemma VisibleByte(c: Copy, b: Piece) returns (x: nat, missed: bool)
    requires c.off + c.len <= PAGE_SIZE && PieceOk(b) && c != Copy(b.lo, b.hi - b.lo)
    ensures x < PAGE_SIZE
    ensures if missed then b.lo <= x < b.hi && !(c.off <= x < c.off + c.len)
            else c.off <= x < c.off + c.len && !(b.lo <= x < b.hi)
  {
    if c.len == 0 || b.lo < c.off {
      x, missed := b.lo, true;
    } else if c.off < b.lo {
      x, missed := c.off, false;
    } else if c.len < b.hi - b.lo {
      x, missed := c.off + c.len, true;
    } else {
      x, missed := b.hi, false;
    }
  }

  /** The first copy the code gets wrong. */
  lemma FirstBadCopy(segs: seq<Segment>, vm: nat) returns (k: nat)
    requires SegmentsOk(segs) && OffsetOf(vm) == 0 && !WordsAgree(Entries(Pieces(segs), vm))
    ensures k < |Bounced(Pieces(segs))| && k < |UsedPlan(segs, vm)| && PieceOk(Bounced(Pieces(segs))[k])
    ensures UsedPlan(segs, vm)[k] != Copy(Bounced(Pieces(segs))[k].lo, Bounced(Pieces(segs))[k].hi - Bounced(Pieces(segs))[k].lo)
  {
    var ps := Pieces(segs);
    var es := Entries(ps, vm);
    hide Plan, EntryPlan, Ragged, ListWord, Pieces, Entries, WordsUsed, AddressWords, Bounced;
    EntriesOrdered(ps, vm);
    ReplayMatchesLayout(ps, vm);
    var i := FirstDisagreement(es);
    WordsAgreeUpTo(es, i);
    AddressWordsAre(es);
    EntryPlanAgrees(es[i], WordsUsed(es)[i]);
    PlanAt(es, WordsUsed(es), i);
    PlanAt(es, AddressWords(es), i);
    k := |Plan(es[..i], WordsUsed(es)[..i])|;
    PrefixAt(Plan(es[..i], WordsUsed(es)[..i]), EntryPlan(es[i], WordsUsed(es)[i]), Plan(es, WordsUsed(es)));
    PrefixAt(Plan(es[..i], AddressWords(es)[..i]), EntryPlan(es[i], AddressWords(es)[i]), Plan(es, AddressWords(es)));
  }

  lemma PrefixAt<T>(a: seq<T>, c: seq<T>, s: seq<T>)
    requires a + c <= s && c != []
    ensures |a| < |s| && s[|a|] == c[0]
  {
    assert (a + c)[|a|] == s[|a|];
  }

  /** Only copy k touches the page of copy k. */
  lemma OwnPage(cs: seq<Copy>, homes: seq<nat>, j: nat, k: nat, x: nat)
    requires CopiesFit(cs) && PagesApart(homes, |cs|) && j < |cs| && k < |cs| && j != k && x < PAGE_SIZE
    ensures !Writes(cs[j], homes[j], homes[k] + x)
  {
    assert if j < k then TwoPagesApart(homes[j], homes[k]) else TwoPagesApart(homes[k], homes[j]);
  }

  /** No copy to the home of a partial piece touches a bounce page. */
  lemma HomeNotBounce(bs: seq<Piece>, f: Frames, homes: seq<nat>, c: Copy, j: nat, k: nat, x: nat)
    requires Clear(bs, f) && |bs| <= MAX_SEGMENTS && HomePages(bs) <= homes && j < |bs| && k < |bs|
    requires c.off + c.len <= PAGE_SIZE && x < PAGE_SIZE
    ensures !Writes(c, homes[j], At(BounceFrame(f, k), x))
  {
    assert homes[j] == HomePages(bs)[j] && !Driver(f, bs[j].pfn);
  }

  // ---------------------------------------------------------------------------------------------
  // The claims

  lemma CopyOneFrom(m: seq<byte>, b: Piece, frame: nat, a: nat)
    requires PieceOk(b) && Home(b).addr + Home(b).len <= |m| && At(frame, PAGE_SIZE) <= |m| && a < |m|
    ensures var inside := At(b.pfn, b.lo) <= a < At(b.pfn, b.hi); var from := if inside then At(frame, a - At(b.pfn, 0)) else a;
      from < |m| && CopyOne(m, b, frame)[a] == m[from]
  {
    if At(b.pfn, b.lo) <= a < At(b.pfn, b.hi) {
      CopyOneHolds(m, b, frame, a - At(b.pfn, 0));
    } else {
      CopyOneOutside(m, b, frame, a);
    }
  }

  lemma BounceReserved(f: Frames, bs: seq<Piece>, m: seq<byte>, o: nat)
    requires Bounceable(bs, f, |m|) && bs != [] && o < PAGE_SIZE
    ensures InReserved(f, At(BounceFrame(f, |bs| - 1), o)) && At(BounceFrame(f, |bs| - 1), PAGE_SIZE) <= |m|
    ensures PieceOk(bs[|bs| - 1])
  {
  }

  /** Copying every bounce page home fetches each byte from where it belongs. */
  lemma {:induction false} CopyBackFetches(m: seq<byte>, bs: seq<Piece>, f: Frames, a: nat)
    requires Bounceable(bs, f, |m|) && a < |m|
    ensures Belongs(bs, f, a) < |m| && CopyBack(m, bs, f)[a] == m[Belongs(bs, f, a)]
  {
    if bs != [] {
      var n := |bs| - 1;
      BounceableFront(bs, f, |m|);
      BounceReserved(f, bs, m, if At(bs[n].pfn, bs[n].lo) <= a < At(bs[n].pfn, bs[n].hi) then a - At(bs[n].pfn, 0) else 0);
      CopyOneFrom(CopyBack(m, bs[..n], f), bs[n], BounceFrame(f, n), a);
      hide CopyOne, Bounceable, InReserved, BounceFrame;
      if At(bs[n].pfn, bs[n].lo) <= a < At(bs[n].pfn, bs[n].hi) {
        CopyReserved(m, bs[..n], f, At(BounceFrame(f, n), a - At(bs[n].pfn, 0)));
      } else {
        CopyBackFetches(m, bs[..n], f, a);
      }
    }
  }

  /** And delivers. */
  lemma CopyBackDelivers(segs: seq<Segment>, f: Frames, t: Table, m: seq<byte>, b: seq<byte>)
    requires RequestOk(segs, f, |m|) && WindowFrames(Pieces(segs), f) <= t.pt && Backed(t, |m|)
    requires |b| == Total(SegExtents(segs))
    ensures Bounceable(Bounced(Pieces(segs)), f, |m|) && EntriesMapped(t, Entries(Pieces(segs), t.vm))
    ensures |b| == ListBytes(Entries(Pieces(segs), t.vm))
    ensures Delivered(m, CopyBack(Filled(m, segs, f, t, b), Bounced(Pieces(segs)), f), segs, f, b)
  {
    hide Pieces, Entries, Backed, Filled, CopyBack, Gather;
    FilledIsScatter(m, segs, f, t, b);
    ReadThroughWindow(m, segs, f, b);
  }

  /** If the plan fetches right, it delivers. */
  lemma FetchesDeliver(segs: seq<Segment>, f: Frames, t: Table, homes: seq<nat>, m: seq<byte>, b: seq<byte>)
    requires Setting(segs, f, t, homes, |m|) && |b| == Total(SegExtents(segs))
    requires FetchesRight(UsedPlan(segs, t.vm), homes, Bounced(Pieces(segs)), f, |m|)
    ensures Delivered(m, Result(segs, f, t, homes, m, b), segs, f, b)
  {
    hide Pieces, Entries, Backed, Filled, CopyBack, Gather, RunPlan, UsedPlan, Origin, Belongs, Covers;
    var bs, r := Bounced(Pieces(segs)), Result(segs, f, t, homes, m, b);
    CopyBackDelivers(segs, f, t, m, b);
    FilledIsScatter(m, segs, f, t, b);
    var fill := Filled(m, segs, f, t, b);
    var good := CopyBack(fill, bs, f);
    forall a | 0 <= a < |m| && !InReserved(f, a) ensures r[a] == good[a] {
      RunOrigin(fill, UsedPlan(segs, t.vm), homes, f, a);
      CopyBackFetches(fill, bs, f, a);
    }
    SameDelivered(m, good, r, segs, f, b);
  }

  /** The driver's own pages do not matter. */
  lemma SameDelivered(m: seq<byte>, r: seq<byte>, r': seq<byte>, segs: seq<Segment>, f: Frames, b: seq<byte>)
    requires SegmentsOk(segs) && Clear(Pieces(segs), f) && Delivered(m, r, segs, f, b) && |r'| == |r|
    requires forall a :: 0 <= a < |r| && !InReserved(f, a) ==> r'[a] == r[a]
    ensures Delivered(m, r', segs, f, b)
  {
    hide Gather, Pieces, Covers;
    var ps := Pieces(segs);
    PiecesGather(r, segs);
    PiecesGather(r', segs);
    forall i | 0 <= i < |ps| ensures Slice(r, Homes(ps)[i]) == Slice(r', Homes(ps)[i]) {
      assert !Driver(f, ps[i].pfn) && Homes(ps)[i] == Home(ps[i]);
    }
    GatherParallel(r, Homes(ps), r', Homes(ps));
  }

  /** If it delivers, it fetches right: the marked memory shows every byte fetched from elsewhere. */
  lemma DeliversFetches(segs: seq<Segment>, f: Frames, t: Table, homes: seq<nat>, n: nat, a: nat)
    requires Setting(segs, f, t, homes, n) && DeliversAsWritten(segs, f, t, homes, n)
    requires a < n && !InReserved(f, a)
    ensures Origin(UsedPlan(segs, t.vm), homes, f, a) == Belongs(Bounced(Pieces(segs)), f, a)
  {
    hide Pieces, Entries, Backed, Filled, CopyBack, Gather, RunPlan, UsedPlan, Origin, Belongs, Covers, Delivered, Targets, WindowFrames;
    var bs, w := Bounced(Pieces(segs)), Belongs(Bounced(Pieces(segs)), f, a);
    var m := Mark(n, w);
    RequestPieces(segs, f, m);
    PayloadLength(m, segs, f);
    var b := Gather(m, Targets(Pieces(segs), WindowFrames(Pieces(segs), f)));
    GatherLength(m, Targets(Pieces(segs), WindowFrames(Pieces(segs), f)));
    WhereMarked(Pieces(segs), f, a);
    MarkFilled(segs, f, t, n, w, b);
    CopyBackDelivers(segs, f, t, m, b);
    CopyBackFetches(m, bs, f, a);
    RunOrigin(m, UsedPlan(segs, t.vm), homes, f, a);
    DeliveredAgree(m, Result(segs, f, t, homes, m, b), CopyBack(m, bs, f), segs, f, b);
  }

  lemma WhereMarked(ps: seq<Piece>, f: Frames, a: nat)
    requires PiecesOk(ps) && !InReserved(f, a)
    ensures var w := Belongs(Bounced(ps), f, a); !InReserved(f, w) || Covers(Targets(ps, WindowFrames(ps, f)), w)
  {
    hide Covers, Targets, WindowFrames;
    var k := BelongsCases(Bounced(ps), f, a);
    if k < |Bounced(ps)| {
      BounceInWindow(ps, f, k, a - At(Bounced(ps)[k].pfn, 0));
    }
  }

  /**
   * Copy-in as written delivers every payload into every memory if and only if it fetches every byte
   * outside the driver's pages from where it belongs: for every request.
   */
  lemma DeliversExactly(segs: seq<Segment>, f: Frames, t: Table, homes: seq<nat>, n: nat)
    requires Setting(segs, f, t, homes, n)
    ensures DeliversAsWritten(segs, f, t, homes, n)
       <==> FetchesRight(UsedPlan(segs, t.vm), homes, Bounced(Pieces(segs)), f, n)
  {
    hide Pieces, UsedPlan, Delivered, RequestOk, Backed, Result, Origin, Belongs;
    if FetchesRight(UsedPlan(segs, t.vm), homes, Bounced(Pieces(segs)), f, n) {
      forall m: seq<byte>, b: seq<byte> | |m| == n && |b| == Total(SegExtents(segs))
        ensures Delivered(m, Result(segs, f, t, homes, m, b), segs, f, b)
      {
        FetchesDeliver(segs, f, t, homes, m, b);
      }
    }
    if DeliversAsWritten(segs, f, t, homes, n) {
      forall a | 0 <= a < n && !InReserved(f, a)
        ensures Origin(UsedPlan(segs, t.vm), homes, f, a) == Belongs(Bounced(Pieces(segs)), f, a)
      {
        DeliversFetches(segs, f, t, homes, n, a);
      }
    }
  }

  /** With agreeing words the plan is that of the pieces. */
  lemma AgreeFetches(segs: seq<Segment>, f: Frames, t: Table, homes: seq<nat>, n: nat)
    requires Setting(segs, f, t, homes, n) && WordsAgree(Entries(Pieces(segs), t.vm))
    ensures FetchesRight(UsedPlan(segs, t.vm), homes, Bounced(Pieces(segs)), f, n)
  {
    hide Pieces, Entries, WordsAgree, Plan, WordsUsed, AddressWords, Backed, Origin, Belongs, Bounced;
    EntriesOrdered(Pieces(segs), t.vm);
    AsWrittenIsRight(Entries(Pieces(segs), t.vm));
    ReplayMatchesLayout(Pieces(segs), t.vm);
    BouncedOk(Pieces(segs), f);
    forall a | 0 <= a < n && !InReserved(f, a)
      ensures Origin(UsedPlan(segs, t.vm), homes, f, a) == Belongs(Bounced(Pieces(segs)), f, a)
    {
      RightOrigin(Bounced(Pieces(segs)), f, homes, a);
    }
  }

  /** No two partial pieces share a page frame. */
  predicate FramesApart(bs: seq<Piece>) {
    forall i, j :: 0 <= i < j < |bs| ==> bs[i].pfn != bs[j].pfn
  }

  /** Then no page is copied to twice by a plan with a copy for each of them or fewer. */
  lemma FramesGivePages(bs: seq<Piece>, homes: seq<nat>, n: nat)
    requires FramesApart(bs) && HomePages(bs) <= homes && n <= |bs|
    ensures PagesApart(homes, n)
  {
    forall i, j | 0 <= i < j < n ensures TwoPagesApart(homes[i], homes[j]) {
      assert homes[i] == HomePages(bs)[i] && homes[j] == HomePages(bs)[j];
    }
  }

  /** A byte the copy of piece k misses is not fetched. */
  lemma MissedByte(segs: seq<Segment>, f: Frames, t: Table, homes: seq<nat>, n: nat, k: nat, x: nat)
    requires Setting(segs, f, t, homes, n) && PagesApart(homes, |UsedPlan(segs, t.vm)|)
    requires k < |Bounced(Pieces(segs))| && k < |UsedPlan(segs, t.vm)|
    requires Bounced(Pieces(segs))[k].lo <= x < Bounced(Pieces(segs))[k].hi <= PAGE_SIZE
    requires !Writes(UsedPlan(segs, t.vm)[k], homes[k], homes[k] + x)
    ensures !FetchesRight(UsedPlan(segs, t.vm), homes, Bounced(Pieces(segs)), f, n)
  {
    hide Pieces, Backed, Origin, Belongs, UsedPlan, PagesApart;
    var bs, cs := Bounced(Pieces(segs)), UsedPlan(segs, t.vm);
    var a := At(bs[k].pfn, x);
    assert homes[k] == HomePages(bs)[k];
    BouncedOk(Pieces(segs), f);
    forall j | 0 <= j < |cs| ensures !Writes(cs[j], homes[j], a) {
      if j != k {
        OwnPage(cs, homes, j, k, x);
      }
    }
    OriginAway(cs, homes, f, a);
    var j := BelongsCases(bs, f, a);
    assert !Driver(f, bs[k].pfn);
    InMemory(segs, f, n, k, x);
  }

  lemma InMemory(segs: seq<Segment>, f: Frames, n: nat, k: nat, x: nat)
    requires RequestOk(segs, f, n) && k < |Bounced(Pieces(segs))|
    requires Bounced(Pieces(segs))[k].lo <= x < Bounced(Pieces(segs))[k].hi <= PAGE_SIZE
    ensures At(Bounced(Pieces(segs))[k].pfn, x) < n
  {
    hide Pieces;
    var m := Mark(n, 0);
    RequestPieces(segs, f, m);
    BouncedOk(Pieces(segs), f);
    assert Homes(Bounced(Pieces(segs)))[k] == Home(Bounced(Pieces(segs))[k]);
  }

  /** A byte that copy k brings besides its piece comes from the zeros around the piece. */
  lemma ExtraByte(segs: seq<Segment>, f: Frames, t: Table, homes: seq<nat>, n: nat, k: nat, x: nat)
    requires Setting(segs, f, t, homes, n) && PagesApart(homes, |UsedPlan(segs, t.vm)|)
    requires k < |Bounced(Pieces(segs))| && k < |UsedPlan(segs, t.vm)| && x < PAGE_SIZE
    requires !(Bounced(Pieces(segs))[k].lo <= x < Bounced(Pieces(segs))[k].hi)
    requires Writes(UsedPlan(segs, t.vm)[k], homes[k], homes[k] + x)
    ensures !FetchesRight(UsedPlan(segs, t.vm), homes, Bounced(Pieces(segs)), f, n)
  {
    hide Pieces, Backed, Origin, Belongs, UsedPlan, PagesApart;
    var bs, cs := Bounced(Pieces(segs)), UsedPlan(segs, t.vm);
    var a := homes[k] + x;
    BouncedOk(Pieces(segs), f);
    assert homes[k] == HomePages(bs)[k] && !Driver(f, bs[k].pfn);
    forall j | k < j < |cs| ensures !Writes(cs[j], homes[j], a) {
      OwnPage(cs, homes, j, k, x);
    }
    forall j | 0 <= j < k ensures !Writes(cs[j], homes[j], At(BounceFrame(f, k), x)) {
      HomeNotBounce(bs, f, homes, cs[j], j, k, x);
    }
    OriginAt(cs, homes, f, k, a);
    var j := BelongsCases(bs, f, a);
    if j < |bs| && At(BounceFrame(f, j), a - At(bs[j].pfn, 0)) == At(BounceFrame(f, k), x) {
      SameBounce(f, j, k, a - At(bs[j].pfn, 0), x);
    }
  }

  lemma SameBounce(f: Frames, j: nat, k: nat, o: nat, x: nat)
    requires o < PAGE_SIZE && x < PAGE_SIZE && At(BounceFrame(f, j), o) == At(BounceFrame(f, k), x)
    ensures j == k && o == x
  {
  }

  /**
   * As long as no two copies go to one page that is so if and only if each word the code reads agrees
   * with its address word.
   */
  lemma DeliversIff(segs: seq<Segment>, f: Frames, t: Table, homes: seq<nat>, n: nat)
    requires Setting(segs, f, t, homes, n) && PagesApart(homes, |UsedPlan(segs, t.vm)|)
    ensures DeliversAsWritten(segs, f, t, homes, n) <==> WordsAgree(Entries(Pieces(segs), t.vm))
  {
    hide Pieces, Entries, WordsAgree, UsedPlan, FetchesRight, DeliversAsWritten, PagesApart, Backed;
    DeliversExactly(segs, f, t, homes, n);
    if WordsAgree(Entries(Pieces(segs), t.vm)) {
      AgreeFetches(segs, f, t, homes, n);
    } else {
      var k := FirstBadCopy(segs, t.vm);
      var x, missed := VisibleByte(UsedPlan(segs, t.vm)[k], Bounced(Pieces(segs))[k]);
      if missed {
        MissedByte(segs, f, t, homes, n, k, x);
      } else {
        ExtraByte(segs, f, t, homes, n, k, x);
      }
    }
  }
}
