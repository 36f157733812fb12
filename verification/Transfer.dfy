/** The two directions of zero copy, from the bio's segments through the window and back. */
module Transfer {
  import opened Memory
  import opened Layout
  import opened Window
  import opened ZeroCopy
  import opened Replay

  /** Zero-copy write: walking the mapping list through the window reads the payload of the bio. */
  lemma ZeroCopyWrite(m: seq<byte>, segs: seq<Segment>, f: Frames, t: Table)
    requires RequestOk(segs, f, |m|) && WindowFrames(Pieces(segs), f) <= t.pt && Backed(t, |m|)
    ensures Bounceable(Bounced(Pieces(segs)), f, |m|) && EntriesMapped(t, Entries(Pieces(segs), t.vm))
    ensures LoadEntries(FillBounces(m, Bounced(Pieces(segs)), f, true), t, Entries(Pieces(segs), t.vm))
         == Gather(m, SegExtents(segs))
  {
    hide LoadEntries, Gather, FillBounces, Targets, Pieces, Backed;
    var ps := Pieces(segs);
    WriteThroughWindow(m, segs, f);
    LoadEntriesIsGather(FillBounces(m, Bounced(ps), f, true), t, ps, WindowFrames(ps, f));
  }

  /** Memory once the user filled the mapping list with b. */
  function Filled(m: seq<byte>, segs: seq<Segment>, f: Frames, t: Table, b: seq<byte>): (r: seq<byte>)
    requires SegmentsOk(segs) && Bounceable(Bounced(Pieces(segs)), f, |m|) && Backed(t, |m|)
    requires EntriesMapped(t, Entries(Pieces(segs), t.vm)) && |b| == ListBytes(Entries(Pieces(segs), t.vm))
    ensures |r| == |m|
  {
    StoreEntries(FillBounces(m, Bounced(Pieces(segs)), f, false), t, Entries(Pieces(segs), t.vm), b)
  }

  lemma FilledIsScatter(m: seq<byte>, segs: seq<Segment>, f: Frames, t: Table, b: seq<byte>)
    requires RequestOk(segs, f, |m|) && WindowFrames(Pieces(segs), f) <= t.pt && Backed(t, |m|)
    requires |b| == Total(SegExtents(segs))
    ensures Bounceable(Bounced(Pieces(segs)), f, |m|) && EntriesMapped(t, Entries(Pieces(segs), t.vm))
    ensures |b| == ListBytes(Entries(Pieces(segs), t.vm))
    ensures InBoundsBoth(Pieces(segs), WindowFrames(Pieces(segs), f), |m|)
    ensures |b| == Total(Targets(Pieces(segs), WindowFrames(Pieces(segs), f)))
    ensures CopyBack(Filled(m, segs, f, t, b), Bounced(Pieces(segs)), f) == AfterRead(m, Pieces(segs), f, b)
  {
    hide StoreEntries, Scatter, Gather, FillBounces, CopyBack, Targets, Pieces, Backed;
    var ps := Pieces(segs);
    ReadThroughWindow(m, segs, f, b);
    StoreEntriesIsScatter(FillBounces(m, Bounced(ps), f, false), t, ps, WindowFrames(ps, f), b);
  }

  /**
   * Zero-copy read: b stored along the mapping list and copied in with the right offsets lands in
   * the bio exactly as a direct scatter over its segments; outside the bounce pages nothing else
   * changes.
   */
  lemma ZeroCopyRead(m: seq<byte>, segs: seq<Segment>, f: Frames, t: Table, b: seq<byte>, homes: seq<nat>)
    requires RequestOk(segs, f, |m|) && WindowFrames(Pieces(segs), f) <= t.pt && Backed(t, |m|)
    requires |b| == Total(SegExtents(segs)) && OffsetOf(t.vm) == 0
    requires HomePages(Bounced(Pieces(segs))) <= homes && Runnable(|Bounced(Pieces(segs))|, homes, f, |m|)
    ensures Bounceable(Bounced(Pieces(segs)), f, |m|) && EntriesMapped(t, Entries(Pieces(segs), t.vm))
    ensures |b| == ListBytes(Entries(Pieces(segs), t.vm))
    ensures var es := Entries(Pieces(segs), t.vm);
      |Plan(es, AddressWords(es))| == |Bounced(Pieces(segs))|
    ensures Delivered(m, RunPlan(Filled(m, segs, f, t, b), RightPlan(segs, t.vm), homes, f), segs, f, b)
  {
    hide Scatter, Gather, CopyBack, Pieces, Backed, Plan, RunPlan, Filled, Clear, Runnable, Disjoint;
    var ps := Pieces(segs);
    FilledIsScatter(m, segs, f, t, b);
    ReadThroughWindow(m, segs, f, b);
    ReplayMatchesLayout(ps, t.vm);
    RightPlanCopiesBack(Filled(m, segs, f, t, b), Bounced(ps), homes, f);
  }

  function RightPlan(segs: seq<Segment>, vm: nat): (cs: seq<Copy>)
    requires SegmentsOk(segs)
    ensures CopiesFit(cs)
  {
    Plan(Entries(Pieces(segs), vm), AddressWords(Entries(Pieces(segs), vm)))
  }

  /** r is m with b delivered to the segments and nothing else changed outside the driver's pages. */
  ghost predicate Delivered(m: seq<byte>, r: seq<byte>, segs: seq<Segment>, f: Frames, b: seq<byte>) {
    && |r| == |m| && InBounds(SegExtents(segs), |m|) && Gather(r, SegExtents(segs)) == b
    && forall a :: 0 <= a < |m| && !InReserved(f, a) && !Covers(SegExtents(segs), a) ==> r[a] == m[a]
  }

  /** The copying path delivers the same bytes, and the two results agree outside the bounce pages. */
  lemma DeliveredAgree(m: seq<byte>, r: seq<byte>, r': seq<byte>, segs: seq<Segment>, f: Frames, b: seq<byte>)
    requires Delivered(m, r, segs, f, b) && Delivered(m, r', segs, f, b)
    ensures forall a :: 0 <= a < |m| && !InReserved(f, a) ==> r[a] == r'[a]
  {
    forall a | 0 <= a < |m| && !InReserved(f, a) ensures r[a] == r'[a] {
      if Covers(SegExtents(segs), a) {
        GatherDetermines(r, r', SegExtents(segs), a);
      }
    }
  }

  lemma ScatterDelivers(m: seq<byte>, segs: seq<Segment>, f: Frames, b: seq<byte>)
    requires InBounds(SegExtents(segs), |m|) && Disjoint(SegExtents(segs)) && |b| == Total(SegExtents(segs))
    ensures Delivered(m, Scatter(m, SegExtents(segs), b), segs, f, b)
  {
    ScatterUnique(m, SegExtents(segs), b, Scatter(m, SegExtents(segs), b));
  }
}
