/** A read that is delivered although a word disagrees: a later copy repairs what an earlier one spoiled. */
module SharedFrame {
  import opened Memory
  import opened Layout
  import opened Window
  import opened ZeroCopy
  import opened Replay
  import opened Accounting
  import opened AsWritten

  /** The second segment starts in the frame in which the fourth one lies. */
  function Segs(a: nat, p: nat, q: nat): (segs: seq<Segment>)
    ensures SegmentsOk(segs)
  {
    [Segment(a, 0, 1024), Segment(p, 3072, 5120), Segment(q, 3072, 512), Segment(p, 1024, 2048)]
  }

  function Parts(a: nat, p: nat, q: nat): (ps: seq<Piece>)
    ensures PiecesOk(ps)
  {
    [Piece(a, 0, 1024), Piece(p, 3072, 4096), Piece(p + 1, 0, 4096), Piece(q, 3072, 3584), Piece(p, 1024, 3072)]
  }

  /** Four in a row, one by one. */
  lemma InARow<T>(a: T, b: T, c: T, d: T)
    ensures [] + [a] == [a] && [a] + [b] == [a, b] && [a, b] + [c] == [a, b, c] && [a, b, c] + [d] == [a, b, c, d]
  {
  }

  lemma EachSegment(a: nat, p: nat, q: nat)
    ensures var s := Segs(a, p, q);
      && SegPieces(s[0]) == [Piece(a, 0, 1024)] && SegPieces(s[2]) == [Piece(q, 3072, 3584)]
      && SegPieces(s[3]) == [Piece(p, 1024, 3072)] && SegPieces(s[1]) == [Piece(p, 3072, 4096), Piece(p + 1, 0, 4096)]
  {
    assert RunPieces(p + 1, 0, 4096) == [Piece(p + 1, 0, 4096)] + RunPieces(p + 2, 0, 0);
  }

  lemma SegsPieces(a: nat, p: nat, q: nat)
    ensures Pieces(Segs(a, p, q)) == Parts(a, p, q)
  {
    hide Pieces, SegPieces;
    var s := Segs(a, p, q);
    EachSegment(a, p, q);
    InARow(s[0], s[1], s[2], s[3]);
    assert Pieces([]) == [] by { NoPieces(); }
    PiecesSnoc([], s[0]);
    PiecesSnoc([s[0]], s[1]);
    PiecesSnoc([s[0], s[1]], s[2]);
    PiecesSnoc([s[0], s[1], s[2]], s[3]);
  }

  lemma NoPieces()
    ensures Pieces([]) == []
  {
  }

  lemma BouncedOn(ps: seq<Piece>, p: Piece)
    ensures Bounced(ps + [p]) == if Whole(p) then Bounced(ps) else Bounced(ps) + [p]
  {
    assert (ps + [p])[..|ps|] == ps;
  }

  lemma PartsBounced(a: nat, p: nat, q: nat)
    ensures var ps := Parts(a, p, q); Bounced(ps) == [ps[0], ps[1], ps[3], ps[4]]
  {
    var ps := Parts(a, p, q);
    assert Bounced([]) == [];
    BouncedOn([], ps[0]);
    BouncedOn([ps[0]], ps[1]);
    BouncedOn([ps[0], ps[1]], ps[2]);
    BouncedOn([ps[0], ps[1], ps[2]], ps[3]);
    BouncedOn([ps[0], ps[1], ps[2], ps[3]], ps[4]);
    hide Bounced;
    InARow(ps[0], ps[1], ps[2], ps[3]);
    InARow(ps[0], ps[1], ps[3], ps[4]);
    assert [ps[0], ps[1], ps[2], ps[3]] + [ps[4]] == ps;
  }

  function List(vm: nat): seq<Entry> {
    [Entry(vm, 1024), Entry(vm + 7168, 5120), Entry(vm + 15360, 512), Entry(vm + 17408, 2048)]
  }

  lemma FirstEntries(ps: seq<Piece>, a: nat, p: nat, q: nat, vm: nat)
    requires ps == Parts(a, p, q)
    ensures Entries([ps[0]], vm) == [List(vm)[0]]
    ensures Entries([ps[0], ps[1]], vm) == [List(vm)[0], Entry(vm + 7168, 1024)]
    ensures Entries([ps[0], ps[1], ps[2]], vm) == [List(vm)[0], List(vm)[1]]
  {
    InARow(ps[0], ps[1], ps[2], ps[3]);
    assert Entries([], vm) == [];
    EntriesSnoc([], ps[0], vm);
    EntriesSnoc([ps[0]], ps[1], vm);
    EntriesSnoc([ps[0], ps[1]], ps[2], vm);
    hide Entries;
  }

  lemma PartsEntries(a: nat, p: nat, q: nat, vm: nat)
    ensures Entries(Parts(a, p, q), vm) == List(vm)
  {
    hide Entries;
    var ps, es := Parts(a, p, q), List(vm);
    FirstEntries(ps, a, p, q, vm);
    InARow(ps[0], ps[1], ps[2], ps[3]);
    assert [ps[0], ps[1], ps[2], ps[3]] + [ps[4]] == ps;
    EntriesSnoc([ps[0], ps[1], ps[2]], ps[3], vm);
    EntriesSnoc([ps[0], ps[1], ps[2], ps[3]], ps[4], vm);
    InARow(es[0], es[1], es[2], es[3]);
  }

  function Copies(): (cs: seq<Copy>)
    ensures forall k :: 0 <= k < |cs| ==> cs[k].off + cs[k].len <= PAGE_SIZE
  {
    [Copy(0, 1024), Copy(1024, 3072), Copy(3072, 512), Copy(1024, 2048)]
  }

  lemma PlanOn(es: seq<Entry>, ws: seq<nat>, e: Entry, w: nat)
    requires |ws| == |es|
    ensures Plan(es + [e], ws + [w]) == Plan(es, ws) + EntryPlan(e, w)
  {
    assert (es + [e])[..|es|] == es && (ws + [w])[..|es|] == ws;
  }

  lemma ListWords(vm: nat)
    ensures WordsUsed(List(vm)) == [vm, 1024, vm + 7168, 5120]
  {
  }

  lemma Shifted(vm: nat, k: nat)
    requires OffsetOf(vm) == 0
    ensures OffsetOf(vm + k) == OffsetOf(k)
  {
  }

  lemma FirstPlan(vm: nat)
    requires OffsetOf(vm) == 0
    ensures EntryPlan(List(vm)[0], vm) == [Copies()[0]]
  {
    Shifted(vm, 1024);
    assert OffsetOf(1024) == 1024;
    hide OffsetOf;
  }

  lemma SecondPlan(vm: nat)
    requires OffsetOf(vm) == 0
    ensures EntryPlan(List(vm)[1], 1024) == [Copies()[1]]
  {
    Shifted(vm, 7168);
    Shifted(vm, 12288);
    assert OffsetOf(7168) == 3072 && OffsetOf(12288) == 0 && OffsetOf(1024) == 1024;
    hide OffsetOf;
  }

  lemma ThirdPlan(vm: nat)
    requires OffsetOf(vm) == 0
    ensures EntryPlan(List(vm)[2], vm + 7168) == [Copies()[2]]
  {
    Shifted(vm, 15360);
    Shifted(vm, 15872);
    Shifted(vm, 7168);
    assert OffsetOf(15360) == 3072 && OffsetOf(15872) == 3584 && OffsetOf(7168) == 3072;
    hide OffsetOf;
  }

  lemma FourthPlan(vm: nat)
    requires OffsetOf(vm) == 0
    ensures EntryPlan(List(vm)[3], 5120) == [Copies()[3]]
  {
    Shifted(vm, 17408);
    Shifted(vm, 19456);
    assert OffsetOf(17408) == 1024 && OffsetOf(19456) == 3072 && OffsetOf(5120) == 1024;
    hide OffsetOf;
  }

  lemma ListPlan(vm: nat)
    requires OffsetOf(vm) == 0
    ensures Plan(List(vm), [vm, 1024, vm + 7168, 5120]) == Copies()
  {
    var es, ws, cs := List(vm), [vm, 1024, vm + 7168, 5120], Copies();
    assert Plan([], []) == [];
    hide Plan, EntryPlan, List, Copies;
    FirstPlan(vm);
    SecondPlan(vm);
    ThirdPlan(vm);
    FourthPlan(vm);
    Sizes(vm);
    InARow(es[0], es[1], es[2], es[3]);
    InARow(ws[0], ws[1], ws[2], ws[3]);
    InARow(cs[0], cs[1], cs[2], cs[3]);
    PlanOn([], [], es[0], ws[0]);
    PlanOn([es[0]], [ws[0]], es[1], ws[1]);
    PlanOn([es[0], es[1]], [ws[0], ws[1]], es[2], ws[2]);
    PlanOn([es[0], es[1], es[2]], [ws[0], ws[1], ws[2]], es[3], ws[3]);
  }

  lemma Sizes(vm: nat)
    ensures var es, cs := List(vm), Copies(); |es| == |cs| == 4 && es == [es[0], es[1], es[2], es[3]] && cs == [cs[0], cs[1], cs[2], cs[3]]
  {
  }

  /** The word for the second entry is the length of the first one. */
  lemma WordDisagrees(vm: nat)
    requires OffsetOf(vm) == 0
    ensures !WordsAgree(List(vm))
  {
    ListWords(vm);
    assert Ragged(List(vm)[1]) && OffsetOf(WordsUsed(List(vm))[1]) != OffsetOf(List(vm)[1].addr);
  }

  lemma OriginOn(cs: seq<Copy>, c: Copy, homes: seq<nat>, f: Frames, a: nat)
    requires |cs| < |homes|
    ensures Origin(cs + [c], homes, f, a)
         == Origin(cs, homes, f, if Writes(c, homes[|cs|], a) then At(BounceFrame(f, |cs|), a - homes[|cs|]) else a)
  {
    assert (cs + [c])[..|cs|] == cs;
  }

  lemma BelongsOn(bs: seq<Piece>, b: Piece, f: Frames, a: nat)
    ensures Belongs(bs + [b], f, a)
         == if At(b.pfn, b.lo) <= a < At(b.pfn, b.hi) then At(BounceFrame(f, |bs|), a - At(b.pfn, 0)) else Belongs(bs, f, a)
  {
    assert (bs + [b])[..|bs|] == bs;
  }

  function Homes4(a: nat, p: nat, q: nat): seq<nat> {
    [At(a, 0), At(p, 0), At(q, 0), At(p, 0)]
  }

  /** Where the four copies bring address x from, if x is no bounce page. */
  lemma CopiesFetch(a: nat, p: nat, q: nat, f: Frames, x: nat)
    requires a != p && p != q && a != q && !Driver(f, a) && !Driver(f, p) && !Driver(f, q)
    ensures Origin(Copies(), Homes4(a, p, q), f, x)
         == if At(p, 1024) <= x < At(p, 3072) then At(BounceFrame(f, 3), x - At(p, 0))
            else if At(q, 3072) <= x < At(q, 3584) then At(BounceFrame(f, 2), x - At(q, 0))
            else if At(p, 3072) <= x < At(p, 4096) then At(BounceFrame(f, 1), x - At(p, 0))
            else if At(a, 0) <= x < At(a, 1024) then At(BounceFrame(f, 0), x - At(a, 0))
            else x
  {
    var cs, homes := Copies(), Homes4(a, p, q);
    InARow(cs[0], cs[1], cs[2], cs[3]);
    var x3 := From(cs[3], homes[3], f, 3, x);
    var x2 := From(cs[2], homes[2], f, 2, x3);
    var x1 := From(cs[1], homes[1], f, 1, x2);
    OriginOn([cs[0], cs[1], cs[2]], cs[3], homes, f, x);
    OriginOn([cs[0], cs[1]], cs[2], homes, f, x3);
    OriginOn([cs[0]], cs[1], homes, f, x2);
    OriginOn([], cs[0], homes, f, x1);
    NothingCopied(homes, f, From(cs[0], homes[0], f, 0, x1));
    FromBounce(a, p, q, f, x);
    hide Origin;
  }

  /** Where copy k brings address x from. */
  function From(c: Copy, home: nat, f: Frames, k: nat, x: nat): nat {
    if Writes(c, home, x) then At(BounceFrame(f, k), x - home) else x
  }

  lemma NothingCopied(homes: seq<nat>, f: Frames, x: nat)
    ensures Origin([], homes, f, x) == x
  {
  }

  lemma FromBounce(a: nat, p: nat, q: nat, f: Frames, x: nat)
    requires !Driver(f, a) && !Driver(f, p) && !Driver(f, q)
    ensures forall k, j :: 0 <= k < 4 && 0 <= j < 4 && Writes(Copies()[k], Homes4(a, p, q)[k], x) ==>
      !Writes(Copies()[j], Homes4(a, p, q)[j], At(BounceFrame(f, k), x - Homes4(a, p, q)[k]))
  {
    forall k, j | 0 <= k < 4 && 0 <= j < 4 && Writes(Copies()[k], Homes4(a, p, q)[k], x)
      ensures !Writes(Copies()[j], Homes4(a, p, q)[j], At(BounceFrame(f, k), x - Homes4(a, p, q)[k]))
    {
      Unwritten(f, [a, p, q, p][j], k, x - Homes4(a, p, q)[k], Copies()[j]);
    }
  }

  lemma Unwritten(f: Frames, pfn: nat, k: nat, o: nat, c: Copy)
    requires !Driver(f, pfn) && k < 4 && o < PAGE_SIZE && c.off + c.len <= PAGE_SIZE
    ensures !Writes(c, At(pfn, 0), At(BounceFrame(f, k), o))
  {
  }

  lemma PartsBelong(a: nat, p: nat, q: nat, f: Frames, x: nat)
    ensures Belongs(Bounced(Parts(a, p, q)), f, x)
         == if At(p, 1024) <= x < At(p, 3072) then At(BounceFrame(f, 3), x - At(p, 0))
            else if At(q, 3072) <= x < At(q, 3584) then At(BounceFrame(f, 2), x - At(q, 0))
            else if At(p, 3072) <= x < At(p, 4096) then At(BounceFrame(f, 1), x - At(p, 0))
            else if At(a, 0) <= x < At(a, 1024) then At(BounceFrame(f, 0), x - At(a, 0))
            else x
  {
    PartsBounced(a, p, q);
    var ps := Parts(a, p, q);
    hide Belongs, Bounced;
    InARow(ps[0], ps[1], ps[3], ps[4]);
    BelongsOn([], ps[0], f, x);
    BelongsOn([ps[0]], ps[1], f, x);
    BelongsOn([ps[0], ps[1]], ps[3], f, x);
    BelongsOn([ps[0], ps[1], ps[3]], ps[4], f, x);
    NothingBelongs(f, x);
  }

  lemma NothingBelongs(f: Frames, x: nat)
    ensures Belongs([], f, x) == x
  {
  }

  lemma CopiesFetchRight(a: nat, p: nat, q: nat, f: Frames, n: nat)
    requires a != p && p != q && a != q && !Driver(f, a) && !Driver(f, p) && !Driver(f, q)
    ensures FetchesRight(Copies(), Homes4(a, p, q), Bounced(Parts(a, p, q)), f, n)
  {
    hide Parts, Copies, Homes4, Origin, Belongs, Bounced;
    FourCopies(a, p, q);
    forall x | 0 <= x < n && !InReserved(f, x)
      ensures Origin(Copies(), Homes4(a, p, q), f, x) == Belongs(Bounced(Parts(a, p, q)), f, x)
    {
      CopiesFetch(a, p, q, f, x);
      PartsBelong(a, p, q, f, x);
    }
  }

  lemma FourCopies(a: nat, p: nat, q: nat)
    ensures |Copies()| == |Homes4(a, p, q)| == 4
  {
  }

  /**
   * The word for the second entry is wrong, and its copy spoils [1024, 3072) of the frame it goes to;
   * the fourth copy brings exactly those bytes. So the read is delivered, whatever is read.
   */
  lemma SharedFrameRepairs(f: Frames, t: Table, n: nat, a: nat, p: nat, q: nat)
    requires a != p && p != q && a != q && Setting(Segs(a, p, q), f, t, Homes4(a, p, q), n)
    ensures !WordsAgree(Entries(Pieces(Segs(a, p, q)), t.vm))
    ensures DeliversAsWritten(Segs(a, p, q), f, t, Homes4(a, p, q), n)
  {
    hide Segs, Parts, Copies, Homes4, DeliversAsWritten, FetchesRight, Pieces, Entries, Plan, WordsUsed, Bounced, WordsAgree, List,
         Setting, OffsetOf, Clear, Driver;
    SettingClear(Segs(a, p, q), f, t, Homes4(a, p, q), n);
    SegsPieces(a, p, q);
    PartsEntries(a, p, q, t.vm);
    WordDisagrees(t.vm);
    ListWords(t.vm);
    ListPlan(t.vm);
    PartsClear(f, a, p, q);
    CopiesFetchRight(a, p, q, f, n);
    DeliversExactly(Segs(a, p, q), f, t, Homes4(a, p, q), n);
  }

  lemma SettingClear(segs: seq<Segment>, f: Frames, t: Table, homes: seq<nat>, n: nat)
    requires Setting(segs, f, t, homes, n)
    ensures OffsetOf(t.vm) == 0 && Clear(Pieces(segs), f)
  {
  }

  lemma PartsClear(f: Frames, a: nat, p: nat, q: nat)
    requires Clear(Parts(a, p, q), f)
    ensures !Driver(f, a) && !Driver(f, p) && !Driver(f, q)
  {
    var ps := Parts(a, p, q);
    assert !Driver(f, ps[0].pfn) && !Driver(f, ps[1].pfn) && !Driver(f, ps[3].pfn);
  }

  /** There is such a request: in 305 frames, the driver's first. */
  lemma SharedFrameExists()
    ensures var f := Frames(0, 258); var t := Table(0, WindowFrames(Parts(301, 302, 304), f));
      Setting(Segs(301, 302, 304), f, t, Homes4(301, 302, 304), At(305, 0))
  {
    var f := Frames(0, 258);
    var segs, ps := Segs(301, 302, 304), Parts(301, 302, 304);
    var t := Table(0, WindowFrames(ps, f));
    SegsPieces(301, 302, 304);
    PartsBounced(301, 302, 304);
    PartsEntries(301, 302, 304, 0);
    ListWords(0);
    ListPlan(0);
    hide Pieces, Bounced, Entries, Plan, WordsUsed, WindowFrames;
    FramesFit(f);
    assert |UsedPlan(segs, 0)| == 4;
    assert Clear(ps, f);
    assert HomePages(Bounced(ps)) == Homes4(301, 302, 304);
    assert Runnable(4, Homes4(301, 302, 304), f, At(305, 0));
    ThoseDisjoint();
    hide Disjoint;
  }

  lemma ThoseDisjoint()
    ensures Disjoint(SegExtents(Segs(301, 302, 304)))
  {
  }

  lemma FramesFit(f: Frames)
    requires f == Frames(0, 258)
    ensures Backed(Table(0, WindowFrames(Parts(301, 302, 304), f)), At(305, 0))
  {
    var ps := Parts(301, 302, 304);
    PartsBounced(301, 302, 304);
    forall i | 0 <= i < 5 ensures WindowFrames(ps, f)[i] < 305 {
      FrameAt(ps, f, i);
    }
  }
}
