/**
 * Copy-in works from the mapping list alone: it has to rediscover which bounce page carries what.
 * This module states which copies the list walk performs, with the list word the loop really uses.
 */
module Replay {
  import opened Memory
  import opened Layout
  import opened ZeroCopy
  import opened Window

  /** One memcpy from a bounce page to its home page, at the same offset in both. */
  datatype Copy = Copy(off: nat, len: nat)

  /**
   * The copies for one entry. Alignment is judged by the entry's own address; offsets are taken
   * from `word`, the list word the loop body reads for them.
   */
  function EntryPlan(e: Entry, word: nat): (cs: seq<Copy>)
    ensures |cs| <= 2
    ensures forall i :: 0 <= i < |cs| ==> cs[i].off + cs[i].len <= PAGE_SIZE
  {
    var off := OffsetOf(word);
    var frontAligned := OffsetOf(e.addr) == 0;
    var inside := off + e.len < PAGE_SIZE;
    var endAligned := OffsetOf(e.addr + e.len) == 0 || (!frontAligned && inside);
    (if frontAligned then [] else [Copy(off, if inside then e.len else PAGE_SIZE - off)])
    + (if endAligned then [] else [Copy(0, OffsetOf(word + e.len))])
  }

  /**
   * Which copies those are: one from the offset of the word if the entry starts inside a page, up to
   * its length or the page's end; and one from the start of a page if the entry ends inside one, unless
   * the first was taken to cover it all.
   */
  lemma EntryPlanLaw(e: Entry, word: nat)
    ensures var cs, off := EntryPlan(e, word), word % 4096;
      var front, end := e.addr % 4096 != 0, (e.addr + e.len) % 4096 != 0 && (e.addr % 4096 == 0 || 4096 <= off + e.len);
      && |cs| == (if front then 1 else 0) + (if end then 1 else 0)
      && (front ==> cs[0].off == off && (cs[0].len == e.len || cs[0].len == 4096 - off) && cs[0].len <= e.len && cs[0].len <= 4096 - off)
      && (end ==> cs[|cs| - 1] == Copy(0, (word + e.len) % 4096))
  {
  }

  function Plan(es: seq<Entry>, words: seq<nat>): (cs: seq<Copy>)
    requires |words| == |es|
    ensures forall i :: 0 <= i < |cs| ==> cs[i].off + cs[i].len <= PAGE_SIZE
  {
    if es == [] then []
    else Plan(es[..|es| - 1], words[..|es| - 1]) + EntryPlan(es[|es| - 1], words[|es| - 1])
  }

  /** Word j of the list in memory: addresses and lengths alternate. */
  function ListWord(es: seq<Entry>, j: nat): nat
    requires j / 2 < |es|
  {
    if j % 2 == 0 then es[j / 2].addr else es[j / 2].len
  }

  /** The words the loop uses for offsets: list[i] where entry i starts at list[2i]. */
  function WordsUsed(es: seq<Entry>): (ws: seq<nat>)
    ensures |ws| == |es|
  {
    seq(|es|, i requires 0 <= i < |es| => ListWord(es, i))
  }

  /** The words that would be right. */
  function AddressWords(es: seq<Entry>): (ws: seq<nat>)
    ensures |ws| == |es|
  {
    seq(|es|, i requires 0 <= i < |es| => ListWord(es, 2 * i))
  }

  function PieceCopies(bs: seq<Piece>): seq<Copy>
    requires PiecesOk(bs)
  {
    seq(|bs|, k requires 0 <= k < |bs| => Copy(bs[k].lo, bs[k].hi - bs[k].lo))
  }

  /** The copies of one piece: none if it is whole. */
  function PieceCopy(p: Piece): seq<Copy>
    requires PieceOk(p)
  {
    if Whole(p) then [] else [Copy(p.lo, p.hi - p.lo)]
  }

  // ---------------------------------------------------------------------------------------------
  // With the right words, the list walk performs the mapper's bounces, in the mapper's order

  lemma FreshEntryPlan(addr: nat, p: Piece)
    requires PieceOk(p) && OffsetOf(addr) == p.lo
    ensures EntryPlan(Entry(addr, p.hi - p.lo), addr) == PieceCopy(p)
  {
    assert OffsetOf(addr + (p.hi - p.lo)) == OffsetOf(p.hi);
  }

  lemma GrownEntryPlan(e: Entry, p: Piece)
    requires PieceOk(p) && p.lo == 0 && 0 < e.len && OffsetOf(e.addr + e.len) == 0
    ensures EntryPlan(e.(len := e.len + p.hi), e.addr) == EntryPlan(e, e.addr) + PieceCopy(p)
  {
    var g := e.(len := e.len + p.hi);
    assert OffsetOf(g.addr + g.len) == p.hi % 4096;
    assert OffsetOf(e.addr) + e.len >= PAGE_SIZE;
  }

  lemma AddressWordsSnoc(es: seq<Entry>, e: Entry)
    ensures AddressWords(es + [e]) == AddressWords(es) + [e.addr]
  {
    var l := es + [e];
    assert forall i :: 0 <= i < |es| ==> l[i] == es[i];
  }

  lemma PlanSnoc(es: seq<Entry>, e: Entry)
    ensures Plan(es + [e], AddressWords(es + [e])) == Plan(es, AddressWords(es)) + EntryPlan(e, e.addr)
  {
    AddressWordsSnoc(es, e);
    assert (es + [e])[..|es|] == es;
    assert (AddressWords(es) + [e.addr])[..|es|] == AddressWords(es);
  }

  lemma {:induction false} ReplayMatchesLayout(ps: seq<Piece>, vm: nat)
    requires PiecesOk(ps) && OffsetOf(vm) == 0
    ensures PiecesOk(Bounced(ps))
    ensures Plan(Entries(ps, vm), AddressWords(Entries(ps, vm))) == PieceCopies(Bounced(ps))
  {
    BouncedOk(ps, Frames(0, 0));
    if ps != [] {
      var front, p := ps[..|ps| - 1], ps[|ps| - 1];
      BouncedOk(front, Frames(0, 0));
      ReplayMatchesLayout(front, vm);
      ReplayOneMore(Entries(front, vm), front, p, vm);
      PieceCopiesSnoc(ps);
    }
  }

  lemma PieceCopiesSnoc(ps: seq<Piece>)
    requires PiecesOk(ps) && ps != [] && PiecesOk(Bounced(ps)) && PiecesOk(Bounced(ps[..|ps| - 1]))
    ensures PieceCopies(Bounced(ps)) == PieceCopies(Bounced(ps[..|ps| - 1])) + PieceCopy(ps[|ps| - 1])
  {
  }

  lemma ReplayOneMore(es: seq<Entry>, front: seq<Piece>, p: Piece, vm: nat)
    requires PieceOk(p) && PiecesOk(front) && OffsetOf(vm) == 0 && es == Entries(front, vm)
    ensures Plan(AddPiece(es, front, p, vm), AddressWords(AddPiece(es, front, p, vm)))
         == Plan(es, AddressWords(es)) + PieceCopy(p)
  {
    hide Plan, EntryPlan, AddressWords, Entries;
    if Continues(front, p) {
      var init, e := es[..|es| - 1], es[|es| - 1];
      var g := e.(len := e.len + p.hi);
      LastEntryEnd(front, vm);
      SeqSnoc(es);
      PlanSnoc(init, e);
      PlanSnoc(init, g);
      GrownEntryPlan(e, p);
      SeqAssoc(Plan(init, AddressWords(init)), EntryPlan(e, e.addr), PieceCopy(p));
    } else {
      var addr := vm + At(|front|, p.lo);
      PlanSnoc(es, Entry(addr, p.hi - p.lo));
      FreshEntryPlan(addr, p);
    }
  }

  // ---------------------------------------------------------------------------------------------
  // With the words the code uses

  /** An entry that has a partial page at its start or its end. */
  predicate Ragged(e: Entry) {
    OffsetOf(e.addr) != 0 || OffsetOf(e.addr + e.len) != 0
  }

  /** list[i] and list[2i] agree within a page for every entry whose offsets matter. */
  predicate WordsAgree(es: seq<Entry>) {
    forall i :: 0 <= i < |es| && Ragged(es[i]) ==> OffsetOf(WordsUsed(es)[i]) == OffsetOf(es[i].addr)
  }

  lemma EntryPlanAgrees(e: Entry, word: nat)
    requires 0 < e.len
    ensures (EntryPlan(e, word) == EntryPlan(e, e.addr)) <==> (Ragged(e) ==> OffsetOf(word) == OffsetOf(e.addr))
    ensures Ragged(e) ==> EntryPlan(e, word) != [] && EntryPlan(e, e.addr) != []
    ensures Ragged(e) && OffsetOf(word) != OffsetOf(e.addr) ==> EntryPlan(e, word)[0] != EntryPlan(e, e.addr)[0]
  {
    if OffsetOf(word) == OffsetOf(e.addr) {
      assert OffsetOf(word + e.len) == OffsetOf(e.addr + e.len);
    } else {
      assert OffsetOf(word + e.len) != OffsetOf(e.addr + e.len);
      if Ragged(e) {
        assert EntryPlan(e, word)[0] != EntryPlan(e, e.addr)[0];
      } else {
        assert EntryPlan(e, word) == [] == EntryPlan(e, e.addr);
      }
    }
  }

  lemma {:induction false} PlanPrefix(es: seq<Entry>, ws: seq<nat>, i: nat)
    requires |ws| == |es| && i <= |es|
    ensures Plan(es[..i], ws[..i]) <= Plan(es, ws)
  {
    var n := |es| - 1;
    if i == |es| {
      assert es[..i] == es && ws[..i] == ws;
    } else {
      PlanPrefix(es[..n], ws[..n], i);
      assert es[..n][..i] == es[..i] && ws[..n][..i] == ws[..i];
    }
  }

  lemma PlanAt(es: seq<Entry>, ws: seq<nat>, i: nat)
    requires |ws| == |es| && i < |es|
    ensures Plan(es[..i], ws[..i]) + EntryPlan(es[i], ws[i]) <= Plan(es, ws)
  {
    PlanPrefix(es, ws, i + 1);
    assert es[..i + 1][..i] == es[..i] && ws[..i + 1][..i] == ws[..i];
  }

  lemma {:induction false} PlansEqual(es: seq<Entry>, ws: seq<nat>, vs: seq<nat>)
    requires |ws| == |es| == |vs|
    requires forall i :: 0 <= i < |es| ==> EntryPlan(es[i], ws[i]) == EntryPlan(es[i], vs[i])
    ensures Plan(es, ws) == Plan(es, vs)
  {
    if es != [] {
      var n := |es| - 1;
      PlansEqual(es[..n], ws[..n], vs[..n]);
    }
  }

  /** Two plans that differ at the first entry they treat differently differ as a whole. */
  lemma PlansDiffer(es: seq<Entry>, ws: seq<nat>, vs: seq<nat>, i: nat)
    requires |ws| == |es| == |vs| && i < |es|
    requires Plan(es[..i], ws[..i]) == Plan(es[..i], vs[..i])
    requires EntryPlan(es[i], ws[i]) != [] && EntryPlan(es[i], vs[i]) != []
    requires EntryPlan(es[i], ws[i])[0] != EntryPlan(es[i], vs[i])[0]
    ensures Plan(es, ws) != Plan(es, vs)
  {
    PlanAt(es, ws, i);
    PlanAt(es, vs, i);
    var k := |Plan(es[..i], ws[..i])|;
    assert Plan(es, ws)[k] == EntryPlan(es[i], ws[i])[0];
    assert Plan(es, vs)[k] == EntryPlan(es[i], vs[i])[0];
  }

  /**
   * The walk as written performs the intended copies exactly when, for every entry with a partial
   * page, the word it reads has the same page offset as the entry's address. A list of one entry
   * always qualifies.
   */
  lemma AsWrittenIsRight(es: seq<Entry>)
    requires forall i :: 0 <= i < |es| ==> 0 < es[i].len
    ensures Plan(es, WordsUsed(es)) == Plan(es, AddressWords(es)) <==> WordsAgree(es)
    ensures |es| <= 1 ==> WordsAgree(es)
  {
    hide Plan, EntryPlan, Ragged, ListWord;
    var ws, vs := WordsUsed(es), AddressWords(es);
    AddressWordsAre(es);
    if WordsAgree(es) {
      WordsAgreeUpTo(es, |es|);
      assert es[..|es|] == es && ws[..|es|] == ws && vs[..|es|] == vs;
    } else {
      var i := FirstDisagreement(es);
      WordsAgreeUpTo(es, i);
      EntryPlanAgrees(es[i], ws[i]);
      PlansDiffer(es, ws, vs, i);
    }
  }

  lemma AddressWordsAre(es: seq<Entry>)
    ensures forall i :: 0 <= i < |es| ==> AddressWords(es)[i] == es[i].addr
    ensures |es| == 1 ==> WordsUsed(es)[0] == es[0].addr
  {
    forall i | 0 <= i < |es| ensures AddressWords(es)[i] == es[i].addr {
      assert (2 * i) % 2 == 0 && (2 * i) / 2 == i;
    }
  }

  lemma WordsAgreeUpTo(es: seq<Entry>, n: nat)
    requires n <= |es| && forall i :: 0 <= i < |es| ==> 0 < es[i].len
    requires forall j :: 0 <= j < n && Ragged(es[j]) ==> OffsetOf(WordsUsed(es)[j]) == OffsetOf(es[j].addr)
    ensures Plan(es[..n], WordsUsed(es)[..n]) == Plan(es[..n], AddressWords(es)[..n])
  {
    hide Plan, EntryPlan, Ragged, WordsUsed, AddressWords;
    AddressWordsAre(es);
    forall j | 0 <= j < n ensures EntryPlan(es[j], WordsUsed(es)[j]) == EntryPlan(es[j], AddressWords(es)[j]) {
      EntryPlanAgrees(es[j], WordsUsed(es)[j]);
    }
    PlansEqual(es[..n], WordsUsed(es)[..n], AddressWords(es)[..n]);
  }

  lemma FirstDisagreement(es: seq<Entry>) returns (i: nat)
    requires !WordsAgree(es)
    ensures i < |es| && Ragged(es[i]) && OffsetOf(WordsUsed(es)[i]) != OffsetOf(es[i].addr)
    ensures forall j :: 0 <= j < i && Ragged(es[j]) ==> OffsetOf(WordsUsed(es)[j]) == OffsetOf(es[j].addr)
  {
    hide Ragged, WordsUsed;
    i := 0;
    while !(Ragged(es[i]) && OffsetOf(WordsUsed(es)[i]) != OffsetOf(es[i].addr))
      invariant 0 <= i < |es|
      invariant forall j :: 0 <= j < i && Ragged(es[j]) ==> OffsetOf(WordsUsed(es)[j]) == OffsetOf(es[j].addr)
      decreases |es| - i
    {
      i := i + 1;
    }
  }

  // ---------------------------------------------------------------------------------------------
  // Running a plan

  /** memcpy number k: bounce page k to the page at address `home`. */
  function RunCopy(m: seq<byte>, c: Copy, home: nat, frame: nat): (r: seq<byte>)
    requires home + c.off + c.len <= |m| && At(frame, c.off) + c.len <= |m|
    ensures |r| == |m|
  {
    Splice(m, home + c.off, Slice(m, Extent(At(frame, c.off), c.len)))
  }

  /** The page addresses the reserve list holds must be real for as many copies as the plan makes. */
  predicate Runnable(count: nat, homes: seq<nat>, f: Frames, n: nat) {
    && count <= |homes| && At(BounceFrame(f, count), 0) <= n
    && forall k :: 0 <= k < count ==> homes[k] + PAGE_SIZE <= n
  }

  function RunPlan(m: seq<byte>, cs: seq<Copy>, homes: seq<nat>, f: Frames): (r: seq<byte>)
    requires Runnable(|cs|, homes, f, |m|)
    requires forall k :: 0 <= k < |cs| ==> cs[k].off + cs[k].len <= PAGE_SIZE
    ensures |r| == |m|
  {
    if cs == [] then m
    else
      var k := |cs| - 1;
      RunCopy(RunPlan(m, cs[..k], homes, f), cs[k], homes[k], BounceFrame(f, k))
  }

  function HomePages(bs: seq<Piece>): seq<nat> {
    seq(|bs|, k requires 0 <= k < |bs| => At(bs[k].pfn, 0))
  }

  predicate CopiesFit(cs: seq<Copy>) {
    forall k :: 0 <= k < |cs| ==> cs[k].off + cs[k].len <= PAGE_SIZE
  }

  lemma RunPlanSnoc(m: seq<byte>, cs: seq<Copy>, c: Copy, homes: seq<nat>, f: Frames)
    requires Runnable(|cs| + 1, homes, f, |m|) && CopiesFit(cs) && c.off + c.len <= PAGE_SIZE
    ensures CopiesFit(cs + [c])
    ensures RunPlan(m, cs + [c], homes, f)
         == RunCopy(RunPlan(m, cs, homes, f), c, homes[|cs|], BounceFrame(f, |cs|))
  {
    assert (cs + [c])[..|cs|] == cs;
  }

  lemma PieceCopiesFit(bs: seq<Piece>)
    requires PiecesOk(bs)
    ensures CopiesFit(PieceCopies(bs))
    ensures bs != [] ==> PieceCopies(bs) == PieceCopies(bs[..|bs| - 1]) + [Copy(bs[|bs| - 1].lo, bs[|bs| - 1].hi - bs[|bs| - 1].lo)]
  {
  }

  lemma HomePagesFront(bs: seq<Piece>, homes: seq<nat>)
    requires bs != [] && HomePages(bs) <= homes
    ensures homes[|bs| - 1] == At(bs[|bs| - 1].pfn, 0) && HomePages(bs[..|bs| - 1]) <= homes
  {
    assert HomePages(bs[..|bs| - 1]) == HomePages(bs)[..|bs| - 1];
    assert HomePages(bs)[|bs| - 1] == homes[|bs| - 1];
  }

  lemma CopyStep(m: seq<byte>, cs: seq<Copy>, b: Piece, homes: seq<nat>, f: Frames)
    requires Runnable(|cs| + 1, homes, f, |m|) && CopiesFit(cs) && PieceOk(b) && homes[|cs|] == At(b.pfn, 0)
    ensures CopiesFit(cs + [Copy(b.lo, b.hi - b.lo)]) && At(b.pfn, PAGE_SIZE) <= |m|
    ensures RunPlan(m, cs + [Copy(b.lo, b.hi - b.lo)], homes, f)
         == CopyOne(RunPlan(m, cs, homes, f), b, BounceFrame(f, |cs|))
  {
    hide RunPlan, RunCopy, CopyOne;
    RunPlanSnoc(m, cs, Copy(b.lo, b.hi - b.lo), homes, f);
    assert homes[|cs|] + PAGE_SIZE <= |m|;
    RightCopy(RunPlan(m, cs, homes, f), b, BounceFrame(f, |cs|));
  }

  ghost predicate CopiesBack(m: seq<byte>, bs: seq<Piece>, homes: seq<nat>, f: Frames) {
    && Bounceable(bs, f, |m|) && Runnable(|bs|, homes, f, |m|) && CopiesFit(PieceCopies(bs))
    && RunPlan(m, PieceCopies(bs), homes, f) == CopyBack(m, bs, f)
  }

  /** The right plan does what copy-in is for. */
  lemma {:induction false} RightPlanCopiesBack(m: seq<byte>, bs: seq<Piece>, homes: seq<nat>, f: Frames)
    requires Bounceable(bs, f, |m|) && HomePages(bs) <= homes && Runnable(|bs|, homes, f, |m|)
    ensures CopiesBack(m, bs, homes, f)
  {
    if bs != [] {
      hide CopiesBack, Runnable, Bounceable;
      var k := |bs| - 1;
      BounceableFront(bs, f, |m|);
      HomePagesFront(bs, homes);
      assert Runnable(k, homes, f, |m|) by { RunnableFewer(|bs|, homes, f, |m|); }
      RightPlanCopiesBack(m, bs[..k], homes, f);
      CopiesBackStep(m, bs, homes, f);
    } else {
      assert RunPlan(m, PieceCopies(bs), homes, f) == m;
    }
  }

  lemma RunnableFewer(n: nat, homes: seq<nat>, f: Frames, size: nat)
    requires 0 < n && Runnable(n, homes, f, size)
    ensures Runnable(n - 1, homes, f, size)
  {
  }

  lemma CopiesBackStep(m: seq<byte>, bs: seq<Piece>, homes: seq<nat>, f: Frames)
    requires bs != [] && Bounceable(bs, f, |m|) && Runnable(|bs|, homes, f, |m|)
    requires homes[|bs| - 1] == At(bs[|bs| - 1].pfn, 0) && CopiesBack(m, bs[..|bs| - 1], homes, f)
    ensures CopiesBack(m, bs, homes, f)
  {
    hide RunPlan, CopyOne, Clear, Homes;
    PieceCopiesFit(bs);
    CopyStep(m, PieceCopies(bs[..|bs| - 1]), bs[|bs| - 1], homes, f);
  }

  lemma RightCopy(m: seq<byte>, b: Piece, frame: nat)
    requires PieceOk(b) && At(b.pfn, PAGE_SIZE) <= |m| && At(frame, PAGE_SIZE) <= |m|
    ensures RunCopy(m, Copy(b.lo, b.hi - b.lo), At(b.pfn, 0), frame) == CopyOne(m, b, frame)
  {
  }

  /**
   * Two 512-byte segments at different page offsets: the walk as written copies the second bounce
   * page at the first entry's length instead of its own offset, so no byte of the second segment
   * ever arrives.
   */
  lemma ListCopyInFails(m: seq<byte>, vm: nat, p: nat, q: nat, f: Frames, o: nat)
    requires OffsetOf(vm) == 0 && p != q && !Driver(f, p) && !Driver(f, q)
    requires At(p, PAGE_SIZE) <= |m| && At(q, PAGE_SIZE) <= |m| && At(f.reserved + NUM_RESERVED, 0) <= |m|
    requires 1024 <= o < 1536
    ensures SegmentsOk([Segment(p, 512, 512), Segment(q, 1024, 512)])
    ensures var es := Entries(Pieces([Segment(p, 512, 512), Segment(q, 1024, 512)]), vm);
      var cs := Plan(es, WordsUsed(es));
      |cs| == 2 && RunPlan(m, cs, [At(p, 0), At(q, 0)], f)[At(q, o)] == m[At(q, o)]
  {
    hide Plan, WordsUsed, RunPlan, Pieces, Entries;
    TwoPieces(p, q);
    TwoEntries(vm, Piece(p, 512, 1024), Piece(q, 1024, 1536));
    WordsUsedTwo(Entry(vm + 512, 512), Entry(vm + At(1, 1024), 512));
    TwoPlans(vm);
    var c := Copy(512, 512);
    var homes := [At(p, 0), At(q, 0)];
    RunPlanSnoc(m, [], c, homes, f);
    RunPlanSnoc(m, [] + [c], c, homes, f);
    assert [] + [c] + [c] == [c, c];
    assert RunPlan(m, [], homes, f) == m by { RunNothing(m, homes, f); }
    RunCopyMisses(m, c, At(p, 0), BounceFrame(f, 0), At(q, o));
    RunCopyMisses(RunCopy(m, c, At(p, 0), BounceFrame(f, 0)), c, At(q, 0), BounceFrame(f, 1), At(q, o));
  }

  lemma RunNothing(m: seq<byte>, homes: seq<nat>, f: Frames)
    requires Runnable(0, homes, f, |m|)
    ensures RunPlan(m, [], homes, f) == m
  {
  }

  lemma RunCopyMisses(m: seq<byte>, c: Copy, home: nat, frame: nat, a: nat)
    requires home + c.off + c.len <= |m| && At(frame, c.off) + c.len <= |m| && a < |m|
    requires !(home + c.off <= a < home + c.off + c.len)
    ensures RunCopy(m, c, home, frame)[a] == m[a]
  {
  }

  lemma WordsUsedTwo(e: Entry, g: Entry)
    ensures WordsUsed([e, g]) == [e.addr, e.len]
  {
  }

  lemma TwoPieces(p: nat, q: nat)
    ensures SegmentsOk([Segment(p, 512, 512), Segment(q, 1024, 512)])
    ensures Pieces([Segment(p, 512, 512), Segment(q, 1024, 512)]) == [Piece(p, 512, 1024), Piece(q, 1024, 1536)]
  {
    var segs := [Segment(p, 512, 512), Segment(q, 1024, 512)];
    assert segs[..1] == [segs[0]] && segs[..1][..0] == [];
    assert SegPieces(segs[0]) == [Piece(p, 512, 1024)];
    assert SegPieces(segs[1]) == [Piece(q, 1024, 1536)];
    assert Pieces([segs[0]]) == [] + SegPieces(segs[0]);
  }

  lemma TwoEntries(vm: nat, a: Piece, b: Piece)
    requires PieceOk(a) && PieceOk(b) && 0 < b.lo
    ensures Entries([a, b], vm) == [Entry(vm + a.lo, a.hi - a.lo), Entry(vm + At(1, b.lo), b.hi - b.lo)]
  {
    assert [a, b][..1] == [a] && [a][..0] == [];
    assert Entries([a], vm) == AddPiece([], [], a, vm);
  }

  lemma TwoPlans(vm: nat)
    requires OffsetOf(vm) == 0
    ensures Plan([Entry(vm + 512, 512), Entry(vm + At(1, 1024), 512)], [vm + 512, 512])
         == [Copy(512, 512), Copy(512, 512)]
  {
    var es, ws := [Entry(vm + 512, 512), Entry(vm + At(1, 1024), 512)], [vm + 512, 512];
    assert es[..1] == [es[0]] && ws[..1] == [ws[0]] && es[..1][..0] == [] && ws[..1][..0] == [];
    assert EntryPlan(es[0], ws[0]) == [Copy(512, 512)];
    assert EntryPlan(es[1], ws[1]) == [Copy(512, 512)];
    assert Plan([es[0]], [ws[0]]) == [] + EntryPlan(es[0], ws[0]);
  }
}
