/** User accesses through the mapped window: page-table translation, loads and stores. */
module Window {
  import opened Memory
  import opened Layout

  /** The user's address space for one connection: pages pt[0], pt[1], ... from address vm upwards. */
  datatype Table = Table(vm: nat, pt: seq<nat>)

  /** Every mapped frame lies inside a memory of n bytes. */
  predicate Backed(t: Table, n: nat) {
    forall i :: 0 <= i < |t.pt| ==> At(t.pt[i], PAGE_SIZE) <= n
  }

  predicate Mapped(t: Table, a: nat, n: nat) {
    t.vm <= a && a - t.vm + n <= |t.pt| * 4096
  }

  function Translate(t: Table, a: nat): (r: nat)
    requires t.vm <= a && a - t.vm < |t.pt| * 4096
    ensures r < At(t.pt[PageOf(a - t.vm)], PAGE_SIZE)
  {
    At(t.pt[PageOf(a - t.vm)], OffsetOf(a - t.vm))
  }

  /** memcpy out of the window. */
  function Load(m: seq<byte>, t: Table, a: nat, n: nat): (r: seq<byte>)
    requires Backed(t, |m|) && Mapped(t, a, n)
    ensures |r| == n
  {
    seq(n, k requires 0 <= k < n => m[Translate(t, a + k)])
  }

  /** memcpy into the window. */
  function Store(m: seq<byte>, t: Table, a: nat, d: seq<byte>): (r: seq<byte>)
    requires Backed(t, |m|) && Mapped(t, a, |d|)
    ensures |r| == |m|
  {
    if d == [] then m
    else
      var n := |d| - 1;
      Store(m, t, a, d[..n])[Translate(t, a + n) := d[n]]
  }

  predicate EntriesMapped(t: Table, es: seq<Entry>) {
    forall i :: 0 <= i < |es| ==> Mapped(t, es[i].addr, es[i].len)
  }

  function ListBytes(es: seq<Entry>): nat {
    if es == [] then 0 else ListBytes(es[..|es| - 1]) + es[|es| - 1].len
  }

  /** What a writer sees that walks the mapping list. */
  function LoadEntries(m: seq<byte>, t: Table, es: seq<Entry>): (r: seq<byte>)
    requires Backed(t, |m|) && EntriesMapped(t, es)
    ensures |r| == ListBytes(es)
  {
    if es == [] then []
    else
      var e := es[|es| - 1];
      LoadEntries(m, t, es[..|es| - 1]) + Load(m, t, e.addr, e.len)
  }

  /** What a reader leaves behind that fills the mapping list entry by entry with b. */
  function StoreEntries(m: seq<byte>, t: Table, es: seq<Entry>, b: seq<byte>): (r: seq<byte>)
    requires Backed(t, |m|) && EntriesMapped(t, es) && |b| == ListBytes(es)
    ensures |r| == |m|
  {
    if es == [] then m
    else
      var e := es[|es| - 1];
      var cut := |b| - e.len;
      Store(StoreEntries(m, t, es[..|es| - 1], b[..cut]), t, e.addr, b[cut..])
  }

  // ---------------------------------------------------------------------------------------------

  lemma LoadSplit(m: seq<byte>, t: Table, a: nat, n: nat, k: nat)
    requires Backed(t, |m|) && Mapped(t, a, n + k)
    ensures Load(m, t, a, n + k) == Load(m, t, a, n) + Load(m, t, a + n, k)
  {
  }

  lemma {:induction false} StoreSplit(m: seq<byte>, t: Table, a: nat, d: seq<byte>, e: seq<byte>)
    requires Backed(t, |m|) && Mapped(t, a, |d| + |e|)
    ensures Store(m, t, a, d + e) == Store(Store(m, t, a, d), t, a + |d|, e)
  {
    if e == [] {
      assert d + e == d;
    } else {
      hide Store, Translate, Backed;
      var front, x := e[..|e| - 1], e[|e| - 1];
      SeqSnoc(e);
      SeqAssoc(d, front, [x]);
      StoreSplit(m, t, a, d, front);
      StoreSplitStep(m, t, a, d, front, x);
    }
  }

  lemma StoreSplitStep(m: seq<byte>, t: Table, a: nat, d: seq<byte>, e: seq<byte>, x: byte)
    requires Backed(t, |m|) && Mapped(t, a, |d| + |e| + 1)
    requires Store(m, t, a, d + e) == Store(Store(m, t, a, d), t, a + |d|, e)
    ensures Store(m, t, a, (d + e) + [x]) == Store(Store(m, t, a, d), t, a + |d|, e + [x])
  {
    hide Store, Translate, Backed;
    StoreSnoc(m, t, a, d + e, x);
    StoreSnoc(Store(m, t, a, d), t, a + |d|, e, x);
  }

  lemma StoreSnoc(m: seq<byte>, t: Table, a: nat, d: seq<byte>, x: byte)
    requires Backed(t, |m|) && Mapped(t, a, |d| + 1)
    ensures Store(m, t, a, d + [x]) == Store(m, t, a, d)[Translate(t, a + |d|) := x]
  {
    assert (d + [x])[..|d|] == d;
  }

  /** Inside one window page, translated accesses are plain copies in the backing frame. */
  lemma LoadInPage(m: seq<byte>, t: Table, i: nat, p: Piece)
    requires Backed(t, |m|) && i < |t.pt| && PieceOk(p)
    ensures Mapped(t, t.vm + At(i, p.lo), p.hi - p.lo)
    ensures InFrame(p, t.pt[i]).addr + InFrame(p, t.pt[i]).len <= |m|
    ensures Load(m, t, t.vm + At(i, p.lo), p.hi - p.lo) == Slice(m, InFrame(p, t.pt[i]))
  {
    var a := t.vm + At(i, p.lo);
    var x := InFrame(p, t.pt[i]);
    assert At(t.pt[i], PAGE_SIZE) <= |m|;
    forall k | 0 <= k < p.hi - p.lo ensures Load(m, t, a, x.len)[k] == Slice(m, x)[k] {
      InPage(t, i, p.lo + k);
      assert a + k == t.vm + At(i, p.lo + k);
    }
  }

  lemma InPage(t: Table, i: nat, o: nat)
    requires i < |t.pt| && o < PAGE_SIZE
    ensures At(i, o) < |t.pt| * 4096
    ensures Translate(t, t.vm + At(i, o)) == At(t.pt[i], o)
  {
  }

  lemma {:induction false} StoreInPage(m: seq<byte>, t: Table, i: nat, o: nat, d: seq<byte>)
    requires Backed(t, |m|) && i < |t.pt| && o + |d| <= PAGE_SIZE
    ensures Mapped(t, t.vm + At(i, o), |d|) && At(t.pt[i], o) + |d| <= |m|
    ensures Store(m, t, t.vm + At(i, o), d) == Splice(m, At(t.pt[i], o), d)
  {
    if d != [] {
      var n := |d| - 1;
      StoreInPage(m, t, i, o, d[..n]);
      InPage(t, i, o + n);
      SpliceSnoc(m, At(t.pt[i], o), d);
    }
  }

  // ---------------------------------------------------------------------------------------------
  // The entries of a layout

  /** The last entry stops where the last piece stops. */
  lemma {:induction false} LastEntryEnd(ps: seq<Piece>, vm: nat)
    requires PiecesOk(ps) && ps != []
    ensures var es := Entries(ps, vm); var e := es[|es| - 1];
            vm <= e.addr && 0 < e.len && e.addr + e.len == vm + At(|ps| - 1, ps[|ps| - 1].hi)
  {
    var front, p := ps[..|ps| - 1], ps[|ps| - 1];
    if Continues(front, p) {
      LastEntryEnd(front, vm);
    }
  }

  lemma EntriesAbut(ps: seq<Piece>, vm: nat)
    requires PiecesOk(ps)
    ensures Abuts(Entries(ps, vm), ps, vm)
  {
    if ps != [] {
      LastEntryEnd(ps, vm);
    }
  }

  lemma {:induction false} EntriesFit(ps: seq<Piece>, t: Table)
    requires PiecesOk(ps) && |ps| <= |t.pt|
    ensures EntriesMapped(t, Entries(ps, t.vm))
  {
    if ps != [] {
      EntriesFit(ps[..|ps| - 1], t);
      LastEntryEnd(ps, t.vm);
    }
  }

  /** es is a list whose last entry stops where the pages of front stop. */
  predicate Abuts(es: seq<Entry>, front: seq<Piece>, vm: nat) {
    if front == [] then es == []
    else es != [] && es[|es| - 1].addr + es[|es| - 1].len == vm + At(|front| - 1, front[|front| - 1].hi)
  }

  lemma {:induction false} ListBytesIsTotal(ps: seq<Piece>, vm: nat)
    requires PiecesOk(ps)
    ensures ListBytes(Entries(ps, vm)) == Total(Homes(ps))
  {
    if ps != [] {
      var front, p := ps[..|ps| - 1], ps[|ps| - 1];
      ListBytesIsTotal(front, vm);
      assert Homes(ps)[..|ps| - 1] == Homes(front);
      AddPieceBytes(Entries(front, vm), front, p, vm);
    }
  }

  lemma AddPieceBytes(es: seq<Entry>, front: seq<Piece>, p: Piece, vm: nat)
    requires PieceOk(p) && (front != [] ==> es != [])
    ensures ListBytes(AddPiece(es, front, p, vm)) == ListBytes(es) + (p.hi - p.lo)
  {
    var r := AddPiece(es, front, p, vm);
    assert r[..|r| - 1] == if Continues(front, p) then es[..|es| - 1] else es;
  }

  /** One more page in the list is one more page read. */
  lemma LoadAddPiece(m: seq<byte>, t: Table, es: seq<Entry>, front: seq<Piece>, p: Piece)
    requires PieceOk(p) && Abuts(es, front, t.vm) && |front| < |t.pt| && Backed(t, |m|)
    requires EntriesMapped(t, es) && EntriesMapped(t, AddPiece(es, front, p, t.vm))
    ensures Mapped(t, t.vm + At(|front|, p.lo), p.hi - p.lo)
    ensures LoadEntries(m, t, AddPiece(es, front, p, t.vm))
         == LoadEntries(m, t, es) + Load(m, t, t.vm + At(|front|, p.lo), p.hi - p.lo)
  {
    var r := AddPiece(es, front, p, t.vm);
    if Continues(front, p) {
      var e := es[|es| - 1];
      assert r[..|r| - 1] == es[..|es| - 1];
      assert Mapped(t, r[|r| - 1].addr, r[|r| - 1].len);
      LoadSplit(m, t, e.addr, e.len, p.hi - p.lo);
    } else {
      assert r[..|r| - 1] == es;
    }
  }

  /** One more page in the list is one more page stored. */
  lemma StoreAddPiece(m: seq<byte>, t: Table, es: seq<Entry>, front: seq<Piece>, p: Piece, b: seq<byte>, c: seq<byte>)
    requires PieceOk(p) && Abuts(es, front, t.vm) && |front| < |t.pt| && Backed(t, |m|)
    requires EntriesMapped(t, es) && EntriesMapped(t, AddPiece(es, front, p, t.vm))
    requires |b| == ListBytes(es) && |c| == p.hi - p.lo
    ensures Mapped(t, t.vm + At(|front|, p.lo), p.hi - p.lo)
    ensures |b + c| == ListBytes(AddPiece(es, front, p, t.vm))
    ensures StoreEntries(m, t, AddPiece(es, front, p, t.vm), b + c)
         == Store(StoreEntries(m, t, es, b), t, t.vm + At(|front|, p.lo), c)
  {
    hide Store, StoreEntries;
    var r := AddPiece(es, front, p, t.vm);
    if Continues(front, p) {
      var n := |es| - 1;
      assert Mapped(t, r[n].addr, r[n].len);
      GrowLast(m, t, es, b, c);
    } else {
      assert Mapped(t, r[|es|].addr, r[|es|].len);
      StoreEntriesSnoc(m, t, es, r[|es|], b, c);
    }
  }

  lemma ListBytesSnoc(es: seq<Entry>)
    requires es != []
    ensures ListBytes(es) == ListBytes(es[..|es| - 1]) + es[|es| - 1].len
  {
  }

  lemma GrowLast(m: seq<byte>, t: Table, es: seq<Entry>, b: seq<byte>, c: seq<byte>)
    requires Backed(t, |m|) && es != [] && EntriesMapped(t, es)
    requires Mapped(t, es[|es| - 1].addr, es[|es| - 1].len + |c|) && |b| == ListBytes(es)
    ensures EntriesMapped(t, Grown(es, |c|)) && |b + c| == ListBytes(Grown(es, |c|))
    ensures StoreEntries(m, t, Grown(es, |c|), b + c)
         == Store(StoreEntries(m, t, es, b), t, es[|es| - 1].addr + es[|es| - 1].len, c)
  {
    var n := |es| - 1;
    hide Store, StoreEntries, ListBytes, Backed;
    ListBytesSnoc(es);
    var k := |b| - es[n].len;
    var front, e, b0, b1 := es[..n], es[n], b[..k], b[k..];
    SeqSnoc(es);
    SeqCut(b, k);
    StoreGrownEntry(m, t, front, e, b0, b1, c);
  }

  function Grown(es: seq<Entry>, k: nat): seq<Entry>
    requires es != []
  {
    es[..|es| - 1] + [es[|es| - 1].(len := es[|es| - 1].len + k)]
  }

  /** Lengthening the last entry stores the extra bytes right behind it. */
  lemma StoreGrownEntry(m: seq<byte>, t: Table, front: seq<Entry>, e: Entry,
                        b0: seq<byte>, b1: seq<byte>, b2: seq<byte>)
    requires Backed(t, |m|) && EntriesMapped(t, front) && Mapped(t, e.addr, e.len + |b2|)
    requires |b0| == ListBytes(front) && |b1| == e.len
    ensures EntriesMapped(t, front + [e]) && |b0 + b1| == ListBytes(front + [e])
    ensures EntriesMapped(t, front + [e.(len := e.len + |b2|)])
    ensures |b0 + b1 + b2| == ListBytes(front + [e.(len := e.len + |b2|)])
    ensures StoreEntries(m, t, front + [e.(len := e.len + |b2|)], b0 + b1 + b2)
         == Store(StoreEntries(m, t, front + [e], b0 + b1), t, e.addr + e.len, b2)
  {
    hide Store, StoreEntries;
    StoreEntriesSnoc(m, t, front, e, b0, b1);
    StoreEntriesSnoc(m, t, front, e.(len := e.len + |b2|), b0, b1 + b2);
    SeqAssoc(b0, b1, b2);
    StoreSplit(StoreEntries(m, t, front, b0), t, e.addr, b1, b2);
  }

  lemma StoreEntriesSnoc(m: seq<byte>, t: Table, front: seq<Entry>, e: Entry, b: seq<byte>, c: seq<byte>)
    requires Backed(t, |m|) && EntriesMapped(t, front) && Mapped(t, e.addr, e.len)
    requires |b| == ListBytes(front) && |c| == e.len
    ensures EntriesMapped(t, front + [e]) && |b + c| == ListBytes(front + [e])
    ensures StoreEntries(m, t, front + [e], b + c) == Store(StoreEntries(m, t, front, b), t, e.addr, c)
  {
    assert (front + [e])[..|front|] == front;
    assert (b + c)[..|b|] == b && (b + c)[|b|..] == c;
  }

  lemma {:induction false} TargetsTotal(ps: seq<Piece>, fs: seq<nat>)
    requires PiecesOk(ps) && |fs| == |ps|
    ensures Total(Targets(ps, fs)) == Total(Homes(ps))
  {
    if ps != [] {
      var i := |ps| - 1;
      TargetsTotal(ps[..i], fs[..i]);
      assert Targets(ps, fs)[..i] == Targets(ps[..i], fs[..i]);
      assert Homes(ps)[..i] == Homes(ps[..i]);
    }
  }

  lemma {:induction false} TargetsInBounds(ps: seq<Piece>, fs: seq<nat>, t: Table, n: nat)
    requires PiecesOk(ps) && |fs| == |ps| && fs <= t.pt && Backed(t, n)
    ensures InBounds(Targets(ps, fs), n)
  {
    forall i | 0 <= i < |ps| ensures InFrame(ps[i], fs[i]).addr + InFrame(ps[i], fs[i]).len <= n {
      assert fs[i] == t.pt[i];
    }
  }

  lemma LoadGatherStep(m: seq<byte>, t: Table, es: seq<Entry>, xs: seq<Extent>, front: seq<Piece>, p: Piece)
    requires PieceOk(p) && Abuts(es, front, t.vm) && |front| < |t.pt| && Backed(t, |m|)
    requires EntriesMapped(t, es) && EntriesMapped(t, AddPiece(es, front, p, t.vm)) && InBounds(xs, |m|)
    requires LoadEntries(m, t, es) == Gather(m, xs)
    ensures InBounds(xs + [InFrame(p, t.pt[|front|])], |m|)
    ensures LoadEntries(m, t, AddPiece(es, front, p, t.vm)) == Gather(m, xs + [InFrame(p, t.pt[|front|])])
  {
    hide Load, LoadEntries, Gather, Slice;
    LoadInPage(m, t, |front|, p);
    LoadAddPiece(m, t, es, front, p);
    GatherSnoc(m, xs, InFrame(p, t.pt[|front|]));
  }

  /** Walking the list through the window reads the frames page by page. */
  lemma {:induction false} LoadEntriesIsGather(m: seq<byte>, t: Table, ps: seq<Piece>, fs: seq<nat>)
    requires PiecesOk(ps) && |fs| == |ps| && fs <= t.pt && Backed(t, |m|)
    ensures EntriesMapped(t, Entries(ps, t.vm)) && InBounds(Targets(ps, fs), |m|)
    ensures LoadEntries(m, t, Entries(ps, t.vm)) == Gather(m, Targets(ps, fs))
  {
    EntriesFit(ps, t);
    TargetsInBounds(ps, fs, t, |m|);
    if ps != [] {
      var i := |ps| - 1;
      TargetsSnoc(ps, fs);
      LoadEntriesIsGather(m, t, ps[..i], fs[..i]);
      EntriesAbut(ps[..i], t.vm);
      LoadGatherStep(m, t, Entries(ps[..i], t.vm), Targets(ps[..i], fs[..i]), ps[..i], ps[i]);
    }
  }

  lemma TargetsSnoc(ps: seq<Piece>, fs: seq<nat>)
    requires PiecesOk(ps) && |fs| == |ps| && ps != []
    ensures Targets(ps, fs) == Targets(ps[..|ps| - 1], fs[..|ps| - 1]) + [InFrame(ps[|ps| - 1], fs[|ps| - 1])]
  {
  }

  /** One more window page on both sides. */
  lemma StoreScatterStep(m: seq<byte>, t: Table, es: seq<Entry>, xs: seq<Extent>, front: seq<Piece>, p: Piece,
                         b: seq<byte>, c: seq<byte>)
    requires PieceOk(p) && Abuts(es, front, t.vm) && |front| < |t.pt| && Backed(t, |m|)
    requires EntriesMapped(t, es) && EntriesMapped(t, AddPiece(es, front, p, t.vm))
    requires InBounds(xs, |m|) && |b| == ListBytes(es) == Total(xs) && |c| == p.hi - p.lo
    requires StoreEntries(m, t, es, b) == Scatter(m, xs, b)
    ensures InBounds(xs + [InFrame(p, t.pt[|front|])], |m|)
    ensures |b + c| == ListBytes(AddPiece(es, front, p, t.vm)) == Total(xs + [InFrame(p, t.pt[|front|])])
    ensures StoreEntries(m, t, AddPiece(es, front, p, t.vm), b + c)
         == Scatter(m, xs + [InFrame(p, t.pt[|front|])], b + c)
  {
    hide Store, StoreEntries, Scatter;
    assert At(t.pt[|front|], PAGE_SIZE) <= |m|;
    StoreAddPiece(m, t, es, front, p, b, c);
    StoreInPage(StoreEntries(m, t, es, b), t, |front|, p.lo, c);
    ScatterSnoc(m, xs, InFrame(p, t.pt[|front|]), b, c);
  }

  /** Filling the list through the window is a scatter over the frames. */
  lemma {:induction false} StoreEntriesIsScatter(m: seq<byte>, t: Table, ps: seq<Piece>, fs: seq<nat>, b: seq<byte>)
    requires PiecesOk(ps) && |fs| == |ps| && fs <= t.pt && Backed(t, |m|) && |b| == Total(Targets(ps, fs))
    ensures EntriesMapped(t, Entries(ps, t.vm)) && InBounds(Targets(ps, fs), |m|)
    ensures |b| == ListBytes(Entries(ps, t.vm))
    ensures StoreEntries(m, t, Entries(ps, t.vm), b) == Scatter(m, Targets(ps, fs), b)
  {
    EntriesFit(ps, t);
    TargetsInBounds(ps, fs, t, |m|);
    if ps != [] {
      var i := |ps| - 1;
      var front, p := ps[..i], ps[i];
      var cut := |b| - (p.hi - p.lo);
      hide Store, StoreEntries, Scatter, Targets;
      TargetsSnoc(ps, fs);
      TotalSnoc(Targets(front, fs[..i]), InFrame(p, fs[i]));
      StoreEntriesIsScatter(m, t, front, fs[..i], b[..cut]);
      EntriesAbut(front, t.vm);
      SeqCut(b, cut);
      assert AddPiece(Entries(front, t.vm), front, p, t.vm) == Entries(ps, t.vm);
      StoreScatterStep(m, t, Entries(front, t.vm), Targets(front, fs[..i]), front, p, b[..cut], b[cut..]);
    }
  }
}
