/**
 * The copying path of kernel/command.h: a write's payload leaves the bio chain in chunks of any size,
 * a read's payload is scattered over the segments.
 */
module CopyPath {
  import opened Memory

  const EINVAL := 22
  const EIO := 5

  // ---------------------------------------------------------------------------------------------
  // Bio chains

  /** struct bio with its bi_iter: idx and done are bi_idx and bi_bvec_done, size is bi_size. */
  datatype Bio = Bio(vecs: seq<Extent>, idx: nat, done: nat, size: nat)

  /** What is left of a bio. */
  function Rest(b: Bio): seq<Extent> {
    if b.idx >= |b.vecs| || b.vecs[b.idx].len < b.done then []
    else [Extent(b.vecs[b.idx].addr + b.done, b.vecs[b.idx].len - b.done)] + b.vecs[b.idx + 1..]
  }

  /** Of a bio nothing was sent of, its vectors are left. */
  lemma WholeBio(b: Bio)
    requires b.idx == 0 && b.done == 0
    ensures Rest(b) == b.vecs
  {
  }

  /** A bio with something left. */
  predicate BioOk(b: Bio) {
    && b.idx < |b.vecs| && b.done < b.vecs[b.idx].len && b.size == Total(Rest(b))
    && forall i :: 0 <= i < |b.vecs| ==> 0 < b.vecs[i].len
  }

  /** mp_bio_iter_iovec. */
  function Iovec(b: Bio): (x: Extent)
    requires BioOk(b)
    ensures 0 < x.len
  {
    Extent(b.vecs[b.idx].addr + b.done, b.vecs[b.idx].len - b.done)
  }

  /** bio_advance_iter by no more than the current vector. */
  function Advanced(b: Bio, n: nat): Bio
    requires BioOk(b) && n <= Iovec(b).len
  {
    var size := if n <= b.size then b.size - n else 0;
    if n < Iovec(b).len then b.(done := b.done + n, size := size) else b.(idx := b.idx + 1, done := 0, size := size)
  }

  predicate ChainOk(bios: seq<Bio>) {
    forall i :: 0 <= i < |bios| ==> BioOk(bios[i])
  }

  /** What is left of a chain. */
  function ChainRest(bios: seq<Bio>): seq<Extent>
    requires ChainOk(bios)
  {
    if bios == [] then [] else Rest(bios[0]) + ChainRest(bios[1..])
  }

  /** A chain is left in the order of its bios. */
  lemma {:induction false} ChainConcat(a: seq<Bio>, b: Bio, c: seq<Bio>)
    requires ChainOk(a) && BioOk(b) && ChainOk(c)
    ensures ChainOk(a + [b] + c) && ChainRest(a + [b] + c) == ChainRest(a) + Rest(b) + ChainRest(c)
  {
    hide Rest, BioOk;
    if a == [] {
      assert a + [b] + c == [b] + c && ([b] + c)[1..] == c;
    } else {
      ChainConcat(a[1..], b, c);
      assert (a + [b] + c)[1..] == a[1..] + [b] + c;
      InFront(Rest(a[0]), ChainRest(a[1..]), Rest(b), ChainRest(c));
    }
  }

  lemma InFront<T>(h: seq<T>, x: seq<T>, y: seq<T>, z: seq<T>)
    ensures h + (x + y + z) == (h + x) + y + z
  {
  }

  lemma TotalCons(x: Extent, xs: seq<Extent>)
    ensures Total([x] + xs) == x.len + Total(xs)
  {
    TotalConcat([x], xs);
    assert [x][..0] == [];
  }

  lemma GatherCons(m: seq<byte>, x: Extent, xs: seq<Extent>)
    requires InBounds([x] + xs, |m|)
    ensures x.addr + x.len <= |m| && InBounds(xs, |m|)
    ensures Gather(m, [x] + xs) == Slice(m, x) + Gather(m, xs)
  {
    hide Slice;
    assert ([x] + xs)[0] == x;
    forall i | 0 <= i < |xs| ensures xs[i].addr + xs[i].len <= |m| {
      assert ([x] + xs)[i + 1] == xs[i];
    }
    GatherConcat(m, [x], xs);
    assert [] + Slice(m, x) == Slice(m, x);
    assert [x][..0] == [];
  }

  lemma {:induction false} PositiveTotal(xs: seq<Extent>)
    requires xs != [] && forall i :: 0 <= i < |xs| ==> 0 < xs[i].len
    ensures 0 < Total(xs)
  {
  }

  /** What it means to have taken n bytes off the front of a bio. */
  ghost predicate TookOff(m: seq<byte>, b: Bio, n: nat, b': Bio)
    requires BioOk(b) && n <= Iovec(b).len
  {
    var a := Iovec(b).addr;
    && InBounds(Rest(b), |m|) && InBounds(Rest(b'), |m|) && a + n <= |m|
    && Gather(m, Rest(b)) == m[a..a + n] + Gather(m, Rest(b'))
    && b'.size == Total(Rest(b')) == b.size - n
    && (b'.size == 0 <==> Rest(b') == []) && (b'.size != 0 ==> BioOk(b'))
  }

  /** Advancing takes the first n bytes off what is left; the size is used up exactly with the vectors. */
  lemma AdvancedRest(m: seq<byte>, b: Bio, n: nat)
    requires BioOk(b) && n <= Iovec(b).len && InBounds(Rest(b), |m|)
    ensures TookOff(m, b, n, Advanced(b, n))
  {
    hide TookOff;
    if n < Iovec(b).len {
      WithinVec(m, b, n);
    } else {
      WholeVec(m, b);
    }
  }

  lemma RestTotal(b: Bio)
    requires b.idx < |b.vecs| && b.done <= b.vecs[b.idx].len
    ensures var x, tail := Extent(b.vecs[b.idx].addr + b.done, b.vecs[b.idx].len - b.done), b.vecs[b.idx + 1..];
      Rest(b) == [x] + tail && Total(Rest(b)) == x.len + Total(tail)
  {
    hide Total;
    TotalCons(Extent(b.vecs[b.idx].addr + b.done, b.vecs[b.idx].len - b.done), b.vecs[b.idx + 1..]);
  }

  lemma RestParts(b: Bio, n: nat)
    requires BioOk(b) && n < Iovec(b).len
    ensures var b', x, tail := Advanced(b, n), Iovec(b), b.vecs[b.idx + 1..];
      && Rest(b) == [x] + tail && Rest(b') == [Extent(x.addr + n, x.len - n)] + tail
      && b.idx < |b.vecs| && b.size == x.len + Total(tail) && b'.size == x.len - n + Total(tail) == Total(Rest(b')) && BioOk(b')
  {
    hide Total, Rest;
    RestTotal(b);
    RestTotal(Advanced(b, n));
  }

  lemma WithinVec(m: seq<byte>, b: Bio, n: nat)
    requires BioOk(b) && n < Iovec(b).len && InBounds(Rest(b), |m|)
    ensures TookOff(m, b, n, Advanced(b, n))
  {
    hide Gather, Slice, Rest, Total, InBounds, BioOk, Iovec, Advanced;
    RestParts(b, n);
    var x, tail := Iovec(b), b.vecs[b.idx + 1..];
    var y := Extent(x.addr + n, x.len - n);
    HeadInBounds(m, x, y, tail);
    HeadCut(m, x, n, y, tail);
    assert 0 < Total([y] + tail) by { TotalCons(y, tail); }
    assert Rest(Advanced(b, n)) != [];
  }

  lemma WholeVec(m: seq<byte>, b: Bio)
    requires BioOk(b) && InBounds(Rest(b), |m|)
    ensures TookOff(m, b, Iovec(b).len, Advanced(b, Iovec(b).len))
  {
    hide Gather, Total, Rest, InBounds, BioOk, Iovec, Advanced;
    WholeParts(b);
    var tail := b.vecs[b.idx + 1..];
    GatherCons(m, Iovec(b), tail);
    assert Slice(m, Iovec(b)) == m[Iovec(b).addr..Iovec(b).addr + Iovec(b).len];
  }

  lemma WholeParts(b: Bio)
    requires BioOk(b)
    ensures var b', x, tail := Advanced(b, Iovec(b).len), Iovec(b), b.vecs[b.idx + 1..];
      && b.idx < |b.vecs| && Rest(b) == [x] + tail && Rest(b') == tail
      && b'.size == b.size - x.len == Total(tail) && (b'.size == 0 <==> tail == []) && (b'.size != 0 ==> BioOk(b'))
  {
    RestTotal(b);
    AfterVec(Advanced(b, Iovec(b).len), b.vecs[b.idx + 1..]);
    hide Total, Rest;
  }

  lemma AfterVec(b: Bio, tail: seq<Extent>)
    requires b.idx <= |b.vecs| && b.done == 0 && tail == b.vecs[b.idx..] && forall i :: 0 <= i < |b.vecs| ==> 0 < b.vecs[i].len
    ensures Rest(b) == tail && (tail == [] <==> Total(tail) == 0)
  {
    if tail != [] {
      PositiveTotal(tail);
      assert tail == [b.vecs[b.idx]] + b.vecs[b.idx + 1..];
    }
  }

  lemma HeadInBounds(m: seq<byte>, x: Extent, y: Extent, tail: seq<Extent>)
    requires InBounds([x] + tail, |m|) && y.addr + y.len <= x.addr + x.len
    ensures InBounds([y] + tail, |m|) && x.addr + x.len <= |m|
  {
    assert ([x] + tail)[0] == x;
    forall i | 0 <= i < |[y] + tail| ensures ([y] + tail)[i].addr + ([y] + tail)[i].len <= |m| {
      if i > 0 {
        assert ([y] + tail)[i] == ([x] + tail)[i];
      }
    }
  }

  lemma HeadCut(m: seq<byte>, x: Extent, n: nat, y: Extent, tail: seq<Extent>)
    requires InBounds([x] + tail, |m|) && InBounds([y] + tail, |m|) && n < x.len && y == Extent(x.addr + n, x.len - n)
    requires x.addr + x.len <= |m|
    ensures Gather(m, [x] + tail) == m[x.addr..x.addr + n] + Gather(m, [y] + tail)
  {
    hide Gather, InBounds, Slice;
    GatherCons(m, x, tail);
    GatherCons(m, y, tail);
    SliceHead(m, x, n, y);
    SeqAssoc(m[x.addr..x.addr + n], Slice(m, y), Gather(m, tail));
  }

  lemma SliceHead(m: seq<byte>, x: Extent, n: nat, y: Extent)
    requires n < x.len && y == Extent(x.addr + n, x.len - n) && x.addr + x.len <= |m|
    ensures Slice(m, x) == m[x.addr..x.addr + n] + Slice(m, y)
  {
  }

  // ---------------------------------------------------------------------------------------------
  // The bytes of a chain

  /** The bytes a chain has left. */
  ghost predicate Holds(m: seq<byte>, bios: seq<Bio>, payload: seq<byte>) {
    ChainOk(bios) && InBounds(ChainRest(bios), |m|) && payload == Gather(m, ChainRest(bios))
  }

  lemma InBoundsConcat(xs: seq<Extent>, ys: seq<Extent>, n: nat)
    ensures InBounds(xs + ys, n) <==> InBounds(xs, n) && InBounds(ys, n)
  {
    if InBounds(xs + ys, n) {
      forall i | 0 <= i < |xs| ensures xs[i].addr + xs[i].len <= n {
        assert (xs + ys)[i] == xs[i];
      }
      forall i | 0 <= i < |ys| ensures ys[i].addr + ys[i].len <= n {
        assert (xs + ys)[|xs| + i] == ys[i];
      }
    }
  }

  lemma ChainCons(m: seq<byte>, b: Bio, bios: seq<Bio>)
    requires BioOk(b) && ChainOk(bios)
    ensures ChainOk([b] + bios) && ChainRest([b] + bios) == Rest(b) + ChainRest(bios)
    ensures InBounds(ChainRest([b] + bios), |m|) <==> InBounds(Rest(b), |m|) && InBounds(ChainRest(bios), |m|)
    ensures InBounds(ChainRest([b] + bios), |m|) ==>
              Gather(m, ChainRest([b] + bios)) == Gather(m, Rest(b)) + Gather(m, ChainRest(bios))
  {
    hide BioOk, Rest, Gather, InBounds;
    assert ([b] + bios)[0] == b && ([b] + bios)[1..] == bios;
    InBoundsConcat(Rest(b), ChainRest(bios), |m|);
    if InBounds(ChainRest([b] + bios), |m|) {
      GatherConcat(m, Rest(b), ChainRest(bios));
    }
  }

  /** The chain after n bytes of its first bio were sent; an exhausted bio gives way to the next one. */
  function ChainAdvanced(bios: seq<Bio>, n: nat): seq<Bio>
    requires bios != [] && BioOk(bios[0]) && n <= Iovec(bios[0]).len
  {
    var b := Advanced(bios[0], n);
    if b.size == 0 then bios[1..] else [b] + bios[1..]
  }

  /** Sending n bytes takes them off the front of what the chain holds. */
  lemma ChainStep(m: seq<byte>, bios: seq<Bio>, payload: seq<byte>, n: nat)
    requires Holds(m, bios, payload) && bios != [] && n <= Iovec(bios[0]).len
    ensures var x := Iovec(bios[0]); x.addr + x.len <= |m| && n <= |payload| && payload[..n] == m[x.addr..x.addr + n]
    ensures Holds(m, ChainAdvanced(bios, n), payload[n..])
    ensures 0 < n ==> n <= |payload|
  {
    hide Gather, BioOk, Iovec, Rest, Slice, InBounds, TookOff, Advanced;
    var b, tail := bios[0], bios[1..];
    assert bios == [b] + tail;
    ChainCons(m, b, tail);
    AdvancedRest(m, b, n);
    var g := Gather(m, ChainRest(tail));
    TookOffParts(m, b, n, Advanced(b, n));
    var b' := Advanced(b, n);
    var x := Iovec(b);
    SeqAssoc(m[x.addr..x.addr + n], Gather(m, Rest(b')), g);
    Suffix(m[x.addr..x.addr + n], Gather(m, Rest(b')) + g, payload);
    if b'.size == 0 {
      assert Gather(m, Rest(b')) + g == g;
    } else {
      ChainCons(m, b', tail);
    }
  }

  lemma Suffix<T>(a: seq<T>, c: seq<T>, s: seq<T>)
    requires s == a + c
    ensures |a| <= |s| && s[..|a|] == a && s[|a|..] == c
  {
  }

  lemma TookOffParts(m: seq<byte>, b: Bio, n: nat, b': Bio)
    requires BioOk(b) && n <= Iovec(b).len && TookOff(m, b, n, b')
    ensures var a := Iovec(b).addr;
      && InBounds(Rest(b), |m|) && InBounds(Rest(b'), |m|) && a + Iovec(b).len <= |m|
      && |m[a..a + n]| == n && Gather(m, Rest(b)) == m[a..a + n] + Gather(m, Rest(b'))
      && (b'.size == 0 ==> Gather(m, Rest(b')) == []) && (b'.size != 0 ==> BioOk(b'))
  {
    assert Rest(b)[0] == Iovec(b);
  }
}
