/** Flat byte memory, and lists of extents that a payload is gathered from or scattered into. */
module Memory {

  newtype byte = x: int | 0 <= x < 256

  /** A run of bytes in memory. */
  datatype Extent = Extent(addr: nat, len: nat)

  lemma SeqAssoc<T>(a: seq<T>, b: seq<T>, c: seq<T>)
    ensures (a + b) + c == a + (b + c)
  {
  }

  lemma SeqCut<T>(s: seq<T>, k: nat)
    requires k <= |s|
    ensures s == s[..k] + s[k..]
  {
  }

  lemma SeqSnoc<T>(s: seq<T>)
    requires s != []
    ensures s == s[..|s| - 1] + [s[|s| - 1]]
  {
  }

  function Min(a: int, b: int): int {
    if a < b then a else b
  }

  predicate InBounds(xs: seq<Extent>, n: nat) {
    forall i :: 0 <= i < |xs| ==> xs[i].addr + xs[i].len <= n
  }

  predicate Inside(x: Extent, a: int) {
    x.addr <= a < x.addr + x.len
  }

  ghost predicate Covers(xs: seq<Extent>, a: int) {
    exists i :: 0 <= i < |xs| && Inside(xs[i], a)
  }

  predicate Apart(x: Extent, y: Extent) {
    x.addr + x.len <= y.addr || y.addr + y.len <= x.addr
  }

  predicate Disjoint(xs: seq<Extent>) {
    forall i, j :: 0 <= i < j < |xs| ==> Apart(xs[i], xs[j])
  }

  function Total(xs: seq<Extent>): nat {
    if xs == [] then 0 else Total(xs[..|xs| - 1]) + xs[|xs| - 1].len
  }

  function Zeros(n: nat): (z: seq<byte>)
    ensures |z| == n && forall i :: 0 <= i < n ==> z[i] == 0
  {
    seq(n, _ => 0)
  }

  /** memcpy of d to address a. */
  function Splice(m: seq<byte>, a: nat, d: seq<byte>): (r: seq<byte>)
    requires a + |d| <= |m|
    ensures |r| == |m|
  {
    seq(|m|, k requires 0 <= k < |m| => if a <= k < a + |d| then d[k - a] else m[k])
  }

  lemma SpliceAt(m: seq<byte>, a: nat, d: seq<byte>, i: nat)
    requires a + |d| <= |m| && i < |m|
    ensures Splice(m, a, d)[i] == if a <= i < a + |d| then d[i - a] else m[i]
  {
  }

  lemma SpliceSnoc(m: seq<byte>, a: nat, d: seq<byte>)
    requires d != [] && a + |d| <= |m|
    ensures Splice(m, a, d) == Splice(m, a, d[..|d| - 1])[a + |d| - 1 := d[|d| - 1]]
  {
  }

  function Slice(m: seq<byte>, x: Extent): seq<byte>
    requires x.addr + x.len <= |m|
  {
    m[x.addr..x.addr + x.len]
  }

  /** The bytes of the extents, one after another. */
  function Gather(m: seq<byte>, xs: seq<Extent>): (r: seq<byte>)
    requires InBounds(xs, |m|)
  {
    if xs == [] then [] else Gather(m, xs[..|xs| - 1]) + Slice(m, xs[|xs| - 1])
  }

  lemma {:induction false} GatherLength(m: seq<byte>, xs: seq<Extent>)
    requires InBounds(xs, |m|)
    ensures |Gather(m, xs)| == Total(xs)
  {
    if xs != [] {
      GatherLength(m, xs[..|xs| - 1]);
    }
  }

  /** The inverse direction: b is cut up over the extents, in order. */
  function Scatter(m: seq<byte>, xs: seq<Extent>, b: seq<byte>): (r: seq<byte>)
    requires InBounds(xs, |m|) && |b| == Total(xs)
    ensures |r| == |m|
  {
    if xs == [] then m
    else
      var x := xs[|xs| - 1];
      var cut := |b| - x.len;
      Splice(Scatter(m, xs[..|xs| - 1], b[..cut]), x.addr, b[cut..])
  }

  lemma SliceEqual(m: seq<byte>, m': seq<byte>, x: Extent, y: Extent)
    requires x.len == y.len && x.addr + x.len <= |m| && y.addr + y.len <= |m'|
    requires forall a :: x.addr <= a < x.addr + x.len ==> m[a] == m'[a - x.addr + y.addr]
    ensures Slice(m, x) == Slice(m', y)
  {
    forall k | 0 <= k < x.len ensures Slice(m, x)[k] == Slice(m', y)[k] {
      assert Slice(m, x)[k] == m[x.addr + k];
    }
  }

  lemma SliceSplit(m: seq<byte>, a: nat, n: nat, k: nat)
    requires a + n + k <= |m|
    ensures Slice(m, Extent(a, n + k)) == Slice(m, Extent(a, n)) + Slice(m, Extent(a + n, k))
  {
  }

  lemma SpliceHit(m: seq<byte>, a: nat, d: seq<byte>)
    requires a + |d| <= |m|
    ensures Slice(Splice(m, a, d), Extent(a, |d|)) == d
  {
  }

  lemma SpliceApart(m: seq<byte>, a: nat, d: seq<byte>, x: Extent)
    requires a + |d| <= |m| && x.addr + x.len <= |m| && Apart(x, Extent(a, |d|))
    ensures Slice(Splice(m, a, d), x) == Slice(m, x)
  {
  }

  lemma SpliceJoin(m: seq<byte>, a: nat, b: seq<byte>, c: seq<byte>)
    requires a + |b| + |c| <= |m|
    ensures Splice(Splice(m, a, b), a + |b|, c) == Splice(m, a, b + c)
  {
  }

  /** Gathering two memories along parallel lists gives the same payload as soon as the extents agree pairwise. */
  lemma {:induction false} GatherParallel(m: seq<byte>, xs: seq<Extent>, m': seq<byte>, ys: seq<Extent>)
    requires |xs| == |ys| && InBounds(xs, |m|) && InBounds(ys, |m'|)
    requires forall i :: 0 <= i < |xs| ==> xs[i].len == ys[i].len && Slice(m, xs[i]) == Slice(m', ys[i])
    ensures Gather(m, xs) == Gather(m', ys)
  {
    if xs != [] {
      GatherParallel(m, xs[..|xs| - 1], m', ys[..|ys| - 1]);
    }
  }

  /** The converse: equal payloads cut into equal lengths agree extent by extent. */
  lemma {:induction false} GatherSplits(m: seq<byte>, xs: seq<Extent>, m': seq<byte>, i: nat)
    requires InBounds(xs, |m|) && InBounds(xs, |m'|) && i < |xs|
    requires Gather(m, xs) == Gather(m', xs)
    ensures Slice(m, xs[i]) == Slice(m', xs[i])
  {
    var last := |xs| - 1;
    var g, g' := Gather(m, xs[..last]), Gather(m', xs[..last]);
    assert Gather(m, xs)[|g|..] == Slice(m, xs[last]);
    assert Gather(m', xs)[|g'|..] == Slice(m', xs[last]);
    if i < last {
      assert Gather(m, xs)[..|g|] == g && Gather(m', xs)[..|g'|] == g';
      GatherSplits(m, xs[..last], m', i);
    }
  }

  lemma GatherSnoc(m: seq<byte>, xs: seq<Extent>, x: Extent)
    requires InBounds(xs, |m|) && x.addr + x.len <= |m|
    ensures InBounds(xs + [x], |m|) && Gather(m, xs + [x]) == Gather(m, xs) + Slice(m, x)
  {
    assert (xs + [x])[..|xs|] == xs;
  }

  lemma ScatterSnoc(m: seq<byte>, xs: seq<Extent>, x: Extent, b: seq<byte>, c: seq<byte>)
    requires InBounds(xs, |m|) && x.addr + x.len <= |m| && |b| == Total(xs) && |c| == x.len
    ensures InBounds(xs + [x], |m|) && |b + c| == Total(xs + [x])
    ensures Scatter(m, xs + [x], b + c) == Splice(Scatter(m, xs, b), x.addr, c)
  {
    assert (xs + [x])[..|xs|] == xs;
    assert (b + c)[..|b|] == b && (b + c)[|b|..] == c;
  }

  lemma TotalSnoc(xs: seq<Extent>, x: Extent)
    ensures Total(xs + [x]) == Total(xs) + x.len
  {
    assert (xs + [x])[..|xs|] == xs;
  }

  lemma {:induction false} GatherConcat(m: seq<byte>, xs: seq<Extent>, ys: seq<Extent>)
    requires InBounds(xs, |m|) && InBounds(ys, |m|)
    ensures InBounds(xs + ys, |m|)
    ensures Gather(m, xs + ys) == Gather(m, xs) + Gather(m, ys)
  {
    if ys == [] {
      assert xs + ys == xs;
    } else {
      hide Gather, Slice;
      var front, y := ys[..|ys| - 1], ys[|ys| - 1];
      SeqSnoc(ys);
      SeqAssoc(xs, front, [y]);
      GatherConcat(m, xs, front);
      GatherSnoc(m, xs + front, y);
      GatherSnoc(m, front, y);
      SeqAssoc(Gather(m, xs), Gather(m, front), Slice(m, y));
    }
  }

  lemma {:induction false} TotalConcat(xs: seq<Extent>, ys: seq<Extent>)
    ensures Total(xs + ys) == Total(xs) + Total(ys)
  {
    if ys == [] {
      assert xs + ys == xs;
    } else {
      TotalConcat(xs, ys[..|ys| - 1]);
      assert (xs + ys)[..|xs + ys| - 1] == xs + ys[..|ys| - 1];
    }
  }

  /** Bytes outside every extent are untouched. */
  lemma {:induction false} ScatterOutside(m: seq<byte>, xs: seq<Extent>, b: seq<byte>, a: nat)
    requires InBounds(xs, |m|) && |b| == Total(xs) && a < |m|
    requires forall i :: 0 <= i < |xs| ==> !Inside(xs[i], a)
    ensures Scatter(m, xs, b)[a] == m[a]
  {
    if xs != [] {
      assert !Inside(xs[|xs| - 1], a);
      ScatterOutside(m, xs[..|xs| - 1], b[..|b| - xs[|xs| - 1].len], a);
    }
  }

  /** Round trip: what was scattered is gathered back. */
  lemma {:induction false} GatherScatter(m: seq<byte>, xs: seq<Extent>, b: seq<byte>)
    requires InBounds(xs, |m|) && Disjoint(xs) && |b| == Total(xs)
    ensures Gather(Scatter(m, xs, b), xs) == b
  {
    if xs != [] {
      hide Gather, Scatter, Splice, Slice;
      var front, x := xs[..|xs| - 1], xs[|xs| - 1];
      var cut := |b| - x.len;
      var m1 := Scatter(m, front, b[..cut]);
      SeqSnoc(xs);
      SeqCut(b, cut);
      GatherScatter(m, front, b[..cut]);
      ScatterSnoc(m, front, x, b[..cut], b[cut..]);
      GatherApart(m1, front, x, b[cut..]);
      SpliceHit(m1, x.addr, b[cut..]);
      GatherSnoc(Splice(m1, x.addr, b[cut..]), front, x);
    }
  }

  lemma GatherApart(m: seq<byte>, xs: seq<Extent>, x: Extent, d: seq<byte>)
    requires InBounds(xs, |m|) && x.addr + x.len <= |m| && |d| == x.len
    requires forall i :: 0 <= i < |xs| ==> Apart(xs[i], x)
    ensures Gather(Splice(m, x.addr, d), xs) == Gather(m, xs)
  {
    hide Gather;
    forall i | 0 <= i < |xs| ensures Slice(Splice(m, x.addr, d), xs[i]) == Slice(m, xs[i]) {
      SpliceApart(m, x.addr, d, xs[i]);
    }
    GatherParallel(Splice(m, x.addr, d), xs, m, xs);
  }

  lemma GatherDetermines(m: seq<byte>, m': seq<byte>, xs: seq<Extent>, a: nat)
    requires InBounds(xs, |m|) && InBounds(xs, |m'|) && Gather(m, xs) == Gather(m', xs) && Covers(xs, a)
    ensures a < |m| && a < |m'| && m[a] == m'[a]
  {
    var i :| 0 <= i < |xs| && Inside(xs[i], a);
    GatherSplits(m, xs, m', i);
    assert Slice(m, xs[i])[a - xs[i].addr] == Slice(m', xs[i])[a - xs[i].addr];
  }

  lemma ScatterDetermined(m: seq<byte>, xs: seq<Extent>, b: seq<byte>, r: seq<byte>)
    requires InBounds(xs, |m|) && Disjoint(xs) && |b| == Total(xs) && |r| == |m|
    requires Gather(r, xs) == b && forall a :: 0 <= a < |m| && !Covers(xs, a) ==> r[a] == m[a]
    ensures r == Scatter(m, xs, b)
  {
    var s := Scatter(m, xs, b);
    GatherScatter(m, xs, b);
    forall a | 0 <= a < |m| ensures r[a] == s[a] {
      if Covers(xs, a) {
        GatherDetermines(r, s, xs, a);
      } else {
        ScatterOutside(m, xs, b, a);
      }
    }
  }

  /** A memory is the result of the scatter exactly when it holds the payload and is otherwise unchanged. */
  lemma ScatterUnique(m: seq<byte>, xs: seq<Extent>, b: seq<byte>, r: seq<byte>)
    requires InBounds(xs, |m|) && Disjoint(xs) && |b| == Total(xs) && |r| == |m|
    ensures r == Scatter(m, xs, b)
       <==> Gather(r, xs) == b && forall a :: 0 <= a < |m| && !Covers(xs, a) ==> r[a] == m[a]
  {
    if r == Scatter(m, xs, b) {
      GatherScatter(m, xs, b);
      forall a | 0 <= a < |m| && !Covers(xs, a) ensures r[a] == m[a] {
        ScatterOutside(m, xs, b, a);
      }
    } else if Gather(r, xs) == b && forall a :: 0 <= a < |m| && !Covers(xs, a) ==> r[a] == m[a] {
      ScatterDetermined(m, xs, b, r);
    }
  }
}
