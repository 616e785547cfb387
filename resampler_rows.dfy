/**
 * One row of the resampler's tap table (gst-libs/gst/video/video-resampler.c):
 * the weights of one output sample, their normalisation by the row sum, and
 * the two boundary folds that move taps lying outside the source back into
 * the window. The folds are specified as functions on sequences and
 * implemented in place on the flat `taps` array, as resampler_calculate_taps
 * does at offset `j * max_taps` of `resampler->taps`.
 */
module ResamplerRows {

  /** A tap weight as the C code holds it in a gdouble: a finite value, or the
      infinity / NaN that `taps[l] /= weight` yields when `weight` is zero. */
  datatype Weight = W(v: real) | NonFinite

  /** gdouble addition; anything added to a non-finite value stays non-finite. */
  function Add(a: Weight, b: Weight): Weight
  {
    if a.W? && b.W? then W(a.v + b.v) else NonFinite
  }

  /** gdouble division by the row sum; division by zero is non-finite. */
  function Div(a: Weight, w: real): Weight
  {
    if a.W? && w != 0.0 then W(a.v / w) else NonFinite
  }

  /** Left-to-right sum starting from 0, the order of `weight += taps[l]`. */
  function Sum(s: seq<Weight>): Weight
    decreases |s|
  {
    if s == [] then W(0.0) else Add(Sum(s[..|s| - 1]), s[|s| - 1])
  }

  /** `acc += s[0]; acc += s[1]; ...`, the accumulation loops of both folds. */
  function AddAll(acc: Weight, s: seq<Weight>): Weight
    decreases |s|
  {
    if s == [] then acc else Add(AddAll(acc, s[..|s| - 1]), s[|s| - 1])
  }

  predicate AllFinite(s: seq<Weight>)
  {
    forall i :: 0 <= i < |s| ==> s[i].W?
  }

  function Zeros(k: nat): (z: seq<Weight>)
    ensures |z| == k && forall i :: 0 <= i < k ==> z[i] == W(0.0)
  {
    seq(k, _ => W(0.0))
  }

  /** `for (l = 0; l < max_taps; l++) taps[l] /= weight;` */
  function Normalise(r: seq<Weight>, w: real): (n: seq<Weight>)
    ensures |n| == |r|
    ensures forall l :: 0 <= l < |r| ==> n[l] == Div(r[l], w)
  {
    seq(|r|, l requires 0 <= l < |r| => Div(r[l], w))
  }

  /** The left fold for an anchor `xi = -sh` before the source start: the
      first `sh` taps are added into tap `sh`, the row moves `sh` places to
      the left and the vacated tail is zeroed. */
  function FoldLeft(r: seq<Weight>, sh: nat): (f: seq<Weight>)
    requires 0 < sh < |r|
    ensures |f| == |r|
  {
    var acc := r[sh := AddAll(r[sh], r[..sh])];
    seq(|r|, l requires 0 <= l < |r| => if l < |r| - sh then acc[sh + l] else W(0.0))
  }

  /** The right fold for a window that runs `sh` taps past the source end:
      the last `sh` taps are added into tap `|r| - sh - 1`, the row moves `sh`
      places to the right and the vacated head is zeroed. */
  function FoldRight(r: seq<Weight>, sh: nat): (f: seq<Weight>)
    requires 0 < sh < |r|
    ensures |f| == |r|
  {
    var n := |r|;
    var acc := r[n - sh - 1 := AddAll(r[n - sh - 1], r[n - sh..])];
    seq(n, k requires 0 <= k < n => if k < sh then W(0.0) else acc[k - sh])
  }

  // ---------------------------------------------------------------------
  // Algebra of the sum

  lemma AddAssoc(a: Weight, b: Weight, c: Weight)
    ensures Add(Add(a, b), c) == Add(a, Add(b, c))
  {
  }

  lemma {:induction false} SumAppend(a: seq<Weight>, b: seq<Weight>)
    ensures Sum(a + b) == Add(Sum(a), Sum(b))
    decreases |b|
  {
    if b == [] {
      assert a + b == a;
    } else {
      var b' := b[..|b| - 1];
      assert (a + b)[..|a + b| - 1] == a + b';
      assert (a + b)[|a + b| - 1] == b[|b| - 1];
      SumAppend(a, b');
      AddAssoc(Sum(a), Sum(b'), b[|b| - 1]);
    }
  }

  lemma SumSingleton(x: Weight)
    ensures Sum([x]) == x
  {
    assert [x][..0] == [];
  }

  lemma {:induction false} SumZeros(k: nat)
    ensures Sum(Zeros(k)) == W(0.0)
  {
    if k > 0 {
      assert Zeros(k)[..k - 1] == Zeros(k - 1);
      SumZeros(k - 1);
    }
  }

  lemma {:induction false} AddAllIsAddSum(acc: Weight, s: seq<Weight>)
    ensures AddAll(acc, s) == Add(acc, Sum(s))
    decreases |s|
  {
    if s != [] {
      AddAllIsAddSum(acc, s[..|s| - 1]);
      AddAssoc(acc, Sum(s[..|s| - 1]), s[|s| - 1]);
    }
  }

  /** A row of finite weights has a finite sum. */
  lemma {:induction false} SumFinite(s: seq<Weight>)
    requires AllFinite(s)
    ensures Sum(s).W?
    decreases |s|
  {
    if s != [] {
      SumFinite(s[..|s| - 1]);
    }
  }

  /** One non-finite weight makes the whole sum non-finite. */
  lemma {:induction false} SumNonFinite(s: seq<Weight>, i: nat)
    requires i < |s| && s[i] == NonFinite
    ensures Sum(s) == NonFinite
    decreases |s|
  {
    if i < |s| - 1 {
      SumNonFinite(s[..|s| - 1], i);
    }
  }

  // ---------------------------------------------------------------------
  // Normalisation

  lemma DivSelf(w: real)
    requires w != 0.0
    ensures w / w == 1.0
  {
  }

  lemma DivAdd(a: real, b: real, w: real)
    requires w != 0.0
    ensures a / w + b / w == (a + b) / w
  {
  }

  /** Dividing every weight of a finite row by a non-zero `w` divides its sum by `w`. */
  lemma {:induction false} NormaliseDividesSum(r: seq<Weight>, w: real)
    requires AllFinite(r) && w != 0.0
    ensures Sum(r).W? && Sum(Normalise(r, w)) == W(Sum(r).v / w)
    decreases |r|
  {
    SumFinite(r);
    if r != [] {
      var r' := r[..|r| - 1];
      assert Normalise(r, w)[..|r| - 1] == Normalise(r', w);
      NormaliseDividesSum(r', w);
      SumFinite(r');
      DivAdd(Sum(r').v, r[|r| - 1].v, w);
    }
  }

  /** Each row is divided by its own sum: a finite row with a non-zero sum
      sums to exactly 1 afterwards, and one with a zero sum (the source has no
      guard) becomes non-finite. */
  lemma NormalisedRowSum(r: seq<Weight>)
    requires AllFinite(r) && |r| > 0
    ensures Sum(r).W?
    ensures Sum(r).v != 0.0 ==> Sum(Normalise(r, Sum(r).v)) == W(1.0)
    ensures Sum(r).v == 0.0 ==> Sum(Normalise(r, Sum(r).v)) == NonFinite
  {
    SumFinite(r);
    var w := Sum(r).v;
    if w != 0.0 {
      NormaliseDividesSum(r, w);
      DivSelf(w);
    } else {
      assert Normalise(r, w)[0] == NonFinite;
      SumNonFinite(Normalise(r, w), 0);
    }
  }

  // ---------------------------------------------------------------------
  // The folds conserve the row's total weight

  /** The sum of a row split around one element. */
  lemma SumSplit(a: seq<Weight>, x: Weight, b: seq<Weight>)
    ensures Sum(a + [x] + b) == Add(Add(Sum(a), x), Sum(b))
  {
    SumAppend(a + [x], b);
    SumAppend(a, [x]);
    SumSingleton(x);
  }

  lemma FoldLeftShape(r: seq<Weight>, sh: nat)
    requires 0 < sh < |r|
    ensures FoldLeft(r, sh) == [AddAll(r[sh], r[..sh])] + (r[sh + 1..] + Zeros(sh))
  {
  }

  /** The sum of a row with one element in front. */
  lemma SumCons(x: Weight, s: seq<Weight>)
    ensures Sum([x] + s) == Add(x, Sum(s))
  {
    SumAppend([x], s);
    SumSingleton(x);
  }

  lemma FoldRightShape(r: seq<Weight>, sh: nat)
    requires 0 < sh < |r|
    ensures FoldRight(r, sh) == (Zeros(sh) + r[..|r| - sh - 1]) + [AddAll(r[|r| - sh - 1], r[|r| - sh..])]
  {
  }

  /** The sum of a row split around its element `i`. */
  lemma SumAround(r: seq<Weight>, i: nat)
    requires i < |r|
    ensures Sum(r) == Add(Add(Sum(r[..i]), r[i]), Sum(r[i + 1..]))
  {
    assert r == r[..i] + [r[i]] + r[i + 1..];
    SumSplit(r[..i], r[i], r[i + 1..]);
  }

  lemma FoldLeftSum(r: seq<Weight>, sh: nat)
    requires 0 < sh < |r|
    ensures Sum(FoldLeft(r, sh)) == Add(AddAll(r[sh], r[..sh]), Sum(r[sh + 1..]))
  {
    var tail := r[sh + 1..];
    FoldLeftShape(r, sh);
    SumCons(AddAll(r[sh], r[..sh]), tail + Zeros(sh));
    SumAppend(tail, Zeros(sh));
    SumZeros(sh);
  }

  lemma FoldRightSum(r: seq<Weight>, sh: nat)
    requires 0 < sh < |r|
    ensures Sum(FoldRight(r, sh)) == Add(Sum(r[..|r| - sh - 1]), AddAll(r[|r| - sh - 1], r[|r| - sh..]))
  {
    var m := |r| - sh - 1;
    var folded := AddAll(r[m], r[|r| - sh..]);
    FoldRightShape(r, sh);
    SumAppend(Zeros(sh) + r[..m], [folded]);
    SumSingleton(folded);
    SumAppend(Zeros(sh), r[..m]);
    SumZeros(sh);
  }

  lemma FoldLeftPreservesSum(r: seq<Weight>, sh: nat)
    requires 0 < sh < |r|
    ensures Sum(FoldLeft(r, sh)) == Sum(r)
  {
    FoldLeftSum(r, sh);
    SumAround(r, sh);
    AddAllIsAddSum(r[sh], r[..sh]);
    AddAssoc(Sum(r[..sh]), r[sh], Sum(r[sh + 1..]));
    AddAssoc(r[sh], Sum(r[..sh]), Sum(r[sh + 1..]));
  }

  lemma FoldRightPreservesSum(r: seq<Weight>, sh: nat)
    requires 0 < sh < |r|
    ensures Sum(FoldRight(r, sh)) == Sum(r)
  {
    FoldRightSum(r, sh);
    AccumulateAround(r, |r| - sh - 1);
  }

  /** Adding the tail after element `m` into it leaves the total unchanged. */
  lemma AccumulateAround(r: seq<Weight>, m: nat)
    requires m < |r|
    ensures Add(Sum(r[..m]), AddAll(r[m], r[m + 1..])) == Sum(r)
  {
    AddAllIsAddSum(r[m], r[m + 1..]);
    AddAssoc(Sum(r[..m]), r[m], Sum(r[m + 1..]));
    SumAround(r, m);
  }

  // ---------------------------------------------------------------------
  // Both edge folds of a row anchored at source sample `xi`

  /** Each fold that applies moves the row by less than its width. */
  predicate EdgesFoldable(n: nat, xi: int, inSize: nat)
  {
    && n <= inSize
    && (xi < 0 ==> -xi < n)
    && (xi > inSize - n ==> xi - (inSize - n) < n)
  }

  /** The row after the left fold (window starting before sample 0) and the
      right fold (window running past sample `inSize - 1`). */
  function EdgeFold(r: seq<Weight>, xi: int, inSize: nat): (f: seq<Weight>)
    requires EdgesFoldable(|r|, xi, inSize)
    ensures |f| == |r|
  {
    var left := if xi < 0 then FoldLeft(r, -xi) else r;
    if xi > inSize - |r| then FoldRight(left, xi - (inSize - |r|)) else left
  }

  /** offset[j]: `xi`, moved right by the left fold and left by the right fold. */
  function EdgeOffset(xi: int, inSize: nat, n: nat): int
  {
    var afterLeft := if xi < 0 then xi + -xi else xi;
    if xi > inSize - n then afterLeft - (xi - (inSize - n)) else afterLeft
  }

  /** The folds put the window inside the source: the offset is `xi` clamped
      to [0, inSize - n]. */
  lemma EdgeOffsetClamps(xi: int, inSize: nat, n: nat)
    requires n <= inSize
    ensures 0 <= EdgeOffset(xi, inSize, n) <= inSize - n
    ensures EdgeOffset(xi, inSize, n) == if xi < 0 then 0 else if xi > inSize - n then inSize - n else xi
  {
  }

  /** Folding at the edges keeps the row's total weight. */
  lemma EdgeFoldPreservesSum(r: seq<Weight>, xi: int, inSize: nat)
    requires EdgesFoldable(|r|, xi, inSize)
    ensures Sum(EdgeFold(r, xi, inSize)) == Sum(r)
  {
    var left := if xi < 0 then FoldLeft(r, -xi) else r;
    if xi < 0 {
      FoldLeftPreservesSum(r, -xi);
    }
    if xi > inSize - |r| {
      FoldRightPreservesSum(left, xi - (inSize - |r|));
    }
  }

  // ---------------------------------------------------------------------
  // In-place implementations on the window [base, base + n) of the flat table

  method NormaliseInPlace(a: array<Weight>, base: nat, n: nat, w: real, ghost r: seq<Weight>)
    requires base + n <= a.Length && a[base..base + n] == r
    modifies a
    ensures a[base..base + n] == Normalise(r, w)
    ensures a[..base] == old(a[..base])
  {
    var l := 0;
    while l < n
      invariant 0 <= l <= n
      invariant forall i :: base <= i < base + l ==> a[i] == Div(r[i - base], w)
      invariant forall i :: base + l <= i < base + n ==> a[i] == r[i - base]
      invariant forall i :: 0 <= i < base ==> a[i] == old(a[i])
    {
      a[base + l] := Div(a[base + l], w);
      l := l + 1;
    }
    assert a[base..base + n] == Normalise(r, w);
  }

  /** `for (l = 0; l < sh; l++) taps[sh] += taps[l];` */
  method AccumulateLeft(a: array<Weight>, base: nat, n: nat, sh: nat)
    requires base + n <= a.Length && 0 < sh < n
    modifies a
    ensures var r := old(a[base..base + n]); a[base..base + n] == r[sh := AddAll(r[sh], r[..sh])]
    ensures a[..base] == old(a[..base])
  {
    ghost var r := a[base..base + n];
    var l := 0;
    while l < sh
      invariant 0 <= l <= sh
      invariant a[base + sh] == AddAll(r[sh], r[..l])
      invariant forall i :: base <= i < base + n && i != base + sh ==> a[i] == r[i - base]
      invariant forall i :: 0 <= i < base ==> a[i] == old(a[i])
    {
      assert r[..l + 1][..l] == r[..l];
      a[base + sh] := Add(a[base + sh], a[base + l]);
      l := l + 1;
    }
    assert a[base..base + n] == r[sh := AddAll(r[sh], r[..sh])];
  }

  /** `taps[l] = taps[sh + l]` for `l < n - sh`, then zeros after. */
  method ShiftLeft(a: array<Weight>, base: nat, n: nat, sh: nat)
    requires base + n <= a.Length && 0 < sh < n
    modifies a
    ensures a[base..base + n] == old(a[base..base + n])[sh..] + Zeros(sh)
    ensures a[..base] == old(a[..base])
  {
    MoveLeft(a, base, n, sh);
    ghost var moved := a[base..base + n - sh];
    ZeroRange(a, base + n - sh, base + n);
    assert a[base..base + n - sh] == moved;
    assert a[base..base + n] == a[base..base + n - sh] + a[base + n - sh..base + n];
  }

  /** The copying loop of the left fold, from the first tap up. */
  method MoveLeft(a: array<Weight>, base: nat, n: nat, sh: nat)
    requires base + n <= a.Length && 0 < sh < n
    modifies a
    ensures a[base..base + n - sh] == old(a[base..base + n])[sh..]
    ensures a[..base] == old(a[..base])
  {
    ghost var r := a[base..base + n];
    var l := 0;
    while l < n - sh
      invariant 0 <= l <= n - sh
      invariant forall i :: base <= i < base + l ==> a[i] == r[i - base + sh]
      invariant forall i :: 0 <= i < base || base + l <= i < a.Length ==> a[i] == old(a[i])
    {
      a[base + l] := a[base + l + sh];
      l := l + 1;
    }
  }

  /** `for (l = 0; l < sh; l++) taps[n - sh - 1] += taps[n - sh + l];` */
  method AccumulateRight(a: array<Weight>, base: nat, n: nat, sh: nat)
    requires base + n <= a.Length && 0 < sh < n
    modifies a
    ensures var r := old(a[base..base + n]); a[base..base + n] == r[n - sh - 1 := AddAll(r[n - sh - 1], r[n - sh..])]
    ensures a[..base] == old(a[..base])
  {
    ghost var r := a[base..base + n];
    var m := n - sh - 1;
    var l := 0;
    while l < sh
      invariant 0 <= l <= sh
      invariant a[base + m] == AddAll(r[m], r[n - sh..n - sh + l])
      invariant forall i :: base <= i < base + n && i != base + m ==> a[i] == r[i - base]
      invariant forall i :: 0 <= i < base ==> a[i] == old(a[i])
    {
      assert r[n - sh..n - sh + l + 1][..l] == r[n - sh..n - sh + l];
      a[base + m] := Add(a[base + m], a[base + n - sh + l]);
      l := l + 1;
    }
    assert r[n - sh..n - sh + sh] == r[n - sh..];
    assert a[base..base + n] == r[m := AddAll(r[m], r[n - sh..n - sh + sh])];
  }

  /** `taps[n - 1 - l] = taps[n - 1 - sh - l]` for `l < n - sh`, then zeros
      in the first `sh` places. */
  method ShiftRight(a: array<Weight>, base: nat, n: nat, sh: nat)
    requires base + n <= a.Length && 0 < sh < n
    modifies a
    ensures a[base..base + n] == Zeros(sh) + old(a[base..base + n])[..n - sh]
    ensures a[..base] == old(a[..base])
  {
    MoveRight(a, base, n, sh);
    ghost var moved := a[base + sh..base + n];
    ZeroRange(a, base, base + sh);
    assert a[base + sh..base + n] == moved;
    assert a[base..base + n] == a[base..base + sh] + a[base + sh..base + n];
  }

  /** The copying loop of the right fold, from the last tap down. */
  method MoveRight(a: array<Weight>, base: nat, n: nat, sh: nat)
    requires base + n <= a.Length && 0 < sh < n
    modifies a
    ensures a[base + sh..base + n] == old(a[base..base + n])[..n - sh]
    ensures a[..base + sh] == old(a[..base + sh])
  {
    ghost var r := a[base..base + n];
    var l := 0;
    while l < n - sh
      invariant 0 <= l <= n - sh
      invariant forall i :: base + n - l <= i < base + n ==> a[i] == r[i - base - sh]
      invariant forall i :: 0 <= i < base + n - l ==> a[i] == old(a[i])
    {
      a[base + n - 1 - l] := a[base + n - 1 - sh - l];
      l := l + 1;
    }
  }

  /** `for (l = 0; l < k; l++) taps[l] = 0;` on the window [lo, hi). */
  method ZeroRange(a: array<Weight>, lo: nat, hi: nat)
    requires lo <= hi <= a.Length
    modifies a
    ensures a[lo..hi] == Zeros(hi - lo)
    ensures a[..lo] == old(a[..lo]) && a[hi..] == old(a[hi..])
  {
    var i := lo;
    while i < hi
      invariant lo <= i <= hi
      invariant forall k :: lo <= k < i ==> a[k] == W(0.0)
      invariant forall k :: 0 <= k < lo || hi <= k < a.Length ==> a[k] == old(a[k])
    {
      a[i] := W(0.0);
      i := i + 1;
    }
    assert a[lo..hi] == Zeros(hi - lo);
  }

  /** The left fold as its two loops: accumulate, then shift. */
  lemma FoldLeftByParts(r: seq<Weight>, sh: nat, acc: seq<Weight>, res: seq<Weight>)
    requires 0 < sh < |r|
    requires acc == r[sh := AddAll(r[sh], r[..sh])]
    requires res == acc[sh..] + Zeros(sh)
    ensures res == FoldLeft(r, sh)
  {
  }

  /** The right fold as its two loops: accumulate, then shift. */
  lemma FoldRightByParts(r: seq<Weight>, n: nat, sh: nat, acc: seq<Weight>, res: seq<Weight>)
    requires |r| == n && 0 < sh < n
    requires acc == r[n - sh - 1 := AddAll(r[n - sh - 1], r[n - sh..])]
    requires res == Zeros(sh) + acc[..n - sh]
    ensures res == FoldRight(r, sh)
  {
  }

  /** The left fold of resampler_calculate_taps, on row `base / n` of the table. */
  method FoldLeftInPlace(a: array<Weight>, base: nat, n: nat, sh: nat)
    requires base + n <= a.Length && 0 < sh < n
    modifies a
    ensures a[base..base + n] == FoldLeft(old(a[base..base + n]), sh)
    ensures a[..base] == old(a[..base])
  {
    ghost var r := a[base..base + n];
    AccumulateLeft(a, base, n, sh);
    ghost var acc := a[base..base + n];
    ShiftLeft(a, base, n, sh);
    FoldLeftByParts(r, sh, acc, a[base..base + n]);
  }

  /** The right fold of resampler_calculate_taps, on row `base / n` of the table. */
  method FoldRightInPlace(a: array<Weight>, base: nat, n: nat, sh: nat)
    requires base + n <= a.Length && 0 < sh < n
    modifies a
    ensures a[base..base + n] == FoldRight(old(a[base..base + n]), sh)
    ensures a[..base] == old(a[..base])
  {
    ghost var r := a[base..base + n];
    AccumulateRight(a, base, n, sh);
    ghost var acc := a[base..base + n];
    ShiftRight(a, base, n, sh);
    FoldRightByParts(r, n, sh, acc, a[base..base + n]);
  }

  /** The two edge folds of resampler_calculate_taps on the row at `base`;
      returns offset[j]. */
  method FoldEdges(a: array<Weight>, base: nat, n: nat, inSize: nat, xi: int, ghost r: seq<Weight>) returns (off: int)
    requires base + n <= a.Length && a[base..base + n] == r && EdgesFoldable(n, xi, inSize)
    modifies a
    ensures off == EdgeOffset(xi, inSize, n)
    ensures a[base..base + n] == EdgeFold(r, xi, inSize)
    ensures a[..base] == old(a[..base])
  {
    off := xi;
    if xi < 0 {
      var sh := -xi;
      FoldLeftInPlace(a, base, n, sh);
      off := off + sh;
    }
    ghost var left := a[base..base + n];
    if xi > inSize - n {
      var sh := xi - (inSize - n);
      FoldRightInPlace(a, base, n, sh);
      off := off - sh;
    }
  }
}
