/** The tensor identities behind the export passes, each with the exact condition under which it holds. */
module TensorRewrites {
  import opened Wrappers
  import opened Tensors

  function Negative(v: int): nat { if v < 0 then -v else 0 }

  function Positive(v: int): nat { if v > 0 then v else 0 }

  // ------------------------------------------------------------ negative pads

  datatype CropParameters = CropParameters(axes: seq<int>, starts: seq<int>, ends: seq<int>)

  /** The Slice parameters for the first `n` axes of a Pad: one entry for each axis with a negative pad. */
  function Crops(before: seq<int>, after: seq<int>, n: nat): (r: CropParameters)
    requires n <= |before| == |after|
    ensures |r.axes| == |r.starts| == |r.ends| <= n
  {
    if n == 0 then CropParameters([], [], [])
    else
      var c, k := Crops(before, after, n - 1), n - 1;
      if before[k] < 0 || after[k] < 0 then
        CropParameters(c.axes + [k], c.starts + [Negative(before[k])],
                       c.ends + [if after[k] < 0 then after[k] else INT64_MAX])
      else c
  }

  lemma {:induction false} CropsAscend(before: seq<int>, after: seq<int>, n: nat)
    requires n <= |before| == |after|
    ensures forall i :: 0 <= i < |Crops(before, after, n).axes| ==> 0 <= Crops(before, after, n).axes[i] < n
    ensures forall i, j :: 0 <= i < j < |Crops(before, after, n).axes| ==>
              Crops(before, after, n).axes[i] < Crops(before, after, n).axes[j]
  {
    if n > 0 {
      CropsAscend(before, after, n - 1);
    }
  }

  function Ones(n: nat): (r: seq<int>)
    ensures |r| == n && forall i :: 0 <= i < n ==> r[i] == 1
  {
    seq(n, _ => 1)
  }

  function Positives(v: seq<int>): (r: seq<int>)
    ensures |r| == |v| && forall k :: 0 <= k < |v| ==> r[k] == Positive(v[k])
  {
    seq(|v|, k requires 0 <= k < |v| => Positive(v[k]))
  }

  /** Slice away the negative pads, then pad by the positive ones. */
  ghost function CropThenPad(x: Tensor, before: seq<int>, after: seq<int>, fill: real): Option<Tensor>
    requires |before| == |after| == x.Rank()
    requires x.dtype == BOOL ==> IsBit(fill)
  {
    var c := Crops(before, after, x.Rank());
    match Slice(x, c.starts, c.ends, c.axes, Ones(|c.axes|))
    case None => None
    case Some(cropped) => Pad(cropped, Positives(before), Positives(after), fill)
  }

  /** The elements removed from each axis are elements the axis has. */
  predicate CropFits(shape: seq<nat>, before: seq<int>, after: seq<int>)
    requires |before| == |after| == |shape|
  {
    forall k :: 0 <= k < |shape| ==> Negative(before[k]) + Negative(after[k]) <= shape[k]
  }

  lemma {:induction false} RangeOnAppend(d: nat, rank: nat, k: int, starts: seq<int>, ends: seq<int>, axes: seq<int>,
          steps: seq<int>,
                      start: int, end: int, axis: int, step: int)
    requires |starts| == |ends| == |axes| == |steps| && step != 0
    requires forall i :: 0 <= i < |steps| ==> steps[i] != 0
    ensures RangeOn(d, rank, k, starts + [start], ends + [end], axes + [axis], steps + [step]) ==
            if NormalAxis(axis, rank) == k then AxisRange(d, start, end, step)
            else RangeOn(d, rank, k, starts, ends, axes, steps)
  {
    var n := |axes|;
    assert (starts + [start])[..n] == starts && (ends + [end])[..n] == ends;
    assert (axes + [axis])[..n] == axes && (steps + [step])[..n] == steps;
  }

  function CropEnd(a: int): int {
    if a < 0 then a else INT64_MAX
  }

  lemma {:induction false} OnesAppend(m: nat)
    ensures Ones(m + 1) == Ones(m) + [1]
  {
  }

  /** One more negative pad adds one entry to every list. */
  lemma {:induction false} CropsAppend(before: seq<int>, after: seq<int>, n: nat)
    requires n < |before| == |after| && (before[n] < 0 || after[n] < 0)
    ensures
      var p, c := Crops(before, after, n), Crops(before, after, n + 1);
      && c.axes == p.axes + [n] && c.starts == p.starts + [Negative(before[n])]
          && c.ends == p.ends + [CropEnd(after[n])]
  {
  }

  lemma {:induction false} CropRangeAppend(d: nat, rank: nat, before: seq<int>, after: seq<int>, n: nat, k: nat)
    requires n < |before| == |after| && (before[n] < 0 || after[n] < 0)
    ensures
      var p, c := Crops(before, after, n), Crops(before, after, n + 1);
      RangeOn(d, rank, k, c.starts, c.ends, c.axes, Ones(|c.axes|)) ==
      if k == n then AxisRange(d, Negative(before[n]), CropEnd(after[n]), 1)
      else RangeOn(d, rank, k, p.starts, p.ends, p.axes, Ones(|p.axes|))
  {
    var p := Crops(before, after, n);
    CropsAppend(before, after, n);
    OnesAppend(|p.axes|);
    RangeOnAppend(d, rank, k, p.starts, p.ends, p.axes, Ones(|p.axes|), Negative(before[n]), CropEnd(after[n]), n, 1);
  }

  predicate IsCropped(before: seq<int>, after: seq<int>, k: nat)
    requires k < |before| == |after|
  {
    before[k] < 0 || after[k] < 0
  }

  /** Adding the entry of axis `m` matters only when `m` is `k`. */
  predicate Matters(value: CropParameters -> Range, before: seq<int>, after: seq<int>, m: nat, k: nat, entry: Range)
    requires m < |before| == |after|
  {
    value(Crops(before, after, m + 1)) == if m == k then entry else value(Crops(before, after, m))
  }

  /** A value that changes only where an entry for axis `k` is added has the value of that entry. */
  lemma {:induction false} CropFold(value: CropParameters -> Range, before: seq<int>, after: seq<int>, n: nat, k: nat,
          base: Range, entry: Range)
    requires n <= |before| == |after| && k < |before| && value(CropParameters([], [], [])) == base
    requires forall m: nat {:trigger Matters(value, before, after, m, k, entry)} ::
        m < n && IsCropped(before, after, m) ==>
               Matters(value, before, after, m, k, entry)
    ensures value(Crops(before, after, n)) == if k < n && IsCropped(before, after, k) then entry else base
  {
    if n > 0 {
      CropFold(value, before, after, n - 1, k, base, entry);
      assert IsCropped(before, after, n - 1) ==> Matters(value, before, after, n - 1, k, entry);
      assert !IsCropped(before, after, n - 1) ==> Crops(before, after, n) == Crops(before, after, n - 1);
    }
  }

  /** What the crop selects on axis `k`: everything but the removed ends. */
  lemma {:induction false} CropRange(d: nat, rank: nat, before: seq<int>, after: seq<int>, n: nat, k: nat)
    requires n <= |before| == |after| && k < |before| && d <= INT64_MAX
    ensures
      var c := Crops(before, after, n);
      RangeOn(d, rank, k, c.starts, c.ends, c.axes, Ones(|c.axes|)) ==
      if k < n && (before[k] < 0 || after[k] < 0)
      then AxisRange(d, Negative(before[k]), CropEnd(after[k]), 1)
      else Range(0, 1, d)
  {
    var value: CropParameters -> Range :=
      (c: CropParameters) => if |c.starts| == |c.ends| == |c.axes|
          then RangeOn(d, rank, k, c.starts, c.ends, c.axes, Ones(|c.axes|)) else Range(0, 1, d);
    forall m: nat | m < n && IsCropped(before, after, m)
      ensures Matters(value, before, after, m, k, AxisRange(d, Negative(before[k]), CropEnd(after[k]), 1))
    {
      CropRangeAppend(d, rank, before, after, m, k);
    }
    CropFold(value, before, after, n, k, Range(0, 1, d), AxisRange(d, Negative(before[k]), CropEnd(after[k]), 1));
  }

  /** The extent and origin of the cropped axis, for every combination of signs. */
  lemma {:induction false} CroppedAxis(d: nat, b: int, a: int)
    requires d <= INT64_MAX
    ensures
      var r := AxisRange(d, Negative(b), if a < 0 then a else INT64_MAX, 1);
      && r.count == Positive(d - Negative(b) - Negative(a))
      && (Negative(b) + Negative(a) <= d ==> r.start == Negative(b) && r.step == 1)
  {
  }

  lemma {:induction false} CropSlice(x: Tensor, before: seq<int>, after: seq<int>)
    requires |before| == |after| == x.Rank()
    ensures
      var c := Crops(before, after, x.Rank());
      && SliceArguments(x.Rank(), c.starts, c.ends, c.axes, Ones(|c.axes|))
      && var ranges := SliceRanges(x, c.starts, c.ends, c.axes, Ones(|c.axes|));
        forall k :: 0 <= k < x.Rank() ==>
          && ranges[k].count == Positive(x.shape[k] - Negative(before[k]) - Negative(after[k]))
          && (Negative(before[k]) + Negative(after[k]) <= x.shape[k] ==>
                ranges[k].start == Negative(before[k]) && ranges[k].step == 1)
  {
    var c := Crops(before, after, x.Rank());
    CropsAscend(before, after, x.Rank());
    forall k | 0 <= k < x.Rank()
      ensures var r := RangeOn(x.shape[k], x.Rank(), k, c.starts, c.ends, c.axes, Ones(|c.axes|));
        && r.count == Positive(x.shape[k] - Negative(before[k]) - Negative(after[k]))
        && (Negative(before[k]) + Negative(after[k]) <= x.shape[k] ==> r.start == Negative(before[k]) && r.step == 1)
    {
      CropRange(x.shape[k], x.Rank(), before, after, x.Rank(), k);
      CroppedAxis(x.shape[k], before[k], after[k]);
    }
  }

  /** One element of the cropped tensor, read at the index that remains after the non-negative pads. */
  lemma {:induction false} CroppedElement(x: Tensor, cropped: Tensor, ranges: seq<Range>, before: seq<int>,
          after: seq<int>, fill: real, ix: Index)
    requires |before| == |after| == x.Rank() == |ranges| == cropped.Rank() == |ix|
    requires CropFits(x.shape, before, after)
    requires forall k :: 0 <= k < x.Rank() ==>
               && cropped.shape[k] == x.shape[k] - Negative(before[k]) - Negative(after[k])
               && ranges[k].start == Negative(before[k]) && ranges[k].step == 1
    requires forall i :: InBounds(cropped.shape, i) ==> cropped.At(i) == x.At(Pick(ranges, i))
    requires forall k :: 0 <= k < x.Rank() ==> 0 <= ix[k] < before[k] + x.shape[k] + after[k]
    ensures cropped.AtOr(Minus(ix, Positives(before)), fill) == x.AtOr(Minus(ix, before), fill)
  {
    var j, j' := Minus(ix, before), Minus(ix, Positives(before));
    assert forall k :: 0 <= k < |ix| ==> (0 <= j'[k] < cropped.shape[k] <==> 0 <= j[k] < x.shape[k]);
    assert InBounds(cropped.shape, j') <==> InBounds(x.shape, j);
    if InBounds(cropped.shape, j') {
      var q := Pick(ranges, j');
      forall k | 0 <= k < |ix| ensures q[k] == j[k] {
        assert q[k] == ranges[k].start + j'[k] * 1;
      }
      assert q == j;
    }
  }

  /** Splitting a Pad of any rank and any mix of signs into a Slice and a non-negative Pad keeps the
      tensor exactly when every crop fits its axis. */
  lemma {:induction false} CropThenPadIsPad(x: Tensor, before: seq<int>, after: seq<int>, fill: real)
    requires |before| == |after| == x.Rank()
    requires x.dtype == BOOL ==> IsBit(fill)
    requires Pad(x, before, after, fill).Some?
    ensures CropThenPad(x, before, after, fill) == Pad(x, before, after, fill) <==> CropFits(x.shape, before, after)
  {
    var c := Crops(before, after, x.Rank());
    CropSlice(x, before, after);
    var ranges := SliceRanges(x, c.starts, c.ends, c.axes, Ones(|c.axes|));
    var cropped := Slice(x, c.starts, c.ends, c.axes, Ones(|c.axes|)).value;
    assert cropped.shape == Counts(ranges);
    PadAgrees(x, cropped, ranges, before, after, fill);
  }

  lemma {:induction false} PadAgrees(x: Tensor, cropped: Tensor, ranges: seq<Range>, before: seq<int>,
          after: seq<int>, fill: real)
    requires |before| == |after| == x.Rank() == |ranges| == cropped.Rank() && cropped.dtype == x.dtype
    requires forall k :: 0 <= k < x.Rank() ==>
               && cropped.shape[k] == Positive(x.shape[k] - Negative(before[k]) - Negative(after[k]))
               && (Negative(before[k]) + Negative(after[k]) <= x.shape[k] ==>
                     ranges[k].start == Negative(before[k]) && ranges[k].step == 1)
    requires forall i :: InBounds(cropped.shape, i) ==> cropped.At(i) == x.At(Pick(ranges, i))
    requires x.dtype == BOOL ==> IsBit(fill)
    requires Pad(x, before, after, fill).Some?
    ensures Pad(cropped, Positives(before), Positives(after), fill) == Pad(x, before, after, fill)
            <==> CropFits(x.shape, before, after)
  {
    var dims, dims' := PadDims(x.shape, before, after), PadDims(cropped.shape, Positives(before), Positives(after));
    if CropFits(x.shape, before, after) {
      assert dims == dims';
      FittingPadAgrees(x, cropped, ranges, before, after, fill);
    } else {
      var k :| 0 <= k < x.Rank() && !(Negative(before[k]) + Negative(after[k]) <= x.shape[k]);
      assert dims[k] != dims'[k];
    }
  }

  lemma {:induction false} FittingPadAgrees(x: Tensor, cropped: Tensor, ranges: seq<Range>, before: seq<int>,
          after: seq<int>, fill: real)
    requires |before| == |after| == x.Rank() == |ranges| == cropped.Rank() && cropped.dtype == x.dtype
    requires CropFits(x.shape, before, after)
    requires forall k :: 0 <= k < x.Rank() ==>
               && cropped.shape[k] == Positive(x.shape[k] - Negative(before[k]) - Negative(after[k]))
               && (Negative(before[k]) + Negative(after[k]) <= x.shape[k] ==>
                     ranges[k].start == Negative(before[k]) && ranges[k].step == 1)
    requires forall i :: InBounds(cropped.shape, i) ==> cropped.At(i) == x.At(Pick(ranges, i))
    requires (x.dtype == BOOL ==> IsBit(fill)) && Pad(x, before, after, fill).Some?
    requires PadDims(x.shape, before, after) == PadDims(cropped.shape, Positives(before), Positives(after))
    ensures Pad(cropped, Positives(before), Positives(after), fill) == Pad(x, before, after, fill)
  {
    var direct, split := Pad(x, before, after, fill), Pad(cropped, Positives(before), Positives(after), fill);
    var dims := PadDims(x.shape, before, after);
    assert split.Some?;
    forall ix: Index | InBounds(direct.value.shape, ix) ensures direct.value.At(ix) == split.value.At(ix) {
      assert forall k :: 0 <= k < |ix| ==> 0 <= ix[k] < dims[k];
      CroppedElement(x, cropped, ranges, before, after, fill, ix);
    }
    SameTensor(direct.value, split.value);
  }

  // ------------------------------------------------------------ bool pads

  /** Output index `ix` of a Pad of `x` takes the fill. */
  ghost predicate TakesFill(x: Tensor, before: seq<int>, after: seq<int>, ix: Index)
    requires |before| == |after| == x.Rank()
  {
    && |ix| == x.Rank()
    && (forall k :: 0 <= k < |ix| ==> 0 <= ix[k] < before[k] + x.shape[k] + after[k])
    && !InBounds(x.shape, Minus(ix, before))
  }

  lemma {:induction false} BoolElement(x: Tensor, f: Tensor, direct: Tensor, through: Tensor, result: Tensor,
                    before: seq<int>, after: seq<int>, fill: real, ix: Index)
    requires |before| == |after| == x.Rank() && x.dtype == BOOL
    requires IsCast(x, FLOAT, f) && IsPad(x, before, after, fill, direct)
    requires IsPad(f, before, after, 0.0, through) && IsCast(through, BOOL, result)
    requires InBounds(direct.shape, ix)
    ensures direct.shape == result.shape
    ensures direct.At(ix) == if TakesFill(x, before, after, ix) then fill else result.At(ix)
    ensures TakesFill(x, before, after, ix) ==> result.At(ix) == 0.0
  {
    var j := Minus(ix, before);
    assert forall k :: 0 <= k < |ix| ==> 0 <= ix[k] < before[k] + x.shape[k] + after[k];
    assert through.At(ix) == f.AtOr(j, 0.0);
    if InBounds(x.shape, j) {
      assert j in f.data && f.At(j) == x.At(j) && IsBit(x.data[j]);
    }
  }

  /** Padding a bool tensor through floats with a zero fill keeps the tensor exactly when the bool fill
      was false or nothing is added. */
  lemma {:induction false} CastPadCastIsPad(x: Tensor, before: seq<int>, after: seq<int>, fill: real)
    requires x.dtype == BOOL && IsBit(fill)
    requires Pad(x, before, after, fill).Some?
    ensures
      var padded := Pad(Cast(x, FLOAT), before, after, 0.0);
      && padded.Some?
      && (Cast(padded.value, BOOL) == Pad(x, before, after, fill).value
          <==> (fill == 0.0 || forall ix :: !TakesFill(x, before, after, ix)))
  {
    var f, direct := Cast(x, FLOAT), Pad(x, before, after, fill).value;
    var through := Pad(f, before, after, 0.0).value;
    var result := Cast(through, BOOL);
    forall ix: Index | InBounds(direct.shape, ix)
      ensures direct.At(ix) == if TakesFill(x, before, after, ix) then fill else result.At(ix)
      ensures TakesFill(x, before, after, ix) ==> result.At(ix) == 0.0
    {
      BoolElement(x, f, direct, through, result, before, after, fill, ix);
    }
    if fill == 0.0 || forall ix :: !TakesFill(x, before, after, ix) {
      SameTensor(direct, result);
    } else {
      var ix :| TakesFill(x, before, after, ix);
      assert InBounds(direct.shape, ix);
    }
  }

  // ------------------------------------------------------------ einsum

  /** The index of the first operand that output index `ix` reads, through Unsqueeze and broadcasting. */
  lemma {:induction false} EinsumIndex(xs: seq<nat>, us: seq<nat>, ix: Index)
    requires |xs| >= 1 && |ix| == |xs| + 1
    requires us == xs[..|xs| - 1] + [1] + xs[|xs| - 1..]
    requires forall k :: 0 <= k < |xs| - 1 ==> 0 <= ix[k] < xs[k]
    requires xs[|xs| - 1] == 1 || 0 <= ix[|xs|] < xs[|xs| - 1]
    ensures
      var p, iu := |xs| - 1, BroadcastIndex(us, ix);
      && InBounds(us, iu)
      && iu[..p] + iu[p + 1..] == ix[..p] + [if xs[p] == 1 then 0 else ix[p + 1]]
  {
    var p, iu := |xs| - 1, BroadcastIndex(us, ix);
    forall k | 0 <= k < p ensures iu[k] == ix[k] && us[k] == xs[k] {
    }
    assert us[p] == 1 && us[p + 1] == xs[p];
    assert iu[p] == 0 && iu[p + 1] == if xs[p] == 1 then 0 else ix[p + 1];
    assert iu[..p] == ix[..p] && iu[p + 1..] == [iu[p + 1]];
  }

  lemma {:induction false} EinsumElement(times: Product, x: Tensor, w: Tensor, u: Tensor, product: Tensor,
          direct: Tensor, ix: Index)
    requires EinsumDefined(x, w) && IsEinsum(times, x, w, direct)
    requires IsUnsqueeze(x, u) && IsMul(times, u, w, product)
    requires InBounds(direct.shape, ix) && InBounds(product.shape, ix)
    ensures direct.At(ix) == product.At(ix)
  {
    var xs, p := x.shape, |x.shape| - 1;
    var iu, iw := BroadcastIndex(u.shape, ix), BroadcastIndex(w.shape, ix);
    EinsumBounds(xs, w.shape, direct.shape, ix);
    EinsumIndex(xs, u.shape, ix);
    assert u.At(iu) == x.At(iu[..p] + iu[p + 1..]);
    assert product.At(ix) == times(u.At(iu), w.At(iw));
  }

  lemma {:induction false} EinsumBounds(xs: seq<nat>, ws: seq<nat>, dims: seq<nat>, ix: Index)
    requires |xs| >= 1 && |ws| == 2 && InBounds(dims, ix)
    requires dims == xs[..|xs| - 1] + [ws[0], BroadcastDim(xs[|xs| - 1], ws[1])]
    requires xs[|xs| - 1] == ws[1] || xs[|xs| - 1] == 1 || ws[1] == 1
    ensures |ix| == |xs| + 1
    ensures forall k :: 0 <= k < |xs| - 1 ==> 0 <= ix[k] < xs[k]
    ensures xs[|xs| - 1] == 1 || 0 <= ix[|xs|] < xs[|xs| - 1]
    ensures BroadcastIndex(ws, ix) == [ix[|xs| - 1], if ws[1] == 1 then 0 else ix[|xs|]]
  {
    var p := |xs| - 1;
    assert |ix| == p + 2;
    forall k | 0 <= k < p ensures 0 <= ix[k] < xs[k] {
      assert dims[k] == xs[k];
    }
    assert dims[p] == ws[0] && dims[p + 1] == BroadcastDim(xs[p], ws[1]);
    assert 0 <= ix[p] < ws[0];
  }

  /** Unsqueeze(-2) and a broadcasting Mul compute the Einsum at every rank. */
  lemma {:induction false} UnsqueezeMulIsEinsum(times: Product, x: Tensor, w: Tensor)
    requires EinsumOuter(times, x, w).Some?
    ensures UnsqueezeBeforeLast(x).Some?
    ensures Mul(times, UnsqueezeBeforeLast(x).value, w) == EinsumOuter(times, x, w)
  {
    var p := x.Rank() - 1;
    var u, direct := UnsqueezeBeforeLast(x).value, EinsumOuter(times, x, w).value;
    EinsumShapes(x, w, u);
    var product := Mul(times, u, w).value;
    forall ix: Index | InBounds(direct.shape, ix) ensures direct.At(ix) == product.At(ix) {
      EinsumElement(times, x, w, u, product, direct, ix);
    }
    SameTensor(direct, product);
  }

  lemma {:induction false} EinsumShapes(x: Tensor, w: Tensor, u: Tensor)
    requires EinsumDefined(x, w) && IsUnsqueeze(x, u)
    ensures MulDefined(u, w)
    ensures
      var p := x.Rank() - 1;
      && Max(u.Rank(), w.Rank()) == p + 2
      && BroadcastShape(Aligned(u.shape, p + 2), Aligned(w.shape, p + 2))
         == x.shape[..p] + [w.shape[0], BroadcastDim(x.shape[p], w.shape[1])]
  {
    var xs, ws, p := x.shape, w.shape, x.Rank() - 1;
    assert ws == [ws[0], ws[1]];
    AlignedShapes(xs, u.shape, ws[0], ws[1]);
  }

  lemma {:induction false} AlignedShapes(xs: seq<nat>, us: seq<nat>, h: nat, d: nat)
    requires |xs| >= 1 && us == xs[..|xs| - 1] + [1] + xs[|xs| - 1..]
    requires xs[|xs| - 1] == d || xs[|xs| - 1] == 1 || d == 1
    ensures
      var p, su, sw := |xs| - 1, Aligned(us, |xs| + 1), Aligned([h, d], |xs| + 1);
      Broadcastable(su, sw) && BroadcastShape(su, sw) == xs[..p] + [h, BroadcastDim(xs[p], d)]
  {
    var p, su, sw := |xs| - 1, Aligned(us, |xs| + 1), Aligned([h, d], |xs| + 1);
    assert su == us;
    AlignedPair(h, d, p, sw);
    BroadcastPair(xs, su, sw, h, d);
  }

  lemma {:induction false} AlignedPair(h: nat, d: nat, p: nat, sw: seq<nat>)
    requires sw == Aligned([h, d], p + 2)
    ensures |sw| == p + 2 && (forall k :: 0 <= k < p ==> sw[k] == 1) && sw[p] == h && sw[p + 1] == d
  {
  }

  lemma {:induction false} BroadcastPair(xs: seq<nat>, su: seq<nat>, sw: seq<nat>, h: nat, d: nat)
    requires |xs| >= 1 && su == xs[..|xs| - 1] + [1] + xs[|xs| - 1..] && |sw| == |su|
    requires (forall k :: 0 <= k < |xs| - 1 ==> sw[k] == 1) && sw[|xs| - 1] == h && sw[|xs|] == d
    requires xs[|xs| - 1] == d || xs[|xs| - 1] == 1 || d == 1
    ensures Broadcastable(su, sw) && BroadcastShape(su, sw) == xs[..|xs| - 1] + [h, BroadcastDim(xs[|xs| - 1], d)]
  {
    var p := |xs| - 1;
    forall k | 0 <= k < p ensures su[k] == xs[k] {
    }
    assert su[p] == 1 && su[p + 1] == xs[p];
  }

  // ------------------------------------------------------------ empty slices and Concat

  /** On a listed axis a Slice selects the range given for that axis. */
  lemma {:induction false} RangeOnListed(d: nat, rank: nat, i: nat, starts: seq<int>, ends: seq<int>, axes: seq<int>,
          steps: seq<int>)
    requires SliceArguments(rank, starts, ends, axes, steps) && i < |axes|
    ensures RangeOn(d, rank, NormalAxis(axes[i], rank), starts, ends, axes, steps)
            == AxisRange(d, starts[i], ends[i], steps[i])
  {
    var n := |axes| - 1;
    if i < n {
      RangeOnListed(d, rank, i, starts[..n], ends[..n], axes[..n], steps[..n]);
    }
  }

  /** A Slice with an equal start and end and a positive step is empty along that axis, whatever the extent. */
  lemma {:induction false} EqualEndsAreEmpty(x: Tensor, starts: seq<int>, ends: seq<int>, axes: seq<int>,
          steps: seq<int>, i: nat)
    requires SliceArguments(x.Rank(), starts, ends, axes, steps) && i < |axes|
    requires starts[i] == ends[i] && steps[i] > 0
    ensures Slice(x, starts, ends, axes, steps).value.shape[NormalAxis(axes[i], x.Rank())] == 0
  {
    RangeOnListed(x.shape[NormalAxis(axes[i], x.Rank())], x.Rank(), i, starts, ends, axes, steps);
  }

  function Kept(ts: seq<Tensor>, keep: seq<bool>): (r: seq<Tensor>)
    requires |keep| == |ts|
    ensures (r == []) <==> forall i :: 0 <= i < |keep| ==> !keep[i]
  {
    if ts == [] then []
    else (if keep[0] then [ts[0]] else []) + Kept(ts[1..], keep[1..])
  }

  function Extent(ts: seq<Tensor>, axis: nat): nat
    requires forall i :: 0 <= i < |ts| ==> axis < ts[i].Rank()
  {
    if ts == [] then 0 else assert axis < ts[0].Rank(); ts[0].shape[axis] + Extent(ts[1..], axis)
  }

  lemma {:induction false} ConcatParts(ts: seq<Tensor>, axis: nat)
    requires ConcatAll(ts, axis).Some?
    ensures
      var r := ConcatAll(ts, axis).value;
      && axis < r.Rank()
      && (forall i :: 0 <= i < |ts| ==> ts[i].Rank() == r.Rank() && ts[i].dtype == r.dtype
                                        && ts[i].shape[axis := 0] == r.shape[axis := 0])
      && r.shape[axis] == Extent(ts, axis)
  {
    if |ts| > 1 {
      ConcatParts(ts[1..], axis);
      assert forall i :: 1 <= i < |ts| ==> ts[i] == ts[1..][i - 1];
    } else {
      assert Extent(ts[1..], axis) == 0;
    }
  }

  lemma {:induction false} Concat2LeftEmpty(a: Tensor, b: Tensor, axis: nat)
    requires Concat2(a, b, axis).Some? && a.shape[axis] == 0
    ensures Concat2(a, b, axis) == Some(b)
  {
    var r := Concat2(a, b, axis).value;
    assert r.shape == b.shape by {
      assert r.shape == a.shape[axis := 0][axis := b.shape[axis]] == b.shape[axis := 0][axis := b.shape[axis]];
    }
    forall ix: Index | InBounds(r.shape, ix) ensures r.At(ix) == b.At(ix) {
      assert !InBounds(a.shape, ix);
      assert ix[axis := ix[axis] - 0] == ix;
    }
    SameTensor(r, b);
  }

  lemma {:induction false} Concat2RightEmpty(a: Tensor, b: Tensor, axis: nat)
    requires Concat2(a, b, axis).Some? && b.shape[axis] == 0
    ensures Concat2(a, b, axis) == Some(a)
  {
    var r := Concat2(a, b, axis).value;
    assert r.shape == a.shape;
    forall ix: Index | InBounds(r.shape, ix) ensures r.At(ix) == a.At(ix) {
    }
    SameTensor(r, a);
  }

  lemma {:induction false} NoneKept(ts: seq<Tensor>, keep: seq<bool>, axis: nat)
    requires |keep| == |ts|
    requires forall i :: 0 <= i < |ts| ==> axis < ts[i].Rank() && (keep[i] || ts[i].shape[axis] == 0)
    requires Kept(ts, keep) == []
    ensures Extent(ts, axis) == 0
  {
    if ts != [] {
      NoneKept(ts[1..], keep[1..], axis);
    }
  }

  lemma {:induction false} DropEmptyInputs(ts: seq<Tensor>, keep: seq<bool>, axis: nat)
    requires |keep| == |ts| && ConcatAll(ts, axis).Some? && Kept(ts, keep) != []
    requires forall i :: 0 <= i < |ts| && !keep[i] ==> axis < ts[i].Rank() && ts[i].shape[axis] == 0
    ensures ConcatAll(Kept(ts, keep), axis) == ConcatAll(ts, axis)
  {
    if |ts| == 1 {
      assert Kept(ts[1..], keep[1..]) == [];
      assert Kept(ts, keep) == ts;
    } else {
      var rest := ConcatAll(ts[1..], axis).value;
      ConcatParts(ts[1..], axis);
      if Kept(ts[1..], keep[1..]) == [] {
        forall i | 0 <= i < |ts[1..]| ensures axis < ts[1..][i].Rank() {}
        NoneKept(ts[1..], keep[1..], axis);
        Concat2RightEmpty(ts[0], rest, axis);
        assert Kept(ts, keep) == [ts[0]];
      } else {
        DropEmptyInputs(ts[1..], keep[1..], axis);
        if keep[0] {
          assert Kept(ts, keep)[1..] == Kept(ts[1..], keep[1..]);
        } else {
          Concat2LeftEmpty(ts[0], rest, axis);
          assert Kept(ts, keep) == Kept(ts[1..], keep[1..]);
        }
      }
    }
  }

  lemma {:induction false} KeptExtent(ts: seq<Tensor>, keep: seq<bool>, axis: nat, i: nat)
    requires |keep| == |ts| && forall i :: 0 <= i < |ts| ==> axis < ts[i].Rank()
    requires i < |ts|
    ensures forall j :: 0 <= j < |Kept(ts, keep)| ==> axis < Kept(ts, keep)[j].Rank()
    ensures Extent(Kept(ts, keep), axis) <= Extent(ts, axis)
    ensures !keep[i] ==> Extent(Kept(ts, keep), axis) + ts[i].shape[axis] <= Extent(ts, axis)
  {
    if |ts| == 1 {
      assert Kept(ts[1..], keep[1..]) == [];
      assert Kept(ts, keep) == if keep[0] then ts else [];
    } else {
      KeptExtent(ts[1..], keep[1..], axis, if i == 0 then 0 else i - 1);
      if keep[0] {
        assert Kept(ts, keep)[1..] == Kept(ts[1..], keep[1..]);
      } else {
        assert Kept(ts, keep) == Kept(ts[1..], keep[1..]);
      }
    }
  }

  /** Removing inputs from a Concat keeps its value exactly when every removed input is empty along the
      concatenation axis. */
  lemma {:induction false} DropInputsIsConcat(ts: seq<Tensor>, keep: seq<bool>, axis: int)
    requires |keep| == |ts| && Concat(ts, axis).Some? && Kept(ts, keep) != []
    ensures forall i :: 0 <= i < |ts| ==> 0 <= NormalAxis(axis, ts[i].Rank()) < ts[i].Rank()
    ensures Concat(Kept(ts, keep), axis) == Concat(ts, axis)
            <==> forall i :: 0 <= i < |ts| && !keep[i] ==> ts[i].shape[NormalAxis(axis, ts[i].Rank())] == 0
  {
    var a: nat := NormalAxis(axis, ts[0].Rank());
    ConcatParts(ts, a);
    KeptFrom(ts, keep);
    assert Kept(ts, keep)[0] in ts;
    assert Concat(ts, axis) == ConcatAll(ts, a) && Concat(Kept(ts, keep), axis) == ConcatAll(Kept(ts, keep), a);
    DropIff(ts, keep, a);
  }

  lemma {:induction false} DropIff(ts: seq<Tensor>, keep: seq<bool>, a: nat)
    requires |keep| == |ts| && ConcatAll(ts, a).Some? && Kept(ts, keep) != []
        && (forall i :: 0 <= i < |ts| ==> a < |ts[i].shape|)
    ensures ConcatAll(Kept(ts, keep), a) == ConcatAll(ts, a) <==> forall i :: 0 <= i < |ts| && !keep[i] ==>
        ts[i].shape[a] == 0
  {
    if forall i :: 0 <= i < |ts| && !keep[i] ==> ts[i].shape[a] == 0 {
      DropEmptyInputs(ts, keep, a);
    } else {
      var i :| 0 <= i < |ts| && !keep[i] && ts[i].shape[a] != 0;
      DropDiffers(ts, keep, a, i);
    }
  }

  /** Without an input that is not empty the Concat is shorter, or none. */
  lemma {:induction false} DropDiffers(ts: seq<Tensor>, keep: seq<bool>, a: nat, i: nat)
    requires |keep| == |ts| && ConcatAll(ts, a).Some? && Kept(ts, keep) != []
        && (forall i :: 0 <= i < |ts| ==> a < |ts[i].shape|)
    requires i < |ts| && !keep[i] && ts[i].shape[a] != 0
    ensures ConcatAll(Kept(ts, keep), a) != ConcatAll(ts, a)
  {
    ConcatParts(ts, a);
    KeptExtent(ts, keep, a, i);
    if ConcatAll(Kept(ts, keep), a).Some? {
      ConcatParts(Kept(ts, keep), a);
    }
  }

  lemma {:induction false} KeptFrom(ts: seq<Tensor>, keep: seq<bool>)
    requires |keep| == |ts|
    ensures forall t :: t in Kept(ts, keep) ==> t in ts
  {
    if ts != [] {
      KeptFrom(ts[1..], keep[1..]);
      forall t | t in Kept(ts, keep) ensures t in ts {
        if t in Kept(ts[1..], keep[1..]) {
          assert t in ts[1..];
        }
      }
    }
  }

  // ------------------------------------------------------------ inputs on which the rewrites differ

  /** Cropping three elements of two: the direct Pad has four elements, the split one five. */
  lemma {:induction false} OverCropDiffers()
    ensures
      var x: Tensor := FromInts([7, 8]);
      && Pad(x, [-3], [5], 0.0).Some? && Pad(x, [-3], [5], 0.0).value.shape == [4]
      && CropThenPad(x, [-3], [5], 0.0) != Pad(x, [-3], [5], 0.0)
  {
    var x: Tensor := FromInts([7, 8]);
    assert PadDims(x.shape, [-3], [5]) == [4];
    CropThenPadIsPad(x, [-3], [5], 0.0);
    assert !CropFits(x.shape, [-3], [5]);
  }

  /** A bool tensor padded with true loses the padding. */
  lemma {:induction false} TrueFillIsLost()
    ensures
      var y: Tensor := EmptyTensor(BOOL, []);
      Pad(y, [0], [1], 1.0).Some? && Cast(Pad(Cast(y, FLOAT), [0], [1], 0.0).value, BOOL) != Pad(y, [0], [1], 1.0).value
  {
    var y := EmptyTensor(BOOL, []);
    CastPadCastIsPad(y, [0], [1], 1.0);
    assert Minus([0], [0]) == [0];
    assert TakesFill(y, [0], [1], [0]);
  }

  /** A tensor with no elements: its first axis has extent zero. */
  function EmptyTensor(dtype: DType, rest: seq<nat>): (t: Tensor)
    requires Dims(rest)
    ensures t.dtype == dtype && t.shape == [0] + rest
  {
    assert forall ix: Index :: !InBounds([0] + rest, ix) by {
      forall ix: Index ensures !InBounds([0] + rest, ix) {
        if |ix| == 1 + |rest| {
          var d: seq<nat> := [0] + rest;
          assert !(0 <= ix[0] < d[0]);
        }
      }
    }
    RawTensor(dtype, [0] + rest, map[])
  }

  /** Two inputs that are empty along axis 0 but are concatenated along axis 1: dropping one of them
      changes the extent of the result from seven to four. */
  lemma {:induction false} EmptyOnAnotherAxisDiffers()
    ensures
      var a, b := EmptyTensor(FLOAT, [3]), EmptyTensor(FLOAT, [4]);
      && Concat([a, b], 1).Some? && Concat([a, b], 1).value.shape == [0, 7]
      && Concat(Kept([a, b], [false, true]), 1) != Concat([a, b], 1)
  {
    var a, b := EmptyTensor(FLOAT, [3]), EmptyTensor(FLOAT, [4]);
    assert [a, b][1..] == [b];
    assert ConcatAll([b], 1) == Some(b);
    assert Kept([b], [true]) == [b] + Kept([b][1..], [true][1..]);
    DropInputsIsConcat([a, b], [false, true], 1);
    assert [a, b][0].shape[1] == 3;
  }
}
