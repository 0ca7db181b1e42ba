/** Dense tensors of any rank and the ONNX (opset 12) operators that the export passes read or write.
    A tensor maps every index vector inside its shape to a real number, so two tensors are equal
    exactly when they agree on element type, shape and every element. */
module Tensors {
  import opened Wrappers

  const INT64_MAX: int := 0x7fff_ffff_ffff_ffff

  datatype DType = BOOL | INT64 | FLOAT | OTHER(code: int)

  type Index = seq<int>

  predicate InBounds(shape: seq<nat>, ix: Index) {
    |ix| == |shape| && forall k :: 0 <= k < |ix| ==> 0 <= ix[k] < shape[k]
  }

  function Indices(shape: seq<nat>): (r: set<Index>)
    ensures forall ix :: ix in r <==> InBounds(shape, ix)
  {
    if shape == [] then
      assert forall ix: Index :: InBounds(shape, ix) ==> ix == [];
      {[]}
    else
      var r := set i, rest | 0 <= i < shape[0] && rest in Indices(shape[1..]) :: [i] + rest;
      assert forall ix: Index :: InBounds(shape, ix) ==> ix in r by {
        forall ix: Index | InBounds(shape, ix) ensures ix in r {
          var i, rest := ix[0], ix[1..];
          assert ix == [i] + rest;
          assert InBounds(shape[1..], rest) && rest in Indices(shape[1..]);
        }
      }
      r
  }

  predicate IsBit(v: real) { v == 0.0 || v == 1.0 }

  datatype RawTensor = RawTensor(dtype: DType, shape: seq<nat>, data: map<Index, real>) {
    ghost predicate Valid() {
      && (forall ix :: ix in data <==> InBounds(shape, ix))
      && (forall k :: 0 <= k < |shape| ==> shape[k] <= INT64_MAX)
      && (dtype == BOOL ==> forall ix :: ix in data ==> IsBit(data[ix]))
    }

    function Rank(): nat { |shape| }

    /** The element at `ix`, or `fill` outside the tensor. */
    function AtOr(ix: Index, fill: real): real {
      if ix in data then data[ix] else fill
    }

    function At(ix: Index): real { AtOr(ix, 0.0) }
  }

  type Tensor = t: RawTensor | t.Valid() witness RawTensor(FLOAT, [], map[[] := 0.0])

  predicate Dims(shape: seq<nat>) {
    forall k :: 0 <= k < |shape| ==> shape[k] <= INT64_MAX
  }

  /** Every element function on a shape has its tensor. */
  lemma {:induction false} Tabulated(dtype: DType, shape: seq<nat>, f: Index -> real) returns (t: Tensor)
    requires Dims(shape)
    requires dtype == BOOL ==> forall ix: Index :: InBounds(shape, ix) ==> IsBit(f(ix))
    ensures t.dtype == dtype && t.shape == shape
    ensures forall ix: Index :: InBounds(shape, ix) ==> t.At(ix) == f(ix)
  {
    var raw := RawTensor(dtype, shape, map ix | ix in Indices(shape) :: f(ix));
    assert raw.Valid();
    t := raw;
  }

  /** Tensors are extensional. */
  lemma {:induction false} SameTensor(a: Tensor, b: Tensor)
    requires a.dtype == b.dtype && a.shape == b.shape
    requires forall ix: Index :: InBounds(a.shape, ix) ==> a.At(ix) == b.At(ix)
    ensures a == b
  {
    forall ix | ix in a.data ensures ix in b.data && a.data[ix] == b.data[ix] {
      assert InBounds(a.shape, ix);
      assert a.At(ix) == b.At(ix);
    }
    assert a.data == b.data;
  }

  function Clamp(v: int, lo: int, hi: int): int {
    if v < lo then lo else if v > hi then hi else v
  }

  function Max(a: int, b: int): int { if a < b then b else a }

  function Floors(t: Tensor, n: nat): (r: seq<int>)
    ensures |r| == n && forall i :: 0 <= i < n ==> r[i] == t.At([i]).Floor
  {
    if n == 0 then [] else Floors(t, n - 1) + [t.At([n - 1]).Floor]
  }

  /** The elements of a one-dimensional tensor as integers; Slice and Pad take their parameters so. */
  function IntVector(t: Tensor): (r: seq<int>)
    ensures t.Rank() == 1 ==> |r| == t.shape[0]
  {
    if t.Rank() != 1 then [] else Floors(t, t.shape[0])
  }

  function VectorData(v: seq<int>): (r: map<Index, real>)
    ensures forall ix :: ix in r <==> InBounds([|v|], ix)
    ensures forall i :: 0 <= i < |v| ==> [i] in r && r[[i]] == v[i] as real
  {
    if v == [] then
      assert forall ix: Index :: !InBounds([0], ix) by {
        forall ix: Index ensures !InBounds([0], ix) {
          if |ix| == 1 {
            var d: seq<nat> := [0];
            assert !(0 <= ix[0] < d[0]);
          }
        }
      }
      map[]
    else
      var n := |v| - 1;
      var r := VectorData(v[..n])[[n] := v[n] as real];
      assert forall ix: Index :: ix in r <==> InBounds([|v|], ix) by {
        forall ix: Index ensures ix in r <==> InBounds([|v|], ix) {
          assert InBounds([|v|], ix) <==> ix == [n] || InBounds([n], ix);
        }
      }
      r
  }

  /** A one-dimensional INT64 tensor. */
  function FromInts(v: seq<int>): (t: Tensor)
    requires |v| <= INT64_MAX
    ensures t.dtype == INT64 && t.shape == [|v|] && IntVector(t) == v
  {
    RawTensor(INT64, [|v|], VectorData(v))
  }

  /** A scalar: NumPy's zero-dimensional array. */
  function FromReal(v: real): (t: Tensor)
    ensures t.dtype == FLOAT && t.shape == [] && ScalarValue(t) == Some(v)
  {
    var none: Index := seq(0, k => 0);
    assert none == [];
    RawTensor(FLOAT, [], map[[] := v])
  }

  /** The value of a tensor that holds exactly one element. */
  function ScalarValue(t: Tensor): (r: Option<real>)
    ensures r.Some? && t.dtype == BOOL ==> IsBit(r.value)
  {
    if forall k :: 0 <= k < t.Rank() ==> t.shape[k] == 1
    then Some(t.At(seq(t.Rank(), k => 0)))
    else None
  }

  // ---------------------------------------------------------------- Pad

  function PadDims(shape: seq<nat>, before: seq<int>, after: seq<int>): (r: seq<int>)
    requires |before| == |after| == |shape|
  {
    seq(|shape|, k requires 0 <= k < |shape| => before[k] + shape[k] + after[k])
  }

  function Minus(ix: Index, shift: seq<int>): (r: Index)
    requires |ix| == |shift|
    ensures |r| == |ix| && forall k :: 0 <= k < |ix| ==> r[k] == ix[k] - shift[k]
  {
    seq(|ix|, k requires 0 <= k < |ix| => ix[k] - shift[k])
  }

  predicate PadDefined(x: Tensor, before: seq<int>, after: seq<int>) {
    && |before| == |after| == x.Rank()
    && forall k :: 0 <= k < x.Rank() ==> 0 <= before[k] + x.shape[k] + after[k] <= INT64_MAX
  }

  ghost predicate IsPad(x: Tensor, before: seq<int>, after: seq<int>, fill: real, t: Tensor)
    requires |before| == |after| == x.Rank()
  {
    && t.dtype == x.dtype
    && t.shape == PadDims(x.shape, before, after)
    && forall ix: Index :: InBounds(t.shape, ix) ==> t.At(ix) == x.AtOr(Minus(ix, before), fill)
  }

  lemma {:induction false} PadExists(x: Tensor, before: seq<int>, after: seq<int>, fill: real)
    requires PadDefined(x, before, after) && (x.dtype == BOOL ==> IsBit(fill))
    ensures exists t: Tensor :: IsPad(x, before, after, fill, t)
  {
    var dims := PadDims(x.shape, before, after);
    var t := Tabulated(x.dtype, dims, (ix: Index) => if |ix| == x.Rank() then x.AtOr(Minus(ix, before), fill) else 0.0);
    assert IsPad(x, before, after, fill, t);
  }

  /** Constant-mode Pad. A negative pad removes elements; the output element at `ix` is the input
      element at `ix - before`, or the fill when that index lies outside the input. */
  ghost function Pad(x: Tensor, before: seq<int>, after: seq<int>, fill: real): (r: Option<Tensor>)
    requires x.dtype == BOOL ==> IsBit(fill)
    ensures r.Some? <==> PadDefined(x, before, after)
    ensures r.Some? ==> IsPad(x, before, after, fill, r.value)
  {
    if !PadDefined(x, before, after) then None
    else
      PadExists(x, before, after, fill);
      var t: Tensor :| IsPad(x, before, after, fill, t);
      Some(t)
  }

  // ---------------------------------------------------------------- Slice

  /** The part of one axis that a Slice selects: `count` elements `start, start + step, ...`. */
  datatype Range = Range(start: int, step: int, count: nat)

  function AxisRange(d: nat, start: int, end: int, step: int): (r: Range)
    requires step != 0
    ensures r.count <= d
    ensures start == end && step > 0 ==> r.count == 0
  {
    var s := if start < 0 then start + d else start;
    var e := if end < 0 then end + d else end;
    if step > 0 then
      var s1, e1 := Clamp(s, 0, d), Clamp(e, 0, d);
      Range(s1, step, StepCount(e1 - s1, step))
    else
      var s1, e1 := Clamp(s, 0, d - 1), Clamp(e, -1, d - 1);
      Range(s1, step, if d == 0 then 0 else StepCount(s1 - e1, -step))
  }

  /** How many of `0, step, 2 * step, ...` lie below `n`. */
  function StepCount(n: int, step: int): (r: nat)
    requires step > 0
    ensures r <= Max(n, 0)
    ensures step == 1 ==> r == Max(n, 0)
    decreases Max(n, 0)
  {
    if n <= 0 then 0 else 1 + StepCount(n - step, step)
  }

  function NormalAxis(axis: int, rank: nat): int {
    if axis < 0 then axis + rank else axis
  }

  /** The range that a Slice selects on axis `k` of extent `d`; the whole axis when it is not listed. */
  function RangeOn(d: nat, rank: nat, k: int, starts: seq<int>, ends: seq<int>, axes: seq<int>,
          steps: seq<int>): (r: Range)
    requires |starts| == |ends| == |axes| == |steps|
    requires forall i :: 0 <= i < |steps| ==> steps[i] != 0
    ensures r.count <= d
    decreases |axes|
  {
    var n := |axes| - 1;
    if n < 0 then Range(0, 1, d)
    else if NormalAxis(axes[n], rank) == k then AxisRange(d, starts[n], ends[n], steps[n])
    else RangeOn(d, rank, k, starts[..n], ends[..n], axes[..n], steps[..n])
  }

  predicate SliceArguments(rank: nat, starts: seq<int>, ends: seq<int>, axes: seq<int>, steps: seq<int>) {
    && |starts| == |ends| == |axes| == |steps|
    && (forall i :: 0 <= i < |axes| ==> 0 <= NormalAxis(axes[i], rank) < rank && steps[i] != 0)
    && (forall i, j :: 0 <= i < j < |axes| ==> NormalAxis(axes[i], rank) != NormalAxis(axes[j], rank))
  }

  function SliceRanges(x: Tensor, starts: seq<int>, ends: seq<int>, axes: seq<int>, steps: seq<int>): (r: seq<Range>)
    requires SliceArguments(x.Rank(), starts, ends, axes, steps)
    ensures |r| == x.Rank()
    ensures forall k :: 0 <= k < |r| ==> r[k].count <= x.shape[k]
  {
    seq(x.Rank(), k requires 0 <= k < x.Rank() => RangeOn(x.shape[k], x.Rank(), k, starts, ends, axes, steps))
  }

  function Counts(ranges: seq<Range>): (r: seq<nat>)
    ensures |r| == |ranges| && forall k :: 0 <= k < |r| ==> r[k] == ranges[k].count
  {
    seq(|ranges|, k requires 0 <= k < |ranges| => ranges[k].count)
  }

  function Pick(ranges: seq<Range>, ix: Index): (r: Index)
    requires |ix| == |ranges|
    ensures |r| == |ix| && forall k :: 0 <= k < |ix| ==> r[k] == ranges[k].start + ix[k] * ranges[k].step
  {
    seq(|ix|, k requires 0 <= k < |ix| => ranges[k].start + ix[k] * ranges[k].step)
  }

  ghost predicate IsSlice(x: Tensor, ranges: seq<Range>, t: Tensor) {
    && t.dtype == x.dtype && |ranges| == x.Rank()
    && t.shape == Counts(ranges)
    && forall ix: Index :: InBounds(t.shape, ix) ==> t.At(ix) == x.At(Pick(ranges, ix))
  }

  lemma {:induction false} SliceExists(x: Tensor, ranges: seq<Range>)
    requires |ranges| == x.Rank() && forall k :: 0 <= k < |ranges| ==> ranges[k].count <= x.shape[k]
    ensures exists t: Tensor :: IsSlice(x, ranges, t)
  {
    var t := Tabulated(x.dtype, Counts(ranges), (ix: Index) => if |ix| == |ranges| then x.At(Pick(ranges, ix))
                       else 0.0);
    assert IsSlice(x, ranges, t);
  }

  ghost function Slice(x: Tensor, starts: seq<int>, ends: seq<int>, axes: seq<int>,
          steps: seq<int>): (r: Option<Tensor>)
    ensures r.Some? <==> SliceArguments(x.Rank(), starts, ends, axes, steps)
    ensures r.Some? ==> IsSlice(x, SliceRanges(x, starts, ends, axes, steps), r.value)
  {
    if !SliceArguments(x.Rank(), starts, ends, axes, steps) then None
    else
      var ranges := SliceRanges(x, starts, ends, axes, steps);
      SliceExists(x, ranges);
      var t: Tensor :| IsSlice(x, ranges, t);
      Some(t)
  }

  // ---------------------------------------------------------------- Concat

  predicate ConcatDefined(a: Tensor, b: Tensor, axis: nat) {
    && axis < a.Rank() == b.Rank() && a.dtype == b.dtype
    && a.shape[axis := 0] == b.shape[axis := 0]
    && a.shape[axis] + b.shape[axis] <= INT64_MAX
  }

  /** The elements of `a`, followed along `axis` by those of `b`. */
  ghost predicate IsConcat(a: Tensor, b: Tensor, axis: nat, t: Tensor)
    requires ConcatDefined(a, b, axis)
  {
    && t.dtype == a.dtype
    && t.shape == a.shape[axis := a.shape[axis] + b.shape[axis]]
    && forall ix: Index :: InBounds(t.shape, ix) ==>
         t.At(ix) == if ix[axis] < a.shape[axis] then a.At(ix) else b.At(ix[axis := ix[axis] - a.shape[axis]])
  }

  lemma {:induction false} ConcatExists(a: Tensor, b: Tensor, axis: nat)
    requires ConcatDefined(a, b, axis)
    ensures exists t: Tensor :: IsConcat(a, b, axis, t)
  {
    var t := Tabulated(a.dtype, a.shape[axis := a.shape[axis] + b.shape[axis]],
                       (ix: Index) => if |ix| != a.Rank() then 0.0
                             else if ix[axis] < a.shape[axis] then a.At(ix)
                             else b.At(ix[axis := ix[axis] - a.shape[axis]]));
    assert IsConcat(a, b, axis, t);
  }

  ghost function Concat2(a: Tensor, b: Tensor, axis: nat): (r: Option<Tensor>)
    ensures r.Some? <==> ConcatDefined(a, b, axis)
    ensures r.Some? ==> IsConcat(a, b, axis, r.value)
  {
    if !ConcatDefined(a, b, axis) then None
    else
      ConcatExists(a, b, axis);
      var t: Tensor :| IsConcat(a, b, axis, t);
      Some(t)
  }

  /** Concatenation along the axis `axis`, already counted from the front. */
  ghost function ConcatAll(ts: seq<Tensor>, axis: nat): Option<Tensor> {
    if ts == [] then None
    else if |ts| == 1 then (if axis < ts[0].Rank() then Some(ts[0]) else None)
    else match ConcatAll(ts[1..], axis)
      case None => None
      case Some(rest) => Concat2(ts[0], rest, axis)
  }

  ghost function Concat(ts: seq<Tensor>, axis: int): Option<Tensor> {
    if ts == [] || NormalAxis(axis, ts[0].Rank()) < 0 then None
    else ConcatAll(ts, NormalAxis(axis, ts[0].Rank()))
  }

  // ---------------------------------------------------------------- Unsqueeze, Mul, Einsum, Cast

  /** Unsqueeze with `axes = [-2]`: a new axis of extent one before the last axis. */
  ghost predicate IsUnsqueeze(x: Tensor, t: Tensor)
    requires x.Rank() > 0
  {
    var p := x.Rank() - 1;
    && t.dtype == x.dtype
    && t.shape == x.shape[..p] + [1] + x.shape[p..]
    && forall ix: Index :: InBounds(t.shape, ix) ==> t.At(ix) == x.At(ix[..p] + ix[p + 1..])
  }

  lemma {:induction false} UnsqueezeExists(x: Tensor)
    requires x.Rank() > 0
    ensures exists t: Tensor :: IsUnsqueeze(x, t)
  {
    var p := x.Rank() - 1;
    var t := Tabulated(x.dtype, x.shape[..p] + [1] + x.shape[p..],
                       (ix: Index) => if |ix| == p + 2 then x.At(ix[..p] + ix[p + 1..]) else 0.0);
    assert IsUnsqueeze(x, t);
  }

  ghost function UnsqueezeBeforeLast(x: Tensor): (r: Option<Tensor>)
    ensures r.Some? <==> x.Rank() > 0
    ensures r.Some? ==> IsUnsqueeze(x, r.value)
  {
    if x.Rank() == 0 then None
    else
      UnsqueezeExists(x);
      var t: Tensor :| IsUnsqueeze(x, t);
      Some(t)
  }

  function Aligned(shape: seq<nat>, rank: nat): (r: seq<nat>)
    requires |shape| <= rank
    ensures |r| == rank
    ensures Dims(shape) ==> Dims(r)
  {
    seq(rank - |shape|, _ => 1) + shape
  }

  predicate Broadcastable(a: seq<nat>, b: seq<nat>)
    requires |a| == |b|
  {
    forall k :: 0 <= k < |a| ==> a[k] == b[k] || a[k] == 1 || b[k] == 1
  }

  function BroadcastDim(a: nat, b: nat): nat { if a == 1 then b else a }

  function BroadcastShape(a: seq<nat>, b: seq<nat>): (r: seq<nat>)
    requires |a| == |b|
    ensures |r| == |a| && forall k :: 0 <= k < |a| ==> r[k] == BroadcastDim(a[k], b[k])
    ensures Dims(a) && Dims(b) ==> Dims(r)
  {
    seq(|a|, k requires 0 <= k < |a| => BroadcastDim(a[k], b[k]))
  }

  /** The index of a broadcast operand of shape `shape` that output index `ix` reads. */
  function BroadcastIndex(shape: seq<nat>, ix: Index): (r: Index)
    requires |shape| <= |ix|
    ensures |r| == |shape|
    ensures forall k :: 0 <= k < |r| ==> r[k] == if shape[k] == 1 then 0 else ix[|ix| - |shape| + k]
  {
    seq(|shape|, k requires 0 <= k < |shape| => if shape[k] == 1 then 0 else ix[|ix| - |shape| + k])
  }

  /** The element product; nothing is assumed of it, so a rounded product is covered. */
  type Product = (real, real) -> real

  predicate MulDefined(a: Tensor, b: Tensor) {
    var rank := Max(a.Rank(), b.Rank());
    a.dtype == b.dtype != BOOL && Broadcastable(Aligned(a.shape, rank), Aligned(b.shape, rank))
  }

  /** Element-wise product with right-aligned broadcasting. */
  ghost predicate IsMul(times: Product, a: Tensor, b: Tensor, t: Tensor) {
    var rank := Max(a.Rank(), b.Rank());
    && t.dtype == a.dtype
    && t.shape == BroadcastShape(Aligned(a.shape, rank), Aligned(b.shape, rank))
    && forall ix: Index :: InBounds(t.shape, ix) ==>
         t.At(ix) == times(a.At(BroadcastIndex(a.shape, ix)), b.At(BroadcastIndex(b.shape, ix)))
  }

  lemma {:induction false} MulExists(times: Product, a: Tensor, b: Tensor)
    requires MulDefined(a, b)
    ensures exists t: Tensor :: IsMul(times, a, b, t)
  {
    var rank := Max(a.Rank(), b.Rank());
    var t := Tabulated(a.dtype, BroadcastShape(Aligned(a.shape, rank), Aligned(b.shape, rank)),
                       (ix: Index) => if |ix| != rank then 0.0
                             else times(a.At(BroadcastIndex(a.shape, ix)), b.At(BroadcastIndex(b.shape, ix))));
    assert IsMul(times, a, b, t);
  }

  ghost function Mul(times: Product, a: Tensor, b: Tensor): (r: Option<Tensor>)
    ensures r.Some? <==> MulDefined(a, b)
    ensures r.Some? ==> IsMul(times, a, b, r.value)
  {
    if !MulDefined(a, b) then None
    else
      MulExists(times, a, b);
      var t: Tensor :| IsMul(times, a, b, t);
      Some(t)
  }

  predicate EinsumDefined(x: Tensor, w: Tensor) {
    && x.Rank() >= 1 && w.Rank() == 2 && x.dtype == w.dtype != BOOL
    && var dx, dw := x.shape[x.Rank() - 1], w.shape[1];
      dx == dw || dx == 1 || dw == 1
  }

  /** Einsum with the equation `... d, h d -> ... h d`, read from its definition: the second operand
      has rank two, the axes called `d` agree or one of them has extent one, and no axis is summed. */
  ghost predicate IsEinsum(times: Product, x: Tensor, w: Tensor, t: Tensor)
    requires EinsumDefined(x, w)
  {
    var p := x.Rank() - 1;
    var dx, dw := x.shape[p], w.shape[1];
    && t.dtype == x.dtype
    && t.shape == x.shape[..p] + [w.shape[0], BroadcastDim(dx, dw)]
    && forall ix: Index :: InBounds(t.shape, ix) ==>
         t.At(ix) == times(x.At(ix[..p] + [if dx == 1 then 0 else ix[p + 1]]),
                           w.At([ix[p], if dw == 1 then 0 else ix[p + 1]]))
  }

  lemma {:induction false} EinsumExists(times: Product, x: Tensor, w: Tensor)
    requires EinsumDefined(x, w)
    ensures exists t: Tensor :: IsEinsum(times, x, w, t)
  {
    var p := x.Rank() - 1;
    var dx, dw := x.shape[p], w.shape[1];
    var t := Tabulated(x.dtype, x.shape[..p] + [w.shape[0], BroadcastDim(dx, dw)],
                       (ix: Index) => if |ix| != p + 2 then 0.0
                             else times(x.At(ix[..p] + [if dx == 1 then 0 else ix[p + 1]]),
                                        w.At([ix[p], if dw == 1 then 0 else ix[p + 1]])));
    assert IsEinsum(times, x, w, t);
  }

  ghost function EinsumOuter(times: Product, x: Tensor, w: Tensor): (r: Option<Tensor>)
    ensures r.Some? <==> EinsumDefined(x, w)
    ensures r.Some? ==> IsEinsum(times, x, w, r.value)
  {
    if !EinsumDefined(x, w) then None
    else
      EinsumExists(times, x, w);
      var t: Tensor :| IsEinsum(times, x, w, t);
      Some(t)
  }

  ghost predicate IsCast(x: Tensor, dtype: DType, t: Tensor) {
    && t.dtype == dtype && t.shape == x.shape
    && forall ix: Index :: InBounds(t.shape, ix) ==>
         t.At(ix) == if dtype == BOOL then (if x.At(ix) == 0.0 then 0.0 else 1.0) else x.At(ix)
  }

  lemma {:induction false} CastExists(x: Tensor, dtype: DType)
    ensures exists t: Tensor :: IsCast(x, dtype, t)
  {
    var t := Tabulated(dtype, x.shape, (ix: Index) => if dtype == BOOL then (if x.At(ix) == 0.0 then 0.0 else 1.0)
                       else x.At(ix));
    assert IsCast(x, dtype, t);
  }

  /** Cast to BOOL or FLOAT: nonzero is true, true is one, and numbers keep their value. */
  ghost function Cast(x: Tensor, dtype: DType): (r: Tensor)
    ensures IsCast(x, dtype, r)
  {
    CastExists(x, dtype);
    var t: Tensor :| IsCast(x, dtype, t);
    t
  }
}
