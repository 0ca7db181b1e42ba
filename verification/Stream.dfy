/** The streaming overlap-add engine. The FFT, the network and the inverse FFT of one frame are a single
    step from a windowed frame and a state to an enhanced frame and the next state. */
module Stream {
  import opened Wrappers

  const FFT_SIZE: nat := 960
  const HOP_SIZE: nat := 480

  /** `times` is the product used for windowing; only the reconstruction theorem takes it to be exact. */
  datatype Engine<!S> = Engine(
    step: (seq<real>, S) -> (seq<real>, S),
    initial: S,
    window: seq<real>,
    times: (real, real) -> real)

  /** The inverse FFT always returns a full frame. */
  ghost predicate WellFormed<S(!new)>(e: Engine<S>) {
    && |e.window| == FFT_SIZE
    && forall frame: seq<real>, s: S :: |frame| == FFT_SIZE ==> |e.step(frame, s).0| == FFT_SIZE
  }

  // ------------------------------------------------------------ the direct formula

  /** Frame `j` of the input, with zeros past its end. */
  function Frame(audio: seq<real>, j: nat): (r: seq<real>)
    ensures |r| == FFT_SIZE
  {
    seq(FFT_SIZE, i => if 0 <= HOP_SIZE * j + i < |audio| then audio[HOP_SIZE * j + i] else 0.0)
  }

  function Windowed(times: (real, real) -> real, window: seq<real>, frame: seq<real>): (r: seq<real>)
    requires |window| == |frame|
    ensures |r| == |frame| && forall i :: 0 <= i < |r| ==> r[i] == times(frame[i], window[i])
  {
    seq(|frame|, i requires 0 <= i < |frame| => times(frame[i], window[i]))
  }

  /** The network state before frame `j`. */
  ghost function StateAt<S(!new)>(e: Engine<S>, audio: seq<real>, j: nat): S
    requires WellFormed(e)
  {
    if j == 0 then e.initial
    else e.step(Windowed(e.times, e.window, Frame(audio, j - 1)), StateAt(e, audio, j - 1)).1
  }

  /** Frame `j` enhanced and windowed again. */
  ghost function Enhanced<S(!new)>(e: Engine<S>, audio: seq<real>, j: nat): (r: seq<real>)
    requires WellFormed(e)
    ensures |r| == FFT_SIZE
  {
    Windowed(e.times, e.window, e.step(Windowed(e.times, e.window, Frame(audio, j)), StateAt(e, audio, j)).0)
  }

  /** Output sample `i` of hop `j`: the first half of frame `j` over the second half of frame `j - 1`. */
  ghost function Sample<S(!new)>(e: Engine<S>, audio: seq<real>, j: nat, i: nat): real
    requires WellFormed(e) && i < HOP_SIZE
  {
    Enhanced(e, audio, j)[i] + if j == 0 then 0.0 else Enhanced(e, audio, j - 1)[HOP_SIZE + i]
  }

  function FrameCount(size: nat): nat {
    if size == 0 then 0 else if size < FFT_SIZE then 1 else size / HOP_SIZE
  }

  function OutputSize(size: nat): nat {
    if size < HOP_SIZE then size else HOP_SIZE * (size / HOP_SIZE)
  }

  /** `output` is what overlap-add should produce from `audio`. */
  ghost predicate IsOverlapAdd<S(!new)>(e: Engine<S>, audio: seq<real>, output: seq<real>)
    requires WellFormed(e)
  {
    && |output| == OutputSize(|audio|)
    && forall j: nat, i: nat :: i < HOP_SIZE && HOP_SIZE * j + i < |output| ==>
        output[HOP_SIZE * j + i] == Sample(e, audio, j, i)
  }

  // ------------------------------------------------------------ the stream

  class Overlapper<S(!new)> {
    const engine: Engine<S>
    var state: S
    const overlap: array<real>
    var output: seq<real>

    constructor (engine: Engine<S>)
      ensures this.engine == engine && state == engine.initial && output == []
      ensures fresh(overlap) && overlap.Length == FFT_SIZE
      ensures forall i :: 0 <= i < FFT_SIZE ==> overlap[i] == 0.0
    {
      this.engine, state, output := engine, engine.initial, [];
      overlap := new real[FFT_SIZE](_ => 0.0);
    }

    /** Adds one enhanced frame into the overlap buffer, emits its first half and shifts it by a hop. */
    method ProcessFrame(frame: seq<real>)
      requires |frame| == FFT_SIZE && |engine.window| == FFT_SIZE && overlap.Length == FFT_SIZE
      requires |engine.step(Windowed(engine.times, engine.window, frame), state).0| == FFT_SIZE
      modifies this`state, this`output, overlap
      ensures
        var result := engine.step(Windowed(engine.times, engine.window, frame), old(state));
        var y := Windowed(engine.times, engine.window, result.0);
        && state == result.1
        && |output| == |old(output)| + HOP_SIZE && output[..|old(output)|] == old(output)
        && (forall i :: 0 <= i < HOP_SIZE ==> output[|old(output)| + i] == old(overlap[i]) + y[i])
        && (forall i :: 0 <= i < HOP_SIZE ==> overlap[i] == old(overlap[HOP_SIZE + i]) + y[HOP_SIZE + i])
        && (forall i :: HOP_SIZE <= i < FFT_SIZE ==> overlap[i] == 0.0)
    {
      var result := engine.step(Windowed(engine.times, engine.window, frame), state);
      state := result.1;
      var y := Windowed(engine.times, engine.window, result.0);
      for i := 0 to FFT_SIZE
        invariant state == result.1 && output == old(output)
        invariant forall k :: 0 <= k < i ==> overlap[k] == old(overlap[k]) + y[k]
        invariant forall k :: i <= k < FFT_SIZE ==> overlap[k] == old(overlap[k])
      {
        overlap[i] := overlap[i] + y[i];
      }
      ghost var summed := overlap[..];
      output := output + overlap[..HOP_SIZE];
      assert forall i :: 0 <= i < HOP_SIZE ==> output[|old(output)| + i] == summed[i];
      forall i | 0 <= i < HOP_SIZE {
        overlap[i] := overlap[HOP_SIZE + i];
      }
      assert forall i :: 0 <= i < HOP_SIZE ==> overlap[i] == summed[HOP_SIZE + i];
      forall i | HOP_SIZE <= i < FFT_SIZE {
        overlap[i] := 0.0;
      }
    }
  }

  /** The buffer and the output after `k` frames. */
  ghost predicate After<S(!new)>(e: Engine<S>, audio: seq<real>, k: nat, state: S, overlap: seq<real>,
          output: seq<real>)
    requires WellFormed(e)
  {
    && state == StateAt(e, audio, k)
    && |overlap| == FFT_SIZE
    && (forall i :: 0 <= i < HOP_SIZE ==> overlap[i] == if k == 0 then 0.0 else Enhanced(e, audio, k - 1)[HOP_SIZE + i])
    && (forall i :: HOP_SIZE <= i < FFT_SIZE ==> overlap[i] == 0.0)
    && |output| == HOP_SIZE * k
    && (forall j: nat, i: nat :: i < HOP_SIZE && j < k ==> output[HOP_SIZE * j + i] == Sample(e, audio, j, i))
  }

  /** One more frame. */
  lemma {:induction false} AfterNext<S(!new)>(e: Engine<S>, audio: seq<real>, k: nat, state: S, overlap: seq<real>,
          output: seq<real>,
                           state': S, overlap': seq<real>, output': seq<real>)
    requires WellFormed(e) && After(e, audio, k, state, overlap, output)
    requires state' == e.step(Windowed(e.times, e.window, Frame(audio, k)), state).1
    requires |output'| == |output| + HOP_SIZE && output'[..|output|] == output && |overlap'| == FFT_SIZE
    requires forall i :: 0 <= i < HOP_SIZE ==> output'[|output| + i] == overlap[i] + Enhanced(e, audio, k)[i]
    requires forall i :: 0 <= i < HOP_SIZE ==>
        overlap'[i] == overlap[HOP_SIZE + i] + Enhanced(e, audio, k)[HOP_SIZE + i]
    requires forall i :: HOP_SIZE <= i < FFT_SIZE ==> overlap'[i] == 0.0
    ensures After(e, audio, k + 1, state', overlap', output')
  {
    forall j: nat, i: nat | i < HOP_SIZE && j < k + 1 ensures output'[HOP_SIZE * j + i] == Sample(e, audio, j, i) {
      if j < k {
        assert HOP_SIZE * j + i < |output|;
        assert output'[HOP_SIZE * j + i] == output[HOP_SIZE * j + i];
      } else {
        assert output'[|output| + i] == overlap[i] + Enhanced(e, audio, k)[i];
      }
    }
  }

  /** Truncating the hops to the input length leaves the overlap-add of the input. */
  lemma {:induction false} TruncatedIsOverlapAdd<S(!new)>(e: Engine<S>, audio: seq<real>, k: nat, state: S,
          overlap: seq<real>, output: seq<real>)
    requires WellFormed(e) && After(e, audio, k, state, overlap, output) && k == FrameCount(|audio|)
    ensures IsOverlapAdd(e, audio, if |audio| < |output| then output[..|audio|] else output)
  {
    var n := |audio|;
    assert HOP_SIZE * (n / HOP_SIZE) <= n < HOP_SIZE * (n / HOP_SIZE) + HOP_SIZE;
    var r := if n < |output| then output[..n] else output;
    assert |r| == OutputSize(n);
    forall j: nat, i: nat | i < HOP_SIZE && HOP_SIZE * j + i < |r|
      ensures r[HOP_SIZE * j + i] == Sample(e, audio, j, i)
    {
      assert j < k;
    }
  }

  /** The stream refines the direct formula, whatever the network does. */
  method Enhance<S(!new)>(engine: Engine<S>, audio: seq<real>) returns (enhanced: seq<real>)
    requires WellFormed(engine)
    ensures IsOverlapAdd(engine, audio, enhanced)
  {
    var stream := new Overlapper(engine);
    var pending := audio;
    ghost var k := 0;
    while |pending| >= FFT_SIZE
      invariant HOP_SIZE * k <= |audio| && pending == audio[HOP_SIZE * k..]
      invariant k > 0 ==> |pending| >= HOP_SIZE
      invariant fresh(stream) && fresh(stream.overlap) && stream.engine == engine && stream.overlap.Length == FFT_SIZE
      invariant After(engine, audio, k, stream.state, stream.overlap[..], stream.output)
      decreases |pending|
    {
      k := FrameStep(stream, pending[..FFT_SIZE], audio, k);
      pending := pending[HOP_SIZE..];
    }
    if |pending| > 0 {
      k := FrameStep(stream, pending + seq(FFT_SIZE - |pending|, _ => 0.0), audio, k);
    }
    FrameTotal(|audio|, k);
    TruncatedIsOverlapAdd(engine, audio, k, stream.state, stream.overlap[..], stream.output);
    enhanced := if |audio| < |stream.output| then stream.output[..|audio|] else stream.output;
  }

  method FrameStep<S(!new)>(stream: Overlapper<S>, frame: seq<real>, ghost audio: seq<real>, ghost k: nat)
    returns (ghost k': nat)
    requires WellFormed(stream.engine) && stream.overlap.Length == FFT_SIZE
    requires After(stream.engine, audio, k, stream.state, stream.overlap[..], stream.output)
    requires frame == Frame(audio, k)
    modifies stream`state, stream`output, stream.overlap
    ensures k' == k + 1 && After(stream.engine, audio, k', stream.state, stream.overlap[..], stream.output)
  {
    ghost var state, overlap, output := stream.state, stream.overlap[..], stream.output;
    stream.ProcessFrame(frame);
    AfterNext(stream.engine, audio, k, state, overlap, output, stream.state, stream.overlap[..], stream.output);
    k' := k + 1;
  }

  lemma {:induction false} FrameTotal(size: nat, k: nat)
    requires size == 0 ==> k == 0
    requires 0 < size ==> k >= 1
    requires 0 < size < FFT_SIZE ==> k == 1
    requires size >= FFT_SIZE ==> HOP_SIZE * (k - 1) + HOP_SIZE <= size < HOP_SIZE * (k - 1) + FFT_SIZE
    ensures k == FrameCount(size)
  {
  }

  // ------------------------------------------------------------ reconstruction

  ghost predicate PassThrough<S(!new)>(e: Engine<S>) {
    forall frame: seq<real>, s: S :: |frame| == FFT_SIZE ==> e.step(frame, s).0 == frame
  }

  predicate PowerComplementary(window: seq<real>)
    requires |window| == FFT_SIZE
  {
    forall i :: 0 <= i < HOP_SIZE ==> window[i] * window[i] + window[HOP_SIZE + i] * window[HOP_SIZE + i] == 1.0
  }

  ghost predicate Exact(times: (real, real) -> real) {
    forall a, b :: times(a, b) == a * b
  }

  lemma {:induction false} Distributes(x: real, v: real, w: real)
    requires v * v + w * w == 1.0
    ensures (x * v) * v + (x * w) * w == x
  {
    assert (x * v) * v + (x * w) * w == x * (v * v + w * w);
  }

  /** A pass-through network leaves every sample of a frame times the square of the window. */
  lemma {:induction false} PassedFrame<S(!new)>(e: Engine<S>, audio: seq<real>, j: nat, i: nat)
    requires WellFormed(e) && PassThrough(e) && Exact(e.times) && i < FFT_SIZE
    ensures Enhanced(e, audio, j)[i] == (Frame(audio, j)[i] * e.window[i]) * e.window[i]
  {
  }

  /** With a pass-through network and a power-complementary window, every emitted sample from the second hop
      on equals the input sample, also where the last frame was padded with zeros; the first hop is the input
      times the square of the window. */
  lemma {:induction false} Reconstructs<S(!new)>(e: Engine<S>, audio: seq<real>, output: seq<real>, t: nat)
    requires WellFormed(e) && PassThrough(e) && Exact(e.times) && PowerComplementary(e.window)
    requires IsOverlapAdd(e, audio, output) && t < |output|
    ensures t < |audio|
    ensures output[t] == if t < HOP_SIZE then (audio[t] * e.window[t]) * e.window[t] else audio[t]
  {
    var j, i := t / HOP_SIZE, t % HOP_SIZE;
    assert t == HOP_SIZE * j + i;
    assert output[HOP_SIZE * j + i] == Sample(e, audio, j, i);
    PassedSample(e, audio, j, i);
  }

  /** The samples of one hop under a pass-through network. */
  lemma {:induction false} PassedSample<S(!new)>(e: Engine<S>, audio: seq<real>, j: nat, i: nat)
    requires WellFormed(e) && PassThrough(e) && Exact(e.times) && PowerComplementary(e.window)
    requires i < HOP_SIZE && HOP_SIZE * j + i < |audio|
    ensures Sample(e, audio, j, i) ==
            if j == 0 then (audio[i] * e.window[i]) * e.window[i] else audio[HOP_SIZE * j + i]
  {
    var x := audio[HOP_SIZE * j + i];
    PassedFrame(e, audio, j, i);
    assert Frame(audio, j)[i] == x;
    if j > 0 {
      PassedFrame(e, audio, j - 1, HOP_SIZE + i);
      assert Frame(audio, j - 1)[HOP_SIZE + i] == x;
      Distributes(x, e.window[i], e.window[HOP_SIZE + i]);
    }
  }

  // ------------------------------------------------------------ causality

  lemma {:induction false} SameFrame(a: seq<real>, b: seq<real>, j: nat)
    requires |a| >= HOP_SIZE * (j + 2) && |b| >= HOP_SIZE * (j + 2)
    requires a[..HOP_SIZE * (j + 2)] == b[..HOP_SIZE * (j + 2)]
    ensures Frame(a, j) == Frame(b, j)
  {
    forall i | 0 <= i < FFT_SIZE ensures Frame(a, j)[i] == Frame(b, j)[i] {
      assert a[..HOP_SIZE * (j + 2)][HOP_SIZE * j + i] == b[..HOP_SIZE * (j + 2)][HOP_SIZE * j + i];
    }
  }

  lemma {:induction false} SamePast<S(!new)>(e: Engine<S>, a: seq<real>, b: seq<real>, j: nat)
    requires WellFormed(e) && |a| >= HOP_SIZE * (j + 2) && |b| >= HOP_SIZE * (j + 2)
    requires a[..HOP_SIZE * (j + 2)] == b[..HOP_SIZE * (j + 2)]
    ensures StateAt(e, a, j) == StateAt(e, b, j) && Enhanced(e, a, j) == Enhanced(e, b, j)
  {
    SameFrame(a, b, j);
    if j > 0 {
      assert a[..HOP_SIZE * (j + 1)] == a[..HOP_SIZE * (j + 2)][..HOP_SIZE * (j + 1)];
      assert b[..HOP_SIZE * (j + 1)] == b[..HOP_SIZE * (j + 2)][..HOP_SIZE * (j + 1)];
      SamePast(e, a, b, j - 1);
      SameFrame(a, b, j - 1);
    }
  }

  /** The stream is causal: two inputs that agree on the first `j + 2` hops give outputs that agree on the
      first `j + 1`, for every network, whatever follows in either input. */
  lemma {:induction false} Causal<S(!new)>(e: Engine<S>, a: seq<real>, b: seq<real>, x: seq<real>, y: seq<real>, j: nat)
    requires WellFormed(e) && |a| >= HOP_SIZE * (j + 2) && |b| >= HOP_SIZE * (j + 2)
    requires a[..HOP_SIZE * (j + 2)] == b[..HOP_SIZE * (j + 2)]
    requires IsOverlapAdd(e, a, x) && IsOverlapAdd(e, b, y)
    ensures |x| >= HOP_SIZE * (j + 1) && |y| >= HOP_SIZE * (j + 1)
    ensures x[..HOP_SIZE * (j + 1)] == y[..HOP_SIZE * (j + 1)]
  {
    EnoughOutput(|a|, j);
    EnoughOutput(|b|, j);
    forall t | 0 <= t < HOP_SIZE * (j + 1) ensures x[t] == y[t] {
      var k, i := t / HOP_SIZE, t % HOP_SIZE;
      assert t == HOP_SIZE * k + i;
      SameSample(e, a, b, k, i, j);
    }
  }

  lemma {:induction false} SameSample<S(!new)>(e: Engine<S>, a: seq<real>, b: seq<real>, k: nat, i: nat, j: nat)
    requires WellFormed(e) && k <= j && i < HOP_SIZE && |a| >= HOP_SIZE * (j + 2) && |b| >= HOP_SIZE * (j + 2)
    requires a[..HOP_SIZE * (j + 2)] == b[..HOP_SIZE * (j + 2)]
    ensures Sample(e, a, k, i) == Sample(e, b, k, i)
  {
    SameEnhanced(e, a, b, k, j);
    if k > 0 {
      SameEnhanced(e, a, b, k - 1, j);
    }
  }

  lemma {:induction false} SameEnhanced<S(!new)>(e: Engine<S>, a: seq<real>, b: seq<real>, k: nat, j: nat)
    requires WellFormed(e) && k <= j && |a| >= HOP_SIZE * (j + 2) && |b| >= HOP_SIZE * (j + 2)
    requires a[..HOP_SIZE * (j + 2)] == b[..HOP_SIZE * (j + 2)]
    ensures Enhanced(e, a, k) == Enhanced(e, b, k)
  {
    SamePrefix(a, b, k, j);
    SamePast(e, a, b, k);
  }

  lemma {:induction false} SamePrefix(a: seq<real>, b: seq<real>, k: nat, j: nat)
    requires k <= j && |a| >= HOP_SIZE * (j + 2) && |b| >= HOP_SIZE * (j + 2)
    requires a[..HOP_SIZE * (j + 2)] == b[..HOP_SIZE * (j + 2)]
    ensures a[..HOP_SIZE * (k + 2)] == b[..HOP_SIZE * (k + 2)]
  {
    assert a[..HOP_SIZE * (k + 2)] == a[..HOP_SIZE * (j + 2)][..HOP_SIZE * (k + 2)];
    assert b[..HOP_SIZE * (k + 2)] == b[..HOP_SIZE * (j + 2)][..HOP_SIZE * (k + 2)];
  }

  lemma {:induction false} EnoughOutput(size: nat, j: nat)
    requires size >= HOP_SIZE * (j + 2)
    ensures OutputSize(size) >= HOP_SIZE * (j + 1)
  {
  }

  // ------------------------------------------------------------ padding and alignment

  function PaddedSize(size: nat): nat {
    (size + HOP_SIZE - 1) / HOP_SIZE * HOP_SIZE
  }

  function Min(a: nat, b: nat): nat { if a < b then a else b }

  /** Pads the source to whole hops plus the alignment, enhances it, and cuts out the aligned samples. The cut
      has the length of the source exactly when the part of the alignment that is no whole hop fits in the
      padding of the last hop. */
  method AlignedReference<S(!new)>(engine: Engine<S>, source: seq<real>, alignment: int)
    returns (result: Result<seq<real>, string>, ghost causal: seq<real>)
    requires WellFormed(engine)
    ensures alignment < 0 <==> result.Err?
    ensures result.Ok? ==>
      var padded := source + seq(PaddedSize(|source|) + alignment - |source|, _ => 0.0);
      && IsOverlapAdd(engine, padded, causal)
      && |result.value| <= |source|
      && (forall t :: 0 <= t < |result.value| ==> alignment + t < |causal| && result.value[t] == causal[alignment + t])
      && (|result.value| == |source| <==> |source| == 0 || alignment % HOP_SIZE <= PaddedSize(|source|) - |source|)
  {
    causal := [];
    if alignment < 0 {
      return Err("--alignment-samples must be non-negative"), causal;
    }
    PaddedCovers(|source|);
    var size := PaddedSize(|source|) + alignment;
    var reference := Enhance(engine, source + seq(size - |source|, _ => 0.0));
    causal := reference;
    AlignedSize(|source|, alignment);
    var from := Min(alignment, |reference|);
    var to := Min(alignment + |source|, |reference|);
    result := Ok(reference[from..to]);
  }

  lemma {:induction false} PaddedCovers(size: nat)
    ensures size <= PaddedSize(size) < size + HOP_SIZE && PaddedSize(size) % HOP_SIZE == 0
  {
  }

  lemma {:induction false} AlignedSize(size: nat, alignment: nat)
    ensures
      var total := OutputSize(PaddedSize(size) + alignment);
      total >= alignment + size <==>
          (size == 0 && total >= alignment) || (size > 0 && alignment % HOP_SIZE <= PaddedSize(size) - size)
  {
    PaddedCovers(size);
    var p, q, r := PaddedSize(size), alignment / HOP_SIZE, alignment % HOP_SIZE;
    assert (p + alignment) / HOP_SIZE == p / HOP_SIZE + q by {
      assert p + alignment == (p / HOP_SIZE + q) * HOP_SIZE + r;
    }
  }

  /** One hop of input and an alignment of one sample: the reference is one sample short. */
  lemma {:induction false} OneSampleAlignmentIsShort<S(!new)>(e: Engine<S>, causal: seq<real>)
    requires WellFormed(e) && IsOverlapAdd(e, seq(PaddedSize(HOP_SIZE) + 1, _ => 0.0), causal)
    ensures |causal| == HOP_SIZE && |causal| < 1 + HOP_SIZE
  {
    assert PaddedSize(HOP_SIZE) == HOP_SIZE;
  }
}
