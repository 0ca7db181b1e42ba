/** The stream one frame at a time, for every network: what the first frame emits, how the rest of the input goes on
    from the state it leaves, and the zeros past the end of the input. */
module StreamSteps {
  import opened Stream

  function Zeros(n: nat): (r: seq<real>)
    ensures |r| == n && forall i :: 0 <= i < n ==> r[i] == 0.0
  {
    seq(n, _ => 0.0)
  }

  // ------------------------------------------------------------ zeros past the end

  /** A frame is cut out of the input followed by zeros. */
  lemma {:induction false} FrameIsCut(audio: seq<real>, j: nat)
    requires HOP_SIZE * j <= |audio|
    ensures Frame(audio, j) == (audio + Zeros(FFT_SIZE))[HOP_SIZE * j..][..FFT_SIZE]
  {
    var at := HOP_SIZE * j;
    var longer := audio + Zeros(FFT_SIZE);
    forall i | 0 <= i < FFT_SIZE ensures Frame(audio, j)[i] == longer[at..][..FFT_SIZE][i] {
      assert longer[at..][..FFT_SIZE][i] == longer[at + i];
    }
  }

  lemma {:induction false} SameFrameWithZeros(audio: seq<real>, n: nat, j: nat)
    ensures Frame(audio, j) == Frame(audio + Zeros(n), j)
  {
    var longer := audio + Zeros(n);
    forall i | 0 <= i < FFT_SIZE ensures Frame(audio, j)[i] == Frame(longer, j)[i] {
      SampleOrZero(audio, n, HOP_SIZE * j + i);
    }
  }

  lemma {:induction false} SampleOrZero(audio: seq<real>, n: nat, t: nat)
    ensures
      var longer := audio + Zeros(n);
      (if t < |longer| then longer[t] else 0.0) == if t < |audio| then audio[t] else 0.0
  {
  }

  lemma {:induction false} SameStateWithZeros<S(!new)>(e: Engine<S>, audio: seq<real>, n: nat, j: nat)
    requires WellFormed(e)
    ensures StateAt(e, audio, j) == StateAt(e, audio + Zeros(n), j)
  {
    if j > 0 {
      SameStateWithZeros(e, audio, n, j - 1);
      SameFrameWithZeros(audio, n, j - 1);
    }
  }

  lemma {:induction false} SameEnhancedWithZeros<S(!new)>(e: Engine<S>, audio: seq<real>, n: nat, j: nat)
    requires WellFormed(e)
    ensures Enhanced(e, audio, j) == Enhanced(e, audio + Zeros(n), j)
  {
    SameFrameWithZeros(audio, n, j);
    SameStateWithZeros(e, audio, n, j);
  }

  lemma {:induction false} OutputGrows(size: nat, n: nat)
    ensures OutputSize(size) <= OutputSize(size + n)
  {
  }

  lemma {:induction false} HopOf(t: nat) returns (j: nat, i: nat)
    ensures t == HOP_SIZE * j + i && i < HOP_SIZE
    ensures t + HOP_SIZE == HOP_SIZE * (j + 1) + i && t + FFT_SIZE == HOP_SIZE * (j + 2) + i
  {
    j, i := t / HOP_SIZE, t % HOP_SIZE;
  }

  lemma {:induction false} OutputAt<S(!new)>(e: Engine<S>, audio: seq<real>, x: seq<real>, j: nat, i: nat)
    requires WellFormed(e) && IsOverlapAdd(e, audio, x) && i < HOP_SIZE && HOP_SIZE * j + i < |x|
    ensures x[HOP_SIZE * j + i] == Sample(e, audio, j, i)
  {
  }

  lemma {:induction false} SameSampleWithZeros<S(!new)>(e: Engine<S>, audio: seq<real>, n: nat, j: nat, i: nat)
    requires WellFormed(e) && i < HOP_SIZE
    ensures Sample(e, audio, j, i) == Sample(e, audio + Zeros(n), j, i)
  {
    SameEnhancedWithZeros(e, audio, n, j);
    if j > 0 {
      SameEnhancedWithZeros(e, audio, n, j - 1);
    }
  }

  lemma {:induction false} SameOutputWithZeros<S(!new)>(e: Engine<S>, audio: seq<real>, n: nat, x: seq<real>,
          y: seq<real>, t: nat)
    requires WellFormed(e) && IsOverlapAdd(e, audio, x) && IsOverlapAdd(e, audio + Zeros(n), y)
    requires t < |x| && t < |y|
    ensures x[t] == y[t]
  {
    var j, i := HopOf(t);
    OutputAt(e, audio, x, j, i);
    OutputAt(e, audio + Zeros(n), y, j, i);
    SameSampleWithZeros(e, audio, n, j, i);
  }

  /** Appending zeros to the input keeps every sample that was emitted, for every network. */
  lemma {:induction false} ZerosKeepOutput<S(!new)>(e: Engine<S>, audio: seq<real>, n: nat, x: seq<real>, y: seq<real>)
    requires WellFormed(e) && IsOverlapAdd(e, audio, x) && IsOverlapAdd(e, audio + Zeros(n), y)
    ensures x <= y
  {
    OutputGrows(|audio|, n);
    forall t | 0 <= t < |x| ensures x[t] == y[t] {
      SameOutputWithZeros(e, audio, n, x, y, t);
    }
  }

  // ------------------------------------------------------------ the first frame

  /** What the network makes of a frame, windowed before and after. */
  function Pass<S(!new)>(e: Engine<S>, frame: seq<real>): (r: seq<real>)
    requires |e.window| == |frame| == FFT_SIZE
    requires |e.step(Windowed(e.times, e.window, frame), e.initial).0| == FFT_SIZE
    ensures |r| == FFT_SIZE
  {
    Windowed(e.times, e.window, e.step(Windowed(e.times, e.window, frame), e.initial).0)
  }

  /** The same engine in the state that a frame leaves. */
  function Next<S(!new)>(e: Engine<S>, frame: seq<real>): Engine<S>
    requires |e.window| == |frame|
  {
    e.(initial := e.step(Windowed(e.times, e.window, frame), e.initial).1)
  }

  lemma {:induction false} FirstFrame<S(!new)>(e: Engine<S>, audio: seq<real>, frame: seq<real>)
    requires WellFormed(e) && frame == (audio + Zeros(FFT_SIZE))[..FFT_SIZE]
    ensures Frame(audio, 0) == frame && Enhanced(e, audio, 0) == Pass(e, frame)
  {
    FrameIsCut(audio, 0);
  }

  /** Input of less than a frame is one frame with zeros; at most a hop of it is emitted. */
  lemma {:induction false} ShortInput<S(!new)>(e: Engine<S>, audio: seq<real>, x: seq<real>)
    requires WellFormed(e) && IsOverlapAdd(e, audio, x) && |audio| < FFT_SIZE
    ensures |x| == if |audio| < HOP_SIZE then |audio| else HOP_SIZE
    ensures x <= Pass(e, audio + Zeros(FFT_SIZE - |audio|))
  {
    var frame := audio + Zeros(FFT_SIZE - |audio|);
    assert frame == (audio + Zeros(FFT_SIZE))[..FFT_SIZE];
    FirstFrame(e, audio, frame);
    forall t | 0 <= t < |x| ensures x[t] == Pass(e, frame)[t] {
      OutputAt(e, audio, x, 0, t);
    }
  }

  // ------------------------------------------------------------ the frames after it

  lemma {:induction false} ShiftedFrame(audio: seq<real>, j: nat)
    requires |audio| >= HOP_SIZE
    ensures Frame(audio, j + 1) == Frame(audio[HOP_SIZE..], j)
  {
    forall i | 0 <= i < FFT_SIZE ensures Frame(audio, j + 1)[i] == Frame(audio[HOP_SIZE..], j)[i] {
      var t := HOP_SIZE * j + i;
      assert HOP_SIZE * (j + 1) + i == HOP_SIZE + t;
    }
  }

  lemma {:induction false} ShiftedState<S(!new)>(e: Engine<S>, audio: seq<real>, j: nat)
    requires WellFormed(e) && |audio| >= FFT_SIZE
    ensures StateAt(e, audio, j + 1) == StateAt(Next(e, audio[..FFT_SIZE]), audio[HOP_SIZE..], j)
  {
    if j == 0 {
      assert audio[..FFT_SIZE] == (audio + Zeros(FFT_SIZE))[..FFT_SIZE];
      FirstFrame(e, audio, audio[..FFT_SIZE]);
      assert StateAt(e, audio, 0) == e.initial;
    } else {
      ShiftedState(e, audio, j - 1);
      ShiftedFrame(audio, j - 1);
    }
  }

  lemma {:induction false} ShiftedEnhanced<S(!new)>(e: Engine<S>, audio: seq<real>, j: nat)
    requires WellFormed(e) && |audio| >= FFT_SIZE
    ensures Enhanced(e, audio, j + 1) == Enhanced(Next(e, audio[..FFT_SIZE]), audio[HOP_SIZE..], j)
  {
    ShiftedFrame(audio, j);
    ShiftedState(e, audio, j);
  }

  lemma {:induction false} ShiftedSample<S(!new)>(e: Engine<S>, audio: seq<real>, j: nat, i: nat)
    requires WellFormed(e) && |audio| >= FFT_SIZE && i < HOP_SIZE
    ensures Sample(e, audio, j + 2, i) == Sample(Next(e, audio[..FFT_SIZE]), audio[HOP_SIZE..], j + 1, i)
  {
    ShiftedEnhanced(e, audio, j);
    ShiftedEnhanced(e, audio, j + 1);
  }

  lemma {:induction false} FirstSamples<S(!new)>(e: Engine<S>, audio: seq<real>, i: nat)
    requires WellFormed(e) && |audio| >= FFT_SIZE && i < HOP_SIZE
    ensures
      var frame := audio[..FFT_SIZE];
      && Sample(e, audio, 0, i) == Pass(e, frame)[i]
      && Sample(e, audio, 1, i) == Sample(Next(e, frame), audio[HOP_SIZE..], 0, i) + Pass(e, frame)[HOP_SIZE + i]
  {
    var frame := audio[..FFT_SIZE];
    assert frame == (audio + Zeros(FFT_SIZE))[..FFT_SIZE];
    FirstFrame(e, audio, frame);
    ShiftedEnhanced(e, audio, 0);
  }

  lemma {:induction false} RestSize(size: nat)
    requires size >= FFT_SIZE
    ensures OutputSize(size - HOP_SIZE) >= HOP_SIZE && OutputSize(size) == HOP_SIZE + OutputSize(size - HOP_SIZE)
  {
  }

  lemma {:induction false} LaterSample<S(!new)>(e: Engine<S>, audio: seq<real>, x: seq<real>, rest: seq<real>, t: nat)
    requires WellFormed(e) && IsOverlapAdd(e, audio, x) && |audio| >= FFT_SIZE
    requires IsOverlapAdd(Next(e, audio[..FFT_SIZE]), audio[HOP_SIZE..], rest)
    requires FFT_SIZE <= t < |x| && t - HOP_SIZE < |rest|
    ensures x[t] == rest[t - HOP_SIZE]
  {
    var j, i := HopOf(t - FFT_SIZE);
    ShiftedSample(e, audio, j, i);
    OutputAt(e, audio, x, j + 2, i);
    OutputAt(Next(e, audio[..FFT_SIZE]), audio[HOP_SIZE..], rest, j + 1, i);
  }

  /** Input of a frame or more: the first half of the first frame is emitted as it is, its second half is added to
      the first hop of what the rest of the input gives from the state that the frame left, and the remaining hops
      are those of the rest. With `ShortInput` this determines the output for every network and every input. */
  lemma {:induction false} LongInput<S(!new)>(e: Engine<S>, audio: seq<real>, x: seq<real>, rest: seq<real>)
    requires WellFormed(e) && IsOverlapAdd(e, audio, x) && |audio| >= FFT_SIZE
    requires IsOverlapAdd(Next(e, audio[..FFT_SIZE]), audio[HOP_SIZE..], rest)
    ensures |rest| >= HOP_SIZE && |x| == HOP_SIZE + |rest|
    ensures
      var first := Pass(e, audio[..FFT_SIZE]);
      && (forall i :: 0 <= i < HOP_SIZE ==> x[i] == first[i])
      && (forall i :: 0 <= i < HOP_SIZE ==> x[HOP_SIZE + i] == rest[i] + first[HOP_SIZE + i])
      && x[FFT_SIZE..] == rest[HOP_SIZE..]
  {
    var next, later := Next(e, audio[..FFT_SIZE]), audio[HOP_SIZE..];
    RestSize(|audio|);
    forall i | 0 <= i < HOP_SIZE
      ensures x[i] == Pass(e, audio[..FFT_SIZE])[i]
      ensures x[HOP_SIZE + i] == rest[i] + Pass(e, audio[..FFT_SIZE])[HOP_SIZE + i]
    {
      FirstSamples(e, audio, i);
      OutputAt(e, audio, x, 0, i);
      OutputAt(e, audio, x, 1, i);
      OutputAt(next, later, rest, 0, i);
    }
    forall t | FFT_SIZE <= t < |x| ensures x[t] == rest[t - HOP_SIZE] {
      LaterSample(e, audio, x, rest, t);
    }
  }
}
