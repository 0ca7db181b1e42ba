/** The shared analysis pass and the artifact report it feeds. */
module ArtifactReport {
  import opened Wrappers
  import opened Frames
  import opened Artifacts

  datatype Audio = Audio(rate: nat, channels: seq<seq<real>>)

  datatype Observations = Observations(
    musical: real, energy: real, levels: seq<(real, real)>, refFlux: seq<real>, testFlux: seq<real>,
    phaseError: real, phaseWeight: real)

  datatype Report = Report(musical: real, pumping: real, transient: real, phase: Option<real>)

  datatype PairError = ZeroRate | NoChannels | UnequalChannels | NoFrames | RatesDiffer | ChannelsDiffer | FramesDiffer

  // ------------------------------------------------------------ the pair

  function Shape(a: Audio): Result<nat, PairError> {
    if a.rate == 0 then Err(ZeroRate)
    else if a.channels == [] then Err(NoChannels)
    else if exists c :: 0 <= c < |a.channels| && |a.channels[c]| != |a.channels[0]| then Err(UnequalChannels)
    else if |a.channels[0]| == 0 then Err(NoFrames)
    else Ok(|a.channels[0]|)
  }

  function ValidatePair(reference: Audio, test: Audio): Result<nat, PairError> {
    if Shape(reference).Err? then Shape(reference)
    else if Shape(test).Err? then Shape(test)
    else if reference.rate != test.rate then Err(RatesDiffer)
    else if |reference.channels| != |test.channels| then Err(ChannelsDiffer)
    else if Shape(reference).value != Shape(test).value then Err(FramesDiffer)
    else Shape(reference)
  }

  function ColumnSum(channels: seq<seq<real>>, i: nat): real
    requires forall c :: 0 <= c < |channels| ==> i < |channels[c]|
  {
    if channels == [] then 0.0 else channels[0][i] + ColumnSum(channels[1..], i)
  }

  /** The mean of the channels. */
  function Downmix(a: Audio, n: nat): (r: seq<real>)
    requires a.channels != [] && forall c :: 0 <= c < |a.channels| ==> n <= |a.channels[c]|
    ensures |r| == n
  {
    if n == 0 then [] else Downmix(a, n - 1) + [ColumnSum(a.channels, n - 1) / |a.channels| as real]
  }

  // ------------------------------------------------------------ one frame

  /** The frame from `start`, weighted by the window; beyond the end the signal is silent. */
  function Windowed(signal: seq<real>, start: nat, window: seq<real>): (r: seq<real>)
    ensures |r| == |window|
  {
    if window == [] then []
    else
      var n := |window| - 1;
      Windowed(signal, start, window[..n]) + [(if start + n < |signal| then signal[start + n] else 0.0) * window[n]]
  }

  function Spectrum(t: Tools, signal: seq<real>, start: nat, size: nat): seq<Complex> {
    t.forward(Windowed(signal, start, t.window(size)))
  }

  /** The magnitudes of the first `n` bins. */
  function Magnitudes(spectrum: seq<Complex>, n: nat, hypot: (real, real) -> real): (r: seq<real>)
    requires n <= |spectrum|
    ensures |r| == n
  {
    if n == 0 then [] else Magnitudes(spectrum, n - 1, hypot) + [hypot(spectrum[n - 1].re, spectrum[n - 1].im)]
  }

  function SquareSum(a: seq<real>): real {
    if a == [] then 0.0 else a[0] * a[0] + SquareSum(a[1..])
  }

  function FrameRms(signal: seq<real>, start: nat, size: nat, root: real -> real): real {
    var end := Min(start + size, |signal|);
    if start >= end then 0.0 else root(SquareSum(signal[start..end]) / (end - start) as real)
  }

  /** What the pass reads of one frame. */
  datatype View = View(reference: seq<real>, test: seq<real>, levels: (real, real), phase: (real, real))

  ghost predicate Analyses(t: Tools, reference: Audio, test: Audio) {
    Usable(t) && |reference.channels| == |test.channels|
  }

  function StereoAt(t: Tools, a: Audio, start: nat, size: nat): Stereo
    requires |a.channels| == 2
  {
    Stereo(Spectrum(t, a.channels[0], start, size), Spectrum(t, a.channels[1], start, size))
  }

  ghost function PhaseAt(t: Tools, reference: Audio, test: Audio, start: nat, size: nat): (real, real)
    requires Analyses(t, reference, test)
  {
    if |reference.channels| == 2 then PhaseSums(StereoAt(t, reference, start, size), StereoAt(t, test, start, size),
                                                size / 2, t.hypot)
    else (0.0, 0.0)
  }

  ghost function ViewAt(t: Tools, reference: Audio, test: Audio, refMix: seq<real>, testMix: seq<real>, start: nat,
          size: nat): View
    requires Analyses(t, reference, test) && size > 0
  {
    View(Magnitudes(Spectrum(t, refMix, start, size), size / 2 + 1, t.hypot),
         Magnitudes(Spectrum(t, testMix, start, size), size / 2 + 1, t.hypot),
         (FrameRms(refMix, start, size, t.root), FrameRms(testMix, start, size, t.root)),
         PhaseAt(t, reference, test, start, size))
  }

  // ------------------------------------------------------------ the pass

  const EMPTY: Observations := Observations(0.0, 0.0, [], [], [], 0.0, 0.0)

  predicate Sound(v: View) {
    |v.reference| == |v.test| >= 2
  }

  predicate AllSound(views: seq<View>) {
    forall n :: 0 <= n < |views| ==> Sound(views[n])
  }

  /** Adds a frame; the first one has no flux. */
  function Add(o: Observations, v: View, previous: Option<View>): Observations
    requires Sound(v)
  {
    var (refFlux, testFlux) := match previous
      case None => (0.0, 0.0)
      case Some(p) => (Flux(v.reference, p.reference), Flux(v.test, p.test));
    Observations(
      o.musical + MusicalExcess(v.reference, v.test, |v.test| - 1),
      o.energy + SpectralEnergy(v.test, |v.test|),
      o.levels + [v.levels], o.refFlux + [refFlux], o.testFlux + [testFlux],
      o.phaseError + v.phase.0, o.phaseWeight + v.phase.1)
  }

  function Observed(views: seq<View>): Observations
    requires AllSound(views)
  {
    if views == [] then EMPTY
    else
      var n := |views| - 1;
      Add(Observed(views[..n]), views[n], if n == 0 then None else Some(views[n - 1]))
  }

  /** The excess of one frame, bin by bin. */
  method FrameExcess(reference: seq<real>, test: seq<real>) returns (excess: real, energy: real)
    requires |reference| == |test| >= 2
    ensures excess == MusicalExcess(reference, test, |test| - 1) && energy == SpectralEnergy(test, |test|)
  {
    excess := 0.0;
    for k := 1 to |test| - 1
      invariant excess == MusicalExcess(reference, test, k)
    {
      excess := excess + ExcessAt(reference, test, k);
    }
    energy := 0.0;
    for k := 0 to |test|
      invariant energy == SpectralEnergy(test, k)
    {
      energy := energy + Power(test[k]);
    }
  }

  method AnalyseFrame(t: Tools, reference: Audio, test: Audio, refMix: seq<real>, testMix: seq<real>, start: nat,
          size: nat)
    returns (v: View)
    requires Analyses(t, reference, test) && size > 1
    ensures Sound(v) && v == ViewAt(t, reference, test, refMix, testMix, start, size)
  {
    var magnitude := Magnitudes(Spectrum(t, refMix, start, size), size / 2 + 1, t.hypot);
    var testMagnitude := Magnitudes(Spectrum(t, testMix, start, size), size / 2 + 1, t.hypot);
    var levels := (FrameRms(refMix, start, size, t.root), FrameRms(testMix, start, size, t.root));
    var error, weight := 0.0, 0.0;
    if |reference.channels| == 2 {
      error, weight := PhaseErrorForFrame(StereoAt(t, reference, start, size), StereoAt(t, test, start, size), t.hypot);
    }
    v := View(magnitude, testMagnitude, levels, (error, weight));
  }

  method AddFrame(o: Observations, v: View, previous: Option<View>) returns (r: Observations)
    requires Sound(v)
    ensures r == Add(o, v, previous)
  {
    var refFlux, testFlux := 0.0, 0.0;
    if previous.Some? {
      refFlux, testFlux := Flux(v.reference, previous.value.reference), Flux(v.test, previous.value.test);
    }
    var excess, energy := FrameExcess(v.reference, v.test);
    r := Observations(o.musical + excess, o.energy + energy, o.levels + [v.levels], o.refFlux + [refFlux],
                      o.testFlux + [testFlux],
                      o.phaseError + v.phase.0, o.phaseWeight + v.phase.1);
  }

  /** The views of a pass: one for every frame start. */
  ghost predicate IsPass(t: Tools, reference: Audio, test: Audio, refMix: seq<real>, testMix: seq<real>,
          starts: seq<nat>, views: seq<View>)
    requires Analyses(t, reference, test)
  {
    var frames := Min(|refMix|, |testMix|);
    var size := ArtifactFrameSize(frames);
    && size > 1 && Starts(starts, size / 2) && |views| == |starts| == FrameCount(frames, size, size / 2)
    && AreViews(t, reference, test, refMix, testMix, starts, size, views)
  }

  ghost predicate AreViews(t: Tools, reference: Audio, test: Audio, refMix: seq<real>, testMix: seq<real>,
          starts: seq<nat>, size: nat, views: seq<View>)
    requires Analyses(t, reference, test) && size > 1
  {
    |views| <= |starts| && forall n :: 0 <= n < |views| ==>
        views[n] == ViewAt(t, reference, test, refMix, testMix, starts[n], size)
  }

  lemma {:induction false} ObserveOneMore(views: seq<View>, v: View)
    requires AllSound(views) && Sound(v)
    ensures AllSound(views + [v])
    ensures Observed(views + [v]) == Add(Observed(views), v, if views == [] then None else Some(views[|views| - 1]))
  {
    assert (views + [v])[..|views|] == views;
  }

  method NextView(t: Tools, reference: Audio, test: Audio, refMix: seq<real>, testMix: seq<real>, starts: seq<nat>,
          size: nat, n: nat, ghost views: seq<View>)
    returns (v: View)
    requires Analyses(t, reference, test) && size > 1
        && AreViews(t, reference, test, refMix, testMix, starts, size, views)
    requires |views| == n < |starts|
    ensures Sound(v) && AreViews(t, reference, test, refMix, testMix, starts, size, views + [v])
  {
    v := AnalyseFrame(t, reference, test, refMix, testMix, starts[n], size);
  }

  /** The pass over the frames that start at `starts`. */
  method CollectFrames(t: Tools, reference: Audio, test: Audio, refMix: seq<real>, testMix: seq<real>,
          starts: seq<nat>, size: nat)
    returns (o: Observations, ghost views: seq<View>)
    requires Analyses(t, reference, test) && size > 1
    ensures |views| == |starts| && AreViews(t, reference, test, refMix, testMix, starts, size, views)
    ensures AllSound(views) && o == Observed(views)
  {
    views, o := [], EMPTY;
    var previous: Option<View> := None;
    for n := 0 to |starts|
      invariant |views| == n && AreViews(t, reference, test, refMix, testMix, starts, size, views)
      invariant AllSound(views) && o == Observed(views)
      invariant previous == if n == 0 then None else Some(views[n - 1])
    {
      var v := NextView(t, reference, test, refMix, testMix, starts, size, n, views);
      o := AddFrame(o, v, previous);
      ObserveOneMore(views, v);
      views := views + [v];
      previous := Some(v);
    }
  }

  /** The observations of a whole pass. */
  ghost predicate Observes(t: Tools, reference: Audio, test: Audio, refMix: seq<real>, testMix: seq<real>,
          o: Observations)
    requires Analyses(t, reference, test)
  {
    exists starts, views ::
      IsPass(t, reference, test, refMix, testMix, starts, views) && AllSound(views) && o == Observed(views)
  }

  lemma {:induction false} ByPass(t: Tools, reference: Audio, test: Audio, refMix: seq<real>, testMix: seq<real>,
          starts: seq<nat>, views: seq<View>)
    requires Analyses(t, reference, test)
    requires IsPass(t, reference, test, refMix, testMix, starts, views) && AllSound(views)
    ensures Observes(t, reference, test, refMix, testMix, Observed(views))
  {
  }

  /** Collects all observations in one pass over the frames. */
  method Collect(t: Tools, reference: Audio, test: Audio, refMix: seq<real>, testMix: seq<real>)
    returns (o: Observations, ghost starts: seq<nat>, ghost views: seq<View>)
    requires Analyses(t, reference, test)
    ensures IsPass(t, reference, test, refMix, testMix, starts, views) && AllSound(views) && o == Observed(views)
    ensures Observes(t, reference, test, refMix, testMix, o)
  {
    var frames := Min(|refMix|, |testMix|);
    FrameSizeIsPower(frames);
    var size := ArtifactFrameSize(frames);
    var places := FrameStarts(frames, size, size / 2);
    starts := places;
    o, views := CollectFrames(t, reference, test, refMix, testMix, places, size);
    ByPass(t, reference, test, refMix, testMix, starts, views);
  }

  // ------------------------------------------------------------ what the observations keep

  /** Silence is never below zero, and the phase error of a frame is part of its weight. */
  ghost predicate Plausible(v: View) {
    && Sound(v)
    && (forall i :: 0 <= i < |v.reference| ==> v.reference[i] >= 0.0 && v.test[i] >= 0.0)
    && 0.0 <= v.phase.0 <= v.phase.1
  }

  ghost predicate Equal(v: View) {
    v.reference == v.test && v.levels.0 == v.levels.1 && v.phase.0 == 0.0
  }

  lemma {:induction false} SumIsNonNegative(a: seq<real>)
    requires forall i :: 0 <= i < |a| ==> a[i] >= 0.0
    ensures Sum(a) >= 0.0
  {
    if a != [] {
      SumIsNonNegative(a[1..]);
    }
  }

  ghost predicate AllPlausible(views: seq<View>) {
    forall n :: 0 <= n < |views| ==> Plausible(views[n])
  }

  ghost predicate AllEqual(views: seq<View>) {
    forall n :: 0 <= n < |views| ==> Equal(views[n])
  }

  /** Over all frames the excess is part of the energy and the phase error part of its weight. */
  lemma {:induction false} SharesHold(views: seq<View>)
    requires AllSound(views) && AllPlausible(views)
    ensures 0.0 <= Observed(views).musical <= Observed(views).energy
    ensures 0.0 <= Observed(views).phaseError <= Observed(views).phaseWeight
    ensures AllEqual(views) ==> Observed(views).musical == 0.0 && Observed(views).phaseError == 0.0
  {
    if views != [] {
      var v := views[|views| - 1];
      SharesHold(views[..|views| - 1]);
      MusicalWithin(v.reference, v.test, |v.test| - 1);
      EnergyGrows(v.test, |v.test| - 1, |v.test|);
    }
  }

  lemma {:induction false} FluxesHold(views: seq<View>)
    requires AllSound(views)
    ensures |Observed(views).refFlux| == |Observed(views).testFlux| == |Observed(views).levels| == |views|
    ensures forall n :: 0 <= n < |views| ==> Observed(views).refFlux[n] >= 0.0 && Observed(views).testFlux[n] >= 0.0
    ensures forall n :: 0 <= n < |views| ==> Observed(views).levels[n] == views[n].levels
  {
    if views != [] {
      FluxesHold(views[..|views| - 1]);
    }
  }

  /** Against itself a recording has the same fluxes. */
  lemma {:induction false} FluxesEqual(views: seq<View>)
    requires AllSound(views) && AllEqual(views)
    ensures Observed(views).refFlux == Observed(views).testFlux
  {
    if views != [] {
      FluxesEqual(views[..|views| - 1]);
    }
  }

  lemma {:induction false} MagnitudesNonNegative(spectrum: seq<Complex>, n: nat, hypot: (real, real) -> real)
    requires n <= |spectrum| && IsHypot(hypot)
    ensures forall i :: 0 <= i < n ==> Magnitudes(spectrum, n, hypot)[i] >= 0.0
  {
    if n > 0 {
      assert HypotAt(hypot, spectrum[n - 1].re, spectrum[n - 1].im);
      MagnitudesNonNegative(spectrum, n - 1, hypot);
    }
  }

  lemma {:induction false} ViewIsPlausible(t: Tools, reference: Audio, test: Audio, refMix: seq<real>,
          testMix: seq<real>, start: nat, size: nat)
    requires Analyses(t, reference, test) && size > 1
    ensures Plausible(ViewAt(t, reference, test, refMix, testMix, start, size))
    ensures reference == test && refMix == testMix ==> Equal(ViewAt(t, reference, test, refMix, testMix, start, size))
  {
    MagnitudesNonNegative(Spectrum(t, refMix, start, size), size / 2 + 1, t.hypot);
    MagnitudesNonNegative(Spectrum(t, testMix, start, size), size / 2 + 1, t.hypot);
    if |reference.channels| == 2 {
      PhaseWithin(StereoAt(t, reference, start, size), StereoAt(t, test, start, size), size / 2, t.hypot);
    }
  }

  // ------------------------------------------------------------ the report

  function Scores(o: Observations, stereo: bool, log10: real -> real): Report
    requires |o.refFlux| == |o.testFlux|
  {
    Report(NormalizedScore(o.musical, o.energy), Pumping(o.levels, log10), TransientLoss(o.refFlux, o.testFlux),
           if stereo then Some(NormalizedScore(o.phaseError, o.phaseWeight)) else None)
  }

  /** The report of a valid pair. */
  method Compare(t: Tools, reference: Audio, test: Audio)
    returns (r: Result<Report, PairError>, ghost starts: seq<nat>, ghost views: seq<View>)
    requires Usable(t)
    ensures r.Err? <==> ValidatePair(reference, test).Err?
    ensures r.Err? ==> ValidatePair(reference, test) == Err(r.error)
    ensures r.Ok? ==>
      && var n := |reference.channels[0]|;
      && Comparable(reference, test)
          && IsPass(t, reference, test, Downmix(reference, n), Downmix(test, n), starts, views)
      && AllSound(views) && |Observed(views).refFlux| == |Observed(views).testFlux|
      && r.value == Scores(Observed(views), |reference.channels| == 2, t.log10)
  {
    starts, views := [], [];
    var valid := ValidatePair(reference, test);
    if valid.Err? {
      return Err(valid.error), starts, views;
    }
    ValidIsComparable(reference, test);
    var refMix, testMix := Downmix(reference, valid.value), Downmix(test, valid.value);
    var o;
    o, starts, views := Collect(t, reference, test, refMix, testMix);
    FluxesHold(views);
    var report := Summarize(o, |reference.channels| == 2, t.log10);
    r := Ok(report);
  }

  method Summarize(o: Observations, stereo: bool, log10: real -> real) returns (r: Report)
    requires |o.refFlux| == |o.testFlux|
    ensures r == Scores(o, stereo, log10)
  {
    var musical := NormalizedScore(o.musical, o.energy);
    var pumping := PumpingScore(o.levels, log10);
    var transient := TransientLossScore(o.refFlux, o.testFlux);
    r := Report(musical, pumping, transient, if stereo then Some(NormalizedScore(o.phaseError, o.phaseWeight))
                else None);
  }

  /** Two recordings with as many channels, all of one positive length. */
  ghost predicate Comparable(reference: Audio, test: Audio) {
    && reference.channels != [] && |reference.channels| == |test.channels| && |reference.channels[0]| > 0
    && (forall c :: 0 <= c < |reference.channels| ==> |reference.channels[c]| == |reference.channels[0]|)
    && forall c :: 0 <= c < |test.channels| ==> |test.channels[c]| == |reference.channels[0]|
  }

  lemma {:induction false} ValidIsComparable(reference: Audio, test: Audio)
    requires ValidatePair(reference, test).Ok?
    ensures Comparable(reference, test) && ValidatePair(reference, test).value == |reference.channels[0]|
  {
  }

  lemma {:induction false} ViewsArePlausible(t: Tools, reference: Audio, test: Audio, refMix: seq<real>,
          testMix: seq<real>, starts: seq<nat>, size: nat, views: seq<View>)
    requires Analyses(t, reference, test) && size > 1
        && AreViews(t, reference, test, refMix, testMix, starts, size, views)
    ensures AllPlausible(views) && AllSound(views)
    ensures reference == test && refMix == testMix ==> AllEqual(views)
  {
    forall n: nat | n < |views|
      ensures Plausible(views[n]) && (reference == test && refMix == testMix ==> Equal(views[n]))
    {
      assert views[n] == ViewAt(t, reference, test, refMix, testMix, starts[n], size);
      ViewIsPlausible(t, reference, test, refMix, testMix, starts[n], size);
    }
  }

  /** A score that is the plain quotient: its clamp never acts. */
  predicate IsShare(score: real, part: real, whole: real) {
    0.0 <= part <= whole && score == if whole <= TINY then 0.0 else part / whole
  }

  /** The scores of any pass are shares of a whole. */
  lemma {:induction false} ScoresAreShares(t: Tools, reference: Audio, test: Audio, refMix: seq<real>,
          testMix: seq<real>, starts: seq<nat>, views: seq<View>)
    requires Analyses(t, reference, test) && IsPass(t, reference, test, refMix, testMix, starts, views)
    ensures AllSound(views) && |Observed(views).refFlux| == |Observed(views).testFlux|
    ensures IsShare(Scores(Observed(views), true, t.log10).musical, Observed(views).musical, Observed(views).energy)
    ensures IsShare(Scores(Observed(views), true, t.log10).phase.value, Observed(views).phaseError,
                    Observed(views).phaseWeight)
    ensures var (loss, weight) := LossSums(Observed(views).refFlux, Observed(views).testFlux,
                                           Threshold(Observed(views).refFlux), |Observed(views).refFlux|);
            IsShare(Scores(Observed(views), true, t.log10).transient, loss, weight)
  {
    ViewsArePlausible(t, reference, test, refMix, testMix, starts, ArtifactFrameSize(Min(|refMix|, |testMix|)), views);
    SharesHold(views);
    FluxesHold(views);
    ObservedShares(Observed(views), t.log10);
  }

  lemma {:induction false} ObservedShares(o: Observations, log10: real -> real)
    requires 0.0 <= o.musical <= o.energy && 0.0 <= o.phaseError <= o.phaseWeight && |o.refFlux| == |o.testFlux|
    requires forall n :: 0 <= n < |o.testFlux| ==> o.testFlux[n] >= 0.0
    ensures IsShare(Scores(o, true, log10).musical, o.musical, o.energy)
    ensures IsShare(Scores(o, true, log10).phase.value, o.phaseError, o.phaseWeight)
    ensures var (loss, weight) := LossSums(o.refFlux, o.testFlux, Threshold(o.refFlux), |o.refFlux|);
            && IsShare(Scores(o, true, log10).transient, loss, weight)
            && (o.refFlux == o.testFlux ==> loss == 0.0)
  {
    ClampIsIdle(o.musical, o.energy);
    ClampIsIdle(o.phaseError, o.phaseWeight);
    LossWithin(o.refFlux, o.testFlux, Threshold(o.refFlux), |o.refFlux|);
    var (loss, weight) := LossSums(o.refFlux, o.testFlux, Threshold(o.refFlux), |o.refFlux|);
    ClampIsIdle(loss, weight);
  }

  /** A recording compared with itself has no artifacts. */
  lemma {:induction false} SelfComparisonIsZero(t: Tools, a: Audio, mix: seq<real>, starts: seq<nat>,
          views: seq<View>, stereo: bool)
    requires Analyses(t, a, a) && IsPass(t, a, a, mix, mix, starts, views)
    ensures AllSound(views) && |Observed(views).refFlux| == |Observed(views).testFlux|
    ensures Scores(Observed(views), stereo, t.log10) == Report(0.0, 0.0, 0.0, if stereo then Some(0.0) else None)
  {
    ViewsArePlausible(t, a, a, mix, mix, starts, ArtifactFrameSize(|mix|), views);
    SharesHold(views);
    FluxesHold(views);
    FluxesEqual(views);
    forall n | 0 <= n < |views| ensures Observed(views).levels[n].0 == Observed(views).levels[n].1 {
      assert Equal(views[n]);
    }
    ZeroScores(Observed(views), t.log10, stereo);
  }

  lemma {:induction false} ZeroScores(o: Observations, log10: real -> real, stereo: bool)
    requires 0.0 == o.musical <= o.energy && 0.0 == o.phaseError <= o.phaseWeight && o.refFlux == o.testFlux
    requires forall n :: 0 <= n < |o.testFlux| ==> o.testFlux[n] >= 0.0
    requires forall n :: 0 <= n < |o.levels| ==> o.levels[n].0 == o.levels[n].1
    ensures Scores(o, stereo, log10) == Report(0.0, 0.0, 0.0, if stereo then Some(0.0) else None)
  {
    ClampIsIdle(o.musical, o.energy);
    ClampIsIdle(o.phaseError, o.phaseWeight);
    LossWithin(o.refFlux, o.testFlux, Threshold(o.refFlux), |o.refFlux|);
    var (loss, weight) := LossSums(o.refFlux, o.testFlux, Threshold(o.refFlux), |o.refFlux|);
    ClampIsIdle(loss, weight);
    NoPumpingScore(o.levels, log10);
  }
}
