/** What the artifact report says of two recordings: which frames and bins each score comes from, what is read of a
    frame, and when a score is greatest. */
module Reporting {
  import opened Artifacts
  import opened ArtifactReport
  import Frames
  import opened Detection

  // ------------------------------------------------------------ what is read of a frame

  /** A sample of a windowed frame; past the end the signal is silent. */
  lemma {:induction false} WindowedAt(signal: seq<real>, start: nat, window: seq<real>, i: nat)
    requires i < |window|
    ensures Windowed(signal, start, window)[i]
            == (if start + i < |signal| then signal[start + i] else 0.0) * window[i]
  {
    if i < |window| - 1 {
      WindowedAt(signal, start, window[..|window| - 1], i);
    }
  }

  /** The magnitude of a bin is the root of its power. */
  lemma {:induction false} MagnitudeAt(spectrum: seq<Complex>, n: nat, hypot: (real, real) -> real, k: nat)
    requires k < n <= |spectrum| && IsHypot(hypot)
    ensures Magnitudes(spectrum, n, hypot)[k] >= 0.0
    ensures Magnitudes(spectrum, n, hypot)[k] * Magnitudes(spectrum, n, hypot)[k] == SquareOf(spectrum[k])
  {
    if k < n - 1 {
      MagnitudeAt(spectrum, n - 1, hypot, k);
    } else {
      assert HypotAt(hypot, spectrum[k].re, spectrum[k].im);
    }
  }

  function ChannelSum(channels: seq<seq<real>>, i: nat, n: nat): real
    requires n <= |channels| && forall c :: 0 <= c < |channels| ==> i < |channels[c]|
  {
    if n == 0 then 0.0 else ChannelSum(channels, i, n - 1) + channels[n - 1][i]
  }

  lemma {:induction false} FirstChannel(channels: seq<seq<real>>, i: nat, n: nat)
    requires 0 < n <= |channels| && forall c :: 0 <= c < |channels| ==> i < |channels[c]|
    ensures ChannelSum(channels, i, n) == channels[0][i] + ChannelSum(channels[1..], i, n - 1)
  {
    if n > 1 {
      FirstChannel(channels, i, n - 1);
    }
  }

  lemma {:induction false} ColumnIs(channels: seq<seq<real>>, i: nat)
    requires forall c :: 0 <= c < |channels| ==> i < |channels[c]|
    ensures ColumnSum(channels, i) == ChannelSum(channels, i, |channels|)
  {
    if channels != [] {
      FirstChannel(channels, i, |channels|);
      ColumnIs(channels[1..], i);
    }
  }

  /** A sample of the downmix times the number of channels is the sum of their samples. */
  lemma {:induction false} DownmixAt(a: Audio, n: nat, i: nat)
    requires i < n && a.channels != [] && forall c :: 0 <= c < |a.channels| ==> n <= |a.channels[c]|
    ensures Downmix(a, n)[i] * |a.channels| as real == ChannelSum(a.channels, i, |a.channels|)
  {
    if i < n - 1 {
      DownmixAt(a, n - 1, i);
    } else {
      ColumnIs(a.channels, i);
      assert Downmix(a, n)[i] == ColumnSum(a.channels, i) / |a.channels| as real;
      Times(ColumnSum(a.channels, i), |a.channels| as real);
    }
  }

  lemma {:induction false} Times(x: real, y: real)
    requires y != 0.0
    ensures x / y * y == x
  {
  }

  function SquaresBefore(a: seq<real>, n: nat): real
    requires n <= |a|
  {
    if n == 0 then 0.0 else SquaresBefore(a, n - 1) + a[n - 1] * a[n - 1]
  }

  lemma {:induction false} FirstSquare(a: seq<real>, n: nat)
    requires 0 < n <= |a|
    ensures SquaresBefore(a, n) == a[0] * a[0] + SquaresBefore(a[1..], n - 1)
  {
    if n > 1 {
      FirstSquare(a, n - 1);
    }
  }

  lemma {:induction false} SquaresAre(a: seq<real>)
    ensures SquareSum(a) == SquaresBefore(a, |a|) >= 0.0
  {
    if a != [] {
      FirstSquare(a, |a|);
      SquaresAre(a[1..]);
      SquareIsNonNegative(a[0]);
    }
  }

  ghost predicate IsRoot(root: real -> real) {
    forall x {:trigger RootAt(root, x)} :: RootAt(root, x)
  }

  predicate RootAt(root: real -> real, x: real) {
    x >= 0.0 ==> root(x) >= 0.0 && root(x) * root(x) == x
  }

  /** The level of a frame, squared, times the number of its samples in the signal is their sum of squares. */
  lemma {:induction false} LevelIs(signal: seq<real>, start: nat, size: nat, root: real -> real)
    requires IsRoot(root) && size > 0
    ensures
      var level := FrameRms(signal, start, size, root);
      var end := if start + size <= |signal| then start + size else |signal|;
      && level >= 0.0
      && (start < |signal| ==>
          level * level * (end - start) as real == SquaresBefore(signal[start..end], end - start))
      && (start >= |signal| ==> level == 0.0)
  {
    var end := if start + size <= |signal| then start + size else |signal|;
    if start < |signal| {
      var sum, count := SquareSum(signal[start..end]), (end - start) as real;
      SquaresAre(signal[start..end]);
      QuotientIsPositive(sum, count);
      assert RootAt(root, sum / count);
      Times(sum, count);
      assert FrameRms(signal, start, size, root) == root(sum / count);
    }
  }

  /** What stands in the view of a frame: of each mix its own magnitudes and level, and of stereo recordings the phase
      sums of the inner bins. */
  lemma {:induction false} ViewIs(t: Tools, reference: Audio, test: Audio, refMix: seq<real>, testMix: seq<real>,
          start: nat, size: nat)
    requires Analyses(t, reference, test) && size > 1
    ensures
      var v := ViewAt(t, reference, test, refMix, testMix, start, size);
      && |v.reference| == |v.test| == size / 2 + 1
      && v.levels == (FrameRms(refMix, start, size, t.root), FrameRms(testMix, start, size, t.root))
      && (|reference.channels| != 2 ==> v.phase == (0.0, 0.0))
      && forall k :: 0 <= k < |v.reference| ==>
          IsMagnitude(v.reference[k], t.forward(Windowed(refMix, start, t.window(size)))[k])
          && IsMagnitude(v.test[k], t.forward(Windowed(testMix, start, t.window(size)))[k])
  {
    forall k: nat | k < size / 2 + 1
      ensures
        var v := ViewAt(t, reference, test, refMix, testMix, start, size);
        && IsMagnitude(v.reference[k], t.forward(Windowed(refMix, start, t.window(size)))[k])
        && IsMagnitude(v.test[k], t.forward(Windowed(testMix, start, t.window(size)))[k])
    {
      MagnitudeAt(Spectrum(t, refMix, start, size), size / 2 + 1, t.hypot, k);
      MagnitudeAt(Spectrum(t, testMix, start, size), size / 2 + 1, t.hypot, k);
    }
  }

  predicate IsMagnitude(m: real, c: Complex) {
    m >= 0.0 && m * m == SquareOf(c)
  }

  // ------------------------------------------------------------ the sums over the frames

  function MusicalSum(views: seq<View>, n: nat): real
    requires n <= |views| && AllSound(views)
  {
    if n == 0 then 0.0
    else MusicalSum(views, n - 1)
         + MusicalExcess(views[n - 1].reference, views[n - 1].test, |views[n - 1].test| - 1)
  }

  function EnergySum(views: seq<View>, n: nat): real
    requires n <= |views|
  {
    if n == 0 then 0.0 else EnergySum(views, n - 1) + SpectralEnergy(views[n - 1].test, |views[n - 1].test|)
  }

  function ErrorSum(views: seq<View>, n: nat): real
    requires n <= |views|
  {
    if n == 0 then 0.0 else ErrorSum(views, n - 1) + views[n - 1].phase.0
  }

  function WeightSum(views: seq<View>, n: nat): real
    requires n <= |views|
  {
    if n == 0 then 0.0 else WeightSum(views, n - 1) + views[n - 1].phase.1
  }

  lemma {:induction false} SumsOfFirst(views: seq<View>, m: nat, n: nat)
    requires n <= m <= |views| && AllSound(views)
    ensures MusicalSum(views[..m], n) == MusicalSum(views, n) && EnergySum(views[..m], n) == EnergySum(views, n)
    ensures ErrorSum(views[..m], n) == ErrorSum(views, n) && WeightSum(views[..m], n) == WeightSum(views, n)
  {
    if n > 0 {
      SumsOfFirst(views, m, n - 1);
    }
  }

  /** The pass sums excess and energy, phase error and weight over all frames. */
  lemma {:induction false} ObservedSums(views: seq<View>)
    requires AllSound(views)
    ensures Observed(views).musical == MusicalSum(views, |views|)
    ensures Observed(views).energy == EnergySum(views, |views|)
    ensures Observed(views).phaseError == ErrorSum(views, |views|)
    ensures Observed(views).phaseWeight == WeightSum(views, |views|)
  {
    if views != [] {
      var n := |views| - 1;
      ObservedSums(views[..n]);
      SumsOfFirst(views, n, n);
    }
  }

  /** The flux of a frame is taken over the frame before, for each recording its own; the first frame has none. */
  lemma {:induction false} ObservedFlux(views: seq<View>, n: nat)
    requires AllSound(views) && n < |views|
    ensures |Observed(views).refFlux| == |Observed(views).testFlux| == |views|
    ensures n == 0 ==> Observed(views).refFlux[n] == Observed(views).testFlux[n] == 0.0
    ensures n > 0 ==> Observed(views).refFlux[n] == Flux(views[n].reference, views[n - 1].reference)
    ensures n > 0 ==> Observed(views).testFlux[n] == Flux(views[n].test, views[n - 1].test)
  {
    FluxesHold(views);
    FluxesHold(views[..|views| - 1]);
    if n < |views| - 1 {
      ObservedFlux(views[..|views| - 1], n);
    }
  }

  // ------------------------------------------------------------ where the scores come from

  ghost predicate Sounds(v: View, k: nat)
    requires Sound(v)
  {
    SoundsAt(v.reference, v.test, k)
  }

  ghost predicate SoundsIn(views: seq<View>, n: nat)
    requires AllSound(views)
  {
    n < |views| && exists k: nat :: Sounds(views[n], k)
  }

  lemma {:induction false} BinEnergy(v: View, k: nat)
    requires Sound(v) && Sounds(v, k)
    ensures SpectralEnergy(v.test, |v.test|) > TINY
  {
    ExcessIs(v.reference, v.test, k);
    SurroundingsArePositive(v.test, k);
    EnergyGrows(v.test, 0, k);
    EnergyGrows(v.test, k + 1, |v.test|);
  }

  lemma {:induction false} MusicalSumIff(views: seq<View>, n: nat)
    requires n <= |views| && AllSound(views)
    ensures MusicalSum(views, n) >= 0.0 && EnergySum(views, n) >= 0.0
    ensures MusicalSum(views, n) > 0.0 <==> exists m: nat :: m < n && SoundsIn(views, m)
    ensures MusicalSum(views, n) > 0.0 ==> EnergySum(views, n) > TINY
  {
    if n > 0 {
      var v := views[n - 1];
      MusicalSumIff(views, n - 1);
      MusicalIff(v.reference, v.test, |v.test| - 1);
      EnergyGrows(v.test, 0, |v.test|);
      FrameSounds(views, n - 1);
      if m: nat :| m < n && SoundsIn(views, m) {
        assert m < n - 1 || m == n - 1;
      }
    }
  }

  lemma {:induction false} FrameSounds(views: seq<View>, n: nat)
    requires n < |views| && AllSound(views)
    ensures SoundsIn(views, n) <==>
            exists k: nat :: k < |views[n].test| - 1 && SoundsAt(views[n].reference, views[n].test, k)
    ensures SoundsIn(views, n) ==> SpectralEnergy(views[n].test, |views[n].test|) > TINY
  {
    if k: nat :| Sounds(views[n], k) {
      BinEnergy(views[n], k);
    }
    if k: nat :| k < |views[n].test| - 1 && SoundsAt(views[n].reference, views[n].test, k) {
      assert Sounds(views[n], k);
    }
  }

  /** The musical-noise score is positive exactly when some inner bin of some frame has an excess. */
  lemma {:induction false} MusicalScoreIff(views: seq<View>)
    requires AllSound(views)
    ensures NormalizedScore(Observed(views).musical, Observed(views).energy) > 0.0 <==>
            exists n: nat :: SoundsIn(views, n)
  {
    ObservedSums(views);
    MusicalSumIff(views, |views|);
    if EnergySum(views, |views|) > TINY {
      ScoreOf(MusicalSum(views, |views|), EnergySum(views, |views|));
    }
  }

  /** The phase sums of every frame are plausible: no negative weight, and none below the silence limit but zero. */
  predicate Weighs(v: View) {
    0.0 <= v.phase.0 <= v.phase.1 && (v.phase.1 > 0.0 ==> v.phase.1 > SMALL)
  }

  lemma {:induction false} PhaseSumIff(views: seq<View>, n: nat)
    requires n <= |views| && forall m :: 0 <= m < |views| ==> Weighs(views[m])
    ensures 0.0 <= ErrorSum(views, n) <= WeightSum(views, n)
    ensures ErrorSum(views, n) > 0.0 <==> exists m: nat :: m < n && views[m].phase.0 > 0.0
    ensures WeightSum(views, n) > 0.0 <==> exists m: nat :: m < n && views[m].phase.1 > 0.0
    ensures WeightSum(views, n) > 0.0 ==> WeightSum(views, n) > SMALL
    ensures (forall m: nat :: m < n ==> views[m].phase.0 == views[m].phase.1) ==>
            ErrorSum(views, n) == WeightSum(views, n)
  {
    if n > 0 {
      PhaseSumIff(views, n - 1);
      assert Weighs(views[n - 1]);
      if m: nat :| m < n && views[m].phase.0 > 0.0 {
        assert m < n - 1 || m == n - 1;
      }
      if m: nat :| m < n && views[m].phase.1 > 0.0 {
        assert m < n - 1 || m == n - 1;
      }
    }
  }

  /** The phase score is positive exactly when some frame has an error, and one when in every frame the error is the
      weight and some frame has any. */
  lemma {:induction false} PhaseScoreIs(views: seq<View>)
    requires AllSound(views) && forall m :: 0 <= m < |views| ==> Weighs(views[m])
    ensures
      var score := NormalizedScore(Observed(views).phaseError, Observed(views).phaseWeight);
      && (score > 0.0 <==> exists m: nat :: m < |views| && views[m].phase.0 > 0.0)
      && ((forall m: nat :: m < |views| ==> views[m].phase.0 == views[m].phase.1) ==>
          score == if exists m: nat :: m < |views| && views[m].phase.1 > 0.0 then 1.0 else 0.0)
  {
    ObservedSums(views);
    PhaseSumIff(views, |views|);
    if WeightSum(views, |views|) > 0.0 {
      ScoreOf(ErrorSum(views, |views|), WeightSum(views, |views|));
    }
  }

  // ------------------------------------------------------------ an inverted channel

  function Minus(v: seq<real>): (r: seq<real>)
    ensures |r| == |v| && forall i :: 0 <= i < |r| ==> r[i] == -v[i]
  {
    seq(|v|, i requires 0 <= i < |v| => -v[i])
  }

  /** The transform of the negated signal is the negated transform. */
  ghost predicate Negates(t: Tools) {
    forall v: seq<real>, k: nat :: k < |t.forward(v)| && |t.forward(Minus(v))| == |t.forward(v)| ==>
        t.forward(Minus(v))[k] == Inverted(t.forward(v)[k])
  }

  lemma {:induction false} MinusWindowed(signal: seq<real>, start: nat, window: seq<real>)
    ensures Windowed(Minus(signal), start, window) == Minus(Windowed(signal, start, window))
  {
    forall i | 0 <= i < |window|
      ensures Windowed(Minus(signal), start, window)[i] == -Windowed(signal, start, window)[i]
    {
      WindowedAt(signal, start, window, i);
      WindowedAt(Minus(signal), start, window, i);
      Sign(if start + i < |signal| then signal[start + i] else 0.0, window[i]);
    }
  }

  lemma {:induction false} Sign(x: real, y: real)
    ensures -x * y == -(x * y)
  {
  }

  /** Two stereo recordings that differ in the sign of the right channel. */
  predicate InvertsChannel(reference: Audio, test: Audio) {
    |reference.channels| == 2 && test.channels == [reference.channels[0], Minus(reference.channels[1])]
  }

  lemma {:induction false} InvertedFrame(t: Tools, reference: Audio, test: Audio, start: nat, size: nat)
    requires Usable(t) && Negates(t) && InvertsChannel(reference, test)
    ensures InvertsRight(StereoAt(t, reference, start, size), StereoAt(t, test, start, size))
  {
    var window := t.window(size);
    var v := Windowed(reference.channels[1], start, window);
    MinusWindowed(reference.channels[1], start, window);
    var r, s := StereoAt(t, reference, start, size), StereoAt(t, test, start, size);
    assert |t.forward(v)| == |v| == size && |t.forward(Minus(v))| == size;
    assert s.left == r.left && s.right == t.forward(Minus(v)) && r.right == t.forward(v);
  }

  /** In some inner bin of the frame the angle between the channels has turned. */
  ghost predicate TurnsIn(t: Tools, reference: Audio, test: Audio, start: nat, size: nat)
    requires Usable(t) && |reference.channels| == |test.channels| == 2
  {
    exists k: nat :: k < size / 2 &&
        TurnsAt(StereoAt(t, reference, start, size), StereoAt(t, test, start, size), k, t.hypot)
  }

  /** Some inner bin of the frame is audible in both recordings. */
  ghost predicate AudibleIn(t: Tools, reference: Audio, test: Audio, start: nat, size: nat)
    requires Usable(t) && |reference.channels| == |test.channels| == 2
  {
    exists k: nat :: k < size / 2 &&
        AudibleAt(StereoAt(t, reference, start, size), StereoAt(t, test, start, size), k, t.hypot)
  }

  lemma {:induction false} FramePhase(t: Tools, reference: Audio, test: Audio, start: nat, size: nat)
    requires Usable(t) && |reference.channels| == |test.channels| == 2
    ensures
      var (error, weight) := PhaseAt(t, reference, test, start, size);
      && 0.0 <= error <= weight && (weight > 0.0 ==> weight > SMALL)
      && (error > 0.0 <==> TurnsIn(t, reference, test, start, size))
      && (weight > 0.0 <==> AudibleIn(t, reference, test, start, size))
  {
    PhaseWithin(StereoAt(t, reference, start, size), StereoAt(t, test, start, size), size / 2, t.hypot);
    PhaseIff(StereoAt(t, reference, start, size), StereoAt(t, test, start, size), size / 2, t.hypot);
  }

  lemma {:induction false} PassPhase(t: Tools, reference: Audio, test: Audio, refMix: seq<real>, testMix: seq<real>,
          starts: seq<nat>, size: nat, views: seq<View>, n: nat)
    requires Analyses(t, reference, test) && |reference.channels| == 2 && size > 1 && n < |views|
    requires AreViews(t, reference, test, refMix, testMix, starts, size, views)
    ensures Weighs(views[n]) && views[n].phase == PhaseAt(t, reference, test, starts[n], size)
    ensures views[n].phase.0 > 0.0 <==> TurnsIn(t, reference, test, starts[n], size)
    ensures views[n].phase.1 > 0.0 <==> AudibleIn(t, reference, test, starts[n], size)
  {
    FramePhase(t, reference, test, starts[n], size);
  }

  /** The phase score of stereo recordings is positive exactly when in some inner bin of some frame the angle between
      the channels has turned. */
  lemma {:induction false} PhaseScoreIff(t: Tools, reference: Audio, test: Audio, refMix: seq<real>,
          testMix: seq<real>, starts: seq<nat>, views: seq<View>, size: nat)
    requires Analyses(t, reference, test) && |reference.channels| == 2
    requires IsPass(t, reference, test, refMix, testMix, starts, views) && AllSound(views)
    requires size == Frames.ArtifactFrameSize(Frames.Min(|refMix|, |testMix|))
    ensures NormalizedScore(Observed(views).phaseError, Observed(views).phaseWeight) > 0.0 <==>
            exists n: nat :: n < |starts| && TurnsIn(t, reference, test, starts[n], size)
  {
    forall n: nat | n < |views|
      ensures Weighs(views[n])
      ensures views[n].phase.0 > 0.0 <==> TurnsIn(t, reference, test, starts[n], size)
    {
      PassPhase(t, reference, test, refMix, testMix, starts, size, views, n);
    }
    PhaseScoreIs(views);
  }

  lemma {:induction false} InvertedPhase(t: Tools, reference: Audio, test: Audio, start: nat, size: nat)
    requires Usable(t) && Negates(t) && InvertsChannel(reference, test)
    ensures PhaseAt(t, reference, test, start, size).0 == PhaseAt(t, reference, test, start, size).1
  {
    InvertedFrame(t, reference, test, start, size);
    InversionIsTotal(StereoAt(t, reference, start, size), StereoAt(t, test, start, size), size / 2, t.hypot);
  }

  /** With one channel inverted the phase score is one, unless no inner bin of any frame is audible. */
  lemma {:induction false} InversionScoresOne(t: Tools, reference: Audio, test: Audio, refMix: seq<real>,
          testMix: seq<real>, starts: seq<nat>, views: seq<View>, size: nat)
    requires Analyses(t, reference, test) && Negates(t) && InvertsChannel(reference, test)
    requires IsPass(t, reference, test, refMix, testMix, starts, views) && AllSound(views)
    requires size == Frames.ArtifactFrameSize(Frames.Min(|refMix|, |testMix|))
    ensures NormalizedScore(Observed(views).phaseError, Observed(views).phaseWeight) ==
            if exists n: nat :: n < |starts| && AudibleIn(t, reference, test, starts[n], size) then 1.0 else 0.0
  {
    forall n: nat | n < |views|
      ensures Weighs(views[n]) && views[n].phase.0 == views[n].phase.1
      ensures views[n].phase.1 > 0.0 <==> AudibleIn(t, reference, test, starts[n], size)
    {
      PassPhase(t, reference, test, refMix, testMix, starts, size, views, n);
      InvertedPhase(t, reference, test, starts[n], size);
    }
    PhaseScoreIs(views);
  }

  // ------------------------------------------------------------ which pairs are compared

  /** A pair is valid exactly when the rates are equal and positive and both have as many channels, at least one, all
      of one positive length. */
  lemma {:induction false} ValidIff(reference: Audio, test: Audio)
    ensures ValidatePair(reference, test).Ok? <==> reference.rate == test.rate > 0 && Comparable(reference, test)
  {
    if ValidatePair(reference, test).Ok? {
      ValidIsComparable(reference, test);
    }
  }
}
