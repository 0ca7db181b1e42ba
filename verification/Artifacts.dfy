/** The artifact scores over the reals: musical noise, transient loss, phase distortion and pumping. The Fourier
    transform, the square root, the magnitude of a complex number and the logarithm are parameters. */
module Artifacts {
  import opened Wrappers
  import opened Reals

  datatype Complex = Complex(re: real, im: real)

  const TINY: real := 0.000000000000000000000000000001
  const SMALL: real := 0.000000000001

  /** What the analysis calls; the window and the transform depend on the frame size. */
  datatype Tools = Tools(
    window: nat -> seq<real>,
    forward: seq<real> -> seq<Complex>,
    hypot: (real, real) -> real,
    root: real -> real,
    log10: real -> real)

  /** The magnitude is the non-negative root of the sum of squares. */
  ghost predicate IsHypot(hypot: (real, real) -> real) {
    forall x: real, y: real {:trigger HypotAt(hypot, x, y)} :: HypotAt(hypot, x, y)
  }

  predicate HypotAt(hypot: (real, real) -> real, x: real, y: real) {
    hypot(x, y) >= 0.0 && hypot(x, y) * hypot(x, y) == x * x + y * y
  }

  ghost predicate Usable(t: Tools) {
    && IsHypot(t.hypot)
    && (forall n :: |t.window(n)| == n)
    && forall v :: |t.forward(v)| == |v|
  }

  function MaxOf(x: real, y: real): real {
    if x >= y then x else y
  }

  function MinOf(x: real, y: real): real {
    if x <= y then x else y
  }

  function Clamp(x: real, low: real, high: real): real {
    if x < low then low else if x > high then high else x
  }

  /** The score of a numerator against its total. */
  function NormalizedScore(numerator: real, denominator: real): real {
    if denominator <= TINY then 0.0 else Clamp(numerator / denominator, 0.0, 1.0)
  }

  lemma {:induction false} ShareOfTotal(x: real, y: real)
    requires 0.0 <= x <= y && y > 0.0
    ensures 0.0 <= x / y <= 1.0
  {
    var q := x / y;
    assert q * y == x;
    if q < 0.0 {
      Positive(-q, y);
    }
    if q > 1.0 {
      Positive(q - 1.0, y);
    }
  }

  lemma {:induction false} PositiveProduct(a: real, b: real, c: real)
    requires a > 0.0 && b > 0.0 && c == a * b
    ensures c > 0.0
  {
  }

  /** A numerator that never exceeds its total makes the clamp idle. */
  lemma {:induction false} ClampIsIdle(x: real, y: real)
    requires 0.0 <= x <= y
    ensures NormalizedScore(x, y) == (if y <= TINY then 0.0 else x / y)
    ensures x == 0.0 ==> NormalizedScore(x, y) == 0.0
  {
    if y > TINY {
      ShareOfTotal(x, y);
      if x == 0.0 {
        assert x / y == 0.0;
      }
    }
  }

  // ------------------------------------------------------------ musical noise

  function Power(m: real): real {
    m * m
  }

  function Prominence(power: real, neighbours: real): real
    requires neighbours >= 0.0
  {
    Clamp(power / (neighbours + TINY) - 1.0, 0.0, 4.0) / 4.0
  }

  function NeighbourPower(test: seq<real>, k: nat): real
    requires 0 < k < |test| - 1
  {
    0.5 * (Power(test[k - 1]) + Power(test[k + 1]))
  }

  function ExcessAt(reference: seq<real>, test: seq<real>, k: nat): real
    requires |reference| == |test| && 0 < k < |test| - 1
  {
    PowerIsNonNegative(test[k - 1]);
    PowerIsNonNegative(test[k + 1]);
    MaxOf(Power(test[k]) - 1.15 * Power(reference[k]), 0.0) * Prominence(Power(test[k]), NeighbourPower(test, k))
  }

  /** The excess in the bins from 1 to `n - 1`. */
  function MusicalExcess(reference: seq<real>, test: seq<real>, n: nat): real
    requires |reference| == |test| && n <= |test| - 1
  {
    if n <= 1 then 0.0 else MusicalExcess(reference, test, n - 1) + ExcessAt(reference, test, n - 1)
  }

  function SpectralEnergy(test: seq<real>, n: nat): real
    requires n <= |test|
  {
    if n == 0 then 0.0 else SpectralEnergy(test, n - 1) + Power(test[n - 1])
  }

  lemma {:induction false} PowerIsNonNegative(m: real)
    ensures Power(m) >= 0.0
  {
  }

  lemma {:induction false} ExcessWithin(reference: seq<real>, test: seq<real>, k: nat)
    requires |reference| == |test| && 0 < k < |test| - 1
    ensures 0.0 <= ExcessAt(reference, test, k) <= Power(test[k])
    ensures reference == test ==> ExcessAt(reference, test, k) == 0.0
  {
    PowerIsNonNegative(test[k]);
    PowerIsNonNegative(reference[k]);
    PowerIsNonNegative(test[k - 1]);
    PowerIsNonNegative(test[k + 1]);
    var excess, p := MaxOf(Power(test[k]) - 1.15 * Power(reference[k]), 0.0),
        Prominence(Power(test[k]), NeighbourPower(test, k));
    assert 0.0 <= p <= 1.0;
    Part(excess, p);
  }

  lemma {:induction false} Part(x: real, p: real)
    requires x >= 0.0 && 0.0 <= p <= 1.0
    ensures 0.0 <= x * p <= x && (x == 0.0 ==> x * p == 0.0)
  {
    NonNegative(x, p);
    NonNegative(x, 1.0 - p);
    assert x * (1.0 - p) == x - x * p;
  }

  /** The excess of a frame is part of its energy, and nothing against itself. */
  lemma {:induction false} MusicalWithin(reference: seq<real>, test: seq<real>, n: nat)
    requires |reference| == |test| && n <= |test| - 1
    ensures 0.0 <= MusicalExcess(reference, test, n) <= SpectralEnergy(test, n)
    ensures reference == test ==> MusicalExcess(reference, test, n) == 0.0
  {
    if n > 1 {
      MusicalWithin(reference, test, n - 1);
      ExcessWithin(reference, test, n - 1);
    } else {
      EnergyGrows(test, 0, n);
    }
  }

  lemma {:induction false} EnergyGrows(test: seq<real>, m: nat, n: nat)
    requires m <= n <= |test|
    ensures SpectralEnergy(test, m) <= SpectralEnergy(test, n)
    decreases n
  {
    if m < n {
      PowerIsNonNegative(test[n - 1]);
      EnergyGrows(test, m, n - 1);
    }
  }

  // ------------------------------------------------------------ phase

  function Cross(l: Complex, r: Complex): Complex {
    Complex(l.re * r.re + l.im * r.im, l.im * r.re - l.re * r.im)
  }

  function Magnitude(c: Complex, hypot: (real, real) -> real): real {
    hypot(c.re, c.im)
  }

  /** The cosine of the angle between two cross spectra. */
  function Cosine(x: Complex, y: Complex, mx: real, my: real): real {
    ClampedRatio(Inner(x, y), mx * my)
  }

  function Inner(x: Complex, y: Complex): real {
    x.re * y.re + x.im * y.im
  }

  function ClampedRatio(d: real, m: real): real {
    if m == 0.0 then 0.0 else Clamp(d / m, -1.0, 1.0)
  }

  function BinError(cosine: real, weight: real): real {
    0.5 * (1.0 - cosine) * weight
  }

  /** The error and the weight of one bin; silent bins are skipped. */
  function PhaseBin(x: Complex, y: Complex, hypot: (real, real) -> real): (real, real) {
    var mx, my := Magnitude(x, hypot), Magnitude(y, hypot);
    if mx <= SMALL || my <= SMALL then (0.0, 0.0)
    else (BinError(Cosine(x, y, mx, my), MinOf(mx, my)), MinOf(mx, my))
  }

  datatype Stereo = Stereo(left: seq<Complex>, right: seq<Complex>)

  predicate SameSize(r: Stereo, t: Stereo) {
    |r.left| == |r.right| == |t.left| == |t.right|
  }

  /** Error and weight in the bins from 1 to `n - 1`. */
  function PhaseSums(r: Stereo, t: Stereo, n: nat, hypot: (real, real) -> real): (real, real)
    requires SameSize(r, t) && n <= |r.left|
  {
    if n <= 1 then (0.0, 0.0)
    else
      var (error, weight) := PhaseSums(r, t, n - 1, hypot);
      var (e, w) := PhaseBin(Cross(r.left[n - 1], r.right[n - 1]), Cross(t.left[n - 1], t.right[n - 1]), hypot);
      (error + e, weight + w)
  }

  method PhaseErrorForFrame(r: Stereo, t: Stereo, hypot: (real, real) -> real) returns (error: real, weight: real)
    requires SameSize(r, t)
    ensures (error, weight) == PhaseSums(r, t, |r.left| / 2, hypot)
  {
    var bins := |r.left| / 2 + 1;
    error, weight := 0.0, 0.0;
    var k := 1;
    while k < bins - 1
      invariant 1 <= k && (k < bins || (k == 1 && bins == 1))
      invariant (error, weight) == PhaseSums(r, t, if k <= bins - 1 then k else bins - 1, hypot)
    {
      var x, y := Cross(r.left[k], r.right[k]), Cross(t.left[k], t.right[k]);
      var mx, my := Magnitude(x, hypot), Magnitude(y, hypot);
      if !(mx <= SMALL || my <= SMALL) {
        var cosine := Cosine(x, y, mx, my);
        var binWeight := MinOf(mx, my);
        error := error + BinError(cosine, binWeight);
        weight := weight + binWeight;
      }
      k := k + 1;
    }
  }

  lemma {:induction false} CosineWithin(x: Complex, y: Complex, mx: real, my: real)
    ensures -1.0 <= Cosine(x, y, mx, my) <= 1.0
  {
  }

  /** With true magnitudes the quotient is a cosine, so its clamp never acts. */
  lemma {:induction false} CosineIsQuotient(x: Complex, y: Complex, hypot: (real, real) -> real)
    requires IsHypot(hypot) && Magnitude(x, hypot) > 0.0 && Magnitude(y, hypot) > 0.0
    ensures
      var m := Magnitude(x, hypot) * Magnitude(y, hypot);
      m > 0.0 && -m <= Inner(x, y) <= m && Cosine(x, y, Magnitude(x, hypot), Magnitude(y, hypot)) * m == Inner(x, y)
  {
    var mx, my := Magnitude(x, hypot), Magnitude(y, hypot);
    assert HypotAt(hypot, x.re, x.im) && HypotAt(hypot, y.re, y.im);
    CosineBound(x.re, x.im, y.re, y.im, mx, my);
    RatioIsExact(Inner(x, y), mx * my);
  }

  lemma {:induction false} RatioIsExact(d: real, m: real)
    requires m > 0.0 && -m <= d <= m
    ensures ClampedRatio(d, m) * m == d
  {
    Ratio(d, m);
    var q := d / m;
    assert q * m == d && ClampedRatio(d, m) == q;
  }

  lemma {:induction false} CosineBound(a: real, b: real, c: real, d: real, m: real, n: real)
    requires m > 0.0 && n > 0.0 && m * m == a * a + b * b && n * n == c * c + d * d
    ensures m * n > 0.0 && -(m * n) <= a * c + b * d <= m * n
  {
    Positive(m, n);
    ProductBound(a, b, c, d, m, n);
    RootBounds(a * c + b * d, m * n);
  }

  lemma {:induction false} ProductBound(a: real, b: real, c: real, d: real, m: real, n: real)
    requires m * m == a * a + b * b && n * n == c * c + d * d
    ensures (a * c + b * d) * (a * c + b * d) <= (m * n) * (m * n)
  {
    Lagrange(a, b, c, d);
    SquareIsNonNegative(a * d - b * c);
    SquareOfProduct(m, n);
  }

  lemma {:induction false} Lagrange(a: real, b: real, c: real, d: real)
    ensures (a * a + b * b) * (c * c + d * d) == (a * c + b * d) * (a * c + b * d) + (a * d - b * c) * (a * d - b * c)
  {
  }

  lemma {:induction false} SquareIsNonNegative(x: real)
    ensures x * x >= 0.0
  {
  }

  lemma {:induction false} SquareOfProduct(m: real, n: real)
    ensures (m * n) * (m * n) == (m * m) * (n * n)
  {
  }

  /** A bin has the same phase as itself. */
  lemma {:induction false} SelfCosine(x: Complex, m: real)
    requires m > 0.0 && m * m == x.re * x.re + x.im * x.im
    ensures Cosine(x, x, m, m) == 1.0
  {
    var d := m * m;
    PositiveProduct(m, m, d);
    Whole(d);
  }

  lemma {:induction false} ErrorWithin(cosine: real, weight: real)
    requires weight >= 0.0 && -1.0 <= cosine <= 1.0
    ensures 0.0 <= BinError(cosine, weight) <= weight
  {
    NonNegative(1.0 - cosine, weight);
    NonNegative(1.0 + cosine, weight);
    assert BinError(cosine, weight) == 0.5 * ((1.0 - cosine) * weight);
    assert (1.0 + cosine) * weight == weight + cosine * weight && (1.0 - cosine) * weight == weight - cosine * weight;
  }

  lemma {:induction false} BinWithin(x: Complex, y: Complex, hypot: (real, real) -> real)
    requires IsHypot(hypot)
    ensures 0.0 <= PhaseBin(x, y, hypot).0 <= PhaseBin(x, y, hypot).1
    ensures x == y ==> PhaseBin(x, y, hypot).0 == 0.0
  {
    var mx, my := Magnitude(x, hypot), Magnitude(y, hypot);
    assert HypotAt(hypot, x.re, x.im);
    if !(mx <= SMALL || my <= SMALL) {
      CosineWithin(x, y, mx, my);
      ErrorWithin(Cosine(x, y, mx, my), MinOf(mx, my));
      if x == y {
        SelfCosine(x, mx);
        assert BinError(1.0, mx) == 0.0;
      }
    }
  }

  lemma {:induction false} Whole(x: real)
    requires x > 0.0
    ensures x / x == 1.0
  {
  }

  /** The phase error never exceeds its weight, and is nothing against itself. */
  lemma {:induction false} PhaseWithin(r: Stereo, t: Stereo, n: nat, hypot: (real, real) -> real)
    requires SameSize(r, t) && n <= |r.left| && IsHypot(hypot)
    ensures 0.0 <= PhaseSums(r, t, n, hypot).0 <= PhaseSums(r, t, n, hypot).1
    ensures r == t ==> PhaseSums(r, t, n, hypot).0 == 0.0
  {
    if n > 1 {
      PhaseWithin(r, t, n - 1, hypot);
      BinWithin(Cross(r.left[n - 1], r.right[n - 1]), Cross(t.left[n - 1], t.right[n - 1]), hypot);
    }
  }

  // ------------------------------------------------------------ transients

  function Flux(current: seq<real>, previous: seq<real>): real {
    var d := Sum(previous) + SMALL;
    if d == 0.0 then 0.0 else Clamp(Rise(current, previous) / d, 0.0, 100.0)
  }

  function Rise(current: seq<real>, previous: seq<real>): real {
    if current == [] || previous == [] then 0.0
        else MaxOf(current[0] - previous[0], 0.0) + Rise(current[1..], previous[1..])
  }

  function Sum(a: seq<real>): real {
    if a == [] then 0.0 else a[0] + Sum(a[1..])
  }

  function Peak(a: seq<real>, n: nat): real
    requires n <= |a|
  {
    if n == 0 then 0.0 else MaxOf(Peak(a, n - 1), a[n - 1])
  }

  function LossTerm(r: real, t: real): real {
    MaxOf(r - t, 0.0) / MaxOf(r, SMALL) * r
  }

  /** The weighted loss and the weight over the first `n` frames. */
  function LossSums(reference: seq<real>, test: seq<real>, threshold: real, n: nat): (real, real)
    requires |reference| == |test| && n <= |test| && threshold > 0.0
  {
    if n == 0 then (0.0, 0.0)
    else
      var (loss, weight) := LossSums(reference, test, threshold, n - 1);
      var r, t := reference[n - 1], test[n - 1];
      if r < threshold then (loss, weight) else (loss + LossTerm(r, t), weight + r)
  }

  function Threshold(reference: seq<real>): (r: real)
    ensures r >= 0.05
  {
    MaxOf(Peak(reference, |reference|) * 0.15, 0.05)
  }

  function TransientLoss(reference: seq<real>, test: seq<real>): real
    requires |reference| == |test|
  {
    var (loss, weight) := LossSums(reference, test, Threshold(reference), |reference|);
    NormalizedScore(loss, weight)
  }

  method TransientLossScore(reference: seq<real>, test: seq<real>) returns (score: real)
    requires |reference| == |test|
    ensures score == TransientLoss(reference, test)
  {
    var maximum := 0.0;
    for n := 0 to |reference|
      invariant maximum == Peak(reference, n)
    {
      maximum := MaxOf(maximum, reference[n]);
    }
    var threshold := MaxOf(maximum * 0.15, 0.05);
    var weightedLoss, totalWeight := 0.0, 0.0;
    for n := 0 to |reference|
      invariant (weightedLoss, totalWeight) == LossSums(reference, test, threshold, n)
    {
      if reference[n] < threshold {
        continue;
      }
      weightedLoss := weightedLoss + LossTerm(reference[n], test[n]);
      totalWeight := totalWeight + reference[n];
    }
    score := NormalizedScore(weightedLoss, totalWeight);
  }

  lemma {:induction false} LossStep(r: real, t: real)
    requires r >= 0.05 && t >= 0.0
    ensures 0.0 <= LossTerm(r, t) <= r
    ensures t == r ==> LossTerm(r, t) == 0.0
  {
    var x := MaxOf(r - t, 0.0);
    assert MaxOf(r, SMALL) == r;
    var q := x / r;
    assert q * r == x;
  }

  /** The weighted loss never exceeds the weight, and is nothing against itself. */
  lemma {:induction false} LossWithin(reference: seq<real>, test: seq<real>, threshold: real, n: nat)
    requires |reference| == |test| && n <= |test| && threshold >= 0.05 && forall i :: 0 <= i < |test| ==> test[i] >= 0.0
    ensures 0.0 <= LossSums(reference, test, threshold, n).0 <= LossSums(reference, test, threshold, n).1
    ensures reference == test ==> LossSums(reference, test, threshold, n).0 == 0.0
  {
    if n > 0 {
      LossWithin(reference, test, threshold, n - 1);
      if reference[n - 1] >= threshold {
        LossStep(reference[n - 1], test[n - 1]);
      }
    }
  }

  // ------------------------------------------------------------ pumping

  function GainDb(reference: real, test: real, floor: real, log10: real -> real): real {
    var d := reference + floor;
    if d == 0.0 then 0.0 else Clamp(20.0 * log10((test + floor) / d), -60.0, 60.0)
  }

  function Abs(x: real): real {
    if x >= 0.0 then x else -x
  }

  /** The gain of the previous loud frame, the changes so far and their number. */
  datatype Pump = Pump(previous: Option<real>, change: real, count: nat)

  function PumpAfter(pairs: seq<(real, real)>, floor: real, n: nat, log10: real -> real): Pump
    requires n <= |pairs|
  {
    if n == 0 then Pump(None, 0.0, 0)
    else
      var p, (reference, test) := PumpAfter(pairs, floor, n - 1, log10), pairs[n - 1];
      if reference <= floor then p.(previous := None)
      else
        var gain := GainDb(reference, test, floor, log10);
        match p.previous
        case None => p.(previous := Some(gain))
        case Some(before) => Pump(Some(gain), p.change + Abs(gain - before), p.count + 1)
  }

  function PeakOf(pairs: seq<(real, real)>, n: nat): real
    requires n <= |pairs|
  {
    if n == 0 then 0.0 else MaxOf(PeakOf(pairs, n - 1), pairs[n - 1].0)
  }

  function Pumping(pairs: seq<(real, real)>, log10: real -> real): real {
    var peak := PeakOf(pairs, |pairs|);
    if peak <= 0.000000001 then 0.0
    else
      var p := PumpAfter(pairs, peak * 0.01, |pairs|, log10);
      if p.count == 0 then 0.0 else Clamp(p.change / p.count as real / 12.0, 0.0, 1.0)
  }

  method PumpingScore(pairs: seq<(real, real)>, log10: real -> real) returns (score: real)
    ensures score == Pumping(pairs, log10)
  {
    var peak := 0.0;
    for n := 0 to |pairs|
      invariant peak == PeakOf(pairs, n)
    {
      peak := MaxOf(peak, pairs[n].0);
    }
    if peak <= 0.000000001 {
      return 0.0;
    }
    var floor := peak * 0.01;
    var previous: Option<real>, total, count := None, 0.0, 0;
    for n := 0 to |pairs|
      invariant Pump(previous, total, count) == PumpAfter(pairs, floor, n, log10)
    {
      var (reference, test) := pairs[n];
      if reference <= floor {
        previous := None;
        continue;
      }
      var gain := GainDb(reference, test, floor, log10);
      if previous.Some? {
        total := total + Abs(gain - previous.value);
        count := count + 1;
      }
      previous := Some(gain);
    }
    score := if count == 0 then 0.0 else Clamp(total / count as real / 12.0, 0.0, 1.0);
  }

  /** Equal levels never change their gain. */
  lemma {:induction false} NoPumping(pairs: seq<(real, real)>, floor: real, n: nat, log10: real -> real)
    requires n <= |pairs| && floor > 0.0 && forall i :: 0 <= i < |pairs| ==> pairs[i].0 == pairs[i].1
    ensures var p := PumpAfter(pairs, floor, n, log10);
            p.change == 0.0 && (p.previous.Some? ==> p.previous == Some(Clamp(20.0 * log10(1.0), -60.0, 60.0)))
  {
    if n > 0 {
      NoPumping(pairs, floor, n - 1, log10);
      var (reference, test) := pairs[n - 1];
      assert reference == test;
      if reference > floor {
        Whole(reference + floor);
      }
    }
  }

  lemma {:induction false} NoPumpingScore(pairs: seq<(real, real)>, log10: real -> real)
    requires forall i :: 0 <= i < |pairs| ==> pairs[i].0 == pairs[i].1
    ensures Pumping(pairs, log10) == 0.0
  {
    var peak := PeakOf(pairs, |pairs|);
    if peak > 0.000000001 {
      NoPumping(pairs, peak * 0.01, |pairs|, log10);
    }
  }
}
