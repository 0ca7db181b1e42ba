/** What the artifact scores detect: when each is positive, when it is greatest, and its value in closed form. */
module Detection {
  import opened Wrappers
  import opened Reals
  import opened Artifacts

  // ------------------------------------------------------------ quotients

  lemma {:induction false} QuotientIs(x: real, y: real, q: real)
    requires y != 0.0 && q * y == x
    ensures x / y == q
  {
    var p := x / y;
    assert p * y == x;
    assert (p - q) * y == 0.0;
  }

  lemma {:induction false} QuotientIsPositive(x: real, y: real)
    requires x >= 0.0 && y > 0.0
    ensures x / y >= 0.0 && (x / y > 0.0 <==> x > 0.0)
  {
    var q := x / y;
    assert q * y == x;
    if q < 0.0 {
      Positive(-q, y);
    }
    if q > 0.0 {
      Positive(q, y);
    }
  }

  lemma {:induction false} QuotientIsOne(x: real, y: real)
    requires y > 0.0
    ensures x / y == 1.0 <==> x == y
  {
    assert x / y * y == x;
  }

  /** A score is positive when its part is, and one when the part is the whole. */
  lemma {:induction false} ScoreOf(part: real, whole: real)
    requires 0.0 <= part && whole > TINY
    ensures NormalizedScore(part, whole) > 0.0 <==> part > 0.0
    ensures part <= whole ==> (NormalizedScore(part, whole) == 1.0 <==> part == whole)
  {
    QuotientIsPositive(part, whole);
    QuotientIsOne(part, whole);
    if part <= whole {
      ShareOfTotal(part, whole);
    }
  }

  // ------------------------------------------------------------ transients

  /** A frame whose flux is at least 0.05 and at least 0.15 of every other flux. */
  ghost predicate IsTransient(reference: seq<real>, i: nat) {
    && i < |reference| && reference[i] >= 0.05
    && forall j :: 0 <= j < |reference| ==> reference[i] >= reference[j] * 0.15
  }

  function Lost(r: real, t: real): real {
    if t < r then r - t else 0.0
  }

  ghost function LostFlux(reference: seq<real>, test: seq<real>, n: nat): real
    requires |reference| == |test| && n <= |test|
  {
    if n == 0 then 0.0
    else LostFlux(reference, test, n - 1) + if IsTransient(reference, n - 1) then Lost(reference[n - 1], test[n - 1])
      else 0.0
  }

  ghost function TransientFlux(reference: seq<real>, n: nat): real
    requires n <= |reference|
  {
    if n == 0 then 0.0
    else TransientFlux(reference, n - 1) + if IsTransient(reference, n - 1) then reference[n - 1] else 0.0
  }

  lemma {:induction false} PeakIs(a: seq<real>, n: nat)
    requires n <= |a|
    ensures Peak(a, n) >= 0.0 && forall j :: 0 <= j < n ==> a[j] <= Peak(a, n)
    ensures Peak(a, n) == 0.0 || exists j :: 0 <= j < n && a[j] == Peak(a, n)
  {
    if n > 0 {
      PeakIs(a, n - 1);
    }
  }

  lemma {:induction false} AboveThreshold(reference: seq<real>, i: nat)
    requires i < |reference|
    ensures reference[i] >= Threshold(reference) <==> IsTransient(reference, i)
  {
    PeakIs(reference, |reference|);
  }

  lemma {:induction false} LossTermIs(r: real, t: real)
    requires r >= 0.05
    ensures LossTerm(r, t) == Lost(r, t)
  {
    assert MaxOf(r, SMALL) == r && MaxOf(r - t, 0.0) == Lost(r, t);
    var q := Lost(r, t) / r;
    assert q * r == Lost(r, t);
  }

  /** The sums of the loop: the flux lost in the transients and the flux of the transients. */
  lemma {:induction false} LossIsLost(reference: seq<real>, test: seq<real>, n: nat)
    requires |reference| == |test| && n <= |test|
    ensures LossSums(reference, test, Threshold(reference), n)
            == (LostFlux(reference, test, n), TransientFlux(reference, n))
  {
    if n > 0 {
      LossIsLost(reference, test, n - 1);
      AboveThreshold(reference, n - 1);
      if IsTransient(reference, n - 1) {
        LossTermIs(reference[n - 1], test[n - 1]);
      }
    }
  }

  ghost predicate LosesAt(reference: seq<real>, test: seq<real>, i: nat)
    requires |reference| == |test|
  {
    IsTransient(reference, i) && test[i] < reference[i]
  }

  lemma {:induction false} LostIff(reference: seq<real>, test: seq<real>, n: nat)
    requires |reference| == |test| && n <= |test|
    ensures LostFlux(reference, test, n) >= 0.0
    ensures LostFlux(reference, test, n) > 0.0 <==> exists i: nat :: i < n && LosesAt(reference, test, i)
  {
    if n > 0 {
      LostIff(reference, test, n - 1);
      if LosesAt(reference, test, n - 1) {
      } else if i: nat :| i < n && LosesAt(reference, test, i) {
        assert i < n - 1;
      }
    }
  }

  lemma {:induction false} WeightIff(reference: seq<real>, n: nat)
    requires n <= |reference|
    ensures TransientFlux(reference, n) >= 0.0
    ensures (exists i: nat :: i < n && IsTransient(reference, i)) ==> TransientFlux(reference, n) >= 0.05
    ensures !(exists i: nat :: i < n && IsTransient(reference, i)) ==> TransientFlux(reference, n) == 0.0
  {
    if n > 0 {
      WeightIff(reference, n - 1);
      if IsTransient(reference, n - 1) {
      } else if i: nat :| i < n && IsTransient(reference, i) {
        assert i < n - 1;
      }
    }
  }

  /** Some transient is lost in part exactly when the score is positive. */
  lemma {:induction false} TransientLossIff(reference: seq<real>, test: seq<real>)
    requires |reference| == |test|
    ensures TransientLoss(reference, test) > 0.0 <==> exists i: nat :: LosesAt(reference, test, i)
  {
    var n := |reference|;
    LossIsLost(reference, test, n);
    LostIff(reference, test, n);
    WeightIff(reference, n);
    if i: nat :| LosesAt(reference, test, i) {
      assert IsTransient(reference, i);
      ScoreOf(LostFlux(reference, test, n), TransientFlux(reference, n));
    } else if TransientFlux(reference, n) > TINY {
      ScoreOf(LostFlux(reference, test, n), TransientFlux(reference, n));
    }
  }

  lemma {:induction false} LostWithin(reference: seq<real>, test: seq<real>, n: nat)
    requires |reference| == |test| && n <= |test| && forall i :: 0 <= i < |test| ==> test[i] >= 0.0
    ensures LostFlux(reference, test, n) <= TransientFlux(reference, n)
    ensures LostFlux(reference, test, n) == TransientFlux(reference, n) <==>
            forall i: nat :: i < n && IsTransient(reference, i) ==> test[i] == 0.0
  {
    if n > 0 {
      LostWithin(reference, test, n - 1);
      assert IsTransient(reference, n - 1) ==>
          (Lost(reference[n - 1], test[n - 1]) == reference[n - 1] <==> test[n - 1] == 0.0);
    }
  }

  /** The score is one exactly when there are transients and nothing is left of any. */
  lemma {:induction false} AllTransientsLost(reference: seq<real>, test: seq<real>)
    requires |reference| == |test| && forall i :: 0 <= i < |test| ==> test[i] >= 0.0
    ensures TransientLoss(reference, test) == 1.0 <==>
            && (exists i: nat :: IsTransient(reference, i))
            && forall i: nat :: IsTransient(reference, i) ==> test[i] == 0.0
  {
    var n := |reference|;
    LossIsLost(reference, test, n);
    LostIff(reference, test, n);
    LostWithin(reference, test, n);
    WeightIff(reference, n);
    if i: nat :| IsTransient(reference, i) {
      assert i < n;
      ScoreOf(LostFlux(reference, test, n), TransientFlux(reference, n));
    }
  }

  // ------------------------------------------------------------ musical noise

  /** The mean power of the two neighbours, and a little. */
  function Surroundings(test: seq<real>, k: nat): real
    requires 0 < k < |test| - 1
  {
    (test[k - 1] * test[k - 1] + test[k + 1] * test[k + 1]) * 0.5 + TINY
  }

  lemma {:induction false} SurroundingsArePositive(test: seq<real>, k: nat)
    requires 0 < k < |test| - 1
    ensures Surroundings(test, k) >= TINY && NeighbourPower(test, k) + TINY == Surroundings(test, k)
    ensures NeighbourPower(test, k) >= 0.0
  {
    SquareIsNonNegative(test[k - 1]);
    SquareIsNonNegative(test[k + 1]);
  }

  lemma {:induction false} ProminenceIs(p: real, m: real)
    requires m >= TINY
    ensures Prominence(p, m - TINY) >= 0.0 && (Prominence(p, m - TINY) > 0.0 <==> p > m)
    ensures p >= 5.0 * m ==> Prominence(p, m - TINY) == 1.0
    ensures m <= p <= 5.0 * m ==> Prominence(p, m - TINY) * (4.0 * m) == p - m
  {
    var q := p / m;
    assert q * m == p;
    if q > 1.0 {
      Positive(q - 1.0, m);
    } else {
      NonNegative(1.0 - q, m);
    }
    if q > 5.0 {
      Positive(q - 5.0, m);
    } else {
      NonNegative(5.0 - q, m);
    }
    if m <= p <= 5.0 * m {
      assert Prominence(p, m - TINY) == (q - 1.0) / 4.0;
      assert (q - 1.0) / 4.0 * (4.0 * m) == (q - 1.0) * m;
    }
  }

  lemma {:induction false} ProductIsPositiveIff(a: real, b: real)
    requires a >= 0.0 && b >= 0.0
    ensures a * b > 0.0 <==> a > 0.0 && b > 0.0
  {
    if a > 0.0 && b > 0.0 {
      Positive(a, b);
    }
  }

  /** A bin counts as musical noise exactly when its power exceeds both 1.15 times the power of the reference and
      its surroundings; from five times the surroundings on the whole difference counts, below a share of it that
      rises linearly. */
  lemma {:induction false} ExcessIs(reference: seq<real>, test: seq<real>, k: nat)
    requires |reference| == |test| && 0 < k < |test| - 1
    ensures
      var p, q, m := test[k] * test[k], reference[k] * reference[k] * 1.15, Surroundings(test, k);
      && (ExcessAt(reference, test, k) > 0.0 <==> p > q && p > m)
      && (p >= q && p >= 5.0 * m ==> ExcessAt(reference, test, k) == p - q)
      && (p >= q && m <= p <= 5.0 * m ==> ExcessAt(reference, test, k) * (4.0 * m) == (p - q) * (p - m))
  {
    var p, q, m := test[k] * test[k], reference[k] * reference[k] * 1.15, Surroundings(test, k);
    SurroundingsArePositive(test, k);
    ProminenceIs(p, m);
    var over, share := MaxOf(Power(test[k]) - 1.15 * Power(reference[k]), 0.0), Prominence(p, m - TINY);
    assert ExcessAt(reference, test, k) == over * share;
    ProductIsPositiveIff(over, share);
    if p >= q {
      assert over == p - q;
      if m <= p <= 5.0 * m {
        Regroup(over, share, 4.0 * m, p - m);
      }
    }
  }

  lemma {:induction false} Regroup(a: real, b: real, c: real, d: real)
    requires b * c == d
    ensures a * b * c == a * d
  {
  }

  ghost predicate SoundsAt(reference: seq<real>, test: seq<real>, k: nat)
    requires |reference| == |test|
  {
    0 < k < |test| - 1 && ExcessAt(reference, test, k) > 0.0
  }

  /** A frame has an excess exactly when one of its inner bins has. */
  lemma {:induction false} MusicalIff(reference: seq<real>, test: seq<real>, n: nat)
    requires |reference| == |test| && n <= |test| - 1
    ensures MusicalExcess(reference, test, n) >= 0.0
    ensures MusicalExcess(reference, test, n) > 0.0 <==> exists k: nat :: k < n && SoundsAt(reference, test, k)
  {
    if n > 1 {
      MusicalIff(reference, test, n - 1);
      ExcessWithin(reference, test, n - 1);
      if SoundsAt(reference, test, n - 1) {
      } else if k: nat :| k < n && SoundsAt(reference, test, k) {
        assert k < n - 1;
      }
    }
  }

  /** The frame is silent in every bin but one. */
  predicate IsTone(test: seq<real>, k: nat) {
    0 < k < |test| - 1 && forall i :: 0 <= i < |test| && i != k ==> test[i] == 0.0
  }

  lemma {:induction false} ToneEnergy(test: seq<real>, k: nat, n: nat)
    requires IsTone(test, k) && n <= |test|
    ensures SpectralEnergy(test, n) == if k < n then test[k] * test[k] else 0.0
  {
    if n > 0 {
      ToneEnergy(test, k, n - 1);
    }
  }

  lemma {:induction false} SilentBin(reference: seq<real>, test: seq<real>, k: nat)
    requires |reference| == |test| && 0 < k < |test| - 1 && test[k] == 0.0
    ensures ExcessAt(reference, test, k) == 0.0
  {
    ExcessIs(reference, test, k);
    ExcessWithin(reference, test, k);
  }

  lemma {:induction false} ToneExcess(reference: seq<real>, test: seq<real>, k: nat, n: nat)
    requires |reference| == |test| && IsTone(test, k) && n <= |test| - 1
    ensures MusicalExcess(reference, test, n) == if k < n then ExcessAt(reference, test, k) else 0.0
  {
    if n > 1 {
      ToneExcess(reference, test, k, n - 1);
      if n - 1 != k {
        SilentBin(reference, test, n - 1);
      }
    }
  }

  /** A lone tone that the reference does not have is all musical noise. */
  lemma {:induction false} ToneIsMusical(reference: seq<real>, test: seq<real>, k: nat)
    requires |reference| == |test| && IsTone(test, k) && reference[k] == 0.0 && test[k] * test[k] >= 5.0 * TINY
    ensures MusicalExcess(reference, test, |test| - 1) == SpectralEnergy(test, |test|) == test[k] * test[k]
    ensures NormalizedScore(MusicalExcess(reference, test, |test| - 1), SpectralEnergy(test, |test|)) == 1.0
  {
    ToneEnergy(test, k, |test|);
    ToneExcess(reference, test, k, |test| - 1);
    assert test[k - 1] == 0.0 && test[k + 1] == 0.0;
    ExcessIs(reference, test, k);
    ScoreOf(test[k] * test[k], test[k] * test[k]);
  }

  // ------------------------------------------------------------ phase

  function Product(x: Complex, y: Complex): Complex {
    Complex(x.re * y.re - x.im * y.im, x.re * y.im + x.im * y.re)
  }

  function SquareOf(x: Complex): real {
    x.re * x.re + x.im * x.im
  }

  /** Turning or scaling both channels alike leaves the angle between them. */
  lemma {:induction false} CrossIgnoresCommonPhase(z: Complex, l: Complex, r: Complex)
    ensures
      var c, d := Cross(l, r), Cross(Product(z, l), Product(z, r));
      d.re == SquareOf(z) * c.re && d.im == SquareOf(z) * c.im
  {
    var a, b := Product(z, l), Product(z, r);
    RealPart(z, l, r);
    ImaginaryPart(z, l, r);
  }

  lemma {:induction false} RealPart(z: Complex, l: Complex, r: Complex)
    ensures Cross(Product(z, l), Product(z, r)).re == SquareOf(z) * Cross(l, r).re
  {
    CommonFactor(z.re, z.im, l.re, l.im, r.re, r.im);
  }

  lemma {:induction false} ImaginaryPart(z: Complex, l: Complex, r: Complex)
    ensures Cross(Product(z, l), Product(z, r)).im == SquareOf(z) * Cross(l, r).im
  {
    CommonFactor(z.re, z.im, l.im, -l.re, r.re, r.im);
  }

  lemma {:induction false} CommonFactor(a: real, b: real, c: real, d: real, e: real, f: real)
    ensures (a * c - b * d) * (a * e - b * f) + (a * d + b * c) * (a * f + b * e) == (a * a + b * b) * (c * e + d * f)
  {
    Distributes(a * c, -(b * d), a * e, -(b * f));
    Distributes(a * d, b * c, a * f, b * e);
    Distributes(a * a, b * b, c * e, d * f);
    Exchange(a, c, a, e);
    Exchange(a, c, b, f);
    Exchange(b, d, a, e);
    Exchange(b, d, b, f);
    Exchange(a, d, a, f);
    Exchange(a, d, b, e);
    Exchange(b, c, a, f);
    Exchange(b, c, b, e);
  }

  lemma {:induction false} Exchange(a: real, b: real, c: real, d: real)
    ensures (a * b) * (c * d) == (a * c) * (b * d)
  {
  }

  lemma {:induction false} Distributes(x: real, y: real, a: real, b: real)
    ensures (x + y) * (a + b) == x * a + x * b + y * a + y * b
  {
  }

  /** The cross spectrum of a channel with itself turned by `z` is the energy turned back by `z`. */
  lemma {:induction false} CrossIsAngle(z: Complex, l: Complex)
    ensures
      var c := Cross(l, Product(z, l));
      c.re == SquareOf(l) * z.re && c.im == -(SquareOf(l) * z.im)
  {
  }

  lemma {:induction false} SameRoot(a: real, b: real)
    requires a >= 0.0 && b >= 0.0 && a * a == b * b
    ensures a == b
  {
    RootBounds(a, b);
    RootBounds(b, a);
  }

  lemma {:induction false} ErrorIs(inner: real, m: real, weight: real)
    requires m > 0.0 && -m <= inner <= m && weight > 0.0
    ensures
      var error := BinError(ClampedRatio(inner, m), weight);
      && error * (2.0 * m) == (m - inner) * weight
      && (error > 0.0 <==> inner < m) && (error == weight <==> inner == -m)
  {
    var c := ClampedRatio(inner, m);
    RatioIsExact(inner, m);
    var error := BinError(c, weight);
    assert error * (2.0 * m) == (m - inner) * weight by {
      assert error * (2.0 * m) == (1.0 - c) * weight * m;
      assert (1.0 - c) * weight * m == (m - c * m) * weight;
    }
    Positive(2.0 * m, weight);
    SignOf(error, 2.0 * m, m - inner, weight);
    assert weight * (2.0 * m) == (m + m) * weight;
    SameFactor(error, weight, 2.0 * m);
    SameFactor(m - inner, m + m, weight);
  }

  lemma {:induction false} SignOf(a: real, b: real, c: real, d: real)
    requires b > 0.0 && d > 0.0 && a * b == c * d
    ensures a > 0.0 <==> c > 0.0
  {
    if a > 0.0 {
      Positive(a, b);
      if c <= 0.0 {
        NonNegative(-c, d);
      }
    }
    if c > 0.0 {
      Positive(c, d);
      if a <= 0.0 {
        NonNegative(-a, b);
      }
    }
  }

  lemma {:induction false} SameFactor(a: real, b: real, c: real)
    requires c > 0.0
    ensures a * c == b * c <==> a == b
  {
    if a * c == b * c {
      assert (a - b) * c == 0.0;
    }
  }

  /** Both cross spectra are above the silence limit. */
  predicate Audible(x: Complex, y: Complex, hypot: (real, real) -> real) {
    hypot(x.re, x.im) > 0.000000000001 && hypot(y.re, y.im) > 0.000000000001
  }

  lemma {:induction false} AudibleBin(x: Complex, y: Complex, hypot: (real, real) -> real, mx: real, my: real)
    requires Audible(x, y, hypot) && mx == hypot(x.re, x.im) && my == hypot(y.re, y.im)
    ensures
      var weight := if mx <= my then mx else my;
      weight > 0.0 && PhaseBin(x, y, hypot) == (BinError(Cosine(x, y, mx, my), weight), weight)
  {
  }

  lemma {:induction false} CosineRatio(x: Complex, y: Complex, mx: real, my: real)
    ensures Cosine(x, y, mx, my) == ClampedRatio(Inner(x, y), mx * my)
  {
  }

  lemma {:induction false} InnerWithin(x: Complex, y: Complex, hypot: (real, real) -> real)
    requires IsHypot(hypot) && Audible(x, y, hypot)
    ensures
      var m := hypot(x.re, x.im) * hypot(y.re, y.im);
      m > 0.0 && -m <= x.re * y.re + x.im * y.im <= m
  {
    CosineIsQuotient(x, y, hypot);
  }

  /** A silent bin has no weight; an audible one weighs the smaller magnitude, and its error is the part of the weight
      that the cosine of the angle falls short of one by, halved: nothing exactly for one direction, the whole weight
      exactly for opposite directions. */
  lemma {:induction false} PhaseBinIs(x: Complex, y: Complex, hypot: (real, real) -> real)
    requires IsHypot(hypot)
    ensures !Audible(x, y, hypot) ==> PhaseBin(x, y, hypot) == (0.0, 0.0)
    ensures Audible(x, y, hypot) ==>
      var mx, my := hypot(x.re, x.im), hypot(y.re, y.im);
      var inner, (error, weight) := x.re * y.re + x.im * y.im, PhaseBin(x, y, hypot);
      && weight == (if mx <= my then mx else my)
      && error * (2.0 * (mx * my)) == (mx * my - inner) * weight
      && (error > 0.0 <==> inner < mx * my) && (error == weight <==> inner == -(mx * my))
  {
    if Audible(x, y, hypot) {
      var mx, my := hypot(x.re, x.im), hypot(y.re, y.im);
      InnerWithin(x, y, hypot);
      AudibleBin(x, y, hypot, mx, my);
      CosineRatio(x, y, mx, my);
      ErrorIs(Inner(x, y), mx * my, if mx <= my then mx else my);
    }
  }

  function Inverted(x: Complex): Complex {
    Complex(-x.re, -x.im)
  }

  /** Opposite cross spectra: the error is the weight. */
  lemma {:induction false} OppositePhase(x: Complex, hypot: (real, real) -> real)
    requires IsHypot(hypot)
    ensures PhaseBin(x, Inverted(x), hypot).0 == PhaseBin(x, Inverted(x), hypot).1
  {
    var y := Inverted(x);
    var mx, my := hypot(x.re, x.im), hypot(y.re, y.im);
    assert HypotAt(hypot, x.re, x.im) && HypotAt(hypot, y.re, y.im);
    SameRoot(mx, my);
    PhaseBinIs(x, y, hypot);
    OppositeInner(x);
  }

  lemma {:induction false} OppositeInner(x: Complex)
    ensures x.re * -x.re + x.im * -x.im == -(x.re * x.re + x.im * x.im)
  {
  }

  /** The test inverts the right channel of the reference. */
  predicate InvertsRight(r: Stereo, t: Stereo) {
    && SameSize(r, t) && t.left == r.left
    && forall k :: 0 <= k < |r.right| ==> t.right[k] == Inverted(r.right[k])
  }

  lemma {:induction false} InvertedCross(l: Complex, r: Complex)
    ensures Cross(l, Inverted(r)) == Inverted(Cross(l, r))
  {
  }

  /** An inverted channel is as much phase distortion as there can be. */
  lemma {:induction false} InversionIsTotal(r: Stereo, t: Stereo, n: nat, hypot: (real, real) -> real)
    requires InvertsRight(r, t) && n <= |r.left| && IsHypot(hypot)
    ensures PhaseSums(r, t, n, hypot).0 == PhaseSums(r, t, n, hypot).1
  {
    if n > 1 {
      InversionIsTotal(r, t, n - 1, hypot);
      InvertedCross(r.left[n - 1], r.right[n - 1]);
      OppositePhase(Cross(r.left[n - 1], r.right[n - 1]), hypot);
    }
  }

  ghost predicate TurnsAt(r: Stereo, t: Stereo, k: nat, hypot: (real, real) -> real)
    requires SameSize(r, t)
  {
    0 < k < |r.left| && PhaseBin(Cross(r.left[k], r.right[k]), Cross(t.left[k], t.right[k]), hypot).0 > 0.0
  }

  ghost predicate AudibleAt(r: Stereo, t: Stereo, k: nat, hypot: (real, real) -> real)
    requires SameSize(r, t)
  {
    0 < k < |r.left| && Audible(Cross(r.left[k], r.right[k]), Cross(t.left[k], t.right[k]), hypot)
  }

  /** A frame has a phase error exactly when one of its inner bins has, and a weight when one is audible. */
  lemma {:induction false} PhaseIff(r: Stereo, t: Stereo, n: nat, hypot: (real, real) -> real)
    requires SameSize(r, t) && n <= |r.left| && IsHypot(hypot)
    ensures PhaseSums(r, t, n, hypot).0 >= 0.0 && PhaseSums(r, t, n, hypot).1 >= 0.0
    ensures PhaseSums(r, t, n, hypot).0 > 0.0 <==> exists k: nat :: k < n && TurnsAt(r, t, k, hypot)
    ensures PhaseSums(r, t, n, hypot).1 > 0.0 <==> exists k: nat :: k < n && AudibleAt(r, t, k, hypot)
    ensures PhaseSums(r, t, n, hypot).1 > 0.0 ==> PhaseSums(r, t, n, hypot).1 > SMALL
  {
    if n > 1 {
      PhaseIff(r, t, n - 1, hypot);
      var x, y := Cross(r.left[n - 1], r.right[n - 1]), Cross(t.left[n - 1], t.right[n - 1]);
      BinWithin(x, y, hypot);
      PhaseBinIs(x, y, hypot);
      EarlierTurn(r, t, n, hypot);
    }
  }

  lemma {:induction false} EarlierTurn(r: Stereo, t: Stereo, n: nat, hypot: (real, real) -> real)
    requires SameSize(r, t) && 0 < n <= |r.left|
    ensures (exists k: nat :: k < n && TurnsAt(r, t, k, hypot)) <==>
            TurnsAt(r, t, n - 1, hypot) || exists k: nat :: k < n - 1 && TurnsAt(r, t, k, hypot)
    ensures (exists k: nat :: k < n && AudibleAt(r, t, k, hypot)) <==>
            AudibleAt(r, t, n - 1, hypot) || exists k: nat :: k < n - 1 && AudibleAt(r, t, k, hypot)
  {
    if k: nat :| k < n && TurnsAt(r, t, k, hypot) {
      assert k == n - 1 || k < n - 1;
    }
    if k: nat :| k < n && AudibleAt(r, t, k, hypot) {
      assert k == n - 1 || k < n - 1;
    }
  }

  // ------------------------------------------------------------ pumping

  /** The greatest level of the reference. */
  ghost predicate IsLoudest(pairs: seq<(real, real)>, peak: real) {
    && (forall j :: 0 <= j < |pairs| ==> pairs[j].0 <= peak)
    && exists j :: 0 <= j < |pairs| && pairs[j].0 == peak
  }

  /** Above a hundredth of the greatest level. */
  predicate Loud(pairs: seq<(real, real)>, peak: real, i: int) {
    0 <= i < |pairs| && pairs[i].0 > peak * 0.01
  }

  function GainAt(pairs: seq<(real, real)>, peak: real, i: nat, log10: real -> real): real
    requires i < |pairs|
  {
    GainDb(pairs[i].0, pairs[i].1, peak * 0.01, log10)
  }

  /** The gain in decibels: twenty times the logarithm of the quotient of both levels over the floor, at most sixty
      either way. */
  lemma {:induction false} GainIs(r: real, t: real, floor: real, log10: real -> real, q: real)
    requires r + floor > 0.0 && q * (r + floor) == t + floor
    ensures
      var gain := 20.0 * log10(q);
      GainDb(r, t, floor, log10) == if gain < -60.0 then -60.0 else if 60.0 < gain then 60.0 else gain
  {
    QuotientIs(t + floor, r + floor, q);
  }

  predicate IsStep(pairs: seq<(real, real)>, peak: real, i: int) {
    Loud(pairs, peak, i - 1) && Loud(pairs, peak, i)
  }

  /** The gain changes between two loud frames in a row, added up. */
  function Changes(pairs: seq<(real, real)>, peak: real, n: nat, log10: real -> real): real
    requires n <= |pairs|
  {
    if n == 0 then 0.0
    else Changes(pairs, peak, n - 1, log10) + StepChange(pairs, peak, n - 1, log10)
  }

  function StepChange(pairs: seq<(real, real)>, peak: real, i: nat, log10: real -> real): real
    requires i < |pairs|
  {
    if !IsStep(pairs, peak, i) then 0.0
    else
      var a, b := GainAt(pairs, peak, i - 1, log10), GainAt(pairs, peak, i, log10);
      if a < b then b - a else a - b
  }

  function Steps(pairs: seq<(real, real)>, peak: real, n: nat): nat
    requires n <= |pairs|
  {
    if n == 0 then 0 else Steps(pairs, peak, n - 1) + if IsStep(pairs, peak, n - 1) then 1 else 0
  }

  /** The loop with its remembered gain sums over the pairs of neighbours. */
  lemma {:induction false} PumpIs(pairs: seq<(real, real)>, peak: real, n: nat, log10: real -> real)
    requires n <= |pairs|
    ensures
      PumpAfter(pairs, peak * 0.01, n, log10) ==
      Pump(if Loud(pairs, peak, n - 1) then Some(GainAt(pairs, peak, n - 1, log10)) else None,
           Changes(pairs, peak, n, log10), Steps(pairs, peak, n))
  {
    if n > 0 {
      PumpIs(pairs, peak, n - 1, log10);
    }
  }

  lemma {:induction false} LoudestIs(pairs: seq<(real, real)>, n: nat)
    requires n <= |pairs|
    ensures PeakOf(pairs, n) >= 0.0 && forall j :: 0 <= j < n ==> pairs[j].0 <= PeakOf(pairs, n)
    ensures PeakOf(pairs, n) == 0.0 || exists j :: 0 <= j < n && pairs[j].0 == PeakOf(pairs, n)
  {
    if n > 0 {
      LoudestIs(pairs, n - 1);
    }
  }

  lemma {:induction false} LoudestIsPeak(pairs: seq<(real, real)>, peak: real)
    requires IsLoudest(pairs, peak) && peak > 0.0
    ensures PeakOf(pairs, |pairs|) == peak
  {
    LoudestIs(pairs, |pairs|);
  }

  lemma {:induction false} ChangesIff(pairs: seq<(real, real)>, peak: real, n: nat, log10: real -> real)
    requires n <= |pairs|
    ensures Changes(pairs, peak, n, log10) >= 0.0
    ensures Changes(pairs, peak, n, log10) > 0.0 <==>
            exists i: nat :: i < n && StepChange(pairs, peak, i, log10) > 0.0
    ensures Changes(pairs, peak, n, log10) > 0.0 ==> Steps(pairs, peak, n) > 0
  {
    if n > 0 {
      ChangesIff(pairs, peak, n - 1, log10);
      if StepChange(pairs, peak, n - 1, log10) > 0.0 {
      } else if i: nat :| i < n && StepChange(pairs, peak, i, log10) > 0.0 {
        assert i < n - 1;
      }
    }
  }

  lemma {:induction false} MeanStep(change: real, count: nat)
    requires change >= 0.0 && count > 0
    ensures
      var score := Clamp(change / count as real / 12.0, 0.0, 1.0);
      && (score > 0.0 <==> change > 0.0)
      && (change <= 12.0 * count as real ==> score * (12.0 * count as real) == change)
      && (change >= 12.0 * count as real ==> score == 1.0)
  {
    var c := count as real;
    var q := change / c;
    assert q * c == change;
    QuotientIsPositive(change, c);
    var score := Clamp(q / 12.0, 0.0, 1.0);
    if q > 12.0 {
      Positive(q - 12.0, c);
    } else {
      NonNegative(12.0 - q, c);
      assert score == q / 12.0;
      assert score * (12.0 * c) == q * c;
    }
    if change >= 12.0 * c && q < 12.0 {
      Positive(12.0 - q, c);
    }
  }

  /** The score is the mean gain change of the steps over twelve decibels, at most one; without a step it is zero. */
  lemma {:induction false} PumpingIs(pairs: seq<(real, real)>, peak: real, log10: real -> real)
    requires IsLoudest(pairs, peak) && peak > 0.000000001
    ensures
      var score, change, count := Pumping(pairs, log10), Changes(pairs, peak, |pairs|, log10),
          Steps(pairs, peak, |pairs|);
      && (count == 0 ==> score == 0.0)
      && (change <= 12.0 * count as real ==> score * (12.0 * count as real) == change)
      && (count > 0 && change >= 12.0 * count as real ==> score == 1.0)
      && (score > 0.0 <==> exists i: nat :: i < |pairs| && StepChange(pairs, peak, i, log10) > 0.0)
  {
    var n := |pairs|;
    LoudestIsPeak(pairs, peak);
    PumpIs(pairs, peak, n, log10);
    ChangesIff(pairs, peak, n, log10);
    if Steps(pairs, peak, n) > 0 {
      MeanStep(Changes(pairs, peak, n, log10), Steps(pairs, peak, n));
    } else {
      assert Changes(pairs, peak, n, log10) == 0.0;
    }
  }

  /** Recordings whose reference is silent do not pump. */
  lemma {:induction false} SilenceDoesNotPump(pairs: seq<(real, real)>, log10: real -> real)
    requires forall j :: 0 <= j < |pairs| ==> pairs[j].0 <= 0.000000001
    ensures Pumping(pairs, log10) == 0.0
  {
    LoudestIs(pairs, |pairs|);
  }

  /** Two loud frames with a step of `g` decibels between them score `g / 12`, at most one. */
  lemma {:induction false} OneStep(pairs: seq<(real, real)>, peak: real, log10: real -> real, g: real)
    requires |pairs| == 2 && IsLoudest(pairs, peak) && peak > 0.000000001 && IsStep(pairs, peak, 1)
    requires g >= 0.0
    requires GainAt(pairs, peak, 1, log10) - GainAt(pairs, peak, 0, log10) == g
        || GainAt(pairs, peak, 0, log10) - GainAt(pairs, peak, 1, log10) == g
    ensures Pumping(pairs, log10) == if g >= 12.0 then 1.0 else g / 12.0
  {
    PumpingIs(pairs, peak, log10);
    assert Changes(pairs, peak, 1, log10) == 0.0 && Steps(pairs, peak, 1) == 0;
    assert Changes(pairs, peak, 2, log10) == g && Steps(pairs, peak, 2) == 1;
  }

  // ------------------------------------------------------------ flux

  /** The rise of the spectrum from one frame to the next, bin by bin. */
  function RiseBefore(current: seq<real>, previous: seq<real>, n: nat): real
    requires n <= |current| && n <= |previous|
  {
    if n == 0 then 0.0
    else RiseBefore(current, previous, n - 1)
         + if previous[n - 1] < current[n - 1] then current[n - 1] - previous[n - 1] else 0.0
  }

  function SumBefore(a: seq<real>, n: nat): real
    requires n <= |a|
  {
    if n == 0 then 0.0 else SumBefore(a, n - 1) + a[n - 1]
  }

  lemma {:induction false} SumFirst(a: seq<real>, n: nat)
    requires 0 < n <= |a|
    ensures SumBefore(a, n) == a[0] + SumBefore(a[1..], n - 1)
  {
    if n > 1 {
      SumFirst(a, n - 1);
    }
  }

  lemma {:induction false} RiseFirst(c: seq<real>, p: seq<real>, n: nat)
    requires 0 < n <= |c| && n <= |p|
    ensures RiseBefore(c, p, n) == (if p[0] < c[0] then c[0] - p[0] else 0.0) + RiseBefore(c[1..], p[1..], n - 1)
  {
    if n > 1 {
      RiseFirst(c, p, n - 1);
    }
  }

  lemma {:induction false} SumIs(a: seq<real>)
    ensures Sum(a) == SumBefore(a, |a|)
  {
    if a != [] {
      SumFirst(a, |a|);
      SumIs(a[1..]);
    }
  }

  lemma {:induction false} RiseIs(c: seq<real>, p: seq<real>)
    requires |c| == |p|
    ensures Rise(c, p) == RiseBefore(c, p, |c|)
  {
    if c != [] {
      RiseFirst(c, p, |c|);
      RiseIs(c[1..], p[1..]);
    }
  }

  lemma {:induction false} RiseIff(c: seq<real>, p: seq<real>, n: nat)
    requires n <= |c| && n <= |p|
    ensures RiseBefore(c, p, n) >= 0.0
    ensures RiseBefore(c, p, n) > 0.0 <==> exists k :: 0 <= k < n && p[k] < c[k]
  {
    if n > 0 {
      RiseIff(c, p, n - 1);
    }
  }

  lemma {:induction false} SumBeforeIsNonNegative(a: seq<real>, n: nat)
    requires n <= |a| && forall i :: 0 <= i < |a| ==> a[i] >= 0.0
    ensures SumBefore(a, n) >= 0.0
  {
    if n > 0 {
      SumBeforeIsNonNegative(a, n - 1);
    }
  }

  /** The flux is the rise over the sum of the frame before, at most a hundred; it is positive exactly when a bin
      rises. */
  lemma {:induction false} FluxIs(current: seq<real>, previous: seq<real>)
    requires |current| == |previous| && forall i :: 0 <= i < |previous| ==> previous[i] >= 0.0
    ensures
      var n := |current|;
      var flux, rise, whole := Flux(current, previous), RiseBefore(current, previous, n),
          SumBefore(previous, n) + 0.000000000001;
      && (rise <= 100.0 * whole ==> flux * whole == rise)
      && (rise >= 100.0 * whole ==> flux == 100.0)
      && (flux > 0.0 <==> exists k :: 0 <= k < n && previous[k] < current[k])
  {
    var n := |current|;
    var rise, whole := RiseBefore(current, previous, n), SumBefore(previous, n) + SMALL;
    SumBeforeIsNonNegative(previous, n);
    FluxQuotient(current, previous, rise, whole);
    RiseIff(current, previous, n);
    QuotientUpTo(rise, whole, 100.0);
  }

  lemma {:induction false} FluxQuotient(current: seq<real>, previous: seq<real>, rise: real, whole: real)
    requires |current| == |previous| && rise == RiseBefore(current, previous, |current|)
    requires whole == SumBefore(previous, |previous|) + SMALL && whole > 0.0
    ensures Flux(current, previous) == Clamp(rise / whole, 0.0, 100.0)
  {
    SumIs(previous);
    RiseIs(current, previous);
  }

  lemma {:induction false} QuotientUpTo(x: real, y: real, limit: real)
    requires x >= 0.0 && y > 0.0 && limit > 0.0
    ensures
      var q := Clamp(x / y, 0.0, limit);
      && (x <= limit * y ==> q * y == x) && (x >= limit * y ==> q == limit) && (q > 0.0 <==> x > 0.0)
  {
    var q := x / y;
    assert q * y == x;
    QuotientIsPositive(x, y);
    if q > limit {
      Positive(q - limit, y);
    }
    if q < limit {
      Positive(limit - q, y);
    }
  }
}
