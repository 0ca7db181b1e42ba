/** The scale-invariant quality metrics over the reals: the target is the orthogonal projection of the estimate
    on the reference. The logarithm and the square root are parameters. */
module Projection {
  import opened Reals

  const FLOOR: real := 0.000000000000000000000000000001

  /** The inner product over the common length. */
  function Dot(a: seq<real>, b: seq<real>): real {
    if a == [] || b == [] then 0.0 else a[0] * b[0] + Dot(a[1..], b[1..])
  }

  function Energy(a: seq<real>): real {
    Dot(a, a)
  }

  function Max(x: real, y: real): real {
    if x >= y then x else y
  }

  function Scale(reference: seq<real>, estimate: seq<real>): real {
    Dot(reference, estimate) / Max(Energy(reference), FLOOR)
  }

  /** The energy of `t` times the reference. */
  function TargetEnergy(reference: seq<real>, t: real): real {
    if reference == [] then 0.0 else (reference[0] * t) * (reference[0] * t) + TargetEnergy(reference[1..], t)
  }

  /** The energy of what `t` times the reference misses of the estimate. */
  function NoiseEnergy(reference: seq<real>, estimate: seq<real>, t: real): real {
    if reference == [] || estimate == [] then 0.0
    else (reference[0] * t - estimate[0]) * (reference[0] * t - estimate[0])
         + NoiseEnergy(reference[1..], estimate[1..], t)
  }

  function SiSdr(reference: seq<real>, estimate: seq<real>, log10: real -> real): real {
    var scale := Scale(reference, estimate);
    10.0 * log10(FlooredRatio(TargetEnergy(reference, scale), NoiseEnergy(reference, estimate, scale)))
  }

  function FlooredRatio(target: real, noise: real): real {
    target / Max(noise, FLOOR)
  }

  // ------------------------------------------------------------ expansions

  lemma {:induction false} Square(x: real)
    ensures x * x >= 0.0
  {
  }

  lemma {:induction false} EnergyIsNonNegative(a: seq<real>)
    ensures Energy(a) >= 0.0
  {
    if a != [] {
      Square(a[0]);
      EnergyIsNonNegative(a[1..]);
    }
  }

  lemma {:induction false} TargetExpands(reference: seq<real>, t: real)
    ensures TargetEnergy(reference, t) == t * t * Energy(reference)
  {
    if reference != [] {
      TargetExpands(reference[1..], t);
      var x, e := reference[0], Energy(reference[1..]);
      assert (x * t) * (x * t) == t * t * (x * x);
      Spread(t * t, x * x, e);
    }
  }

  lemma {:induction false} Spread(a: real, x: real, y: real)
    ensures a * (x + y) == a * x + a * y
  {
  }

  lemma {:induction false} NoiseStep(x: real, y: real, t: real)
    ensures (x * t - y) * (x * t - y) == Quadratic(x * x, x * y, y * y, t)
  {
  }

  /** The noise as a quadratic in the scale. */
  function Quadratic(e: real, d: real, f: real, t: real): real {
    t * t * e - 2.0 * t * d + f
  }

  lemma {:induction false} NoiseExpands(reference: seq<real>, estimate: seq<real>, t: real)
    requires |reference| == |estimate|
    ensures NoiseEnergy(reference, estimate, t)
            == Quadratic(Energy(reference), Dot(reference, estimate), Energy(estimate), t)
  {
    if reference != [] {
      NoiseExpands(reference[1..], estimate[1..], t);
      NoiseStep(reference[0], estimate[0], t);
      QuadraticSum(reference[0] * reference[0], reference[0] * estimate[0], estimate[0] * estimate[0],
                   Energy(reference[1..]), Dot(reference[1..], estimate[1..]), Energy(estimate[1..]), t);
    }
  }

  lemma {:induction false} QuadraticSum(a: real, b: real, c: real, e: real, d: real, f: real, t: real)
    ensures Quadratic(a, b, c, t) + Quadratic(e, d, f, t) == Quadratic(a + e, b + d, c + f, t)
  {
    Spread(t * t, a, e);
    Spread(2.0 * t, b, d);
  }

  lemma {:induction false} NoiseIsNonNegative(reference: seq<real>, estimate: seq<real>, t: real)
    ensures NoiseEnergy(reference, estimate, t) >= 0.0
  {
    if reference != [] && estimate != [] {
      Square(reference[0] * t - estimate[0]);
      NoiseIsNonNegative(reference[1..], estimate[1..], t);
    }
  }

  // ------------------------------------------------------------ the projection

  /** Target and noise share out the energy of the estimate exactly when the reference is not too quiet or is
      orthogonal to the estimate. */
  lemma {:induction false} EnergiesAddUp(reference: seq<real>, estimate: seq<real>)
    requires |reference| == |estimate|
    ensures var s := Scale(reference, estimate);
            TargetEnergy(reference, s) + NoiseEnergy(reference, estimate, s) == Energy(estimate)
            <==> Energy(reference) >= FLOOR || Dot(reference, estimate) == 0.0
  {
    var e, d, s := Energy(reference), Dot(reference, estimate), Scale(reference, estimate);
    Expanded(reference, estimate, s);
    Remainder(e, d, Energy(estimate), s, TargetEnergy(reference, s), NoiseEnergy(reference, estimate, s));
  }

  /** The two energies in terms of the inner products. */
  ghost predicate Expands(e: real, d: real, f: real, s: real, target: real, noise: real) {
    target == s * s * e && noise == Quadratic(e, d, f, s)
  }

  lemma {:induction false} Expanded(reference: seq<real>, estimate: seq<real>, s: real)
    requires |reference| == |estimate|
    ensures Expands(Energy(reference), Dot(reference, estimate), Energy(estimate), s, TargetEnergy(reference, s),
                    NoiseEnergy(reference, estimate, s))
  {
    TargetExpands(reference, s);
    NoiseExpands(reference, estimate, s);
  }

  /** What is left of the energies: twice `s * (s * e - d)`. */
  lemma {:induction false} Remainder(e: real, d: real, f: real, s: real, target: real, noise: real)
    requires s == d / Max(e, FLOOR) && Expands(e, d, f, s, target, noise)
    ensures target + noise == f <==> e >= FLOOR || d == 0.0
  {
    var m := Max(e, FLOOR);
    assert s * m == d;
    assert s * s * e + (s * s * e - 2.0 * s * d) == 2.0 * (s * (s * (e - m))) by {
      assert s * d == s * (s * m);
    }
    if e < FLOOR {
      if d == 0.0 {
        assert s == 0.0;
      } else {
        NonZero(s, m);
        Product(s, e - m);
        Product(s, s * (e - m));
      }
    }
  }

  lemma {:induction false} NonZero(s: real, m: real)
    requires s * m != 0.0
    ensures s != 0.0
  {
  }

  lemma {:induction false} Product(a: real, b: real)
    requires a != 0.0 && b != 0.0
    ensures a * b != 0.0
  {
  }

  lemma {:induction false} ScaleSolves(reference: seq<real>, estimate: seq<real>)
    requires Energy(reference) >= FLOOR
    ensures Scale(reference, estimate) * Energy(reference) == Dot(reference, estimate)
  {
  }

  /** The noise is orthogonal to the reference, and no other scale leaves less. */
  lemma {:induction false} ScaleIsOptimal(reference: seq<real>, estimate: seq<real>, t: real)
    requires |reference| == |estimate| && Energy(reference) >= FLOOR
    ensures var s := Scale(reference, estimate);
            && s * Energy(reference) == Dot(reference, estimate)
            && NoiseEnergy(reference, estimate, t)
                == NoiseEnergy(reference, estimate, s) + (t - s) * (t - s) * Energy(reference)
            && NoiseEnergy(reference, estimate, s) <= NoiseEnergy(reference, estimate, t)
            && (NoiseEnergy(reference, estimate, t) == NoiseEnergy(reference, estimate, s) ==> t == s)
  {
    var e, d, s := Energy(reference), Dot(reference, estimate), Scale(reference, estimate);
    ScaleSolves(reference, estimate);
    NoiseGap(reference, estimate, s, t - s);
    GapIsSquare(e, d, s, t - s);
    Excess(t - s, e);
  }

  /** How the noise changes with the scale: by a square, and by twice the product of the noise with the
      reference. */
  lemma {:induction false} NoiseGap(reference: seq<real>, estimate: seq<real>, s: real, u: real)
    requires |reference| == |estimate|
    ensures NoiseEnergy(reference, estimate, s + u)
            == NoiseEnergy(reference, estimate, s) + Gap(Energy(reference), Dot(reference, estimate), s, u)
  {
    NoiseExpands(reference, estimate, s + u);
    NoiseExpands(reference, estimate, s);
    QuadraticGap(Energy(reference), Dot(reference, estimate), Energy(estimate), s, u);
  }

  lemma {:induction false} QuadraticGap(e: real, d: real, f: real, s: real, u: real)
    ensures Quadratic(e, d, f, s + u) == Quadratic(e, d, f, s) + Gap(e, d, s, u)
  {
  }

  function Gap(e: real, d: real, s: real, u: real): real {
    u * u * e + 2.0 * u * (s * e - d)
  }

  lemma {:induction false} GapIsSquare(e: real, d: real, s: real, u: real)
    requires s * e == d
    ensures Gap(e, d, s, u) == u * u * e
  {
    assert s * e - d == 0.0;
  }

  lemma {:induction false} Excess(u: real, e: real)
    requires e > 0.0
    ensures u * u * e >= 0.0 && (u * u * e == 0.0 ==> u == 0.0)
  {
    Regroup(u, e);
    if u > 0.0 {
      Positive(u, e);
      Positive(u, u * e);
    } else if u < 0.0 {
      Positive(-u, e);
      Positive(-u, (-u) * e);
    }
  }

  lemma {:induction false} Regroup(u: real, e: real)
    ensures u * u * e == u * (u * e) == (-u) * ((-u) * e)
  {
  }

  // ------------------------------------------------------------ gain and offset

  function Gain(a: seq<real>, g: real): (r: seq<real>)
    ensures |r| == |a|
  {
    if a == [] then [] else [g * a[0]] + Gain(a[1..], g)
  }

  lemma {:induction false} GainDot(reference: seq<real>, estimate: seq<real>, g: real)
    requires |reference| == |estimate|
    ensures Dot(reference, Gain(estimate, g)) == g * Dot(reference, estimate)
  {
    if reference != [] {
      GainDot(reference[1..], estimate[1..], g);
      var x, y := reference[0], estimate[0];
      assert x * (g * y) == g * (x * y);
      Spread(g, x * y, Dot(reference[1..], estimate[1..]));
    }
  }

  lemma {:induction false} GainEnergy(estimate: seq<real>, g: real)
    ensures Energy(Gain(estimate, g)) == g * g * Energy(estimate)
  {
    if estimate != [] {
      GainEnergy(estimate[1..], g);
      var y := estimate[0];
      assert (g * y) * (g * y) == g * g * (y * y);
      Spread(g * g, y * y, Energy(estimate[1..]));
    }
  }

  lemma {:induction false} GainScale(reference: seq<real>, estimate: seq<real>, g: real)
    requires |reference| == |estimate|
    ensures Scale(reference, Gain(estimate, g)) == g * Scale(reference, estimate)
  {
    GainDot(reference, estimate, g);
    Quotient(Dot(reference, estimate), g, Max(Energy(reference), FLOOR));
  }

  /** Scaling the estimate scales both energies by the square of the gain. */
  lemma {:induction false} GainScalesEnergies(reference: seq<real>, estimate: seq<real>, g: real, s: real, u: real)
    requires |reference| == |estimate| && s == Scale(reference, estimate) && u == Scale(reference, Gain(estimate, g))
    ensures u == g * s
    ensures IsTimes(TargetEnergy(reference, u), g * g, TargetEnergy(reference, s))
    ensures IsTimes(NoiseEnergy(reference, Gain(estimate, g), u), g * g, NoiseEnergy(reference, estimate, s))
  {
    GainScale(reference, estimate, g);
    GainTarget(reference, s, u, g);
    GainNoise(reference, estimate, s, u, g);
  }

  predicate IsTimes(x: real, k: real, y: real) {
    x == k * y
  }

  lemma {:induction false} TimesSum(x: real, y: real, k: real, a: real, b: real)
    requires IsTimes(x, k, a) && IsTimes(y, k, b)
    ensures IsTimes(x + y, k, a + b)
  {
    Spread(k, a, b);
  }

  lemma {:induction false} GainSquare(y: real, g: real)
    ensures (g * y) * (g * y) == g * g * (y * y)
  {
  }

  /** One sample: a gain on both scale and estimate is a gain on what the projection misses. */
  lemma {:induction false} GainStep(x: real, y: real, s: real, u: real, g: real)
    requires u == g * s
    ensures IsTimes((x * u - g * y) * (x * u - g * y), g * g, (x * s - y) * (x * s - y))
  {
    assert x * u - g * y == g * (x * s - y);
    GainSquare(x * s - y, g);
  }

  lemma {:induction false} TargetStep(x: real, s: real, u: real, g: real)
    requires u == g * s
    ensures IsTimes((x * u) * (x * u), g * g, (x * s) * (x * s))
  {
    assert x * u == g * (x * s);
    GainSquare(x * s, g);
  }

  lemma {:induction false} GainTarget(reference: seq<real>, s: real, u: real, g: real)
    requires u == g * s
    ensures IsTimes(TargetEnergy(reference, u), g * g, TargetEnergy(reference, s))
  {
    if reference != [] {
      var x := reference[0];
      GainTarget(reference[1..], s, u, g);
      TargetStep(x, s, u, g);
      TimesSum((x * u) * (x * u), TargetEnergy(reference[1..], u), g * g, (x * s) * (x * s),
               TargetEnergy(reference[1..], s));
    }
  }

  lemma {:induction false} GainNoise(reference: seq<real>, estimate: seq<real>, s: real, u: real, g: real)
    requires |reference| == |estimate| && u == g * s
    ensures IsTimes(NoiseEnergy(reference, Gain(estimate, g), u), g * g, NoiseEnergy(reference, estimate, s))
  {
    if reference != [] {
      var x, y := reference[0], estimate[0];
      GainNoise(reference[1..], estimate[1..], s, u, g);
      GainStep(x, y, s, u, g);
      TimesSum((x * u - g * y) * (x * u - g * y), NoiseEnergy(reference[1..], Gain(estimate[1..], g), u), g * g,
               (x * s - y) * (x * s - y), NoiseEnergy(reference[1..], estimate[1..], s));
    }
  }

  /** A gain leaves the metric alone, as long as the noise is above the floor before and after. */
  lemma {:induction false} GainDoesNotMatter(reference: seq<real>, estimate: seq<real>, g: real, log10: real -> real)
    requires |reference| == |estimate|
    requires NoiseEnergy(reference, estimate, Scale(reference, estimate)) >= FLOOR
    requires NoiseEnergy(reference, Gain(estimate, g), Scale(reference, Gain(estimate, g))) >= FLOOR
    ensures SiSdr(reference, Gain(estimate, g), log10) == SiSdr(reference, estimate, log10)
  {
    var s, u := Scale(reference, estimate), Scale(reference, Gain(estimate, g));
    GainScalesEnergies(reference, estimate, g, s, u);
    SameRatio(TargetEnergy(reference, s), NoiseEnergy(reference, estimate, s), g * g, TargetEnergy(reference, u),
              NoiseEnergy(reference, Gain(estimate, g), u));
  }

  lemma {:induction false} SameRatio(t: real, n: real, k: real, t': real, n': real)
    requires IsTimes(t', k, t) && IsTimes(n', k, n) && n >= FLOOR && n' >= FLOOR
    ensures FlooredRatio(t', n') == FlooredRatio(t, n)
  {
    CommonFactor(t, n, k);
  }

  /** A gain keeps the floored ratio exactly when there is no target, when it keeps all energies, or when the noise is
      not below the floor before and after; the metric stays with it, and only with it if the logarithm tells its
      arguments apart. */
  lemma {:induction false} GainKeepsRatioIff(reference: seq<real>, estimate: seq<real>, g: real, log10: real -> real)
    requires |reference| == |estimate|
    ensures
      var s, u := Scale(reference, estimate), Scale(reference, Gain(estimate, g));
      var before, after := NoiseEnergy(reference, estimate, s), NoiseEnergy(reference, Gain(estimate, g), u);
      var kept := TargetEnergy(reference, s) == 0.0 || g * g == 1.0 || (before >= FLOOR && after >= FLOOR);
      && (FlooredRatio(TargetEnergy(reference, u), after) == FlooredRatio(TargetEnergy(reference, s), before) <==> kept)
      && (kept ==> SiSdr(reference, Gain(estimate, g), log10) == SiSdr(reference, estimate, log10))
      && (Injective(log10) && !kept ==> SiSdr(reference, Gain(estimate, g), log10) != SiSdr(reference, estimate, log10))
  {
    var s, u := Scale(reference, estimate), Scale(reference, Gain(estimate, g));
    GainScalesEnergies(reference, estimate, g, s, u);
    NoiseIsNonNegative(reference, estimate, s);
    Square(g);
    RatioIff(TargetEnergy(reference, s), NoiseEnergy(reference, estimate, s), g * g, TargetEnergy(reference, u),
             NoiseEnergy(reference, Gain(estimate, g), u));
  }

  ghost predicate Injective(f: real -> real) {
    forall x, y {:trigger f(x), f(y)} :: f(x) == f(y) ==> x == y
  }

  lemma {:induction false} RatioIff(t: real, n: real, k: real, t': real, n': real)
    requires IsTimes(t', k, t) && IsTimes(n', k, n) && n >= 0.0 && k >= 0.0
    ensures FlooredRatio(t', n') == FlooredRatio(t, n) <==> t == 0.0 || k == 1.0 || (n >= FLOOR && n' >= FLOOR)
  {
    var m, m' := Max(n, FLOOR), Max(n', FLOOR);
    ScaledQuotient(t, m, k, t', m');
    FloorScales(n, k, n');
  }

  lemma {:induction false} ScaledQuotient(t: real, m: real, k: real, t': real, m': real)
    requires m > 0.0 && m' > 0.0 && IsTimes(t', k, t)
    ensures t' / m' == t / m <==> t == 0.0 || k * m == m'
  {
    var p, q := t' / m', t / m;
    assert p * m' == t' && q * m == t;
    if p == q {
      assert q * m' == q * (k * m) by {
        assert q * m' == k * t;
        assert k * (q * m) == q * (k * m);
      }
      SameProduct(q, m', k * m);
    }
    if k * m == m' {
      assert q * m' == k * (q * m);
      IsQuotient(t', m', q);
    }
  }

  lemma {:induction false} SameProduct(q: real, a: real, b: real)
    requires q * a == q * b
    ensures q == 0.0 || a == b
  {
    assert q * (a - b) == 0.0;
  }

  /** When the floor scales with the noise. */
  lemma {:induction false} FloorScales(n: real, k: real, n': real)
    requires IsTimes(n', k, n) && n >= 0.0 && k >= 0.0
    ensures k * Max(n, FLOOR) == Max(n', FLOOR) <==> k == 1.0 || (n >= FLOOR && n' >= FLOOR)
  {
    if n < FLOOR {
      if n' >= FLOOR {
        Larger(k, n, FLOOR);
      } else if k * FLOOR == FLOOR {
        SameProduct(FLOOR, k, 1.0);
      }
    }
  }

  lemma {:induction false} Larger(k: real, n: real, f: real)
    requires k >= 0.0 && 0.0 <= n < f && k * n >= f
    ensures k * f > k * n && k != 1.0
  {
    NothingTimes(k, n);
    Positive(k, f - n);
    assert k * (f - n) == k * f - k * n;
  }

  lemma {:induction false} NothingTimes(k: real, n: real)
    ensures k == 0.0 ==> k * n == 0.0
  {
  }

  lemma {:induction false} CommonFactor(t: real, n: real, k: real)
    requires n > 0.0 && k * n > 0.0
    ensures (k * t) / (k * n) == t / n
  {
    var q := t / n;
    Regrouped(k, q, n, t);
    IsQuotient(k * t, k * n, q);
  }

  lemma {:induction false} Regrouped(k: real, q: real, n: real, t: real)
    requires t == q * n
    ensures k * t == q * (k * n)
  {
    assert k * (q * n) == q * (k * n);
  }

  lemma {:induction false} IsQuotient(a: real, b: real, q: real)
    requires b != 0.0 && a == q * b
    ensures a / b == q
  {
  }

  lemma {:induction false} Quotient(d: real, g: real, m: real)
    requires m > 0.0
    ensures g * d / m == g * (d / m)
  {
    var q := d / m;
    assert (g * q) * m == g * d;
  }

  // ------------------------------------------------------------ the centred metric

  function Total(a: seq<real>): real {
    if a == [] then 0.0 else a[0] + Total(a[1..])
  }

  /** Every sample less `m`. */
  function Shift(a: seq<real>, m: real): (r: seq<real>)
    ensures |r| == |a| && forall i :: 0 <= i < |r| ==> r[i] == a[i] - m
  {
    if a == [] then [] else [a[0] - m] + Shift(a[1..], m)
  }

  function Centred(a: seq<real>): seq<real>
    requires a != []
  {
    Shift(a, Total(a) / |a| as real)
  }

  function SiSnr(reference: seq<real>, estimate: seq<real>, log10: real -> real): real
    requires reference != [] && estimate != []
  {
    SiSdr(Centred(reference), Centred(estimate), log10)
  }

  lemma {:induction false} TotalShift(a: seq<real>, m: real)
    ensures Total(Shift(a, m)) == Total(a) - m * |a| as real
  {
    if a != [] {
      TotalShift(a[1..], m);
      Spread(m, 1.0, |a[1..]| as real);
    }
  }

  lemma {:induction false} CentredShift(a: seq<real>, c: real)
    requires a != []
    ensures Centred(Shift(a, c)) == Centred(a)
  {
    TotalShift(a, c);
    MeanShift(Total(a), c, |a| as real);
  }

  lemma {:induction false} MeanShift(x: real, c: real, n: real)
    requires n > 0.0
    ensures (x - c * n) / n == x / n - c
  {
    var q := x / n;
    assert (q - c) * n == x - c * n;
  }

  /** Adding a constant to either signal changes nothing. */
  lemma {:induction false} OffsetDoesNotMatter(reference: seq<real>, estimate: seq<real>, a: real, b: real,
          log10: real -> real)
    requires reference != [] && estimate != []
    ensures SiSnr(Shift(reference, a), Shift(estimate, b), log10) == SiSnr(reference, estimate, log10)
  {
    CentredShift(reference, a);
    CentredShift(estimate, b);
  }

  // ------------------------------------------------------------ correlation

  /** The square root, as far as the metrics need it. */
  ghost predicate IsRoot(root: real -> real) {
    forall x: real :: x >= 0.0 ==> root(x) >= 0.0 && root(x) * root(x) == x
  }

  function Correlation(a: seq<real>, b: seq<real>, root: real -> real): real {
    Dot(a, b) / Max(root(Energy(a) * Energy(b)), FLOOR)
  }

  /** The Cauchy-Schwarz inequality, from the noise of a projection. */
  lemma {:induction false} CauchySchwarz(a: seq<real>, b: seq<real>)
    requires |a| == |b|
    ensures Dot(a, b) * Dot(a, b) <= Energy(a) * Energy(b)
  {
    var e, d, f := Energy(a), Dot(a, b), Energy(b);
    EnergyIsNonNegative(a);
    EnergyIsNonNegative(b);
    if e > 0.0 {
      var t := d / e;
      NoiseExpands(a, b, t);
      NoiseIsNonNegative(a, b, t);
      Discriminant(e, d, f, t);
    } else {
      NoEnergy(a, b);
    }
  }

  lemma {:induction false} Discriminant(e: real, d: real, f: real, t: real)
    requires e > 0.0 && t == d / e && Quadratic(e, d, f, t) >= 0.0
    ensures d * d <= e * f
  {
    assert t * e == d;
    assert t * t * e == t * d;
    NonNegative(f - t * d, e);
    assert (f - t * d) * e == e * f - d * (t * e);
  }

  lemma {:induction false} NoEnergy(a: seq<real>, b: seq<real>)
    requires |a| == |b| && Energy(a) <= 0.0
    ensures Dot(a, b) == 0.0
  {
    if a != [] {
      Square(a[0]);
      EnergyIsNonNegative(a[1..]);
      if a[0] != 0.0 {
        Product(a[0], a[0]);
      }
      NoEnergy(a[1..], b[1..]);
    }
  }

  /** A correlation lies between minus one and one. */
  lemma {:induction false} CorrelationIsBounded(a: seq<real>, b: seq<real>, root: real -> real)
    requires |a| == |b| && IsRoot(root)
    ensures -1.0 <= Correlation(a, b, root) <= 1.0
  {
    CauchySchwarz(a, b);
    EnergyIsNonNegative(a);
    EnergyIsNonNegative(b);
    NonNegative(Energy(a), Energy(b));
    RootBounds(Dot(a, b), root(Energy(a) * Energy(b)));
    Ratio(Dot(a, b), Max(root(Energy(a) * Energy(b)), FLOOR));
  }

  lemma {:induction false} DotIsSymmetric(a: seq<real>, b: seq<real>)
    ensures Dot(a, b) == Dot(b, a)
  {
    if a != [] && b != [] {
      DotIsSymmetric(a[1..], b[1..]);
    }
  }

  lemma {:induction false} CorrelationIsSymmetric(a: seq<real>, b: seq<real>, root: real -> real)
    ensures Correlation(a, b, root) == Correlation(b, a, root)
  {
    DotIsSymmetric(a, b);
    assert Energy(a) * Energy(b) == Energy(b) * Energy(a);
  }

  lemma {:induction false} RootAbove(root: real -> real, x: real, f: real)
    requires IsRoot(root) && f > 0.0 && x >= f * f
    ensures root(x) >= f && root(x) * root(x) == x
  {
    Positive(f, f);
    if root(x) < f {
      Rises(root(x), f);
    }
  }

  /** Above the floor the square of the correlation is the share of the product of the energies that the square of the
      inner product makes up, and its sign is the sign of the inner product. */
  lemma {:induction false} CorrelationIs(a: seq<real>, b: seq<real>, root: real -> real)
    requires IsRoot(root) && Energy(a) * Energy(b) >= FLOOR * FLOOR
    ensures
      var c, d, ef := Correlation(a, b, root), Dot(a, b), Energy(a) * Energy(b);
      (c * c) * ef == d * d && (c > 0.0 <==> d > 0.0) && (c < 0.0 <==> d < 0.0)
  {
    var d, ef := Dot(a, b), Energy(a) * Energy(b);
    RootAbove(root, ef, FLOOR);
    SquaredQuotient(d, root(ef), ef);
  }

  lemma {:induction false} SquaredQuotient(d: real, m: real, ef: real)
    requires m > 0.0 && m * m == ef
    ensures var c := d / m; (c * c) * ef == d * d && (c > 0.0 <==> d > 0.0) && (c < 0.0 <==> d < 0.0)
  {
    var c := d / m;
    assert c * m == d;
    assert (c * c) * (m * m) == (c * m) * (c * m);
    if c > 0.0 {
      Positive(c, m);
    } else if c < 0.0 {
      Positive(-c, m);
    }
  }

  /** A signal and a gain of it are fully correlated, by the sign of the gain. */
  lemma {:induction false} GainCorrelates(a: seq<real>, g: real, root: real -> real)
    requires IsRoot(root) && Energy(a) * Energy(Gain(a, g)) >= FLOOR * FLOOR
    ensures Correlation(a, Gain(a, g), root) == if g > 0.0 then 1.0 else -1.0
  {
    var e, c := Energy(a), Correlation(a, Gain(a, g), root);
    GainDot(a, a, g);
    GainEnergy(a, g);
    CorrelationIs(a, Gain(a, g), root);
    EnergyIsNonNegative(a);
    UnitSquare(c, e, g, e * (g * g * e));
  }

  lemma {:induction false} UnitSquare(c: real, e: real, g: real, ef: real)
    requires e >= 0.0 && ef == e * (g * g * e) && ef > 0.0 && (c * c) * ef == (g * e) * (g * e)
    requires (c > 0.0 <==> g * e > 0.0) && (c < 0.0 <==> g * e < 0.0)
    ensures c == if g > 0.0 then 1.0 else -1.0
  {
    assert (g * e) * (g * e) == ef;
    assert (c * c - 1.0) * ef == 0.0;
    assert c * c == 1.0;
    assert (c - 1.0) * (c + 1.0) == 0.0;
    NonZeroFactors(e, g);
    if g > 0.0 {
      Positive(g, e);
    } else {
      Positive(-g, e);
    }
  }

  lemma {:induction false} NonZeroFactors(e: real, g: real)
    requires e * (g * g * e) > 0.0
    ensures e != 0.0 && g != 0.0
  {
    NoFactor(e, g);
  }

  lemma {:induction false} NoFactor(e: real, g: real)
    ensures e == 0.0 || g == 0.0 ==> e * (g * g * e) == 0.0
  {
    NothingTimes(g, g * e);
    NothingTimes(e, g * g * e);
  }

  // ------------------------------------------------------------ the metrics in closed form

  /** The metric without scale and noise: ten times the logarithm of the share of the energies that the square of the
      inner product makes up, over the share it does not. */
  lemma {:induction false} SiSdrIs(reference: seq<real>, estimate: seq<real>, log10: real -> real, q: real)
    requires |reference| == |estimate|
    requires
      var e, d, f := Energy(reference), Dot(reference, estimate), Energy(estimate);
      e >= FLOOR && e * f - d * d >= FLOOR * e && q * (e * f - d * d) == d * d
    ensures SiSdr(reference, estimate, log10) == 10.0 * log10(q)
  {
    RatioIs(reference, estimate, Energy(reference), Dot(reference, estimate), Energy(estimate), q);
  }

  lemma {:induction false} RatioIs(reference: seq<real>, estimate: seq<real>, e: real, d: real, f: real, q: real)
    requires |reference| == |estimate| && e >= FLOOR && e * f - d * d >= FLOOR * e && q * (e * f - d * d) == d * d
    requires e == Energy(reference) && d == Dot(reference, estimate) && f == Energy(estimate)
    ensures
      var s := Scale(reference, estimate);
      FlooredRatio(TargetEnergy(reference, s), NoiseEnergy(reference, estimate, s)) == q
  {
    var s := Scale(reference, estimate);
    ScaleSolves(reference, estimate);
    Expanded(reference, estimate, s);
    var target, noise := TargetEnergy(reference, s), NoiseEnergy(reference, estimate, s);
    Shares(e, d, f, s, target, noise, q);
    IsQuotient(target, noise, q);
  }

  lemma {:induction false} Shares(e: real, d: real, f: real, s: real, target: real, noise: real, q: real)
    requires e > 0.0 && s * e == d && Expands(e, d, f, s, target, noise)
    requires e * f - d * d >= FLOOR * e && q * (e * f - d * d) == d * d
    ensures noise >= FLOOR && target == q * noise
  {
    assert target == s * d by {
      assert s * s * e == s * (s * e);
    }
    assert noise == f - s * d;
    assert noise * e == e * f - d * d by {
      assert (s * d) * e == d * (s * e);
    }
    assert target * e == d * d by {
      assert (s * d) * e == d * (s * e);
    }
    if noise < FLOOR {
      Positive(FLOOR - noise, e);
    }
    assert (q * noise) * e == q * (noise * e);
    SameProduct(e, target, q * noise);
  }

  /** The centred metric is the metric of the two signals shifted to sum to zero. */
  lemma {:induction false} SiSnrIs(reference: seq<real>, estimate: seq<real>, a: real, b: real, log10: real -> real)
    requires reference != [] && estimate != []
    requires Total(Shift(reference, a)) == 0.0 && Total(Shift(estimate, b)) == 0.0
    ensures SiSnr(reference, estimate, log10) == SiSdr(Shift(reference, a), Shift(estimate, b), log10)
  {
    TotalShift(reference, a);
    TotalShift(estimate, b);
    IsQuotient(Total(reference), |reference| as real, a);
    IsQuotient(Total(estimate), |estimate| as real, b);
  }
}
