/** What the blind-listening scores mean: the overall preference is the weighted mean of the strata, exchanging
    the sides changes nothing, and exchanging the models reverses every score. */
module ScoreProperties {
  import opened Wrappers
  import opened Listening
  import opened Scoring

  // ------------------------------------------------------------ sums

  lemma {:induction false} SumAdd(s: set<int>, u: seq<real>, v: seq<real>, w: seq<real>)
    requires |u| == |v| == |w| && forall i :: 0 <= i < |u| ==> u[i] == v[i] + w[i]
    ensures Sum(s, u) == Sum(s, v) + Sum(s, w)
  {
    if u != [] {
      var n := |u| - 1;
      SumAdd(s, u[..n], v[..n], w[..n]);
    }
  }

  lemma {:induction false} SumComplement(s: set<int>, v: seq<real>, w: seq<real>, c: real)
    requires |v| == |w| && forall i :: 0 <= i < |v| && i in s ==> w[i] == c - v[i]
    ensures Sum(s, w) == Count(s, |v|) as real * c - Sum(s, v)
  {
    if v != [] {
      var n := |v| - 1;
      SumComplement(s, v[..n], w[..n], c);
      assert (Count(s, n) + 1) as real * c == Count(s, n) as real * c + c;
    }
  }

  /** `x` added up `n` times. */
  ghost function Repeated(n: nat, x: real): real {
    if n == 0 then 0.0 else Repeated(n - 1, x) + x
  }

  lemma {:induction false} RepeatedIs(n: nat, x: real)
    ensures Repeated(n, x) == n as real * x
  {
    if n > 0 {
      RepeatedIs(n - 1, x);
      assert n as real * x == (n - 1) as real * x + x;
    }
  }

  lemma {:induction false} SumClose(s: set<int>, v: seq<real>, w: seq<real>, m: real)
    requires |v| == |w| && forall i :: 0 <= i < |v| && i in s ==> -m <= v[i] - w[i] <= m
    ensures -Repeated(Count(s, |v|), m) <= Sum(s, v) - Sum(s, w) <= Repeated(Count(s, |v|), m)
  {
    if v != [] {
      var n := |v| - 1;
      SumClose(s, v[..n], w[..n], m);
    }
  }

  lemma {:induction false} SumSame(s: set<int>, v: seq<real>, w: seq<real>)
    requires |v| == |w| && forall i :: 0 <= i < |v| && i in s ==> v[i] == w[i]
    ensures Sum(s, v) == Sum(s, w)
  {
    if v != [] {
      var n := |v| - 1;
      SumSame(s, v[..n], w[..n]);
    }
  }

  /** Two sums over paired indices differ by no more than the pairs with different values. */
  lemma {:induction false} PairedSums(s: set<int>, t: set<int>, f: seq<int>, v: seq<real>, d: set<int>)
    requires |f| == |v| && Within(s, |v|) && Within(t, |v|) && forall i :: 0 <= i < |v| ==> 0.0 <= v[i] <= 1.0
    requires forall i :: i in s ==> f[i] in t
    requires forall j :: j in t ==> Hit(s, f, j)
    requires forall i, j :: i in s && j in s && i != j ==> f[i] != f[j]
    requires d <= s && forall i :: i in s && i !in d ==> v[i] == v[f[i]]
    ensures -|d| as real <= Sum(s, v) - Sum(t, v) <= |d| as real
    decreases |s|
  {
    if exists x :: x in s {
      var x :| x in s;
      var s', t', d' := s - {x}, t - {f[x]}, d - {x};
      forall j | j in t' ensures Hit(s', f, j) {
        HitLess(s, f, x, j);
      }
      PairedSums(s', t', f, v, d');
      SumRemove(s, v, x);
      SumRemove(t, v, f[x]);
      assert |d'| == |d| - if x in d then 1 else 0;
    } else {
      NoPairs(s, t, f, v);
    }
  }

  lemma {:induction false} NoPairs(s: set<int>, t: set<int>, f: seq<int>, v: seq<real>)
    requires (forall i :: i !in s) && forall j :: j in t ==> Hit(s, f, j)
    ensures Sum(s, v) == Sum(t, v)
  {
    forall j ensures j !in t {
      assert !Hit(s, f, j);
    }
    SumAgrees(s, t, v);
  }

  // ------------------------------------------------------------ overall is the weighted mean of the strata

  lemma {:induction false} TotalsAdd(trials: seq<Answer>, ballots: seq<Ballot>, kept: set<int>, s: set<int>,
          t: set<int>)
    requires AllComplete(trials, ballots) && s !! t
    ensures Sum(kept, Totals(trials, ballots, s + t))
        == Sum(kept, Totals(trials, ballots, s)) + Sum(kept, Totals(trials, ballots, t))
  {
    var u, v, w := Totals(trials, ballots, s + t), Totals(trials, ballots, s), Totals(trials, ballots, t);
    forall l | 0 <= l < |ballots| ensures u[l] == v[l] + w[l] {
      SumUnion(s, t, Values(trials, ballots[l]));
    }
    SumAdd(kept, u, v, w);
  }

  lemma {:induction false} TotalsSplit(trials: seq<Answer>, ballots: seq<Ballot>, kept: set<int>)
    requires AllComplete(trials, ballots)
    ensures Sum(kept, Totals(trials, ballots, WithRole(trials, CORE))) ==
            Sum(kept, Totals(trials, ballots, CoresIn(trials, RECORDED)))
            + Sum(kept, Totals(trials, ballots, CoresIn(trials, BABBLE)))
            + Sum(kept, Totals(trials, ballots, CoresIn(trials, PRESERVATION)))
            + Sum(kept, Totals(trials, ballots, CoresIn(trials, SYNTHETIC)))
  {
    var a, b, c, d := CoresIn(trials, RECORDED), CoresIn(trials, BABBLE), CoresIn(trials, PRESERVATION),
        CoresIn(trials, SYNTHETIC);
    TotalsAdd(trials, ballots, kept, a, b);
    TotalsAdd(trials, ballots, kept, c, d);
    TotalsAdd(trials, ballots, kept, a + b, c + d);
    assert (a + b) + (c + d) == WithRole(trials, CORE);
  }

  lemma {:induction false} Share(x: real, m: nat, n: nat)
    requires m > 0 && n > 0
    ensures m * n > 0 && x / (m * n) as real == x / m as real / n as real
  {
    assert m * n > 0;
    var q := x / m as real / n as real;
    assert x == (q * n as real) * m as real == q * (m * n) as real;
  }

  /** Dividing by the number of listeners first leaves fixed weights. */
  lemma {:induction false} WeighQuotients(total: real, a: real, b: real, c: real, d: real, k: nat)
    requires k > 0 && total == a + b + c + d
    ensures 12.0 * (total / (k * 12) as real) ==
            4.0 * (a / (k * 4) as real) + 3.0 * (b / (k * 3) as real) + 3.0 * (c / (k * 3) as real)
                + 2.0 * (d / (k * 2) as real)
  {
    Share(total, k, 12);
    Share(a, k, 4);
    Share(b, k, 3);
    Share(c, k, 3);
    Share(d, k, 2);
    DivideSum(a, b, k as real);
    DivideSum(a + b, c, k as real);
    DivideSum(a + b + c, d, k as real);
  }

  lemma {:induction false} DivideSum(x: real, y: real, k: real)
    requires k > 0.0
    ensures (x + y) / k == x / k + y / k
  {
    var a, b := x / k, y / k;
    assert (a + b) * k == x + y;
  }

  lemma {:induction false} MeansWeigh(trials: seq<Answer>, ballots: seq<Ballot>, kept: set<int>, all: set<int>,
          a: set<int>, b: set<int>, c: set<int>, d: set<int>)
    requires AllComplete(trials, ballots) && kept != {}
    requires |all| == 12 && |a| == 4 && |b| == 3 && |c| == 3 && |d| == 2
    requires Sum(kept, Totals(trials, ballots, all))
        == Sum(kept, Totals(trials, ballots, a)) + Sum(kept, Totals(trials, ballots, b))
             + Sum(kept, Totals(trials, ballots, c)) + Sum(kept, Totals(trials, ballots, d))
    ensures all != {} && a != {} && b != {} && c != {} && d != {}
    ensures 12.0 * MeanOver(trials, ballots, kept, all) ==
            4.0 * MeanOver(trials, ballots, kept, a) + 3.0 * MeanOver(trials, ballots, kept, b)
            + 3.0 * MeanOver(trials, ballots, kept, c) + 2.0 * MeanOver(trials, ballots, kept, d)
  {
    WeighQuotients(Sum(kept, Totals(trials, ballots, all)), Sum(kept, Totals(trials, ballots, a)),
                   Sum(kept, Totals(trials, ballots, b)),
                   Sum(kept, Totals(trials, ballots, c)), Sum(kept, Totals(trials, ballots, d)), |kept|);
  }

  lemma {:induction false} StrataWeigh(trials: seq<Answer>, ballots: seq<Ballot>, kept: set<int>, overall: real,
          strata: Strata)
    requires AllComplete(trials, ballots) && kept != {} && |WithRole(trials, CORE)| == 12
    requires forall s :: |CoresIn(trials, s)| == ExpectedCount(s)
    requires WithRole(trials, CORE) != {} && overall == MeanOver(trials, ballots, kept, WithRole(trials, CORE))
    requires forall s :: IsStratum(trials, ballots, kept, s, strata.Of(s))
    ensures 12.0 * overall == 4.0 * strata.recorded + 3.0 * strata.babble + 3.0 * strata.preservation
        + 2.0 * strata.synthetic
  {
    var a, b, c, d := CoresIn(trials, RECORDED), CoresIn(trials, BABBLE), CoresIn(trials, PRESERVATION),
        CoresIn(trials, SYNTHETIC);
    TotalsSplit(trials, ballots, kept);
    assert |a| == 4 && |b| == 3 && |c| == 3 && |d| == 2;
    MeansWeigh(trials, ballots, kept, WithRole(trials, CORE), a, b, c, d);
    assert IsStratum(trials, ballots, kept, RECORDED, strata.Of(RECORDED))
        && IsStratum(trials, ballots, kept, BABBLE, strata.Of(BABBLE));
    assert IsStratum(trials, ballots, kept, PRESERVATION, strata.Of(PRESERVATION))
        && IsStratum(trials, ballots, kept, SYNTHETIC, strata.Of(SYNTHETIC));
  }

  /** The overall preference weighs every stratum with its core trials, so listeners that pass the four
      stratum gates put it at 0.4625 or higher. */
  lemma {:induction false} OverallIsWeightedMean(trials: seq<Answer>, ballots: seq<Ballot>, o: Outcome)
    requires Scorable(trials) && IsOutcome(trials, ballots, o)
    ensures 12.0 * o.overall == 4.0 * o.strata.recorded + 3.0 * o.strata.babble + 3.0 * o.strata.preservation
        + 2.0 * o.strata.synthetic
    ensures PassesGates(o.strata) ==> o.overall >= 0.4625
  {
    StrataWeigh(trials, ballots, o.retained, o.overall, o.strata);
  }

  /** A mean is what all core ratings of the stratum by retained listeners add up to, over their number. */
  ghost predicate Averages(trials: seq<Answer>, ballots: seq<Ballot>, kept: set<int>, s: Stratum, mean: real)
    requires AllComplete(trials, ballots)
  {
    mean * (|kept| * |CoresIn(trials, s)|) as real == Sum(kept, Totals(trials, ballots, CoresIn(trials, s)))
  }

  lemma {:induction false} MeanAverages(trials: seq<Answer>, ballots: seq<Ballot>, kept: set<int>, s: Stratum,
          mean: real)
    requires IsStratum(trials, ballots, kept, s, mean)
    ensures Averages(trials, ballots, kept, s, mean)
  {
    var m, n := |kept|, |CoresIn(trials, s)|;
    NoZero(m, n);
    Undivided(Sum(kept, Totals(trials, ballots, CoresIn(trials, s))), (m * n) as real);
  }

  lemma {:induction false} NoZero(m: nat, n: nat)
    requires m > 0 && n > 0
    ensures m * n > 0
  {
  }

  lemma {:induction false} Undivided(x: real, y: real)
    requires y != 0.0
    ensures x / y * y == x
  {
  }

  /** Every stratum score averages the trials of its own stratum. */
  lemma {:induction false} StrataAverage(trials: seq<Answer>, ballots: seq<Ballot>, o: Outcome, s: Stratum)
    requires IsOutcome(trials, ballots, o)
    ensures Averages(trials, ballots, o.retained, s,
                     match s case RECORDED => o.strata.recorded case BABBLE => o.strata.babble
                     case PRESERVATION => o.strata.preservation case SYNTHETIC => o.strata.synthetic)
  {
    assert IsStratum(trials, ballots, o.retained, s, o.strata.Of(s));
    MeanAverages(trials, ballots, o.retained, s, o.strata.Of(s));
  }

  /** The aggregate is the share of inconsistent answers among all answers to the four repeats. */
  lemma {:induction false} AggregateIsShare(trials: seq<Answer>, ballots: seq<Ballot>, o: Outcome)
    requires IsOutcome(trials, ballots, o)
    ensures IsShareOf(o.aggregate, |ballots| * 4, Total(Counts(trials, ballots)))
  {
    AggregateOf(trials, ballots, o);
    Shared(o.aggregate, |ballots| * 4, Total(Counts(trials, ballots)));
  }

  lemma {:induction false} Shared(share: real, whole: nat, part: nat)
    requires whole > 0 && share == part as real / whole as real
    ensures IsShareOf(share, whole, part)
  {
    Undivided(part as real, whole as real);
  }

  predicate IsShareOf(share: real, whole: nat, part: nat) {
    share * whole as real == part as real
  }

  lemma {:induction false} AggregateOf(trials: seq<Answer>, ballots: seq<Ballot>, o: Outcome)
    requires IsOutcome(trials, ballots, o)
    ensures |ballots| > 0 && o.aggregate == Total(Counts(trials, ballots)) as real / (|ballots| * 4) as real
  {
    AnyRetained(trials, ballots);
  }

  predicate PassesGates(s: Strata) {
    s.recorded >= 0.5 && s.babble >= 0.4 && s.preservation >= 0.45 && s.synthetic >= 0.5
  }

  /** Every check of the promotion policy; `lower` is the lower end of the bootstrap interval. */
  predicate Accepted(o: Outcome, lower: real) {
    |o.retained| >= 20 && o.aggregate <= 0.25 && o.overall >= 0.55 && lower >= 0.5 && PassesGates(o.strata)
  }

  /** The outcome that just meets every limit of the policy. */
  function AtTheLimits(retained: set<nat>): Outcome {
    Outcome([], retained, 0.25, 0.55, Strata(0.5, 0.4, 0.45, 0.5))
  }

  /** Meeting all limits is enough, and falling short of any one of them is not. */
  lemma {:induction false} LimitsAreSharp(retained: set<nat>, o: Outcome, lower: real)
    requires |retained| == 20
    ensures Accepted(AtTheLimits(retained), 0.5)
    ensures (|o.retained| < 20 || o.aggregate > 0.25 || o.overall < 0.55 || lower < 0.5) ==> !Accepted(o, lower)
    ensures (o.strata.recorded < 0.5 || o.strata.babble < 0.4) ==> !Accepted(o, lower)
    ensures (o.strata.preservation < 0.45 || o.strata.synthetic < 0.5) ==> !Accepted(o, lower)
  {
    assert PassesGates(Strata(0.5, 0.4, 0.45, 0.5));
  }

  // ------------------------------------------------------------ keys of one shape

  /** Two keys that differ in the models of the sides, or in the digests, at most. */
  ghost predicate SameShape(x: seq<Answer>, y: seq<Answer>) {
    && |x| == |y|
    && forall i :: 0 <= i < |x| ==>
         && x[i].id == y[i].id && x[i].caseId == y[i].caseId && x[i].stratum == y[i].stratum
         && x[i].role == y[i].role && x[i].duplicateOf == y[i].duplicateOf
  }

  /** Two ballots that agree on the same pairs of trials. */
  ghost predicate SameAgreement(x: seq<Answer>, b: Ballot, y: seq<Answer>, c: Ballot)
    requires |x| == |y| && Complete(x, b) && Complete(y, c)
  {
    forall i, j :: 0 <= i < |x| && 0 <= j < |x| ==>
      (ChoiceOf(x, b, i) == ChoiceOf(x, b, j) <==> ChoiceOf(y, c, i) == ChoiceOf(y, c, j))
  }

  lemma {:induction false} ShapeSets(x: seq<Answer>, y: seq<Answer>)
    requires SameShape(x, y)
    ensures WithRole(x, CORE) == WithRole(y, CORE) && WithRole(x, REPEAT) == WithRole(y, REPEAT)
    ensures forall s :: CoresIn(x, s) == CoresIn(y, s)
  {
  }

  lemma {:induction false} SameInconsistent(x: seq<Answer>, b: Ballot, y: seq<Answer>, c: Ballot, i: nat)
    requires SameShape(x, y) && Complete(x, b) && Complete(y, c) && SameAgreement(x, b, y, c)
    requires i < |x| && Inconsistent(x, b, i)
    ensures Inconsistent(y, c, i)
  {
    var j :| 0 <= j < |x| && Repeats(x, i, j) && ChoiceOf(x, b, i) != ChoiceOf(x, b, j);
    assert Repeats(y, i, j);
  }

  lemma {:induction false} SameInconsistencies(x: seq<Answer>, b: Ballot, y: seq<Answer>, c: Ballot)
    requires SameShape(x, y) && Complete(x, b) && Complete(y, c) && SameAgreement(x, b, y, c)
    ensures Inconsistencies(x, b) == Inconsistencies(y, c)
  {
    forall i | 0 <= i < |x| ensures Inconsistent(x, b, i) <==> Inconsistent(y, c, i) {
      if Inconsistent(x, b, i) {
        SameInconsistent(x, b, y, c, i);
      }
      if Inconsistent(y, c, i) {
        SameInconsistent(y, c, x, b, i);
      }
    }
    assert InconsistentTrials(x, b) == InconsistentTrials(y, c);
  }

  /** The screen sees nothing but the counts. */
  ghost predicate SameCounts(x: seq<Answer>, b: seq<Ballot>, y: seq<Answer>, c: seq<Ballot>) {
    && |b| == |c| && AllComplete(x, b) && AllComplete(y, c)
    && forall l :: 0 <= l < |b| ==> Inconsistencies(x, b[l]) == Inconsistencies(y, c[l])
  }

  lemma {:induction false} SameScreen(x: seq<Answer>, b: seq<Ballot>, y: seq<Answer>, c: seq<Ballot>)
    requires SameCounts(x, b, y, c)
    ensures Counts(x, b) == Counts(y, c) && Retained(x, b) == Retained(y, c)
  {
    forall l ensures l in Retained(x, b) <==> l in Retained(y, c) {
      if 0 <= l < |b| {
        assert Inconsistencies(x, b[l]) == Inconsistencies(y, c[l]);
      }
    }
  }

  // ------------------------------------------------------------ exchanging the sides

  function OtherSide(p: Preference): Preference {
    match p case SIDE_A => SIDE_B case SIDE_B => SIDE_A case TIE => TIE
  }

  function FlipAnswer(t: Answer, flipped: set<string>): Answer {
    if t.id in flipped then
      t.(a := t.b, b := t.a, digests := match t.digests case None => None case Some(d) => Some((d.1, d.0)))
    else t
  }

  /** The key with the sides of some trials exchanged. */
  function FlipKey(trials: seq<Answer>, flipped: set<string>): (r: seq<Answer>)
    ensures |r| == |trials| && forall i :: 0 <= i < |r| ==> r[i] == FlipAnswer(trials[i], flipped)
  {
    seq(|trials|, i requires 0 <= i < |trials| => FlipAnswer(trials[i], flipped))
  }

  /** The ballot of a listener who heard the same recordings on the exchanged sides. */
  function FlipBallot(ballot: Ballot, flipped: set<string>): Ballot {
    map id | id in ballot :: if id in flipped then OtherSide(ballot[id]) else ballot[id]
  }

  function FlipBallots(ballots: seq<Ballot>, flipped: set<string>): (r: seq<Ballot>)
    ensures |r| == |ballots| && forall l :: 0 <= l < |r| ==> r[l] == FlipBallot(ballots[l], flipped)
  {
    seq(|ballots|, l requires 0 <= l < |ballots| => FlipBallot(ballots[l], flipped))
  }

  lemma {:induction false} FlippedChoices(trials: seq<Answer>, ballot: Ballot, flipped: set<string>)
    requires Complete(trials, ballot)
    ensures var y, c := FlipKey(trials, flipped), FlipBallot(ballot, flipped);
            && SameShape(trials, y) && Complete(y, c)
            && (forall i :: 0 <= i < |trials| ==> ChoiceOf(y, c, i) == ChoiceOf(trials, ballot, i))
            && Values(y, c) == Values(trials, ballot)
            && Inconsistencies(y, c) == Inconsistencies(trials, ballot)
  {
    var y, c := FlipKey(trials, flipped), FlipBallot(ballot, flipped);
    assert Complete(y, c);
    assert forall i :: 0 <= i < |trials| ==> ChoiceOf(y, c, i) == ChoiceOf(trials, ballot, i);
    SameInconsistencies(trials, ballot, y, c);
  }

  /** Exchanging the sides of any trials, in the key and in the ballots, changes nothing. */
  lemma {:induction false} SidesDoNotMatter(trials: seq<Answer>, ballots: seq<Ballot>, o: Outcome, flipped: set<string>)
    requires IsOutcome(trials, ballots, o)
    ensures IsOutcome(FlipKey(trials, flipped), FlipBallots(ballots, flipped), o)
  {
    var y, c := FlipKey(trials, flipped), FlipBallots(ballots, flipped);
    forall l | 0 <= l < |ballots|
      ensures Complete(y, c[l]) && Values(y, c[l]) == Values(trials, ballots[l])
          && Inconsistencies(y, c[l]) == Inconsistencies(trials, ballots[l])
    {
      FlippedChoices(trials, ballots[l], flipped);
    }
    SameScreen(trials, ballots, y, c);
    ShapeSets(trials, y);
    SameMeans(trials, ballots, y, c, o);
  }

  lemma {:induction false} SameTotals(x: seq<Answer>, b: seq<Ballot>, y: seq<Answer>, c: seq<Ballot>, s: set<int>)
    requires |b| == |c| && AllComplete(x, b) && AllComplete(y, c)
    requires forall l :: 0 <= l < |b| ==> Values(x, b[l]) == Values(y, c[l])
    ensures Totals(x, b, s) == Totals(y, c, s)
  {
    forall l | 0 <= l < |b| ensures Totals(x, b, s)[l] == Totals(y, c, s)[l] {
      assert Values(x, b[l]) == Values(y, c[l]);
    }
  }

  lemma {:induction false} SameMeans(x: seq<Answer>, b: seq<Ballot>, y: seq<Answer>, c: seq<Ballot>, o: Outcome)
    requires |b| == |c| && AllComplete(x, b) && AllComplete(y, c) && IsOutcome(x, b, o)
    requires forall l :: 0 <= l < |b| ==> Values(x, b[l]) == Values(y, c[l])
    requires Counts(x, b) == Counts(y, c) && Retained(x, b) == Retained(y, c)
    requires WithRole(x, CORE) == WithRole(y, CORE) && forall s :: CoresIn(x, s) == CoresIn(y, s)
    ensures IsOutcome(y, c, o)
  {
    SameTotals(x, b, y, c, WithRole(x, CORE));
    forall s ensures IsStratum(y, c, o.retained, s, o.strata.Of(s)) {
      assert IsStratum(x, b, o.retained, s, o.strata.Of(s));
      SameTotals(x, b, y, c, CoresIn(x, s));
    }
  }

  // ------------------------------------------------------------ exchanging the models

  function OtherModel(m: Model): Model {
    match m case DPDFNET => GTCRN case GTCRN => DPDFNET case OTHER_MODEL(_) => m
  }

  function ExchangeModels(trials: seq<Answer>): (r: seq<Answer>)
    ensures |r| == |trials|
    ensures forall i :: 0 <= i < |r| ==> r[i] == trials[i].(a := OtherModel(trials[i].a), b := OtherModel(trials[i].b))
  {
    seq(|trials|, i requires 0 <= i < |trials| =>
                    trials[i].(a := OtherModel(trials[i].a), b := OtherModel(trials[i].b)))
  }

  function ExchangedOutcome(o: Outcome): Outcome {
    o.(overall := 1.0 - o.overall, strata := Complements(o.strata))
  }

  function Complements(s: Strata): (r: Strata)
    ensures forall t :: r.Of(t) == 1.0 - s.Of(t)
  {
    Strata(1.0 - s.recorded, 1.0 - s.babble, 1.0 - s.preservation, 1.0 - s.synthetic)
  }

  ghost predicate TwoModels(trials: seq<Answer>) {
    forall i :: 0 <= i < |trials| ==> {trials[i].a, trials[i].b} == {DPDFNET, GTCRN}
  }

  lemma {:induction false} ExchangedChoices(trials: seq<Answer>, ballot: Ballot)
    requires Complete(trials, ballot) && TwoModels(trials)
    ensures var y := ExchangeModels(trials);
            SameShape(trials, y) && Complete(y, ballot) && Inconsistencies(y, ballot) == Inconsistencies(trials, ballot)
  {
    var y := ExchangeModels(trials);
    assert Complete(y, ballot);
    forall i, j | 0 <= i < |trials| && 0 <= j < |trials|
      ensures ChoiceOf(trials, ballot, i) == ChoiceOf(trials, ballot, j) <==>
          ChoiceOf(y, ballot, i) == ChoiceOf(y, ballot, j)
    {
      TwoModelsAt(trials, i);
      TwoModelsAt(trials, j);
    }
    SameInconsistencies(trials, ballot, y, ballot);
  }

  lemma {:induction false} TwoModelsAt(trials: seq<Answer>, i: nat)
    requires TwoModels(trials) && i < |trials|
    ensures (trials[i].a == DPDFNET && trials[i].b == GTCRN) || (trials[i].a == GTCRN && trials[i].b == DPDFNET)
  {
    assert trials[i].a in {trials[i].a, trials[i].b} && trials[i].b in {trials[i].a, trials[i].b};
    assert DPDFNET in {trials[i].a, trials[i].b} && GTCRN in {trials[i].a, trials[i].b};
  }

  lemma {:induction false} ExchangedValues(trials: seq<Answer>, ballot: Ballot)
    requires Complete(trials, ballot) && TwoModels(trials)
    ensures Complete(ExchangeModels(trials), ballot)
    ensures forall i :: 0 <= i < |trials| ==>
        Values(ExchangeModels(trials), ballot)[i] == 1.0 - Values(trials, ballot)[i]
  {
    assert Complete(ExchangeModels(trials), ballot);
    forall i | 0 <= i < |trials| ensures Values(ExchangeModels(trials), ballot)[i] == 1.0 - Values(trials, ballot)[i] {
      TwoModelsAt(trials, i);
    }
  }

  lemma {:induction false} ExchangedTotals(trials: seq<Answer>, ballots: seq<Ballot>, s: set<int>)
    requires AllComplete(trials, ballots) && TwoModels(trials) && Within(s, |trials|)
    ensures AllComplete(ExchangeModels(trials), ballots)
    ensures forall l :: 0 <= l < |ballots| ==>
              Totals(ExchangeModels(trials), ballots, s)[l] == |s| as real - Totals(trials, ballots, s)[l]
  {
    var y := ExchangeModels(trials);
    forall l | 0 <= l < |ballots| ensures Complete(y, ballots[l]) {
      ExchangedChoices(trials, ballots[l]);
    }
    forall l | 0 <= l < |ballots| ensures Totals(y, ballots, s)[l] == |s| as real - Totals(trials, ballots, s)[l] {
      ExchangedTotal(trials, ballots[l], s);
    }
  }

  lemma {:induction false} ExchangedTotal(trials: seq<Answer>, ballot: Ballot, s: set<int>)
    requires Complete(trials, ballot) && TwoModels(trials) && Within(s, |trials|)
    ensures Complete(ExchangeModels(trials), ballot)
    ensures Sum(s, Values(ExchangeModels(trials), ballot)) == |s| as real - Sum(s, Values(trials, ballot))
  {
    ExchangedValues(trials, ballot);
    SumComplement(s, Values(trials, ballot), Values(ExchangeModels(trials), ballot), 1.0);
    CountAll(s, |trials|);
  }

  lemma {:induction false} ExchangedMean(trials: seq<Answer>, ballots: seq<Ballot>, kept: set<int>, s: set<int>)
    requires AllComplete(trials, ballots) && TwoModels(trials) && kept != {} && s != {}
    requires Within(kept, |ballots|) && Within(s, |trials|)
    ensures AllComplete(ExchangeModels(trials), ballots)
    ensures MeanOver(ExchangeModels(trials), ballots, kept, s) == 1.0 - MeanOver(trials, ballots, kept, s)
  {
    ExchangedTotals(trials, ballots, s);
    ComplementMean(kept, Totals(trials, ballots, s), Totals(ExchangeModels(trials), ballots, s), |s|);
  }

  lemma {:induction false} ComplementMean(kept: set<int>, v: seq<real>, w: seq<real>, n: nat)
    requires |v| == |w| && Within(kept, |v|) && kept != {} && n > 0
    requires forall l :: 0 <= l < |v| ==> w[l] == n as real - v[l]
    ensures |kept| * n > 0 && Sum(kept, w) / (|kept| * n) as real == 1.0 - Sum(kept, v) / (|kept| * n) as real
  {
    SumComplement(kept, v, w, n as real);
    CountAll(kept, |v|);
    assert |kept| > 0;
    Complement(Sum(kept, v), Sum(kept, w), |kept|, n);
  }

  lemma {:induction false} Complement(x: real, y: real, m: nat, n: nat)
    requires m > 0 && n > 0 && y == m as real * n as real - x
    ensures m * n > 0 && y / (m * n) as real == 1.0 - x / (m * n) as real
  {
    assert m * n > 0;
    var k := (m * n) as real;
    assert k == m as real * n as real;
    Parts(x, y, k);
  }

  lemma {:induction false} Parts(x: real, y: real, k: real)
    requires k > 0.0 && x + y == k
    ensures y / k == 1.0 - x / k
  {
    var q, r := x / k, y / k;
    assert q * k == x && r * k == y;
    Distribute(q, r, k);
    assert 1.0 * k == k;
    Cancel(q + r, 1.0, k);
  }

  lemma {:induction false} Distribute(q: real, r: real, k: real)
    ensures (q + r) * k == q * k + r * k
  {
  }

  lemma {:induction false} Cancel(x: real, y: real, k: real)
    requires k > 0.0 && x * k == y * k
    ensures x == y
  {
    assert (x - y) * k == 0.0;
  }

  lemma {:induction false} ExchangedScreen(trials: seq<Answer>, ballots: seq<Ballot>)
    requires AllComplete(trials, ballots) && TwoModels(trials)
    ensures AllComplete(ExchangeModels(trials), ballots)
    ensures Counts(ExchangeModels(trials), ballots) == Counts(trials, ballots)
    ensures Retained(ExchangeModels(trials), ballots) == Retained(trials, ballots)
  {
    var y := ExchangeModels(trials);
    forall l | 0 <= l < |ballots|
      ensures Complete(y, ballots[l]) && Inconsistencies(y, ballots[l]) == Inconsistencies(trials, ballots[l])
    {
      ExchangedChoices(trials, ballots[l]);
    }
    SameScreen(trials, ballots, y, ballots);
  }

  /** Exchanging the two models in the key sends every score to its complement and leaves the screen alone. */
  lemma {:induction false} ModelsExchange(trials: seq<Answer>, ballots: seq<Ballot>, o: Outcome)
    requires IsOutcome(trials, ballots, o) && TwoModels(trials)
    ensures IsOutcome(ExchangeModels(trials), ballots, ExchangedOutcome(o))
  {
    var y := ExchangeModels(trials);
    ExchangedScreen(trials, ballots);
    ShapeSets(trials, y);
    ExchangedMean(trials, ballots, o.retained, WithRole(trials, CORE));
    ExchangedStrata(trials, ballots, o.retained, o.strata);
  }

  lemma {:induction false} ExchangedStrata(trials: seq<Answer>, ballots: seq<Ballot>, kept: set<int>, strata: Strata)
    requires TwoModels(trials) && Within(kept, |ballots|) && forall s ::
        IsStratum(trials, ballots, kept, s, strata.Of(s))
    ensures forall s :: IsStratum(ExchangeModels(trials), ballots, kept, s, Complements(strata).Of(s))
  {
    forall s ensures IsStratum(ExchangeModels(trials), ballots, kept, s, Complements(strata).Of(s)) {
      ExchangedStratum(trials, ballots, kept, s, strata.Of(s));
    }
  }

  lemma {:induction false} ExchangedStratum(trials: seq<Answer>, ballots: seq<Ballot>, kept: set<int>, s: Stratum,
          mean: real)
    requires IsStratum(trials, ballots, kept, s, mean) && TwoModels(trials) && Within(kept, |ballots|)
    ensures IsStratum(ExchangeModels(trials), ballots, kept, s, 1.0 - mean)
  {
    ShapeSets(trials, ExchangeModels(trials));
    ExchangedMean(trials, ballots, kept, CoresIn(trials, s));
  }

  /** One set of ballots never promotes both models. */
  lemma {:induction false} OneModelIsPromoted(trials: seq<Answer>, ballots: seq<Ballot>, o: Outcome, x: Outcome,
          lower: real, upper: real)
    requires IsOutcome(trials, ballots, o) && TwoModels(trials) && IsOutcome(ExchangeModels(trials), ballots, x)
    ensures !(Accepted(o, lower) && Accepted(x, upper))
  {
    ModelsExchange(trials, ballots, o);
    assert x.overall == 1.0 - o.overall;
  }
}
