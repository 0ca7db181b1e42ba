/** When the two keys of a bundle score alike: exactly when they call the same trials the repeats. How far the
    scores can be apart otherwise, and that the verdict can then change. */
module KeyRoles {
  import opened Listening
  import opened Texts
  import opened Reals
  import opened Preparation
  import opened Recovery
  import opened RoundTrip
  import opened Scoring
  import opened ScoreProperties
  import opened KeyComparison
  import opened UniformBallots

  ghost predicate SameRoles(x: seq<Answer>, y: seq<Answer>)
    requires |x| == |y|
  {
    forall i :: 0 <= i < |x| ==> x[i].role == y[i].role
  }

  /** Two keys that name the same cases and the two models, each with one core trial for every case. */
  ghost predicate TwoKeys(x: seq<Answer>, y: seq<Answer>) {
    Comparable(x) && Comparable(y) && SameNames(x, y) && TwoModels(x)
  }

  /** Every key has twelve cores, so different roles swap at least one case. */
  lemma {:induction false} NothingSwapped(x: seq<Answer>, y: seq<Answer>)
    requires Scorable(x) && Scorable(y)
    ensures Swapped(x, y) == {} <==> SameRoles(x, y)
  {
    var s, t := WithRole(x, CORE), WithRole(y, CORE);
    if Swapped(x, y) == {} {
      forall i | i in s ensures i in t {
        assert i !in Swapped(x, y);
      }
      assert t == s + (t - s);
      assert |t| == |s| + |t - s|;
      forall i | 0 <= i < |x| ensures x[i].role == y[i].role {
        assert i in s <==> i in t;
      }
    }
  }

  // ------------------------------------------------------------ ballots for one model

  function SideOf(t: Answer, m: Model): Preference {
    if t.a == m then SIDE_A else SIDE_B
  }

  function Answered(t: Answer, up: bool, down: bool): Preference {
    if up then SideOf(t, DPDFNET) else if down then SideOf(t, GTCRN) else TIE
  }

  /** A ballot that prefers the one model in the trials of `liked`, the other in those of `disliked`, and has ties
      everywhere else. */
  function Favouring(trials: seq<Answer>, liked: set<int>, disliked: set<int>): (b: Ballot)
    requires DistinctAnswers(trials)
    ensures forall i :: 0 <= i < |trials| ==>
        trials[i].id in b && b[trials[i].id] == Answered(trials[i], i in liked, i in disliked)
  {
    map i | 0 <= i < |trials| :: trials[i].id := Answered(trials[i], i in liked, i in disliked)
  }

  function Opinion(up: bool, down: bool): Choice {
    if up then CHOSE(DPDFNET) else if down then CHOSE(GTCRN) else UNDECIDED
  }

  lemma {:induction false} ChoiceIs(trials: seq<Answer>, liked: set<int>, disliked: set<int>, i: nat)
    requires DistinctAnswers(trials) && TwoModels(trials) && i < |trials|
    ensures Complete(trials, Favouring(trials, liked, disliked))
    ensures ChoiceOf(trials, Favouring(trials, liked, disliked), i) == Opinion(i in liked, i in disliked)
  {
    TwoModelsAt(trials, i);
  }

  /** The worth of a trial, doubled. */
  function Doubled(i: int, liked: set<int>, disliked: set<int>): int {
    1 + (if i in liked then 1 else 0) - (if i in disliked then 1 else 0)
  }

  lemma {:induction false} OneMoreMember(s: set<int>, t: set<int>, n: int)
    requires forall i :: i in s ==> i <= n
    ensures |s * t| == |(s - {n}) * t| + if n in s && n in t then 1 else 0
  {
    if n in s && n in t {
      assert s * t == (s - {n}) * t + {n};
    } else {
      assert s * t == (s - {n}) * t;
    }
  }

  lemma {:induction false} Nothing(s: set<int>, t: set<int>)
    requires Within(s, 0)
    ensures |s * t| == 0
  {
    forall i ensures i !in s * t {
      assert i in s ==> 0 <= i < 0;
    }
    assert s * t == {};
  }

  ghost predicate IsWorth(v: seq<real>, liked: set<int>, disliked: set<int>) {
    forall i :: 0 <= i < |v| ==> 2.0 * v[i] == Doubled(i, liked, disliked) as real
  }

  /** The worth of the trials in `s`: half a point for each, and half a point for or against. */
  lemma {:induction false} SumWorth(s: set<int>, liked: set<int>, disliked: set<int>, v: seq<real>)
    requires Within(s, |v|) && IsWorth(v, liked, disliked)
    ensures 2.0 * Sum(s, v) == (|s| + |s * liked| - |s * disliked|) as real
  {
    if v == [] {
      Nothing(s, s);
      Nothing(s, liked);
      Nothing(s, disliked);
      assert s * s == s;
    } else {
      var n := |v| - 1;
      SumWorth(s - {n}, liked, disliked, v[..n]);
      SumAgrees(s, s - {n}, v[..n]);
      OneMoreMember(s, liked, n);
      OneMoreMember(s, disliked, n);
      OneMoreMember(s, s, n);
      assert s * s == s && (s - {n}) * s == s - {n};
    }
  }

  lemma {:induction false} FavouringIsWorth(trials: seq<Answer>, liked: set<int>, disliked: set<int>)
    requires DistinctAnswers(trials) && TwoModels(trials) && liked !! disliked
    ensures Complete(trials, Favouring(trials, liked, disliked))
    ensures IsWorth(Values(trials, Favouring(trials, liked, disliked)), liked, disliked)
  {
    assert Complete(trials, Favouring(trials, liked, disliked));
    forall i: nat | i < |trials|
      ensures 2.0 * Worth(ChoiceOf(trials, Favouring(trials, liked, disliked), i)) ==
              Doubled(i, liked, disliked) as real
    {
      ChoiceIs(trials, liked, disliked, i);
    }
  }

  /** The two trials of a case that is in none of the `cases` are both liked, both disliked, or both ties. */
  ghost predicate SplitsOnly(trials: seq<Answer>, liked: set<int>, disliked: set<int>, cases: set<string>) {
    forall i, j {:trigger trials[i].caseId, trials[j].caseId} ::
      0 <= i < |trials| && 0 <= j < |trials| && trials[i].caseId == trials[j].caseId && trials[i].caseId !in cases ==>
        (i in liked <==> j in liked) && (i in disliked <==> j in disliked)
  }

  lemma {:induction false} FavouringSplits(trials: seq<Answer>, liked: set<int>, disliked: set<int>,
          cases: set<string>)
    requires Comparable(trials) && TwoModels(trials) && SplitsOnly(trials, liked, disliked, cases)
    ensures Complete(trials, Favouring(trials, liked, disliked))
    ensures Inconsistencies(trials, Favouring(trials, liked, disliked)) <= |cases|
  {
    var b := Favouring(trials, liked, disliked);
    assert Complete(trials, b);
    InconsistenciesAreSplitCases(trials, b);
    forall c | c in SplitCases(trials, b) ensures c in cases {
      var i, j :| 0 <= i < |trials| && 0 <= j < |trials| && Disagree(trials, b, c, i, j);
      ChoiceIs(trials, liked, disliked, i);
      ChoiceIs(trials, liked, disliked, j);
      assert trials[i].caseId == trials[j].caseId;
    }
    SubsetSize(SplitCases(trials, b), cases);
  }

  /** The overall preference of such a ballot with the given core trials. */
  ghost predicate Favours(overall: real, cores: set<int>, liked: set<int>, disliked: set<int>) {
    24.0 * overall == (12 + |cores * liked| - |cores * disliked|) as real
  }

  ghost predicate NoStratumLow(strata: Strata) {
    forall s :: strata.Of(s) >= 0.5
  }

  /** `n` listeners with one such ballot, scored by either key. */
  lemma {:induction false} FavouringOutcome(x: seq<Answer>, y: seq<Answer>, liked: set<int>, disliked: set<int>,
          cases: set<string>, n: nat)
    returns (o: Outcome)
    requires TwoKeys(x, y) && liked !! disliked && SplitsOnly(x, liked, disliked, cases) && |cases| <= 2 && n > 0
    ensures Complete(y, Favouring(x, liked, disliked))
    ensures IsOutcome(y, Copies(Favouring(x, liked, disliked), n), o)
    ensures |o.retained| == n && 4.0 * o.aggregate <= |cases| as real
    ensures Favours(o.overall, WithRole(y, CORE), liked, disliked)
    ensures disliked == {} ==> NoStratumLow(o.strata)
  {
    var b := Favouring(x, liked, disliked);
    FavouringSplits(x, liked, disliked, cases);
    SameCount(x, y, b);
    NamesGiveChoices(x, y, b);
    FavouringIsWorth(x, liked, disliked);
    o := UniformOutcome(y, b, n);
    SumWorth(WithRole(y, CORE), liked, disliked, Values(y, b));
    if disliked == {} {
      forall s ensures o.strata.Of(s) >= 0.5 {
        AtLeastHalf(y, b, liked, s);
      }
    }
  }

  lemma {:induction false} AtLeastHalf(y: seq<Answer>, b: Ballot, liked: set<int>, s: Stratum)
    requires Scorable(y) && Complete(y, b) && IsWorth(Values(y, b), liked, {})
    ensures CoresIn(y, s) != {} && Mean(y, b, CoresIn(y, s)) >= 0.5
  {
    var cores := CoresIn(y, s);
    assert |cores| == ExpectedCount(s);
    SumWorth(cores, liked, {}, Values(y, b));
    assert cores * {} == {};
    HalfAtLeast(Sum(cores, Values(y, b)), |cores|);
  }

  lemma {:induction false} HalfAtLeast(sum: real, n: nat)
    requires n > 0 && 2.0 * sum >= n as real
    ensures sum / n as real >= 0.5
  {
    var q := sum / n as real;
    assert q * n as real == sum;
    if q < 0.5 {
      Positive(0.5 - q, n as real);
    }
  }

  // ------------------------------------------------------------ how far apart the scores can be

  lemma {:induction false} HasMember(s: set<int>)
    ensures |s| > 0 <==> exists x :: x in s
  {
    if forall x :: x !in s {
      assert s == {};
    }
  }

  lemma {:induction false} SomeOf(s: set<int>, m: nat) returns (t: set<int>)
    requires m <= |s|
    ensures t <= s && |t| == m
    decreases |s|
  {
    t := s;
    if |s| > m {
      HasMember(s);
      var x :| x in s;
      t := SomeOf(s - {x}, m);
    }
  }

  /** The other trial of a swapped case: the core trial of `y`, a repeat in `x`. */
  lemma {:induction false} SwappedPartner(x: seq<Answer>, y: seq<Answer>, f: seq<int>, i: int)
    requires TwoKeys(x, y) && ArePartners(y, f) && i in Swapped(x, y)
    ensures 0 <= f[i] < |y| && y[f[i]].role == CORE && x[f[i]].role == REPEAT && x[f[i]].caseId == x[i].caseId
  {
    assert IsPartner(y, i, f[i]);
    assert y[f[i]].caseId == y[i].caseId;
  }

  ghost function Image(s: set<int>, f: seq<int>): set<int>
    requires Within(s, |f|)
  {
    set i | i in s :: f[i]
  }

  ghost function CasesOf(trials: seq<Answer>, s: set<int>): set<string>
    requires Within(s, |trials|)
  {
    set i | i in s :: trials[i].caseId
  }

  lemma {:induction false} SwappedApart(x: seq<Answer>, y: seq<Answer>, f: seq<int>, i: int, j: int)
    requires TwoKeys(x, y) && ArePartners(y, f) && i in Swapped(x, y) && j in Swapped(x, y) && i != j
    ensures f[i] != f[j] && x[i].caseId != x[j].caseId
  {
    SwappedPartner(x, y, f, i);
    SwappedPartner(x, y, f, j);
  }

  /** Swapped trials `w` have as many other trials, all repeats in `x` and cores in `y`. */
  lemma {:induction false} SwappedImage(x: seq<Answer>, y: seq<Answer>, f: seq<int>, w: set<int>)
    requires TwoKeys(x, y) && ArePartners(y, f) && w <= Swapped(x, y)
    ensures Within(w, |f|) && |Image(w, f)| == |w|
    ensures Image(w, f) <= WithRole(y, CORE) && Image(w, f) !! WithRole(x, CORE)
  {
    var down := Image(w, f);
    forall i | i in w ensures f[i] in WithRole(y, CORE) && f[i] !in WithRole(x, CORE) {
      SwappedPartner(x, y, f, i);
    }
    forall i, j | i in w && j in w && i != j ensures f[i] != f[j] {
      SwappedApart(x, y, f, i, j);
    }
    forall d | d in down ensures Hit(w, f, d) {
      var i :| i in w && f[i] == d;
    }
    SameSize(w, f, down);
  }

  /** Swapped trials are of as many cases. */
  lemma {:induction false} SwappedCases(x: seq<Answer>, y: seq<Answer>, f: seq<int>, w: set<int>)
    requires TwoKeys(x, y) && ArePartners(y, f) && w <= Swapped(x, y)
    ensures Within(w, |x|) && |CasesOf(x, w)| == |w|
  {
    forall i, j | i in w && j in w && i != j ensures CaseList(x)[i] != CaseList(x)[j] {
      SwappedApart(x, y, f, i, j);
    }
    forall c | c in CasesOf(x, w) ensures Hit(w, CaseList(x), c) {
      var i :| i in w && x[i].caseId == c;
      assert CaseList(x)[i] == c;
    }
    SameSize(w, CaseList(x), CasesOf(x, w));
  }

  lemma {:induction false} SwappedSplits(x: seq<Answer>, y: seq<Answer>, f: seq<int>, w: set<int>)
    requires TwoKeys(x, y) && ArePartners(y, f) && w <= Swapped(x, y) && Within(w, |f|)
    ensures SplitsOnly(x, w, Image(w, f), CasesOf(x, w))
  {
    forall i | 0 <= i < |x| && (i in w || i in Image(w, f)) ensures x[i].caseId in CasesOf(x, w) {
      if i in w {
        assert x[i].caseId in CasesOf(x, w);
      } else {
        var k :| k in w && f[k] == i;
        SwappedPartner(x, y, f, k);
        assert x[k].caseId in CasesOf(x, w);
      }
    }
  }

  lemma {:induction false} SwappedSizes(x: seq<Answer>, y: seq<Answer>, w: set<int>, down: set<int>)
    requires |x| == |y| && w <= Swapped(x, y) && down <= WithRole(y, CORE) && down !! WithRole(x, CORE)
    ensures w !! down
    ensures WithRole(x, CORE) * w == w && WithRole(x, CORE) * down == {}
    ensures WithRole(y, CORE) * w == {} && WithRole(y, CORE) * down == down
  {
  }

  lemma {:induction false} SwappedScores(x: seq<Answer>, y: seq<Answer>, w: set<int>, down: set<int>, o: real, r: real)
    requires |x| == |y| && w <= Swapped(x, y) && down <= WithRole(y, CORE) && down !! WithRole(x, CORE)
    requires |down| == |w| && Favours(o, WithRole(x, CORE), w, down) && Favours(r, WithRole(y, CORE), w, down)
    ensures 12.0 * (o - r) == |w| as real
  {
    SwappedSizes(x, y, w, down);
  }

  /** One ballot for which the overall preferences are as far apart as the limit. */
  lemma {:induction false} LimitAttained(x: seq<Answer>, y: seq<Answer>)
    returns (ballots: seq<Ballot>, o: Outcome, r: Outcome)
    requires TwoKeys(x, y)
    ensures IsOutcome(x, ballots, o) && IsOutcome(y, ballots, r)
    ensures 12.0 * (o.overall - r.overall) == Limit(x, y) as real
  {
    var w := SomeOf(Swapped(x, y), Limit(x, y));
    var f := Partners(y);
    SwappedImage(x, y, f, w);
    ballots, o, r := SwappedBallot(x, y, f, w);
    SwappedScores(x, y, w, Image(w, f), o.overall, r.overall);
  }

  /** The ballot for the swapped trials `w` and against their other trials. */
  lemma {:induction false} SwappedBallot(x: seq<Answer>, y: seq<Answer>, f: seq<int>, w: set<int>)
    returns (ballots: seq<Ballot>, o: Outcome, r: Outcome)
    requires TwoKeys(x, y) && ArePartners(y, f) && w <= Swapped(x, y) && |w| <= 2 && Within(w, |f|)
    ensures IsOutcome(x, ballots, o) && IsOutcome(y, ballots, r)
    ensures Favours(o.overall, WithRole(x, CORE), w, Image(w, f))
    ensures Favours(r.overall, WithRole(y, CORE), w, Image(w, f))
  {
    SwappedCases(x, y, f, w);
    SwappedSplits(x, y, f, w);
    SwappedImage(x, y, f, w);
    SwappedSizes(x, y, w, Image(w, f));
    SameKeyTwice(x, y);
    ballots := Copies(Favouring(x, w, Image(w, f)), 1);
    o := FavouringOutcome(x, x, w, Image(w, f), CasesOf(x, w), 1);
    r := FavouringOutcome(x, y, w, Image(w, f), CasesOf(x, w), 1);
  }

  lemma {:induction false} SameKeyTwice(x: seq<Answer>, y: seq<Answer>)
    requires TwoKeys(x, y)
    ensures TwoKeys(x, x)
  {
  }

  /** The overall preferences are never more than `m` twelfths apart. */
  ghost predicate WithinTwelfths(x: seq<Answer>, y: seq<Answer>, m: nat) {
    forall ballots, o, r {:trigger IsOutcome(x, ballots, o), IsOutcome(y, ballots, r)} ::
      IsOutcome(x, ballots, o) && IsOutcome(y, ballots, r) ==>
        -(m as real) <= 12.0 * (o.overall - r.overall) <= m as real
  }

  lemma {:induction false} AtMostLimit(x: seq<Answer>, y: seq<Answer>)
    requires TwoKeys(x, y)
    ensures WithinTwelfths(x, y, Limit(x, y))
  {
    forall ballots, o, r | IsOutcome(x, ballots, o) && IsOutcome(y, ballots, r)
      ensures -(Limit(x, y) as real) <= 12.0 * (o.overall - r.overall) <= Limit(x, y) as real
    {
      KeysScoreAlike(x, y, ballots, o, r);
    }
  }

  // ------------------------------------------------------------ when the scores are the same

  /** The two keys give every set of ballots the same outcome. */
  ghost predicate AlwaysAlike(x: seq<Answer>, y: seq<Answer>) {
    forall ballots, o, r {:trigger IsOutcome(x, ballots, o), IsOutcome(y, ballots, r)} ::
      IsOutcome(x, ballots, o) && IsOutcome(y, ballots, r) ==> o == r
  }

  lemma {:induction false} RolesGiveSets(x: seq<Answer>, y: seq<Answer>)
    requires SameNames(x, y) && SameRoles(x, y)
    ensures WithRole(x, CORE) == WithRole(y, CORE) && forall s :: CoresIn(x, s) == CoresIn(y, s)
  {
  }

  lemma {:induction false} SameNamesMean(x: seq<Answer>, y: seq<Answer>, ballots: seq<Ballot>, kept: set<int>,
          s: set<int>)
    requires SameNames(x, y) && AllComplete(x, ballots) && AllComplete(y, ballots) && kept != {} && s != {}
    ensures MeanOver(x, ballots, kept, s) == MeanOver(y, ballots, kept, s)
  {
    forall l | 0 <= l < |ballots| ensures Totals(x, ballots, s)[l] == Totals(y, ballots, s)[l] {
      NamesGiveChoices(x, y, ballots[l]);
    }
    assert Totals(x, ballots, s) == Totals(y, ballots, s);
  }

  lemma {:induction false} RolesGiveOutcome(x: seq<Answer>, y: seq<Answer>, ballots: seq<Ballot>, o: Outcome,
          r: Outcome)
    requires TwoKeys(x, y) && SameRoles(x, y) && IsOutcome(x, ballots, o) && IsOutcome(y, ballots, r)
    ensures o == r
  {
    SameOutcomeScreen(x, y, ballots, o, r);
    RolesGiveSets(x, y);
    SameNamesMean(x, y, ballots, o.retained, WithRole(x, CORE));
    forall s ensures o.strata.Of(s) == r.strata.Of(s) {
      assert IsStratum(x, ballots, o.retained, s, o.strata.Of(s))
          && IsStratum(y, ballots, r.retained, s, r.strata.Of(s));
      SameNamesMean(x, y, ballots, o.retained, CoresIn(x, s));
    }
    StrataEqual(o.strata, r.strata);
  }

  /** Two keys give every set of ballots the same outcome exactly when they call the same trials the repeats. */
  lemma {:induction false} RolesDecide(x: seq<Answer>, y: seq<Answer>)
    requires TwoKeys(x, y)
    ensures AlwaysAlike(x, y) <==> SameRoles(x, y)
  {
    NothingSwapped(x, y);
    if SameRoles(x, y) {
      forall ballots, o, r | IsOutcome(x, ballots, o) && IsOutcome(y, ballots, r) ensures o == r {
        RolesGiveOutcome(x, y, ballots, o, r);
      }
    } else {
      var ballots, o, r := LimitAttained(x, y);
      assert o != r;
    }
  }

  // ------------------------------------------------------------ the verdict

  /** The two keys promote the model for the same ballots, wherever the bootstrap interval starts. */
  ghost predicate SameVerdicts(x: seq<Answer>, y: seq<Answer>) {
    forall ballots, o, r, lower {:trigger IsOutcome(x, ballots, o), IsOutcome(y, ballots, r), Accepted(o, lower)} ::
      IsOutcome(x, ballots, o) && IsOutcome(y, ballots, r) ==> (Accepted(o, lower) <==> Accepted(r, lower))
  }

  lemma {:induction false} OneCoreOfCase(y: seq<Answer>, m: nat) returns (j: nat)
    requires Comparable(y) && m < |y|
    ensures j < |y| && WithRole(y, CORE) * TrialsOf(y, y[m].caseId) == {j}
  {
    j := m;
    if y[m].role == REPEAT {
      assert RepeatsOne(y, m);
      j :| 0 <= j < |y| && Repeats(y, m, j);
    }
    forall k | k in WithRole(y, CORE) * TrialsOf(y, y[m].caseId) ensures k == j {
      assert y[k].caseId == y[j].caseId;
    }
  }

  lemma {:induction false} OtherCase(x: seq<Answer>, i: nat) returns (m: nat)
    requires Comparable(x) && i < |x| && x[i].role == CORE
    ensures m < |x| && x[m].caseId != x[i].caseId
  {
    var rest := WithRole(x, CORE) - {i};
    assert WithRole(x, CORE) == rest + {i};
    assert |rest| == 11;
    m :| m in rest;
  }

  /** Trial `i` and all trials of another case are liked: the core trials of `x` among them are two, those of `y`
      only one. */
  lemma {:induction false} LikedCores(x: seq<Answer>, y: seq<Answer>, i: nat, m: nat)
    requires TwoKeys(x, y) && i in Swapped(x, y) && m < |x| && x[m].caseId != x[i].caseId
    ensures
      var liked := TrialsOf(x, x[m].caseId) + {i};
      |WithRole(x, CORE) * liked| == 2 && |WithRole(y, CORE) * liked| == 1
  {
    NamesGiveTrials(x, y, x[m].caseId);
    var j := OneCoreOfCase(x, m);
    var k := OneCoreOfCase(y, m);
    OneMoreIn(WithRole(x, CORE), TrialsOf(x, x[m].caseId), i, j);
    NoMoreIn(WithRole(y, CORE), TrialsOf(x, x[m].caseId), i);
  }

  lemma {:induction false} NamesGiveTrials(x: seq<Answer>, y: seq<Answer>, c: string)
    requires SameNames(x, y)
    ensures TrialsOf(x, c) == TrialsOf(y, c)
  {
  }

  lemma {:induction false} OneMoreIn(s: set<int>, t: set<int>, i: int, j: int)
    requires s * t == {j} && i in s && i !in t
    ensures |s * (t + {i})| == 2
  {
    assert j in t;
    assert s * (t + {i}) == {j, i};
  }

  lemma {:induction false} NoMoreIn(s: set<int>, t: set<int>, i: int)
    requires i !in s
    ensures s * (t + {i}) == s * t
  {
  }

  lemma {:induction false} LikedSplits(x: seq<Answer>, i: nat, m: nat)
    requires i < |x| && m < |x|
    ensures SplitsOnly(x, TrialsOf(x, x[m].caseId) + {i}, {}, {x[i].caseId})
  {
  }

  /** Every check passes, apart from those of the overall preference and of the bootstrap interval. */
  ghost predicate AlmostAccepted(o: Outcome) {
    |o.retained| == 20 && 4.0 * o.aggregate <= 1.0 && NoStratumLow(o.strata)
  }

  ghost predicate Promotes(o: Outcome, yes: bool) {
    forall lower :: Accepted(o, lower) <==> yes && lower >= 0.5
  }

  lemma {:induction false} Verdict(o: Outcome)
    requires AlmostAccepted(o)
    ensures Promotes(o, o.overall >= 0.55)
  {
    assert o.strata.Of(RECORDED) >= 0.5 && o.strata.Of(BABBLE) >= 0.5;
    assert o.strata.Of(PRESERVATION) >= 0.5 && o.strata.Of(SYNTHETIC) >= 0.5;
  }

  /** For every swapped case there are ballots of twenty listeners that promote the model with the key in which
      the trial is a core trial, and not with the other. */
  lemma {:induction false} VerdictChanges(x: seq<Answer>, y: seq<Answer>, i: nat)
    returns (ballots: seq<Ballot>, o: Outcome, r: Outcome)
    requires TwoKeys(x, y) && i in Swapped(x, y)
    ensures IsOutcome(x, ballots, o) && IsOutcome(y, ballots, r)
    ensures Promotes(o, true) && Promotes(r, false)
  {
    var m := OtherCase(x, i);
    var liked := TrialsOf(x, x[m].caseId) + {i};
    LikedCores(x, y, i, m);
    LikedSplits(x, i, m);
    SameKeyTwice(x, y);
    ballots := Copies(Favouring(x, liked, {}), 20);
    o := LikedOutcome(x, x, liked, x[i].caseId, 2);
    r := LikedOutcome(x, y, liked, x[i].caseId, 1);
  }

  lemma {:induction false} LikedScore(overall: real, cores: set<int>, liked: set<int>, n: nat)
    requires Favours(overall, cores, liked, {}) && |cores * liked| == n && 1 <= n <= 2
    ensures overall >= 0.55 <==> n == 2
  {
    assert cores * {} == {};
  }

  /** Twenty listeners who like two core trials suffice, one does not. */
  lemma {:induction false} LikedOutcome(x: seq<Answer>, y: seq<Answer>, liked: set<int>, c: string, n: nat)
    returns (o: Outcome)
    requires TwoKeys(x, y) && SplitsOnly(x, liked, {}, {c}) && |WithRole(y, CORE) * liked| == n && 1 <= n <= 2
    ensures IsOutcome(y, Copies(Favouring(x, liked, {}), 20), o)
    ensures Promotes(o, n == 2)
  {
    o := FavouringOutcome(x, y, liked, {}, {c}, 20);
    assert |{c}| == 1 && AlmostAccepted(o);
    LikedScore(o.overall, WithRole(y, CORE), liked, n);
    Verdict(o);
  }

  /** Two keys promote the model for the same ballots exactly when they call the same trials the repeats. */
  lemma {:induction false} RolesDecideVerdicts(x: seq<Answer>, y: seq<Answer>)
    requires TwoKeys(x, y)
    ensures SameVerdicts(x, y) <==> SameRoles(x, y)
  {
    NothingSwapped(x, y);
    if SameRoles(x, y) {
      RolesDecide(x, y);
    } else {
      var i :| i in Swapped(x, y);
      var ballots, o, r := VerdictChanges(x, y, i);
      assert Accepted(o, 0.5) && !Accepted(r, 0.5);
    }
  }

  // ------------------------------------------------------------ the two keys of a bundle

  /** The chosen directories whose repeat has a smaller id than their core trial. */
  ghost function Inverted(k: Keying, dirs: seq<Directory>, strata: seq<Stratum>): set<int>
    requires |dirs| == |strata|
  {
    set d | d in Chosen(k, dirs, strata) && Less(k.repeat(dirs[d].name), k.core(dirs[d].name))
  }

  /** The repeat of a pair has the larger id. */
  lemma {:induction false} RepeatIsLarger(drafts: seq<Answer>, answers: seq<Answer>, i: nat, j: nat)
    requires WithRoles(drafts, answers) && i < |drafts| && j < |drafts| && i != j
    requires drafts[i].caseId == drafts[j].caseId && drafts[i].id != drafts[j].id
    ensures answers[i].role == REPEAT <==> Less(drafts[j].id, drafts[i].id)
  {
    LessTotal(drafts[i].id, drafts[j].id);
    assert RoleRule(drafts, i, answers[i].role, answers[i].duplicateOf);
  }

  /** The other trial of a core trial's directory. */
  lemma {:induction false} OtherTrial(k: Keying, dirs: seq<Directory>, strata: seq<Stratum>, plan: seq<Spec>,
          drafts: seq<Answer>, i: nat, j: nat)
    requires FollowsPlan(k, dirs, strata, plan, drafts) && i < |plan| && j < |plan| && i != j
    requires plan[i].role == CORE && drafts[i].caseId == drafts[j].caseId
    ensures plan[i].place in Chosen(k, dirs, strata)
    ensures plan[j] == Spec(k.repeat(dirs[plan[i].place].name), plan[i].place, REPEAT)
  {
    assert drafts[i].caseId == dirs[plan[i].place].name && drafts[j].caseId == dirs[plan[j].place].name;
    NamesDiffer(dirs, plan[i].place, plan[j].place);
    PlanRepeat(k, dirs, strata, plan, i, j);
  }

  lemma {:induction false} PlanRepeat(k: Keying, dirs: seq<Directory>, strata: seq<Stratum>, plan: seq<Spec>, i: nat,
          j: nat)
    requires |dirs| == |strata| && IsPlan(k, dirs, strata, plan) && i < |plan| && j < |plan| && i != j
    requires plan[i].role == CORE && plan[i].place == plan[j].place
    ensures plan[i].place in Chosen(k, dirs, strata)
    ensures plan[j] == Spec(k.repeat(dirs[plan[i].place].name), plan[i].place, REPEAT)
  {
    OneEach(k, dirs, strata, plan, i, j);
    OneEach(k, dirs, strata, plan, j, j);
    assert plan[j].id == IdOf(k, dirs, plan[j]);
  }

  lemma {:induction false} DraftsDiffer(k: Keying, dirs: seq<Directory>, strata: seq<Stratum>, plan: seq<Spec>,
          drafts: seq<Answer>)
    requires FollowsPlan(k, dirs, strata, plan, drafts)
    ensures forall i, j :: 0 <= i < j < |drafts| ==> drafts[i].id != drafts[j].id
  {
  }

  /** A swapped trial plays an inverted directory. */
  lemma {:induction false} SwappedIsInverted(k: Keying, dirs: seq<Directory>, strata: seq<Stratum>, plan: seq<Spec>,
          drafts: seq<Answer>, answers: seq<Answer>, i: nat)
    requires FollowsPlan(k, dirs, strata, plan, drafts) && WithRoles(drafts, answers) && i < |plan|
    requires plan[i].role == CORE && answers[i].role == REPEAT
    ensures plan[i].place in Inverted(k, dirs, strata)
  {
    DraftsDiffer(k, dirs, strata, plan, drafts);
    var j := RepeatHasCore(drafts, answers, i);
    OtherTrial(k, dirs, strata, plan, drafts, i, j);
    assert drafts[i].id == plan[i].id && drafts[j].id == plan[j].id;
    assert plan[i].id == IdOf(k, dirs, plan[i]);
    RepeatIsLarger(drafts, answers, i, j);
  }

  /** The core trial of an inverted directory is swapped. */
  lemma {:induction false} InvertedIsSwapped(k: Keying, dirs: seq<Directory>, strata: seq<Stratum>, plan: seq<Spec>,
          drafts: seq<Answer>, answers: seq<Answer>, d: nat)
    returns (i: nat)
    requires FollowsPlan(k, dirs, strata, plan, drafts) && WithRoles(drafts, answers)
    requires d in Inverted(k, dirs, strata)
    ensures i < |plan| && plan[i].place == d && plan[i].role == CORE && answers[i].role == REPEAT
  {
    i := CoreTrial(k, dirs, strata, plan, d);
    var j := RepeatTrial(k, dirs, strata, plan, d);
    DraftsDiffer(k, dirs, strata, plan, drafts);
    assert drafts[i].id == plan[i].id && drafts[j].id == plan[j].id;
    RepeatIsLarger(drafts, answers, i, j);
  }

  /** Recovered answers swap as many cases as there are inverted directories. */
  lemma {:induction false} PlanSwaps(k: Keying, dirs: seq<Directory>, strata: seq<Stratum>, plan: seq<Spec>,
          drafts: seq<Answer>, x: seq<Answer>, y: seq<Answer>)
    requires FollowsPlan(k, dirs, strata, plan, drafts) && WithRoles(drafts, y) && |x| == |y|
    requires forall i :: 0 <= i < |x| ==> x[i].role == plan[i].role
    ensures |Swapped(x, y)| == |Inverted(k, dirs, strata)|
  {
    var s, t := Swapped(x, y), Inverted(k, dirs, strata);
    forall i | i in s ensures Places(plan)[i] in t {
      SwappedIsInverted(k, dirs, strata, plan, drafts, y, i);
    }
    forall d | d in t ensures Hit(s, Places(plan), d) {
      InvertedIsHit(k, dirs, strata, plan, drafts, x, y, d);
    }
    forall i, j | i in s && j in s && i != j ensures Places(plan)[i] != Places(plan)[j] {
      OneEach(k, dirs, strata, plan, i, j);
    }
    SameSize(s, Places(plan), t);
  }

  lemma {:induction false} InvertedIsHit(k: Keying, dirs: seq<Directory>, strata: seq<Stratum>, plan: seq<Spec>,
          drafts: seq<Answer>, x: seq<Answer>, y: seq<Answer>, d: nat)
    requires FollowsPlan(k, dirs, strata, plan, drafts) && WithRoles(drafts, y) && |x| == |y|
    requires (forall i :: 0 <= i < |x| ==> x[i].role == plan[i].role) && d in Inverted(k, dirs, strata)
    ensures Hit(Swapped(x, y), Places(plan), d)
  {
    var i := InvertedIsSwapped(k, dirs, strata, plan, drafts, y, d);
    HitAt(x, y, Places(plan), i, d);
  }

  lemma {:induction false} HitAt(x: seq<Answer>, y: seq<Answer>, places: seq<int>, i: nat, d: int)
    requires |x| == |y| == |places| && i < |x| && x[i].role == CORE && y[i].role == REPEAT && places[i] == d
    ensures Hit(Swapped(x, y), places, d)
  {
    assert i in Swapped(x, y);
  }

  /** What the prepared answers say about roles and models. */
  lemma {:induction false} PreparedAnswers(k: Keying, dirs: seq<Directory>, strata: seq<Stratum>, plan: seq<Spec>,
          trials: seq<Answer>)
    requires |dirs| == |strata| && |trials| == |plan| && forall i :: 0 <= i < |plan| ==> plan[i].place < |dirs|
    requires forall i :: 0 <= i < |plan| ==> trials[i] == PrivateOf(k, dirs, strata, plan[i])
    ensures TwoModels(trials) && forall i :: 0 <= i < |trials| ==> trials[i].role == plan[i].role
  {
  }

  lemma {:induction false} BundleAnswers(k: Keying, h: Hashes, matrix: seq<Case>, dirs: seq<Directory>,
          strata: seq<Stratum>, plan: seq<Spec>, b: Bundle)
    requires Prepared(k, h, matrix, dirs, strata, plan, b)
    ensures TwoModels(b.key.trials) && |b.key.trials| == |plan|
    ensures forall i :: 0 <= i < |plan| ==> b.key.trials[i].role == plan[i].role
    ensures |dirs| == |strata| && IsPlan(k, dirs, strata, plan)
  {
    PreparedAnswers(k, dirs, strata, plan, b.key.trials);
  }

  /** The two keys of a bundle swap as many cases as there are inverted directories. */
  lemma {:induction false} BundleKeys(k: Keying, h: Hashes, matrix: seq<Case>, dirs: seq<Directory>,
          strata: seq<Stratum>, plan: seq<Spec>, b: Bundle, drafts: seq<Answer>, key: AnswerKey)
    requires Prepared(k, h, matrix, dirs, strata, plan, b) && IsRecovered(b.protocol, h, matrix, dirs, drafts, key)
    ensures TwoKeys(b.key.trials, key.trials) && |dirs| == |strata| && IsPlan(k, dirs, strata, plan)
    ensures |Swapped(b.key.trials, key.trials)| == |Inverted(k, dirs, strata)|
  {
    KeysComparable(k, h, matrix, dirs, strata, plan, b, drafts, key);
    BundleAnswers(k, h, matrix, dirs, strata, plan, b);
    DraftsFollow(k, h, matrix, dirs, strata, plan, b, drafts);
    PlanSwaps(k, dirs, strata, plan, drafts, b.key.trials, key.trials);
  }

  /** In every chosen directory the core trial has the smaller id. */
  ghost predicate InIdOrder(k: Keying, dirs: seq<Directory>, strata: seq<Stratum>)
    requires |dirs| == |strata|
  {
    forall d: nat :: d < |dirs| && IsChosen(k, dirs, strata, d) ==>
      Less(k.core(dirs[d].name), k.repeat(dirs[d].name))
  }

  /** The recovered key stands for the prepared one, in every score and in every verdict, exactly when in every
      chosen directory the core trial has the smaller id. */
  lemma {:induction false} BundleAlikeIff(k: Keying, h: Hashes, matrix: seq<Case>, dirs: seq<Directory>,
          strata: seq<Stratum>, plan: seq<Spec>, b: Bundle, drafts: seq<Answer>, key: AnswerKey)
    requires Prepared(k, h, matrix, dirs, strata, plan, b) && IsRecovered(b.protocol, h, matrix, dirs, drafts, key)
    ensures |dirs| == |strata|
    ensures AlwaysAlike(b.key.trials, key.trials) <==> InIdOrder(k, dirs, strata)
    ensures SameVerdicts(b.key.trials, key.trials) <==> InIdOrder(k, dirs, strata)
  {
    BundleKeys(k, h, matrix, dirs, strata, plan, b, drafts, key);
    ChosenInOrder(k, dirs, strata, plan);
    AlikeBySize(b.key.trials, key.trials, Inverted(k, dirs, strata));
  }

  lemma {:induction false} AlikeBySize(x: seq<Answer>, y: seq<Answer>, s: set<int>)
    requires TwoKeys(x, y) && |Swapped(x, y)| == |s|
    ensures AlwaysAlike(x, y) <==> s == {}
    ensures SameVerdicts(x, y) <==> s == {}
  {
    NothingSwapped(x, y);
    RolesDecide(x, y);
    RolesDecideVerdicts(x, y);
    assert |Swapped(x, y)| == 0 <==> Swapped(x, y) == {};
    assert |s| == 0 <==> s == {};
  }

  /** A chosen directory's two ids differ, so no directory is inverted exactly when all are in order. */
  lemma {:induction false} ChosenInOrder(k: Keying, dirs: seq<Directory>, strata: seq<Stratum>, plan: seq<Spec>)
    requires |dirs| == |strata| && IsPlan(k, dirs, strata, plan)
    ensures Inverted(k, dirs, strata) == {} <==> InIdOrder(k, dirs, strata)
  {
    forall d: nat | d < |dirs| && IsChosen(k, dirs, strata, d)
      ensures d in Inverted(k, dirs, strata) <==> !Less(k.core(dirs[d].name), k.repeat(dirs[d].name))
    {
      var i := CoreTrial(k, dirs, strata, plan, d);
      var j := RepeatTrial(k, dirs, strata, plan, d);
      assert plan[i].id != plan[j].id;
      LessTotal(k.core(dirs[d].name), k.repeat(dirs[d].name));
    }
  }

  /** The overall preferences with the two keys of a bundle are a twelfth apart at most for every inverted directory
      and a sixth at most in all, and some ballots get there. */
  lemma {:induction false} BundleLimit(k: Keying, h: Hashes, matrix: seq<Case>, dirs: seq<Directory>,
          strata: seq<Stratum>, plan: seq<Spec>, b: Bundle, drafts: seq<Answer>, key: AnswerKey)
    returns (ballots: seq<Ballot>, o: Outcome, r: Outcome)
    requires Prepared(k, h, matrix, dirs, strata, plan, b) && IsRecovered(b.protocol, h, matrix, dirs, drafts, key)
    ensures |dirs| == |strata|
    ensures
      var m := if |Inverted(k, dirs, strata)| < 2 then |Inverted(k, dirs, strata)| else 2;
      && WithinTwelfths(b.key.trials, key.trials, m)
      && IsOutcome(b.key.trials, ballots, o) && IsOutcome(key.trials, ballots, r)
      && 12.0 * (o.overall - r.overall) == m as real
  {
    BundleKeys(k, h, matrix, dirs, strata, plan, b, drafts, key);
    AtMostLimit(b.key.trials, key.trials);
    ballots, o, r := LimitAttained(b.key.trials, key.trials);
  }

  ghost predicate IsSixthApart(x: seq<Answer>, y: seq<Answer>, ballots: seq<Ballot>, o: Outcome, r: Outcome) {
    IsOutcome(x, ballots, o) && IsOutcome(y, ballots, r) && 6.0 * (o.overall - r.overall) == 1.0
  }

  /** Some ballots get overall preferences a sixth apart. */
  ghost predicate ScoresSixthApart(x: seq<Answer>, y: seq<Answer>) {
    exists ballots, o, r :: IsSixthApart(x, y, ballots, o, r)
  }

  ghost predicate IsVerdictChanged(x: seq<Answer>, y: seq<Answer>, ballots: seq<Ballot>, o: Outcome, r: Outcome) {
    IsOutcome(x, ballots, o) && IsOutcome(y, ballots, r) && Promotes(o, true) && Promotes(r, false)
  }

  /** Some ballots promote the model with the first key, and with the second never. */
  ghost predicate VerdictsDiffer(x: seq<Answer>, y: seq<Answer>) {
    exists ballots, o, r :: IsVerdictChanged(x, y, ballots, o, r)
  }

  /** If two directories are inverted, some ballots get overall preferences a sixth apart, and others promote the model
      with the prepared key and not with the recovered one, although both keys are valid. */
  lemma {:induction false} InvertedBundleDiffers(k: Keying, h: Hashes, matrix: seq<Case>, dirs: seq<Directory>,
          strata: seq<Stratum>, plan: seq<Spec>, b: Bundle, drafts: seq<Answer>, key: AnswerKey)
    requires Prepared(k, h, matrix, dirs, strata, plan, b) && IsRecovered(b.protocol, h, matrix, dirs, drafts, key)
    requires |dirs| == |strata| && |Inverted(k, dirs, strata)| >= 2
    ensures Makes(k, h, matrix, dirs, b) && Recovers(b.protocol, h, matrix, dirs, key)
    ensures ValidKey(b.key, b.protocol, h) && ValidKey(key, b.protocol, h)
    ensures ScoresSixthApart(b.key.trials, key.trials) && VerdictsDiffer(b.key.trials, key.trials)
  {
    BundleKeys(k, h, matrix, dirs, strata, plan, b, drafts, key);
    TwoSwapped(b.key.trials, key.trials);
    BothValid(k, h, matrix, dirs, strata, plan, b, drafts, key);
  }

  lemma {:induction false} BothValid(k: Keying, h: Hashes, matrix: seq<Case>, dirs: seq<Directory>,
          strata: seq<Stratum>, plan: seq<Spec>, b: Bundle, drafts: seq<Answer>, key: AnswerKey)
    requires Prepared(k, h, matrix, dirs, strata, plan, b) && IsRecovered(b.protocol, h, matrix, dirs, drafts, key)
    ensures Makes(k, h, matrix, dirs, b) && Recovers(b.protocol, h, matrix, dirs, key)
    ensures ValidKey(b.key, b.protocol, h) && ValidKey(key, b.protocol, h)
  {
    ByDrawing(k, h, matrix, dirs, strata, plan, b);
    ByMatching(b.protocol, h, matrix, dirs, drafts, key);
    RecoveryAgrees(k, h, matrix, dirs, strata, plan, b, drafts, key);
  }

  lemma {:induction false} TwoSwapped(x: seq<Answer>, y: seq<Answer>)
    requires TwoKeys(x, y) && |Swapped(x, y)| >= 2
    ensures ScoresSixthApart(x, y) && VerdictsDiffer(x, y)
  {
    SixthBySwaps(x, y);
    VerdictBySwaps(x, y);
  }

  lemma {:induction false} SixthBySwaps(x: seq<Answer>, y: seq<Answer>)
    requires TwoKeys(x, y) && |Swapped(x, y)| >= 2
    ensures ScoresSixthApart(x, y)
  {
    var ballots, o, r := LimitAttained(x, y);
    assert IsSixthApart(x, y, ballots, o, r);
  }

  lemma {:induction false} VerdictBySwaps(x: seq<Answer>, y: seq<Answer>)
    requires TwoKeys(x, y) && |Swapped(x, y)| >= 1
    ensures VerdictsDiffer(x, y)
  {
    HasMember(Swapped(x, y));
    var i :| i in Swapped(x, y);
    var ballots, o, r := VerdictChanges(x, y, i);
    assert IsVerdictChanged(x, y, ballots, o, r);
  }
}
