/** Scoring one bundle with the prepared key and with the recovered key. The two keys may choose another trial of
    a repeated pair as the core; the screen sees no difference, and the overall preference moves little. */
module KeyComparison {
  import opened Wrappers
  import opened Listening
  import opened Preparation
  import opened Reals
  import opened Recovery
  import opened RoundTrip
  import opened Scoring
  import opened ScoreProperties

  /** No case has two core trials. */
  ghost predicate OneCorePerCase(trials: seq<Answer>) {
    forall i, j ::
      (0 <= i < |trials| && 0 <= j < |trials| && trials[i].role == trials[j].role == CORE &&
       trials[i].caseId == trials[j].caseId) ==> i == j
  }

  ghost predicate Comparable(trials: seq<Answer>) {
    Scorable(trials) && OneCorePerCase(trials)
  }

  // ------------------------------------------------------------ inconsistencies are split cases

  /** The listener chose differently in two trials of one case. */
  ghost predicate Split(trials: seq<Answer>, ballot: Ballot, c: string)
    requires Complete(trials, ballot)
  {
    exists i, j :: 0 <= i < |trials| && 0 <= j < |trials| && Disagree(trials, ballot, c, i, j)
  }

  ghost predicate Disagree(trials: seq<Answer>, ballot: Ballot, c: string, i: int, j: int)
    requires Complete(trials, ballot) && 0 <= i < |trials| && 0 <= j < |trials|
  {
    trials[i].caseId == c == trials[j].caseId && ChoiceOf(trials, ballot, i) != ChoiceOf(trials, ballot, j)
  }

  ghost function SplitCases(trials: seq<Answer>, ballot: Ballot): set<string>
    requires Complete(trials, ballot)
  {
    set c | c in CaseIds(trials) && Split(trials, ballot, c)
  }

  function CaseList(trials: seq<Answer>): (r: seq<string>)
    ensures |r| == |trials| && forall i :: 0 <= i < |r| ==> r[i] == trials[i].caseId
  {
    seq(|trials|, i requires 0 <= i < |trials| => trials[i].caseId)
  }

  lemma {:induction false} OneRepeatPerCase(trials: seq<Answer>, i: nat, j: nat)
    requires Comparable(trials) && i < |trials| && j < |trials|
    requires trials[i].role == trials[j].role == REPEAT && trials[i].caseId == trials[j].caseId
    ensures i == j
  {
    assert RepeatsOne(trials, i) && RepeatsOne(trials, j);
    var a :| 0 <= a < |trials| && Repeats(trials, i, a);
    var b :| 0 <= b < |trials| && Repeats(trials, j, b);
    assert a == b;
    assert trials[i].duplicateOf == trials[j].duplicateOf;
  }

  /** A repeat and another trial of its case: the other is the core it repeats. */
  lemma {:induction false} RepeatAndCore(trials: seq<Answer>, i: nat, j: nat)
    requires Comparable(trials) && i < |trials| && j < |trials| && i != j
    requires trials[i].role == REPEAT && trials[i].caseId == trials[j].caseId
    ensures Repeats(trials, i, j)
  {
    if trials[j].role == REPEAT {
      OneRepeatPerCase(trials, i, j);
    }
    assert RepeatsOne(trials, i);
    var a :| 0 <= a < |trials| && Repeats(trials, i, a);
    assert a == j;
  }

  lemma {:induction false} SplitHasRepeat(trials: seq<Answer>, ballot: Ballot, c: string)
    requires Comparable(trials) && Complete(trials, ballot) && Split(trials, ballot, c)
    ensures Hit(InconsistentTrials(trials, ballot), CaseList(trials), c)
  {
    var i, j :| 0 <= i < |trials| && 0 <= j < |trials| && Disagree(trials, ballot, c, i, j);
    var r, o := if trials[i].role == REPEAT then i else j, if trials[i].role == REPEAT then j else i;
    RepeatAndCore(trials, r, o);
    assert Inconsistent(trials, ballot, r);
    assert r in InconsistentTrials(trials, ballot) && CaseList(trials)[r] == c;
  }

  lemma {:induction false} InconsistentIsSplit(trials: seq<Answer>, ballot: Ballot, i: nat)
    requires Complete(trials, ballot) && i < |trials| && Inconsistent(trials, ballot, i)
    ensures trials[i].caseId in SplitCases(trials, ballot)
  {
    var j :| 0 <= j < |trials| && Repeats(trials, i, j) && ChoiceOf(trials, ballot, i) != ChoiceOf(trials, ballot, j);
    assert Disagree(trials, ballot, trials[i].caseId, i, j);
  }

  /** A listener's inconsistencies are the cases that the listener answered in two ways, whichever of a
      case's trials is called the repeat. */
  lemma {:induction false} InconsistenciesAreSplitCases(trials: seq<Answer>, ballot: Ballot)
    requires Comparable(trials) && Complete(trials, ballot)
    ensures Inconsistencies(trials, ballot) == |SplitCases(trials, ballot)|
  {
    var s := InconsistentTrials(trials, ballot);
    forall i | i in s ensures trials[i].role == REPEAT && trials[i].caseId in SplitCases(trials, ballot) {
      InconsistentIsSplit(trials, ballot, i);
    }
    forall c | c in SplitCases(trials, ballot) ensures Hit(s, CaseList(trials), c) {
      SplitHasRepeat(trials, ballot, c);
    }
    forall i, j | i in s && j in s && i != j ensures trials[i].caseId != trials[j].caseId {
      if trials[i].caseId == trials[j].caseId {
        OneRepeatPerCase(trials, i, j);
      }
    }
    SameSize(s, CaseList(trials), SplitCases(trials, ballot));
  }

  // ------------------------------------------------------------ two keys of one bundle

  lemma {:induction false} NamesGiveChoices(x: seq<Answer>, y: seq<Answer>, ballot: Ballot)
    requires SameNames(x, y) && Complete(x, ballot)
    ensures Complete(y, ballot)
    ensures forall i :: 0 <= i < |x| ==> ChoiceOf(x, ballot, i) == ChoiceOf(y, ballot, i)
    ensures Values(x, ballot) == Values(y, ballot)
  {
    assert Complete(y, ballot);
  }

  lemma {:induction false} SameSplit(x: seq<Answer>, y: seq<Answer>, ballot: Ballot, c: string)
    requires SameNames(x, y) && Complete(x, ballot) && Complete(y, ballot) && c in SplitCases(x, ballot)
    ensures c in SplitCases(y, ballot)
  {
    NamesGiveChoices(x, y, ballot);
    var i, j :| 0 <= i < |x| && 0 <= j < |x| && Disagree(x, ballot, c, i, j);
    assert Disagree(y, ballot, c, i, j);
    assert y[i].caseId == c;
  }

  lemma {:induction false} NamesCommute(x: seq<Answer>, y: seq<Answer>)
    requires SameNames(x, y)
    ensures SameNames(y, x)
  {
  }

  lemma {:induction false} SameSplitCases(x: seq<Answer>, y: seq<Answer>, ballot: Ballot)
    requires SameNames(x, y) && Complete(x, ballot) && Complete(y, ballot)
    ensures SplitCases(x, ballot) == SplitCases(y, ballot)
  {
    NamesCommute(x, y);
    forall c ensures c in SplitCases(x, ballot) <==> c in SplitCases(y, ballot) {
      if c in SplitCases(x, ballot) {
        SameSplit(x, y, ballot, c);
      }
      if c in SplitCases(y, ballot) {
        SameSplit(y, x, ballot, c);
      }
    }
  }

  /** Both keys count the same inconsistencies for every listener. */
  lemma {:induction false} SameCount(x: seq<Answer>, y: seq<Answer>, ballot: Ballot)
    requires Comparable(x) && Comparable(y) && SameNames(x, y) && Complete(x, ballot)
    ensures Complete(y, ballot) && Inconsistencies(x, ballot) == Inconsistencies(y, ballot)
  {
    NamesGiveChoices(x, y, ballot);
    InconsistenciesAreSplitCases(x, ballot);
    InconsistenciesAreSplitCases(y, ballot);
    SameSplitCases(x, y, ballot);
  }

  /** The core trial of `y` for the case of trial `i`. */
  ghost predicate IsPartner(y: seq<Answer>, i: int, j: int)
    requires 0 <= i < |y|
  {
    0 <= j < |y| && if y[i].role == CORE then j == i else Repeats(y, i, j)
  }

  ghost predicate ArePartners(y: seq<Answer>, f: seq<int>) {
    |f| == |y| && forall i {:trigger IsPartner(y, i, f[i])} :: 0 <= i < |y| ==> IsPartner(y, i, f[i])
  }

  lemma {:induction false} Partners(y: seq<Answer>) returns (f: seq<int>)
    requires Scorable(y)
    ensures ArePartners(y, f)
  {
    f := [];
    for i := 0 to |y|
      invariant |f| == i && forall k {:trigger IsPartner(y, k, f[k])} :: 0 <= k < i ==> IsPartner(y, k, f[k])
    {
      var j := i;
      if y[i].role == REPEAT {
        assert RepeatsOne(y, i);
        j :| 0 <= j < |y| && Repeats(y, i, j);
      }
      f := f + [j];
    }
  }

  /** Every core trial of `y` is the partner of a core trial of `x`. */
  lemma {:induction false} PartnerOf(x: seq<Answer>, y: seq<Answer>, f: seq<int>, stratum: Option<Stratum>, j: int)
    requires Comparable(x) && Comparable(y) && SameNames(x, y) && ArePartners(y, f) && j in Cores(y, stratum)
    ensures Hit(Cores(x, stratum), f, j)
  {
    var i: int := j;
    if x[j].role == REPEAT {
      assert RepeatsOne(x, j);
      i :| 0 <= i < |x| && Repeats(x, j, i);
    }
    assert i in Cores(x, stratum);
    assert IsPartner(y, i, f[i]);
    assert y[f[i]].role == CORE && y[f[i]].caseId == y[j].caseId;
    assert f[i] == j;
  }

  lemma {:induction false} PartnerInCores(x: seq<Answer>, y: seq<Answer>, f: seq<int>, stratum: Option<Stratum>, i: int)
    requires SameNames(x, y) && |f| == |y| && i in Cores(x, stratum) && IsPartner(y, i, f[i])
    ensures f[i] in Cores(y, stratum)
  {
  }

  lemma {:induction false} PartnersDiffer(x: seq<Answer>, y: seq<Answer>, f: seq<int>, i: int, j: int)
    requires OneCorePerCase(x) && SameNames(x, y) && |f| == |y| && 0 <= i < |x| && 0 <= j < |x| && i != j
    requires x[i].role == x[j].role == CORE && IsPartner(y, i, f[i]) && IsPartner(y, j, f[j])
    ensures f[i] != f[j]
  {
    assert y[f[i]].caseId == x[i].caseId && y[f[j]].caseId == x[j].caseId;
  }

  /** The core trials in `s` whose partner has another value for the listener. */
  ghost function Moved(s: set<int>, f: seq<int>, v: seq<real>): set<int>
    requires |f| == |v| && Within(s, |v|)
  {
    set i | i in s && 0 <= f[i] < |v| && v[i] != v[f[i]]
  }

  lemma {:induction false} MovedAreInconsistent(y: seq<Answer>, ballot: Ballot, s: set<int>, f: seq<int>)
    requires Complete(y, ballot) && ArePartners(y, f) && Within(s, |y|)
    ensures |Moved(s, f, Values(y, ballot))| <= Inconsistencies(y, ballot)
  {
    var d, t := Moved(s, f, Values(y, ballot)), InconsistentTrials(y, ballot);
    forall i | i in d ensures i in t {
      assert IsPartner(y, i, f[i]);
      assert ChoiceOf(y, ballot, i) != ChoiceOf(y, ballot, f[i]);
      assert Inconsistent(y, ballot, i);
    }
    SubsetSize(d, t);
  }

  /** A listener's total moves by no more than the number of inconsistencies. */
  lemma {:induction false} TotalMoves(x: seq<Answer>, y: seq<Answer>, ballot: Ballot, stratum: Option<Stratum>)
    requires Comparable(x) && Comparable(y) && SameNames(x, y) && Complete(x, ballot) && Complete(y, ballot)
    ensures var n := Inconsistencies(y, ballot) as real;
            -n <= Sum(Cores(x, stratum), Values(x, ballot)) - Sum(Cores(y, stratum), Values(y, ballot)) <= n
  {
    var f := Partners(y);
    NamesGiveChoices(x, y, ballot);
    CoresPair(x, y, f, stratum);
    PairsMove(y, ballot, Cores(x, stratum), Cores(y, stratum), f);
  }

  /** `f` pairs the indices of `s` with those of `t`. */
  ghost predicate Pairs(s: set<int>, t: set<int>, f: seq<int>) {
    && Within(s, |f|) && Within(t, |f|)
    && (forall i :: i in s ==> f[i] in t)
    && (forall j :: j in t ==> Hit(s, f, j))
    && forall i, j :: i in s && j in s && i != j ==> f[i] != f[j]
  }

  lemma {:induction false} CoresPair(x: seq<Answer>, y: seq<Answer>, f: seq<int>, stratum: Option<Stratum>)
    requires Comparable(x) && Comparable(y) && SameNames(x, y) && ArePartners(y, f)
    ensures Pairs(Cores(x, stratum), Cores(y, stratum), f)
  {
    var s, t := Cores(x, stratum), Cores(y, stratum);
    forall i | i in s ensures f[i] in t {
      assert IsPartner(y, i, f[i]);
      PartnerInCores(x, y, f, stratum, i);
    }
    forall i, j | i in s && j in s && i != j ensures f[i] != f[j] {
      assert IsPartner(y, i, f[i]) && IsPartner(y, j, f[j]);
      PartnersDiffer(x, y, f, i, j);
    }
    forall j | j in t ensures Hit(s, f, j) {
      PartnerOf(x, y, f, stratum, j);
    }
  }

  lemma {:induction false} PairsMove(y: seq<Answer>, ballot: Ballot, s: set<int>, t: set<int>, f: seq<int>)
    requires Complete(y, ballot) && ArePartners(y, f) && Pairs(s, t, f)
    ensures var n := Inconsistencies(y, ballot) as real;
            -n <= Sum(s, Values(y, ballot)) - Sum(t, Values(y, ballot)) <= n
  {
    MovedAreInconsistent(y, ballot, s, f);
    PairedSums(s, t, f, Values(y, ballot), Moved(s, f, Values(y, ballot)));
  }

  lemma {:induction false} SameCounted(x: seq<Answer>, y: seq<Answer>, ballots: seq<Ballot>)
    requires Comparable(x) && Comparable(y) && SameNames(x, y) && AllComplete(x, ballots)
    ensures SameCounts(x, ballots, y, ballots)
  {
    forall l | 0 <= l < |ballots|
      ensures Complete(y, ballots[l]) && Inconsistencies(x, ballots[l]) == Inconsistencies(y, ballots[l])
    {
      SameCount(x, y, ballots[l]);
    }
  }

  /** The trials that are core trials in `x` and repeats in `y`. */
  ghost function Swapped(x: seq<Answer>, y: seq<Answer>): set<int>
    requires |x| == |y|
  {
    set i | 0 <= i < |x| && x[i].role == CORE && y[i].role == REPEAT
  }

  /** As many twelfths as the overall preferences of two keys can be apart. */
  ghost function Limit(x: seq<Answer>, y: seq<Answer>): nat
    requires |x| == |y|
  {
    if |Swapped(x, y)| < 2 then |Swapped(x, y)| else 2
  }

  /** A listener's total over all core trials moves by no more than the number of swapped cases. */
  lemma {:induction false} TotalSwaps(x: seq<Answer>, y: seq<Answer>, ballot: Ballot)
    requires Comparable(x) && Comparable(y) && SameNames(x, y) && Complete(x, ballot) && Complete(y, ballot)
    ensures
      var n := |Swapped(x, y)| as real;
      -n <= Sum(WithRole(x, CORE), Values(x, ballot)) - Sum(WithRole(y, CORE), Values(y, ballot)) <= n
  {
    var f := Partners(y);
    NamesGiveChoices(x, y, ballot);
    CoresPair(x, y, f, None);
    SwapsMove(x, y, f, Values(y, ballot));
  }

  lemma {:induction false} OwnPartner(x: seq<Answer>, y: seq<Answer>, f: seq<int>, i: int)
    requires |x| == |y| && ArePartners(y, f) && i in WithRole(x, CORE) && i !in Swapped(x, y)
    ensures f[i] == i
  {
    assert IsPartner(y, i, f[i]);
  }

  lemma {:induction false} SwapsMove(x: seq<Answer>, y: seq<Answer>, f: seq<int>, v: seq<real>)
    requires |x| == |y| == |v| && ArePartners(y, f) && Pairs(WithRole(x, CORE), WithRole(y, CORE), f)
    requires forall i :: 0 <= i < |v| ==> 0.0 <= v[i] <= 1.0
    ensures
      var n := |Swapped(x, y)| as real;
      -n <= Sum(WithRole(x, CORE), v) - Sum(WithRole(y, CORE), v) <= n
  {
    forall i | i in WithRole(x, CORE) && i !in Swapped(x, y) ensures v[i] == v[f[i]] {
      OwnPartner(x, y, f, i);
    }
    PairedSums(WithRole(x, CORE), WithRole(y, CORE), f, v, Swapped(x, y));
  }

  /** The retained listeners' totals are no further apart than the limit. */
  lemma {:induction false} TotalsClose(x: seq<Answer>, y: seq<Answer>, ballots: seq<Ballot>, kept: set<int>, m: nat)
    requires Comparable(x) && Comparable(y) && SameNames(x, y) && AllComplete(x, ballots) && AllComplete(y, ballots)
    requires Within(kept, |ballots|) && forall l :: l in kept ==> Inconsistencies(y, ballots[l]) <= 2
    requires m == Limit(x, y)
    ensures -Repeated(|kept|, m as real)
            <= Sum(kept, Totals(x, ballots, WithRole(x, CORE))) - Sum(kept, Totals(y, ballots, WithRole(y, CORE)))
            <= Repeated(|kept|, m as real)
  {
    var u, v := Totals(x, ballots, WithRole(x, CORE)), Totals(y, ballots, WithRole(y, CORE));
    forall l | 0 <= l < |ballots| && l in kept ensures -(m as real) <= u[l] - v[l] <= m as real {
      TotalMoves(x, y, ballots[l], None);
      TotalSwaps(x, y, ballots[l]);
    }
    SumClose(kept, u, v, m as real);
    CountAll(kept, |ballots|);
  }

  lemma {:induction false} MeansClose(s: real, t: real, k: nat, m: real)
    requires k > 0 && -Repeated(k, m) <= s - t <= Repeated(k, m)
    ensures -m <= 12.0 * (s / (k * 12) as real - t / (k * 12) as real) <= m
  {
    RepeatedIs(k, m);
    Share(s, k, 12);
    Share(t, k, 12);
    DivideSum(s - t, t, k as real);
    RatioBound(s - t, k as real, m);
  }

  lemma {:induction false} RatioBound(x: real, k: real, m: real)
    requires k > 0.0 && -(k * m) <= x <= k * m
    ensures -m <= x / k <= m
  {
    var q := x / k;
    assert q * k == x;
    if q > m {
      Positive(q - m, k);
    }
    if q < -m {
      Positive(-m - q, k);
    }
  }

  lemma {:induction false} TotalsEqual(x: seq<Answer>, y: seq<Answer>, ballots: seq<Ballot>, kept: set<int>,
          stratum: Option<Stratum>)
    requires Comparable(x) && Comparable(y) && SameNames(x, y) && AllComplete(x, ballots) && AllComplete(y, ballots)
    requires Within(kept, |ballots|) && forall l :: l in kept ==> Inconsistencies(y, ballots[l]) == 0
    ensures Sum(kept, Totals(x, ballots, Cores(x, stratum))) == Sum(kept, Totals(y, ballots, Cores(y, stratum)))
  {
    forall l | 0 <= l < |ballots| && l in kept
      ensures Totals(x, ballots, Cores(x, stratum))[l] == Totals(y, ballots, Cores(y, stratum))[l]
    {
      TotalMoves(x, y, ballots[l], stratum);
    }
    SumSame(kept, Totals(x, ballots, Cores(x, stratum)), Totals(y, ballots, Cores(y, stratum)));
  }

  /** One set of ballots scored with two keys that name the same cases and models: the same screen, overall
      preferences a twelfth apart at most for every swapped case and never more than a sixth, and the same scores
      when every retained listener is consistent. */
  lemma {:induction false} KeysScoreAlike(x: seq<Answer>, y: seq<Answer>, ballots: seq<Ballot>, o: Outcome, r: Outcome)
    requires Comparable(x) && Comparable(y) && SameNames(x, y)
    requires IsOutcome(x, ballots, o) && IsOutcome(y, ballots, r)
    ensures o.inconsistencies == r.inconsistencies && o.retained == r.retained && o.aggregate == r.aggregate
    ensures -(Limit(x, y) as real) <= 12.0 * (o.overall - r.overall) <= Limit(x, y) as real
    ensures (forall l :: l in o.retained ==> o.inconsistencies[l] == 0) ==>
        o.overall == r.overall && o.strata == r.strata
  {
    SameOutcomeScreen(x, y, ballots, o, r);
    OverallClose(x, y, ballots, o.retained, o.overall, r.overall);
    if forall l :: l in o.retained ==> o.inconsistencies[l] == 0 {
      forall l | l in o.retained ensures Inconsistencies(y, ballots[l]) == 0 {
        assert r.inconsistencies[l] == 0;
      }
      ConsistentScores(x, y, ballots, o, r);
    }
  }

  lemma {:induction false} SameOutcomeScreen(x: seq<Answer>, y: seq<Answer>, ballots: seq<Ballot>, o: Outcome,
          r: Outcome)
    requires Comparable(x) && Comparable(y) && SameNames(x, y)
    requires IsOutcome(x, ballots, o) && IsOutcome(y, ballots, r)
    ensures o.inconsistencies == r.inconsistencies && o.retained == r.retained && o.aggregate == r.aggregate
  {
    SameCounted(x, y, ballots);
    SameScreen(x, ballots, y, ballots);
  }

  lemma {:induction false} ConsistentScores(x: seq<Answer>, y: seq<Answer>, ballots: seq<Ballot>, o: Outcome,
          r: Outcome)
    requires Comparable(x) && Comparable(y) && SameNames(x, y)
    requires IsOutcome(x, ballots, o) && IsOutcome(y, ballots, r) && o.retained == r.retained
    requires Within(o.retained, |ballots|) && forall l :: l in o.retained ==> Inconsistencies(y, ballots[l]) == 0
    ensures o.overall == r.overall && o.strata == r.strata
  {
    OverallEqual(x, y, ballots, o.retained, o.overall, r.overall);
    forall s ensures o.strata.Of(s) == r.strata.Of(s) {
      assert IsStratum(x, ballots, o.retained, s, o.strata.Of(s))
          && IsStratum(y, ballots, o.retained, s, r.strata.Of(s));
      StratumEqual(x, y, ballots, o.retained, s, o.strata.Of(s), r.strata.Of(s));
    }
    StrataEqual(o.strata, r.strata);
  }

  lemma {:induction false} StrataEqual(a: Strata, b: Strata)
    requires forall s :: a.Of(s) == b.Of(s)
    ensures a == b
  {
    assert a.Of(RECORDED) == b.Of(RECORDED) && a.Of(BABBLE) == b.Of(BABBLE);
    assert a.Of(PRESERVATION) == b.Of(PRESERVATION) && a.Of(SYNTHETIC) == b.Of(SYNTHETIC);
  }

  lemma {:induction false} OverallClose(x: seq<Answer>, y: seq<Answer>, ballots: seq<Ballot>, kept: set<int>, o: real,
          r: real)
    requires Comparable(x) && Comparable(y) && SameNames(x, y) && AllComplete(x, ballots) && AllComplete(y, ballots)
        && kept != {}
    requires Within(kept, |ballots|) && forall l :: l in kept ==> Inconsistencies(y, ballots[l]) <= 2
    requires WithRole(x, CORE) != {} && o == MeanOver(x, ballots, kept, WithRole(x, CORE))
    requires WithRole(y, CORE) != {} && r == MeanOver(y, ballots, kept, WithRole(y, CORE))
    ensures -(Limit(x, y) as real) <= 12.0 * (o - r) <= Limit(x, y) as real
  {
    TotalsClose(x, y, ballots, kept, Limit(x, y));
    MeansClose(Sum(kept, Totals(x, ballots, WithRole(x, CORE))), Sum(kept, Totals(y, ballots, WithRole(y, CORE))),
               |kept|, Limit(x, y) as real);
  }

  lemma {:induction false} OverallEqual(x: seq<Answer>, y: seq<Answer>, ballots: seq<Ballot>, kept: set<int>, o: real,
          r: real)
    requires Comparable(x) && Comparable(y) && SameNames(x, y) && AllComplete(x, ballots) && AllComplete(y, ballots)
        && kept != {}
    requires Within(kept, |ballots|) && forall l :: l in kept ==> Inconsistencies(y, ballots[l]) == 0
    requires WithRole(x, CORE) != {} && o == MeanOver(x, ballots, kept, WithRole(x, CORE))
    requires WithRole(y, CORE) != {} && r == MeanOver(y, ballots, kept, WithRole(y, CORE))
    ensures o == r
  {
    TotalsEqual(x, y, ballots, kept, None);
  }

  lemma {:induction false} StratumEqual(x: seq<Answer>, y: seq<Answer>, ballots: seq<Ballot>, kept: set<int>,
          s: Stratum, o: real, r: real)
    requires Comparable(x) && Comparable(y) && SameNames(x, y)
    requires IsStratum(x, ballots, kept, s, o) && IsStratum(y, ballots, kept, s, r)
    requires Within(kept, |ballots|) && forall l :: l in kept ==> Inconsistencies(y, ballots[l]) == 0
    ensures o == r
  {
    assert |CoresIn(x, s)| == ExpectedCount(s) == |CoresIn(y, s)|;
    TotalsEqual(x, y, ballots, kept, Some(s));
  }

  // ------------------------------------------------------------ across the three scripts

  lemma {:induction false} PreparedComparable(k: Keying, h: Hashes, matrix: seq<Case>, dirs: seq<Directory>,
          strata: seq<Stratum>, plan: seq<Spec>, b: Bundle)
    requires Prepared(k, h, matrix, dirs, strata, plan, b)
    ensures Comparable(b.key.trials)
  {
    var trials := b.key.trials;
    PreparedGeometry(k, h, matrix, dirs, strata, plan, b);
    assert forall i :: 0 <= i < |trials| ==> trials[i].id == plan[i].id;
    forall i, j | 0 <= i < |trials| && 0 <= j < |trials| && trials[i].role == trials[j].role == CORE
        && trials[i].caseId == trials[j].caseId
      ensures i == j
    {
      NamesDiffer(dirs, plan[i].place, plan[j].place);
      OneEach(k, dirs, strata, plan, i, j);
    }
  }

  lemma {:induction false} RecoveredComparable(p: Protocol, h: Hashes, trials: seq<Answer>, key: AnswerKey)
    requires ValidKey(key, p, h) && key.version.RECOVERED? && trials == key.trials && |trials| == 16
    ensures Comparable(trials)
  {
    forall i, j | 0 <= i < |trials| && 0 <= j < |trials| && trials[i].role == trials[j].role == CORE
        && trials[i].caseId == trials[j].caseId
      ensures i == j
    {
      if i != j {
        RolesDiffer(trials, i, j);
      }
    }
  }

  lemma {:induction false} RolesDiffer(trials: seq<Answer>, i: nat, j: nat)
    requires CaseGeometry(trials) && i < |trials| && j < |trials| && i != j && trials[i].caseId == trials[j].caseId
    ensures trials[i].role != trials[j].role
  {
    assert PairRule(trials, i, j);
  }

  lemma {:induction false} RecoveredKeyComparable(k: Keying, h: Hashes, matrix: seq<Case>, dirs: seq<Directory>,
          strata: seq<Stratum>, plan: seq<Spec>, b: Bundle,
                          drafts: seq<Answer>, key: AnswerKey)
    requires Prepared(k, h, matrix, dirs, strata, plan, b) && IsRecovered(b.protocol, h, matrix, dirs, drafts, key)
    ensures Comparable(key.trials) && SameNames(key.trials, b.key.trials)
  {
    RecoveryAgrees(k, h, matrix, dirs, strata, plan, b, drafts, key);
    RecoveredComparable(b.protocol, h, key.trials, key);
  }

  /** The two keys of a bundle can be compared. */
  lemma {:induction false} KeysComparable(k: Keying, h: Hashes, matrix: seq<Case>, dirs: seq<Directory>,
          strata: seq<Stratum>, plan: seq<Spec>, b: Bundle,
                          drafts: seq<Answer>, key: AnswerKey)
    requires Prepared(k, h, matrix, dirs, strata, plan, b) && IsRecovered(b.protocol, h, matrix, dirs, drafts, key)
    ensures Comparable(b.key.trials) && Comparable(key.trials) && SameNames(b.key.trials, key.trials)
  {
    RecoveredKeyComparable(k, h, matrix, dirs, strata, plan, b, drafts, key);
    PreparedComparable(k, h, matrix, dirs, strata, plan, b);
    NamesCommute(key.trials, b.key.trials);
  }

  /** Prepare a bundle, recover its key, and score the same ballots with either key. */
  lemma {:induction false} BundleScoresAlike(k: Keying, h: Hashes, matrix: seq<Case>, dirs: seq<Directory>,
          strata: seq<Stratum>, plan: seq<Spec>, b: Bundle,
                          drafts: seq<Answer>, key: AnswerKey, ballots: seq<Ballot>, o: Outcome, r: Outcome)
    requires Prepared(k, h, matrix, dirs, strata, plan, b) && IsRecovered(b.protocol, h, matrix, dirs, drafts, key)
    requires IsOutcome(b.key.trials, ballots, o) && IsOutcome(key.trials, ballots, r)
    ensures o.inconsistencies == r.inconsistencies && o.retained == r.retained && o.aggregate == r.aggregate
    ensures |b.key.trials| == |key.trials|
    ensures -(Limit(b.key.trials, key.trials) as real) <= 12.0 * (o.overall - r.overall)
            <= Limit(b.key.trials, key.trials) as real
    ensures (forall l :: l in o.retained ==> o.inconsistencies[l] == 0) ==>
        o.overall == r.overall && o.strata == r.strata
  {
    KeysComparable(k, h, matrix, dirs, strata, plan, b, drafts, key);
    KeysScoreAlike(b.key.trials, key.trials, ballots, o, r);
  }
}
