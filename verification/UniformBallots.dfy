/** What listeners amount to who all answer alike. */
module UniformBallots {
  import opened Listening
  import opened Scoring
  import opened ScoreProperties

  function Copies(ballot: Ballot, n: nat): (r: seq<Ballot>)
    ensures |r| == n && forall l :: 0 <= l < n ==> r[l] == ballot
  {
    seq(n, l => ballot)
  }

  lemma {:induction false} SumUniform(s: set<int>, v: seq<real>, x: real)
    requires (forall l :: 0 <= l < |v| ==> l in s) && forall l :: 0 <= l < |v| ==> v[l] == x
    ensures Sum(s, v) == Repeated(|v|, x)
  {
    if v != [] {
      SumUniform(s, v[..|v| - 1], x);
    }
  }

  lemma {:induction false} TotalUniform(v: seq<nat>, x: nat)
    requires forall l :: 0 <= l < |v| ==> v[l] == x
    ensures Total(v) == |v| * x
  {
    if v != [] {
      TotalUniform(v[..|v| - 1], x);
    }
  }

  lemma {:induction false} Cancels(n: real, x: real, d: real)
    requires n > 0.0 && d > 0.0
    ensures n * d > 0.0 && (n * x) / (n * d) == x / d
  {
    var q := x / d;
    assert n * x == q * (n * d);
  }

  lemma {:induction false} MeanOfCopies(total: real, n: nat, k: nat, x: real)
    requires n > 0 && k > 0 && total == Repeated(n, x)
    ensures total / (n * k) as real == x / k as real
  {
    RepeatedIs(n, x);
    Cancels(n as real, x, k as real);
    assert (n * k) as real == n as real * k as real;
  }

  ghost predicate Alike(ballots: seq<Ballot>, ballot: Ballot) {
    forall l :: 0 <= l < |ballots| ==> ballots[l] == ballot
  }

  lemma {:induction false} AlikeComplete(trials: seq<Answer>, ballots: seq<Ballot>, ballot: Ballot)
    requires Complete(trials, ballot) && Alike(ballots, ballot)
    ensures AllComplete(trials, ballots)
  {
  }

  lemma {:induction false} AlikeTotals(trials: seq<Answer>, ballots: seq<Ballot>, ballot: Ballot, s: set<int>, l: nat)
    requires AllComplete(trials, ballots) && l < |ballots| && ballots[l] == ballot
    ensures Totals(trials, ballots, s)[l] == Sum(s, Values(trials, ballot))
  {
  }

  lemma {:induction false} TotalOfTotals(trials: seq<Answer>, ballots: seq<Ballot>, ballot: Ballot, s: set<int>,
          x: real)
    requires AllComplete(trials, ballots) && Alike(ballots, ballot)
    requires Complete(trials, ballot) && x == Sum(s, Values(trials, ballot))
    ensures Sum(Span(|ballots|), Totals(trials, ballots, s)) == Repeated(|ballots|, x)
  {
    var totals := Totals(trials, ballots, s);
    forall l | 0 <= l < |totals| ensures totals[l] == x {
      AlikeTotals(trials, ballots, ballot, s, l);
    }
    SumUniform(Span(|ballots|), totals, x);
  }

  lemma {:induction false} MeanUniform(trials: seq<Answer>, ballots: seq<Ballot>, ballot: Ballot, s: set<int>, x: real)
    requires AllComplete(trials, ballots) && Alike(ballots, ballot) && ballots != [] && s != {}
    requires Complete(trials, ballot) && x == Sum(s, Values(trials, ballot))
    ensures Span(|ballots|) != {} && MeanOver(trials, ballots, Span(|ballots|), s) == x / |s| as real
  {
    assert 0 in Span(|ballots|);
    TotalOfTotals(trials, ballots, ballot, s, x);
    MeanOfCopies(Sum(Span(|ballots|), Totals(trials, ballots, s)), |ballots|, |s|, x);
  }

  lemma {:induction false} AllRetained(trials: seq<Answer>, ballot: Ballot, n: nat)
    requires Complete(trials, ballot) && Inconsistencies(trials, ballot) <= 2
    ensures Retained(trials, Copies(ballot, n)) == Span(n)
  {
    forall l ensures l in Retained(trials, Copies(ballot, n)) <==> l in Span(n) {
      assert 0 <= l < n ==> Copies(ballot, n)[l] == ballot;
    }
  }

  lemma {:induction false} AggregateUniform(counts: seq<nat>, n: nat, c: nat)
    requires n > 0 && |counts| == n && forall l :: 0 <= l < n ==> counts[l] == c
    ensures Total(counts) as real / (n * 4) as real == c as real / 4.0
  {
    TotalUniform(counts, c);
    RepeatedIs(n, c as real);
    MeanOfCopies(Total(counts) as real, n, 4, c as real);
  }

  ghost function Mean(trials: seq<Answer>, ballot: Ballot, s: set<int>): real
    requires Complete(trials, ballot) && s != {}
  {
    Sum(s, Values(trials, ballot)) / |s| as real
  }

  lemma {:induction false} MeanTimes(trials: seq<Answer>, ballot: Ballot, s: set<int>)
    requires Complete(trials, ballot) && s != {}
    ensures |s| as real * Mean(trials, ballot, s) == Sum(s, Values(trials, ballot))
  {
    var q := Mean(trials, ballot, s);
    assert q * |s| as real == Sum(s, Values(trials, ballot));
  }

  ghost predicate StratumMeans(trials: seq<Answer>, ballot: Ballot, strata: Strata)
    requires Complete(trials, ballot)
  {
    forall s :: CoresIn(trials, s) != {} && strata.Of(s) == Mean(trials, ballot, CoresIn(trials, s))
  }

  lemma {:induction false} StrataOf(trials: seq<Answer>, ballot: Ballot) returns (strata: Strata)
    requires Scorable(trials) && Complete(trials, ballot)
    ensures StratumMeans(trials, ballot, strata)
  {
    forall s ensures CoresIn(trials, s) != {} {
      assert |CoresIn(trials, s)| == ExpectedCount(s);
    }
    strata := Strata(Mean(trials, ballot, CoresIn(trials, RECORDED)), Mean(trials, ballot, CoresIn(trials, BABBLE)),
                     Mean(trials, ballot, CoresIn(trials, PRESERVATION)),
                     Mean(trials, ballot, CoresIn(trials, SYNTHETIC)));
    forall s ensures strata.Of(s) == Mean(trials, ballot, CoresIn(trials, s)) {
      match s
      case RECORDED =>
      case BABBLE =>
      case PRESERVATION =>
      case SYNTHETIC =>
    }
  }

  /** The outcome of equal ballots. */
  lemma {:induction false} OutcomeOf(trials: seq<Answer>, ballot: Ballot, n: nat, strata: Strata)
    returns (o: Outcome)
    requires Complete(trials, ballot) && n > 0 && Inconsistencies(trials, ballot) <= 2
    requires WithRole(trials, CORE) != {} && StratumMeans(trials, ballot, strata)
    ensures IsOutcome(trials, Copies(ballot, n), o)
    ensures |o.retained| == n && o.aggregate == Inconsistencies(trials, ballot) as real / 4.0
    ensures o.overall == Mean(trials, ballot, WithRole(trials, CORE)) && o.strata == strata
  {
    var ballots := Copies(ballot, n);
    AlikeComplete(trials, ballots, ballot);
    AllRetained(trials, ballot, n);
    AggregateUniform(Counts(trials, ballots), n, Inconsistencies(trials, ballot));
    MeanUniform(trials, ballots, ballot, WithRole(trials, CORE), Sum(WithRole(trials, CORE), Values(trials, ballot)));
    forall s ensures IsStratum(trials, ballots, Span(n), s, strata.Of(s)) {
      MeanUniform(trials, ballots, ballot, CoresIn(trials, s), Sum(CoresIn(trials, s), Values(trials, ballot)));
    }
    o := Outcome(Counts(trials, ballots), Retained(trials, ballots), Inconsistencies(trials, ballot) as real / 4.0,
                 Mean(trials, ballot, WithRole(trials, CORE)), strata);
  }

  /** What `n` equal ballots of a consistent listener score: the mean of the one ballot. */
  lemma {:induction false} UniformOutcome(trials: seq<Answer>, ballot: Ballot, n: nat) returns (o: Outcome)
    requires Scorable(trials) && Complete(trials, ballot) && n > 0 && Inconsistencies(trials, ballot) <= 2
    ensures IsOutcome(trials, Copies(ballot, n), o)
    ensures |o.retained| == n && o.aggregate == Inconsistencies(trials, ballot) as real / 4.0
    ensures 12.0 * o.overall == Sum(WithRole(trials, CORE), Values(trials, ballot))
    ensures StratumMeans(trials, ballot, o.strata)
  {
    var strata := StrataOf(trials, ballot);
    assert |WithRole(trials, CORE)| == 12;
    o := OutcomeOf(trials, ballot, n, strata);
    MeanTimes(trials, ballot, WithRole(trials, CORE));
  }
}
