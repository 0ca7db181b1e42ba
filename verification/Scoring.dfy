/** Scoring a blind-listening bundle: each listener's consistency on the repeated trials, who is retained, and
    the preference scores of the retained listeners. Scores are rational numbers, held as reals. */
module Scoring {
  import opened Wrappers
  import opened Listening

  datatype Preference = SIDE_A | SIDE_B | TIE

  /** A listener's answer to every trial. */
  type Ballot = map<string, Preference>

  datatype Choice = CHOSE(model: Model) | UNDECIDED

  datatype ScoreError = NoListenerRetained

  datatype Outcome = Outcome(inconsistencies: seq<nat>, retained: set<nat>, aggregate: real, overall: real,
                             strata: Strata)

  datatype Strata = Strata(recorded: real, babble: real, preservation: real, synthetic: real) {
    function Of(s: Stratum): real {
      match s case RECORDED => recorded case BABBLE => babble case PRESERVATION => preservation
          case SYNTHETIC => synthetic
    }
  }

  predicate Complete(trials: seq<Answer>, ballot: Ballot) {
    forall i :: 0 <= i < |trials| ==> trials[i].id in ballot
  }

  ghost predicate AllComplete(trials: seq<Answer>, ballots: seq<Ballot>) {
    forall l :: 0 <= l < |ballots| ==> Complete(trials, ballots[l])
  }

  /** An answer key the scorer can use: see `ValidKey`. */
  ghost predicate Scorable(trials: seq<Answer>) {
    |trials| == 16 && DistinctAnswers(trials) && CoreGeometry(trials)
  }

  function CanonicalChoice(p: Preference, t: Answer): Choice {
    match p
    case TIE => UNDECIDED
    case SIDE_A => CHOSE(t.a)
    case SIDE_B => CHOSE(t.b)
  }

  function ChoiceOf(trials: seq<Answer>, ballot: Ballot, i: int): Choice
    requires 0 <= i < |trials| && Complete(trials, ballot)
  {
    CanonicalChoice(ballot[trials[i].id], trials[i])
  }

  function Worth(c: Choice): real {
    if c == CHOSE(DPDFNET) then 1.0 else if c == UNDECIDED then 0.5 else 0.0
  }

  // ------------------------------------------------------------ sums

  /** The sum of `v` over the indices in `s`. */
  ghost function Sum(s: set<int>, v: seq<real>): real {
    if v == [] then 0.0
    else
      var n := |v| - 1;
      Sum(s, v[..n]) + if n in s then v[n] else 0.0
  }

  lemma {:induction false} SumAppend(s: set<int>, v: seq<real>, x: real)
    ensures Sum(s, v + [x]) == Sum(s, v) + if |v| in s then x else 0.0
  {
    assert (v + [x])[..|v|] == v;
  }

  /** Only the elements below the length count. */
  lemma {:induction false} SumAgrees(s: set<int>, t: set<int>, v: seq<real>)
    requires forall i :: 0 <= i < |v| ==> (i in s <==> i in t)
    ensures Sum(s, v) == Sum(t, v)
  {
    if v != [] {
      SumAgrees(s, t, v[..|v| - 1]);
    }
  }

  lemma {:induction false} SumRemove(s: set<int>, v: seq<real>, i: nat)
    requires i in s && i < |v|
    ensures Sum(s, v) == Sum(s - {i}, v) + v[i]
  {
    var n := |v| - 1;
    if i == n {
      SumAgrees(s, s - {i}, v[..n]);
    } else {
      SumRemove(s, v[..n], i);
    }
  }

  lemma {:induction false} SumEmpty(v: seq<real>)
    ensures Sum({}, v) == 0.0
  {
    if v != [] {
      SumEmpty(v[..|v| - 1]);
    }
  }

  lemma {:induction false} SumUnion(s: set<int>, t: set<int>, v: seq<real>)
    requires s !! t
    ensures Sum(s + t, v) == Sum(s, v) + Sum(t, v)
  {
    if v != [] {
      SumUnion(s, t, v[..|v| - 1]);
    }
  }

  // ------------------------------------------------------------ what a listener scores

  /** Trial `i` repeats a core trial that the listener answered for another model. */
  ghost predicate Inconsistent(trials: seq<Answer>, ballot: Ballot, i: int)
    requires 0 <= i < |trials| && Complete(trials, ballot)
  {
    exists j :: 0 <= j < |trials| && Repeats(trials, i, j) && ChoiceOf(trials, ballot, i) != ChoiceOf(trials, ballot, j)
  }

  ghost function InconsistentTrials(trials: seq<Answer>, ballot: Ballot): set<int>
    requires Complete(trials, ballot)
  {
    set i | 0 <= i < |trials| && Inconsistent(trials, ballot, i)
  }

  ghost function Inconsistencies(trials: seq<Answer>, ballot: Ballot): nat
    requires Complete(trials, ballot)
  {
    |InconsistentTrials(trials, ballot)|
  }

  ghost function Values(trials: seq<Answer>, ballot: Ballot): (v: seq<real>)
    requires Complete(trials, ballot)
    ensures |v| == |trials| && forall i :: 0 <= i < |v| ==> v[i] == Worth(ChoiceOf(trials, ballot, i))
  {
    seq(|trials|, i requires 0 <= i < |trials| => Worth(ChoiceOf(trials, ballot, i)))
  }

  /** At most half of the four repeats differ. */
  ghost predicate Consistent(trials: seq<Answer>, ballot: Ballot)
    requires Complete(trials, ballot)
  {
    Inconsistencies(trials, ballot) <= 2
  }

  ghost function Retained(trials: seq<Answer>, ballots: seq<Ballot>): set<int>
    requires AllComplete(trials, ballots)
  {
    set l | 0 <= l < |ballots| && Consistent(trials, ballots[l])
  }

  /** The listeners' totals over the trials in `s`. */
  ghost function Totals(trials: seq<Answer>, ballots: seq<Ballot>, s: set<int>): (v: seq<real>)
    requires AllComplete(trials, ballots)
    ensures |v| == |ballots| && forall l :: 0 <= l < |v| ==> v[l] == Sum(s, Values(trials, ballots[l]))
  {
    seq(|ballots|, l requires 0 <= l < |ballots| => Sum(s, Values(trials, ballots[l])))
  }

  /** The mean worth of the trials in `s` to the listeners in `kept`. */
  ghost function MeanOver(trials: seq<Answer>, ballots: seq<Ballot>, kept: set<int>, s: set<int>): real
    requires AllComplete(trials, ballots) && kept != {} && s != {}
  {
    Sum(kept, Totals(trials, ballots, s)) / (|kept| * |s|) as real
  }

  ghost function Total(n: seq<nat>): nat {
    if n == [] then 0 else Total(n[..|n| - 1]) + n[|n| - 1]
  }

  ghost function Counts(trials: seq<Answer>, ballots: seq<Ballot>): (n: seq<nat>)
    requires AllComplete(trials, ballots)
    ensures |n| == |ballots| && forall l :: 0 <= l < |n| ==> n[l] == Inconsistencies(trials, ballots[l])
  {
    seq(|ballots|, l requires 0 <= l < |ballots| => Inconsistencies(trials, ballots[l]))
  }

  /** The mean of a stratum. */
  ghost predicate IsStratum(trials: seq<Answer>, ballots: seq<Ballot>, kept: set<int>, s: Stratum, mean: real) {
    && AllComplete(trials, ballots) && kept != {} && CoresIn(trials, s) != {}
    && mean == MeanOver(trials, ballots, kept, CoresIn(trials, s))
  }

  ghost predicate IsOutcome(trials: seq<Answer>, ballots: seq<Ballot>, o: Outcome) {
    && AllComplete(trials, ballots)
    && o.inconsistencies == Counts(trials, ballots)
    && o.retained == Retained(trials, ballots) != {}
    && o.aggregate == Total(o.inconsistencies) as real / (|ballots| * 4) as real
    && WithRole(trials, CORE) != {} && o.overall == MeanOver(trials, ballots, o.retained, WithRole(trials, CORE))
    && forall s :: IsStratum(trials, ballots, o.retained, s, o.strata.Of(s))
  }

  // ------------------------------------------------------------ the script

  datatype Listener = Listener(inconsistencies: nat, retained: bool, scores: map<string, real>)

  ghost predicate Choices(trials: seq<Answer>, ballot: Ballot, choices: map<string, Choice>)
    requires Complete(trials, ballot)
  {
    forall i :: 0 <= i < |trials| ==> trials[i].id in choices && choices[trials[i].id] == ChoiceOf(trials, ballot, i)
  }

  method CanonicalChoices(trials: seq<Answer>, ballot: Ballot) returns (choices: map<string, Choice>)
    requires DistinctAnswers(trials) && Complete(trials, ballot)
    ensures Choices(trials, ballot, choices)
  {
    choices := map[];
    for i := 0 to |trials|
      invariant forall k :: 0 <= k < i ==>
          trials[k].id in choices && choices[trials[k].id] == ChoiceOf(trials, ballot, k)
    {
      choices := choices[trials[i].id := CanonicalChoice(ballot[trials[i].id], trials[i])];
    }
  }

  /** A repeat names the core trial it repeats by its id. */
  lemma {:induction false} OriginalId(trials: seq<Answer>, ballot: Ballot, choices: map<string, Choice>, i: nat)
    returns (j: nat)
    requires DistinctAnswers(trials) && CoreGeometry(trials) && Complete(trials, ballot)
        && Choices(trials, ballot, choices)
    requires i < |trials| && trials[i].role == REPEAT
    ensures j < |trials| && trials[i].duplicateOf == Some(trials[j].id)
    ensures Inconsistent(trials, ballot, i) <==> ChoiceOf(trials, ballot, i) != ChoiceOf(trials, ballot, j)
  {
    assert RepeatsOne(trials, i);
    j :| 0 <= j < |trials| && Repeats(trials, i, j);
    forall l | 0 <= l < |trials| && Repeats(trials, i, l) ensures l == j {
    }
  }

  method CountInconsistencies(trials: seq<Answer>, ballot: Ballot, choices: map<string, Choice>)
    returns (inconsistencies: nat, repeats: nat)
    requires DistinctAnswers(trials) && CoreGeometry(trials) && Complete(trials, ballot)
        && Choices(trials, ballot, choices)
    ensures inconsistencies == Inconsistencies(trials, ballot) && repeats == 4
  {
    inconsistencies, repeats := 0, 0;
    ghost var bad, all := InconsistentTrials(trials, ballot), WithRole(trials, REPEAT);
    for i := 0 to |trials|
      invariant repeats == Count(all, i) && inconsistencies == Count(bad, i)
    {
      if trials[i].role == REPEAT {
        ghost var j := OriginalId(trials, ballot, choices, i);
        repeats := repeats + 1;
        if choices[trials[i].id] != choices[trials[i].duplicateOf.value] {
          inconsistencies := inconsistencies + 1;
        }
      }
    }
    CountAll(all, |trials|);
    CountAll(bad, |trials|);
  }

  ghost predicate Scores(trials: seq<Answer>, ballot: Ballot, scores: map<string, real>)
    requires Complete(trials, ballot)
  {
    forall i :: 0 <= i < |trials| && trials[i].role == CORE ==>
                  trials[i].id in scores && scores[trials[i].id] == Worth(ChoiceOf(trials, ballot, i))
  }

  method CoreScores(trials: seq<Answer>, ballot: Ballot, choices: map<string, Choice>)
    returns (scores: map<string, real>)
    requires DistinctAnswers(trials) && Complete(trials, ballot) && Choices(trials, ballot, choices)
    ensures Scores(trials, ballot, scores)
  {
    scores := map[];
    for i := 0 to |trials|
      invariant forall k :: 0 <= k < i && trials[k].role == CORE ==>
                              trials[k].id in scores && scores[trials[k].id] == Worth(ChoiceOf(trials, ballot, k))
    {
      if trials[i].role == CORE {
        var choice := choices[trials[i].id];
        scores := scores[trials[i].id := if choice == CHOSE(DPDFNET) then 1.0 else if choice == UNDECIDED then 0.5
                         else 0.0];
      }
    }
  }

  ghost predicate Scored(trials: seq<Answer>, ballot: Ballot, x: Listener) {
    && Complete(trials, ballot)
    && x.inconsistencies == Inconsistencies(trials, ballot) && x.retained == Consistent(trials, ballot)
    && Scores(trials, ballot, x.scores)
  }

  method ScoreListener(trials: seq<Answer>, ballot: Ballot) returns (x: Listener)
    requires Scorable(trials) && Complete(trials, ballot)
    ensures Scored(trials, ballot, x)
  {
    var choices := CanonicalChoices(trials, ballot);
    var inconsistencies, repeats := CountInconsistencies(trials, ballot, choices);
    var fraction := inconsistencies as real / repeats as real;
    var scores := CoreScores(trials, ballot, choices);
    x := Listener(inconsistencies, fraction <= 0.5, scores);
  }

  /** The core trials, of one stratum or of all. */
  ghost function Cores(trials: seq<Answer>, stratum: Option<Stratum>): set<int> {
    if stratum == None then WithRole(trials, CORE) else CoresIn(trials, stratum.value)
  }

  /** Adds up a listener's scores on the core trials of one stratum, or of all, and counts them. */
  method SumScores(trials: seq<Answer>, ghost ballot: Ballot, scores: map<string, real>, stratum: Option<Stratum>)
    returns (total: real, count: nat)
    requires Complete(trials, ballot) && Scores(trials, ballot, scores)
    ensures total == Sum(Cores(trials, stratum), Values(trials, ballot))
    ensures count == |Cores(trials, stratum)|
  {
    total, count := 0.0, 0;
    ghost var cores, values := Cores(trials, stratum), Values(trials, ballot);
    for i := 0 to |trials|
      invariant total == Sum(cores, values[..i]) && count == Count(cores, i)
    {
      assert values[..i + 1] == values[..i] + [values[i]];
      SumAppend(cores, values[..i], values[i]);
      if trials[i].role == CORE && (stratum == None || trials[i].stratum == stratum.value) {
        total := total + scores[trials[i].id];
        count := count + 1;
      }
    }
    assert values[..|trials|] == values;
    CountAll(cores, |trials|);
  }

  ghost predicate AllScored(trials: seq<Answer>, ballots: seq<Ballot>, listeners: seq<Listener>) {
    |listeners| == |ballots| && forall l :: 0 <= l < |ballots| ==> Scored(trials, ballots[l], listeners[l])
  }

  /** `size` ratings by every listener of `s` below `n`. */
  ghost function Ratings(s: set<int>, n: nat, size: nat): nat {
    if n == 0 then 0 else Ratings(s, n - 1, size) + if n - 1 in s then size else 0
  }

  lemma {:induction false} RatingsAreProduct(s: set<int>, n: nat, size: nat)
    ensures Ratings(s, n, size) == Count(s, n) * size
  {
    if n > 0 {
      RatingsAreProduct(s, n - 1, size);
      assert (Count(s, n - 1) + 1) * size == Count(s, n - 1) * size + size;
    }
  }

  lemma {:induction false} RatingCount(s: set<int>, n: nat, size: nat)
    requires Within(s, n) && s != {} && size > 0
    ensures Ratings(s, n, size) == |s| * size > 0
  {
    RatingsAreProduct(s, n, size);
    CountAll(s, n);
    assert |s| > 0;
  }

  ghost predicate AllRated(trials: seq<Answer>, ballots: seq<Ballot>, listeners: seq<Listener>)
    requires AllComplete(trials, ballots)
  {
    |listeners| == |ballots| && forall l :: 0 <= l < |ballots| ==> Scores(trials, ballots[l], listeners[l].scores)
  }

  /** The listeners that passed the screen. */
  ghost predicate Passed(listeners: seq<Listener>, kept: set<int>) {
    forall l :: l in kept <==> 0 <= l < |listeners| && listeners[l].retained
  }

  /** Adds up and counts every rating of a stratum by the retained listeners. */
  method StratumRatings(trials: seq<Answer>, ghost ballots: seq<Ballot>, listeners: seq<Listener>,
          ghost kept: set<int>, stratum: Stratum, ghost cores: set<int>)
    returns (total: real, ratings: nat)
    requires AllComplete(trials, ballots) && AllRated(trials, ballots, listeners) && Passed(listeners, kept)
    requires cores == Cores(trials, Some(stratum))
    ensures total == Sum(kept, Totals(trials, ballots, cores)) && ratings == Ratings(kept, |listeners|, |cores|)
  {
    total, ratings := 0.0, 0;
    ghost var totals := Totals(trials, ballots, cores);
    for l := 0 to |listeners|
      invariant total == Sum(kept, totals[..l]) && ratings == Ratings(kept, l, |cores|)
    {
      assert Scores(trials, ballots[l], listeners[l].scores);
      assert totals[..l + 1] == totals[..l] + [totals[l]];
      SumAppend(kept, totals[..l], totals[l]);
      if listeners[l].retained {
        var sum, count := SumScores(trials, ballots[l], listeners[l].scores, Some(stratum));
        total := total + sum;
        ratings := ratings + count;
      }
    }
    assert totals[..|listeners|] == totals;
  }

  method StratumMean(trials: seq<Answer>, ghost ballots: seq<Ballot>, listeners: seq<Listener>, ghost kept: set<int>,
          stratum: Stratum)
    returns (mean: real)
    requires AllComplete(trials, ballots) && AllRated(trials, ballots, listeners) && Passed(listeners, kept)
    requires kept != {} && |CoresIn(trials, stratum)| == ExpectedCount(stratum)
    ensures IsStratum(trials, ballots, kept, stratum, mean)
  {
    var total, ratings := StratumRatings(trials, ballots, listeners, kept, stratum, CoresIn(trials, stratum));
    RatingCount(kept, |listeners|, |CoresIn(trials, stratum)|);
    mean := total / ratings as real;
  }

  lemma {:induction false} DivideTwice(x: real, n: nat)
    requires n > 0
    ensures x / 12.0 / n as real == x / (n * 12) as real
  {
    var q := x / (n * 12) as real;
    assert x == q * (n * 12) as real == (q * n as real) * 12.0;
  }

  lemma {:induction false} OneMoreMean(kept: set<int>, totals: seq<real>, l: nat)
    requires l < |totals|
    ensures Sum(kept, totals[..l + 1]) / 12.0 == Sum(kept, totals[..l]) / 12.0 + if l in kept then totals[l] / 12.0
        else 0.0
  {
    assert totals[..l + 1] == totals[..l] + [totals[l]];
    SumAppend(kept, totals[..l], totals[l]);
  }

  /** Adds up the retained listeners' own means and counts them. */
  method ListenerMeans(trials: seq<Answer>, ghost ballots: seq<Ballot>, listeners: seq<Listener>, ghost kept: set<int>)
    returns (total: real, n: nat)
    requires AllComplete(trials, ballots) && AllRated(trials, ballots, listeners) && |WithRole(trials, CORE)| == 12
    requires Passed(listeners, kept)
    ensures total == Sum(kept, Totals(trials, ballots, WithRole(trials, CORE))) / 12.0 && n == |kept|
  {
    total, n := 0.0, 0;
    ghost var cores := WithRole(trials, CORE);
    ghost var totals := Totals(trials, ballots, cores);
    for l := 0 to |listeners|
      invariant total == Sum(kept, totals[..l]) / 12.0 && n == Count(kept, l)
    {
      assert Scores(trials, ballots[l], listeners[l].scores);
      OneMoreMean(kept, totals, l);
      if listeners[l].retained {
        var sum, count := SumScores(trials, ballots[l], listeners[l].scores, None);
        assert sum == totals[l] && count == 12;
        total := total + sum / count as real;
        n := n + 1;
      }
    }
    assert totals[..|listeners|] == totals;
    CountAll(kept, |listeners|);
  }

  /** The mean of the retained listeners' own means. */
  method OverallMean(trials: seq<Answer>, ghost ballots: seq<Ballot>, listeners: seq<Listener>, ghost kept: set<int>)
    returns (mean: real)
    requires AllComplete(trials, ballots) && AllRated(trials, ballots, listeners)
    requires Passed(listeners, kept) && kept != {} && |WithRole(trials, CORE)| == 12
    ensures WithRole(trials, CORE) != {} && mean == MeanOver(trials, ballots, kept, WithRole(trials, CORE))
  {
    var total, n := ListenerMeans(trials, ballots, listeners, kept);
    DivideTwice(Sum(kept, Totals(trials, ballots, WithRole(trials, CORE))), n);
    mean := total / n as real;
  }

  method ScoreListeners(trials: seq<Answer>, ballots: seq<Ballot>) returns (listeners: seq<Listener>)
    requires Scorable(trials) && AllComplete(trials, ballots)
    ensures AllScored(trials, ballots, listeners) && AllRated(trials, ballots, listeners)
  {
    listeners := [];
    for l := 0 to |ballots|
      invariant |listeners| == l && forall k :: 0 <= k < l ==> Scored(trials, ballots[k], listeners[k])
    {
      var x := ScoreListener(trials, ballots[l]);
      listeners := listeners + [x];
    }
  }

  /** The screen: the counts, their total, and the retained listeners. */
  method Screen(trials: seq<Answer>, ghost ballots: seq<Ballot>, listeners: seq<Listener>)
    returns (counts: seq<nat>, total: nat, retained: set<nat>)
    requires AllComplete(trials, ballots) && AllScored(trials, ballots, listeners)
    ensures counts == Counts(trials, ballots) && total == Total(counts)
    ensures retained == Retained(trials, ballots) && Passed(listeners, retained)
  {
    counts, total, retained := [], 0, {};
    for l := 0 to |listeners|
      invariant |counts| == l && forall k :: 0 <= k < l ==> counts[k] == Inconsistencies(trials, ballots[k])
      invariant total == Total(counts)
      invariant forall k :: k in retained <==> 0 <= k < l && Consistent(trials, ballots[k])
    {
      assert Scored(trials, ballots[l], listeners[l]);
      var x := listeners[l].inconsistencies;
      assert (counts + [x])[..l] == counts;
      counts, total := counts + [x], total + x;
      if listeners[l].retained {
        retained := retained + {l};
      }
    }
    assert counts == Counts(trials, ballots);
  }

  method StrataMeans(trials: seq<Answer>, ghost ballots: seq<Ballot>, listeners: seq<Listener>, ghost kept: set<int>)
    returns (strata: Strata)
    requires AllComplete(trials, ballots) && AllRated(trials, ballots, listeners)
    requires Passed(listeners, kept) && kept != {} && forall s :: |CoresIn(trials, s)| == ExpectedCount(s)
    ensures forall s :: IsStratum(trials, ballots, kept, s, strata.Of(s))
  {
    var recorded := StratumMean(trials, ballots, listeners, kept, RECORDED);
    var babble := StratumMean(trials, ballots, listeners, kept, BABBLE);
    var preservation := StratumMean(trials, ballots, listeners, kept, PRESERVATION);
    var synthetic := StratumMean(trials, ballots, listeners, kept, SYNTHETIC);
    strata := Strata(recorded, babble, preservation, synthetic);
    forall s: Stratum ensures IsStratum(trials, ballots, kept, s, strata.Of(s)) {
      match s case RECORDED => case BABBLE => case PRESERVATION => case SYNTHETIC =>
    }
  }

  /** The script: it fails exactly when no listener passes the screen. */
  method Score(trials: seq<Answer>, ballots: seq<Ballot>) returns (r: Result<Outcome, ScoreError>)
    requires Scorable(trials) && AllComplete(trials, ballots)
    ensures r.Err? <==> Retained(trials, ballots) == {}
    ensures r.Ok? ==> IsOutcome(trials, ballots, r.value)
  {
    var listeners := ScoreListeners(trials, ballots);
    var counts, total, retained := Screen(trials, ballots, listeners);
    if retained == {} {
      return Err(NoListenerRetained);
    }
    var overall := OverallMean(trials, ballots, listeners, retained);
    var strata := StrataMeans(trials, ballots, listeners, retained);
    AnyRetained(trials, ballots);
    r := Ok(Outcome(counts, retained, total as real / (|listeners| * 4) as real, overall, strata));
  }

  lemma {:induction false} AnyRetained(trials: seq<Answer>, ballots: seq<Ballot>)
    requires AllComplete(trials, ballots) && Retained(trials, ballots) != {}
    ensures |ballots| > 0
  {
    var l :| l in Retained(trials, ballots);
  }
}
