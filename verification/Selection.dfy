/** Choosing the listening cases of an evaluation: from every group the extremes, the most balanced case and
    the median, filled up in rank order. The choice meets the strata that preparing a bundle demands. */
module Selection {
  import opened Wrappers
  import opened Listening
  import opened Texts
  import opened Sorting
  import Preparation

  datatype SelectionError = EmptyGroup | TooFew | NotUnique

  /** The improvement of one model over the other, by metric. */
  datatype Metrics = Metrics(improvement: Case -> real, enhanced: Case -> real)

  function Abs(x: real): real {
    if x >= 0.0 then x else -x
  }

  function ByDelta(delta: Case -> real): (Case, Case) -> bool {
    (x: Case, y: Case) => delta(x) < delta(y) || (delta(x) == delta(y) && Less(x.id, y.id))
  }

  function ByDistance(delta: Case -> real): (Case, Case) -> bool {
    (x: Case, y: Case) => Abs(delta(x)) < Abs(delta(y)) || (Abs(delta(x)) == Abs(delta(y)) && Less(x.id, y.id))
  }

  /** The first least element. */
  function First(cases: seq<Case>, less: (Case, Case) -> bool): (r: Case)
    requires cases != []
    ensures r in cases
  {
    var n := |cases| - 1;
    if n == 0 then cases[0]
    else
      var best := First(cases[..n], less);
      if less(cases[n], best) then cases[n] else best
  }

  /** The order in which `extrema` considers a group. */
  function Candidates(cases: seq<Case>, delta: Case -> real): (r: seq<Case>)
    requires cases != []
  {
    var ranked := Sort(cases, ByDelta(delta));
    [ranked[0], First(ranked, ByDistance(delta)), ranked[|ranked| - 1], ranked[|ranked| / 2]] + ranked
  }

  /** The ids of the first `n` cases, each once, in order of first appearance. */
  function OnceEach(cases: seq<Case>, n: nat): (r: seq<string>)
    requires n <= |cases|
  {
    if n == 0 then []
    else
      var before := OnceEach(cases, n - 1);
      if cases[n - 1].id in before then before else before + [cases[n - 1].id]
  }

  function IdsOf(cases: seq<Case>): set<string> {
    set c | c in cases :: c.id
  }

  ghost predicate Appears(cases: seq<Case>, n: nat, id: string)
    requires n <= |cases|
  {
    exists i :: 0 <= i < n && cases[i].id == id
  }

  lemma {:induction false} OnceEachHolds(cases: seq<Case>, n: nat)
    requires n <= |cases|
    ensures Distinct(OnceEach(cases, n))
    ensures forall id :: id in OnceEach(cases, n) <==> Appears(cases, n, id)
  {
    if n > 0 {
      OnceEachHolds(cases, n - 1);
      forall id ensures Appears(cases, n, id) <==> Appears(cases, n - 1, id) || id == cases[n - 1].id {
      }
    }
  }

  /** Distinct ids are as many as the ids. */
  lemma {:induction false} DistinctCount(ids: seq<string>, s: set<string>)
    requires Distinct(ids) && forall id :: id in ids <==> id in s
    ensures |ids| == |s|
  {
    forall d | d in s ensures Hit(Span(|ids|), ids, d) {
      var i :| 0 <= i < |ids| && ids[i] == d;
      assert i in Span(|ids|);
    }
    SameSize(Span(|ids|), ids, s);
  }

  /** Every id of the group is considered, and no other. */
  lemma {:induction false} CandidatesAreGroup(cases: seq<Case>, delta: Case -> real)
    requires cases != []
    ensures forall c :: c in Candidates(cases, delta) <==> c in cases
  {
    forall c ensures c in Sort(cases, ByDelta(delta)) <==> c in cases {
      SortElements(cases, ByDelta(delta), c);
    }
  }

  lemma {:induction false} AllIds(cases: seq<Case>, delta: Case -> real)
    requires cases != []
    ensures var all := Candidates(cases, delta); |OnceEach(all, |all|)| == |IdsOf(cases)|
    ensures var all := Candidates(cases, delta); forall id :: id in OnceEach(all, |all|) <==> id in IdsOf(cases)
  {
    var all := Candidates(cases, delta);
    CandidatesAreGroup(cases, delta);
    OnceEachHolds(all, |all|);
    forall id ensures id in OnceEach(all, |all|) <==> id in IdsOf(cases) {
      if id in IdsOf(cases) {
        var c :| c in cases && c.id == id;
        var i :| 0 <= i < |all| && all[i] == c;
        assert Appears(all, |all|, id);
      }
    }
    DistinctCount(OnceEach(all, |all|), IdsOf(cases));
  }

  /** What `extrema` returns: the first `count` ids in the order of consideration. */
  ghost predicate IsExtrema(cases: seq<Case>, count: nat, delta: Case -> real, ids: seq<string>) {
    && cases != [] && count <= |IdsOf(cases)| && |ids| == count
    && var all := Candidates(cases, delta);
       count <= |OnceEach(all, |all|)| && ids == OnceEach(all, |all|)[..count]
  }

  lemma {:induction false} DistinctPrefix(cases: seq<Case>, m: nat, n: nat)
    requires m <= n <= |cases|
    ensures |OnceEach(cases, m)| <= |OnceEach(cases, n)|
        && OnceEach(cases, n)[..|OnceEach(cases, m)|] == OnceEach(cases, m)
    decreases n
  {
    if m < n {
      DistinctPrefix(cases, m, n - 1);
    }
  }

  /** Picks `count` ids; it fails exactly when the group is empty or has fewer. */
  method Extrema(cases: seq<Case>, count: nat, delta: Case -> real) returns (r: Result<seq<string>, SelectionError>)
    requires count > 0
    ensures r.Ok? <==> cases != [] && |IdsOf(cases)| >= count
    ensures r.Ok? ==> IsExtrema(cases, count, delta, r.value)
  {
    if cases == [] {
      return Err(EmptyGroup);
    }
    var all := Candidates(cases, delta);
    AllIds(cases, delta);
    var selected := [];
    for n := 0 to |all|
      invariant selected == OnceEach(all, n) && |selected| < count
    {
      if all[n].id !in selected {
        selected := selected + [all[n].id];
      }
      if |selected| == count {
        DistinctPrefix(all, n + 1, |all|);
        return Ok(selected);
      }
    }
    r := Err(TooFew);
  }

  /** The chosen ids are different ids of the group. */
  lemma {:induction false} ExtremaAreDistinct(cases: seq<Case>, count: nat, delta: Case -> real, ids: seq<string>)
    requires IsExtrema(cases, count, delta, ids)
    ensures Distinct(ids) && forall id :: id in ids ==> id in IdsOf(cases)
  {
    var all := Candidates(cases, delta);
    OnceEachHolds(all, |all|);
    AllIds(cases, delta);
  }

  // ------------------------------------------------------------ what the order of consideration means

  lemma {:induction false} DeltaOrder(delta: Case -> real)
    ensures WeakOrder(ByDelta(delta))
  {
    KeyOrder(delta);
    assert forall x, y :: ByDelta(delta)(x, y) == ByKey(delta, x, y);
  }

  lemma {:induction false} DistanceOrder(delta: Case -> real)
    ensures WeakOrder(ByDistance(delta))
  {
    var distance := (c: Case) => Abs(delta(c));
    KeyOrder(distance);
    assert forall x, y :: ByDistance(delta)(x, y) == ByKey(distance, x, y);
  }

  /** Smaller key first, then smaller id. */
  predicate ByKey(key: Case -> real, x: Case, y: Case) {
    key(x) < key(y) || (key(x) == key(y) && Less(x.id, y.id))
  }

  lemma {:induction false} KeyOrder(key: Case -> real)
    ensures forall x, y {:trigger ByKey(key, x, y), ByKey(key, y, x)} :: !(ByKey(key, x, y) && ByKey(key, y, x))
    ensures forall x, y, z {:trigger ByKey(key, y, x), ByKey(key, z, y)} ::
      !ByKey(key, y, x) && !ByKey(key, z, y) ==> !ByKey(key, z, x)
  {
    forall x, y ensures !(ByKey(key, x, y) && ByKey(key, y, x)) {
      LessTotal(x.id, y.id);
    }
    forall x, y, z | !ByKey(key, y, x) && !ByKey(key, z, y) ensures !ByKey(key, z, x) {
      if key(x) == key(y) == key(z) {
        NotAfter(x.id, y.id, z.id);
      }
    }
  }

  /** No case comes before `c`. */
  ghost predicate Least(cases: seq<Case>, c: Case, less: (Case, Case) -> bool) {
    c in cases && forall x {:trigger less(x, c)} :: x in cases ==> !less(x, c)
  }

  /** No case comes after `c`. */
  ghost predicate Greatest(cases: seq<Case>, c: Case, less: (Case, Case) -> bool) {
    c in cases && forall x {:trigger less(c, x)} :: x in cases ==> !less(c, x)
  }

  /** The cases by increasing difference, ties by id. */
  ghost predicate Ranks(cases: seq<Case>, delta: Case -> real, ranked: seq<Case>) {
    multiset(ranked) == multiset(cases) && Ordered(ranked, ByDelta(delta))
  }

  lemma {:induction false} Asymmetric(x: Case, y: Case, less: (Case, Case) -> bool)
    requires WeakOrder(less) && less(x, y)
    ensures !less(y, x)
  {
  }

  lemma {:induction false} Irreflexive(x: Case, less: (Case, Case) -> bool)
    requires WeakOrder(less)
    ensures !less(x, x)
  {
  }

  lemma {:induction false} FirstIsLeast(cases: seq<Case>, less: (Case, Case) -> bool)
    requires cases != [] && WeakOrder(less)
    ensures Least(cases, First(cases, less), less)
  {
    var n := |cases| - 1;
    Irreflexive(cases[n], less);
    if n > 0 {
      var best := First(cases[..n], less);
      FirstIsLeast(cases[..n], less);
      if less(cases[n], best) {
        Asymmetric(cases[n], best, less);
      }
      forall x | x in cases ensures !less(x, First(cases, less)) {
        if x in cases[..n] {
          assert !less(x, best);
        } else {
          assert x == cases[n];
        }
      }
    }
  }

  lemma {:induction false} EndsAreExtreme(ranked: seq<Case>, less: (Case, Case) -> bool)
    requires ranked != [] && WeakOrder(less) && Ordered(ranked, less)
    ensures Least(ranked, ranked[0], less) && Greatest(ranked, ranked[|ranked| - 1], less)
  {
    forall x | x in ranked ensures !less(x, ranked[0]) && !less(ranked[|ranked| - 1], x) {
      var i :| 0 <= i < |ranked| && ranked[i] == x;
      Irreflexive(x, less);
    }
  }

  /** The considered cases: the lowest, the most balanced, the highest and the median one, then all by rank. */
  lemma {:induction false} CandidatesRank(cases: seq<Case>, delta: Case -> real)
    returns (ranked: seq<Case>, low: Case, balanced: Case, high: Case)
    requires cases != []
    ensures Ranks(cases, delta, ranked) && |ranked| == |cases|
    ensures Least(cases, low, ByDelta(delta)) && Least(cases, balanced, ByDistance(delta))
        && Greatest(cases, high, ByDelta(delta))
    ensures Candidates(cases, delta) == [low, balanced, high, ranked[|ranked| / 2]] + ranked
  {
    ranked := Sort(cases, ByDelta(delta));
    low, balanced, high := ranked[0], First(ranked, ByDistance(delta)), ranked[|ranked| - 1];
    DeltaOrder(delta);
    DistanceOrder(delta);
    SortKeeps(cases, ByDelta(delta));
    SortOrders(cases, ByDelta(delta));
    EndsAreExtreme(ranked, ByDelta(delta));
    FirstIsLeast(ranked, ByDistance(delta));
    forall x ensures x in ranked <==> x in cases {
      SortElements(cases, ByDelta(delta), x);
    }
  }

  /** A prefix of the ids, each once, is the ids of a prefix of the cases. */
  lemma {:induction false} PrefixOfIds(cases: seq<Case>, n: nat, count: nat) returns (k: nat)
    requires n <= |cases| && count <= |OnceEach(cases, n)|
    ensures count <= k <= n && OnceEach(cases, n)[..count] == OnceEach(cases, k)
  {
    if |OnceEach(cases, n)| == count {
      AtMost(cases, n);
      k := n;
    } else {
      k := PrefixOfIds(cases, n - 1, count);
    }
  }

  lemma {:induction false} AtMost(cases: seq<Case>, n: nat)
    requires n <= |cases|
    ensures |OnceEach(cases, n)| <= n
  {
    if n > 0 {
      AtMost(cases, n - 1);
    }
  }

  /** `d` is no farther from zero than `e`, on either side. */
  predicate Nearer(d: real, e: real) {
    if e >= 0.0 then -e <= d <= e else e <= d <= -e
  }

  /** A ranking is the cases by difference, and by id where the differences are equal. */
  lemma {:induction false} RanksIff(cases: seq<Case>, delta: Case -> real, ranked: seq<Case>)
    ensures Ranks(cases, delta, ranked) <==>
            && multiset(ranked) == multiset(cases)
            && forall i, j :: 0 <= i < j < |ranked| ==> RankedBefore(delta, ranked[i], ranked[j])
  {
    forall i, j | 0 <= i < j < |ranked|
      ensures RankedBefore(delta, ranked[i], ranked[j]) <==> !ByDelta(delta)(ranked[j], ranked[i])
    {
    }
  }

  predicate RankedBefore(delta: Case -> real, x: Case, y: Case) {
    delta(x) < delta(y) || (delta(x) == delta(y) && !Less(y.id, x.id))
  }

  /** The most balanced case has the difference nearest to zero; of two as near, it is not the one with the greater
      id. */
  lemma {:induction false} BalancedIff(cases: seq<Case>, delta: Case -> real, balanced: Case)
    ensures Least(cases, balanced, ByDistance(delta)) <==>
            && balanced in cases
            && forall x :: x in cases ==> BalancedBefore(delta, balanced, x)
  {
    forall x ensures BalancedBefore(delta, balanced, x) <==> !ByDistance(delta)(x, balanced) {
      NearerIff(delta(balanced), delta(x));
      NearerIff(delta(x), delta(balanced));
    }
  }

  lemma {:induction false} NearerIff(d: real, e: real)
    ensures Nearer(d, e) <==> Abs(d) <= Abs(e)
  {
  }

  predicate BalancedBefore(delta: Case -> real, x: Case, y: Case) {
    Nearer(delta(x), delta(y)) && (Nearer(delta(y), delta(x)) ==> !Less(y.id, x.id))
  }

  lemma {:induction false} Extremes(cases: seq<Case>, delta: Case -> real, low: Case, balanced: Case, high: Case,
          x: Case)
    requires Least(cases, low, ByDelta(delta)) && Least(cases, balanced, ByDistance(delta))
    requires Greatest(cases, high, ByDelta(delta)) && x in cases
    ensures delta(low) <= delta(x) <= delta(high) && Nearer(delta(balanced), delta(x))
  {
    assert !ByDelta(delta)(x, low) && !ByDelta(delta)(high, x) && !ByDistance(delta)(x, balanced);
    NearerIff(delta(balanced), delta(x));
  }

  /** The chosen ids, with the differences they stand for: the first `k` considered cases, of which the lowest
      is the first, the most balanced one the second, the highest the third and the median the fourth. */
  lemma {:induction false} ExtremaRank(cases: seq<Case>, count: nat, delta: Case -> real, ids: seq<string>)
    returns (ranked: seq<Case>, low: Case, balanced: Case, high: Case, k: nat)
    requires IsExtrema(cases, count, delta, ids) && count > 0
    ensures Ranks(cases, delta, ranked) && |ranked| == |cases|
    ensures Least(cases, low, ByDelta(delta)) && Least(cases, balanced, ByDistance(delta))
        && Greatest(cases, high, ByDelta(delta))
    ensures forall x :: x in cases ==> delta(low) <= delta(x) <= delta(high) && Nearer(delta(balanced), delta(x))
    ensures count <= k <= |ranked| + 4
    ensures forall id :: id in ids <==> Appears([low, balanced, high, ranked[|ranked| / 2]] + ranked, k, id)
    ensures low.id in ids && (count >= 2 ==> balanced.id in ids) && (count >= 3 ==> high.id in ids)
    ensures count >= 4 ==> ranked[|ranked| / 2].id in ids
  {
    ranked, low, balanced, high := CandidatesRank(cases, delta);
    var all := Candidates(cases, delta);
    k := PrefixOfIds(all, |all|, count);
    OnceEachHolds(all, k);
    assert all[0] == low && all[1] == balanced && all[2] == high && all[3] == ranked[|ranked| / 2];
    forall x | x in cases ensures delta(low) <= delta(x) <= delta(high) && Nearer(delta(balanced), delta(x)) {
      Extremes(cases, delta, low, balanced, high, x);
    }
  }

  /** With unique ids there is only one ranking, so the median is one case. */
  lemma {:induction false} RankingIsUnique(cases: seq<Case>, delta: Case -> real, r: seq<Case>, s: seq<Case>)
    requires UniqueIds(cases) && Ranks(cases, delta, r) && Ranks(cases, delta, s)
    ensures r == s
  {
    DeltaOrder(delta);
    forall x, y | x in multiset(r) && y in multiset(r) && x != y ensures ByDelta(delta)(x, y) || ByDelta(delta)(y, x) {
      assert x in multiset(cases) && y in multiset(cases);
      LessTotal(x.id, y.id);
    }
    OrderedIsUnique(r, s, ByDelta(delta));
  }

  // ------------------------------------------------------------ the groups

  /** The four groups; they use the noise name as `classify` does, except that the synthetic group is told by
      what it is not. */
  predicate InGroup(c: Case, s: Stratum) {
    match s
    case RECORDED => c.kind == NOISE_MATRIX && c.noise.Some? && "freesound-" <= c.noise.value
    case BABBLE => c.kind == NOISE_MATRIX && c.noise == Some("three-talker-babble")
    case PRESERVATION => c.kind == CLEAN_PRESERVATION
    case SYNTHETIC =>
      && c.kind == NOISE_MATRIX && c.noise != Some("freesound-2530") && c.noise != Some("freesound-573577")
      && c.noise != Some("three-talker-babble")
  }

  /** No noise but the two recordings has a name that begins like theirs. */
  predicate KnownNoise(c: Case) {
    c.kind == NOISE_MATRIX && c.noise.Some? && "freesound-" <= c.noise.value ==>
      c.noise == Some("freesound-2530") || c.noise == Some("freesound-573577")
  }

  function Group(cases: seq<Case>, s: Stratum): (r: seq<Case>)
    ensures forall c :: c in r <==> c in cases && InGroup(c, s)
  {
    if cases == [] then []
    else
      var n := |cases| - 1;
      var front := Group(cases[..n], s);
      assert forall c :: c in cases <==> c in cases[..n] || c == cases[n];
      if InGroup(cases[n], s) then front + [cases[n]] else front
  }

  lemma {:induction false} TwoRecordings()
    ensures "freesound-" <= "freesound-2530" && "freesound-" <= "freesound-573577"
    ensures !("freesound-" <= "three-talker-babble")
  {
    assert "freesound-" == "freesound-2530"[..10] == "freesound-573577"[..10];
    assert "three-talker-babble"[0] == 't' && "freesound-"[0] == 'f';
  }

  /** With a known noise a case is in a group exactly when it classifies as its stratum. */
  lemma {:induction false} GroupsClassify(c: Case, s: Stratum)
    requires KnownNoise(c)
    ensures InGroup(c, s) <==> Classify(c) == Some(s)
  {
    TwoRecordings();
  }

  /** The groups are the strata for exactly these cases; any other one is in two groups. */
  lemma {:induction false} GroupsClassifyIff(c: Case)
    ensures (forall s :: InGroup(c, s) <==> Classify(c) == Some(s)) <==> KnownNoise(c)
    ensures !KnownNoise(c) ==> InGroup(c, RECORDED) && InGroup(c, SYNTHETIC)
  {
    TwoRecordings();
    if KnownNoise(c) {
      forall s ensures InGroup(c, s) <==> Classify(c) == Some(s) {
        GroupsClassify(c, s);
      }
    } else {
      assert InGroup(c, SYNTHETIC) && Classify(c) == Some(RECORDED);
    }
  }

  /** The noises of an evaluation matrix. */
  const NOISE_NAMES: seq<string> := ["freesound-2530", "freesound-573577", "white", "pink", "hum-60hz", "impulsive",
                                     "three-talker-babble"]

  lemma {:induction false} NoiseNamesAreKnown(c: Case)
    requires c.noise.Some? && c.noise.value in NOISE_NAMES
    ensures KnownNoise(c)
  {
    TwoRecordings();
    assert "white"[0] == 'w' && "pink"[0] == 'p' && "hum-60hz"[0] == 'h' && "impulsive"[0] == 'i';
    assert "freesound-"[0] == 'f';
  }

  function MetricOf(m: Metrics, s: Stratum): Case -> real {
    if s == PRESERVATION then m.enhanced else m.improvement
  }

  datatype Choice = Choice(recorded: seq<string>, babble: seq<string>, clean: seq<string>, synthetic: seq<string>) {
    function Of(s: Stratum): seq<string> {
      match s case RECORDED => recorded case BABBLE => babble case PRESERVATION => clean case SYNTHETIC => synthetic
    }

    function All(): seq<string> {
      recorded + babble + clean + synthetic
    }
  }

  ghost predicate IsChoice(cases: seq<Case>, m: Metrics, c: Choice) {
    forall s :: IsExtrema(Group(cases, s), ExpectedCount(s), MetricOf(m, s), c.Of(s))
  }

  /** Every group has as many distinct ids as it must provide. */
  ghost predicate Enough(cases: seq<Case>) {
    forall s :: Group(cases, s) != [] && |IdsOf(Group(cases, s))| >= ExpectedCount(s)
  }

  lemma {:induction false} PartsMakeChoice(cases: seq<Case>, m: Metrics, c: Choice)
    requires IsExtrema(Group(cases, RECORDED), 4, m.improvement, c.recorded)
        && IsExtrema(Group(cases, BABBLE), 3, m.improvement, c.babble)
    requires IsExtrema(Group(cases, PRESERVATION), 3, m.enhanced, c.clean)
        && IsExtrema(Group(cases, SYNTHETIC), 2, m.improvement, c.synthetic)
    ensures IsChoice(cases, m, c) && Enough(cases)
  {
    forall s ensures IsExtrema(Group(cases, s), ExpectedCount(s), MetricOf(m, s), c.Of(s)) {
      match s case RECORDED => case BABBLE => case PRESERVATION => case SYNTHETIC =>
    }
    forall s ensures Group(cases, s) != [] && |IdsOf(Group(cases, s))| >= ExpectedCount(s) {
      assert IsExtrema(Group(cases, s), ExpectedCount(s), MetricOf(m, s), c.Of(s));
    }
  }

  lemma {:induction false} GroupTooSmall(cases: seq<Case>, s: Stratum)
    requires Group(cases, s) == [] || |IdsOf(Group(cases, s))| < ExpectedCount(s)
    ensures !Enough(cases)
  {
  }

  /** The script. On a matrix with unique ids and known noises it fails only when a group is too small. */
  method ChooseListeningCases(cases: seq<Case>, m: Metrics) returns (r: Result<Choice, SelectionError>)
    ensures r.Ok? ==> Enough(cases) && IsChoice(cases, m, r.value) && Distinct(r.value.All())
    ensures r.Err? ==> !Enough(cases) || exists c :: IsChoice(cases, m, c) && !Distinct(c.All())
    ensures UniqueIds(cases) && KnownNoises(cases) ==> (r.Ok? <==> Enough(cases))
  {
    var recorded := Extrema(Group(cases, RECORDED), 4, m.improvement);
    if recorded.Err? {
      GroupTooSmall(cases, RECORDED);
      return Err(recorded.error);
    }
    var babble := Extrema(Group(cases, BABBLE), 3, m.improvement);
    if babble.Err? {
      GroupTooSmall(cases, BABBLE);
      return Err(babble.error);
    }
    var clean := Extrema(Group(cases, PRESERVATION), 3, m.enhanced);
    if clean.Err? {
      GroupTooSmall(cases, PRESERVATION);
      return Err(clean.error);
    }
    var synthetic := Extrema(Group(cases, SYNTHETIC), 2, m.improvement);
    if synthetic.Err? {
      GroupTooSmall(cases, SYNTHETIC);
      return Err(synthetic.error);
    }
    var choice := Choice(recorded.value, babble.value, clean.value, synthetic.value);
    PartsMakeChoice(cases, m, choice);
    if !Distinct(choice.All()) {
      if UniqueIds(cases) && KnownNoises(cases) {
        ChoiceIsDistinct(cases, m, choice);
      }
      return Err(NotUnique);
    }
    r := Ok(choice);
  }

  // ------------------------------------------------------------ the choice fits the strata

  predicate UniqueIds(cases: seq<Case>) {
    forall i, j :: 0 <= i < j < |cases| ==> cases[i].id != cases[j].id
  }

  predicate KnownNoises(cases: seq<Case>) {
    forall i :: 0 <= i < |cases| ==> KnownNoise(cases[i])
  }

  /** With unique ids a case is found under its id. */
  lemma {:induction false} FindsCase(cases: seq<Case>, c: Case)
    requires UniqueIds(cases) && c in cases
    ensures Preparation.FindCase(cases, c.id) == Some(c)
  {
    var n := |cases| - 1;
    if cases[n] != c {
      var i :| 0 <= i < n && cases[i] == c;
      assert cases[..n][i] == c;
      FindsCase(cases[..n], c);
    }
  }

  /** A chosen id belongs to a case of the matrix that classifies as its stratum. */
  lemma {:induction false} ChosenClassifies(cases: seq<Case>, m: Metrics, c: Choice, s: Stratum, id: string)
    requires UniqueIds(cases) && KnownNoises(cases) && IsChoice(cases, m, c) && id in c.Of(s)
    ensures Preparation.FindCase(cases, id).Some? && Classify(Preparation.FindCase(cases, id).value) == Some(s)
  {
    assert IsExtrema(Group(cases, s), ExpectedCount(s), MetricOf(m, s), c.Of(s));
    ExtremaAreDistinct(Group(cases, s), ExpectedCount(s), MetricOf(m, s), c.Of(s));
    var x :| x in Group(cases, s) && x.id == id;
    FindsCase(cases, x);
    GroupsClassify(x, s);
  }

  /** The ids hold a case with the least, one with the most balanced and, of three or more, one with the greatest
      difference of the group. */
  ghost predicate HoldsExtremes(cases: seq<Case>, delta: Case -> real, ids: seq<string>) {
    exists low, balanced, high ::
      && AreExtreme(cases, delta, low, balanced, high)
      && low.id in ids && balanced.id in ids && (|ids| >= 3 ==> high.id in ids)
  }

  predicate AreExtreme(cases: seq<Case>, delta: Case -> real, low: Case, balanced: Case, high: Case) {
    && low in cases && balanced in cases && high in cases
    && forall x :: x in cases ==> delta(low) <= delta(x) <= delta(high) && Nearer(delta(balanced), delta(x))
  }

  lemma {:induction false} PartHoldsExtremes(cases: seq<Case>, count: nat, delta: Case -> real, ids: seq<string>)
    requires IsExtrema(cases, count, delta, ids) && count >= 2
    ensures HoldsExtremes(cases, delta, ids)
  {
    var ranked, low, balanced, high, k := ExtremaRank(cases, count, delta, ids);
    assert AreExtreme(cases, delta, low, balanced, high);
  }

  /** The clean cases are chosen by the enhanced quality, the others by the improvement. */
  lemma {:induction false} ChoiceHoldsExtremes(cases: seq<Case>, m: Metrics, c: Choice)
    requires IsChoice(cases, m, c)
    ensures HoldsExtremes(Group(cases, RECORDED), m.improvement, c.recorded)
    ensures HoldsExtremes(Group(cases, BABBLE), m.improvement, c.babble)
    ensures HoldsExtremes(Group(cases, PRESERVATION), m.enhanced, c.clean)
    ensures HoldsExtremes(Group(cases, SYNTHETIC), m.improvement, c.synthetic)
  {
    assert IsExtrema(Group(cases, RECORDED), 4, MetricOf(m, RECORDED), c.Of(RECORDED));
    assert IsExtrema(Group(cases, BABBLE), 3, MetricOf(m, BABBLE), c.Of(BABBLE));
    assert IsExtrema(Group(cases, PRESERVATION), 3, MetricOf(m, PRESERVATION), c.Of(PRESERVATION));
    assert IsExtrema(Group(cases, SYNTHETIC), 2, MetricOf(m, SYNTHETIC), c.Of(SYNTHETIC));
    PartHoldsExtremes(Group(cases, RECORDED), 4, m.improvement, c.recorded);
    PartHoldsExtremes(Group(cases, BABBLE), 3, m.improvement, c.babble);
    PartHoldsExtremes(Group(cases, PRESERVATION), 3, m.enhanced, c.clean);
    PartHoldsExtremes(Group(cases, SYNTHETIC), 2, m.improvement, c.synthetic);
  }

  lemma {:induction false} PartIsDistinct(cases: seq<Case>, m: Metrics, c: Choice, s: Stratum)
    requires IsChoice(cases, m, c)
    ensures |c.Of(s)| == ExpectedCount(s) && Distinct(c.Of(s))
  {
    assert IsExtrema(Group(cases, s), ExpectedCount(s), MetricOf(m, s), c.Of(s));
    ExtremaAreDistinct(Group(cases, s), ExpectedCount(s), MetricOf(m, s), c.Of(s));
  }

  lemma {:induction false} Apart(cases: seq<Case>, m: Metrics, c: Choice, s: Stratum, t: Stratum)
    requires UniqueIds(cases) && KnownNoises(cases) && IsChoice(cases, m, c) && s != t
    ensures forall id :: id in c.Of(s) ==> id !in c.Of(t)
  {
    forall id | id in c.Of(s) ensures id !in c.Of(t) {
      ChosenClassifies(cases, m, c, s, id);
      if id in c.Of(t) {
        ChosenClassifies(cases, m, c, t, id);
      }
    }
  }

  /** The four parts of a choice are distinct, so the check for twelve unique ids never fails. */
  lemma {:induction false} ChoiceIsDistinct(cases: seq<Case>, m: Metrics, c: Choice)
    requires UniqueIds(cases) && KnownNoises(cases) && IsChoice(cases, m, c)
    ensures |c.All()| == 12 && Distinct(c.All())
  {
    PartIsDistinct(cases, m, c, RECORDED);
    PartIsDistinct(cases, m, c, BABBLE);
    PartIsDistinct(cases, m, c, PRESERVATION);
    PartIsDistinct(cases, m, c, SYNTHETIC);
    Apart(cases, m, c, RECORDED, BABBLE);
    Apart(cases, m, c, RECORDED, PRESERVATION);
    Apart(cases, m, c, BABBLE, PRESERVATION);
    Apart(cases, m, c, RECORDED, SYNTHETIC);
    Apart(cases, m, c, BABBLE, SYNTHETIC);
    Apart(cases, m, c, PRESERVATION, SYNTHETIC);
    Concat(c.Of(RECORDED), c.Of(BABBLE));
    Concat(c.Of(RECORDED) + c.Of(BABBLE), c.Of(PRESERVATION));
    Concat(c.Of(RECORDED) + c.Of(BABBLE) + c.Of(PRESERVATION), c.Of(SYNTHETIC));
  }

  lemma {:induction false} Concat(a: seq<string>, b: seq<string>)
    requires Distinct(a) && Distinct(b) && forall id :: id in a ==> id !in b
    ensures Distinct(a + b)
  {
    forall i, j | 0 <= i < j < |a + b| ensures (a + b)[i] != (a + b)[j] {
      if i < |a| <= j {
        assert a[i] in a && b[j - |a|] in b;
      }
    }
  }

  // ------------------------------------------------------------ preparing a bundle from the choice

  /** The audio directory holds one directory for every chosen id. */
  ghost predicate Holds(dirs: seq<Directory>, c: Choice) {
    && Preparation.Listing(dirs)
    && forall id :: id in c.All() <==> id in Preparation.NameList(dirs)
  }

  function StratumIn(cases: seq<Case>, d: Directory): Stratum {
    match Preparation.StratumOf(cases, d) case Some(s) => s case None => SYNTHETIC
  }

  function StrataOf(cases: seq<Case>, dirs: seq<Directory>): (r: seq<Stratum>)
    ensures |r| == |dirs| && forall d :: 0 <= d < |r| ==> r[d] == StratumIn(cases, dirs[d])
  {
    seq(|dirs|, d requires 0 <= d < |dirs| => StratumIn(cases, dirs[d]))
  }

  lemma {:induction false} InSomeStratum(c: Choice, id: string) returns (s: Stratum)
    requires id in c.All()
    ensures id in c.Of(s)
  {
    s := if id in c.recorded then RECORDED else if id in c.babble then BABBLE else if id in c.clean then PRESERVATION
        else SYNTHETIC;
  }

  lemma {:induction false} PartOfAll(c: Choice, s: Stratum, id: string)
    requires id in c.Of(s)
    ensures id in c.All()
  {
    match s case RECORDED => case BABBLE => case PRESERVATION => case SYNTHETIC =>
  }

  lemma {:induction false} DirectoryClassifies(cases: seq<Case>, m: Metrics, c: Choice, dirs: seq<Directory>, d: nat,
          s: Stratum)
    requires UniqueIds(cases) && KnownNoises(cases) && IsChoice(cases, m, c) && Holds(dirs, c) && d < |dirs|
    ensures Preparation.StratumOf(cases, dirs[d]).Some?
    ensures dirs[d].name in c.Of(s) <==> Preparation.StratumOf(cases, dirs[d]) == Some(s)
  {
    assert Preparation.NameList(dirs)[d] in Preparation.NameList(dirs);
    var t := InSomeStratum(c, dirs[d].name);
    ChosenClassifies(cases, m, c, t, dirs[d].name);
    if dirs[d].name in c.Of(s) {
      ChosenClassifies(cases, m, c, s, dirs[d].name);
    }
  }

  /** The chosen cases fall into exactly the strata that preparing a bundle demands. */
  lemma {:induction false} ChoiceFitsStrata(cases: seq<Case>, m: Metrics, c: Choice, dirs: seq<Directory>, s: Stratum)
    requires UniqueIds(cases) && KnownNoises(cases) && IsChoice(cases, m, c) && Holds(dirs, c)
    ensures forall d :: 0 <= d < |dirs| ==> Preparation.StratumOf(cases, dirs[d]) == Some(StrataOf(cases, dirs)[d])
    ensures |Preparation.InStratum(StrataOf(cases, dirs), s)| == ExpectedCount(s)
  {
    var strata := StrataOf(cases, dirs);
    forall d: nat | d < |dirs|
      ensures Preparation.StratumOf(cases, dirs[d]) == Some(strata[d]) && (dirs[d].name in c.Of(s) <==> strata[d] == s)
    {
      DirectoryClassifies(cases, m, c, dirs, d, s);
    }
    assert IsExtrema(Group(cases, s), ExpectedCount(s), MetricOf(m, s), c.Of(s));
    ExtremaAreDistinct(Group(cases, s), ExpectedCount(s), MetricOf(m, s), c.Of(s));
    var names := set id | id in c.Of(s);
    DistinctCount(c.Of(s), names);
    NamesCount(c, dirs, Preparation.InStratum(strata, s), s, names);
  }

  lemma {:induction false} NamesCount(c: Choice, dirs: seq<Directory>, ds: set<int>, s: Stratum, names: set<string>)
    requires Holds(dirs, c) && forall id :: id in names <==> id in c.Of(s)
    requires forall d :: d in ds <==> 0 <= d < |dirs| && dirs[d].name in c.Of(s)
    ensures |ds| == |names|
  {
    forall id | id in names ensures Hit(ds, Preparation.NameList(dirs), id) {
      PartOfAll(c, s, id);
      var d :| 0 <= d < |dirs| && Preparation.NameList(dirs)[d] == id;
      assert d in ds;
    }
    forall d, e | d in ds && e in ds && d != e ensures Preparation.NameList(dirs)[d] != Preparation.NameList(dirs)[e] {
      LessTotal(dirs[d].name, dirs[e].name);
    }
    SameSize(ds, Preparation.NameList(dirs), names);
  }
}
