/** Preparing a bundle and recovering its key: the recovered key names the same case and the same model on
    the same side for every trial, and both keys are valid. */
module RoundTrip {
  import opened Wrappers
  import opened Listening
  import opened Texts
  import opened Preparation
  import opened Recovery

  /** One core trial for each directory, and none without. */
  ghost predicate OneCoreEach(trials: seq<Answer>, place: seq<int>, n: nat) {
    && |place| == |trials|
    && (forall i :: 0 <= i < |trials| ==> 0 <= place[i] < n)
    && (forall d :: 0 <= d < n ==> Hit(WithRole(trials, CORE), place, d))
    && forall i, j :: 0 <= i < |trials| && 0 <= j < |trials| && trials[i].role == trials[j].role == CORE && i != j ==>
        place[i] != place[j]
  }

  /** Sixteen trials with one core trial each of twelve directories leave four repeats. */
  lemma {:induction false} RoleCounts(trials: seq<Answer>, place: seq<int>, n: nat)
    requires OneCoreEach(trials, place, n)
    ensures |WithRole(trials, CORE)| == n && |WithRole(trials, REPEAT)| == |trials| - n
  {
    TwoParts(|trials|, WithRole(trials, CORE), WithRole(trials, REPEAT));
    SameSize(WithRole(trials, CORE), place, Span(n));
  }

  ghost predicate ExpectedStrata(strata: seq<Stratum>) {
    forall s :: |InStratum(strata, s)| == ExpectedCount(s)
  }

  ghost predicate ExpectedCores(trials: seq<Answer>) {
    forall s :: |CoresIn(trials, s)| == ExpectedCount(s)
  }

  /** Core trials as in the strata. */
  lemma {:induction false} CoreCounts(trials: seq<Answer>, place: seq<int>, strata: seq<Stratum>)
    requires ExpectedStrata(strata) && OneCoreEach(trials, place, |strata|)
    requires forall i :: 0 <= i < |trials| ==> trials[i].stratum == strata[place[i]]
    ensures ExpectedCores(trials)
  {
    forall s ensures |CoresIn(trials, s)| == ExpectedCount(s) {
      StratumCores(trials, place, strata, s);
    }
  }

  lemma {:induction false} StratumCores(trials: seq<Answer>, place: seq<int>, strata: seq<Stratum>, s: Stratum)
    requires OneCoreEach(trials, place, |strata|)
    requires forall i :: 0 <= i < |trials| ==> trials[i].stratum == strata[place[i]]
    ensures |CoresIn(trials, s)| == |InStratum(strata, s)|
  {
    var cores, ds := CoresIn(trials, s), InStratum(strata, s);
    forall d | d in ds ensures Hit(cores, place, d) {
      assert Hit(WithRole(trials, CORE), place, d);
      var i :| i in WithRole(trials, CORE) && 0 <= i < |place| && place[i] == d;
      assert i in cores;
    }
    SameSize(cores, place, ds);
  }

  // ------------------------------------------------------------ the trials of a plan

  /** Everything the theorems assume: a prepared bundle from a listing in name order. */
  ghost predicate Prepared(k: Keying, h: Hashes, matrix: seq<Case>, dirs: seq<Directory>, strata: seq<Stratum>,
          plan: seq<Spec>, b: Bundle) {
    Hexadecimal(k) && Listing(dirs) && IsBundle(k, h, matrix, dirs, strata, plan, b)
  }

  function Places(plan: seq<Spec>): (r: seq<int>)
    ensures |r| == |plan| && forall i :: 0 <= i < |r| ==> r[i] == plan[i].place
  {
    seq(|plan|, i requires 0 <= i < |plan| => plan[i].place)
  }

  lemma {:induction false} NamesDiffer(dirs: seq<Directory>, d: nat, e: nat)
    requires Listing(dirs) && d < |dirs| && e < |dirs| && dirs[d].name == dirs[e].name
    ensures d == e
  {
    LessTotal(dirs[d].name, dirs[e].name);
  }

  lemma {:induction false} CoreTrial(k: Keying, dirs: seq<Directory>, strata: seq<Stratum>, plan: seq<Spec>, d: nat)
    returns (i: nat)
    requires |dirs| == |strata| && IsPlan(k, dirs, strata, plan) && d < |dirs|
    ensures i < |plan| && plan[i] == Spec(k.core(dirs[d].name), d, CORE)
  {
    assert HasCore(k, dirs, plan, d);
    var x := Spec(k.core(dirs[d].name), d, CORE);
    i :| 0 <= i < |plan| && plan[i] == x;
  }

  lemma {:induction false} RepeatTrial(k: Keying, dirs: seq<Directory>, strata: seq<Stratum>, plan: seq<Spec>, d: nat)
    returns (i: nat)
    requires |dirs| == |strata| && IsPlan(k, dirs, strata, plan) && d < |dirs| && IsChosen(k, dirs, strata, d)
    ensures i < |plan| && plan[i] == Spec(k.repeat(dirs[d].name), d, REPEAT)
  {
    assert HasRepeat(k, dirs, plan, d);
    var x := Spec(k.repeat(dirs[d].name), d, REPEAT);
    i :| 0 <= i < |plan| && plan[i] == x;
  }

  /** One trial for each role of each directory, and repeats only of chosen ones. */
  lemma {:induction false} OneEach(k: Keying, dirs: seq<Directory>, strata: seq<Stratum>, plan: seq<Spec>, i: nat,
          j: nat)
    requires |dirs| == |strata| && IsPlan(k, dirs, strata, plan) && i < |plan| && j < |plan|
    ensures plan[i].place == plan[j].place && plan[i].role == plan[j].role ==> i == j
    ensures plan[i].role == REPEAT ==> IsChosen(k, dirs, strata, plan[i].place)
  {
    if plan[i].role == REPEAT {
      assert plan[i] == Spec(k.repeat(dirs[plan[i].place].name), plan[i].place, REPEAT);
      assert HasRepeat(k, dirs, plan, plan[i].place);
    }
  }

  // ------------------------------------------------------------ the prepared key is valid

  lemma {:induction false} PreparedCores(k: Keying, dirs: seq<Directory>, strata: seq<Stratum>, plan: seq<Spec>,
          trials: seq<Answer>)
    requires |dirs| == |strata| && IsPlan(k, dirs, strata, plan) && |trials| == |plan|
    requires forall i :: 0 <= i < |plan| ==> trials[i] == PrivateOf(k, dirs, strata, plan[i])
    ensures OneCoreEach(trials, Places(plan), |dirs|)
  {
    forall d | 0 <= d < |dirs| ensures Hit(WithRole(trials, CORE), Places(plan), d) {
      var i := CoreTrial(k, dirs, strata, plan, d);
      assert i in WithRole(trials, CORE) && Places(plan)[i] == d;
    }
    forall i, j | 0 <= i < |trials| && 0 <= j < |trials| && trials[i].role == trials[j].role == CORE && i != j
      ensures Places(plan)[i] != Places(plan)[j]
    {
      OneEach(k, dirs, strata, plan, i, j);
    }
  }

  lemma {:induction false} PreparedRepeats(k: Keying, dirs: seq<Directory>, strata: seq<Stratum>, plan: seq<Spec>,
          trials: seq<Answer>, i: nat)
    returns (c: nat)
    requires |dirs| == |strata| && IsPlan(k, dirs, strata, plan) && |trials| == |plan| && i < |plan|
    requires forall i :: 0 <= i < |plan| ==> trials[i] == PrivateOf(k, dirs, strata, plan[i])
    requires trials[i].role == REPEAT
    ensures c < |trials| && Repeats(trials, i, c) && plan[c].place == plan[i].place
  {
    c := CoreTrial(k, dirs, strata, plan, plan[i].place);
  }

  lemma {:induction false} PreparedGeometry(k: Keying, h: Hashes, matrix: seq<Case>, dirs: seq<Directory>,
          strata: seq<Stratum>, plan: seq<Spec>, b: Bundle)
    requires Prepared(k, h, matrix, dirs, strata, plan, b)
    ensures CoreGeometry(b.key.trials)
  {
    var trials := b.key.trials;
    PreparedCores(k, dirs, strata, plan, trials);
    RoleCounts(trials, Places(plan), |dirs|);
    CoreCounts(trials, Places(plan), strata);
    forall i | 0 <= i < |trials| && trials[i].role == REPEAT ensures RepeatsOne(trials, i) {
      var j := PreparedRepeats(k, dirs, strata, plan, trials, i);
      assert Repeats(trials, i, j);
    }
    forall i, j | 0 <= i < j < |trials| && trials[i].role == trials[j].role == REPEAT
      ensures trials[i].duplicateOf != trials[j].duplicateOf
    {
      var c := PreparedRepeats(k, dirs, strata, plan, trials, i);
      var d := PreparedRepeats(k, dirs, strata, plan, trials, j);
      OneEach(k, dirs, strata, plan, i, j);
      assert trials[c].id == plan[c].id && trials[d].id == plan[d].id;
    }
  }

  /** The prepared key is valid for its protocol exactly when the case ids are well formed. */
  lemma {:induction false} PreparedKeyIsValid(k: Keying, h: Hashes, matrix: seq<Case>, dirs: seq<Directory>,
          strata: seq<Stratum>, plan: seq<Spec>, b: Bundle)
    requires Prepared(k, h, matrix, dirs, strata, plan, b)
    ensures ValidKey(b.key, b.protocol, h) <==> forall d :: 0 <= d < |dirs| ==> IsCaseId(dirs[d].name)
  {
    PreparedGeometry(k, h, matrix, dirs, strata, plan, b);
    if ValidKey(b.key, b.protocol, h) {
      forall d | 0 <= d < |dirs| ensures IsCaseId(dirs[d].name) {
        ValidKeyIds(k, h, matrix, dirs, strata, plan, b, d);
      }
    }
    if forall d :: 0 <= d < |dirs| ==> IsCaseId(dirs[d].name) {
      PreparedCovers(k, h, matrix, dirs, strata, plan, b);
    }
  }

  lemma {:induction false} ValidKeyIds(k: Keying, h: Hashes, matrix: seq<Case>, dirs: seq<Directory>,
          strata: seq<Stratum>, plan: seq<Spec>, b: Bundle, d: nat)
    requires Prepared(k, h, matrix, dirs, strata, plan, b) && ValidKey(b.key, b.protocol, h) && d < |dirs|
    ensures IsCaseId(dirs[d].name)
  {
    var i := CoreTrial(k, dirs, strata, plan, d);
    assert b.key.trials[i].caseId == dirs[d].name;
    assert AnswersOne(b.key.trials[i], b.protocol, false);
  }

  lemma {:induction false} PreparedCovers(k: Keying, h: Hashes, matrix: seq<Case>, dirs: seq<Directory>,
          strata: seq<Stratum>, plan: seq<Spec>, b: Bundle)
    requires Prepared(k, h, matrix, dirs, strata, plan, b)
    requires forall d :: 0 <= d < |dirs| ==> IsCaseId(dirs[d].name)
    ensures Covers(b.key.trials, b.protocol, false)
  {
    forall i | 0 <= i < |plan|
      ensures AnswersOne(b.key.trials[i], b.protocol, false) && b.key.trials[i].id == plan[i].id
    {
      assert AnswersTrial(b.key.trials[i], b.protocol.trials[i], false);
    }
  }

  // ------------------------------------------------------------ the recovered drafts

  lemma {:induction false} PreparedProtocol(k: Keying, h: Hashes, matrix: seq<Case>, dirs: seq<Directory>,
          strata: seq<Stratum>, plan: seq<Spec>, b: Bundle)
    requires Prepared(k, h, matrix, dirs, strata, plan, b)
    ensures ValidProtocol(b.protocol)
  {
    forall i | 0 <= i < |plan|
      ensures b.protocol.trials[i].id == plan[i].id && IsHex(plan[i].id, 24)
      ensures Playable(b.protocol.trials[i].reference) && Playable(b.protocol.trials[i].input)
      ensures Playable(b.protocol.trials[i].a) && Playable(b.protocol.trials[i].b)
    {
      assert HasTrialAudio(dirs[plan[i].place]);
    }
  }

  /** Trial `i` matches the directory it was made from, and its sides are named as they were assigned. */
  lemma {:induction false} DraftOfTrial(k: Keying, h: Hashes, matrix: seq<Case>, dirs: seq<Directory>,
          strata: seq<Stratum>, plan: seq<Spec>, b: Bundle, i: nat)
    requires Prepared(k, h, matrix, dirs, strata, plan, b) && Candidates(matrix, dirs) && i < |plan|
    ensures
      var d, t, a := dirs[plan[i].place], b.protocol.trials[i], b.key.trials[i];
      && DraftsTrial(matrix, d, t, Draft(t, d))
      && Draft(t, d) == Answer(a.id, a.caseId, a.stratum, CORE, None, a.a, a.b, Some((t.a.sha256, t.b.sha256)))
  {
    assert HasTrialAudio(dirs[plan[i].place]) && ClosedAudio(dirs[plan[i].place]);
  }

  /** Whatever drafts match the protocol are those of the plan. */
  lemma {:induction false} DraftIs(k: Keying, h: Hashes, matrix: seq<Case>, dirs: seq<Directory>,
          strata: seq<Stratum>, plan: seq<Spec>, b: Bundle, drafts: seq<Answer>, i: nat)
    requires Prepared(k, h, matrix, dirs, strata, plan, b) && Candidates(matrix, dirs) && i < |plan|
    requires Drafts(b.protocol, matrix, dirs, drafts)
    ensures
      var t, a := b.protocol.trials[i], b.key.trials[i];
      && drafts[i] == Answer(a.id, a.caseId, a.stratum, CORE, None, a.a, a.b, Some((t.a.sha256, t.b.sha256)))
      && a.id == plan[i].id && a.caseId == dirs[plan[i].place].name
  {
    DraftOfTrial(k, h, matrix, dirs, strata, plan, b, i);
    assert IsDraft(matrix, dirs, b.protocol.trials[i], drafts[i]);
    var d :| 0 <= d < |dirs| && DraftsTrial(matrix, dirs[d], b.protocol.trials[i], drafts[i]);
    assert d == plan[i].place;
  }

  /** Drafts in the terms of a plan: trial `i` plays the directory at its place. */
  ghost predicate FollowsPlan(k: Keying, dirs: seq<Directory>, strata: seq<Stratum>, plan: seq<Spec>,
          drafts: seq<Answer>) {
    && |dirs| == |strata| == 12 && Listing(dirs) && IsPlan(k, dirs, strata, plan) && |drafts| == |plan|
    && forall i :: 0 <= i < |plan| ==> drafts[i].id == plan[i].id && drafts[i].caseId == dirs[plan[i].place].name
  }

  ghost function TrialsAt(plan: seq<Spec>, d: int): set<int> {
    set i | 0 <= i < |plan| && plan[i].place == d
  }

  lemma {:induction false} TrialsOfDirectory(k: Keying, dirs: seq<Directory>, strata: seq<Stratum>, plan: seq<Spec>,
          drafts: seq<Answer>, d: nat)
    requires FollowsPlan(k, dirs, strata, plan, drafts) && d < |dirs|
    ensures TrialsOf(drafts, dirs[d].name) == TrialsAt(plan, d)
    ensures |TrialsAt(plan, d)| == if IsChosen(k, dirs, strata, d) then 2 else 1
  {
    forall i | 0 <= i < |drafts| ensures drafts[i].caseId == dirs[d].name <==> plan[i].place == d {
      if drafts[i].caseId == dirs[d].name {
        NamesDiffer(dirs, plan[i].place, d);
      }
    }
    var c := CoreTrial(k, dirs, strata, plan, d);
    if IsChosen(k, dirs, strata, d) {
      var r := RepeatTrial(k, dirs, strata, plan, d);
      forall i | i in TrialsAt(plan, d) ensures i == c || i == r {
        OneEach(k, dirs, strata, plan, i, c);
        OneEach(k, dirs, strata, plan, i, r);
      }
      assert TrialsAt(plan, d) == {c, r};
    } else {
      forall i | i in TrialsAt(plan, d) ensures i == c {
        OneEach(k, dirs, strata, plan, i, c);
      }
      assert TrialsAt(plan, d) == {c};
    }
  }

  ghost function Chosen(k: Keying, dirs: seq<Directory>, strata: seq<Stratum>): set<int>
    requires |dirs| == |strata|
  {
    set d | d in Span(|dirs|) && IsChosen(k, dirs, strata, d)
  }

  ghost function SpecsWith(plan: seq<Spec>, role: Role): set<int> {
    set i | 0 <= i < |plan| && plan[i].role == role
  }

  lemma {:induction false} PlanCores(k: Keying, dirs: seq<Directory>, strata: seq<Stratum>, plan: seq<Spec>)
    requires |dirs| == |strata| && IsPlan(k, dirs, strata, plan)
    ensures |SpecsWith(plan, CORE)| == |dirs|
  {
    var cores := SpecsWith(plan, CORE);
    forall d | 0 <= d < |dirs| ensures Hit(cores, Places(plan), d) {
      var i := CoreTrial(k, dirs, strata, plan, d);
      assert i in cores && Places(plan)[i] == d;
    }
    forall i, j | i in cores && j in cores && i != j ensures Places(plan)[i] != Places(plan)[j] {
      OneEach(k, dirs, strata, plan, i, j);
    }
    SameSize(cores, Places(plan), Span(|dirs|));
  }

  /** Every trial that is not a core trial repeats a chosen directory. */
  lemma {:induction false} FourChosen(k: Keying, dirs: seq<Directory>, strata: seq<Stratum>, plan: seq<Spec>)
    requires |dirs| == |strata| && IsPlan(k, dirs, strata, plan)
    ensures |Chosen(k, dirs, strata)| == |plan| - |dirs|
  {
    PlanCores(k, dirs, strata, plan);
    RepeatsAreChosen(k, dirs, strata, plan);
    TwoParts(|plan|, SpecsWith(plan, CORE), SpecsWith(plan, REPEAT));
  }

  lemma {:induction false} RepeatsAreChosen(k: Keying, dirs: seq<Directory>, strata: seq<Stratum>, plan: seq<Spec>)
    requires |dirs| == |strata| && IsPlan(k, dirs, strata, plan)
    ensures |SpecsWith(plan, REPEAT)| == |Chosen(k, dirs, strata)|
  {
    var repeats := SpecsWith(plan, REPEAT);
    forall d | d in Chosen(k, dirs, strata) ensures Hit(repeats, Places(plan), d) {
      var i := RepeatTrial(k, dirs, strata, plan, d);
      assert i in repeats && Places(plan)[i] == d;
    }
    forall i, j | i in repeats && j in repeats
      ensures Places(plan)[i] in Chosen(k, dirs, strata) && (i != j ==> Places(plan)[i] != Places(plan)[j])
    {
      OneEach(k, dirs, strata, plan, i, j);
    }
    SameSize(repeats, Places(plan), Chosen(k, dirs, strata));
  }

  /** A set of directories has as many names. */
  lemma {:induction false} NameCount(dirs: seq<Directory>, s: set<int>, names: set<string>)
    requires Listing(dirs) && forall d :: d in s ==> 0 <= d < |dirs| && dirs[d].name in names
    requires forall c :: c in names ==> Hit(s, NameList(dirs), c)
    ensures |names| == |s|
  {
    forall d, e | d in s && e in s && d != e ensures dirs[d].name != dirs[e].name {
      if dirs[d].name == dirs[e].name {
        NamesDiffer(dirs, d, e);
      }
    }
    SameSize(s, NameList(dirs), names);
  }

  lemma {:induction false} PlanCases(k: Keying, dirs: seq<Directory>, strata: seq<Stratum>, plan: seq<Spec>,
          drafts: seq<Answer>)
    requires FollowsPlan(k, dirs, strata, plan, drafts)
    ensures CaseIds(drafts) == NamesOf(dirs)
  {
    forall c ensures c in CaseIds(drafts) <==> c in NamesOf(dirs) {
      if c in NamesOf(dirs) {
        var d :| 0 <= d < |dirs| && dirs[d].name == c;
        var i := CoreTrial(k, dirs, strata, plan, d);
        assert drafts[i].caseId == c;
      }
    }
  }

  /** The directories with `n` trials are as many as the cases with `n` trials. */
  lemma {:induction false} SizeCount(dirs: seq<Directory>, drafts: seq<Answer>, part: set<int>, n: nat)
    requires Listing(dirs) && CaseIds(drafts) == NamesOf(dirs)
    requires forall d :: d in part <==> 0 <= d < |dirs| && |TrialsOf(drafts, dirs[d].name)| == n
    ensures |CasesWith(drafts, n)| == |part|
  {
    var cases := CasesWith(drafts, n);
    forall c | c in cases ensures Hit(part, NameList(dirs), c) {
      assert c in NamesOf(dirs);
      var d :| 0 <= d < |dirs| && dirs[d].name == c;
      assert d in part && NameList(dirs)[d] == c;
    }
    forall d | d in part ensures dirs[d].name in cases {
      assert dirs[d].name in NamesOf(dirs);
    }
    NameCount(dirs, part, cases);
  }

  /** How often the directories of a plan are played. */
  ghost predicate PlayCounts(dirs: seq<Directory>, drafts: seq<Answer>, chosen: set<int>) {
    forall d :: 0 <= d < |dirs| ==> |TrialsOf(drafts, dirs[d].name)| == if d in chosen then 2 else 1
  }

  lemma {:induction false} PlanPlays(k: Keying, dirs: seq<Directory>, strata: seq<Stratum>, plan: seq<Spec>,
          drafts: seq<Answer>)
    requires FollowsPlan(k, dirs, strata, plan, drafts)
    ensures PlayCounts(dirs, drafts, Chosen(k, dirs, strata))
  {
    forall d | 0 <= d < |dirs|
      ensures |TrialsOf(drafts, dirs[d].name)| == if d in Chosen(k, dirs, strata) then 2 else 1
    {
      TrialsOfDirectory(k, dirs, strata, plan, drafts, d);
    }
  }

  /** A case is a name of a directory. */
  lemma {:induction false} CaseCount(dirs: seq<Directory>, drafts: seq<Answer>)
    requires Listing(dirs) && CaseIds(drafts) == NamesOf(dirs)
    ensures |CaseIds(drafts)| == |dirs|
  {
    var all := Span(|dirs|);
    forall c | c in CaseIds(drafts) ensures Hit(all, NameList(dirs), c) {
      assert c in NamesOf(dirs);
      var d :| 0 <= d < |dirs| && dirs[d].name == c;
      assert d in all && NameList(dirs)[d] == c;
    }
    forall d | d in all ensures dirs[d].name in CaseIds(drafts) {
      assert dirs[d].name in NamesOf(dirs);
    }
    NameCount(dirs, all, CaseIds(drafts));
  }

  lemma {:induction false} OnceOrTwice(dirs: seq<Directory>, drafts: seq<Answer>, chosen: set<int>, c: string)
    requires c in NamesOf(dirs) && PlayCounts(dirs, drafts, chosen)
    ensures 1 <= |TrialsOf(drafts, c)| <= 2
  {
    var d :| 0 <= d < |dirs| && dirs[d].name == c;
  }

  lemma {:induction false} PlaysGeometry(dirs: seq<Directory>, drafts: seq<Answer>, chosen: set<int>)
    requires Listing(dirs) && CaseIds(drafts) == NamesOf(dirs) && PlayCounts(dirs, drafts, chosen)
    requires |dirs| == 12 && |chosen| == 4 && forall d :: d in chosen ==> 0 <= d < |dirs|
    ensures Geometry(drafts, dirs)
  {
    var rest := set d | 0 <= d < |dirs| && d !in chosen;
    TwoParts(|dirs|, chosen, rest);
    SizeCount(dirs, drafts, chosen, 2);
    SizeCount(dirs, drafts, rest, 1);
    forall c | c in CaseIds(drafts) ensures 1 <= |TrialsOf(drafts, c)| <= 2 {
      OnceOrTwice(dirs, drafts, chosen, c);
    }
  }

  lemma {:induction false} PlanGeometry(k: Keying, dirs: seq<Directory>, strata: seq<Stratum>, plan: seq<Spec>,
          drafts: seq<Answer>)
    requires FollowsPlan(k, dirs, strata, plan, drafts)
    ensures Geometry(drafts, dirs) && |CaseIds(drafts)| == 12
  {
    FourChosen(k, dirs, strata, plan);
    PlanCases(k, dirs, strata, plan, drafts);
    PlanPlays(k, dirs, strata, plan, drafts);
    CaseCount(dirs, drafts);
    PlaysGeometry(dirs, drafts, Chosen(k, dirs, strata));
  }

  // ------------------------------------------------------------ the recovered roles

  /** Two trials of one case get different roles, and the repeat names the core. */
  lemma {:induction false} PairRoles(drafts: seq<Answer>, answers: seq<Answer>, i: nat, j: nat)
    requires WithRoles(drafts, answers) && i < |drafts| && j < |drafts| && i != j
    requires drafts[i].caseId == drafts[j].caseId && drafts[i].id != drafts[j].id
    ensures PairRule(answers, i, j)
  {
    LessTotal(drafts[i].id, drafts[j].id);
    assert RoleRule(drafts, i, answers[i].role, answers[i].duplicateOf);
    assert RoleRule(drafts, j, answers[j].role, answers[j].duplicateOf);
  }

  /** The other trial of a repeat. */
  lemma {:induction false} RepeatHasCore(drafts: seq<Answer>, answers: seq<Answer>, i: nat) returns (j: nat)
    requires WithRoles(drafts, answers) && i < |drafts| && answers[i].role == REPEAT
    requires forall i, j :: 0 <= i < j < |drafts| ==> drafts[i].id != drafts[j].id
    ensures j < |drafts| && j != i && drafts[j].caseId == drafts[i].caseId
    ensures answers[j].role == CORE && answers[i].duplicateOf == Some(answers[j].id)
  {
    assert RoleRule(drafts, i, answers[i].role, answers[i].duplicateOf);
    j :| 0 <= j < |drafts| && j != i && drafts[j].caseId == drafts[i].caseId;
    PairRoles(drafts, answers, i, j);
  }

  lemma {:induction false} SingleIsCore(k: Keying, dirs: seq<Directory>, strata: seq<Stratum>, plan: seq<Spec>,
          drafts: seq<Answer>, answers: seq<Answer>, d: nat)
    returns (i: nat)
    requires FollowsPlan(k, dirs, strata, plan, drafts) && WithRoles(drafts, answers) && d < |dirs|
    ensures i < |answers| && plan[i].place == d && answers[i].role == CORE
  {
    i := CoreTrial(k, dirs, strata, plan, d);
    if answers[i].role == REPEAT {
      var j := RepeatHasCore(drafts, answers, i);
      NamesDiffer(dirs, plan[i].place, plan[j].place);
      i := j;
    }
  }

  lemma {:induction false} RecoveredCores(k: Keying, dirs: seq<Directory>, strata: seq<Stratum>, plan: seq<Spec>,
          drafts: seq<Answer>, answers: seq<Answer>)
    requires FollowsPlan(k, dirs, strata, plan, drafts) && WithRoles(drafts, answers)
    ensures OneCoreEach(answers, Places(plan), |dirs|)
  {
    forall d | 0 <= d < |dirs| ensures Hit(WithRole(answers, CORE), Places(plan), d) {
      var i := SingleIsCore(k, dirs, strata, plan, drafts, answers, d);
      assert i in WithRole(answers, CORE) && Places(plan)[i] == d;
    }
    forall i, j | 0 <= i < |answers| && 0 <= j < |answers| && answers[i].role == answers[j].role == CORE && i != j
      ensures Places(plan)[i] != Places(plan)[j]
    {
      if plan[i].place == plan[j].place {
        assert drafts[i].caseId == drafts[j].caseId && drafts[i].id != drafts[j].id;
        PairRoles(drafts, answers, i, j);
      }
    }
  }

  lemma {:induction false} RepeatIsFound(k: Keying, dirs: seq<Directory>, strata: seq<Stratum>, plan: seq<Spec>,
          drafts: seq<Answer>, answers: seq<Answer>, i: nat)
    requires FollowsPlan(k, dirs, strata, plan, drafts) && WithRoles(drafts, answers) && i < |drafts|
        && answers[i].role == REPEAT
    requires forall i :: 0 <= i < |drafts| ==> drafts[i].stratum == strata[plan[i].place]
    ensures RepeatsOne(answers, i)
  {
    assert forall i, j :: 0 <= i < j < |drafts| ==> drafts[i].id != drafts[j].id;
    var j := RepeatHasCore(drafts, answers, i);
    NamesDiffer(dirs, plan[i].place, plan[j].place);
    assert Repeats(answers, i, j);
  }

  lemma {:induction false} RecoveredGeometry(k: Keying, dirs: seq<Directory>, strata: seq<Stratum>, plan: seq<Spec>,
          drafts: seq<Answer>, answers: seq<Answer>)
    requires FollowsPlan(k, dirs, strata, plan, drafts) && WithRoles(drafts, answers) && ExpectedStrata(strata)
    requires forall i :: 0 <= i < |drafts| ==> drafts[i].stratum == strata[plan[i].place]
    ensures CoreGeometry(answers)
  {
    RecoveredCores(k, dirs, strata, plan, drafts, answers);
    RoleCounts(answers, Places(plan), |dirs|);
    CoreCounts(answers, Places(plan), strata);
    forall i | 0 <= i < |answers| && answers[i].role == REPEAT ensures RepeatsOne(answers, i) {
      RepeatIsFound(k, dirs, strata, plan, drafts, answers, i);
    }
    assert forall i, j :: 0 <= i < j < |drafts| ==> drafts[i].id != drafts[j].id;
    forall i, j | 0 <= i < j < |answers| && answers[i].role == answers[j].role == REPEAT
      ensures answers[i].duplicateOf != answers[j].duplicateOf
    {
      DifferentRepeats(drafts, answers, i, j);
    }
  }

  lemma {:induction false} DifferentRepeats(drafts: seq<Answer>, answers: seq<Answer>, i: nat, j: nat)
    requires WithRoles(drafts, answers) && i < j < |drafts| && answers[i].role == answers[j].role == REPEAT
    requires forall i, j :: 0 <= i < j < |drafts| ==> drafts[i].id != drafts[j].id
    ensures answers[i].duplicateOf != answers[j].duplicateOf
  {
    var c := RepeatHasCore(drafts, answers, i);
    var d := RepeatHasCore(drafts, answers, j);
    assert answers[c].id == drafts[c].id && answers[d].id == drafts[d].id;
    if c == d {
      PairRoles(drafts, answers, i, j);
    }
  }

  lemma {:induction false} SameCases(drafts: seq<Answer>, answers: seq<Answer>)
    requires |drafts| == |answers| && forall i :: 0 <= i < |answers| ==> answers[i].caseId == drafts[i].caseId
    ensures CaseIds(answers) == CaseIds(drafts)
    ensures forall c :: TrialsOf(answers, c) == TrialsOf(drafts, c)
  {
    forall c ensures c in CaseIds(answers) <==> c in CaseIds(drafts) {
      if c in CaseIds(drafts) {
        var i :| 0 <= i < |drafts| && drafts[i].caseId == c;
        assert answers[i].caseId == c;
      }
    }
  }

  lemma {:induction false} SameSizes(drafts: seq<Answer>, answers: seq<Answer>, n: nat)
    requires |drafts| == |answers| && forall i :: 0 <= i < |answers| ==> answers[i].caseId == drafts[i].caseId
    ensures CasesWith(answers, n) == CasesWith(drafts, n)
  {
    SameCases(drafts, answers);
  }

  lemma {:induction false} AloneIsCore(drafts: seq<Answer>, answers: seq<Answer>, i: nat)
    requires WithRoles(drafts, answers) && i < |answers| && Alone(answers, i)
    ensures answers[i].role == CORE
  {
    assert forall j :: 0 <= j < |answers| ==> answers[j].caseId == drafts[j].caseId;
    assert Alone(drafts, i);
    assert RoleRule(drafts, i, answers[i].role, answers[i].duplicateOf);
  }

  lemma {:induction false} RecoveredCases(drafts: seq<Answer>, answers: seq<Answer>, dirs: seq<Directory>)
    requires WithRoles(drafts, answers) && Geometry(drafts, dirs) && |CaseIds(drafts)| == 12
    requires forall i, j :: 0 <= i < j < |drafts| ==> drafts[i].id != drafts[j].id
    ensures CaseGeometry(answers)
  {
    SameCases(drafts, answers);
    SameSizes(drafts, answers, 1);
    SameSizes(drafts, answers, 2);
    forall i, j | 0 <= i < |answers| && 0 <= j < |answers| && i != j && answers[i].caseId == answers[j].caseId
      ensures PairRule(answers, i, j)
    {
      assert drafts[i].caseId == drafts[j].caseId && drafts[i].id != drafts[j].id;
      PairRoles(drafts, answers, i, j);
    }
    forall i | 0 <= i < |answers| && Alone(answers, i) ensures answers[i].role == CORE {
      AloneIsCore(drafts, answers, i);
    }
  }

  // ------------------------------------------------------------ the theorems

  /** Trial `j` is another trial of the case of trial `i`, with a smaller id. */
  ghost predicate Earlier(drafts: seq<Answer>, i: int, j: int)
    requires 0 <= i < |drafts|
  {
    0 <= j < |drafts| && j != i && drafts[j].caseId == drafts[i].caseId && Less(drafts[j].id, drafts[i].id)
  }

  ghost function AssignedAnswer(drafts: seq<Answer>, i: int): (a: Answer)
    requires 0 <= i < |drafts|
    ensures a == drafts[i].(role := a.role, duplicateOf := a.duplicateOf)
  {
    if exists j :: Earlier(drafts, i, j) then
      var j :| Earlier(drafts, i, j);
      drafts[i].(role := REPEAT, duplicateOf := Some(drafts[j].id))
    else drafts[i].(role := CORE, duplicateOf := None)
  }

  lemma {:induction false} OneOther(drafts: seq<Answer>, i: nat, j: nat, l: nat)
    requires i < |drafts| && j < |drafts| && l < |drafts| && i != j && i != l
    requires drafts[i].caseId == drafts[j].caseId == drafts[l].caseId && |TrialsOf(drafts, drafts[i].caseId)| <= 2
    ensures j == l
  {
    var all := TrialsOf(drafts, drafts[i].caseId);
    assert {i, j, l} <= all;
    SubsetSize({i, j, l}, all);
  }

  lemma {:induction false} AssignedFollowsRule(drafts: seq<Answer>, i: nat)
    requires i < |drafts| && |TrialsOf(drafts, drafts[i].caseId)| <= 2
    requires forall i, j :: 0 <= i < j < |drafts| ==> drafts[i].id != drafts[j].id
    ensures RoleRule(drafts, i, AssignedAnswer(drafts, i).role, AssignedAnswer(drafts, i).duplicateOf)
  {
    var a := AssignedAnswer(drafts, i);
    forall j | 0 <= j < |drafts| && j != i && drafts[j].caseId == drafts[i].caseId
      ensures if Less(drafts[i].id, drafts[j].id) then a.role == CORE && a.duplicateOf == None
              else a.role == REPEAT && a.duplicateOf == Some(drafts[j].id)
    {
      LessTotal(drafts[i].id, drafts[j].id);
      assert !Less(drafts[i].id, drafts[j].id) ==> Earlier(drafts, i, j);
      forall l | Earlier(drafts, i, l) ensures l == j {
        OneOther(drafts, i, j, l);
      }
    }
  }

  lemma {:induction false} RolesExist(drafts: seq<Answer>, dirs: seq<Directory>) returns (answers: seq<Answer>)
    requires Geometry(drafts, dirs) && forall i, j :: 0 <= i < j < |drafts| ==> drafts[i].id != drafts[j].id
    ensures WithRoles(drafts, answers)
  {
    answers := seq(|drafts|, i requires 0 <= i < |drafts| => AssignedAnswer(drafts, i));
    forall i | 0 <= i < |answers| ensures RoleRule(drafts, i, answers[i].role, answers[i].duplicateOf) {
      assert drafts[i].caseId in CaseIds(drafts);
      AssignedFollowsRule(drafts, i);
    }
  }

  /** Drafts that match the protocol of a prepared bundle. */
  lemma {:induction false} MatchingDrafts(k: Keying, h: Hashes, matrix: seq<Case>, dirs: seq<Directory>,
          strata: seq<Stratum>, plan: seq<Spec>, b: Bundle)
    returns (drafts: seq<Answer>)
    requires Prepared(k, h, matrix, dirs, strata, plan, b) && Candidates(matrix, dirs)
    ensures Drafts(b.protocol, matrix, dirs, drafts)
  {
    drafts := [];
    for i := 0 to |plan|
      invariant |drafts| == i && forall j :: 0 <= j < i ==> IsDraft(matrix, dirs, b.protocol.trials[j], drafts[j])
    {
      DraftOfTrial(k, h, matrix, dirs, strata, plan, b, i);
      drafts := drafts + [Draft(b.protocol.trials[i], dirs[plan[i].place])];
      assert DraftsTrial(matrix, dirs[plan[i].place], b.protocol.trials[i], drafts[i]);
    }
  }

  lemma {:induction false} KeyFromDrafts(p: Protocol, h: Hashes, matrix: seq<Case>, dirs: seq<Directory>,
          drafts: seq<Answer>)
    returns (key: AnswerKey)
    requires ValidProtocol(p) && p.matrixDigest == h.matrix(matrix) && Candidates(matrix, dirs)
    requires Drafts(p, matrix, dirs, drafts) && Geometry(drafts, dirs)
    ensures IsRecovered(p, h, matrix, dirs, drafts, key)
  {
    DraftIds(p, matrix, dirs, drafts);
    var answers := RolesExist(drafts, dirs);
    key := AnswerKey(RECOVERED(|CaseIds(drafts)|), p.bundleId, p.matrixDigest, h.protocol(p), answers);
  }

  /** A prepared bundle can be recovered exactly when its candidates can be told apart. */
  lemma {:induction false} RecoverableIff(k: Keying, h: Hashes, matrix: seq<Case>, dirs: seq<Directory>,
          strata: seq<Stratum>, plan: seq<Spec>, b: Bundle)
    requires Prepared(k, h, matrix, dirs, strata, plan, b)
    ensures (exists drafts, key :: IsRecovered(b.protocol, h, matrix, dirs, drafts, key)) <==> Candidates(matrix, dirs)
  {
    if Candidates(matrix, dirs) {
      PreparedProtocol(k, h, matrix, dirs, strata, plan, b);
      var drafts := MatchingDrafts(k, h, matrix, dirs, strata, plan, b);
      DraftsFollow(k, h, matrix, dirs, strata, plan, b, drafts);
      PlanGeometry(k, dirs, strata, plan, drafts);
      var key := KeyFromDrafts(b.protocol, h, matrix, dirs, drafts);
    }
  }

  /** Two lists of answers that name the same case, stratum and models for every trial; the roles may differ. */
  ghost predicate SameNames(x: seq<Answer>, y: seq<Answer>) {
    && |x| == |y|
    && forall i :: 0 <= i < |x| ==>
         && x[i].id == y[i].id && x[i].caseId == y[i].caseId && x[i].stratum == y[i].stratum
         && x[i].a == y[i].a && x[i].b == y[i].b
  }

  /** The draft of a prepared answer: its names and the digests of its sides, the role still open. */
  function DraftFor(a: Answer, t: PublicTrial): Answer {
    Answer(a.id, a.caseId, a.stratum, CORE, None, a.a, a.b, Some((t.a.sha256, t.b.sha256)))
  }

  ghost predicate DraftsFor(p: Protocol, trials: seq<Answer>, drafts: seq<Answer>) {
    |p.trials| == |trials| == |drafts| && forall i :: 0 <= i < |drafts| ==>
        drafts[i] == DraftFor(trials[i], p.trials[i])
  }

  ghost predicate AnswersInOrder(p: Protocol, trials: seq<Answer>) {
    |p.trials| == |trials| && forall i :: 0 <= i < |trials| ==> AnswersTrial(trials[i], p.trials[i], false)
  }

  lemma {:induction false} DraftsFollow(k: Keying, h: Hashes, matrix: seq<Case>, dirs: seq<Directory>,
          strata: seq<Stratum>, plan: seq<Spec>, b: Bundle, drafts: seq<Answer>)
    requires Prepared(k, h, matrix, dirs, strata, plan, b) && Candidates(matrix, dirs)
        && Drafts(b.protocol, matrix, dirs, drafts)
    ensures FollowsPlan(k, dirs, strata, plan, drafts) && DraftsFor(b.protocol, b.key.trials, drafts)
    ensures forall i :: 0 <= i < |drafts| ==> drafts[i].stratum == strata[plan[i].place]
  {
    forall i: nat | i < |plan|
      ensures drafts[i] == DraftFor(b.key.trials[i], b.protocol.trials[i])
      ensures b.key.trials[i].id == plan[i].id && b.key.trials[i].caseId == dirs[plan[i].place].name
    {
      DraftIs(k, h, matrix, dirs, strata, plan, b, drafts, i);
    }
  }

  lemma {:induction false} PreparedInOrder(k: Keying, h: Hashes, matrix: seq<Case>, dirs: seq<Directory>,
          strata: seq<Stratum>, plan: seq<Spec>, b: Bundle)
    requires Prepared(k, h, matrix, dirs, strata, plan, b) && forall d :: 0 <= d < |dirs| ==> IsCaseId(dirs[d].name)
    ensures AnswersInOrder(b.protocol, b.key.trials)
  {
  }

  lemma {:induction false} RecoveredCovers(p: Protocol, trials: seq<Answer>, drafts: seq<Answer>, answers: seq<Answer>)
    requires DraftsFor(p, trials, drafts) && AnswersInOrder(p, trials) && WithRoles(drafts, answers)
    requires forall i, j :: 0 <= i < j < |drafts| ==> drafts[i].id != drafts[j].id
    ensures Covers(answers, p, true)
  {
    forall i | 0 <= i < |answers| ensures AnswersOne(answers[i], p, true) {
      RecoveredAnswer(drafts, answers, i);
      assert AnswersTrial(trials[i], p.trials[i], false);
      assert AnswersTrial(answers[i], p.trials[i], true);
    }
  }

  lemma {:induction false} RecoveredIsValid(k: Keying, dirs: seq<Directory>, strata: seq<Stratum>, plan: seq<Spec>,
          p: Protocol, trials: seq<Answer>, drafts: seq<Answer>, answers: seq<Answer>)
    requires FollowsPlan(k, dirs, strata, plan, drafts) && ExpectedStrata(strata) && WithRoles(drafts, answers)
    requires forall i :: 0 <= i < |drafts| ==> drafts[i].stratum == strata[plan[i].place]
    requires DraftsFor(p, trials, drafts) && AnswersInOrder(p, trials)
    ensures |CaseIds(drafts)| == 12 && Covers(answers, p, true) && CoreGeometry(answers) && CaseGeometry(answers)
  {
    PlanGeometry(k, dirs, strata, plan, drafts);
    assert forall i, j :: 0 <= i < j < |drafts| ==> drafts[i].id != drafts[j].id;
    RecoveredGeometry(k, dirs, strata, plan, drafts, answers);
    RecoveredCases(drafts, answers, dirs);
    RecoveredCovers(p, trials, drafts, answers);
  }

  lemma {:induction false} RolesKeepNames(p: Protocol, trials: seq<Answer>, drafts: seq<Answer>, answers: seq<Answer>)
    requires DraftsFor(p, trials, drafts) && WithRoles(drafts, answers)
    ensures SameNames(answers, trials)
  {
  }

  /** For every trial the recovered key names the case, the stratum and the two models that the prepared key
      names, and both keys are valid for the protocol. */
  lemma {:induction false} RecoveryAgrees(k: Keying, h: Hashes, matrix: seq<Case>, dirs: seq<Directory>,
          strata: seq<Stratum>, plan: seq<Spec>, b: Bundle,
                       drafts: seq<Answer>, key: AnswerKey)
    requires Prepared(k, h, matrix, dirs, strata, plan, b)
    requires IsRecovered(b.protocol, h, matrix, dirs, drafts, key)
    ensures |key.trials| == 16 && SameNames(key.trials, b.key.trials)
    ensures ValidKey(key, b.protocol, h) && ValidKey(b.key, b.protocol, h)
  {
    DraftsFollow(k, h, matrix, dirs, strata, plan, b, drafts);
    CandidateIds(matrix, dirs);
    PreparedKeyIsValid(k, h, matrix, dirs, strata, plan, b);
    PreparedInOrder(k, h, matrix, dirs, strata, plan, b);
    RecoveredIsValid(k, dirs, strata, plan, b.protocol, b.key.trials, drafts, key.trials);
    RolesKeepNames(b.protocol, b.key.trials, drafts, key.trials);
  }

  lemma {:induction false} RecoveredAnswer(drafts: seq<Answer>, answers: seq<Answer>, i: nat)
    requires WithRoles(drafts, answers) && i < |drafts|
    requires forall i, j :: 0 <= i < j < |drafts| ==> drafts[i].id != drafts[j].id
    ensures answers[i].role == CORE <==> answers[i].duplicateOf == None
  {
    if answers[i].role == REPEAT {
      var j := RepeatHasCore(drafts, answers, i);
    } else if j :| 0 <= j < |drafts| && j != i && drafts[j].caseId == drafts[i].caseId {
      PairRoles(drafts, answers, i, j);
      assert RoleRule(drafts, i, answers[i].role, answers[i].duplicateOf);
    } else {
      assert RoleRule(drafts, i, answers[i].role, answers[i].duplicateOf);
    }
  }

  lemma {:induction false} CandidateIds(matrix: seq<Case>, dirs: seq<Directory>)
    requires Candidates(matrix, dirs)
    ensures forall d :: 0 <= d < |dirs| ==> IsCaseId(dirs[d].name)
  {
    forall d | 0 <= d < |dirs| ensures IsCaseId(dirs[d].name) {
      FoundInMatrix(matrix, dirs[d].name);
    }
  }

  lemma {:induction false} FoundInMatrix(matrix: seq<Case>, id: string)
    requires FindCase(matrix, id).Some?
    ensures exists i :: 0 <= i < |matrix| && matrix[i].id == id
  {
    var n := |matrix| - 1;
    if matrix[n].id != id {
      FoundInMatrix(matrix[..n], id);
      var i :| 0 <= i < n && matrix[..n][i].id == id;
      assert matrix[i].id == id;
    }
  }
}
