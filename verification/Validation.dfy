/** Validating an answer key: the checks in the order the scorer makes them accept exactly the valid keys. */
module Validation {
  import opened Wrappers
  import opened Listening
  import opened Texts
  import opened Recovery

  /** The protocol's trials by id. */
  ghost predicate Indexed(trials: seq<PublicTrial>, index: map<string, nat>) {
    && (forall j :: 0 <= j < |trials| ==> trials[j].id in index && index[trials[j].id] == j)
    && forall id :: id in index ==> index[id] < |trials| && trials[index[id]].id == id
  }

  method IndexTrials(trials: seq<PublicTrial>) returns (index: map<string, nat>)
    requires DistinctIds(trials)
    ensures Indexed(trials, index)
  {
    index := map[];
    for j := 0 to |trials|
      invariant forall l :: 0 <= l < j ==> trials[l].id in index && index[trials[l].id] == l
      invariant forall id :: id in index ==> index[id] < j && trials[index[id]].id == id
    {
      index := index[trials[j].id := j];
    }
  }

  ghost predicate AnswersIndexed(trials: seq<Answer>, index: map<string, nat>) {
    && (forall i :: 0 <= i < |trials| ==> trials[i].id in index && index[trials[i].id] == i)
    && forall id :: id in index ==> index[id] < |trials| && trials[index[id]].id == id
  }

  /** Every trial against its public trial, and no id twice. */
  method CheckTrials(trials: seq<Answer>, p: Protocol, recovered: bool) returns (ok: bool, byId: map<string, nat>)
    requires DistinctIds(p.trials)
    ensures ok <==> Covers(trials, p, recovered)
    ensures ok ==> AnswersIndexed(trials, byId)
  {
    byId := map[];
    if |trials| != |p.trials| {
      return false, byId;
    }
    var index := IndexTrials(p.trials);
    for i := 0 to |trials|
      invariant forall k :: 0 <= k < i ==> trials[k].id in byId && byId[trials[k].id] == k
      invariant forall id :: id in byId ==> byId[id] < i && trials[byId[id]].id == id
      invariant forall k :: 0 <= k < i ==> AnswersOne(trials[k], p, recovered)
    {
      var t := trials[i];
      if t.id !in index || t.id in byId || !AnswersTrial(t, p.trials[index[t.id]], recovered) {
        if t.id in byId {
          assert byId[t.id] < i && trials[byId[t.id]].id == trials[i].id;
        }
        return false, byId;
      }
      byId := byId[t.id := i];
    }
    ok := true;
  }

  method CountRole(trials: seq<Answer>, role: Role) returns (n: nat)
    ensures n == |WithRole(trials, role)|
  {
    n := 0;
    for i := 0 to |trials|
      invariant n == Count(WithRole(trials, role), i)
    {
      if trials[i].role == role {
        n := n + 1;
      }
    }
    CountAll(WithRole(trials, role), |trials|);
  }

  method CountCores(trials: seq<Answer>, s: Stratum) returns (n: nat)
    ensures n == |CoresIn(trials, s)|
  {
    n := 0;
    for i := 0 to |trials|
      invariant n == Count(CoresIn(trials, s), i)
    {
      if trials[i].role == CORE && trials[i].stratum == s {
        n := n + 1;
      }
    }
    CountAll(CoresIn(trials, s), |trials|);
  }

  method CheckCounts(trials: seq<Answer>) returns (ok: bool)
    ensures ok <==> |WithRole(trials, CORE)| == 12 && |WithRole(trials, REPEAT)| == 4 && forall s ::
        |CoresIn(trials, s)| == ExpectedCount(s)
  {
    var core := CountRole(trials, CORE);
    var repeat := CountRole(trials, REPEAT);
    var recorded := CountCores(trials, RECORDED);
    var babble := CountCores(trials, BABBLE);
    var preservation := CountCores(trials, PRESERVATION);
    var synthetic := CountCores(trials, SYNTHETIC);
    ok := core == 12 && repeat == 4 && recorded == 4 && babble == 3 && preservation == 3 && synthetic == 2;
    if ok {
      forall s ensures |CoresIn(trials, s)| == ExpectedCount(s) {
        match s case RECORDED => case BABBLE => case PRESERVATION => case SYNTHETIC =>
      }
    } else if forall s :: |CoresIn(trials, s)| == ExpectedCount(s) {
      assert |CoresIn(trials, RECORDED)| == 4 && |CoresIn(trials, BABBLE)| == 3;
      assert |CoresIn(trials, PRESERVATION)| == 3 && |CoresIn(trials, SYNTHETIC)| == 2;
    }
  }

  ghost predicate RepeatsBefore(trials: seq<Answer>, n: nat)
    requires n <= |trials|
  {
    && (forall i :: 0 <= i < n && trials[i].role == REPEAT ==> RepeatsOne(trials, i))
    && forall i, j :: 0 <= i < j < n && trials[i].role == trials[j].role == REPEAT ==>
        trials[i].duplicateOf != trials[j].duplicateOf
  }

  method FindTarget(trials: seq<Answer>, byId: map<string, nat>, i: nat) returns (found: bool)
    requires AnswersIndexed(trials, byId) && i < |trials| && trials[i].role == REPEAT && trials[i].duplicateOf.Some?
    ensures found <==> RepeatsOne(trials, i)
  {
    var id := trials[i].duplicateOf.value;
    if id !in byId || trials[byId[id]].role != CORE || trials[byId[id]].caseId != trials[i].caseId
        || trials[byId[id]].stratum != trials[i].stratum {
      NoTarget(trials, byId, i);
      return false;
    }
    assert Repeats(trials, i, byId[id]);
    found := true;
  }

  /** The trials that the first `n` repeats name. */
  ghost predicate Targets(trials: seq<Answer>, n: nat, targets: set<string>)
    requires n <= |trials|
  {
    && (forall id :: id in targets ==>
        exists k :: 0 <= k < n && trials[k].role == REPEAT && trials[k].duplicateOf == Some(id))
    && forall k :: 0 <= k < n && trials[k].role == REPEAT ==>
         trials[k].duplicateOf.Some? && trials[k].duplicateOf.value in targets
  }

  lemma {:induction false} OneMoreTarget(trials: seq<Answer>, n: nat, targets: set<string>)
    requires n < |trials| && RolesMatch(trials) && Targets(trials, n, targets)
    ensures trials[n].role == REPEAT ==> trials[n].duplicateOf.Some?
    ensures Targets(trials, n + 1, if trials[n].role == REPEAT then targets + {trials[n].duplicateOf.value}
                    else targets)
  {
    forall id | id in targets
      ensures exists k :: 0 <= k < n + 1 && trials[k].role == REPEAT && trials[k].duplicateOf == Some(id)
    {
      var k :| 0 <= k < n && trials[k].role == REPEAT && trials[k].duplicateOf == Some(id);
    }
  }

  /** A repeat names a core trial that no earlier repeat names. */
  ghost predicate FreshRepeat(trials: seq<Answer>, n: nat, targets: set<string>)
    requires n < |trials|
  {
    trials[n].role == REPEAT ==> RepeatsOne(trials, n) && forall id :: trials[n].duplicateOf == Some(id) ==>
        id !in targets
  }

  lemma {:induction false} OneMoreRepeat(trials: seq<Answer>, n: nat, targets: set<string>)
    requires n < |trials| && RolesMatch(trials) && RepeatsBefore(trials, n) && Targets(trials, n, targets)
    ensures RepeatsBefore(trials, n + 1) <==> FreshRepeat(trials, n, targets)
  {
    if trials[n].role == REPEAT {
      var id := trials[n].duplicateOf.value;
      if id in targets {
        var k :| 0 <= k < n && trials[k].role == REPEAT && trials[k].duplicateOf == Some(id);
        assert trials[k].role == trials[n].role == REPEAT;
      }
    }
  }

  lemma {:induction false} RepeatsAreFewer(trials: seq<Answer>, n: nat)
    requires n <= |trials| && !RepeatsBefore(trials, n)
    ensures !RepeatsBefore(trials, |trials|)
  {
  }

  /** Every repeat names a core trial of its case and stratum, and no two the same. */
  method CheckRepeats(trials: seq<Answer>, byId: map<string, nat>) returns (ok: bool)
    requires AnswersIndexed(trials, byId) && RolesMatch(trials)
    ensures ok <==> RepeatsBefore(trials, |trials|)
  {
    var targets: set<string> := {};
    for i := 0 to |trials|
      invariant RepeatsBefore(trials, i) && Targets(trials, i, targets)
    {
      OneMoreTarget(trials, i, targets);
      OneMoreRepeat(trials, i, targets);
      if trials[i].role == REPEAT {
        var found := FindTarget(trials, byId, i);
        if !found || trials[i].duplicateOf.value in targets {
          RepeatsAreFewer(trials, i + 1);
          return false;
        }
        targets := targets + {trials[i].duplicateOf.value};
      }
    }
    ok := true;
  }

  ghost predicate RolesMatch(trials: seq<Answer>) {
    forall i :: 0 <= i < |trials| ==> (trials[i].role == CORE <==> trials[i].duplicateOf == None)
  }

  lemma {:induction false} NoTarget(trials: seq<Answer>, byId: map<string, nat>, i: nat)
    requires AnswersIndexed(trials, byId) && i < |trials| && trials[i].duplicateOf.Some?
    requires var id := trials[i].duplicateOf.value;
             id !in byId || trials[byId[id]].role != CORE || trials[byId[id]].caseId != trials[i].caseId
                 || trials[byId[id]].stratum != trials[i].stratum
    ensures !RepeatsOne(trials, i)
  {
    forall j | 0 <= j < |trials| ensures !Repeats(trials, i, j) {
      assert trials[j].id in byId && byId[trials[j].id] == j;
    }
  }

  // ------------------------------------------------------------ the cases of a recovered key

  /** The rule the scorer applies to the trials of one case, smallest id first. */
  predicate GroupRule(trials: seq<Answer>, group: seq<nat>)
    requires forall n :: 0 <= n < |group| ==> group[n] < |trials|
  {
    if |group| == 1 then IsCore(trials, group[0])
    else |group| == 2 &&
         if Less(trials[group[1]].id, trials[group[0]].id)
         then IsCore(trials, group[1]) && IsRepeatOf(trials, group[0], group[1])
         else IsCore(trials, group[0]) && IsRepeatOf(trials, group[1], group[0])
  }

  predicate IsCore(trials: seq<Answer>, i: nat)
    requires i < |trials|
  {
    trials[i].role == CORE && trials[i].duplicateOf == None
  }

  predicate IsRepeatOf(trials: seq<Answer>, i: nat, j: nat)
    requires i < |trials| && j < |trials|
  {
    trials[i].role == REPEAT && trials[i].duplicateOf == Some(trials[j].id)
  }

  lemma {:induction false} GroupIndices(trials: seq<Answer>, c: string)
    ensures var group := Group(trials, c, |trials|);
            && (forall n :: 0 <= n < |group| ==> group[n] < |trials|)
            && (forall i :: i in group <==> i in TrialsOf(trials, c))
            && |group| == |TrialsOf(trials, c)|
  {
    GroupFacts(trials, c, |trials|);
    assert Below(trials, c, |trials|) == TrialsOf(trials, c);
    var group := Group(trials, c, |trials|);
    forall n | 0 <= n < |group| ensures group[n] < |trials| {
      assert group[n] in group;
    }
  }

  /** A case with one trial has it alone. */
  lemma {:induction false} SingleGroup(trials: seq<Answer>, i: nat)
    requires i < |trials|
    ensures |TrialsOf(trials, trials[i].caseId)| == 1 <==> Alone(trials, i)
    ensures Alone(trials, i) ==> Group(trials, trials[i].caseId, |trials|) == [i]
  {
    var all := TrialsOf(trials, trials[i].caseId);
    GroupIndices(trials, trials[i].caseId);
    assert i in all;
    if Alone(trials, i) {
      assert all == {i};
      assert Group(trials, trials[i].caseId, |trials|)[0] in all;
    } else {
      var j :| 0 <= j < |trials| && j != i && trials[j].caseId == trials[i].caseId;
      assert all == {i, j} + (all - {i, j});
      assert |all| == 2 + |all - {i, j}|;
    }
  }

  /** A case with two trials is the pair of them. */
  lemma {:induction false} PairGroup(trials: seq<Answer>, i: nat, j: nat)
    requires i < |trials| && j < |trials| && i != j && trials[i].caseId == trials[j].caseId
    requires |TrialsOf(trials, trials[i].caseId)| == 2
    ensures Group(trials, trials[i].caseId, |trials|) == [i, j] || Group(trials, trials[i].caseId, |trials|) == [j, i]
  {
    GroupIndices(trials, trials[i].caseId);
    var group := Group(trials, trials[i].caseId, |trials|);
    assert i in group && j in group;
  }

  /** Twelve cases of which eight have one trial and four have two leave no other sizes. */
  lemma {:induction false} OneOrTwo(trials: seq<Answer>, c: string)
    requires |CaseIds(trials)| == 12 && |CasesWith(trials, 1)| == 8 && |CasesWith(trials, 2)| == 4
        && c in CaseIds(trials)
    ensures |TrialsOf(trials, c)| == 1 || |TrialsOf(trials, c)| == 2
  {
    var singles, pairs := CasesWith(trials, 1), CasesWith(trials, 2);
    assert singles !! pairs;
    assert |singles + pairs| == 12;
    if c !in singles + pairs {
      assert singles + pairs + {c} <= CaseIds(trials);
      SubsetSize(singles + pairs + {c}, CaseIds(trials));
    }
  }

  lemma {:induction false} GroupFollowsRule(trials: seq<Answer>, i: nat)
    requires CaseGeometry(trials) && DistinctAnswers(trials) && RolesMatch(trials) && i < |trials|
    ensures forall n :: 0 <= n < |Group(trials, trials[i].caseId, |trials|)| ==>
        Group(trials, trials[i].caseId, |trials|)[n] < |trials|
    ensures GroupRule(trials, Group(trials, trials[i].caseId, |trials|))
  {
    var c := trials[i].caseId;
    GroupIndices(trials, c);
    assert c in CaseIds(trials);
    OneOrTwo(trials, c);
    SingleGroup(trials, i);
    if !Alone(trials, i) {
      var j :| 0 <= j < |trials| && j != i && trials[j].caseId == c;
      PairGroup(trials, i, j);
      assert PairRule(trials, i, j);
      LessTotal(trials[i].id, trials[j].id);
    }
  }

  ghost predicate GroupsFollowRule(trials: seq<Answer>, groups: map<string, seq<nat>>) {
    forall c :: c in groups ==> (forall n :: 0 <= n < |groups[c]| ==>
                                 groups[c][n] < |trials|) && GroupRule(trials, groups[c])
  }

  lemma {:induction false} RuleGivesPair(trials: seq<Answer>, i: nat, j: nat)
    requires DistinctAnswers(trials) && i < |trials| && j < |trials| && i != j && trials[i].caseId == trials[j].caseId
    requires |TrialsOf(trials, trials[i].caseId)| <= 2
    requires forall n :: 0 <= n < |Group(trials, trials[i].caseId, |trials|)| ==>
        Group(trials, trials[i].caseId, |trials|)[n] < |trials|
    requires GroupRule(trials, Group(trials, trials[i].caseId, |trials|))
    ensures PairRule(trials, i, j)
  {
    GroupIndices(trials, trials[i].caseId);
    SingleGroup(trials, i);
    PairGroup(trials, i, j);
    LessTotal(trials[i].id, trials[j].id);
  }

  /** Sorts the trials of every case by id and checks the roles. */
  method CheckGroups(trials: seq<Answer>, groups: map<string, seq<nat>>) returns (ok: bool)
    requires forall c :: c in groups ==> forall n :: 0 <= n < |groups[c]| ==> groups[c][n] < |trials|
    ensures ok <==> GroupsFollowRule(trials, groups)
  {
    var todo := groups.Keys;
    while |todo| > 0
      invariant todo <= groups.Keys
      invariant forall c :: c in groups && c !in todo ==> GroupRule(trials, groups[c])
      decreases |todo|
    {
      var c :| c in todo;
      if !GroupRule(trials, groups[c]) {
        return false;
      }
      todo := todo - {c};
    }
    ok := true;
  }

  /** The geometry of the cases of a recovered key. */
  method CheckCases(trials: seq<Answer>) returns (ok: bool)
    requires DistinctAnswers(trials) && RolesMatch(trials)
    ensures ok <==> CaseGeometry(trials)
  {
    var groups := GroupByCase(trials);
    var singles := set c | c in groups && |groups[c]| == 1;
    var pairs := set c | c in groups && |groups[c]| == 2;
    assert singles == CasesWith(trials, 1) && pairs == CasesWith(trials, 2);
    if |groups| != 12 || |singles| != 8 || |pairs| != 4 {
      return false;
    }
    forall c | c in groups ensures forall n :: 0 <= n < |groups[c]| ==> groups[c][n] < |trials| {
      GroupIndices(trials, c);
    }
    ok := CheckGroups(trials, groups);
    GroupsDecide(trials, groups);
  }

  lemma {:induction false} GroupsDecide(trials: seq<Answer>, groups: map<string, seq<nat>>)
    requires DistinctAnswers(trials) && RolesMatch(trials)
    requires groups.Keys == CaseIds(trials) && forall c :: c in groups ==> groups[c] == Group(trials, c, |trials|)
    requires |CaseIds(trials)| == 12 && |CasesWith(trials, 1)| == 8 && |CasesWith(trials, 2)| == 4
    ensures GroupsFollowRule(trials, groups) <==> CaseGeometry(trials)
  {
    if GroupsFollowRule(trials, groups) {
      RuleGivesGeometry(trials, groups);
    }
    if CaseGeometry(trials) {
      forall c | c in groups
        ensures (forall n :: 0 <= n < |groups[c]| ==> groups[c][n] < |trials|) && GroupRule(trials, groups[c])
      {
        var i :| 0 <= i < |trials| && trials[i].caseId == c;
        GroupFollowsRule(trials, i);
      }
    }
  }

  lemma {:induction false} RuleGivesGeometry(trials: seq<Answer>, groups: map<string, seq<nat>>)
    requires DistinctAnswers(trials)
    requires groups.Keys == CaseIds(trials) && forall c :: c in groups ==> groups[c] == Group(trials, c, |trials|)
    requires |CaseIds(trials)| == 12 && |CasesWith(trials, 1)| == 8 && |CasesWith(trials, 2)| == 4
    requires GroupsFollowRule(trials, groups)
    ensures CaseGeometry(trials)
  {
    forall i | 0 <= i < |trials| && Alone(trials, i) ensures trials[i].role == CORE {
      assert trials[i].caseId in groups;
      SingleGroup(trials, i);
    }
    forall i, j | 0 <= i < |trials| && 0 <= j < |trials| && i != j && trials[i].caseId == trials[j].caseId
      ensures PairRule(trials, i, j)
    {
      assert trials[i].caseId in groups;
      OneOrTwo(trials, trials[i].caseId);
      RuleGivesPair(trials, i, j);
    }
  }

  lemma {:induction false} CoveredRoles(trials: seq<Answer>, p: Protocol, recovered: bool)
    requires Covers(trials, p, recovered)
    ensures RolesMatch(trials) && DistinctAnswers(trials)
  {
    forall i | 0 <= i < |trials| ensures trials[i].role == CORE <==> trials[i].duplicateOf == None {
      assert AnswersOne(trials[i], p, recovered);
    }
  }

  /** The answers: they cover the trials, the roles have their counts, and the repeats their core trials. */
  method CheckAnswers(trials: seq<Answer>, p: Protocol, recovered: bool) returns (ok: bool)
    requires ValidProtocol(p)
    ensures ok <==> Covers(trials, p, recovered) && CoreGeometry(trials)
  {
    var covered, byId := CheckTrials(trials, p, recovered);
    if !covered {
      return false;
    }
    CoveredRoles(trials, p, recovered);
    var counted := CheckCounts(trials);
    if !counted {
      return false;
    }
    ok := CheckRepeats(trials, byId);
  }

  /** The script accepts exactly the valid keys. */
  method ValidateKey(key: AnswerKey, p: Protocol, h: Hashes) returns (ok: bool)
    requires ValidProtocol(p)
    ensures ok <==> ValidKey(key, p, h)
  {
    if key.version.RECOVERED? && key.version.caseCount != 12 {
      return false;
    }
    if key.bundleId != p.bundleId || key.matrixDigest != p.matrixDigest || key.protocolDigest != h.protocol(p) {
      return false;
    }
    ok := CheckAnswers(key.trials, p, key.version.RECOVERED?);
    if ok && key.version.RECOVERED? {
      CoveredRoles(key.trials, p, true);
      ok := CheckCases(key.trials);
    }
  }
}
