/** Recovering an answer key from the audio fingerprints of the public protocol alone. */
module Recovery {
  import opened Wrappers
  import opened Listening
  import opened Texts
  import opened Preparation

  datatype RecoveryError = InvalidProtocol | MatrixDiffers | InvalidMatrix | BadCandidate(name: string) | WrongCount
                         | NoCandidate(id: string) | StratumDiffers(id: string) | SidesDiffer(id: string)
                         | GeometryDiffers

  type Fingerprint = (string, string)

  const REQUIRED_AUDIO: set<FileName> := {CLEAN, NOISY, DPDFNET2, GTCRN_WAV}
  const EXPECTED_AUDIO: set<FileName> := {CLEAN, NOISY, DPDFNET2, DPDFNET8, GTCRN_WAV}

  // ------------------------------------------------------------ what recovery demands

  /** The closed set of named outputs, all playable and of one length, with distinguishable models. */
  predicate ClosedAudio(d: Directory) {
    && REQUIRED_AUDIO <= d.files.Keys && d.files.Keys <= EXPECTED_AUDIO
    && (forall f :: f in d.files ==> Playable(d.files[f]) && d.files[f].frames == d.files[CLEAN].frames)
    && d.files[DPDFNET2].sha256 != d.files[GTCRN_WAV].sha256
  }

  function InputsOf(d: Directory): Fingerprint
    requires CLEAN in d.files && NOISY in d.files
  {
    (d.files[CLEAN].sha256, d.files[NOISY].sha256)
  }

  predicate MatrixIds(matrix: seq<Case>) {
    && matrix != []
    && (forall i :: 0 <= i < |matrix| ==> IsCaseId(matrix[i].id))
    && forall i, j :: 0 <= i < j < |matrix| ==> matrix[i].id != matrix[j].id
  }

  /** The candidate directories can be told apart by their input fingerprints. */
  ghost predicate Candidates(matrix: seq<Case>, dirs: seq<Directory>) {
    && MatrixIds(matrix) && |dirs| == 12
    && (forall d :: 0 <= d < |dirs| ==> FindCase(matrix, dirs[d].name).Some? && ClosedAudio(dirs[d]))
    && forall d, e :: 0 <= d < e < |dirs| ==> InputsOf(dirs[d]) != InputsOf(dirs[e])
  }

  predicate Plays(d: Directory, t: PublicTrial) {
    CLEAN in d.files && NOISY in d.files && InputsOf(d) == (t.reference.sha256, t.input.sha256)
  }

  /** The trial has the stratum of the case, and its sides are the two model outputs. */
  predicate Fits(matrix: seq<Case>, d: Directory, t: PublicTrial) {
    && StratumOf(matrix, d) == Some(t.stratum)
    && DPDFNET2 in d.files && GTCRN_WAV in d.files
    && {t.a.sha256, t.b.sha256} == {d.files[DPDFNET2].sha256, d.files[GTCRN_WAV].sha256}
  }

  function NamedOutput(d: Directory, sha256: string): Model
    requires DPDFNET2 in d.files && GTCRN_WAV in d.files
  {
    if sha256 == d.files[GTCRN_WAV].sha256 then GTCRN else DPDFNET
  }

  /** A recovered answer before the roles are assigned. */
  function Draft(t: PublicTrial, d: Directory): Answer
    requires DPDFNET2 in d.files && GTCRN_WAV in d.files
  {
    Answer(t.id, d.name, t.stratum, CORE, None, NamedOutput(d, t.a.sha256), NamedOutput(d, t.b.sha256),
           Some((t.a.sha256, t.b.sha256)))
  }

  predicate DraftsTrial(matrix: seq<Case>, d: Directory, t: PublicTrial, a: Answer) {
    Plays(d, t) && Fits(matrix, d, t) && a == Draft(t, d)
  }

  ghost predicate Drafts(p: Protocol, matrix: seq<Case>, dirs: seq<Directory>, drafts: seq<Answer>) {
    && |drafts| == |p.trials|
    && forall i :: 0 <= i < |drafts| ==> IsDraft(matrix, dirs, p.trials[i], drafts[i])
  }

  ghost predicate IsDraft(matrix: seq<Case>, dirs: seq<Directory>, t: PublicTrial, a: Answer) {
    exists d :: 0 <= d < |dirs| && DraftsTrial(matrix, dirs[d], t, a)
  }

  ghost function NamesOf(dirs: seq<Directory>): set<string> {
    set d | 0 <= d < |dirs| :: dirs[d].name
  }

  /** Every candidate case is played once or twice: eight once, four twice. */
  ghost predicate Geometry(drafts: seq<Answer>, dirs: seq<Directory>) {
    && CaseIds(drafts) == NamesOf(dirs)
    && (forall c :: c in CaseIds(drafts) ==> 1 <= |TrialsOf(drafts, c)| <= 2)
    && |CasesWith(drafts, 1)| == 8 && |CasesWith(drafts, 2)| == 4
  }

  /** The smallest trial id of a case is its core trial; the other one repeats it. */
  ghost predicate RoleRule(drafts: seq<Answer>, i: int, role: Role, duplicateOf: Option<string>)
    requires 0 <= i < |drafts|
  {
    && (forall j {:trigger Less(drafts[i].id, drafts[j].id)} ::
        0 <= j < |drafts| && j != i && drafts[j].caseId == drafts[i].caseId ==>
          if Less(drafts[i].id, drafts[j].id) then role == CORE && duplicateOf == None
          else role == REPEAT && duplicateOf == Some(drafts[j].id))
    && (Alone(drafts, i) ==> role == CORE && duplicateOf == None)
  }

  ghost predicate WithRoles(drafts: seq<Answer>, answers: seq<Answer>) {
    && |answers| == |drafts|
    && forall i :: 0 <= i < |answers| ==> Assigned(drafts, i, answers[i])
  }

  ghost predicate IsRecovered(p: Protocol, h: Hashes, matrix: seq<Case>, dirs: seq<Directory>, drafts: seq<Answer>,
          key: AnswerKey) {
    && ValidProtocol(p) && p.matrixDigest == h.matrix(matrix) && Candidates(matrix, dirs)
    && Drafts(p, matrix, dirs, drafts) && Geometry(drafts, dirs)
    && WithRoles(drafts, key.trials)
    && key == AnswerKey(RECOVERED(|CaseIds(drafts)|), p.bundleId, p.matrixDigest, h.protocol(p), key.trials)
  }

  /** Some matching of the trials gives this key. */
  ghost predicate Recovers(p: Protocol, h: Hashes, matrix: seq<Case>, dirs: seq<Directory>, key: AnswerKey) {
    exists drafts :: IsRecovered(p, h, matrix, dirs, drafts, key)
  }

  lemma {:induction false} ByMatching(p: Protocol, h: Hashes, matrix: seq<Case>, dirs: seq<Directory>,
          drafts: seq<Answer>,
          key: AnswerKey)
    requires IsRecovered(p, h, matrix, dirs, drafts, key)
    ensures Recovers(p, h, matrix, dirs, key)
  {
  }

  // ------------------------------------------------------------ the script

  /** The fingerprint table of the candidate directories. */
  method CandidateRecords(matrix: seq<Case>, dirs: seq<Directory>)
    returns (r: Result<map<Fingerprint, nat>, RecoveryError>)
    requires MatrixIds(matrix)
    ensures r.Ok? <==> Candidates(matrix, dirs)
    ensures r.Ok? ==> forall f :: f in r.value ==> r.value[f] < |dirs| && InputsOf(dirs[r.value[f]]) == f
    ensures r.Ok? ==> forall d :: 0 <= d < |dirs| ==> InputsOf(dirs[d]) in r.value && r.value[InputsOf(dirs[d])] == d
  {
    var table: map<Fingerprint, nat> := map[];
    for d := 0 to |dirs|
      invariant forall e :: 0 <= e < d ==> FindCase(matrix, dirs[e].name).Some? && ClosedAudio(dirs[e])
      invariant forall f :: f in table ==> table[f] < d && InputsOf(dirs[table[f]]) == f
      invariant forall e :: 0 <= e < d ==> InputsOf(dirs[e]) in table && table[InputsOf(dirs[e])] == e
    {
      if FindCase(matrix, dirs[d].name) == None || !ClosedAudio(dirs[d]) || InputsOf(dirs[d]) in table {
        return Err(BadCandidate(dirs[d].name));
      }
      table := table[InputsOf(dirs[d]) := d];
    }
    if |dirs| != 12 {
      return Err(WrongCount);
    }
    r := Ok(table);
  }

  /** Looks every trial up by its input fingerprint and names its sides by their output fingerprints. */
  method MatchTrials(p: Protocol, matrix: seq<Case>, dirs: seq<Directory>, table: map<Fingerprint, nat>)
    returns (r: Result<seq<Answer>, RecoveryError>)
    requires Candidates(matrix, dirs)
    requires forall f :: f in table ==> table[f] < |dirs| && InputsOf(dirs[table[f]]) == f
    requires forall d :: 0 <= d < |dirs| ==> InputsOf(dirs[d]) in table && table[InputsOf(dirs[d])] == d
    ensures r.Ok? ==> Drafts(p, matrix, dirs, r.value)
    ensures r.Err? ==> forall drafts :: !Drafts(p, matrix, dirs, drafts)
  {
    var drafts := [];
    for i := 0 to |p.trials|
      invariant |drafts| == i
      invariant forall k :: 0 <= k < i ==> IsDraft(matrix, dirs, p.trials[k], drafts[k])
    {
      var t := p.trials[i];
      var f := (t.reference.sha256, t.input.sha256);
      if f !in table {
        NoDrafts(p, matrix, dirs, i);
        return Err(NoCandidate(t.id));
      }
      var d := table[f];
      if StratumOf(matrix, dirs[d]) != Some(t.stratum) {
        NoDrafts(p, matrix, dirs, i);
        return Err(StratumDiffers(t.id));
      }
      if {t.a.sha256, t.b.sha256} != {dirs[d].files[DPDFNET2].sha256, dirs[d].files[GTCRN_WAV].sha256} {
        NoDrafts(p, matrix, dirs, i);
        return Err(SidesDiffer(t.id));
      }
      assert DraftsTrial(matrix, dirs[d], t, Draft(t, dirs[d]));
      drafts := drafts + [Draft(t, dirs[d])];
    }
    r := Ok(drafts);
  }

  lemma {:induction false} DraftWitness(p: Protocol, matrix: seq<Case>, dirs: seq<Directory>, drafts: seq<Answer>,
          i: nat)
    requires Drafts(p, matrix, dirs, drafts) && i < |p.trials|
    ensures exists d :: 0 <= d < |dirs| && Plays(dirs[d], p.trials[i]) && Fits(matrix, dirs[d], p.trials[i])
  {
    assert IsDraft(matrix, dirs, p.trials[i], drafts[i]);
    var d :| 0 <= d < |dirs| && DraftsTrial(matrix, dirs[d], p.trials[i], drafts[i]);
  }

  /** A trial that no directory fits leaves no way to match the trials. */
  lemma {:induction false} NoDrafts(p: Protocol, matrix: seq<Case>, dirs: seq<Directory>, i: nat)
    requires i < |p.trials| && !exists d ::
        0 <= d < |dirs| && Plays(dirs[d], p.trials[i]) && Fits(matrix, dirs[d], p.trials[i])
    ensures forall drafts :: !Drafts(p, matrix, dirs, drafts)
  {
    forall drafts ensures !Drafts(p, matrix, dirs, drafts) {
      if Drafts(p, matrix, dirs, drafts) {
        DraftWitness(p, matrix, dirs, drafts, i);
      }
    }
  }

  /** Distinct fingerprints leave one way to match the trials. */
  lemma {:induction false} DraftsUnique(p: Protocol, matrix: seq<Case>, dirs: seq<Directory>, x: seq<Answer>,
          y: seq<Answer>)
    requires Candidates(matrix, dirs) && Drafts(p, matrix, dirs, x) && Drafts(p, matrix, dirs, y)
    ensures x == y
  {
    forall i | 0 <= i < |x| ensures x[i] == y[i] {
      assert IsDraft(matrix, dirs, p.trials[i], x[i]) && IsDraft(matrix, dirs, p.trials[i], y[i]);
      var d :| 0 <= d < |dirs| && DraftsTrial(matrix, dirs[d], p.trials[i], x[i]);
      var e :| 0 <= e < |dirs| && DraftsTrial(matrix, dirs[e], p.trials[i], y[i]);
      assert d == e;
    }
  }

  /** The trials of a case among the first `n`, in protocol order. */
  function Group(drafts: seq<Answer>, c: string, n: nat): (r: seq<nat>)
    requires n <= |drafts|
    ensures |r| <= n
  {
    if n == 0 then []
    else Group(drafts, c, n - 1) + if drafts[n - 1].caseId == c then [n - 1] else []
  }

  ghost function Below(drafts: seq<Answer>, c: string, n: nat): set<int>
    requires n <= |drafts|
  {
    set i | 0 <= i < n && drafts[i].caseId == c
  }

  lemma {:induction false} BelowStep(drafts: seq<Answer>, c: string, n: nat)
    requires 0 < n <= |drafts|
    ensures n - 1 !in Below(drafts, c, n - 1)
    ensures Below(drafts, c, n) == Below(drafts, c, n - 1) + if drafts[n - 1].caseId == c then {n - 1} else {}
  {
  }

  lemma {:induction false} OneMore(group: seq<nat>, below: set<int>, x: nat)
    requires (forall i :: i in group <==> i in below) && |group| == |below| && x !in below
    ensures forall i :: i in group + [x] <==> i in below + {x}
    ensures |group + [x]| == |below + {x}|
  {
    forall i ensures i in group + [x] <==> i in below + {x} {
      assert i in group + [x] <==> i in group || i in [x];
    }
  }

  lemma {:induction false} GroupFacts(drafts: seq<Answer>, c: string, n: nat)
    requires n <= |drafts|
    ensures forall i :: i in Group(drafts, c, n) <==> i in Below(drafts, c, n)
    ensures |Group(drafts, c, n)| == |Below(drafts, c, n)|
  {
    if n > 0 {
      GroupFacts(drafts, c, n - 1);
      BelowStep(drafts, c, n);
      if drafts[n - 1].caseId == c {
        OneMore(Group(drafts, c, n - 1), Below(drafts, c, n - 1), n - 1);
      }
    } else {
      assert Below(drafts, c, n) == {};
    }
  }

  /** The group of a case holds all its trials. */
  lemma {:induction false} WholeGroup(drafts: seq<Answer>, c: string)
    ensures |Group(drafts, c, |drafts|)| == |TrialsOf(drafts, c)|
    ensures c in CaseIds(drafts) <==> Group(drafts, c, |drafts|) != []
  {
    var group := Group(drafts, c, |drafts|);
    GroupFacts(drafts, c, |drafts|);
    assert Below(drafts, c, |drafts|) == TrialsOf(drafts, c);
    assert group != [] ==> group[0] in group;
    if c in CaseIds(drafts) {
      var i :| 0 <= i < |drafts| && drafts[i].caseId == c;
      assert i in group;
    }
  }

  /** The table holds the first `n` trials of case `c`, and no empty group. */
  ghost predicate HasGroup(drafts: seq<Answer>, groups: map<string, seq<nat>>, c: string, n: nat)
    requires n <= |drafts|
  {
    Group(drafts, c, n) == (if c in groups then groups[c] else []) && (c in groups ==> groups[c] != [])
  }

  ghost predicate Grouped(drafts: seq<Answer>, groups: map<string, seq<nat>>, n: nat)
    requires n <= |drafts|
  {
    forall c {:trigger HasGroup(drafts, groups, c, n)} :: HasGroup(drafts, groups, c, n)
  }

  lemma {:induction false} NextGrouped(drafts: seq<Answer>, groups: map<string, seq<nat>>, n: nat,
          next: map<string, seq<nat>>, c: string)
    requires n < |drafts| && Grouped(drafts, groups, n) && c == drafts[n].caseId
    requires next == groups[c := (if c in groups then groups[c] else []) + [n]]
    ensures Grouped(drafts, next, n + 1)
  {
    var m := n + 1;
    forall x ensures HasGroup(drafts, next, x, m) {
      assert HasGroup(drafts, groups, x, n);
    }
  }

  lemma {:induction false} AllGrouped(drafts: seq<Answer>, groups: map<string, seq<nat>>)
    requires Grouped(drafts, groups, |drafts|)
    ensures groups.Keys == CaseIds(drafts)
    ensures forall c :: c in groups ==> groups[c] == Group(drafts, c, |drafts|) && |groups[c]| == |TrialsOf(drafts, c)|
  {
    forall c | c in CaseIds(drafts) ensures c in groups {
      assert HasGroup(drafts, groups, c, |drafts|);
      WholeGroup(drafts, c);
    }
    forall c | c in groups
      ensures c in CaseIds(drafts)
      ensures groups[c] == Group(drafts, c, |drafts|) && |groups[c]| == |TrialsOf(drafts, c)|
    {
      assert HasGroup(drafts, groups, c, |drafts|);
      WholeGroup(drafts, c);
    }
  }

  /** Groups the trials by case, in protocol order. */
  method GroupByCase(drafts: seq<Answer>) returns (groups: map<string, seq<nat>>)
    ensures groups.Keys == CaseIds(drafts)
    ensures forall c :: c in groups ==> groups[c] == Group(drafts, c, |drafts|) && |groups[c]| == |TrialsOf(drafts, c)|
  {
    groups := map[];
    for i := 0 to |drafts|
      invariant Grouped(drafts, groups, i)
    {
      var c := drafts[i].caseId;
      var next := groups[c := (if c in groups then groups[c] else []) + [i]];
      NextGrouped(drafts, groups, i, next, c);
      groups := next;
    }
    AllGrouped(drafts, groups);
  }

  /** Sorts the trials of every case by id and assigns the roles. */
  method AssignRoles(drafts: seq<Answer>, groups: map<string, seq<nat>>) returns (answers: seq<Answer>)
    requires forall i, j :: 0 <= i < j < |drafts| ==> drafts[i].id != drafts[j].id
    requires forall c :: c in groups ==> 1 <= |groups[c]| <= 2
    requires forall c :: c in groups ==> groups[c] == Group(drafts, c, |drafts|)
    requires groups.Keys == CaseIds(drafts)
    ensures WithRoles(drafts, answers)
  {
    answers := drafts;
    for i := 0 to |drafts|
      invariant |answers| == |drafts|
      invariant forall k :: 0 <= k < i ==> Assigned(drafts, k, answers[k])
      invariant forall k :: i <= k < |drafts| ==> answers[k] == drafts[k]
    {
      assert drafts[i].caseId in CaseIds(drafts);
      var group := groups[drafts[i].caseId];
      GroupFacts(drafts, drafts[i].caseId, |drafts|);
      assert i in group;
      var other := if group[0] == i && |group| == 2 then group[1] else group[0];
      RoleIs(drafts, i, other);
      if other != i && Less(drafts[other].id, drafts[i].id) {
        answers := answers[i := answers[i].(role := REPEAT, duplicateOf := Some(drafts[other].id))];
      } else {
        answers := answers[i := answers[i].(role := CORE, duplicateOf := None)];
      }
    }
  }

  /** The answer is the draft with its role. */
  ghost predicate Assigned(drafts: seq<Answer>, i: int, answer: Answer)
    requires 0 <= i < |drafts|
  {
    && answer == drafts[i].(role := answer.role, duplicateOf := answer.duplicateOf)
    && RoleRule(drafts, i, answer.role, answer.duplicateOf)
  }

  lemma {:induction false} RoleIs(drafts: seq<Answer>, i: nat, other: nat)
    requires forall i, j :: 0 <= i < j < |drafts| ==> drafts[i].id != drafts[j].id
    requires i < |drafts| && 1 <= |Group(drafts, drafts[i].caseId, |drafts|)| <= 2
    requires var group := Group(drafts, drafts[i].caseId, |drafts|);
      other == if group[0] == i && |group| == 2 then group[1] else group[0]
    ensures other < |drafts|
    ensures if other != i && Less(drafts[other].id, drafts[i].id)
        then RoleRule(drafts, i, REPEAT, Some(drafts[other].id))
            else RoleRule(drafts, i, CORE, None)
  {
    OnlyOther(drafts, i, other);
    LessTotal(drafts[other].id, drafts[i].id);
  }

  /** A trial shares its case with at most the other member of its group. */
  lemma {:induction false} OnlyOther(drafts: seq<Answer>, i: nat, other: nat)
    requires i < |drafts| && 1 <= |Group(drafts, drafts[i].caseId, |drafts|)| <= 2
    requires var group := Group(drafts, drafts[i].caseId, |drafts|); other == if group[0] == i && |group| == 2
        then group[1] else group[0]
    ensures other < |drafts| && drafts[other].caseId == drafts[i].caseId
    ensures forall j :: 0 <= j < |drafts| && j != i && drafts[j].caseId == drafts[i].caseId ==> j == other
  {
    var group := Group(drafts, drafts[i].caseId, |drafts|);
    GroupFacts(drafts, drafts[i].caseId, |drafts|);
    assert i in group;
    assert other in group;
    forall j | 0 <= j < |drafts| && j != i && drafts[j].caseId == drafts[i].caseId ensures j == other {
      assert j in group && i in group;
    }
  }

  /** The script: it succeeds exactly when the protocol is valid, the matrix is the one it names, the
      candidates can be told apart, and the trials match them eight times once and four times twice. */
  method Recover(p: Protocol, h: Hashes, matrix: seq<Case>, dirs: seq<Directory>)
    returns (r: Result<AnswerKey, RecoveryError>, ghost drafts: seq<Answer>)
    ensures r.Ok? ==> IsRecovered(p, h, matrix, dirs, drafts, r.value)
    ensures r.Ok? ==> Recovers(p, h, matrix, dirs, r.value)
    ensures r.Err? ==> forall d, key :: !IsRecovered(p, h, matrix, dirs, d, key)
  {
    drafts := [];
    if !ValidProtocol(p) {
      return Err(InvalidProtocol), drafts;
    }
    if h.matrix(matrix) != p.matrixDigest {
      return Err(MatrixDiffers), drafts;
    }
    if !MatrixIds(matrix) {
      return Err(InvalidMatrix), drafts;
    }
    var table := CandidateRecords(matrix, dirs);
    if table.Err? {
      return Err(table.error), drafts;
    }
    var matched := MatchTrials(p, matrix, dirs, table.value);
    if matched.Err? {
      return Err(matched.error), drafts;
    }
    drafts := matched.value;
    var groups := GroupByCase(matched.value);
    var sound := CheckGeometry(matched.value, dirs, groups);
    if !sound {
      forall x, key ensures !IsRecovered(p, h, matrix, dirs, x, key) {
        if IsRecovered(p, h, matrix, dirs, x, key) {
          DraftsUnique(p, matrix, dirs, x, drafts);
        }
      }
      return Err(GeometryDiffers), drafts;
    }
    DraftIds(p, matrix, dirs, matched.value);
    var answers := AssignRoles(matched.value, groups);
    var key := AnswerKey(RECOVERED(|groups|), p.bundleId, h.matrix(matrix), h.protocol(p), answers);
    ByMatching(p, h, matrix, dirs, drafts, key);
    r := Ok(key);
  }

  method CheckGeometry(drafts: seq<Answer>, dirs: seq<Directory>, groups: map<string, seq<nat>>) returns (sound: bool)
    requires groups.Keys == CaseIds(drafts) && forall c :: c in groups ==> |groups[c]| == |TrialsOf(drafts, c)|
    ensures sound <==> Geometry(drafts, dirs)
  {
    var names := set d | d in dirs :: d.name;
    assert names == NamesOf(dirs);
    var singles := set c | c in groups && |groups[c]| == 1;
    var pairs := set c | c in groups && |groups[c]| == 2;
    assert singles == CasesWith(drafts, 1);
    assert pairs == CasesWith(drafts, 2);
    sound := groups.Keys == names && |singles| == 8 && |pairs| == 4 && forall c :: c in groups ==>
        1 <= |groups[c]| <= 2;
  }

  lemma {:induction false} DraftIds(p: Protocol, matrix: seq<Case>, dirs: seq<Directory>, drafts: seq<Answer>)
    requires Drafts(p, matrix, dirs, drafts) && DistinctIds(p.trials)
    ensures forall i :: 0 <= i < |drafts| ==> drafts[i].id == p.trials[i].id
    ensures forall i, j :: 0 <= i < j < |drafts| ==> drafts[i].id != drafts[j].id
  {
  }
}
