/** The blind-listening documents: the public protocol, the private answer key in its prepared and its
    recovered version, and what makes an answer key valid for a protocol. */
module Listening {
  import opened Texts
  import opened Wrappers

  datatype Stratum = RECORDED | BABBLE | PRESERVATION | SYNTHETIC

  datatype Model = DPDFNET | GTCRN | OTHER_MODEL(name: string)

  datatype Kind = CLEAN_PRESERVATION | NOISE_MATRIX | OTHER_KIND

  /** A case of the source matrix; `noise` is absent when it is not a string. */
  datatype Case = Case(id: string, kind: Kind, noise: Option<string>)

  /** What both scripts record of a WAV file. */
  datatype Record = Record(sha256: string, size: nat, rate: nat, channels: nat, frames: nat)

  datatype FileName = CLEAN | NOISY | DPDFNET2 | DPDFNET8 | GTCRN_WAV | OTHER_FILE(name: string)

  /** A candidate directory: its name and the files in it. */
  datatype Directory = Directory(name: string, files: map<FileName, Record>)

  datatype PublicTrial = PublicTrial(id: string, stratum: Stratum, reference: Record, input: Record, a: Record,
                                     b: Record)

  datatype Protocol = Protocol(bundleId: string, matrixDigest: string, trials: seq<PublicTrial>)

  datatype Role = CORE | REPEAT

  /** One answer; the digests are present in the recovered version only. */
  datatype Answer = Answer(
    id: string, caseId: string, stratum: Stratum, role: Role, duplicateOf: Option<string>,
    a: Model, b: Model, digests: Option<(string, string)>)

  datatype Version = PREPARED | RECOVERED(caseCount: nat)

  datatype AnswerKey = AnswerKey(version: Version, bundleId: string, matrixDigest: string, protocolDigest: string,
                                 trials: seq<Answer>)

  /** SHA-256 of the canonical documents; nothing is assumed of these functions. */
  datatype Hashes = Hashes(matrix: seq<Case> -> string, protocol: Protocol -> string)

  function ExpectedCount(s: Stratum): nat {
    match s
    case RECORDED => 4
    case BABBLE => 3
    case PRESERVATION => 3
    case SYNTHETIC => 2
  }

  /** `classify`, the same in the prepare and the recover script. */
  function Classify(c: Case): Option<Stratum> {
    if c.kind == CLEAN_PRESERVATION then Some(PRESERVATION)
    else if c.kind != NOISE_MATRIX then None
    else if c.noise == Some("three-talker-babble") then Some(BABBLE)
    else if c.noise.Some? && "freesound-" <= c.noise.value then Some(RECORDED)
    else Some(SYNTHETIC)
  }

  // ------------------------------------------------------------ formats

  predicate IsHex(s: string, n: nat) {
    |s| == n && forall k :: 0 <= k < |s| ==> '0' <= s[k] <= '9' || 'a' <= s[k] <= 'f'
  }

  predicate IsCaseChar(c: char) {
    'A' <= c <= 'Z' || 'a' <= c <= 'z' || '0' <= c <= '9' || c == '.' || c == '_' || c == '+' || c == '-'
  }

  /** `[A-Za-z0-9._+-]{1,128}` */
  predicate IsCaseId(s: string) {
    1 <= |s| <= 128 && forall k :: 0 <= k < |s| ==> IsCaseChar(s[k])
  }

  /** A non-empty mono recording at 48 kHz. */
  predicate Playable(r: Record) {
    r.rate == 48000 && r.channels == 1 && r.frames > 0
  }

  predicate DistinctIds(trials: seq<PublicTrial>) {
    forall i, j :: 0 <= i < j < |trials| ==> trials[i].id != trials[j].id
  }

  predicate DistinctAnswers(trials: seq<Answer>) {
    forall i, j :: 0 <= i < j < |trials| ==> trials[i].id != trials[j].id
  }

  /** What the scorer demands of a protocol, apart from the audio files themselves. */
  predicate ValidProtocol(p: Protocol) {
    && |p.trials| == 16 && DistinctIds(p.trials)
    && forall i :: 0 <= i < |p.trials| ==>
         && IsHex(p.trials[i].id, 24)
         && Playable(p.trials[i].reference) && Playable(p.trials[i].input)
         && Playable(p.trials[i].a) && Playable(p.trials[i].b)
  }

  // ------------------------------------------------------------ finite index sets

  /** The indices below `n`. */
  ghost function Span(n: nat): (r: set<int>)
    ensures forall d {:trigger d in r} :: d in r <==> 0 <= d < n
    ensures |r| == n
  {
    if n == 0 then {} else Span(n - 1) + {n - 1}
  }

  lemma {:induction false} UnionSize<T>(a: set<T>, b: set<T>)
    requires a !! b
    ensures |a + b| == |a| + |b|
  {
  }

  lemma {:induction false} SubsetSize<T>(s: set<T>, t: set<T>)
    requires s <= t
    ensures |s| <= |t|
  {
    assert t == s + (t - s);
    UnionSize(s, t - s);
  }

  lemma {:induction false} TwoParts(n: nat, a: set<int>, b: set<int>)
    requires a !! b && forall i :: i in a || i in b <==> 0 <= i < n
    ensures |a| + |b| == n
  {
    assert Span(n) == a + b;
    assert |a + b| == |a| + |b|;
  }

  /** Some index of `s` carries the value `d`. */
  ghost predicate Hit<T(!new)>(s: set<int>, f: seq<T>, d: T) {
    exists i :: i in s && 0 <= i < |f| && f[i] == d
  }

  lemma {:induction false} HitLess<T(!new)>(s: set<int>, f: seq<T>, x: int, d: T)
    requires Hit(s, f, d) && 0 <= x < |f| && f[x] != d
    ensures Hit(s - {x}, f, d)
  {
    var i :| i in s && 0 <= i < |f| && f[i] == d;
    assert i in s - {x};
  }

  /** Indices with different values are as many as the values. */
  lemma {:induction false} SameSize<T(!new)>(s: set<int>, f: seq<T>, t: set<T>)
    requires forall i :: i in s ==> 0 <= i < |f| && f[i] in t
    requires forall d :: d in t ==> Hit(s, f, d)
    requires forall i, j :: i in s && j in s && i != j ==> f[i] != f[j]
    ensures |s| == |t|
    decreases |s|
  {
    if exists x :: x in s {
      var x :| x in s;
      var s', t' := s - {x}, t - {f[x]};
      forall d | d in t' ensures Hit(s', f, d) {
        HitLess(s, f, x, d);
      }
      SameSize(s', f, t');
    } else {
      assert |s| == 0;
      forall d ensures d !in t {
        assert !Hit(s, f, d);
      }
    }
  }

  ghost predicate Within(s: set<int>, n: int) {
    forall i :: i in s ==> 0 <= i < n
  }

  /** How many elements of `s` are below `n`. */
  ghost function Count(s: set<int>, n: nat): nat {
    if n == 0 then 0 else Count(s, n - 1) + if n - 1 in s then 1 else 0
  }

  lemma {:induction false} CountAll(s: set<int>, n: nat)
    requires Within(s, n)
    ensures Count(s, n) == |s|
  {
    if n == 0 {
      if exists i :: i in s {
        assert false;
      }
    } else {
      var rest := s - {n - 1};
      CountAll(rest, n - 1);
      CountAgrees(s, rest, n - 1);
    }
  }

  lemma {:induction false} CountAgrees(s: set<int>, t: set<int>, n: nat)
    requires forall i :: 0 <= i < n ==> (i in s <==> i in t)
    ensures Count(s, n) == Count(t, n)
  {
    if n > 0 {
      CountAgrees(s, t, n - 1);
    }
  }

  // ------------------------------------------------------------ valid answer keys

  ghost function WithRole(trials: seq<Answer>, role: Role): set<int> {
    set i | 0 <= i < |trials| && trials[i].role == role
  }

  ghost function CoresIn(trials: seq<Answer>, s: Stratum): set<int> {
    set i | 0 <= i < |trials| && trials[i].role == CORE && trials[i].stratum == s
  }

  ghost function CaseIds(trials: seq<Answer>): set<string> {
    set i | 0 <= i < |trials| :: trials[i].caseId
  }

  ghost function TrialsOf(trials: seq<Answer>, caseId: string): set<int> {
    set i | 0 <= i < |trials| && trials[i].caseId == caseId
  }

  /** The cases with `n` trials. */
  ghost function CasesWith(trials: seq<Answer>, n: nat): set<string> {
    set c | c in CaseIds(trials) && |TrialsOf(trials, c)| == n
  }

  /** One answer against its public trial. */
  predicate AnswersTrial(t: Answer, p: PublicTrial, recovered: bool) {
    && t.id == p.id && t.stratum == p.stratum && IsCaseId(t.caseId)
    && {t.a, t.b} == {DPDFNET, GTCRN}
    && t.digests == (if recovered then Some((p.a.sha256, p.b.sha256)) else None)
    && (t.role == CORE <==> t.duplicateOf == None)
  }

  /** Every answer belongs to a public trial, and no two to the same. */
  ghost predicate Covers(trials: seq<Answer>, p: Protocol, recovered: bool) {
    && |trials| == |p.trials|
    && (forall i, j :: 0 <= i < j < |trials| ==> trials[i].id != trials[j].id)
    && forall i :: 0 <= i < |trials| ==> AnswersOne(trials[i], p, recovered)
  }

  ghost predicate AnswersOne(t: Answer, p: Protocol, recovered: bool) {
    exists j :: 0 <= j < |p.trials| && AnswersTrial(t, p.trials[j], recovered)
  }

  ghost predicate Repeats(trials: seq<Answer>, i: int, j: int)
    requires 0 <= i < |trials| && 0 <= j < |trials|
  {
    && trials[i].role == REPEAT && trials[j].role == CORE && trials[i].duplicateOf == Some(trials[j].id)
    && trials[i].caseId == trials[j].caseId && trials[i].stratum == trials[j].stratum
  }

  /** Twelve core trials in the expected strata, and four repeats of four different ones. */
  ghost predicate CoreGeometry(trials: seq<Answer>) {
    && |WithRole(trials, CORE)| == 12 && |WithRole(trials, REPEAT)| == 4
    && (forall s :: |CoresIn(trials, s)| == ExpectedCount(s))
    && (forall i :: 0 <= i < |trials| && trials[i].role == REPEAT ==> RepeatsOne(trials, i))
    && RepeatsDiffer(trials)
  }

  ghost predicate RepeatsOne(trials: seq<Answer>, i: int)
    requires 0 <= i < |trials|
  {
    exists j :: 0 <= j < |trials| && Repeats(trials, i, j)
  }

  ghost predicate RepeatsDiffer(trials: seq<Answer>) {
    forall i, j :: 0 <= i < j < |trials| && trials[i].role == trials[j].role == REPEAT ==>
                     trials[i].duplicateOf != trials[j].duplicateOf
  }

  /** No other trial has the case of trial `i`. */
  ghost predicate Alone(trials: seq<Answer>, i: int)
    requires 0 <= i < |trials|
  {
    forall j :: 0 <= j < |trials| && j != i ==> trials[j].caseId != trials[i].caseId
  }

  /** Trial `i` is the core trial that trial `j` repeats. */
  ghost predicate CoreOf(trials: seq<Answer>, i: int, j: int)
    requires 0 <= i < |trials| && 0 <= j < |trials|
  {
    trials[i].role == CORE && trials[j].role == REPEAT && trials[j].duplicateOf == Some(trials[i].id)
  }

  /** Of two trials of one case the one with the smaller id is the core trial. */
  ghost predicate PairRule(trials: seq<Answer>, i: int, j: int)
    requires 0 <= i < |trials| && 0 <= j < |trials|
  {
    if Less(trials[i].id, trials[j].id) then CoreOf(trials, i, j) else CoreOf(trials, j, i)
  }

  /** Twelve cases, eight with one trial and four with two; in each the smallest trial id is the core. */
  ghost predicate CaseGeometry(trials: seq<Answer>) {
    && |CaseIds(trials)| == 12 && |CasesWith(trials, 1)| == 8 && |CasesWith(trials, 2)| == 4
    && (forall i :: 0 <= i < |trials| && Alone(trials, i) ==> trials[i].role == CORE)
    && forall i, j {:trigger PairRule(trials, i, j)} ::
         (0 <= i < |trials| && 0 <= j < |trials| && i != j && trials[i].caseId == trials[j].caseId) ==>
           PairRule(trials, i, j)
  }

  /** What `validate_answer_key` accepts. */
  ghost predicate ValidKey(key: AnswerKey, p: Protocol, h: Hashes) {
    && key.bundleId == p.bundleId && key.matrixDigest == p.matrixDigest && key.protocolDigest == h.protocol(p)
    && (key.version.RECOVERED? ==> key.version.caseCount == 12)
    && Covers(key.trials, p, key.version.RECOVERED?)
    && CoreGeometry(key.trials)
    && (key.version.RECOVERED? ==> CaseGeometry(key.trials))
  }
}
