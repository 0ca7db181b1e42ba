/** What prepared and recovered keys say of the audio is right, what a valid key is bound to, and what the scripts
    refuse. */
module Soundness {
  import opened Wrappers
  import opened Listening
  import opened Texts
  import opened Preparation
  import opened Recovery

  // ------------------------------------------------------------ formats

  /** Hexadecimal text of length `n`. */
  lemma {:induction false} HexIff(s: string, n: nat)
    ensures IsHex(s, n) <==> |s| == n && forall c :: c in s ==> c in "0123456789abcdef"
    ensures IsHex(s, 24) <==> TrialId(s)
  {
    forall k | 0 <= k < |s|
      ensures s[k] in s && (s[k] in "0123456789abcdef" <==> '0' <= s[k] <= '9' || 'a' <= s[k] <= 'f')
    {
      HexDigit(s[k]);
    }
  }

  predicate TrialId(id: string) {
    |id| == 24 && forall c :: c in id ==> c in "0123456789abcdef"
  }

  predicate IsUpper(c: char) {
    c in "ABCDEFGHIJKLMNOPQRSTUVWXYZ"
  }

  predicate IsLower(c: char) {
    c in "abcdefghijklmnopqrstuvwxyz"
  }

  predicate IsDigitOrMark(c: char) {
    c in "0123456789._+-"
  }

  lemma {:induction false} UpperIff(c: char)
    ensures IsUpper(c) <==> 'A' <= c <= 'Z'
  {
    var letters := "ABCDEFGHIJKLMNOPQRSTUVWXYZ";
    if 'A' <= c <= 'Z' {
      assert letters[c as int - 'A' as int] == c;
    }
  }

  lemma {:induction false} LowerIff(c: char)
    ensures IsLower(c) <==> 'a' <= c <= 'z'
  {
    var letters := "abcdefghijklmnopqrstuvwxyz";
    if 'a' <= c <= 'z' {
      assert letters[c as int - 'a' as int] == c;
    }
  }

  lemma {:induction false} DigitOrMarkIff(c: char)
    ensures IsDigitOrMark(c) <==> '0' <= c <= '9' || c == '.' || c == '_' || c == '+' || c == '-'
  {
    var digits := "0123456789._+-";
    if '0' <= c <= '9' {
      assert digits[c as int - '0' as int] == c;
    }
    assert digits[10] == '.' && digits[11] == '_' && digits[12] == '+' && digits[13] == '-';
  }

  predicate WellFormedId(id: string) {
    0 < |id| < 129 && forall c :: c in id ==> IsUpper(c) || IsLower(c) || IsDigitOrMark(c)
  }

  /** A case id has between one and 128 characters, all letters, digits, dots, underscores, plus or minus signs. */
  lemma {:induction false} CaseIdIff(s: string)
    ensures IsCaseId(s) <==> WellFormedId(s)
  {
    forall k | 0 <= k < |s|
      ensures s[k] in s && (IsCaseChar(s[k]) <==> IsUpper(s[k]) || IsLower(s[k]) || IsDigitOrMark(s[k]))
    {
      UpperIff(s[k]);
      LowerIff(s[k]);
      DigitOrMarkIff(s[k]);
    }
  }

  /** The strata of the two kinds of cases, for every noise and for none. */
  lemma {:induction false} ClassifyIff(c: Case)
    ensures Classify(c) == Some(PRESERVATION) <==> c.kind.CLEAN_PRESERVATION?
    ensures Classify(c) == Some(BABBLE) <==> c.kind.NOISE_MATRIX? && c.noise == Some("three-talker-babble")
    ensures Classify(c) == Some(RECORDED) <==>
            c.kind.NOISE_MATRIX? && exists rest :: c.noise == Some("freesound-" + rest)
    ensures Classify(c) == None <==> c.kind.OTHER_KIND?
  {
    assert "freesound-"[0] == 'f' && "three-talker-babble"[0] == 't';
    if c.noise.Some? && "freesound-" <= c.noise.value {
      assert c.noise.value == "freesound-" + c.noise.value[10..];
    }
  }

  /** The case found under an id is the last one of the matrix that has it. */
  lemma {:induction false} LastCaseWins(matrix: seq<Case>, id: string)
    ensures FindCase(matrix, id) == None <==> forall i :: 0 <= i < |matrix| ==> matrix[i].id != id
    ensures FindCase(matrix, id).Some? ==>
      exists i :: 0 <= i < |matrix| && FindCase(matrix, id) == Some(matrix[i]) && matrix[i].id == id
                  && forall j :: i < j < |matrix| ==> matrix[j].id != id
  {
    if matrix != [] {
      var n := |matrix| - 1;
      LastCaseWins(matrix[..n], id);
      if matrix[n].id != id && FindCase(matrix[..n], id).Some? {
        var i :| 0 <= i < n && FindCase(matrix[..n], id) == Some(matrix[..n][i]) && matrix[..n][i].id == id
            && forall j :: i < j < n ==> matrix[..n][j].id != id;
        assert forall j :: i < j < |matrix| ==> matrix[j].id != id;
      }
    }
  }

  // ------------------------------------------------------------ the audio behind an answer

  /** The file a model's output is stored in. */
  function OutputFile(m: Model): FileName {
    if m == DPDFNET then DPDFNET2 else GTCRN_WAV
  }

  /** Two different models, of the two that are compared. */
  predicate TwoSides(a: Model, b: Model) {
    (a == DPDFNET && b == GTCRN) || (a == GTCRN && b == DPDFNET)
  }

  /** The answer names the directory's case, and of each side the model whose output it plays. */
  predicate RightAnswer(matrix: seq<Case>, d: Directory, t: PublicTrial, a: Answer) {
    && a.id == t.id && a.caseId == d.name && a.stratum == t.stratum && TwoSides(a.a, a.b)
    && {CLEAN, NOISY, DPDFNET2, GTCRN_WAV} <= d.files.Keys
    && StratumOf(matrix, d) == Some(t.stratum)
    && t.reference.sha256 == d.files[CLEAN].sha256 && t.input.sha256 == d.files[NOISY].sha256
    && t.a.sha256 == d.files[OutputFile(a.a)].sha256 && t.b.sha256 == d.files[OutputFile(a.b)].sha256
  }

  lemma {:induction false} DraftIsRight(matrix: seq<Case>, d: Directory, t: PublicTrial, a: Answer)
    requires DraftsTrial(matrix, d, t, a) && ClosedAudio(d)
    ensures RightAnswer(matrix, d, t, a) && a.digests == Some((t.a.sha256, t.b.sha256))
  {
    assert {CLEAN, NOISY, DPDFNET2, GTCRN_WAV} == REQUIRED_AUDIO;
    var x, y := d.files[DPDFNET2].sha256, d.files[GTCRN_WAV].sha256;
    assert t.a.sha256 in {x, y} && t.b.sha256 in {x, y};
    assert x in {t.a.sha256, t.b.sha256} && y in {t.a.sha256, t.b.sha256};
  }

  /** A recovered key is right about every trial: its case, its stratum, and the model behind each side. */
  lemma {:induction false} RecoveredIsRight(p: Protocol, h: Hashes, matrix: seq<Case>, dirs: seq<Directory>,
          drafts: seq<Answer>, key: AnswerKey, i: nat)
    requires IsRecovered(p, h, matrix, dirs, drafts, key) && i < |p.trials|
    ensures i < |key.trials| && key.trials[i].digests == Some((p.trials[i].a.sha256, p.trials[i].b.sha256))
    ensures exists d :: 0 <= d < |dirs| && RightAnswer(matrix, dirs[d], p.trials[i], key.trials[i])
  {
    assert IsDraft(matrix, dirs, p.trials[i], drafts[i]);
    var d :| 0 <= d < |dirs| && DraftsTrial(matrix, dirs[d], p.trials[i], drafts[i]);
    DraftIsRight(matrix, dirs[d], p.trials[i], drafts[i]);
    assert Assigned(drafts, i, key.trials[i]);
    assert RightAnswer(matrix, dirs[d], p.trials[i], key.trials[i]);
  }

  /** A prepared bundle plays what its key says, and side A plays the first model unless the key swaps the sides. */
  lemma {:induction false} PreparedIsRight(k: Keying, h: Hashes, matrix: seq<Case>, dirs: seq<Directory>,
          strata: seq<Stratum>, plan: seq<Spec>, b: Bundle, i: nat)
    requires IsBundle(k, h, matrix, dirs, strata, plan, b) && i < |plan|
    ensures i < |b.key.trials| && i < |b.protocol.trials|
    ensures
      var d, t, a := dirs[plan[i].place], b.protocol.trials[i], b.key.trials[i];
      && RightAnswer(matrix, d, t, a)
      && t.reference == d.files[CLEAN] && t.input == d.files[NOISY]
      && t.a == d.files[OutputFile(a.a)] && t.b == d.files[OutputFile(a.b)]
      && (a.a == DPDFNET <==> !k.swap(a.id))
  {
    assert HasTrialAudio(dirs[plan[i].place]);
  }

  /** Directory `d` is repeated exactly when no directory of its stratum has a smaller duplicate key and none before it
      an equal one. */
  lemma {:induction false} ChosenIff(k: Keying, dirs: seq<Directory>, strata: seq<Stratum>, d: nat)
    requires |dirs| == |strata| && d < |dirs|
    ensures IsChosen(k, dirs, strata, d) <==>
            && (forall e :: 0 <= e < |dirs| && strata[e] == strata[d] ==> NotSmaller(k, dirs[e], dirs[d]))
            && forall e :: 0 <= e < d && strata[e] == strata[d] ==> !NotSmaller(k, dirs[d], dirs[e])
  {
    forall e, f ensures NotSmaller(k, e, f) <==> !DuplicateLess(k, e, f) {
    }
  }

  predicate NotSmaller(k: Keying, d: Directory, e: Directory) {
    !Less(k.duplicate(d.name), k.duplicate(e.name))
  }

  /** The trials of a bundle are in the order of their order keys, and their ids are those of the key for core or
      repeat trials. */
  lemma {:induction false} PlanIsOrdered(k: Keying, h: Hashes, matrix: seq<Case>, dirs: seq<Directory>,
          strata: seq<Stratum>, plan: seq<Spec>, b: Bundle, i: nat, j: nat)
    requires IsBundle(k, h, matrix, dirs, strata, plan, b) && i < j < |plan|
    ensures |b.key.trials| == |plan|
    ensures !Less(k.order(b.key.trials[j].id), k.order(b.key.trials[i].id))
    ensures b.key.trials[i].id ==
            if b.key.trials[i].role.CORE? then k.core(b.key.trials[i].caseId) else k.repeat(b.key.trials[i].caseId)
    ensures b.key.trials[i].duplicateOf ==
            if b.key.trials[i].role.CORE? then None else Some(k.core(b.key.trials[i].caseId))
  {
    assert InOrder(k, plan[i], plan[j]);
  }

  // ------------------------------------------------------------ what recovery refuses

  /** Not a mono recording at 48 kHz with samples in it. */
  predicate Unplayable(r: Record) {
    r.rate != 48000 || r.channels != 1 || r.frames == 0
  }

  /** What may be wrong with a candidate directory. */
  ghost predicate Flawed(d: Directory) {
    || (exists f :: f in [CLEAN, NOISY, DPDFNET2, GTCRN_WAV] && f !in d.files)
    || (exists f :: f in d.files && f.OTHER_FILE?)
    || (exists f :: f in d.files && Unplayable(d.files[f]))
    || (exists f, g :: f in d.files && g in d.files && d.files[f].frames != d.files[g].frames)
    || (DPDFNET2 in d.files && GTCRN_WAV in d.files && d.files[DPDFNET2].sha256 == d.files[GTCRN_WAV].sha256)
  }

  lemma {:induction false} ClosedIff(d: Directory)
    ensures ClosedAudio(d) <==> !Flawed(d)
  {
    assert forall f :: f in [CLEAN, NOISY, DPDFNET2, GTCRN_WAV] <==> f in REQUIRED_AUDIO;
    assert forall f: FileName :: f in EXPECTED_AUDIO <==> !f.OTHER_FILE?;
    if !Flawed(d) {
      assert CLEAN in [CLEAN, NOISY, DPDFNET2, GTCRN_WAV];
      assert CLEAN in d.files;
    }
  }

  /** A trial that cannot be played. */
  predicate Silent(t: PublicTrial) {
    Unplayable(t.reference) || Unplayable(t.input) || Unplayable(t.a) || Unplayable(t.b)
  }

  predicate SameInputs(d: Directory, e: Directory) {
    && CLEAN in d.files && NOISY in d.files && CLEAN in e.files && NOISY in e.files
    && d.files[CLEAN].sha256 == e.files[CLEAN].sha256 && d.files[NOISY].sha256 == e.files[NOISY].sha256
  }

  /** No key is recovered when a trial cannot be played or has an id that is no text of 24 hexadecimal digits, when a
      case of the matrix has an ill-formed or a repeated id, when a candidate directory is flawed, or when two
      candidates have the same clean and noisy audio. */
  lemma {:induction false} RefusedFor(p: Protocol, h: Hashes, matrix: seq<Case>, dirs: seq<Directory>,
          drafts: seq<Answer>, key: AnswerKey)
    requires IsRecovered(p, h, matrix, dirs, drafts, key)
    ensures |p.trials| == 16 && |dirs| == 12 && p.matrixDigest == h.matrix(matrix)
    ensures forall i :: 0 <= i < |p.trials| ==> !Silent(p.trials[i]) && TrialId(p.trials[i].id)
    ensures forall i, j :: 0 <= i < j < |p.trials| ==> p.trials[i].id != p.trials[j].id
    ensures forall i :: 0 <= i < |matrix| ==> WellFormedId(matrix[i].id)
    ensures forall i, j :: 0 <= i < j < |matrix| ==> matrix[i].id != matrix[j].id
    ensures forall d :: 0 <= d < |dirs| ==> !Flawed(dirs[d])
    ensures forall d, e :: 0 <= d < e < |dirs| ==> !SameInputs(dirs[d], dirs[e])
  {
    forall i | 0 <= i < |p.trials| ensures !Silent(p.trials[i]) && TrialId(p.trials[i].id) {
      HexIff(p.trials[i].id, 24);
    }
    forall i | 0 <= i < |matrix| ensures WellFormedId(matrix[i].id) {
      CaseIdIff(matrix[i].id);
    }
    forall d | 0 <= d < |dirs| ensures !Flawed(dirs[d]) {
      ClosedIff(dirs[d]);
    }
    forall d, e | 0 <= d < e < |dirs| ensures !SameInputs(dirs[d], dirs[e]) {
      assert InputsOf(dirs[d]) != InputsOf(dirs[e]);
    }
  }

  // ------------------------------------------------------------ what a valid key is bound to

  /** Two answers that agree in all that the public trial fixes. */
  predicate AnswersAlike(a: Answer, b: Answer) {
    && a.stratum == b.stratum && a.digests == b.digests
    && TwoSides(a.a, a.b) && TwoSides(b.a, b.b)
    && (a.role == CORE <==> a.duplicateOf.None?) && (b.role == CORE <==> b.duplicateOf.None?)
  }

  lemma {:induction false} SameTrial(a: Answer, b: Answer, p: Protocol, recovered: bool)
    requires AnswersOne(a, p, recovered) && AnswersOne(b, p, recovered) && DistinctIds(p.trials) && a.id == b.id
    ensures AnswersAlike(a, b)
  {
    var i :| 0 <= i < |p.trials| && AnswersTrial(a, p.trials[i], recovered);
    var j :| 0 <= j < |p.trials| && AnswersTrial(b, p.trials[j], recovered);
    assert i == j;
    ModelsAre(a.a, a.b);
    ModelsAre(b.a, b.b);
  }

  lemma {:induction false} ModelsAre(a: Model, b: Model)
    requires {a, b} == {DPDFNET, GTCRN}
    ensures TwoSides(a, b)
  {
    assert a in {DPDFNET, GTCRN} && b in {DPDFNET, GTCRN};
    assert DPDFNET in {a, b} && GTCRN in {a, b};
  }

  /** Two valid keys of one version are bound to one protocol, and differ in nothing that a public trial fixes: only in
      the cases, the sides of the models and the roles. */
  lemma {:induction false} ValidKeysAgree(x: AnswerKey, y: AnswerKey, p: Protocol, h: Hashes, i: nat, j: nat)
    requires ValidKey(x, p, h) && ValidKey(y, p, h) && x.version.RECOVERED? == y.version.RECOVERED?
    requires DistinctIds(p.trials) && i < |x.trials| && j < |y.trials| && x.trials[i].id == y.trials[j].id
    ensures x.version == y.version && x.bundleId == y.bundleId && x.matrixDigest == y.matrixDigest
    ensures x.protocolDigest == y.protocolDigest && |x.trials| == |y.trials|
    ensures AnswersAlike(x.trials[i], y.trials[j])
  {
    SameTrial(x.trials[i], y.trials[j], p, x.version.RECOVERED?);
  }
}
