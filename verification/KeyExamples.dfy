/** A bundle whose recovered key does not score as the prepared one: twelve directories in the expected strata, and
    trial ids among which every repeat has a smaller one than the trial it repeats. */
module KeyExamples {
  import opened Wrappers
  import opened Listening
  import opened Texts
  import opened Preparation
  import opened Recovery
  import opened RoundTrip
  import opened KeyRoles

  // ------------------------------------------------------------ names and digests

  /** `n` ones and then zeros. */
  function Digits(width: nat, n: int): (s: string)
    ensures |s| == width && forall i :: 0 <= i < width ==> s[i] == if i < n then '1' else '0'
  {
    seq(width, i => if i < n then '1' else '0')
  }

  lemma {:induction false} DigitsLess(width: nat, m: nat, n: nat)
    requires m < n <= width
    ensures Less(Digits(width, m), Digits(width, n))
  {
    if m > 0 {
      DigitsLess(width - 1, m - 1, n - 1);
      assert Digits(width, m)[1..] == Digits(width - 1, m - 1);
      assert Digits(width, n)[1..] == Digits(width - 1, n - 1);
    }
  }

  lemma {:induction false} DigitsDiffer(width: nat, m: nat, n: nat)
    requires m <= width && n <= width && m != n
    ensures Digits(width, m) != Digits(width, n)
  {
    if m < n {
      assert Digits(width, m)[m] != Digits(width, n)[m];
    } else {
      assert Digits(width, m)[n] != Digits(width, n)[n];
    }
  }

  function Label(d: nat): (s: string)
    ensures |s| == d + 1 && forall i :: 0 <= i < |s| ==> s[i] == 'a'
  {
    seq(d + 1, i => 'a')
  }

  lemma {:induction false} LabelLess(d: nat, e: nat)
    requires d < e
    ensures Less(Label(d), Label(e))
  {
    if d > 0 {
      LabelLess(d - 1, e - 1);
      assert Label(d)[1..] == Label(d - 1) && Label(e)[1..] == Label(e - 1);
    } else {
      assert Label(d)[1..] == "" && Label(e)[1..] != "";
    }
  }

  // ------------------------------------------------------------ cases and directories

  function StratumAt(d: int): Stratum {
    if d < 4 then RECORDED else if d < 7 then BABBLE else if d < 10 then PRESERVATION else SYNTHETIC
  }

  function CaseAt(d: nat): Case {
    match StratumAt(d)
    case RECORDED => Case(Label(d), NOISE_MATRIX, Some("freesound-rain"))
    case BABBLE => Case(Label(d), NOISE_MATRIX, Some("three-talker-babble"))
    case PRESERVATION => Case(Label(d), CLEAN_PRESERVATION, None)
    case SYNTHETIC => Case(Label(d), NOISE_MATRIX, Some("pink"))
  }

  function Cases(): (r: seq<Case>)
    ensures |r| == 12 && forall d :: 0 <= d < 12 ==> r[d] == CaseAt(d)
  {
    seq(12, d requires 0 <= d < 12 => CaseAt(d))
  }

  /** One second of mono audio; its digest tells the files of all directories apart. */
  function Recording(n: nat): Record {
    Record(Digits(64, n), 96044, 48000, 1, 48000)
  }

  function FilesAt(d: nat): map<FileName, Record> {
    map[CLEAN := Recording(4 * d), NOISY := Recording(4 * d + 1), DPDFNET2 := Recording(4 * d + 2),
        GTCRN_WAV := Recording(4 * d + 3)]
  }

  function Directories(): (r: seq<Directory>)
    ensures |r| == 12 && forall d :: 0 <= d < 12 ==> r[d] == Directory(Label(d), FilesAt(d))
  {
    seq(12, d requires 0 <= d < 12 => Directory(Label(d), FilesAt(d)))
  }

  function Strata12(): (r: seq<Stratum>)
    ensures |r| == 12 && forall d :: 0 <= d < 12 ==> r[d] == StratumAt(d)
  {
    seq(12, d requires 0 <= d < 12 => StratumAt(d))
  }

  lemma {:induction false} CaseIdsDiffer()
    ensures MatrixIds(Cases())
  {
    forall i, j | 0 <= i < j < 12 ensures Cases()[i].id != Cases()[j].id {
      assert |Label(i)| != |Label(j)|;
    }
    forall i | 0 <= i < 12 ensures IsCaseId(Cases()[i].id) {
      assert |Label(i)| == i + 1;
    }
  }

  lemma {:induction false} FindUnique(matrix: seq<Case>, i: nat)
    requires i < |matrix| && forall i, j :: 0 <= i < j < |matrix| ==> matrix[i].id != matrix[j].id
    ensures FindCase(matrix, matrix[i].id) == Some(matrix[i])
  {
    var n := |matrix| - 1;
    if i < n {
      FindUnique(matrix[..n], i);
    }
  }

  lemma {:induction false} ClassifyAt(d: nat)
    ensures Classify(CaseAt(d)) == Some(StratumAt(d))
  {
    assert "freesound-" <= "freesound-rain";
    assert "pink"[0] != "freesound-"[0] && "pink"[0] != "three-talker-babble"[0];
    assert "freesound-rain"[0] != "three-talker-babble"[0];
  }

  lemma {:induction false} DirectoryStratum(d: nat)
    requires d < 12
    ensures FindCase(Cases(), Directories()[d].name) == Some(CaseAt(d))
    ensures StratumOf(Cases(), Directories()[d]) == Some(Strata12()[d])
  {
    CaseIdsDiffer();
    FindUnique(Cases(), d);
    ClassifyAt(d);
  }

  lemma {:induction false} DirectoryAudio(d: nat)
    requires d < 12
    ensures HasTrialAudio(Directories()[d]) && ClosedAudio(Directories()[d])
  {
    DigitsDiffer(64, 4 * d + 2, 4 * d + 3);
  }

  lemma {:induction false} DirectoriesApart()
    ensures Candidates(Cases(), Directories())
  {
    CaseIdsDiffer();
    forall d: nat | d < 12 ensures FindCase(Cases(), Directories()[d].name).Some? && ClosedAudio(Directories()[d]) {
      DirectoryStratum(d);
      DirectoryAudio(d);
    }
    forall d: nat, e: nat | d < e < 12 ensures InputsOf(Directories()[d]) != InputsOf(Directories()[e]) {
      DigitsDiffer(64, 4 * d, 4 * e);
    }
  }

  lemma {:induction false} NamesListed()
    ensures Listing(Directories())
  {
    forall d: nat, e: nat | d < e < 12 ensures Less(Directories()[d].name, Directories()[e].name) {
      LabelLess(d, e);
    }
  }

  lemma {:induction false} StrataCounted(s: Stratum)
    ensures |InStratum(Strata12(), s)| == ExpectedCount(s)
  {
    var part := match s
      case RECORDED => {0, 1, 2, 3}
      case BABBLE => {4, 5, 6}
      case PRESERVATION => {7, 8, 9}
      case SYNTHETIC => {10, 11};
    forall d ensures d in InStratum(Strata12(), s) <==> d in part {
      InPart(d, s);
    }
    assert InStratum(Strata12(), s) == part;
  }

  lemma {:induction false} InPart(d: int, s: Stratum)
    ensures 0 <= d < 12 && StratumAt(d) == s <==>
      d in match s
        case RECORDED => {0, 1, 2, 3}
        case BABBLE => {4, 5, 6}
        case PRESERVATION => {7, 8, 9}
        case SYNTHETIC => {10, 11}
  {
  }

  // ------------------------------------------------------------ the trials

  /** One key under which the first directory of a stratum is chosen and its repeat gets the smaller id. */
  function Keys(): Keying {
    Keying(id => "0", id => Digits(24, 2 * |id| - 1), id => Digits(24, 2 * |id| - 2), id => "0", id => false,
           s => "bundle")
  }

  predicate IsFirst(d: int) {
    d == 0 || d == 4 || d == 7 || d == 10
  }

  /** The directory of trial `i`: all twelve once, and then the first of every stratum again. */
  function PlaceOf(i: nat): nat {
    if i < 12 then i else if i == 12 then 0 else if i == 13 then 4 else if i == 14 then 7 else 10
  }

  function SpecAt(i: nat): Spec {
    if i < 12 then Spec(Digits(24, 2 * i + 1), i, CORE) else Spec(Digits(24, 2 * PlaceOf(i)), PlaceOf(i), REPEAT)
  }

  function Plan(): (r: seq<Spec>)
    ensures |r| == 16 && forall i :: 0 <= i < 16 ==> r[i] == SpecAt(i)
  {
    seq(16, i requires 0 <= i < 16 => SpecAt(i))
  }

  lemma {:induction false} ChosenAre(d: nat)
    requires d < 12
    ensures IsChosen(Keys(), Directories(), Strata12(), d) <==> IsFirst(d)
  {
    forall e: nat, f: nat | e < 12 && f < 12 ensures !DuplicateLess(Keys(), Directories()[e], Directories()[f]) {
      LessTotal("0", "0");
    }
    if !IsFirst(d) {
      assert Strata12()[d - 1] == Strata12()[d];
      assert !DuplicateLess(Keys(), Directories()[d], Directories()[d - 1]);
    }
  }

  lemma {:induction false} SpecIds(i: nat)
    requires i < 16
    ensures Plan()[i].place < 12 && Plan()[i].id == IdOf(Keys(), Directories(), Plan()[i])
  {
  }

  lemma {:induction false} SpecIdsDiffer(i: nat, j: nat)
    requires i < j < 16
    ensures Plan()[i].id != Plan()[j].id
  {
    var m, n := if i < 12 then 2 * i + 1 else 2 * PlaceOf(i), if j < 12 then 2 * j + 1 else 2 * PlaceOf(j);
    DigitsDiffer(24, m, n);
  }

  lemma {:induction false} PlanRepeats(d: nat)
    requires d < 12
    ensures HasCore(Keys(), Directories(), Plan(), d)
    ensures HasRepeat(Keys(), Directories(), Plan(), d) <==> IsFirst(d)
  {
    assert Plan()[d] == SpecAt(d);
    if IsFirst(d) {
      var i := if d == 0 then 12 else if d == 4 then 13 else if d == 7 then 14 else 15;
      assert Plan()[i] == SpecAt(i);
    }
  }

  lemma {:induction false} PlanOrdered()
    ensures Ordered(Keys(), Plan())
  {
    forall x: Spec, y: Spec ensures InOrder(Keys(), x, y) {
      LessTotal("0", "0");
    }
  }

  lemma {:induction false} PlanIsPlan()
    ensures IsPlan(Keys(), Directories(), Strata12(), Plan())
  {
    PlanOrdered();
    forall i: nat | i < 16
      ensures Plan()[i].place < 12 && Plan()[i].id == IdOf(Keys(), Directories(), Plan()[i])
    {
      SpecIds(i);
    }
    forall i: nat, j: nat | i < j < 16 ensures Plan()[i].id != Plan()[j].id {
      SpecIdsDiffer(i, j);
    }
    forall d: nat | d < 12
      ensures HasCore(Keys(), Directories(), Plan(), d)
      ensures HasRepeat(Keys(), Directories(), Plan(), d) <==> IsChosen(Keys(), Directories(), Strata12(), d)
    {
      PlanRepeats(d);
      ChosenAre(d);
    }
  }

  // ------------------------------------------------------------ the bundle

  function PublicTrials(): (r: seq<PublicTrial>)
    ensures |r| == 16
    ensures forall i :: 0 <= i < 16 ==>
        && Plan()[i].place < 12 && HasTrialAudio(Directories()[Plan()[i].place])
        && r[i] == PublicOf(Keys(), Directories(), Strata12(), Plan()[i])
  {
    AudioEverywhere();
    seq(16, i requires 0 <= i < 16 => PublicOf(Keys(), Directories(), Strata12(), Plan()[i]))
  }

  function PrivateTrials(): (r: seq<Answer>)
    ensures |r| == 16
    ensures forall i :: 0 <= i < 16 ==>
        Plan()[i].place < 12 && r[i] == PrivateOf(Keys(), Directories(), Strata12(), Plan()[i])
  {
    AudioEverywhere();
    seq(16, i requires 0 <= i < 16 => PrivateOf(Keys(), Directories(), Strata12(), Plan()[i]))
  }

  lemma {:induction false} AudioEverywhere()
    ensures forall i :: 0 <= i < 16 ==> Plan()[i].place < 12 && HasTrialAudio(Directories()[Plan()[i].place])
    ensures forall d :: 0 <= d < 12 ==> HasTrialAudio(Directories()[d])
  {
    forall i: nat | i < 16 ensures Plan()[i].place < 12 && HasTrialAudio(Directories()[Plan()[i].place]) {
      SpecIds(i);
      DirectoryAudio(Plan()[i].place);
    }
    forall d: nat | d < 12 ensures HasTrialAudio(Directories()[d]) {
      DirectoryAudio(d);
    }
  }

  function BundleOf(k: Keying, h: Hashes, matrix: seq<Case>, publicTrials: seq<PublicTrial>,
          privateTrials: seq<Answer>): Bundle
  {
    var p := Protocol(k.bundle(h.matrix(matrix)), h.matrix(matrix), publicTrials);
    Bundle(p, AnswerKey(PREPARED, p.bundleId, p.matrixDigest, h.protocol(p), privateTrials))
  }

  function BundleFor(h: Hashes): Bundle {
    BundleOf(Keys(), h, Cases(), PublicTrials(), PrivateTrials())
  }

  lemma {:induction false} Assembled(k: Keying, h: Hashes, matrix: seq<Case>, dirs: seq<Directory>,
          strata: seq<Stratum>, plan: seq<Spec>, publicTrials: seq<PublicTrial>, privateTrials: seq<Answer>)
    requires Hexadecimal(k) && Listing(dirs) && |dirs| == |strata| == 12 && IsPlan(k, dirs, strata, plan)
    requires forall d :: 0 <= d < |dirs| ==> StratumOf(matrix, dirs[d]) == Some(strata[d]) && HasTrialAudio(dirs[d])
    requires forall s :: |InStratum(strata, s)| == ExpectedCount(s)
    requires |publicTrials| == |privateTrials| == |plan|
    requires forall i :: 0 <= i < |plan| ==> publicTrials[i] == PublicOf(k, dirs, strata, plan[i])
    requires forall i :: 0 <= i < |plan| ==> privateTrials[i] == PrivateOf(k, dirs, strata, plan[i])
    ensures Prepared(k, h, matrix, dirs, strata, plan, BundleOf(k, h, matrix, publicTrials, privateTrials))
  {
  }

  lemma {:induction false} StrataExpected()
    ensures forall d :: 0 <= d < 12 ==> StratumOf(Cases(), Directories()[d]) == Some(Strata12()[d])
    ensures forall s :: |InStratum(Strata12(), s)| == ExpectedCount(s)
  {
    forall d: nat | d < 12 ensures StratumOf(Cases(), Directories()[d]) == Some(Strata12()[d]) {
      DirectoryStratum(d);
    }
    forall s ensures |InStratum(Strata12(), s)| == ExpectedCount(s) {
      StrataCounted(s);
    }
  }

  /** The prepare script makes this bundle. */
  lemma {:induction false} BundleIsPrepared(h: Hashes)
    ensures Prepared(Keys(), h, Cases(), Directories(), Strata12(), Plan(), BundleFor(h))
  {
    NamesListed();
    AudioEverywhere();
    StrataExpected();
    PlanIsPlan();
    HexadecimalKeys();
    Assembled(Keys(), h, Cases(), Directories(), Strata12(), Plan(), PublicTrials(), PrivateTrials());
  }

  lemma {:induction false} HexadecimalKeys()
    ensures Hexadecimal(Keys())
  {
  }

  /** The recover script finds a key for it. */
  lemma {:induction false} BundleIsRecovered(h: Hashes) returns (drafts: seq<Answer>, key: AnswerKey)
    ensures IsRecovered(BundleFor(h).protocol, h, Cases(), Directories(), drafts, key)
  {
    BundleIsPrepared(h);
    DirectoriesApart();
    RecoverableIff(Keys(), h, Cases(), Directories(), Strata12(), Plan(), BundleFor(h));
    drafts, key :| IsRecovered(BundleFor(h).protocol, h, Cases(), Directories(), drafts, key);
  }

  lemma {:induction false} InvertedAt(d: nat)
    requires d < 12
    ensures d in Inverted(Keys(), Directories(), Strata12()) <==> IsFirst(d)
  {
    ChosenAre(d);
    DigitsLess(24, 2 * d, 2 * d + 1);
    assert Keys().core(Directories()[d].name) == Digits(24, 2 * d + 1);
    assert Keys().repeat(Directories()[d].name) == Digits(24, 2 * d);
    assert d in Span(12);
  }

  lemma {:induction false} TwoInverted()
    ensures |Inverted(Keys(), Directories(), Strata12())| >= 2
  {
    InvertedAt(0);
    InvertedAt(4);
    TwoMembers(Inverted(Keys(), Directories(), Strata12()), 0, 4);
  }

  lemma {:induction false} TwoMembers(s: set<int>, d: int, e: int)
    requires d in s && e in s && d != e
    ensures |s| >= 2
  {
    assert |{d, e}| == 2;
    SubsetSize({d, e}, s);
  }

  /** A bundle that the scripts prepare and recover, whose keys are valid and score some ballots a sixth apart and
      give others the opposite verdict. */
  lemma {:induction false} RecoveredKeyDiffers(h: Hashes) returns (b: Bundle, key: AnswerKey)
    ensures Makes(Keys(), h, Cases(), Directories(), b) && Recovers(b.protocol, h, Cases(), Directories(), key)
    ensures ValidKey(b.key, b.protocol, h) && ValidKey(key, b.protocol, h)
    ensures ScoresSixthApart(b.key.trials, key.trials) && VerdictsDiffer(b.key.trials, key.trials)
  {
    b := BundleFor(h);
    var drafts;
    drafts, key := BundleIsRecovered(h);
    BundleIsPrepared(h);
    TwoInverted();
    InvertedBundleDiffers(Keys(), h, Cases(), Directories(), Strata12(), Plan(), b, drafts, key);
  }
}
