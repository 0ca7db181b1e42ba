/** Preparing a blind-listening bundle: choosing the repeats, naming and ordering the trials, and assigning
    the sides, for every randomization key. */
module Preparation {
  import opened Wrappers
  import opened Listening
  import opened Texts
  import Sorting

  /** The HMAC under the randomization key, one function per label; nothing is assumed of it except that a
      trial id is 24 hexadecimal digits. Bytes are compared through their hexadecimal text. */
  datatype Keying = Keying(
    duplicate: string -> string,
    core: string -> string,
    repeat: string -> string,
    order: string -> string,
    swap: string -> bool,
    bundle: string -> string)

  ghost predicate Hexadecimal(k: Keying) {
    forall id :: IsHex(k.core(id), 24) && IsHex(k.repeat(id), 24)
  }

  datatype BundleError = UnknownCase(name: string) | UnsupportedKind(name: string) | StrataDiffer
      | MissingAudio(name: string) | TrialCollision(id: string)

  datatype Bundle = Bundle(protocol: Protocol, key: AnswerKey)

  /** A trial before its audio is copied: the directory it plays and its role. */
  datatype Spec = Spec(id: string, place: nat, role: Role)

  /** `{case["id"]: case for case in cases}`: the last case with an id wins. */
  function FindCase(matrix: seq<Case>, id: string): Option<Case> {
    if matrix == [] then None
    else
      var last := matrix[|matrix| - 1];
      if last.id == id then Some(last) else FindCase(matrix[..|matrix| - 1], id)
  }

  function StratumOf(matrix: seq<Case>, d: Directory): Option<Stratum> {
    match FindCase(matrix, d.name)
    case None => None
    case Some(c) => Classify(c)
  }

  /** The listing of the audio directory in name order. */
  ghost predicate Listing(dirs: seq<Directory>) {
    forall d, e {:trigger Less(dirs[d].name, dirs[e].name)} :: 0 <= d < e < |dirs| ==> Less(dirs[d].name, dirs[e].name)
  }

  function NameList(dirs: seq<Directory>): (r: seq<string>)
    ensures |r| == |dirs| && forall d :: 0 <= d < |r| ==> r[d] == dirs[d].name
  {
    seq(|dirs|, d requires 0 <= d < |dirs| => dirs[d].name)
  }

  ghost function InStratum(strata: seq<Stratum>, s: Stratum): set<int> {
    set d | 0 <= d < |strata| && strata[d] == s
  }

  predicate HasTrialAudio(d: Directory) {
    && CLEAN in d.files && NOISY in d.files && DPDFNET2 in d.files && GTCRN_WAV in d.files
    && Playable(d.files[CLEAN]) && Playable(d.files[NOISY]) && Playable(d.files[DPDFNET2])
        && Playable(d.files[GTCRN_WAV])
  }

  function IdOf(k: Keying, dirs: seq<Directory>, s: Spec): string
    requires s.place < |dirs|
  {
    if s.role == CORE then k.core(dirs[s.place].name) else k.repeat(dirs[s.place].name)
  }

  function PublicOf(k: Keying, dirs: seq<Directory>, strata: seq<Stratum>, s: Spec): PublicTrial
    requires s.place < |dirs| == |strata| && HasTrialAudio(dirs[s.place])
  {
    var f := dirs[s.place].files;
    var a, b := if k.swap(s.id) then GTCRN_WAV else DPDFNET2, if k.swap(s.id) then DPDFNET2 else GTCRN_WAV;
    PublicTrial(s.id, strata[s.place], f[CLEAN], f[NOISY], f[a], f[b])
  }

  function PrivateOf(k: Keying, dirs: seq<Directory>, strata: seq<Stratum>, s: Spec): Answer
    requires s.place < |dirs| == |strata|
  {
    Answer(s.id, dirs[s.place].name, strata[s.place], s.role,
           if s.role == REPEAT then Some(k.core(dirs[s.place].name)) else None,
           if k.swap(s.id) then GTCRN else DPDFNET, if k.swap(s.id) then DPDFNET else GTCRN, None)
  }

  predicate DuplicateLess(k: Keying, d: Directory, e: Directory) {
    Less(k.duplicate(d.name), k.duplicate(e.name))
  }

  /** `d` is the first directory of its stratum with the smallest duplicate key. */
  ghost predicate IsChosen(k: Keying, dirs: seq<Directory>, strata: seq<Stratum>, d: int)
    requires |dirs| == |strata|
  {
    && 0 <= d < |dirs|
    && (forall e {:trigger DuplicateLess(k, dirs[e], dirs[d])} :: 0 <= e < |dirs| && strata[e] == strata[d] ==>
        !DuplicateLess(k, dirs[e], dirs[d]))
    && (forall e {:trigger DuplicateLess(k, dirs[d], dirs[e])} :: 0 <= e < d && strata[e] == strata[d] ==>
        DuplicateLess(k, dirs[d], dirs[e]))
  }

  ghost predicate Ordered(k: Keying, specs: seq<Spec>) {
    forall i, j {:trigger InOrder(k, specs[i], specs[j])} :: 0 <= i < j < |specs| ==> InOrder(k, specs[i], specs[j])
  }

  predicate InOrder(k: Keying, x: Spec, y: Spec) {
    !Less(k.order(y.id), k.order(x.id))
  }

  ghost predicate HasCore(k: Keying, dirs: seq<Directory>, plan: seq<Spec>, d: nat)
    requires d < |dirs|
  {
    Spec(k.core(dirs[d].name), d, CORE) in plan
  }

  ghost predicate HasRepeat(k: Keying, dirs: seq<Directory>, plan: seq<Spec>, d: nat)
    requires d < |dirs|
  {
    Spec(k.repeat(dirs[d].name), d, REPEAT) in plan
  }

  /** The trials of a bundle: a core trial for every directory, a repeat for the chosen one of each stratum,
      nothing else, in the order of their order keys and with distinct ids. */
  ghost predicate IsPlan(k: Keying, dirs: seq<Directory>, strata: seq<Stratum>, plan: seq<Spec>)
    requires |dirs| == |strata|
  {
    && |plan| == 16
    && (forall i :: 0 <= i < |plan| ==> plan[i].place < |dirs| && plan[i].id == IdOf(k, dirs, plan[i]))
    && (forall i, j :: 0 <= i < j < |plan| ==> plan[i].id != plan[j].id)
    && (forall d: nat :: d < |dirs| ==> HasCore(k, dirs, plan, d))
    && (forall d: nat {:trigger HasRepeat(k, dirs, plan, d)} :: d < |dirs| ==>
        (HasRepeat(k, dirs, plan, d) <==> IsChosen(k, dirs, strata, d)))
    && Ordered(k, plan)
  }

  /** What the prepare script leaves behind. */
  ghost predicate IsBundle(k: Keying, h: Hashes, matrix: seq<Case>, dirs: seq<Directory>, strata: seq<Stratum>,
          plan: seq<Spec>, b: Bundle) {
    && |dirs| == |strata| == 12
    && (forall d :: 0 <= d < |dirs| ==> StratumOf(matrix, dirs[d]) == Some(strata[d]) && HasTrialAudio(dirs[d]))
    && (forall s :: |InStratum(strata, s)| == ExpectedCount(s))
    && IsPlan(k, dirs, strata, plan)
    && b.protocol.matrixDigest == h.matrix(matrix) && b.protocol.bundleId == k.bundle(h.matrix(matrix))
    && |b.protocol.trials| == |plan|
    && (forall i :: 0 <= i < |plan| ==> b.protocol.trials[i] == PublicOf(k, dirs, strata, plan[i]))
    && b.key == AnswerKey(PREPARED, b.protocol.bundleId, b.protocol.matrixDigest, h.protocol(b.protocol), b.key.trials)
    && |b.key.trials| == |plan|
    && (forall i :: 0 <= i < |plan| ==> b.key.trials[i] == PrivateOf(k, dirs, strata, plan[i]))
  }

  /** Some drawing makes this bundle. */
  ghost predicate Makes(k: Keying, h: Hashes, matrix: seq<Case>, dirs: seq<Directory>, b: Bundle) {
    exists strata, plan :: IsBundle(k, h, matrix, dirs, strata, plan, b)
  }

  lemma {:induction false} ByDrawing(k: Keying, h: Hashes, matrix: seq<Case>, dirs: seq<Directory>,
          strata: seq<Stratum>,
          plan: seq<Spec>, b: Bundle)
    requires IsBundle(k, h, matrix, dirs, strata, plan, b)
    ensures Makes(k, h, matrix, dirs, b)
  {
  }

  // ------------------------------------------------------------ the script

  /** Looks up and classifies every directory. */
  method SelectCases(matrix: seq<Case>, dirs: seq<Directory>) returns (r: Result<seq<Stratum>, BundleError>)
    ensures r.Ok? ==> |r.value| == |dirs| && forall d :: 0 <= d < |dirs| ==>
        StratumOf(matrix, dirs[d]) == Some(r.value[d])
    ensures r.Err? ==> exists d :: 0 <= d < |dirs| && StratumOf(matrix, dirs[d]) == None
  {
    var strata := [];
    for d := 0 to |dirs|
      invariant |strata| == d && forall e :: 0 <= e < d ==> StratumOf(matrix, dirs[e]) == Some(strata[e])
    {
      var found := FindCase(matrix, dirs[d].name);
      if found == None {
        return Err(UnknownCase(dirs[d].name));
      }
      var stratum := Classify(found.value);
      if stratum == None {
        return Err(UnsupportedKind(dirs[d].name));
      }
      strata := strata + [stratum.value];
    }
    r := Ok(strata);
  }

  method CountStratum(strata: seq<Stratum>, s: Stratum) returns (n: nat)
    ensures n == |InStratum(strata, s)|
  {
    n := 0;
    ghost var seen: set<int> := {};
    for d := 0 to |strata|
      invariant seen == (set e | 0 <= e < d && strata[e] == s) && n == |seen|
    {
      if strata[d] == s {
        n := n + 1;
        seen := seen + {d};
      }
    }
    assert seen == InStratum(strata, s);
  }

  /** The first directory of a stratum with the smallest duplicate key. */
  method ChooseRepeat(k: Keying, dirs: seq<Directory>, strata: seq<Stratum>, s: Stratum) returns (best: nat)
    requires |dirs| == |strata| && s in strata
    ensures best < |dirs| && strata[best] == s && IsChosen(k, dirs, strata, best)
  {
    var found := false;
    best := 0;
    for d := 0 to |dirs|
      invariant found <==> exists e :: 0 <= e < d && strata[e] == s
      invariant found ==> best < d && strata[best] == s
      invariant found ==> forall e :: 0 <= e < d && strata[e] == s ==> !DuplicateLess(k, dirs[e], dirs[best])
      invariant found ==> forall e :: 0 <= e < best && strata[e] == s ==> DuplicateLess(k, dirs[best], dirs[e])
    {
      if strata[d] == s && (!found || DuplicateLess(k, dirs[d], dirs[best])) {
        if found {
          BetterIsBest(k, dirs, strata, s, best, d);
        }
        LessTotal(k.duplicate(dirs[d].name), k.duplicate(dirs[d].name));
        best := d;
        found := true;
      }
    }
  }

  lemma {:induction false} BetterIsBest(k: Keying, dirs: seq<Directory>, strata: seq<Stratum>, s: Stratum, best: nat,
          d: nat)
    requires |dirs| == |strata| && best < d < |dirs|
    requires forall e :: 0 <= e < d && strata[e] == s ==> !DuplicateLess(k, dirs[e], dirs[best])
    requires DuplicateLess(k, dirs[d], dirs[best])
    ensures forall e :: 0 <= e < d && strata[e] == s ==>
        DuplicateLess(k, dirs[d], dirs[e]) && !DuplicateLess(k, dirs[e], dirs[d])
  {
    forall e | 0 <= e < d && strata[e] == s
      ensures DuplicateLess(k, dirs[d], dirs[e]) && !DuplicateLess(k, dirs[e], dirs[d])
    {
      var x, y, z := k.duplicate(dirs[d].name), k.duplicate(dirs[best].name), k.duplicate(dirs[e].name);
      LessTotal(y, z);
      if y != z {
        LessTransitive(x, y, z);
      }
      LessTotal(x, z);
    }
  }

  /** Two chosen directories of one stratum are the same. */
  lemma {:induction false} ChosenOnce(k: Keying, dirs: seq<Directory>, strata: seq<Stratum>, d: int, e: int)
    requires |dirs| == |strata| && IsChosen(k, dirs, strata, d) && IsChosen(k, dirs, strata, e)
        && strata[d] == strata[e]
    ensures d == e
  {
    assert !DuplicateLess(k, dirs[d], dirs[e]) && !DuplicateLess(k, dirs[e], dirs[d]);
  }

  function SpecsOf(k: Keying, dirs: seq<Directory>, d: nat, repeated: set<nat>): seq<Spec>
    requires d < |dirs|
  {
    [Spec(k.core(dirs[d].name), d, CORE)] + if d in repeated then [Spec(k.repeat(dirs[d].name), d, REPEAT)] else []
  }

  /** The core and repeat trials before they are ordered. */
  method DrawSpecs(k: Keying, dirs: seq<Directory>, repeated: set<nat>) returns (specs: seq<Spec>)
    requires forall d :: d in repeated ==> d < |dirs|
    ensures |specs| == |dirs| + |repeated|
    ensures forall x :: x in specs <==> x.place < |dirs| && x in SpecsOf(k, dirs, x.place, repeated)
    ensures forall i, j :: 0 <= i < j < |specs| ==> specs[i] != specs[j]
  {
    specs := [];
    ghost var done: set<nat> := {};
    for d := 0 to |dirs|
      invariant done == (set e: nat | e in repeated && e < d) && |specs| == d + |done|
      invariant forall x :: x in specs <==> x.place < d && x in SpecsOf(k, dirs, x.place, repeated)
      invariant forall i, j :: 0 <= i < j < |specs| ==> specs[i] != specs[j]
    {
      ghost var before := specs;
      assert forall i :: 0 <= i < |before| ==> before[i].place < d by {
        forall i | 0 <= i < |before| ensures before[i].place < d {
          assert before[i] in before;
        }
      }
      specs := specs + [Spec(k.core(dirs[d].name), d, CORE)];
      if d in repeated {
        specs := specs + [Spec(k.repeat(dirs[d].name), d, REPEAT)];
        done := done + {d};
      }
      assert specs == before + SpecsOf(k, dirs, d, repeated);
      assert forall x :: x in SpecsOf(k, dirs, d, repeated) ==> x.place == d;
    }
    assert done == repeated;
  }

  // ------------------------------------------------------------ ordering the trials

  function ByOrder(k: Keying): (Spec, Spec) -> bool {
    (x: Spec, y: Spec) => Less(k.order(x.id), k.order(y.id))
  }

  lemma {:induction false} OrderKeys(k: Keying)
    ensures Sorting.WeakOrder(ByOrder(k))
  {
    forall x: Spec, y: Spec ensures !(Less(k.order(x.id), k.order(y.id)) && Less(k.order(y.id), k.order(x.id))) {
      LessTotal(k.order(x.id), k.order(y.id));
    }
    forall x: Spec, y: Spec, z: Spec | !Less(k.order(y.id), k.order(x.id)) && !Less(k.order(z.id), k.order(y.id))
      ensures !Less(k.order(z.id), k.order(x.id))
    {
      NotAfter(k.order(x.id), k.order(y.id), k.order(z.id));
    }
  }

  /** The stable sort by order key. */
  method SortSpecs(k: Keying, specs: seq<Spec>) returns (plan: seq<Spec>)
    requires forall i, j :: 0 <= i < j < |specs| ==> specs[i] != specs[j]
    ensures forall i, j :: 0 <= i < j < |plan| ==> plan[i] != plan[j]
    ensures |plan| == |specs| && Ordered(k, plan)
    ensures forall x :: x in plan <==> x in specs
  {
    plan := Sorting.Sort(specs, ByOrder(k));
    OrderKeys(k);
    Sorting.SortOrders(specs, ByOrder(k));
    Sorting.SortDistinct(specs, ByOrder(k));
    forall x ensures x in plan <==> x in specs {
      Sorting.SortElements(specs, ByOrder(k), x);
    }
    forall i, j | 0 <= i < j < |plan| ensures InOrder(k, plan[i], plan[j]) {
      assert !ByOrder(k)(plan[j], plan[i]);
    }
  }

  /** The expected counts leave twelve directories and no stratum empty. */
  lemma {:induction false} StrataPartition(strata: seq<Stratum>)
    requires forall s :: |InStratum(strata, s)| == ExpectedCount(s)
    ensures |strata| == 12
    ensures forall s: Stratum :: s in strata
  {
    var a, b, c, e := InStratum(strata, RECORDED), InStratum(strata, BABBLE), InStratum(strata, PRESERVATION),
        InStratum(strata, SYNTHETIC);
    UnionSize(a, b);
    UnionSize(c, e);
    TwoParts(|strata|, a + b, c + e);
    forall s: Stratum ensures s in strata {
      var d :| d in InStratum(strata, s);
    }
  }

  method ChooseRepeats(k: Keying, dirs: seq<Directory>, strata: seq<Stratum>) returns (repeated: set<nat>)
    requires |dirs| == |strata| && forall s: Stratum :: s in strata
    ensures |repeated| == 4
    ensures forall d: nat :: d in repeated <==> d < |dirs| && IsChosen(k, dirs, strata, d)
  {
    var a := ChooseRepeat(k, dirs, strata, RECORDED);
    var b := ChooseRepeat(k, dirs, strata, BABBLE);
    var c := ChooseRepeat(k, dirs, strata, PRESERVATION);
    var e := ChooseRepeat(k, dirs, strata, SYNTHETIC);
    repeated := {a, b, c, e};
    forall d: nat | d < |dirs| && IsChosen(k, dirs, strata, d) ensures d in repeated {
      ChosenOnce(k, dirs, strata, d, match strata[d] case RECORDED => a case BABBLE => b case PRESERVATION => c
                 case SYNTHETIC => e);
    }
  }

  /** The script. It leaves a bundle if there is one; it fails only on an unknown or unsupported case, on
      other strata than the expected ones, on missing or unplayable audio, and when two trials get one id. */
  method Prepare(k: Keying, h: Hashes, matrix: seq<Case>, dirs: seq<Directory>)
    returns (r: Result<Bundle, BundleError>, ghost strata: seq<Stratum>, ghost plan: seq<Spec>)
    requires Listing(dirs)
    ensures r.Ok? ==> IsBundle(k, h, matrix, dirs, strata, plan, r.value)
    ensures r.Ok? ==> Makes(k, h, matrix, dirs, r.value)
    ensures r.Err? ==> forall s, p, b :: !IsBundle(k, h, matrix, dirs, s, p, b)
  {
    strata, plan := [], [];
    var selected := SelectCases(matrix, dirs);
    if selected.Err? {
      return Err(selected.error), strata, plan;
    }
    var found := selected.value;
    var n1 := CountStratum(found, RECORDED);
    var n2 := CountStratum(found, BABBLE);
    var n3 := CountStratum(found, PRESERVATION);
    var n4 := CountStratum(found, SYNTHETIC);
    if n1 != 4 || n2 != 3 || n3 != 3 || n4 != 2 {
      SameStrata(k, h, matrix, dirs, found);
      return Err(StrataDiffer), strata, plan;
    }
    forall s ensures |InStratum(found, s)| == ExpectedCount(s) {
      match s case RECORDED => case BABBLE => case PRESERVATION => case SYNTHETIC =>
    }
    StrataPartition(found);
    var repeated := ChooseRepeats(k, dirs, found);
    var specs := DrawSpecs(k, dirs, repeated);
    var trials := SortSpecs(k, specs);
    forall j | 0 <= j < |trials| ensures trials[j].place < |dirs| && trials[j].id == IdOf(k, dirs, trials[j]) {
      assert trials[j] in specs;
    }
    var emitted := Emit(k, dirs, found, trials);
    if emitted.Err? {
      NothingToEmit(k, h, matrix, dirs, found, repeated, trials);
      return Err(emitted.error), strata, plan;
    }
    DrawnIsPlan(k, dirs, found, repeated, trials);
    EmittedEverywhere(k, dirs, found, trials, emitted.value.0, emitted.value.1);
    var protocol := Protocol(k.bundle(h.matrix(matrix)), h.matrix(matrix), emitted.value.0);
    var key := AnswerKey(PREPARED, protocol.bundleId, protocol.matrixDigest, h.protocol(protocol), emitted.value.1);
    strata, plan := found, trials;
    ByDrawing(k, h, matrix, dirs, strata, plan, Bundle(protocol, key));
    r := Ok(Bundle(protocol, key));
  }

  /** Both documents list trial `j`. */
  ghost predicate Emitted(k: Keying, dirs: seq<Directory>, strata: seq<Stratum>, trials: seq<Spec>,
          x: seq<PublicTrial>, y: seq<Answer>, j: int)
    requires |dirs| == |strata| && 0 <= j < |trials| && j < |x| && j < |y| && trials[j].place < |dirs|
  {
    && HasTrialAudio(dirs[trials[j].place])
    && x[j] == PublicOf(k, dirs, strata, trials[j]) && y[j] == PrivateOf(k, dirs, strata, trials[j])
  }

  lemma {:induction false} EmittedEverywhere(k: Keying, dirs: seq<Directory>, strata: seq<Stratum>, trials: seq<Spec>,
          x: seq<PublicTrial>, y: seq<Answer>)
    requires |dirs| == |strata| && |trials| == |x| == |y| && forall j :: 0 <= j < |trials| ==> trials[j].place < |dirs|
    requires forall j :: 0 <= j < |trials| ==> Emitted(k, dirs, strata, trials, x, y, j)
    requires forall d: nat :: d < |dirs| ==> HasCore(k, dirs, trials, d)
    ensures forall d: nat :: d < |dirs| ==> HasTrialAudio(dirs[d])
    ensures forall j :: 0 <= j < |trials| ==>
        x[j] == PublicOf(k, dirs, strata, trials[j]) && y[j] == PrivateOf(k, dirs, strata, trials[j])
  {
    forall d: nat | d < |dirs| ensures HasTrialAudio(dirs[d]) {
      assert HasCore(k, dirs, trials, d);
      var j :| 0 <= j < |trials| && trials[j] == Spec(k.core(dirs[d].name), d, CORE);
      assert Emitted(k, dirs, strata, trials, x, y, j);
    }
    forall j | 0 <= j < |trials|
      ensures x[j] == PublicOf(k, dirs, strata, trials[j]) && y[j] == PrivateOf(k, dirs, strata, trials[j])
    {
      assert Emitted(k, dirs, strata, trials, x, y, j);
    }
  }

  /** Records the audio of every trial and writes both documents' trial lists. */
  method Emit(k: Keying, dirs: seq<Directory>, strata: seq<Stratum>, trials: seq<Spec>)
    returns (r: Result<(seq<PublicTrial>, seq<Answer>), BundleError>)
    requires |dirs| == |strata| && forall j :: 0 <= j < |trials| ==> trials[j].place < |dirs|
    ensures r.Err? ==>
      || (exists j :: 0 <= j < |trials| && !HasTrialAudio(dirs[trials[j].place]))
      || (exists j, l :: 0 <= j < l < |trials| && trials[j].id == trials[l].id)
    ensures r.Ok? ==>
      && |r.value.0| == |r.value.1| == |trials|
      && (forall j :: 0 <= j < |trials| ==> Emitted(k, dirs, strata, trials, r.value.0, r.value.1, j))
      && (forall j, l :: 0 <= j < l < |trials| ==> trials[j].id != trials[l].id)
  {
    var publicTrials, privateTrials, ids := [], [], {};
    for i := 0 to |trials|
      invariant |publicTrials| == |privateTrials| == i
      invariant forall j :: 0 <= j < i ==> trials[j].id in ids
      invariant forall id :: id in ids ==> exists j :: 0 <= j < i && trials[j].id == id
      invariant forall j {:trigger Emitted(k, dirs, strata, trials, publicTrials, privateTrials, j)} :: 0 <= j < i ==>
                  Emitted(k, dirs, strata, trials, publicTrials, privateTrials, j)
      invariant forall j, l :: 0 <= j < l < i ==> trials[j].id != trials[l].id
    {
      var t := trials[i];
      if t.id in ids {
        return Err(TrialCollision(t.id));
      }
      if !HasTrialAudio(dirs[t.place]) {
        return Err(MissingAudio(dirs[t.place].name));
      }
      ids := ids + {t.id};
      ghost var p, q := publicTrials, privateTrials;
      publicTrials := publicTrials + [PublicOf(k, dirs, strata, t)];
      privateTrials := privateTrials + [PrivateOf(k, dirs, strata, t)];
      forall j | 0 <= j < i + 1 ensures Emitted(k, dirs, strata, trials, publicTrials, privateTrials, j) {
        assert j < i ==> Emitted(k, dirs, strata, trials, p, q, j);
      }
    }
    forall j | 0 <= j < |trials| ensures Emitted(k, dirs, strata, trials, publicTrials, privateTrials, j) {
    }
    r := Ok((publicTrials, privateTrials));
  }

  /** The strata of a bundle are those of its directories. */
  lemma {:induction false} SameStrata(k: Keying, h: Hashes, matrix: seq<Case>, dirs: seq<Directory>,
          found: seq<Stratum>)
    requires |found| == |dirs| && forall d :: 0 <= d < |dirs| ==> StratumOf(matrix, dirs[d]) == Some(found[d])
    ensures forall strata, plan, b :: IsBundle(k, h, matrix, dirs, strata, plan, b) ==> strata == found
  {
    forall strata, plan, b | IsBundle(k, h, matrix, dirs, strata, plan, b) ensures strata == found {
      assert forall d :: 0 <= d < |dirs| ==> StratumOf(matrix, dirs[d]) == Some(strata[d]) == Some(found[d]);
    }
  }

  /** Missing audio, or two trials with one id, leave no bundle. */
  lemma {:induction false} NothingToEmit(k: Keying, h: Hashes, matrix: seq<Case>, dirs: seq<Directory>,
          found: seq<Stratum>, repeated: set<nat>, trials: seq<Spec>)
    requires |found| == |dirs| && forall d :: 0 <= d < |dirs| ==> StratumOf(matrix, dirs[d]) == Some(found[d])
    requires forall d: nat :: d in repeated <==> d < |dirs| && IsChosen(k, dirs, found, d)
    requires forall x :: x in trials <==> x.place < |dirs| && x in SpecsOf(k, dirs, x.place, repeated)
    requires forall j :: 0 <= j < |trials| ==> trials[j].place < |dirs|
    requires forall j, l :: 0 <= j < l < |trials| ==> trials[j] != trials[l]
    requires
      || (exists j :: 0 <= j < |trials| && !HasTrialAudio(dirs[trials[j].place]))
      || (exists j, l :: 0 <= j < l < |trials| && trials[j].id == trials[l].id)
    ensures forall strata, plan, b :: !IsBundle(k, h, matrix, dirs, strata, plan, b)
  {
    SameStrata(k, h, matrix, dirs, found);
    forall strata, plan, b ensures !IsBundle(k, h, matrix, dirs, strata, plan, b) {
      if IsBundle(k, h, matrix, dirs, strata, plan, b) {
        var j, l :| 0 <= j < l < |trials| && trials[j].id == trials[l].id;
        DrawnInPlan(k, dirs, found, repeated, trials, plan, j);
        DrawnInPlan(k, dirs, found, repeated, trials, plan, l);
      }
    }
  }

  lemma {:induction false} DrawnInPlan(k: Keying, dirs: seq<Directory>, strata: seq<Stratum>, repeated: set<nat>,
          trials: seq<Spec>, plan: seq<Spec>, j: nat)
    requires |dirs| == |strata| && IsPlan(k, dirs, strata, plan) && j < |trials|
    requires forall d: nat :: d in repeated <==> d < |dirs| && IsChosen(k, dirs, strata, d)
    requires forall x :: x in trials <==> x.place < |dirs| && x in SpecsOf(k, dirs, x.place, repeated)
    ensures trials[j] in plan
  {
    assert trials[j] in trials;
    assert trials[j] in SpecsOf(k, dirs, trials[j].place, repeated);
    assert HasCore(k, dirs, plan, trials[j].place);
    assert HasRepeat(k, dirs, plan, trials[j].place) <==> trials[j].place in repeated;
  }

  lemma {:induction false} DrawnIsPlan(k: Keying, dirs: seq<Directory>, strata: seq<Stratum>, repeated: set<nat>,
          trials: seq<Spec>)
    requires |dirs| == |strata| == 12 && |repeated| == 4 && |trials| == 16 && Ordered(k, trials)
    requires forall d: nat :: d in repeated <==> d < |dirs| && IsChosen(k, dirs, strata, d)
    requires forall x :: x in trials <==> x.place < |dirs| && x in SpecsOf(k, dirs, x.place, repeated)
    requires forall j, l :: 0 <= j < l < |trials| ==> trials[j].id != trials[l].id
    ensures IsPlan(k, dirs, strata, trials)
  {
    forall d: nat | d < |dirs|
      ensures HasCore(k, dirs, trials, d)
      ensures HasRepeat(k, dirs, trials, d) <==> d in repeated
    {
      var core, again := Spec(k.core(dirs[d].name), d, CORE), Spec(k.repeat(dirs[d].name), d, REPEAT);
      assert core in SpecsOf(k, dirs, d, repeated);
      assert again in SpecsOf(k, dirs, d, repeated) <==> d in repeated;
    }
    forall i | 0 <= i < |trials| ensures trials[i].place < |dirs| && trials[i].id == IdOf(k, dirs, trials[i]) {
      assert trials[i] in trials;
      assert trials[i] in SpecsOf(k, dirs, trials[i].place, repeated);
    }
  }
}
