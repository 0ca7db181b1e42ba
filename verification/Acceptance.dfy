/** Which matrices are accepted and what is left of them, said by paths and field names written out, without the
    predicates that the script is specified with. */
module Acceptance {
  import opened Wrappers
  import opened Json
  import opened Texts
  import Canonical

  // ------------------------------------------------------------ what stands at a path

  ghost predicate KeysAt(m: Value, p: Path, keys: set<Name>) {
    match Lookup(m, p)
    case Some(Object(fields)) => fields.Keys == keys
    case _ => false
  }

  ghost predicate TextAt(m: Value, p: Path) {
    match Lookup(m, p)
    case Some(String(s)) => |s| > 0
    case _ => false
  }

  ghost predicate DigestAt(m: Value, p: Path) {
    match Lookup(m, p)
    case Some(String(s)) => |s| == 64 && forall c :: c in s ==> c in "0123456789abcdef"
    case _ => false
  }

  ghost predicate PositiveAt(m: Value, p: Path) {
    match Lookup(m, p)
    case Some(Int(i)) => i > 0
    case _ => false
  }

  /** A finite number; a truth value is none. */
  ghost predicate NumberAt(m: Value, p: Path) {
    match Lookup(m, p)
    case Some(Int(_)) => true
    case Some(Float(_)) => true
    case _ => false
  }

  ghost predicate CasesAt(m: Value, n: nat) {
    match Lookup(m, [AtKey(CASES)])
    case Some(Array(items)) => |items| == n
    case _ => false
  }

  // ------------------------------------------------------------ the matrices that are accepted

  predicate IsMatrixModel(k: Name) {
    k == DPDFNET2 || k == DPDFNET8 || k == GTCRN
  }

  ghost predicate ModelAt(m: Value, k: Name) {
    TextAt(m, [AtKey(MODELS), AtKey(k), AtKey(PATH)]) && NumberAt(m, [AtKey(MODELS), AtKey(k), AtKey(LOAD_MS)])
  }

  ghost predicate MeasuredAt(m: Value, i: nat, k: Name) {
    && NumberAt(m, [AtKey(CASES), AtIndex(i), AtKey(k), AtKey(PROCESS_MS)])
    && NumberAt(m, [AtKey(CASES), AtIndex(i), AtKey(k), AtKey(RTF)])
  }

  function IdPath(i: nat): Path {
    [AtKey(CASES), AtIndex(i), AtKey(ID)]
  }

  ghost predicate HeaderAt(m: Value) {
    && KeysAt(m, [], {SCHEMA, FIXTURE_MANIFEST, FIXTURE_FINGERPRINT, MODELS, ENVIRONMENT, CASES})
    && Lookup(m, [AtKey(SCHEMA)]) == Some(String("denoize-dpdfnet-gtcrn-matrix-v1"))
    && TextAt(m, [AtKey(FIXTURE_MANIFEST)]) && DigestAt(m, [AtKey(FIXTURE_FINGERPRINT)])
    && KeysAt(m, [AtKey(ENVIRONMENT)], {ARCH, LOGICAL_PARALLELISM, OS, VISQOL_ENABLED})
    && PositiveAt(m, [AtKey(ENVIRONMENT), AtKey(LOGICAL_PARALLELISM)])
    && KeysAt(m, [AtKey(MODELS)], {DPDFNET2, DPDFNET8, GTCRN})
    && forall k :: IsMatrixModel(k) ==> ModelAt(m, k)
  }

  ghost predicate CaseAt(m: Value, i: nat) {
    TextAt(m, IdPath(i)) && forall k :: IsMatrixModel(k) ==> MeasuredAt(m, i, k)
  }

  /** `n` complete cases with identifiers of their own. */
  ghost predicate ListedAt(m: Value, n: nat) {
    && n > 0 && CasesAt(m, n)
    && (forall i: nat :: i < n ==> CaseAt(m, i))
    && forall i: nat, j: nat :: i < j < n ==> Lookup(m, IdPath(i)) != Lookup(m, IdPath(j))
  }

  /** The six names of fields that may differ from machine to machine. */
  predicate IsVolatile(k: Name) {
    || k == FIXTURE_MANIFEST || k == LOGICAL_PARALLELISM || k == PATH
    || k == LOAD_MS || k == PROCESS_MS || k == RTF
  }

  predicate NamesVolatile(p: Path) {
    p != [] && p[|p| - 1].AtKey? && IsVolatile(p[|p| - 1].key)
  }

  predicate InModels(p: Path, k: Name) {
    p == [AtKey(MODELS), AtKey(k), AtKey(PATH)] || p == [AtKey(MODELS), AtKey(k), AtKey(LOAD_MS)]
  }

  predicate InCases(p: Path, i: nat, k: Name) {
    || p == [AtKey(CASES), AtIndex(i), AtKey(k), AtKey(PROCESS_MS)]
    || p == [AtKey(CASES), AtIndex(i), AtKey(k), AtKey(RTF)]
  }

  /** The places where a field of a volatile name may stand. */
  ghost predicate InPlace(p: Path) {
    || p == [AtKey(FIXTURE_MANIFEST)]
    || p == [AtKey(ENVIRONMENT), AtKey(LOGICAL_PARALLELISM)]
    || (exists k :: IsMatrixModel(k) && InModels(p, k))
    || exists i: nat, k :: IsMatrixModel(k) && InCases(p, i, k)
  }

  ghost predicate OnlyInPlace(m: Value) {
    forall p :: NamesVolatile(p) && Lookup(m, p).Some? ==> InPlace(p)
  }

  // ------------------------------------------------------------ reading a document step by step

  /** What stands at a path; nothing is null here. */
  function Get(m: Value, p: Path): Value {
    match Lookup(m, p) case Some(x) => x case None => Null
  }

  lemma {:induction false} AtField(m: Value, p: Path, k: Name)
    ensures Lookup(m, p + [AtKey(k)]) ==
            if Get(m, p).Object? && k in Get(m, p).fields then Some(Get(m, p).fields[k]) else None
    ensures Get(m, p + [AtKey(k)]) == Canonical.Field(Get(m, p), k)
  {
    LookupThrough(m, p + [AtKey(k)], |p|);
    assert (p + [AtKey(k)])[..|p|] == p && (p + [AtKey(k)])[|p|..] == [AtKey(k)];
    if Lookup(m, p).Some? {
      Child(Get(m, p), AtKey(k));
    }
  }

  lemma {:induction false} AtItem(m: Value, p: Path, i: nat)
    ensures Lookup(m, p + [AtIndex(i)]) ==
            if Get(m, p).Array? && i < |Get(m, p).items| then Some(Get(m, p).items[i]) else None
  {
    LookupThrough(m, p + [AtIndex(i)], |p|);
    assert (p + [AtIndex(i)])[..|p|] == p && (p + [AtIndex(i)])[|p|..] == [AtIndex(i)];
    if Lookup(m, p).Some? {
      Child(Get(m, p), AtIndex(i));
    }
  }

  lemma {:induction false} AtTopField(m: Value, k: Name)
    ensures Get(m, [AtKey(k)]) == Canonical.Field(m, k)
    ensures Lookup(m, [AtKey(k)]) == if m.Object? && k in m.fields then Some(m.fields[k]) else None
  {
    assert [] + [AtKey(k)] == [AtKey(k)];
    AtField(m, [], k);
  }

  lemma {:induction false} AtSecondField(m: Value, k: Name, l: Name)
    ensures Get(m, [AtKey(k), AtKey(l)]) == Canonical.Field(Canonical.Field(m, k), l)
  {
    assert [AtKey(k)] + [AtKey(l)] == [AtKey(k), AtKey(l)];
    AtTopField(m, k);
    AtField(m, [AtKey(k)], l);
  }

  lemma {:induction false} AtThirdField(m: Value, k: Name, l: Name, r: Name)
    ensures Get(m, [AtKey(k), AtKey(l), AtKey(r)]) == Canonical.Field(Canonical.Field(Canonical.Field(m, k), l), r)
  {
    assert [AtKey(k), AtKey(l)] + [AtKey(r)] == [AtKey(k), AtKey(l), AtKey(r)];
    AtSecondField(m, k, l);
    AtField(m, [AtKey(k), AtKey(l)], r);
  }

  /** The case at an index; null past the end. */
  function Case(m: Value, i: nat): Value {
    if i < |Canonical.CasesOf(m)| then Canonical.CasesOf(m)[i] else Null
  }

  lemma {:induction false} AtCase(m: Value, i: nat)
    ensures Get(m, [AtKey(CASES), AtIndex(i)]) == Case(m, i)
  {
    assert [AtKey(CASES)] + [AtIndex(i)] == [AtKey(CASES), AtIndex(i)];
    AtTopField(m, CASES);
    AtItem(m, [AtKey(CASES)], i);
  }

  lemma {:induction false} AtCaseField(m: Value, i: nat, k: Name)
    ensures Get(m, [AtKey(CASES), AtIndex(i), AtKey(k)]) == Canonical.Field(Case(m, i), k)
  {
    assert [AtKey(CASES), AtIndex(i)] + [AtKey(k)] == [AtKey(CASES), AtIndex(i), AtKey(k)];
    AtCase(m, i);
    AtField(m, [AtKey(CASES), AtIndex(i)], k);
  }

  lemma {:induction false} AtMeasurement(m: Value, i: nat, k: Name, l: Name)
    ensures Get(m, [AtKey(CASES), AtIndex(i), AtKey(k), AtKey(l)])
            == Canonical.Field(Canonical.Field(Case(m, i), k), l)
  {
    assert [AtKey(CASES), AtIndex(i), AtKey(k)] + [AtKey(l)] == [AtKey(CASES), AtIndex(i), AtKey(k), AtKey(l)];
    AtCaseField(m, i, k);
    AtField(m, [AtKey(CASES), AtIndex(i), AtKey(k)], l);
  }

  // ------------------------------------------------------------ the checks, one by one

  lemma {:induction false} IsHex(s: string)
    ensures (forall c :: c in s ==> c in "0123456789abcdef")
            <==> forall n :: 0 <= n < |s| ==> '0' <= s[n] <= '9' || 'a' <= s[n] <= 'f'
  {
    forall n | 0 <= n < |s|
      ensures s[n] in s && (s[n] in "0123456789abcdef" <==> '0' <= s[n] <= '9' || 'a' <= s[n] <= 'f')
    {
      HexDigit(s[n]);
    }
  }

  lemma {:induction false} Top(m: Value)
    ensures Canonical.TopHolds(m) <==>
            && KeysAt(m, [], {SCHEMA, FIXTURE_MANIFEST, FIXTURE_FINGERPRINT, MODELS, ENVIRONMENT, CASES})
            && Lookup(m, [AtKey(SCHEMA)]) == Some(String("denoize-dpdfnet-gtcrn-matrix-v1"))
    ensures Canonical.IsText(Canonical.Field(m, FIXTURE_MANIFEST)) <==> TextAt(m, [AtKey(FIXTURE_MANIFEST)])
    ensures Canonical.IsDigest(Canonical.Field(m, FIXTURE_FINGERPRINT)) <==> DigestAt(m, [AtKey(FIXTURE_FINGERPRINT)])
  {
    AtTopField(m, SCHEMA);
    AtTopField(m, FIXTURE_MANIFEST);
    AtTopField(m, FIXTURE_FINGERPRINT);
    var digest := Canonical.Field(m, FIXTURE_FINGERPRINT);
    if digest.String? {
      IsHex(digest.s);
    }
  }

  lemma {:induction false} Environment(m: Value)
    ensures Canonical.EnvironmentHolds(Canonical.Field(m, ENVIRONMENT)) <==>
            && KeysAt(m, [AtKey(ENVIRONMENT)], {ARCH, LOGICAL_PARALLELISM, OS, VISQOL_ENABLED})
            && PositiveAt(m, [AtKey(ENVIRONMENT), AtKey(LOGICAL_PARALLELISM)])
  {
    AtTopField(m, ENVIRONMENT);
    AtSecondField(m, ENVIRONMENT, LOGICAL_PARALLELISM);
  }

  lemma {:induction false} Model(m: Value, k: Name)
    ensures Canonical.ModelHolds(Canonical.Field(Canonical.Field(m, MODELS), k)) <==> ModelAt(m, k)
  {
    AtThirdField(m, MODELS, k, PATH);
    AtThirdField(m, MODELS, k, LOAD_MS);
  }

  lemma {:induction false} MatrixModels(k: Name)
    ensures k in Canonical.MATRIX_MODELS <==> IsMatrixModel(k)
    ensures Canonical.IsModel(k) <==> IsMatrixModel(k)
  {
    assert Canonical.MATRIX_MODELS == [DPDFNET2, DPDFNET8, GTCRN];
  }

  lemma {:induction false} Models(m: Value)
    ensures Canonical.ModelsHold(Canonical.Field(m, MODELS)) <==>
            && KeysAt(m, [AtKey(MODELS)], {DPDFNET2, DPDFNET8, GTCRN})
            && forall k :: IsMatrixModel(k) ==> ModelAt(m, k)
  {
    AtTopField(m, MODELS);
    forall k
      ensures k in Canonical.MATRIX_MODELS <==> IsMatrixModel(k)
      ensures Canonical.ModelHolds(Canonical.Field(Canonical.Field(m, MODELS), k)) <==> ModelAt(m, k)
    {
      MatrixModels(k);
      Model(m, k);
    }
  }

  lemma {:induction false} Measured(m: Value, i: nat, k: Name)
    ensures Canonical.MeasurementHolds(Canonical.Field(Case(m, i), k)) <==> MeasuredAt(m, i, k)
  {
    AtMeasurement(m, i, k, PROCESS_MS);
    AtMeasurement(m, i, k, RTF);
  }

  lemma {:induction false} OneCase(m: Value, i: nat)
    ensures Canonical.CaseHolds(Case(m, i)) <==> CaseAt(m, i)
    ensures TextAt(m, IdPath(i)) ==> Lookup(m, IdPath(i)) == Some(Canonical.Field(Case(m, i), ID))
  {
    AtCaseField(m, i, ID);
    forall k
      ensures k in Canonical.MATRIX_MODELS <==> IsMatrixModel(k)
      ensures Canonical.MeasurementHolds(Canonical.Field(Case(m, i), k)) <==> MeasuredAt(m, i, k)
    {
      MatrixModels(k);
      Measured(m, i, k);
    }
  }

  lemma {:induction false} Cases(m: Value)
    ensures Canonical.Field(m, CASES).Array? <==> CasesAt(m, |Canonical.CasesOf(m)|)
    ensures Canonical.Field(m, CASES).Array? && Canonical.CasesOf(m) != [] && Canonical.CasesHold(Canonical.CasesOf(m))
            <==> ListedAt(m, |Canonical.CasesOf(m)|)
  {
    AtTopField(m, CASES);
    var cases := Canonical.CasesOf(m);
    forall i: nat | i < |cases|
      ensures Canonical.CaseHolds(cases[i]) <==> CaseAt(m, i)
      ensures CaseAt(m, i) ==> Lookup(m, IdPath(i)) == Some(Canonical.Field(cases[i], ID))
    {
      OneCase(m, i);
    }
  }

  /** The checks on the shape of a matrix, before the reserved fields are looked for. */
  lemma {:induction false} Shapes(m: Value)
    ensures Canonical.Contract(m) <==>
            HeaderAt(m) && ListedAt(m, |Canonical.CasesOf(m)|) && Canonical.ReservedMatch(m)
  {
    Top(m);
    Environment(m);
    Models(m);
    Cases(m);
  }

  // ------------------------------------------------------------ the fields of the six names

  lemma {:induction false} Volatile(m: Value, p: Path)
    ensures p in ReservedPaths(m, []) <==> NamesVolatile(p) && Lookup(m, p).Some?
  {
    ReservedPathsAreFound(m);
  }

  lemma {:induction false} AllowedInPlace(n: nat, p: Path)
    requires Canonical.IsAllowed(n, p)
    ensures InPlace(p) && NamesVolatile(p)
  {
    if |p| == 3 {
      var k := p[1].key;
      MatrixModels(k);
      assert p == [AtKey(MODELS), AtKey(k), p[2]];
      assert InModels(p, k);
    } else if |p| == 4 {
      var i, k := p[1].index, p[2].key;
      MatrixModels(k);
      assert p == [AtKey(CASES), AtIndex(i), AtKey(k), p[3]];
      assert InCases(p, i, k);
    }
  }

  /** The allowed fields are there in every matrix of the right shape. */
  lemma {:induction false} AllowedIsThere(m: Value, n: nat, p: Path)
    requires HeaderAt(m) && ListedAt(m, n) && Canonical.IsAllowed(n, p)
    ensures Lookup(m, p).Some?
  {
    if |p| == 3 {
      var k := p[1].key;
      MatrixModels(k);
      assert p == [AtKey(MODELS), AtKey(k), p[2]];
      assert ModelAt(m, k);
    } else if |p| == 4 {
      var i, k := p[1].index, p[2].key;
      MatrixModels(k);
      assert p == [AtKey(CASES), AtIndex(i), AtKey(k), p[3]];
      assert CaseAt(m, i) && MeasuredAt(m, i, k);
    }
  }

  lemma {:induction false} InModelsIsAllowed(n: nat, p: Path, k: Name)
    requires IsMatrixModel(k) && InModels(p, k)
    ensures Canonical.IsAllowed(n, p)
  {
    MatrixModels(k);
  }

  lemma {:induction false} InCasesIsAllowed(m: Value, n: nat, p: Path, i: nat, k: Name)
    requires IsMatrixModel(k) && InCases(p, i, k) && CasesAt(m, n) && Lookup(m, p).Some?
    ensures Canonical.IsAllowed(n, p)
  {
    MatrixModels(k);
    LookupThrough(m, p, 2);
    assert p[..2] == [AtKey(CASES)] + [AtIndex(i)];
    AtItem(m, [AtKey(CASES)], i);
  }

  lemma {:induction false} PlaceIsAllowed(m: Value, n: nat, p: Path)
    requires CasesAt(m, n) && Lookup(m, p).Some? && InPlace(p)
    ensures Canonical.IsAllowed(n, p)
  {
    if k :| IsMatrixModel(k) && InModels(p, k) {
      InModelsIsAllowed(n, p, k);
    } else if i: nat, k :| IsMatrixModel(k) && InCases(p, i, k) {
      InCasesIsAllowed(m, n, p, i, k);
    }
  }

  lemma {:induction false} AllMatch(m: Value, n: nat)
    requires HeaderAt(m) && ListedAt(m, n) && n == |Canonical.CasesOf(m)|
    ensures Canonical.ReservedMatch(m) <==> OnlyInPlace(m)
  {
    if Canonical.ReservedMatch(m) {
      forall p | NamesVolatile(p) && Lookup(m, p).Some? ensures InPlace(p) {
        Volatile(m, p);
        AllowedInPlace(n, p);
      }
    }
    if OnlyInPlace(m) {
      forall p: Path ensures p in ReservedPaths(m, []) <==> Canonical.IsAllowed(n, p) {
        Volatile(m, p);
        if Canonical.IsAllowed(n, p) {
          AllowedInPlace(n, p);
          AllowedIsThere(m, n, p);
        } else if NamesVolatile(p) && Lookup(m, p).Some? {
          PlaceIsAllowed(m, n, p);
        }
      }
    }
  }

  /** A matrix is accepted exactly when it has the right shape and the fields of the six names stand at the allowed
      places and nowhere else. */
  lemma {:induction false} AcceptedIff(m: Value)
    ensures Canonical.Contract(m) <==> HeaderAt(m) && (exists n :: ListedAt(m, n)) && OnlyInPlace(m)
  {
    Shapes(m);
    var n := |Canonical.CasesOf(m)|;
    if HeaderAt(m) && ListedAt(m, n) {
      AllMatch(m, n);
    }
    if l :| ListedAt(m, l) {
      AtTopField(m, CASES);
      assert l == n;
    }
  }

  // ------------------------------------------------------------ what is left

  /** A path through none of the six names. */
  predicate Free(p: Path) {
    forall n :: 0 <= n < |p| && p[n].AtKey? ==> !IsVolatile(p[n].key)
  }

  /** Of a normalized matrix every path free of the six names shows what it showed before, and no other path shows
      anything; nothing else is a normal form of it. */
  lemma {:induction false} NormalFormShows(m: Value, w: Value)
    ensures w == Strip(m) <==> forall p :: ShapeAt(w, p) == if Free(p) then ShapeAt(m, p) else None
  {
    forall p ensures ShapeAt(Strip(m), p) == if Free(p) then ShapeAt(m, p) else None {
      StripLookup(m, p);
      assert Free(p) <==> Clean(p);
      if Free(p) && Lookup(m, p).Some? {
        var x := Get(m, p);
        assert Shape(Strip(x)) == Shape(x);
      }
    }
    if forall p :: ShapeAt(w, p) == if Free(p) then ShapeAt(m, p) else None {
      forall p ensures ShapeAt(w, p) == ShapeAt(Strip(m), p) {
      }
      Extensional(w, Strip(m));
    }
  }

  // ------------------------------------------------------------ a matrix that is accepted

  function SampleModel(): Value {
    Object(map[PATH := String("model.onnx"), LOAD_MS := Int(120)])
  }

  function SampleModels(): Value {
    Object(map[DPDFNET2 := SampleModel(), DPDFNET8 := SampleModel(), GTCRN := SampleModel()])
  }

  function SampleMeasurement(): Value {
    Object(map[PROCESS_MS := Int(31), RTF := Float(0.25)])
  }

  function SampleCase(): Value {
    Object(map[ID := String("case-1"), DPDFNET2 := SampleMeasurement(), DPDFNET8 := SampleMeasurement(),
               GTCRN := SampleMeasurement()])
  }

  function SampleEnvironment(): Value {
    Object(map[ARCH := String("aarch64"), LOGICAL_PARALLELISM := Int(1), OS := String("linux"),
               VISQOL_ENABLED := Bool(false)])
  }

  function SampleMatrix(): Value {
    Object(map[SCHEMA := String("denoize-dpdfnet-gtcrn-matrix-v1"), FIXTURE_MANIFEST := String("fixtures.json"),
               FIXTURE_FINGERPRINT := String(seq(64, i => 'a')), MODELS := SampleModels(),
               ENVIRONMENT := SampleEnvironment(), CASES := Array([SampleCase()])])
  }

  lemma {:induction false} ScalarEnds(v: Value, p: Path)
    requires !v.Object? && !v.Array? && Lookup(v, p).Some?
    ensures p == []
  {
  }

  /** The field a path into an object goes through. */
  lemma {:induction false} Through(v: Value, p: Path) returns (k: Name)
    requires v.Object? && p != [] && Lookup(v, p).Some?
    ensures p == [AtKey(k)] + p[1..] && k in v.fields && Lookup(v.fields[k], p[1..]).Some?
  {
    k := p[0].key;
  }

  lemma {:induction false} SampleModelPaths(p: Path)
    requires NamesVolatile(p) && Lookup(SampleModel(), p).Some?
    ensures p == [AtKey(PATH)] || p == [AtKey(LOAD_MS)]
  {
    var k := Through(SampleModel(), p);
    ScalarEnds(SampleModel().fields[k], p[1..]);
  }

  lemma {:induction false} SampleModelsPaths(p: Path)
    requires NamesVolatile(p) && Lookup(SampleModels(), p).Some?
    ensures InPlace([AtKey(MODELS)] + p)
  {
    var k := Through(SampleModels(), p);
    if p[1..] != [] {
      SampleModelPaths(p[1..]);
      assert InModels([AtKey(MODELS)] + p, k);
    }
  }

  lemma {:induction false} SampleMeasurementPaths(p: Path)
    requires NamesVolatile(p) && Lookup(SampleMeasurement(), p).Some?
    ensures p == [AtKey(PROCESS_MS)] || p == [AtKey(RTF)]
  {
    var k := Through(SampleMeasurement(), p);
    ScalarEnds(SampleMeasurement().fields[k], p[1..]);
  }

  lemma {:induction false} SampleCasePaths(p: Path)
    requires NamesVolatile(p) && Lookup(SampleCase(), p).Some?
    ensures InPlace([AtKey(CASES), AtIndex(0)] + p)
  {
    var k := Through(SampleCase(), p);
    if k == ID {
      ScalarEnds(String("case-1"), p[1..]);
    } else {
      if p[1..] != [] {
        SampleMeasurementPaths(p[1..]);
        assert InCases([AtKey(CASES), AtIndex(0)] + p, 0, k);
      }
    }
  }

  lemma {:induction false} SampleEnvironmentPaths(p: Path)
    requires NamesVolatile(p) && Lookup(SampleEnvironment(), p).Some?
    ensures p == [AtKey(LOGICAL_PARALLELISM)]
  {
    var k := Through(SampleEnvironment(), p);
    ScalarEnds(SampleEnvironment().fields[k], p[1..]);
  }

  lemma {:induction false} SamplePaths(p: Path)
    requires NamesVolatile(p) && Lookup(SampleMatrix(), p).Some?
    ensures InPlace(p)
  {
    var k := Through(SampleMatrix(), p);
    var rest := p[1..];
    if k == MODELS && rest != [] {
      SampleModelsPaths(rest);
    } else if k == ENVIRONMENT && rest != [] {
      SampleEnvironmentPaths(rest);
    } else if k == CASES && rest != [] {
      assert rest[0] == AtIndex(0);
      assert p == [AtKey(CASES), AtIndex(0)] + rest[1..];
      if rest[1..] != [] {
        SampleCasePaths(rest[1..]);
      }
    } else {
      SampleEdge(k, p);
    }
  }

  lemma {:induction false} SampleEdge(k: Name, p: Path)
    requires NamesVolatile(p) && p == [AtKey(k)] + p[1..] && k in SampleMatrix().fields
    requires Lookup(SampleMatrix().fields[k], p[1..]).Some? && (k in {MODELS, ENVIRONMENT, CASES} ==> p[1..] == [])
    ensures p == [AtKey(FIXTURE_MANIFEST)]
  {
    if k !in {MODELS, ENVIRONMENT, CASES} {
      ScalarEnds(SampleMatrix().fields[k], p[1..]);
    }
  }

  lemma {:induction false} SampleFields()
    ensures KeysAt(SampleMatrix(), [], {SCHEMA, FIXTURE_MANIFEST, FIXTURE_FINGERPRINT, MODELS, ENVIRONMENT, CASES})
    ensures Canonical.Field(SampleMatrix(), SCHEMA) == String("denoize-dpdfnet-gtcrn-matrix-v1")
    ensures Canonical.Field(SampleMatrix(), FIXTURE_MANIFEST) == String("fixtures.json")
    ensures Canonical.Field(SampleMatrix(), FIXTURE_FINGERPRINT) == String(seq(64, i => 'a'))
    ensures Canonical.Field(SampleMatrix(), MODELS) == SampleModels()
    ensures Canonical.Field(SampleMatrix(), ENVIRONMENT) == SampleEnvironment()
    ensures Canonical.Field(SampleMatrix(), CASES) == Array([SampleCase()])
  {
  }

  lemma {:induction false} SampleModelFields(k: Name)
    requires IsMatrixModel(k)
    ensures Canonical.Field(SampleModels(), k) == SampleModel()
    ensures Canonical.Field(SampleCase(), k) == SampleMeasurement()
  {
  }

  lemma {:induction false} SampleParts()
    ensures SampleModels().fields.Keys == {DPDFNET2, DPDFNET8, GTCRN}
    ensures Canonical.ModelHolds(SampleModel()) && Canonical.MeasurementHolds(SampleMeasurement())
    ensures Canonical.Field(SampleCase(), ID) == String("case-1")
  {
  }

  lemma {:induction false} SampleEnvironmentHolds()
    ensures Canonical.EnvironmentHolds(SampleEnvironment())
  {
  }

  lemma {:induction false} HeaderOf(m: Value, models: Value)
    requires Canonical.TopHolds(m) && Canonical.IsText(Canonical.Field(m, FIXTURE_MANIFEST))
    requires Canonical.IsDigest(Canonical.Field(m, FIXTURE_FINGERPRINT))
    requires Canonical.EnvironmentHolds(Canonical.Field(m, ENVIRONMENT))
    requires Canonical.Field(m, MODELS) == models && models.Object? && models.fields.Keys == {DPDFNET2, DPDFNET8, GTCRN}
    requires forall k :: IsMatrixModel(k) ==> Canonical.ModelHolds(Canonical.Field(models, k))
    ensures HeaderAt(m)
  {
    Top(m);
    Environment(m);
    AtTopField(m, MODELS);
    forall k | IsMatrixModel(k) ensures ModelAt(m, k) {
      Model(m, k);
    }
  }

  lemma {:induction false} TopOf(m: Value)
    requires KeysAt(m, [], {SCHEMA, FIXTURE_MANIFEST, FIXTURE_FINGERPRINT, MODELS, ENVIRONMENT, CASES})
    requires Canonical.Field(m, SCHEMA) == String("denoize-dpdfnet-gtcrn-matrix-v1")
    requires Canonical.Field(m, FIXTURE_MANIFEST) == String("fixtures.json")
    requires Canonical.Field(m, FIXTURE_FINGERPRINT) == String(seq(64, i => 'a'))
    ensures Canonical.TopHolds(m) && Canonical.IsText(Canonical.Field(m, FIXTURE_MANIFEST))
    ensures Canonical.IsDigest(Canonical.Field(m, FIXTURE_FINGERPRINT))
  {
    assert Canonical.Field(m, FIXTURE_FINGERPRINT).s == seq(64, i => 'a');
  }

  lemma {:induction false} SampleHeader()
    ensures HeaderAt(SampleMatrix())
  {
    SampleFields();
    TopOf(SampleMatrix());
    SampleEnvironmentHolds();
    SampleParts();
    forall k | IsMatrixModel(k) ensures Canonical.ModelHolds(Canonical.Field(SampleModels(), k)) {
      SampleModelFields(k);
    }
    HeaderOf(SampleMatrix(), SampleModels());
  }

  lemma {:induction false} OneCaseOf(m: Value, c: Value)
    requires Canonical.Field(m, CASES) == Array([c]) && Canonical.IsText(Canonical.Field(c, ID))
    requires forall k :: IsMatrixModel(k) ==> Canonical.MeasurementHolds(Canonical.Field(c, k))
    ensures ListedAt(m, 1)
  {
    AtTopField(m, CASES);
    assert Case(m, 0) == c;
    AtCaseField(m, 0, ID);
    forall k | IsMatrixModel(k) ensures MeasuredAt(m, 0, k) {
      Measured(m, 0, k);
    }
    assert CaseAt(m, 0);
  }

  lemma {:induction false} SampleCases()
    ensures ListedAt(SampleMatrix(), 1)
  {
    SampleFields();
    SampleParts();
    forall k | IsMatrixModel(k) ensures Canonical.MeasurementHolds(Canonical.Field(SampleCase(), k)) {
      SampleModelFields(k);
    }
    OneCaseOf(SampleMatrix(), SampleCase());
  }

  lemma {:induction false} SampleIsAccepted()
    ensures Canonical.Contract(SampleMatrix())
  {
    SampleHeader();
    SampleCases();
    forall p | NamesVolatile(p) && Lookup(SampleMatrix(), p).Some? ensures InPlace(p) {
      SamplePaths(p);
    }
    AcceptedIff(SampleMatrix());
  }
}
