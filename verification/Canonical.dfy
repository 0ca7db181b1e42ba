/** Normalizing an objective matrix: a matrix that meets the contract loses exactly its machine-dependent
    fields, and two matrices are equivalent when nothing else differs. */
module Canonical {
  import opened Wrappers
  import opened Json

  datatype ContractError = UnsupportedTop | BadManifest | BadFingerprint | BadEnvironment | BadModels
      | BadCase(index: nat) | BadCases | ReservedDiffer

  const MATRIX_MODELS: seq<Name> := [DPDFNET2, DPDFNET8, GTCRN]

  // ------------------------------------------------------------ the contract

  function Field(v: Value, k: Name): Value {
    if v.Object? && k in v.fields then v.fields[k] else Null
  }

  predicate HasKeys(v: Value, keys: set<Name>) {
    v.Object? && v.fields.Keys == keys
  }

  predicate IsText(v: Value) {
    v.String? && v.s != ""
  }

  predicate IsNumeric(v: Value) {
    v.Int? || v.Float?
  }

  predicate IsDigest(v: Value) {
    v.String? && |v.s| == 64 && forall n :: 0 <= n < |v.s| ==> '0' <= v.s[n] <= '9' || 'a' <= v.s[n] <= 'f'
  }

  predicate TopHolds(m: Value) {
    HasKeys(m, {SCHEMA, FIXTURE_MANIFEST, FIXTURE_FINGERPRINT, MODELS, ENVIRONMENT, CASES})
    && Field(m, SCHEMA) == String("denoize-dpdfnet-gtcrn-matrix-v1")
  }

  predicate EnvironmentHolds(v: Value) {
    && HasKeys(v, {ARCH, LOGICAL_PARALLELISM, OS, VISQOL_ENABLED})
    && Field(v, LOGICAL_PARALLELISM).Int? && Field(v, LOGICAL_PARALLELISM).i >= 1
  }

  predicate ModelHolds(v: Value) {
    v.Object? && IsText(Field(v, PATH)) && IsNumeric(Field(v, LOAD_MS))
  }

  predicate ModelsHold(v: Value) {
    HasKeys(v, {DPDFNET2, DPDFNET8, GTCRN}) && forall m :: m in MATRIX_MODELS ==> ModelHolds(Field(v, m))
  }

  predicate MeasurementHolds(v: Value) {
    v.Object? && IsNumeric(Field(v, PROCESS_MS)) && IsNumeric(Field(v, RTF))
  }

  predicate CaseHolds(c: Value) {
    c.Object? && IsText(Field(c, ID)) && forall m :: m in MATRIX_MODELS ==> MeasurementHolds(Field(c, m))
  }

  predicate CasesHold(cases: seq<Value>) {
    && (forall n :: 0 <= n < |cases| ==> CaseHolds(cases[n]))
    && forall n, l :: 0 <= n < l < |cases| ==> Field(cases[n], ID) != Field(cases[l], ID)
  }

  function CasesOf(m: Value): seq<Value> {
    if Field(m, CASES).Array? then Field(m, CASES).items else []
  }

  // ------------------------------------------------------------ the reserved fields it allows

  predicate IsModel(k: Name) {
    k in MATRIX_MODELS
  }

  /** The machine-dependent fields of a matrix with `n` cases. */
  predicate IsAllowed(n: nat, p: Path) {
    || p == [AtKey(FIXTURE_MANIFEST)]
    || p == [AtKey(ENVIRONMENT), AtKey(LOGICAL_PARALLELISM)]
    || (|p| == 3 && p[0] == AtKey(MODELS) && p[1].AtKey? && IsModel(p[1].key) && p[2] in {AtKey(PATH), AtKey(LOAD_MS)})
    || (|p| == 4 && p[0] == AtKey(CASES) && p[1].AtIndex? && p[1].index < n && p[2].AtKey? && IsModel(p[2].key)
        && p[3] in {AtKey(PROCESS_MS), AtKey(RTF)})
  }

  /** The same fields as a set. */
  ghost predicate AllowedSet(n: nat, allowed: set<Path>) {
    forall p: Path :: p in allowed <==> IsAllowed(n, p)
  }

  ghost predicate ReservedMatch(m: Value) {
    AllowedSet(|CasesOf(m)|, ReservedPaths(m, []))
  }

  /** What `normalize_matrix` demands of a matrix. */
  ghost predicate Contract(m: Value) {
    && TopHolds(m) && IsText(Field(m, FIXTURE_MANIFEST)) && IsDigest(Field(m, FIXTURE_FINGERPRINT))
    && EnvironmentHolds(Field(m, ENVIRONMENT)) && ModelsHold(Field(m, MODELS))
    && Field(m, CASES).Array? && CasesOf(m) != [] && CasesHold(CasesOf(m))
    && ReservedMatch(m)
  }

  // ------------------------------------------------------------ the script

  function ModelPaths(k: Name): seq<Path> {
    [[AtKey(MODELS), AtKey(k), AtKey(PATH)], [AtKey(MODELS), AtKey(k), AtKey(LOAD_MS)]]
  }

  function CasePaths(n: nat, k: Name): seq<Path> {
    [[AtKey(CASES), AtIndex(n), AtKey(k), AtKey(PROCESS_MS)], [AtKey(CASES), AtIndex(n), AtKey(k), AtKey(RTF)]]
  }

  method CheckModels(v: Value) returns (ok: bool)
    ensures ok <==> ModelsHold(v)
  {
    if !HasKeys(v, {DPDFNET2, DPDFNET8, GTCRN}) {
      return false;
    }
    for n := 0 to |MATRIX_MODELS|
      invariant forall l :: 0 <= l < n ==> ModelHolds(Field(v, MATRIX_MODELS[l]))
    {
      if !ModelHolds(Field(v, MATRIX_MODELS[n])) {
        return false;
      }
    }
    ok := true;
  }

  method CheckCase(c: Value) returns (ok: bool)
    ensures ok <==> c.Object? && forall m :: m in MATRIX_MODELS ==> MeasurementHolds(Field(c, m))
  {
    if !c.Object? {
      return false;
    }
    for n := 0 to |MATRIX_MODELS|
      invariant forall l :: 0 <= l < n ==> MeasurementHolds(Field(c, MATRIX_MODELS[l]))
    {
      if !MeasurementHolds(Field(c, MATRIX_MODELS[n])) {
        return false;
      }
    }
    ok := true;
  }

  /** The fields of case `n` that are machine-dependent. */
  predicate InCase(n: nat, p: Path) {
    |p| == 4 && p[0] == AtKey(CASES) && p[1] == AtIndex(n) && p[2].AtKey? && IsModel(p[2].key)
        && p[3] in {AtKey(PROCESS_MS), AtKey(RTF)}
  }

  lemma {:induction false} CasePathsAre(n: nat, k: Name)
    requires IsModel(k)
    ensures forall p: Path :: p in CasePaths(n, k) <==> InCase(n, p) && p[2].key == k
  {
    forall p: Path ensures p in CasePaths(n, k) <==> InCase(n, p) && p[2].key == k {
      if InCase(n, p) && p[2].key == k {
        assert p == [AtKey(CASES), AtIndex(n), AtKey(k), p[3]];
        assert CasePaths(n, k)[if p[3] == AtKey(PROCESS_MS) then 0 else 1] == p;
      }
    }
  }

  lemma {:induction false} ModelPathsAre(k: Name)
    requires IsModel(k)
    ensures forall p: Path :: p in ModelPaths(k) <==> AtTop(p) && |p| == 3 && p[1].key == k
  {
    forall p: Path ensures p in ModelPaths(k) <==> AtTop(p) && |p| == 3 && p[1].key == k {
      if AtTop(p) && |p| == 3 && p[1].key == k {
        assert p == [AtKey(MODELS), AtKey(k), p[2]];
        assert ModelPaths(k)[if p[2] == AtKey(PATH) then 0 else 1] == p;
      }
    }
  }

  method CasePathSet(n: nat) returns (paths: set<Path>)
    ensures forall p: Path :: p in paths <==> InCase(n, p)
  {
    paths := {};
    for l := 0 to |MATRIX_MODELS|
      invariant forall p: Path :: p in paths <==> InCase(n, p) && p[2].key in MATRIX_MODELS[..l]
    {
      CasePathsAre(n, MATRIX_MODELS[l]);
      paths := paths + (set p | p in CasePaths(n, MATRIX_MODELS[l]));
      assert MATRIX_MODELS[..l + 1] == MATRIX_MODELS[..l] + [MATRIX_MODELS[l]];
    }
  }

  /** The fields outside the cases that are machine-dependent. */
  predicate AtTop(p: Path) {
    || p == [AtKey(FIXTURE_MANIFEST)]
    || p == [AtKey(ENVIRONMENT), AtKey(LOGICAL_PARALLELISM)]
    || (|p| == 3 && p[0] == AtKey(MODELS) && p[1].AtKey? && IsModel(p[1].key) && p[2] in {AtKey(PATH), AtKey(LOAD_MS)})
  }

  method TopPathSet() returns (paths: set<Path>)
    ensures forall p: Path :: p in paths <==> AtTop(p)
  {
    paths := {[AtKey(FIXTURE_MANIFEST)], [AtKey(ENVIRONMENT), AtKey(LOGICAL_PARALLELISM)]};
    for l := 0 to |MATRIX_MODELS|
      invariant forall p: Path :: p in paths <==> AtTop(p) && (|p| == 3 ==> p[1].key in MATRIX_MODELS[..l])
    {
      ModelPathsAre(MATRIX_MODELS[l]);
      paths := paths + (set p | p in ModelPaths(MATRIX_MODELS[l]));
      assert MATRIX_MODELS[..l + 1] == MATRIX_MODELS[..l] + [MATRIX_MODELS[l]];
    }
  }

  /** Checks the cases and collects their machine-dependent fields. */
  method CheckCases(cases: seq<Value>, top: set<Path>) returns (bad: Option<nat>, allowed: set<Path>)
    requires forall p: Path :: p in top <==> AtTop(p)
    ensures bad.None? <==> CasesHold(cases)
    ensures bad.None? ==> AllowedSet(|cases|, allowed)
  {
    allowed := top;
    var ids: set<Value> := {};
    for n := 0 to |cases|
      invariant forall l :: 0 <= l < n ==> CaseHolds(cases[l]) && Field(cases[l], ID) in ids
      invariant forall id :: id in ids ==> exists l :: 0 <= l < n && Field(cases[l], ID) == id
      invariant forall k, l :: 0 <= k < l < n ==> Field(cases[k], ID) != Field(cases[l], ID)
      invariant AllowedSet(n, allowed)
    {
      var sound := CheckCase(cases[n]);
      var id := Field(cases[n], ID);
      if !sound || !IsText(id) || id in ids {
        return Some(n), allowed;
      }
      ids := ids + {id};
      var paths := CasePathSet(n);
      allowed := allowed + paths;
      OneMoreCase(n, paths);
    }
    bad := None;
  }

  lemma {:induction false} OneMoreCase(n: nat, paths: set<Path>)
    requires forall p: Path :: p in paths <==> InCase(n, p)
    ensures forall p: Path :: IsAllowed(n + 1, p) <==> IsAllowed(n, p) || p in paths
  {
  }

  /** Deletes the two fields of every model; `paths` gives their paths. */
  method DeleteFields(v: Value, paths: seq<Path>, ghost m: Value, ghost removed: set<Path>)
    returns (w: Value, ghost gone: set<Path>)
    requires Removed(m, removed, v) && forall n :: 0 <= n < |paths| ==>
        paths[n] != [] && paths[n][|paths[n]| - 1].AtKey?
    ensures Removed(m, gone, w) && forall p: Path :: p in gone <==> p in removed || p in paths
  {
    w, gone := v, removed;
    for n := 0 to |paths|
      invariant Removed(m, gone, w) && forall p: Path :: p in gone <==> p in removed || p in paths[..n]
    {
      RemoveOne(m, gone, w, paths[n]);
      w, gone := Delete(w, paths[n]), gone + {paths[n]};
      assert paths[..n + 1] == paths[..n] + [paths[n]];
    }
    assert paths[..|paths|] == paths;
  }

  method DeleteTop(m: Value) returns (w: Value, ghost gone: set<Path>)
    ensures Removed(m, gone, w) && forall p: Path :: p in gone <==> AtTop(p)
  {
    Untouched(m);
    w, gone := DeleteFields(m, [[AtKey(FIXTURE_MANIFEST)], [AtKey(ENVIRONMENT), AtKey(LOGICAL_PARALLELISM)]], m, {});
    for l := 0 to |MATRIX_MODELS|
      invariant Removed(m, gone, w)
      invariant forall p: Path :: p in gone <==> AtTopFor(p, MATRIX_MODELS[..l])
    {
      OneMoreModel(MATRIX_MODELS[..l], MATRIX_MODELS[l]);
      w, gone := DeleteFields(w, ModelPaths(MATRIX_MODELS[l]), m, gone);
      assert MATRIX_MODELS[..l + 1] == MATRIX_MODELS[..l] + [MATRIX_MODELS[l]];
    }
    assert MATRIX_MODELS[..|MATRIX_MODELS|] == MATRIX_MODELS;
  }

  /** The machine-dependent fields at the top, of these models only. */
  predicate AtTopFor(p: Path, models: seq<Name>) {
    AtTop(p) && (|p| == 3 ==> p[1].key in models)
  }

  lemma {:induction false} OneMoreModel(models: seq<Name>, k: Name)
    requires IsModel(k)
    ensures forall p: Path :: AtTopFor(p, models + [k]) <==> AtTopFor(p, models) || p in ModelPaths(k)
  {
    ModelPathsAre(k);
  }

  lemma {:induction false} Untouched(m: Value)
    ensures Removed(m, {}, m)
  {
  }

  method DeleteCase(v: Value, n: nat, ghost m: Value, ghost removed: set<Path>)
    returns (w: Value, ghost gone: set<Path>)
    requires Removed(m, removed, v)
    ensures Removed(m, gone, w) && forall p: Path :: p in gone <==> p in removed || InCase(n, p)
  {
    w, gone := v, removed;
    for l := 0 to |MATRIX_MODELS|
      invariant Removed(m, gone, w)
      invariant forall p: Path :: p in gone <==> p in removed || (InCase(n, p) && p[2].key in MATRIX_MODELS[..l])
    {
      CasePathsAre(n, MATRIX_MODELS[l]);
      w, gone := DeleteFields(w, CasePaths(n, MATRIX_MODELS[l]), m, gone);
      assert MATRIX_MODELS[..l + 1] == MATRIX_MODELS[..l] + [MATRIX_MODELS[l]];
    }
  }

  /** Deletes the machine-dependent fields, one after the other. */
  method DeleteAll(m: Value, n: nat) returns (w: Value, ghost gone: set<Path>)
    ensures Removed(m, gone, w) && AllowedSet(n, gone)
    ensures exists paths :: Removed(m, paths, w) && AllowedSet(n, paths)
  {
    w, gone := DeleteTop(m);
    for l := 0 to n
      invariant Removed(m, gone, w) && AllowedSet(l, gone)
    {
      w, gone := DeleteCase(w, l, m, gone);
    }
  }

  /** The script: it accepts exactly the matrices that meet the contract, and strips them. */
  method NormalizeMatrix(m: Value) returns (r: Result<Value, ContractError>)
    ensures r.Ok? <==> Contract(m)
    ensures r.Ok? ==> r.value == Strip(m)
  {
    if !TopHolds(m) {
      return Err(UnsupportedTop);
    }
    if !IsText(Field(m, FIXTURE_MANIFEST)) {
      return Err(BadManifest);
    }
    if !IsDigest(Field(m, FIXTURE_FINGERPRINT)) {
      return Err(BadFingerprint);
    }
    if !EnvironmentHolds(Field(m, ENVIRONMENT)) {
      return Err(BadEnvironment);
    }
    var models := CheckModels(Field(m, MODELS));
    if !models {
      return Err(BadModels);
    }
    if !Field(m, CASES).Array? || CasesOf(m) == [] {
      return Err(BadCases);
    }
    var top := TopPathSet();
    var bad, allowed := CheckCases(CasesOf(m), top);
    if bad.Some? {
      return Err(BadCase(bad.value));
    }
    var observed := ReservedPaths(m, []);
    if observed != allowed {
      SetsDiffer(m, observed, allowed);
      return Err(ReservedDiffer);
    }
    ghost var gone;
    var normalized;
    normalized, gone := DeleteAll(m, |CasesOf(m)|);
    assert gone == observed;
    RemovedIsStripped(m, normalized);
    r := Ok(normalized);
  }

  lemma {:induction false} SetsDiffer(m: Value, observed: set<Path>, allowed: set<Path>)
    requires AllowedSet(|CasesOf(m)|, allowed) && observed == ReservedPaths(m, []) != allowed
    ensures !ReservedMatch(m)
  {
    assert exists p: Path :: !(p in observed <==> p in allowed);
  }

  // ------------------------------------------------------------ what it means

  /** No deletion misses its field: whatever other machine-dependent fields are gone, this one is still there. */
  lemma {:induction false} DeletionsFind(m: Value, removed: set<Path>, w: Value, p: Path)
    requires Contract(m) && Removed(m, removed, w) && IsAllowed(|CasesOf(m)|, p) && p !in removed
    requires forall r: Path :: r in removed ==> IsAllowed(|CasesOf(m)|, r)
    ensures Lookup(w, p).Some?
  {
    ReservedPathsAreFound(m);
    assert p in ReservedPaths(m, []);
    forall r | r in removed ensures !(r <= p) {
      if r <= p {
        NoPrefix(|CasesOf(m)|, r, p);
      }
    }
    StillThere(m, removed, w, p);
  }

  lemma {:induction false} NoPrefix(n: nat, r: Path, p: Path)
    requires IsAllowed(n, r) && IsAllowed(n, p) && r <= p
    ensures r == p
  {
    assert r[0] == p[0];
  }

  /** At or below one of the six excluded field patterns; a pattern's star stands for any key or index. */
  predicate Excluded(p: Path) {
    || (|p| >= 1 && p[0] == AtKey(FIXTURE_MANIFEST))
    || (|p| >= 2 && p[0] == AtKey(ENVIRONMENT) && p[1] == AtKey(LOGICAL_PARALLELISM))
    || (|p| >= 3 && p[0] == AtKey(MODELS) && p[2] in {AtKey(PATH), AtKey(LOAD_MS)})
    || (|p| >= 4 && p[0] == AtKey(CASES) && p[2].AtKey? && IsModel(p[2].key) && p[3] in {AtKey(PROCESS_MS), AtKey(RTF)})
  }

  /** Two documents that show the same outside the excluded fields. */
  ghost predicate DifferOnlyAtExcluded(v: Value, w: Value) {
    forall p :: !Excluded(p) ==> ShapeAt(v, p) == ShapeAt(w, p)
  }

  lemma {:induction false} ExcludedIsNotClean(p: Path)
    requires Excluded(p)
    ensures !Clean(p)
  {
    if p[0] == AtKey(FIXTURE_MANIFEST) {
      assert IsReserved(p[0].key);
    } else if p[0] == AtKey(ENVIRONMENT) {
      assert IsReserved(p[1].key);
    } else if p[0] == AtKey(MODELS) {
      assert IsReserved(p[2].key);
    } else {
      assert IsReserved(p[3].key);
    }
  }

  /** In a matrix that meets the contract nothing reserved lies outside the excluded fields. */
  lemma {:induction false} ReservedOnlyAtExcluded(m: Value, p: Path)
    requires Contract(m) && !Clean(p) && !Excluded(p)
    ensures Lookup(m, p).None?
  {
    var n := FirstReserved(p);
    LookupThrough(m, p, n + 1);
    ReservedPathsAreFound(m);
    if Lookup(m, p[..n + 1]).Some? {
      AllowedIsExcluded(|CasesOf(m)|, p[..n + 1], p);
    }
  }

  lemma {:induction false} AllowedIsExcluded(n: nat, r: Path, p: Path)
    requires IsAllowed(n, r) && r <= p
    ensures Excluded(p)
  {
    assert forall l :: 0 <= l < |r| ==> r[l] == p[l];
  }

  lemma {:induction false} StripShape(m: Value, p: Path)
    ensures ShapeAt(Strip(m), p) == if Clean(p) then ShapeAt(m, p) else None
  {
    StripLookup(m, p);
  }

  /** Two matrices that meet the contract have equal normal forms exactly when they differ at the six excluded
      fields only. */
  lemma {:induction false} EquivalentIff(v: Value, w: Value)
    requires Contract(v) && Contract(w)
    ensures Strip(v) == Strip(w) <==> DifferOnlyAtExcluded(v, w)
  {
    if Strip(v) == Strip(w) {
      forall p | !Excluded(p) ensures ShapeAt(v, p) == ShapeAt(w, p) {
        if Clean(p) {
          StripShape(v, p);
          StripShape(w, p);
        } else {
          ReservedOnlyAtExcluded(v, p);
          ReservedOnlyAtExcluded(w, p);
        }
      }
    }
    if DifferOnlyAtExcluded(v, w) {
      forall p ensures ShapeAt(Strip(v), p) == ShapeAt(Strip(w), p) {
        StripShape(v, p);
        StripShape(w, p);
        if Clean(p) && Excluded(p) {
          ExcludedIsNotClean(p);
        }
      }
      Extensional(Strip(v), Strip(w));
    }
  }
}
