/** JSON documents as trees, their paths, and removing fields from them. */
module Json {
  import opened Wrappers

  /** The field names the matrix contract mentions, and every other one. */
  datatype Name =
    | SCHEMA | FIXTURE_MANIFEST | FIXTURE_FINGERPRINT | MODELS | ENVIRONMENT | CASES
    | ARCH | LOGICAL_PARALLELISM | OS | VISQOL_ENABLED
    | DPDFNET2 | DPDFNET8 | GTCRN
    | ID | PATH | LOAD_MS | PROCESS_MS | RTF
    | OTHER(text: string)

  /** `NonFinite` stands for the infinities and for not-a-number. */
  datatype Value =
    | Null | Bool(b: bool) | Int(i: int) | Float(r: real) | NonFinite(which: nat) | String(s: string)
    | Array(items: seq<Value>)
    | Object(fields: map<Name, Value>)

  datatype Step = AtKey(key: Name) | AtIndex(index: nat)

  type Path = seq<Step>

  predicate IsReserved(n: Name) {
    n in {FIXTURE_MANIFEST, LOGICAL_PARALLELISM, PATH, LOAD_MS, PROCESS_MS, RTF}
  }

  // ------------------------------------------------------------ paths

  function Lookup(v: Value, p: Path): Option<Value> {
    if p == [] then Some(v)
    else match p[0]
      case AtKey(k) => if v.Object? && k in v.fields then Lookup(v.fields[k], p[1..]) else None
      case AtIndex(i) => if v.Array? && i < |v.items| then Lookup(v.items[i], p[1..]) else None
  }

  /** The paths to the reserved fields of a document. */
  function ReservedPaths(v: Value, prefix: Path): set<Path> {
    match v
    case Object(fields) =>
      (set k | k in fields && IsReserved(k) :: prefix + [AtKey(k)])
      + (set k, q | k in fields && q in ReservedPaths(fields[k], prefix + [AtKey(k)]) :: q)
    case Array(items) =>
      set i, q | 0 <= i < |items| && q in ReservedPaths(items[i], prefix + [AtIndex(i)]) :: q
    case _ => {}
  }

  /** A path to a field with a reserved name. */
  predicate IsReservedPath(v: Value, p: Path) {
    p != [] && p[|p| - 1].AtKey? && IsReserved(p[|p| - 1].key) && Lookup(v, p).Some?
  }

  /** A step into a child. */
  lemma {:induction false} StepInto(v: Value, s: Step, child: Value, prefix: Path, q: Path)
    requires Lookup(v, [s]) == Some(child)
    ensures prefix + [s] <= q && IsReservedPath(child, q[|prefix| + 1..]) <==>
            prefix + [s] <= q && |q| > |prefix| + 1 && IsReservedPath(v, q[|prefix|..])
  {
    assert [s][1..] == [];
    if prefix + [s] <= q {
      var p := q[|prefix|..];
      assert p[0] == s && p[1..] == q[|prefix| + 1..];
    }
  }

  lemma {:induction false} Child(v: Value, s: Step)
    ensures Lookup(v, [s]) ==
            match s
            case AtKey(k) => if v.Object? && k in v.fields then Some(v.fields[k]) else None
            case AtIndex(i) => if v.Array? && i < |v.items| then Some(v.items[i]) else None
  {
    assert [s][1..] == [];
  }

  /** A reserved path below a prefix is a reserved field of the document or lies in one of its children. */
  lemma {:induction false} PathIs(v: Value, prefix: Path, q: Path)
    ensures q in ReservedPaths(v, prefix) <==> prefix <= q && IsReservedPath(v, q[|prefix|..])
    decreases v
  {
    match v
    case Object(fields) =>
      forall k | k in fields
        ensures q in ReservedPaths(fields[k], prefix + [AtKey(k)]) <==>
                prefix + [AtKey(k)] <= q && |q| > |prefix| + 1 && IsReservedPath(v, q[|prefix|..])
      {
        PathIs(fields[k], prefix + [AtKey(k)], q);
        Child(v, AtKey(k));
        StepInto(v, AtKey(k), fields[k], prefix, q);
      }
      if prefix <= q && IsReservedPath(v, q[|prefix|..]) {
        var k := q[|prefix|].key;
        assert q[|prefix|..][0] == q[|prefix|];
        assert prefix + [AtKey(k)] <= q;
        if |q| == |prefix| + 1 {
          assert q == prefix + [AtKey(k)];
        }
      }
      forall k | k in fields && IsReserved(k) && q == prefix + [AtKey(k)]
        ensures prefix <= q && IsReservedPath(v, q[|prefix|..])
      {
        Child(v, AtKey(k));
        assert q[|prefix|..] == [AtKey(k)];
      }
    case Array(items) =>
      forall i | 0 <= i < |items|
        ensures q in ReservedPaths(items[i], prefix + [AtIndex(i)]) <==>
                prefix + [AtIndex(i)] <= q && |q| > |prefix| + 1 && IsReservedPath(v, q[|prefix|..])
      {
        PathIs(items[i], prefix + [AtIndex(i)], q);
        Child(v, AtIndex(i));
        StepInto(v, AtIndex(i), items[i], prefix, q);
      }
      if prefix <= q && IsReservedPath(v, q[|prefix|..]) {
        assert q[|prefix|..][0] == q[|prefix|];
        var i := q[|prefix|].index;
        assert prefix + [AtIndex(i)] <= q;
        assert |q| > |prefix| + 1;
      }
    case _ =>
  }

  /** `reserved_paths` finds exactly the paths that lead to a reserved name. */
  lemma {:induction false} ReservedPathsAreFound(v: Value)
    ensures forall p :: p in ReservedPaths(v, []) <==> IsReservedPath(v, p)
  {
    forall p ensures p in ReservedPaths(v, []) <==> IsReservedPath(v, p) {
      PathIs(v, [], p);
      assert p[0..] == p;
    }
  }

  // ------------------------------------------------------------ stripping

  /** The document without its reserved fields at any depth. */
  function Strip(v: Value): Value {
    match v
    case Object(fields) => Object(map k | k in fields && !IsReserved(k) :: Strip(fields[k]))
    case Array(items) => Array(seq(|items|, i requires 0 <= i < |items| => Strip(items[i])))
    case _ => v
  }

  predicate Clean(p: Path) {
    forall n :: 0 <= n < |p| && p[n].AtKey? ==> !IsReserved(p[n].key)
  }

  /** Stripping keeps what clean paths reach, and nothing else. */
  lemma {:induction false} StripLookup(v: Value, p: Path)
    ensures Lookup(Strip(v), p) ==
            if Clean(p) then (match Lookup(v, p) case Some(x) => Some(Strip(x)) case None => None) else None
  {
    if p != [] {
      assert Clean(p) <==> (p[0].AtKey? ==> !IsReserved(p[0].key)) && Clean(p[1..]) by {
        if (p[0].AtKey? ==> !IsReserved(p[0].key)) && Clean(p[1..]) {
          forall n | 0 <= n < |p| && p[n].AtKey? ensures !IsReserved(p[n].key) {
            if n > 0 {
              assert p[n] == p[1..][n - 1];
            }
          }
        }
      }
      match p[0]
      case AtKey(k) => if v.Object? && k in v.fields { StripLookup(v.fields[k], p[1..]); }
      case AtIndex(i) => if v.Array? && i < |v.items| { StripLookup(v.items[i], p[1..]); }
    }
  }

  lemma {:induction false} NoneLeft(v: Value)
    ensures ReservedPaths(Strip(v), []) == {}
  {
    forall p ensures p !in ReservedPaths(Strip(v), []) {
      ReservedPathsAreFound(Strip(v));
      StripLookup(v, p);
    }
  }

  // ------------------------------------------------------------ what a path shows

  /** The outermost layer: a scalar, or an empty container of the same kind. */
  function Shape(v: Value): Value {
    match v
    case Object(_) => Object(map[])
    case Array(_) => Array([])
    case _ => v
  }

  function ShapeAt(v: Value, p: Path): Option<Value> {
    match Lookup(v, p) case Some(x) => Some(Shape(x)) case None => None
  }

  predicate InBounds(items: seq<Value>, i: nat) {
    i < |items|
  }

  lemma {:induction false} SameBounds(x: seq<Value>, y: seq<Value>)
    requires forall i: nat :: InBounds(x, i) <==> InBounds(y, i)
    ensures |x| == |y|
  {
    assert !InBounds(x, |x|) && !InBounds(y, |y|);
  }

  /** Documents that show the same on every path are equal. */
  lemma {:induction false} Extensional(x: Value, y: Value)
    requires forall p :: ShapeAt(x, p) == ShapeAt(y, p)
    ensures x == y
    decreases x
  {
    assert ShapeAt(x, []) == ShapeAt(y, []);
    match x
    case Object(fields) =>
      forall k ensures k in fields <==> k in y.fields {
        Child(x, AtKey(k));
        Child(y, AtKey(k));
        assert ShapeAt(x, [AtKey(k)]) == ShapeAt(y, [AtKey(k)]);
      }
      forall k | k in fields ensures fields[k] == y.fields[k] {
        Child(x, AtKey(k));
        Child(y, AtKey(k));
        Below(x, y, AtKey(k), fields[k], y.fields[k]);
        Extensional(fields[k], y.fields[k]);
      }
    case Array(items) =>
      forall i: nat ensures InBounds(items, i) <==> InBounds(y.items, i) {
        Child(x, AtIndex(i));
        Child(y, AtIndex(i));
        assert ShapeAt(x, [AtIndex(i)]) == ShapeAt(y, [AtIndex(i)]);
      }
      SameBounds(items, y.items);
      forall i | 0 <= i < |items| ensures items[i] == y.items[i] {
        Child(x, AtIndex(i));
        Child(y, AtIndex(i));
        Below(x, y, AtIndex(i), items[i], y.items[i]);
        Extensional(items[i], y.items[i]);
      }
    case _ =>
  }

  lemma {:induction false} Below(x: Value, y: Value, s: Step, a: Value, b: Value)
    requires Lookup(x, [s]) == Some(a) && Lookup(y, [s]) == Some(b)
    requires forall p :: ShapeAt(x, p) == ShapeAt(y, p)
    ensures forall p :: ShapeAt(a, p) == ShapeAt(b, p)
  {
    forall p ensures ShapeAt(a, p) == ShapeAt(b, p) {
      assert ([s] + p)[1..] == p;
      assert ShapeAt(x, [s] + p) == ShapeAt(y, [s] + p);
    }
  }

  lemma {:induction false} LookupThrough(v: Value, p: Path, n: nat)
    requires n <= |p|
    ensures Lookup(v, p) == match Lookup(v, p[..n]) case Some(x) => Lookup(x, p[n..]) case None => None
  {
    if n == 0 {
      assert p[0..] == p;
    } else {
      assert p[..n][1..] == p[1..][..n - 1] && p[n..] == p[1..][n - 1..];
      match p[0]
      case AtKey(k) => if v.Object? && k in v.fields { LookupThrough(v.fields[k], p[1..], n - 1); }
      case AtIndex(i) => if v.Array? && i < |v.items| { LookupThrough(v.items[i], p[1..], n - 1); }
    }
  }

  /** The first reserved step of a path that is not clean. */
  lemma {:induction false} FirstReserved(p: Path) returns (n: nat)
    requires !Clean(p)
    ensures n < |p| && p[n].AtKey? && IsReserved(p[n].key) && Clean(p[..n])
  {
    n := 0;
    while !(p[n].AtKey? && IsReserved(p[n].key))
      invariant n < |p| && Clean(p[..n])
      decreases |p| - n
    {
      if n + 1 == |p| {
        assert Clean(p) by {
          assert forall m :: 0 <= m < n && p[m].AtKey? ==> !IsReserved(p[..n][m].key);
        }
      }
      assert p[..n + 1] == p[..n] + [p[n]];
      n := n + 1;
    }
  }

  // ------------------------------------------------------------ taking a document apart and putting it together

  /** The removed fields with their paths. */
  ghost function Leaves(v: Value): map<Path, Value> {
    map p | p in ReservedPaths(v, []) :: match Lookup(v, p) case Some(x) => x case None => Null
  }

  lemma {:induction false} LeafIs(v: Value, p: Path)
    requires p != [] && p[|p| - 1].AtKey? && IsReserved(p[|p| - 1].key)
    ensures p in Leaves(v) <==> Lookup(v, p).Some?
    ensures p in Leaves(v) ==> Lookup(v, p) == Some(Leaves(v)[p])
  {
    ReservedPathsAreFound(v);
  }

  lemma {:induction false} SamePartsSameShape(x: Value, y: Value, p: Path)
    requires Strip(x) == Strip(y) && Leaves(x) == Leaves(y)
    ensures ShapeAt(x, p) == ShapeAt(y, p)
  {
    if Clean(p) {
      StripLookup(x, p);
      StripLookup(y, p);
    } else {
      var n := FirstReserved(p);
      LookupThrough(x, p, n + 1);
      LookupThrough(y, p, n + 1);
      LeafIs(x, p[..n + 1]);
      LeafIs(y, p[..n + 1]);
    }
  }

  /** A document is determined by its stripped form and the fields that were removed. */
  lemma {:induction false} PartsDetermine(x: Value, y: Value)
    ensures x == y <==> Strip(x) == Strip(y) && Leaves(x) == Leaves(y)
  {
    if Strip(x) == Strip(y) && Leaves(x) == Leaves(y) {
      forall p ensures ShapeAt(x, p) == ShapeAt(y, p) {
        SamePartsSameShape(x, y, p);
      }
      Extensional(x, y);
    }
  }

  // ------------------------------------------------------------ removing one field

  /** `del` of the field at a path. */
  function Delete(v: Value, p: Path): Value
    requires p != []
  {
    match p[0]
    case AtKey(k) =>
      if v.Object? && k in v.fields then
        if |p| == 1 then Object(v.fields - {k}) else Object(v.fields[k := Delete(v.fields[k], p[1..])])
      else v
    case AtIndex(i) =>
      if v.Array? && i < |v.items| && |p| > 1 then Array(v.items[i := Delete(v.items[i], p[1..])]) else v
  }

  /** Only what lies at the path or below it disappears. */
  lemma {:induction false} DeleteShape(v: Value, p: Path, q: Path)
    requires p != [] && p[|p| - 1].AtKey?
    ensures ShapeAt(Delete(v, p), q) == if p <= q then None else ShapeAt(v, q)
  {
    if q != [] && p[0] == q[0] {
      assert p <= q <==> p[1..] <= q[1..];
      match p[0]
      case AtKey(k) => if v.Object? && k in v.fields && |p| > 1 { DeleteShape(v.fields[k], p[1..], q[1..]); }
      case AtIndex(i) => if v.Array? && i < |v.items| { DeleteShape(v.items[i], p[1..], q[1..]); }
    }
  }

  ghost predicate Gone(removed: set<Path>, q: Path) {
    exists r :: r in removed && r <= q
  }

  /** `w` is `v` with the fields at the removed paths deleted. */
  ghost predicate Removed(v: Value, removed: set<Path>, w: Value) {
    forall q :: ShapeAt(w, q) == if Gone(removed, q) then None else ShapeAt(v, q)
  }

  lemma {:induction false} RemoveOne(v: Value, removed: set<Path>, w: Value, p: Path)
    requires Removed(v, removed, w) && p != [] && p[|p| - 1].AtKey?
    ensures Removed(v, removed + {p}, Delete(w, p))
  {
    forall q ensures ShapeAt(Delete(w, p), q) == if Gone(removed + {p}, q) then None else ShapeAt(v, q) {
      DeleteShape(w, p, q);
      if Gone(removed, q) {
        var r :| r in removed && r <= q;
        assert r in removed + {p};
      } else if p <= q {
        assert p in removed + {p};
      } else {
        assert !Gone(removed + {p}, q);
      }
    }
  }

  /** A field that is there and has not been removed, nor lies below one that has, is found. */
  lemma {:induction false} StillThere(v: Value, removed: set<Path>, w: Value, p: Path)
    requires Removed(v, removed, w) && Lookup(v, p).Some? && !Gone(removed, p)
    ensures Lookup(w, p).Some?
  {
    assert ShapeAt(w, p) == ShapeAt(v, p);
  }

  /** Deleting every reserved path is stripping. */
  lemma {:induction false} RemovedIsStripped(v: Value, w: Value)
    requires Removed(v, ReservedPaths(v, []), w)
    ensures w == Strip(v)
  {
    forall q ensures ShapeAt(w, q) == ShapeAt(Strip(v), q) {
      StripLookup(v, q);
      ReservedPathsAreFound(v);
      if Clean(q) {
        CleanIsNotGone(v, q);
      } else {
        var n := FirstReserved(q);
        LookupThrough(v, q, n + 1);
        if Lookup(v, q[..n + 1]).Some? {
          assert q[..n + 1] in ReservedPaths(v, []) && q[..n + 1] <= q;
        }
      }
    }
    Extensional(w, Strip(v));
  }

  lemma {:induction false} CleanIsNotGone(v: Value, q: Path)
    requires Clean(q)
    ensures !Gone(ReservedPaths(v, []), q)
  {
    ReservedPathsAreFound(v);
    forall r | r in ReservedPaths(v, []) ensures !(r <= q) {
      var n := |r| - 1;
      assert n >= |q| || q[n] != r[n];
    }
  }
}
