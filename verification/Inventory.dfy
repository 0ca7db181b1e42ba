/** Normalizing a software inventory: references are replaced by stable ones, the top component's dependencies
    become the direct references, and the result does not depend on the order of the input. */
module Inventory {
  import opened Wrappers
  import opened Sorting
  import opened Texts

  /** A component: its reference, whether it is a source file, its name and everything else about it. */
  datatype Component = Component(ref: Option<string>, isFile: bool, name: string, rest: string)

  /** A dependency row; rows without a reference are skipped. */
  datatype Row = Row(ref: Option<string>, children: seq<string>)

  datatype Document = Document(top: Option<string>, components: seq<Component>, rows: seq<Row>)

  datatype Edges = Edges(ref: string, children: seq<string>)

  datatype Normalized = Normalized(components: seq<Component>, rows: seq<Edges>, direct: seq<string>)

  /** `stable` is the reference hash within a namespace, `dump` the text a component is sorted by. */
  datatype Naming = Naming(stable: string -> string, lockfile: string, lockName: string, dump: Component -> string)

  // ------------------------------------------------------------ references

  predicate IsLockRef(components: seq<Component>, ref: string) {
    exists i :: 0 <= i < |components| && components[i].isFile && components[i].ref == Some(ref)
  }

  /** The stable reference of a reference: source files share the one of the lock file. */
  function RefOf(n: Naming, components: seq<Component>, ref: string): string {
    if IsLockRef(components, ref) then n.stable(n.lockfile) else n.stable(ref)
  }

  predicate Mentions(d: Document, ref: string) {
    || (d.top == Some(ref) && ref != "")
    || (exists i :: 0 <= i < |d.components| && d.components[i].ref == Some(ref))
    || (exists i :: 0 <= i < |d.rows| && (d.rows[i].ref == Some(ref) || ref in d.rows[i].children))
  }

  function RowRefs(row: Row): set<string> {
    (if row.ref.Some? then {row.ref.value} else {}) + set c | c in row.children
  }

  /** Collects every reference of the document. */
  method CollectRefs(d: Document) returns (refs: set<string>)
    ensures forall ref :: ref in refs <==> Mentions(d, ref)
  {
    refs := if d.top.Some? && d.top.value != "" then {d.top.value} else {};
    for i := 0 to |d.components|
      invariant forall ref :: ref in refs <==>
        (d.top == Some(ref) && ref != "") || exists k :: 0 <= k < i && d.components[k].ref == Some(ref)
    {
      if d.components[i].ref.Some? {
        refs := refs + {d.components[i].ref.value};
      }
    }
    ghost var before := refs;
    for i := 0 to |d.rows|
      invariant forall ref :: ref in refs <==>
        ref in before || exists k :: 0 <= k < i && (d.rows[k].ref == Some(ref) || ref in d.rows[k].children)
    {
      refs := refs + RowRefs(d.rows[i]);
    }
  }

  /** The reference map: every reference hashed, then the source files redirected to the lock file. */
  method BuildMap(n: Naming, d: Document, refs: set<string>) returns (refMap: map<string, string>)
    requires forall ref :: ref in refs <==> Mentions(d, ref)
    ensures refMap.Keys == refs && forall ref :: ref in refMap ==> refMap[ref] == RefOf(n, d.components, ref)
  {
    refMap := map ref | ref in refs :: n.stable(ref);
    for i := 0 to |d.components|
      invariant refMap.Keys == refs && Renames(n, d.components[..i], refMap)
    {
      OneMoreLock(n, d.components, i, refMap);
      var c := d.components[i];
      if c.isFile && c.ref.Some? {
        assert Mentions(d, c.ref.value);
        refMap := refMap[c.ref.value := n.stable(n.lockfile)];
      }
    }
    assert d.components[..|d.components|] == d.components;
  }

  /** The map gives every reference the one it has among these components. */
  predicate Renames(n: Naming, components: seq<Component>, refMap: map<string, string>) {
    forall ref :: ref in refMap ==> refMap[ref] == RefOf(n, components, ref)
  }

  lemma {:induction false} OneMoreLock(n: Naming, components: seq<Component>, i: nat, refMap: map<string, string>)
    requires i < |components| && Renames(n, components[..i], refMap)
    ensures
      var c := components[i];
      if c.isFile && c.ref.Some? then Renames(n, components[..i + 1], refMap[c.ref.value := n.stable(n.lockfile)])
      else Renames(n, components[..i + 1], refMap)
  {
    var before, after, c := components[..i], components[..i + 1], components[i];
    assert after == before + [c];
    forall ref ensures IsLockRef(after, ref) <==> IsLockRef(before, ref) || (c.isFile && c.ref == Some(ref)) {
      if IsLockRef(before, ref) {
        var k :| 0 <= k < |before| && before[k].isFile && before[k].ref == Some(ref);
        assert after[k] == before[k];
      }
      assert after[i] == c;
    }
  }

  // ------------------------------------------------------------ sorted sets of references

  function ByText(): (string, string) -> bool {
    (x: string, y: string) => Less(x, y)
  }

  /** The elements of a set of strings in order. */
  ghost predicate IsSortedSet(s: set<string>, r: seq<string>) {
    && (forall x :: x in r <==> x in s)
    && forall i, j {:trigger Less(r[i], r[j])} :: 0 <= i < j < |r| ==> Less(r[i], r[j])
  }

  lemma {:induction false} TextOrder()
    ensures WeakOrder(ByText())
  {
    forall x: string, y: string ensures !(Less(x, y) && Less(y, x)) {
      LessTotal(x, y);
    }
    forall x: string, y: string, z: string | !Less(y, x) && !Less(z, y) ensures !Less(z, x) {
      NotAfter(x, y, z);
    }
  }

  lemma {:induction false} SortedSetFacts(s: set<string>, r: seq<string>)
    requires IsSortedSet(s, r)
    ensures Ordered(r, ByText()) && Distinct(r)
  {
    forall i, j | 0 <= i < j < |r| ensures !Less(r[j], r[i]) && r[i] != r[j] {
      assert Less(r[i], r[j]);
      LessTotal(r[i], r[j]);
    }
  }

  lemma {:induction false} NoTextTies(s: multiset<string>)
    ensures NoTies(s, ByText())
  {
    forall x: string, y: string | x != y ensures Less(x, y) || Less(y, x) {
      LessTotal(x, y);
    }
  }

  lemma {:induction false} SortedSetIsUnique(s: set<string>, r: seq<string>, t: seq<string>)
    requires IsSortedSet(s, r) && IsSortedSet(s, t)
    ensures r == t
  {
    SortedSetFacts(s, r);
    SortedSetFacts(s, t);
    TextOrder();
    NoTextTies(multiset(r));
    SetIsUnique(r, t, ByText());
  }

  /** Sorts a set of strings, smallest first. */
  method SortSet(s: set<string>) returns (r: seq<string>)
    ensures IsSortedSet(s, r)
  {
    r := [];
    var rest := s;
    while |rest| > 0
      invariant rest <= s && IsSortedSet(s - rest, r)
      invariant forall x, y {:trigger Less(x, y)} :: x in r && y in rest ==> Less(x, y)
      decreases |rest|
    {
      var x := Smallest(rest);
      r, rest := r + [x], rest - {x};
    }
  }

  method Smallest(s: set<string>) returns (x: string)
    requires |s| > 0
    ensures x in s && forall y {:trigger Less(x, y)} :: y in s && y != x ==> Less(x, y)
  {
    x :| x in s;
    var rest := s - {x};
    while |rest| > 0
      invariant rest <= s && x in s && x !in rest
      invariant forall y {:trigger Less(x, y)} :: y in s && y !in rest && y != x ==> Less(x, y)
      decreases |rest|
    {
      var y :| y in rest;
      LessTotal(x, y);
      if Less(y, x) {
        forall z | z in s && z !in rest && z != x ensures Less(y, z) {
          assert Less(x, z);
          LessTransitive(y, x, z);
        }
        x := y;
      }
      rest := rest - {y};
    }
  }

  // ------------------------------------------------------------ the normal form

  function NormalComponent(n: Naming, components: seq<Component>, c: Component): Component {
    Component(match c.ref case None => None case Some(ref) => Some(RefOf(n, components, ref)),
              c.isFile, if c.isFile then n.lockName else c.name, c.rest)
  }

  function Normalizing(n: Naming, components: seq<Component>): Component -> Component {
    c => NormalComponent(n, components, c)
  }

  function ByDump(n: Naming): (Component, Component) -> bool {
    (x: Component, y: Component) => Less(n.dump(x), n.dump(y))
  }

  function ByRef(): (Edges, Edges) -> bool {
    (x: Edges, y: Edges) => Less(x.ref, y.ref)
  }

  /** The rows that stay rows: those with a reference that is not the top component's. */
  predicate Stays(d: Document, row: Row) {
    row.ref.Some? && row.ref != d.top
  }

  function Kept(d: Document, n: nat): (r: seq<Row>)
    requires n <= |d.rows|
    ensures forall x :: x in r <==> Stays(d, x) && exists i :: 0 <= i < n && d.rows[i] == x
  {
    if n == 0 then [] else Kept(d, n - 1) + if Stays(d, d.rows[n - 1]) then [d.rows[n - 1]] else []
  }

  ghost function ChildRefs(n: Naming, components: seq<Component>, children: seq<string>): set<string> {
    set c | c in children :: RefOf(n, components, c)
  }

  ghost predicate IsRow(n: Naming, components: seq<Component>, row: Row, e: Edges) {
    row.ref.Some? && e.ref == RefOf(n, components, row.ref.value)
        && IsSortedSet(ChildRefs(n, components, row.children), e.children)
  }

  ghost predicate AreRows(n: Naming, components: seq<Component>, rows: seq<Row>, drafts: seq<Edges>) {
    |drafts| == |rows| && forall i :: 0 <= i < |rows| ==> IsRow(n, components, rows[i], drafts[i])
  }

  /** The references the top component depends on. */
  ghost function TopRefs(n: Naming, d: Document): set<string> {
    set i, c | 0 <= i < |d.rows| && d.rows[i].ref.Some? && d.rows[i].ref == d.top && c in d.rows[i].children ::
        RefOf(n, d.components, c)
  }

  ghost function ComponentRefs(components: seq<Component>): set<string> {
    set i | 0 <= i < |components| && components[i].ref.Some? :: components[i].ref.value
  }

  ghost function DirectRefs(n: Naming, d: Document, components: seq<Component>): set<string> {
    if TopRefs(n, d) == {} then ComponentRefs(components) else TopRefs(n, d)
  }

  ghost predicate IsNormalized(n: Naming, d: Document, o: Normalized, drafts: seq<Edges>) {
    && o.components == Sort(Map(d.components, Normalizing(n, d.components)), ByDump(n))
    && AreRows(n, d.components, Kept(d, |d.rows|), drafts) && o.rows == Sort(drafts, ByRef())
    && IsSortedSet(DirectRefs(n, d, o.components), o.direct)
  }

  // ------------------------------------------------------------ the script

  method NormalizeComponents(n: Naming, d: Document, refMap: map<string, string>) returns (components: seq<Component>)
    requires forall ref :: ref in refMap <==> Mentions(d, ref)
    requires forall ref :: ref in refMap ==> refMap[ref] == RefOf(n, d.components, ref)
    ensures components == Map(d.components, Normalizing(n, d.components))
  {
    components := [];
    for i := 0 to |d.components|
      invariant |components| == i
      invariant forall k :: 0 <= k < i ==> components[k] == NormalComponent(n, d.components, d.components[k])
    {
      var c := d.components[i];
      var normalized := c;
      if c.ref.Some? {
        assert Mentions(d, c.ref.value);
        normalized := normalized.(ref := Some(refMap[c.ref.value]));
      }
      if c.isFile {
        normalized := normalized.(name := n.lockName);
      }
      components := components + [normalized];
    }
  }

  method MapChildren(n: Naming, d: Document, refMap: map<string, string>, i: nat)
    returns (children: seq<string>, ghost refs: set<string>)
    requires i < |d.rows| && forall ref :: ref in refMap <==> Mentions(d, ref)
    requires forall ref :: ref in refMap ==> refMap[ref] == RefOf(n, d.components, ref)
    ensures refs == ChildRefs(n, d.components, d.rows[i].children) && IsSortedSet(refs, children)
  {
    var row := d.rows[i];
    forall c | c in row.children ensures c in refMap {
      assert Mentions(d, c);
    }
    var mapped := set c | c in row.children && c in refMap :: refMap[c];
    refs := mapped;
    children := SortSet(mapped);
  }

  /** The top references of the first `m` rows. */
  ghost function TopRefsBefore(n: Naming, d: Document, m: nat): set<string>
    requires m <= |d.rows|
  {
    set i, c | 0 <= i < m && d.rows[i].ref.Some? && d.rows[i].ref == d.top && c in d.rows[i].children ::
        RefOf(n, d.components, c)
  }

  lemma {:induction false} OneMoreRow(n: Naming, d: Document, m: nat)
    requires m < |d.rows|
    ensures TopRefsBefore(n, d, m + 1) ==
            TopRefsBefore(n, d, m) + if d.rows[m].ref.Some? && d.rows[m].ref == d.top
                then ChildRefs(n, d.components, d.rows[m].children) else {}
  {
  }

  /** Rows with a reference become edges or, for the top component, direct references. */
  method NormalizeRows(n: Naming, d: Document, refMap: map<string, string>)
    returns (drafts: seq<Edges>, direct: set<string>)
    requires forall ref :: ref in refMap <==> Mentions(d, ref)
    requires forall ref :: ref in refMap ==> refMap[ref] == RefOf(n, d.components, ref)
    ensures AreRows(n, d.components, Kept(d, |d.rows|), drafts) && direct == TopRefs(n, d)
  {
    drafts, direct := [], {};
    for i := 0 to |d.rows|
      invariant AreRows(n, d.components, Kept(d, i), drafts) && direct == TopRefsBefore(n, d, i)
    {
      OneMoreRow(n, d, i);
      var row := d.rows[i];
      if row.ref.None? {
        continue;
      }
      var children, refs := MapChildren(n, d, refMap, i);
      if row.ref == d.top {
        direct := direct + set c | c in children;
        continue;
      }
      assert Mentions(d, row.ref.value);
      drafts := drafts + [Edges(refMap[row.ref.value], children)];
    }
    assert TopRefsBefore(n, d, |d.rows|) == TopRefs(n, d);
  }

  method RefsOf(components: seq<Component>) returns (refs: set<string>)
    ensures refs == ComponentRefs(components)
  {
    refs := {};
    for i := 0 to |components|
      invariant refs == set k | 0 <= k < i && components[k].ref.Some? :: components[k].ref.value
    {
      if components[i].ref.Some? {
        refs := refs + {components[i].ref.value};
      }
    }
  }

  /** Some list of renamed rows gives this inventory. */
  ghost predicate Normalizes(n: Naming, d: Document, o: Normalized) {
    exists drafts :: IsNormalized(n, d, o, drafts)
  }

  lemma {:induction false} ByRows(n: Naming, d: Document, o: Normalized, drafts: seq<Edges>)
    requires IsNormalized(n, d, o, drafts)
    ensures Normalizes(n, d, o)
  {
  }

  /** The script. */
  method NormalizedInventory(n: Naming, d: Document) returns (o: Normalized, ghost drafts: seq<Edges>)
    ensures IsNormalized(n, d, o, drafts)
    ensures Normalizes(n, d, o)
  {
    var refs := CollectRefs(d);
    var refMap := BuildMap(n, d, refs);
    var unsorted := NormalizeComponents(n, d, refMap);
    var components := Sort(unsorted, ByDump(n));
    var edges, direct := NormalizeRows(n, d, refMap);
    drafts := edges;
    if direct == {} {
      direct := RefsOf(components);
    }
    var sorted := SortSet(direct);
    o := Normalized(components, Sort(edges, ByRef()), sorted);
    ByRows(n, d, o, drafts);
  }

  // ------------------------------------------------------------ no edge is lost

  /** An edge of a normalized inventory. */
  predicate HasEdge(o: Normalized, from: string, to: string) {
    exists i :: 0 <= i < |o.rows| && o.rows[i].ref == from && to in o.rows[i].children
  }

  /** Row `i` of the document has an edge that is renamed to this one. */
  predicate RenamesRow(n: Naming, d: Document, i: int, from: string, to: string)
    requires 0 <= i < |d.rows|
  {
    Stays(d, d.rows[i]) && RefOf(n, d.components, d.rows[i].ref.value) == from
        && RenamesChild(n, d.components, d.rows[i].children, to)
  }

  predicate RenamesChild(n: Naming, components: seq<Component>, children: seq<string>, to: string) {
    exists c :: c in children && RefOf(n, components, c) == to
  }

  lemma {:induction false} RowChildren(n: Naming, components: seq<Component>, row: Row, e: Edges, to: string)
    requires IsRow(n, components, row, e)
    ensures to in e.children <==> RenamesChild(n, components, row.children, to)
  {
    assert to in e.children <==> to in ChildRefs(n, components, row.children);
  }

  lemma {:induction false} EdgeComesFromRow(n: Naming, d: Document, o: Normalized, drafts: seq<Edges>, from: string,
          to: string)
    requires IsNormalized(n, d, o, drafts) && HasEdge(o, from, to)
    ensures exists i :: 0 <= i < |d.rows| && RenamesRow(n, d, i, from, to)
  {
    var k :| 0 <= k < |o.rows| && o.rows[k].ref == from && to in o.rows[k].children;
    SortElements(drafts, ByRef(), o.rows[k]);
    var j :| 0 <= j < |drafts| && drafts[j] == o.rows[k];
    var row := Kept(d, |d.rows|)[j];
    assert IsRow(n, d.components, row, drafts[j]);
    assert row in Kept(d, |d.rows|);
    var i :| 0 <= i < |d.rows| && d.rows[i] == row;
    RowChildren(n, d.components, row, drafts[j], to);
    assert RenamesRow(n, d, i, from, to);
  }

  lemma {:induction false} RowGivesEdge(n: Naming, d: Document, o: Normalized, drafts: seq<Edges>, i: nat,
          from: string, to: string)
    requires IsNormalized(n, d, o, drafts) && i < |d.rows| && RenamesRow(n, d, i, from, to)
    ensures HasEdge(o, from, to)
  {
    var row := d.rows[i];
    assert row in Kept(d, |d.rows|);
    var j :| 0 <= j < |Kept(d, |d.rows|)| && Kept(d, |d.rows|)[j] == row;
    assert IsRow(n, d.components, row, drafts[j]);
    RowChildren(n, d.components, row, drafts[j], to);
    assert drafts[j] in drafts;
    SortElements(drafts, ByRef(), drafts[j]);
    var k :| 0 <= k < |o.rows| && o.rows[k] == drafts[j];
  }

  /** The edges of the normal form are exactly the renamed edges of the document outside the top row, and the
      direct references are the renamed dependencies of the top component when it has any. */
  lemma {:induction false} EdgesAreRenamed(n: Naming, d: Document, o: Normalized, drafts: seq<Edges>)
    requires IsNormalized(n, d, o, drafts)
    ensures forall from, to :: HasEdge(o, from, to) <==> exists i :: 0 <= i < |d.rows| && RenamesRow(n, d, i, from, to)
    ensures forall ref :: ref in o.direct <==> ref in DirectRefs(n, d, o.components)
  {
    forall from, to ensures HasEdge(o, from, to) <==> exists i :: 0 <= i < |d.rows| && RenamesRow(n, d, i, from, to) {
      if HasEdge(o, from, to) {
        EdgeComesFromRow(n, d, o, drafts, from, to);
      }
      if i :| 0 <= i < |d.rows| && RenamesRow(n, d, i, from, to) {
        RowGivesEdge(n, d, o, drafts, i, from, to);
      }
    }
  }

  // ------------------------------------------------------------ order does not matter

  function Children(row: Row): set<string> {
    set c | c in row.children
  }

  function Canon(): Row -> (Option<string>, set<string>) {
    (row: Row) => (row.ref, Children(row))
  }

  /** Two documents that differ in the order of components, rows and children at most. */
  ghost predicate Reordered(d: Document, e: Document) {
    d.top == e.top && multiset(d.components) == multiset(e.components)
        && multiset(Map(d.rows, Canon())) == multiset(Map(e.rows, Canon()))
  }

  function RowRef(n: Naming, d: Document, row: Row): string {
    match row.ref case Some(ref) => RefOf(n, d.components, ref) case None => ""
  }

  /** No two rows that stay get one reference. */
  predicate DistinctRows(n: Naming, d: Document) {
    var kept := Kept(d, |d.rows|);
    forall i, j :: 0 <= i < j < |kept| ==> RowRef(n, d, kept[i]) != RowRef(n, d, kept[j])
  }

  /** Rows that get one reference get the same children. */
  ghost predicate TiedRowsAgree(n: Naming, d: Document) {
    forall i, j :: 0 <= i < |d.rows| && 0 <= j < |d.rows| && Tied(n, d, d.rows[i], d.rows[j]) ==>
      ChildRefs(n, d.components, d.rows[i].children) == ChildRefs(n, d.components, d.rows[j].children)
  }

  /** Two rows that stay and get one reference. */
  predicate Tied(n: Naming, d: Document, a: Row, b: Row) {
    Stays(d, a) && Stays(d, b) && RowRef(n, d, a) == RowRef(n, d, b)
  }

  /** Different components are dumped differently. */
  ghost predicate DumpsApart(n: Naming) {
    forall x, y {:trigger n.dump(x), n.dump(y)} :: n.dump(x) == n.dump(y) ==> x == y
  }

  lemma {:induction false} SameMembers<T>(s: seq<T>, t: seq<T>, x: T)
    requires multiset(s) == multiset(t)
    ensures x in s <==> x in t
  {
    assert x in multiset(s) <==> x in multiset(t);
  }

  lemma {:induction false} LockMoves(d: Document, e: Document, ref: string)
    requires Reordered(d, e) && IsLockRef(d.components, ref)
    ensures IsLockRef(e.components, ref)
  {
    var i :| 0 <= i < |d.components| && d.components[i].isFile && d.components[i].ref == Some(ref);
    SameMembers(d.components, e.components, d.components[i]);
    var j :| 0 <= j < |e.components| && e.components[j] == d.components[i];
  }

  lemma {:induction false} SameRefs(n: Naming, d: Document, e: Document, ref: string)
    requires Reordered(d, e)
    ensures RefOf(n, d.components, ref) == RefOf(n, e.components, ref)
  {
    if IsLockRef(d.components, ref) {
      LockMoves(d, e, ref);
    }
    if IsLockRef(e.components, ref) {
      LockMoves(e, d, ref);
    }
  }

  lemma {:induction false} DumpOrder(n: Naming)
    ensures WeakOrder(ByDump(n))
  {
    forall x: Component, y: Component ensures !(Less(n.dump(x), n.dump(y)) && Less(n.dump(y), n.dump(x))) {
      LessTotal(n.dump(x), n.dump(y));
    }
    forall x: Component, y: Component, z: Component | !Less(n.dump(y), n.dump(x)) && !Less(n.dump(z), n.dump(y))
      ensures !Less(n.dump(z), n.dump(x))
    {
      NotAfter(n.dump(x), n.dump(y), n.dump(z));
    }
  }

  lemma {:induction false} RefOrder()
    ensures WeakOrder(ByRef())
  {
    forall x: Edges, y: Edges ensures !(Less(x.ref, y.ref) && Less(y.ref, x.ref)) {
      LessTotal(x.ref, y.ref);
    }
    forall x: Edges, y: Edges, z: Edges | !Less(y.ref, x.ref) && !Less(z.ref, y.ref) ensures !Less(z.ref, x.ref) {
      NotAfter(x.ref, y.ref, z.ref);
    }
  }

  lemma {:induction false} SameMap(n: Naming, d: Document, e: Document, s: seq<Component>)
    requires Reordered(d, e)
    ensures Map(s, Normalizing(n, d.components)) == Map(s, Normalizing(n, e.components))
  {
    forall i | 0 <= i < |s| ensures NormalComponent(n, d.components, s[i]) == NormalComponent(n, e.components, s[i]) {
      if s[i].ref.Some? {
        SameRefs(n, d, e, s[i].ref.value);
      }
    }
  }

  lemma {:induction false} SameComponents(n: Naming, d: Document, e: Document)
    requires Reordered(d, e) && DumpsApart(n)
    ensures Sort(Map(d.components, Normalizing(n, d.components)), ByDump(n))
        == Sort(Map(e.components, Normalizing(n, e.components)), ByDump(n))
  {
    var s, t := Map(d.components, Normalizing(n, d.components)), Map(e.components, Normalizing(n, e.components));
    SameMap(n, d, e, e.components);
    MapPermutes(d.components, e.components, Normalizing(n, d.components));
    DumpOrder(n);
    forall x: Component, y: Component | x != y ensures Less(n.dump(x), n.dump(y)) || Less(n.dump(y), n.dump(x)) {
      LessTotal(n.dump(x), n.dump(y));
    }
    SortIsInvariant(s, t, ByDump(n));
  }

  /** A row of one document has a row with the same reference and the same children in the other. */
  lemma {:induction false} Counterpart(d: Document, e: Document, row: Row) returns (other: Row)
    requires Reordered(d, e) && row in d.rows
    ensures other in e.rows && other.ref == row.ref && Children(other) == Children(row)
  {
    var i :| 0 <= i < |d.rows| && d.rows[i] == row;
    assert Map(d.rows, Canon())[i] in Map(d.rows, Canon());
    SameMembers(Map(d.rows, Canon()), Map(e.rows, Canon()), Canon()(row));
    var j :| 0 <= j < |e.rows| && Map(e.rows, Canon())[j] == Canon()(row);
    other := e.rows[j];
  }

  // ------------------------------------------------------------ the drafts of reordered rows

  /** The renamed row of a reference and a set of children, if it stays. */
  ghost function Draft(n: Naming, d: Document, ref: Option<string>, children: set<string>): Option<Edges> {
    if ref.None? || ref == d.top then None
    else
      var refs := set c | c in children :: RefOf(n, d.components, c);
      SortedSetExists(refs);
      var r :| IsSortedSet(refs, r);
      Some(Edges(RefOf(n, d.components, ref.value), r))
  }

  ghost function Drafting(n: Naming, d: Document): ((Option<string>, set<string>)) -> Option<Edges> {
    (row: (Option<string>, set<string>)) => Draft(n, d, row.0, row.1)
  }

  lemma {:induction false} SortedSetExists(s: set<string>)
    ensures exists r :: IsSortedSet(s, r)
  {
    if |s| > 0 {
      var x :| x in s;
      SortedSetExists(s - {x});
      var rest :| IsSortedSet(s - {x}, rest);
      OneMoreText(s, x, rest);
    } else {
      assert IsSortedSet(s, []);
    }
  }

  lemma {:induction false} OneMoreText(s: set<string>, x: string, rest: seq<string>)
    requires x in s && IsSortedSet(s - {x}, rest)
    ensures IsSortedSet(s, Sort(rest + [x], ByText()))
  {
    var all := rest + [x];
    var r := Sort(all, ByText());
    SortedSetFacts(s - {x}, rest);
    TextOrder();
    SortOrders(all, ByText());
    SortDistinct(all, ByText());
    forall y ensures y in r <==> y in s {
      SortElements(all, ByText(), y);
      assert y in all <==> y in rest || y == x;
    }
    forall i, j | 0 <= i < j < |r| ensures Less(r[i], r[j]) {
      assert !ByText()(r[j], r[i]);
      LessTotal(r[i], r[j]);
    }
  }

  /** The draft of a row is the renamed row. */
  lemma {:induction false} DraftIsRow(n: Naming, d: Document, row: Row, e: Edges)
    requires Stays(d, row)
    ensures Draft(n, d, row.ref, Children(row)) == Some(e) <==> IsRow(n, d.components, row, e)
  {
    var refs := set c | c in Children(row) :: RefOf(n, d.components, c);
    assert refs == ChildRefs(n, d.components, row.children);
    var draft := Draft(n, d, row.ref, Children(row)).value;
    assert IsSortedSet(refs, draft.children);
    if IsSortedSet(refs, e.children) {
      SortedSetIsUnique(refs, draft.children, e.children);
    }
  }

  /** Reordered documents draft every row alike. */
  lemma {:induction false} SameDraft(n: Naming, d: Document, e: Document, ref: Option<string>, children: set<string>)
    requires Reordered(d, e)
    ensures Draft(n, d, ref, children) == Draft(n, e, ref, children)
  {
    if ref.Some? && ref != d.top {
      var x := set c | c in children :: RefOf(n, d.components, c);
      var y := set c | c in children :: RefOf(n, e.components, c);
      forall c ensures RefOf(n, d.components, c) == RefOf(n, e.components, c) {
        SameRefs(n, d, e, c);
      }
      assert x == y;
      SortedSetIsUnique(x, Draft(n, d, ref, children).value.children, Draft(n, e, ref, children).value.children);
    }
  }

  ghost predicate DraftsRow(n: Naming, d: Document, row: Row, o: Option<Edges>) {
    o == Draft(n, d, row.ref, Children(row))
  }

  /** The drafts of the first rows. */
  ghost predicate AreDrafts(n: Naming, d: Document, t: seq<Option<Edges>>) {
    |t| <= |d.rows| && forall i {:trigger DraftsRow(n, d, d.rows[i], t[i])} :: 0 <= i < |t| ==>
        DraftsRow(n, d, d.rows[i], t[i])
  }

  lemma {:induction false} FewerDrafts(n: Naming, d: Document, t: seq<Option<Edges>>)
    requires AreDrafts(n, d, t) && t != []
    ensures AreDrafts(n, d, t[..|t| - 1]) && t[|t| - 1] == Draft(n, d, d.rows[|t| - 1].ref, Children(d.rows[|t| - 1]))
    ensures t == t[..|t| - 1] + [t[|t| - 1]]
  {
    var m := |t| - 1;
    assert DraftsRow(n, d, d.rows[m], t[m]);
    forall i: nat | i < m ensures DraftsRow(n, d, d.rows[i], t[..m][i]) {
      assert DraftsRow(n, d, d.rows[i], t[i]);
    }
  }

  lemma {:induction false} CountSnoc(x: seq<Edges>, t: seq<Option<Edges>>, o: Option<Edges>, v: Edges)
    requires multiset(x)[v] == multiset(t)[Some(v)]
    ensures multiset(if o.Some? then x + [o.value] else x)[v] == multiset(t + [o])[Some(v)]
  {
  }

  /** The last of the first `m` rows adds its draft, if it stays. */
  lemma {:induction false} LastDraft(n: Naming, d: Document, m: nat, x: seq<Edges>) returns (earlier: seq<Edges>)
    requires 0 < m <= |d.rows| && AreRows(n, d.components, Kept(d, m), x)
    ensures AreRows(n, d.components, Kept(d, m - 1), earlier)
    ensures var o := Draft(n, d, d.rows[m - 1].ref, Children(d.rows[m - 1]));
            x == if o.Some? then earlier + [o.value] else earlier
  {
    var row := d.rows[m - 1];
    if Stays(d, row) {
      earlier := x[..|x| - 1];
      assert x == earlier + [x[|x| - 1]];
      assert IsRow(n, d.components, Kept(d, m)[|x| - 1], x[|x| - 1]);
      DraftIsRow(n, d, row, x[|x| - 1]);
    } else {
      earlier := x;
    }
  }

  /** A list of renamed rows has every draft as often as the rows have it. */
  lemma {:induction false} CountDrafts(n: Naming, d: Document, t: seq<Option<Edges>>, x: seq<Edges>, v: Edges)
    requires AreDrafts(n, d, t) && AreRows(n, d.components, Kept(d, |t|), x)
    ensures multiset(x)[v] == multiset(t)[Some(v)]
  {
    if t != [] {
      var earlier := LastDraft(n, d, |t|, x);
      FewerDrafts(n, d, t);
      CountDrafts(n, d, t[..|t| - 1], earlier, v);
      CountSnoc(earlier, t[..|t| - 1], t[|t| - 1], v);
    }
  }

  /** The drafts of the rows of `d`, by the naming of `e`. */
  lemma {:induction false} MappedDrafts(n: Naming, d: Document, e: Document, t: seq<Option<Edges>>)
    requires Reordered(d, e) && t == Map(Map(d.rows, Canon()), Drafting(n, e))
    ensures AreDrafts(n, d, t) && |t| == |d.rows|
  {
    assert |t| == |d.rows|;
    forall i: nat | i < |t| ensures DraftsRow(n, d, d.rows[i], t[i]) {
      assert t[i] == Draft(n, e, d.rows[i].ref, Children(d.rows[i]));
      SameDraft(n, d, e, d.rows[i].ref, Children(d.rows[i]));
    }
  }

  lemma {:induction false} Backwards(d: Document, e: Document)
    requires Reordered(d, e)
    ensures Reordered(e, d) && Reordered(d, d)
  {
  }

  lemma {:induction false} SameCounts(n: Naming, d: Document, e: Document, x: seq<Edges>, y: seq<Edges>)
    requires Reordered(d, e)
    requires AreRows(n, d.components, Kept(d, |d.rows|), x) && AreRows(n, e.components, Kept(e, |e.rows|), y)
    ensures multiset(x) == multiset(y)
  {
    Backwards(d, e);
    var s, t := Map(Map(d.rows, Canon()), Drafting(n, d)), Map(Map(e.rows, Canon()), Drafting(n, d));
    MapPermutes(Map(d.rows, Canon()), Map(e.rows, Canon()), Drafting(n, d));
    MappedDrafts(n, d, d, s);
    MappedDrafts(n, e, d, t);
    EqualCounts(n, d, e, s, t, x, y);
  }

  lemma {:induction false} EqualCounts(n: Naming, d: Document, e: Document, s: seq<Option<Edges>>,
          t: seq<Option<Edges>>, x: seq<Edges>, y: seq<Edges>)
    requires AreDrafts(n, d, s) && AreDrafts(n, e, t) && |s| == |d.rows| && |t| == |e.rows|
        && multiset(s) == multiset(t)
    requires AreRows(n, d.components, Kept(d, |d.rows|), x) && AreRows(n, e.components, Kept(e, |e.rows|), y)
    ensures multiset(x) == multiset(y)
  {
    forall v ensures multiset(x)[v] == multiset(y)[v] {
      CountDrafts(n, d, s, x, v);
      CountDrafts(n, e, t, y, v);
    }
  }

  /** Drafts of rows that agree when tied are equal when they tie. */
  lemma {:induction false} TiedDrafts(n: Naming, d: Document, x: seq<Edges>, a: Edges, b: Edges)
    requires TiedRowsAgree(n, d) && AreRows(n, d.components, Kept(d, |d.rows|), x) && a in x && b in x && a.ref == b.ref
    ensures a == b
  {
    var i :| 0 <= i < |x| && x[i] == a;
    var j :| 0 <= j < |x| && x[j] == b;
    var kept := Kept(d, |d.rows|);
    assert kept[i] in kept && kept[j] in kept;
    var k :| 0 <= k < |d.rows| && d.rows[k] == kept[i];
    var l :| 0 <= l < |d.rows| && d.rows[l] == kept[j];
    assert IsRow(n, d.components, kept[i], a) && IsRow(n, d.components, kept[j], b);
    assert Tied(n, d, d.rows[k], d.rows[l]);
    SortedSetIsUnique(ChildRefs(n, d.components, kept[i].children), a.children, b.children);
  }

  lemma {:induction false} SameRows(n: Naming, d: Document, e: Document, x: seq<Edges>, y: seq<Edges>)
    requires Reordered(d, e) && TiedRowsAgree(n, d)
    requires AreRows(n, d.components, Kept(d, |d.rows|), x) && AreRows(n, e.components, Kept(e, |e.rows|), y)
    ensures Sort(x, ByRef()) == Sort(y, ByRef())
  {
    SameCounts(n, d, e, x, y);
    forall a, b | a in multiset(x) && b in multiset(x) && a != b ensures Less(a.ref, b.ref) || Less(b.ref, a.ref) {
      LessTotal(a.ref, b.ref);
      if a.ref == b.ref {
        TiedDrafts(n, d, x, a, b);
      }
    }
    RefOrder();
    SortIsInvariant(x, y, ByRef());
  }

  lemma {:induction false} TopMoves(n: Naming, d: Document, e: Document, ref: string)
    requires Reordered(d, e) && ref in TopRefs(n, d)
    ensures ref in TopRefs(n, e)
  {
    var i, c :| 0 <= i < |d.rows| && d.rows[i].ref.Some? && d.rows[i].ref == d.top && c in d.rows[i].children
        && RefOf(n, d.components, c) == ref;
    var other := Counterpart(d, e, d.rows[i]);
    assert c in Children(d.rows[i]);
    var j :| 0 <= j < |e.rows| && e.rows[j] == other;
    assert c in e.rows[j].children;
    SameRefs(n, d, e, c);
  }

  lemma {:induction false} SameTop(n: Naming, d: Document, e: Document)
    requires Reordered(d, e)
    ensures TopRefs(n, d) == TopRefs(n, e)
  {
    Backwards(d, e);
    forall ref ensures ref in TopRefs(n, d) <==> ref in TopRefs(n, e) {
      if ref in TopRefs(n, d) {
        TopMoves(n, d, e, ref);
      }
      if ref in TopRefs(n, e) {
        TopMoves(n, e, d, ref);
      }
    }
  }

  /** Reordering the components, the rows or the children of a document leaves its normal form alone when rows
      that get one reference get the same children; rows with different references do so. */
  lemma {:induction false} OrderDoesNotMatter(n: Naming, d: Document, e: Document, o: Normalized, p: Normalized,
          x: seq<Edges>, y: seq<Edges>)
    requires Reordered(d, e) && DumpsApart(n) && TiedRowsAgree(n, d)
    requires IsNormalized(n, d, o, x) && IsNormalized(n, e, p, y)
    ensures o == p
  {
    SameComponents(n, d, e);
    SameRows(n, d, e, x, y);
    SameTop(n, d, e);
    SortedSetIsUnique(DirectRefs(n, d, o.components), o.direct, p.direct);
  }

  // ------------------------------------------------------------ and when it does

  /** The first `m` edges with this reference. */
  function WithRef(s: seq<Edges>, ref: string): seq<Edges> {
    if s == [] then []
    else var n := |s| - 1; WithRef(s[..n], ref) + if s[n].ref == ref then [s[n]] else []
  }

  lemma {:induction false} WithRefAppend(s: seq<Edges>, e: Edges, ref: string)
    ensures WithRef(s + [e], ref) == WithRef(s, ref) + if e.ref == ref then [e] else []
  {
    assert (s + [e])[..|s|] == s;
  }

  lemma {:induction false} InsertIsStable(s: seq<Edges>, x: Edges, ref: string)
    ensures WithRef(Insert(s, x, ByRef()), ref) == WithRef(s + [x], ref)
  {
    WithRefAppend(s, x, ref);
    if s != [] {
      var n := |s| - 1;
      if Less(x.ref, s[n].ref) {
        LessTotal(x.ref, s[n].ref);
        InsertIsStable(s[..n], x, ref);
        WithRefAppend(s[..n], x, ref);
        WithRefAppend(Insert(s[..n], x, ByRef()), s[n], ref);
      }
    }
  }

  /** The sort keeps the order of edges with one reference. */
  lemma {:induction false} SortIsStable(s: seq<Edges>, ref: string)
    ensures WithRef(Sort(s, ByRef()), ref) == WithRef(s, ref)
  {
    if s != [] {
      var n := |s| - 1;
      var sorted := Sort(s[..n], ByRef());
      SortIsStable(s[..n], ref);
      InsertIsStable(sorted, s[n], ref);
      WithRefAppend(sorted, s[n], ref);
    }
  }

  lemma {:induction false} WithRefPrefix(s: seq<Edges>, k: nat, ref: string)
    requires k < |s| && s[k].ref == ref
    ensures |WithRef(s[..k], ref)| < |WithRef(s, ref)| && WithRef(s, ref)[|WithRef(s[..k], ref)|] == s[k]
  {
    var n := |s| - 1;
    if k < n {
      WithRefPrefix(s[..n], k, ref);
      assert s[..n][..k] == s[..k];
    }
  }

  /** Lists that first differ in two edges with one reference are sorted differently. */
  lemma {:induction false} FirstDifferenceStays(x: seq<Edges>, y: seq<Edges>, k: nat)
    requires k < |x| && k < |y| && x[..k] == y[..k] && x[k].ref == y[k].ref && x[k] != y[k]
    ensures Sort(x, ByRef()) != Sort(y, ByRef())
  {
    var ref := x[k].ref;
    SortIsStable(x, ref);
    SortIsStable(y, ref);
    WithRefPrefix(x, k, ref);
    WithRefPrefix(y, k, ref);
  }

  /** The document with two rows exchanged. */
  function Exchanged(d: Document, i: nat, j: nat): Document
    requires i < |d.rows| && j < |d.rows|
  {
    d.(rows := d.rows[i := d.rows[j]][j := d.rows[i]])
  }

  lemma {:induction false} ExchangedIsReordered(d: Document, i: nat, j: nat)
    requires i < j < |d.rows|
    ensures Reordered(d, Exchanged(d, i, j))
  {
    var s, t := d.rows, Exchanged(d, i, j).rows;
    assert s == s[..i] + [s[i]] + s[i + 1..j] + [s[j]] + s[j + 1..];
    assert t == s[..i] + [s[j]] + s[i + 1..j] + [s[i]] + s[j + 1..];
    assert multiset(s) == multiset(t);
    MapPermutes(s, t, Canon());
  }

  lemma {:induction false} KeptGrows(d: Document, m: nat, k: nat)
    requires m <= k <= |d.rows|
    ensures |Kept(d, m)| <= |Kept(d, k)| && Kept(d, k)[..|Kept(d, m)|] == Kept(d, m)
    decreases k
  {
    if m < k {
      KeptGrows(d, m, k - 1);
    }
  }

  lemma {:induction false} SameKept(d: Document, e: Document, m: nat)
    requires d.top == e.top && m <= |d.rows| && m <= |e.rows| && d.rows[..m] == e.rows[..m]
    ensures Kept(d, m) == Kept(e, m)
  {
    if m > 0 {
      assert d.rows[..m - 1] == d.rows[..m][..m - 1] == e.rows[..m - 1];
      assert d.rows[m - 1] == d.rows[..m][m - 1] == e.rows[m - 1];
      SameKept(d, e, m - 1);
    }
  }

  /** The row at `i` has its place among those that stay behind the earlier ones. */
  lemma {:induction false} KeptAt(d: Document, i: nat)
    requires i < |d.rows| && Stays(d, d.rows[i])
    ensures |Kept(d, i)| < |Kept(d, |d.rows|)| && Kept(d, |d.rows|)[|Kept(d, i)|] == d.rows[i]
    ensures Kept(d, |d.rows|)[..|Kept(d, i)|] == Kept(d, i)
  {
    KeptGrows(d, i, |d.rows|);
    KeptGrows(d, i + 1, |d.rows|);
    assert Kept(d, i + 1) == Kept(d, i) + [d.rows[i]];
  }

  /** Two tied rows with different children keep their order: exchanging them changes the normal form. */
  lemma {:induction false} TiedRowsKeepTheirOrder(n: Naming, d: Document, i: nat, j: nat, o: Normalized, p: Normalized,
          x: seq<Edges>, y: seq<Edges>)
    requires i < j < |d.rows| && Tied(n, d, d.rows[i], d.rows[j])
    requires ChildRefs(n, d.components, d.rows[i].children) != ChildRefs(n, d.components, d.rows[j].children)
    requires IsNormalized(n, d, o, x) && IsNormalized(n, Exchanged(d, i, j), p, y)
    ensures Reordered(d, Exchanged(d, i, j)) && o.rows != p.rows
  {
    var e := Exchanged(d, i, j);
    ExchangedIsReordered(d, i, j);
    assert e.rows[..i] == d.rows[..i];
    KeptAt(d, i);
    KeptAt(e, i);
    SameKept(d, e, i);
    DraftsDiffer(n, d.components, Kept(d, |d.rows|), Kept(e, |e.rows|), x, y, |Kept(d, i)|);
  }

  /** Lists of rows that first differ in two tied ones with different children are sorted differently. */
  lemma {:induction false} DraftsDiffer(n: Naming, components: seq<Component>, rows: seq<Row>, others: seq<Row>,
          x: seq<Edges>, y: seq<Edges>, k: nat)
    requires AreRows(n, components, rows, x) && AreRows(n, components, others, y)
    requires k < |rows| && k < |others| && rows[..k] == others[..k] && rows[k].ref.Some? && others[k].ref.Some?
    requires RefOf(n, components, rows[k].ref.value) == RefOf(n, components, others[k].ref.value)
    requires ChildRefs(n, components, rows[k].children) != ChildRefs(n, components, others[k].children)
    ensures Sort(x, ByRef()) != Sort(y, ByRef())
  {
    forall i | 0 <= i < k ensures rows[i] == others[i] {
      assert rows[..k][i] == others[..k][i];
    }
    forall i | 0 <= i < k ensures x[i] == y[i] {
      assert IsRow(n, components, rows[i], x[i]) && IsRow(n, components, others[i], y[i]);
      SortedSetIsUnique(ChildRefs(n, components, rows[i].children), x[i].children, y[i].children);
    }
    assert IsRow(n, components, rows[k], x[k]) && IsRow(n, components, others[k], y[k]);
    FirstDifferenceStays(x, y, k);
  }

  // ------------------------------------------------------------ every document has a normal form

  lemma {:induction false} DraftsExist(n: Naming, components: seq<Component>, rows: seq<Row>) returns (x: seq<Edges>)
    requires forall row :: row in rows ==> row.ref.Some?
    ensures AreRows(n, components, rows, x)
  {
    if rows == [] {
      x := [];
    } else {
      var m := |rows| - 1;
      var earlier := DraftsExist(n, components, rows[..m]);
      var refs := ChildRefs(n, components, rows[m].children);
      SortedSetExists(refs);
      var children :| IsSortedSet(refs, children);
      x := earlier + [Edges(RefOf(n, components, rows[m].ref.value), children)];
      assert forall i :: 0 <= i < m ==> rows[..m][i] == rows[i];
      assert IsRow(n, components, rows[m], x[m]);
    }
  }

  lemma {:induction false} NormalFormExists(n: Naming, d: Document) returns (o: Normalized, x: seq<Edges>)
    ensures IsNormalized(n, d, o, x)
  {
    x := DraftsExist(n, d.components, Kept(d, |d.rows|));
    var components := Sort(Map(d.components, Normalizing(n, d.components)), ByDump(n));
    SortedSetExists(DirectRefs(n, d, components));
    var direct :| IsSortedSet(DirectRefs(n, d, components), direct);
    o := Normalized(components, Sort(x, ByRef()), direct);
  }

  /** Every reordering of the document has its normal form. */
  ghost predicate OrderFree(n: Naming, d: Document) {
    forall e, o, p, x, y {:trigger IsNormalized(n, d, o, x), IsNormalized(n, e, p, y)} ::
      Reordered(d, e) && IsNormalized(n, d, o, x) && IsNormalized(n, e, p, y) ==> o == p
  }

  /** A document with two tied rows that get different children has a reordering with another normal form. */
  lemma {:induction false} TiedRowsMatter(n: Naming, d: Document)
    requires !TiedRowsAgree(n, d)
    ensures !OrderFree(n, d)
  {
    var i, j :| 0 <= i < |d.rows| && 0 <= j < |d.rows| && Tied(n, d, d.rows[i], d.rows[j])
      && ChildRefs(n, d.components, d.rows[i].children) != ChildRefs(n, d.components, d.rows[j].children);
    var a, b := if i < j then i else j, if i < j then j else i;
    var o, x := NormalFormExists(n, d);
    var p, y := NormalFormExists(n, Exchanged(d, a, b));
    TiedRowsKeepTheirOrder(n, d, a, b, o, p, x, y);
  }

  /** An inventory of two source files with one dependency each. */
  function TwoSources(): Document {
    Document(Some("app"), [Component(Some("x"), true, "x.lock", ""), Component(Some("y"), true, "y.lock", "")],
             [Row(Some("x"), ["p"]), Row(Some("y"), ["q"])])
  }

  /** Both rows get the reference of the lock file, so their order stays in the normal form. */
  lemma {:induction false} TwoSourcesKeepTheirOrder(n: Naming)
    requires n.stable("p") != n.stable("q")
    ensures !OrderFree(n, TwoSources())
  {
    var d := TwoSources();
    var c := d.components;
    assert c[0].isFile && c[0].ref == Some("x") && c[1].isFile && c[1].ref == Some("y");
    assert IsLockRef(c, "x") && IsLockRef(c, "y") && !IsLockRef(c, "p") && !IsLockRef(c, "q");
    assert Tied(n, d, d.rows[0], d.rows[1]);
    OneChild(n, c, "p");
    OneChild(n, c, "q");
    assert n.stable("p") in ChildRefs(n, c, d.rows[0].children);
    TiedRowsMatter(n, d);
  }

  lemma {:induction false} OneChild(n: Naming, components: seq<Component>, c: string)
    ensures ChildRefs(n, components, [c]) == {RefOf(n, components, c)}
  {
    assert c in [c];
  }

  /** The normal form depends on no order exactly when rows that get one reference get the same children. */
  lemma {:induction false} OrderFreeIff(n: Naming, d: Document)
    requires DumpsApart(n)
    ensures OrderFree(n, d) <==> TiedRowsAgree(n, d)
    ensures DistinctRows(n, d) ==> TiedRowsAgree(n, d)
  {
    if TiedRowsAgree(n, d) {
      forall e, o, p, x, y | Reordered(d, e) && IsNormalized(n, d, o, x) && IsNormalized(n, e, p, y) ensures o == p {
        OrderDoesNotMatter(n, d, e, o, p, x, y);
      }
    } else {
      TiedRowsMatter(n, d);
    }
    if DistinctRows(n, d) {
      DistinctRowsAgree(n, d);
    }
  }

  lemma {:induction false} DistinctRowsAgree(n: Naming, d: Document)
    requires DistinctRows(n, d)
    ensures TiedRowsAgree(n, d)
  {
    var kept := Kept(d, |d.rows|);
    forall i, j | 0 <= i < |d.rows| && 0 <= j < |d.rows| && Tied(n, d, d.rows[i], d.rows[j])
      ensures ChildRefs(n, d.components, d.rows[i].children) == ChildRefs(n, d.components, d.rows[j].children)
    {
      assert d.rows[i] in kept && d.rows[j] in kept;
      var k :| 0 <= k < |kept| && kept[k] == d.rows[i];
      var l :| 0 <= l < |kept| && kept[l] == d.rows[j];
      assert k == l;
    }
  }
}
