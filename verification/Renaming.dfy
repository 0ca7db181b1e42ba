/** What stands in a normalized inventory, said with the reference hash alone: every component and every row of the
    document once, under its stable reference. */
module Renaming {
  import opened Wrappers
  import opened Sorting
  import opened Texts
  import opened Inventory

  // ------------------------------------------------------------ stable references

  predicate IsSource(c: Component, ref: string) {
    c.isFile && c.ref == Some(ref)
  }

  /** The reference of a source file becomes the hash of the lock file, every other one its own hash. */
  ghost predicate Gives(n: Naming, d: Document, ref: string, x: string) {
    if exists c :: c in d.components && IsSource(c, ref) then x == n.stable(n.lockfile) else x == n.stable(ref)
  }

  lemma {:induction false} GivesIs(n: Naming, d: Document, ref: string, x: string)
    ensures Gives(n, d, ref, x) <==> x == RefOf(n, d.components, ref)
  {
    if c :| c in d.components && IsSource(c, ref) {
      var i :| 0 <= i < |d.components| && d.components[i] == c;
      assert IsLockRef(d.components, ref);
    } else {
      assert !IsLockRef(d.components, ref) by {
        forall i | 0 <= i < |d.components| ensures !(d.components[i].isFile && d.components[i].ref == Some(ref)) {
          assert d.components[i] in d.components && !IsSource(d.components[i], ref);
        }
      }
    }
  }

  // ------------------------------------------------------------ components

  ghost predicate GivesComponent(n: Naming, d: Document, c: Component, x: Component) {
    && x.rest == c.rest && x.isFile == c.isFile
    && (if c.isFile then x.name == n.lockName else x.name == c.name)
    && match c.ref
       case None => x.ref.None?
       case Some(ref) => x.ref.Some? && Gives(n, d, ref, x.ref.value)
  }

  ghost predicate GiveComponents(n: Naming, d: Document, r: seq<Component>) {
    |r| == |d.components| && forall i :: 0 <= i < |r| ==> GivesComponent(n, d, d.components[i], r[i])
  }

  lemma {:induction false} ComponentIs(n: Naming, d: Document, c: Component)
    ensures GivesComponent(n, d, c, NormalComponent(n, d.components, c))
  {
    if c.ref.Some? {
      GivesIs(n, d, c.ref.value, RefOf(n, d.components, c.ref.value));
    }
  }

  /** Every component of the document stands in the normal form once, under its stable reference, and nothing else
      does; they are ordered by their dumps. */
  lemma {:induction false} ComponentsAreRenamed(n: Naming, d: Document, o: Normalized, drafts: seq<Edges>)
    requires IsNormalized(n, d, o, drafts)
    ensures exists r :: GiveComponents(n, d, r) && multiset(o.components) == multiset(r)
    ensures forall i, j :: 0 <= i < j < |o.components| ==> !Less(n.dump(o.components[j]), n.dump(o.components[i]))
  {
    var r := Map(d.components, Normalizing(n, d.components));
    forall i | 0 <= i < |r| ensures GivesComponent(n, d, d.components[i], r[i]) {
      ComponentIs(n, d, d.components[i]);
    }
    assert GiveComponents(n, d, r);
    SortKeeps(r, ByDump(n));
    DumpOrder(n);
    SortOrders(r, ByDump(n));
    forall i, j | 0 <= i < j < |o.components| ensures !Less(n.dump(o.components[j]), n.dump(o.components[i])) {
      assert !ByDump(n)(o.components[j], o.components[i]);
    }
  }

  /** The list of renamed components is the only one. */
  lemma {:induction false} RenamedOnce(n: Naming, d: Document, r: seq<Component>, t: seq<Component>)
    requires GiveComponents(n, d, r) && GiveComponents(n, d, t)
    ensures r == t
  {
    forall i | 0 <= i < |r| ensures r[i] == t[i] {
      assert GivesComponent(n, d, d.components[i], r[i]) && GivesComponent(n, d, d.components[i], t[i]);
    }
  }

  predicate HasComponent(o: Normalized, ref: string) {
    exists i :: 0 <= i < |o.components| && o.components[i].ref == Some(ref)
  }

  /** What the reference of a component becomes is the reference of a component of the normal form. */
  lemma {:induction false} ReferencesStay(n: Naming, d: Document, o: Normalized, drafts: seq<Edges>, i: nat, x: string)
    requires IsNormalized(n, d, o, drafts) && i < |d.components| && d.components[i].ref.Some?
    requires Gives(n, d, d.components[i].ref.value, x)
    ensures HasComponent(o, x)
  {
    var r := Map(d.components, Normalizing(n, d.components));
    GivesIs(n, d, d.components[i].ref.value, x);
    assert r[i].ref == Some(x) && r[i] in r;
    SortElements(r, ByDump(n), r[i]);
    var k :| 0 <= k < |o.components| && o.components[k] == r[i];
  }

  // ------------------------------------------------------------ rows

  /** The rows with a reference that is not the top component's. */
  predicate IsEdgeRow(d: Document, row: Row) {
    match row.ref
    case None => false
    case Some(ref) => !(d.top.Some? && d.top.value == ref)
  }

  predicate Lists(at: seq<nat>, i: nat) {
    i in at
  }

  /** The positions of those rows, in order. */
  ghost predicate EdgeRows(d: Document, at: seq<nat>) {
    && (forall j :: 0 <= j < |at| ==> at[j] < |d.rows|)
    && (forall j, k :: 0 <= j < k < |at| ==> at[j] < at[k])
    && forall i: nat {:trigger Lists(at, i)} :: i < |d.rows| ==> (Lists(at, i) <==> IsEdgeRow(d, d.rows[i]))
  }

  ghost predicate GivesChild(n: Naming, d: Document, children: seq<string>, to: string) {
    exists c :: c in children && Gives(n, d, c, to)
  }

  predicate Ascending(s: seq<string>) {
    forall i, j {:trigger Less(s[i], s[j])} :: 0 <= i < j < |s| ==> Less(s[i], s[j])
  }

  ghost predicate GivesRow(n: Naming, d: Document, row: Row, e: Edges) {
    && row.ref.Some? && Gives(n, d, row.ref.value, e.ref) && Ascending(e.children)
    && forall to :: to in e.children <==> GivesChild(n, d, row.children, to)
  }

  ghost predicate GiveRows(n: Naming, d: Document, at: seq<nat>, r: seq<Edges>)
    requires EdgeRows(d, at)
  {
    |r| == |at| && forall j :: 0 <= j < |r| ==> GivesRow(n, d, d.rows[at[j]], r[j])
  }

  lemma {:induction false} ChildIs(n: Naming, d: Document, children: seq<string>, to: string)
    ensures GivesChild(n, d, children, to) <==> to in ChildRefs(n, d.components, children)
  {
    if c :| c in children && Gives(n, d, c, to) {
      GivesIs(n, d, c, to);
    }
    if to in ChildRefs(n, d.components, children) {
      var c :| c in children && RefOf(n, d.components, c) == to;
      GivesIs(n, d, c, to);
    }
  }

  lemma {:induction false} RowIs(n: Naming, d: Document, row: Row, e: Edges)
    requires IsRow(n, d.components, row, e)
    ensures GivesRow(n, d, row, e)
  {
    GivesIs(n, d, row.ref.value, e.ref);
    forall to ensures to in e.children <==> GivesChild(n, d, row.children, to) {
      ChildIs(n, d, row.children, to);
    }
  }

  /** The positions among the first `m` rows, in order. */
  ghost predicate EdgeRowsBefore(d: Document, m: nat, at: seq<nat>)
    requires m <= |d.rows|
  {
    && (forall j :: 0 <= j < |at| ==> at[j] < m)
    && (forall j, k :: 0 <= j < k < |at| ==> at[j] < at[k])
    && forall i: nat {:trigger Lists(at, i)} :: i < m ==> (Lists(at, i) <==> IsEdgeRow(d, d.rows[i]))
  }

  lemma {:induction false} OneMorePosition(d: Document, m: nat, at: seq<nat>, next: seq<nat>)
    requires 0 < m <= |d.rows| && EdgeRowsBefore(d, m - 1, at)
    requires next == if IsEdgeRow(d, d.rows[m - 1]) then at + [m - 1] else at
    ensures EdgeRowsBefore(d, m, next)
  {
    assert m - 1 !in at;
    forall i: nat ensures Lists(next, i) <==> Lists(at, i) || (i == m - 1 && IsEdgeRow(d, d.rows[m - 1])) {
    }
  }

  ghost predicate RowsAt(d: Document, at: seq<nat>, rows: seq<Row>) {
    |at| == |rows| && forall j :: 0 <= j < |at| ==> at[j] < |d.rows| && d.rows[at[j]] == rows[j]
  }

  lemma {:induction false} OneMoreRowAt(d: Document, at: seq<nat>, rows: seq<Row>, m: nat, next: seq<nat>,
          longer: seq<Row>)
    requires m < |d.rows| && RowsAt(d, at, rows)
    requires (next == at + [m] && longer == rows + [d.rows[m]]) || (next == at && longer == rows)
    ensures RowsAt(d, next, longer)
  {
  }

  lemma {:induction false} KeptStep(d: Document, m: nat)
    requires 0 < m <= |d.rows|
    ensures
      if IsEdgeRow(d, d.rows[m - 1]) then Kept(d, m) == Kept(d, m - 1) + [d.rows[m - 1]]
      else Kept(d, m) == Kept(d, m - 1)
  {
  }

  function Positions(d: Document, m: nat): seq<nat>
    requires m <= |d.rows|
  {
    if m == 0 then []
    else if IsEdgeRow(d, d.rows[m - 1]) then Positions(d, m - 1) + [m - 1]
    else Positions(d, m - 1)
  }

  lemma {:induction false} PositionsAreEdgeRows(d: Document, m: nat)
    requires m <= |d.rows|
    ensures EdgeRowsBefore(d, m, Positions(d, m))
  {
    if m > 0 {
      PositionsAreEdgeRows(d, m - 1);
      OneMorePosition(d, m, Positions(d, m - 1), Positions(d, m));
    }
  }

  lemma {:induction false} PositionsHoldKept(d: Document, m: nat)
    requires m <= |d.rows|
    ensures RowsAt(d, Positions(d, m), Kept(d, m))
  {
    if m > 0 {
      PositionsHoldKept(d, m - 1);
      KeptStep(d, m);
      OneMoreRowAt(d, Positions(d, m - 1), Kept(d, m - 1), m - 1, Positions(d, m), Kept(d, m));
    }
  }

  /** Every row with a reference that is not the top component's stands in the normal form once, under its stable
      reference, with its children renamed and in order; no other row does. The rows are ordered by reference. */
  lemma {:induction false} RowsAreRenamed(n: Naming, d: Document, o: Normalized, drafts: seq<Edges>)
    requires IsNormalized(n, d, o, drafts)
    ensures exists at :: EdgeRows(d, at) && GiveRows(n, d, at, drafts) && multiset(o.rows) == multiset(drafts)
    ensures forall i, j :: 0 <= i < j < |o.rows| ==> !Less(o.rows[j].ref, o.rows[i].ref)
  {
    var at := Positions(d, |d.rows|);
    PositionsAreEdgeRows(d, |d.rows|);
    PositionsHoldKept(d, |d.rows|);
    assert EdgeRows(d, at);
    forall j | 0 <= j < |drafts| ensures GivesRow(n, d, d.rows[at[j]], drafts[j]) {
      RowIs(n, d, d.rows[at[j]], drafts[j]);
    }
    assert GiveRows(n, d, at, drafts);
    SortKeeps(drafts, ByRef());
    RefOrder();
    SortOrders(drafts, ByRef());
    forall i, j | 0 <= i < j < |o.rows| ensures !Less(o.rows[j].ref, o.rows[i].ref) {
      assert !ByRef()(o.rows[j], o.rows[i]);
    }
  }

  // ------------------------------------------------------------ direct references

  /** A dependency of the top component becomes this reference. */
  ghost predicate GivesDirect(n: Naming, d: Document, to: string) {
    exists i :: 0 <= i < |d.rows| && IsTopRow(d, d.rows[i]) && GivesChild(n, d, d.rows[i].children, to)
  }

  predicate IsTopRow(d: Document, row: Row) {
    d.top.Some? && row.ref.Some? && row.ref.value == d.top.value
  }

  lemma {:induction false} DirectIs(n: Naming, d: Document, to: string)
    ensures GivesDirect(n, d, to) <==> to in TopRefs(n, d)
  {
    if i :| 0 <= i < |d.rows| && IsTopRow(d, d.rows[i]) && GivesChild(n, d, d.rows[i].children, to) {
      ChildIs(n, d, d.rows[i].children, to);
      var c :| c in d.rows[i].children && RefOf(n, d.components, c) == to;
    }
    if to in TopRefs(n, d) {
      var i, c :| 0 <= i < |d.rows| && d.rows[i].ref.Some? && d.rows[i].ref == d.top && c in d.rows[i].children
          && RefOf(n, d.components, c) == to;
      ChildIs(n, d, d.rows[i].children, to);
      assert IsTopRow(d, d.rows[i]);
    }
  }

  /** The direct references are the renamed dependencies of the top component; when it has none they are the
      references of all components. They are in order and each stands once. */
  lemma {:induction false} DirectAreRenamed(n: Naming, d: Document, o: Normalized, drafts: seq<Edges>)
    requires IsNormalized(n, d, o, drafts)
    ensures Ascending(o.direct)
    ensures (exists to :: GivesDirect(n, d, to)) ==> forall to :: to in o.direct <==> GivesDirect(n, d, to)
    ensures !(exists to :: GivesDirect(n, d, to)) ==> forall to :: to in o.direct <==> HasComponent(o, to)
  {
    forall to ensures GivesDirect(n, d, to) <==> to in TopRefs(n, d) {
      DirectIs(n, d, to);
    }
    forall to ensures HasComponent(o, to) <==> to in ComponentRefs(o.components) {
    }
    assert (exists to :: GivesDirect(n, d, to)) <==> TopRefs(n, d) != {};
  }
}
