/** What the export passes leave nothing of: matching Einsums, known empty inputs of Concats, known negative pads,
    Pads without a fill. And what they leave alone: graphs that have none of these. */
module Completeness {
  import opened Tensors
  import opened Names
  import opened Graphs
  import opened Passes
  import opened PassProofs
  import opened Pipeline
  import opened Pruning
  import opened Assignment
  import opened Survival
  import opened BoolPads

  // ------------------------------------------------------------ what a graph says about its constants

  /** The graph gives `m` the value `t`, as an initializer or by a Constant node. */
  ghost predicate Supplies(g: Graph, m: string, t: Tensor) {
    || (m in InitialValues(g.initializers) && InitialValues(g.initializers)[m] == t)
    || exists k :: 0 <= k < |g.nodes| && MakesConstant(g.nodes[k], m, t)
  }

  predicate MakesConstant(n: Node, m: string, t: Tensor) {
    n.op == CONSTANT && VALUE in n.attributes && n.attributes[VALUE] == Value(t) && n.outputs == [m]
  }

  /** The graph says that `m` is this list of integers. */
  ghost predicate Says(g: Graph, m: string, v: seq<int>) {
    exists t :: Supplies(g, m, t) && v == IntVector(t)
  }

  ghost predicate IsSaid(g: Graph, m: string) {
    exists v :: Says(g, m, v)
  }

  /** The graph says that some entry of `m` is negative. */
  ghost predicate KnownNegative(g: Graph, m: string) {
    exists v, k :: Says(g, m, v) && 0 <= k < |v| && v[k] < 0
  }

  /** The starts, ends and steps of a Slice all of whose parameters the graph says; without steps they are ones. */
  ghost predicate KnownSlice(g: Graph, n: Node, starts: seq<int>, ends: seq<int>, steps: seq<int>) {
    && n.op == SLICE && |n.inputs| >= 3
    && (forall j :: 1 <= j < |n.inputs| ==> IsSaid(g, n.inputs[j]))
    && Says(g, n.inputs[1], starts) && Says(g, n.inputs[2], ends)
    && if |n.inputs| > 4 && n.inputs[4] != "" then Says(g, n.inputs[4], steps)
       else |steps| == |starts| && forall i :: 0 <= i < |steps| ==> steps[i] == 1
  }

  /** The Slice selects nothing on one axis, by parameters that the graph says. */
  ghost predicate KnownEmpty(g: Graph, n: Node) {
    exists starts, ends, steps, i :: KnownSlice(g, n, starts, ends, steps) && 0 <= i < |starts| && i < |ends|
      && i < |steps| && starts[i] == ends[i] && steps[i] > 0
  }

  ghost predicate KnownEmptyName(g: Graph, m: string) {
    exists k :: 0 <= k < |g.nodes| && KnownEmpty(g, g.nodes[k]) && g.nodes[k].outputs == [m]
  }

  /** Every name is given at most one value. */
  ghost predicate OneValueEach(g: Graph) {
    SingleAssignment(g.nodes, InitialValues(g.initializers).Keys)
  }

  lemma {:induction false} ConstantStays(values: Env, nodes: seq<Node>, m: string)
    requires AllChecked(nodes) && forall i :: 0 <= i < |nodes| ==> m !in Written(nodes[i])
    ensures m in ConstantsFrom(values, nodes) <==> m in values
    ensures m in values ==> ConstantsFrom(values, nodes)[m] == values[m]
  {
    if nodes != [] {
      var n := |nodes| - 1;
      ConstantStays(values, nodes[..n], m);
      assert IsConstant(nodes[n]) ==> nodes[n].outputs[0] in Written(nodes[n]);
    }
  }

  lemma {:induction false} ConstantIsKnown(values: Env, nodes: seq<Node>, k: nat, m: string, t: Tensor)
    requires AllChecked(nodes) && k < |nodes| && MakesConstant(nodes[k], m, t)
    requires forall i :: k < i < |nodes| ==> m !in Written(nodes[i])
    ensures m in ConstantsFrom(values, nodes) && ConstantsFrom(values, nodes)[m] == t
  {
    var n := |nodes| - 1;
    if k < n {
      ConstantIsKnown(values, nodes[..n], k, m, t);
      assert IsConstant(nodes[n]) ==> nodes[n].outputs[0] in Written(nodes[n]);
    }
  }

  /** The table of constants has what the graph says. */
  lemma {:induction false} TableKnows(g: Graph, m: string, t: Tensor)
    requires AllChecked(g.nodes) && OneValueEach(g) && Supplies(g, m, t)
    ensures
      var values := ConstantValues(g.initializers, g.nodes);
      m in values && values[m] == t
  {
    var initial := InitialValues(g.initializers);
    SingleApart(g.nodes, initial.Keys);
    if m in initial && initial[m] == t {
      forall i | 0 <= i < |g.nodes| ensures m !in Written(g.nodes[i]) {
        assert Written(g.nodes[i]) !! initial.Keys;
      }
      ConstantStays(initial, g.nodes, m);
    } else {
      var k :| 0 <= k < |g.nodes| && MakesConstant(g.nodes[k], m, t);
      assert g.nodes[k].outputs[0] == m && m in Written(g.nodes[k]);
      forall i | k < i < |g.nodes| ensures m !in Written(g.nodes[i]) {
        assert WrittenBy(g.nodes)[k] !! WrittenBy(g.nodes)[i];
      }
      ConstantIsKnown(initial, g.nodes, k, m, t);
    }
  }

  /** The table of constants has nothing else. */
  lemma {:induction false} TableIsSaid(g: Graph, m: string)
    requires AllChecked(g.nodes) && m in ConstantValues(g.initializers, g.nodes)
    ensures Supplies(g, m, ConstantValues(g.initializers, g.nodes)[m])
  {
    var initial := InitialValues(g.initializers);
    TableFrom(initial, g.nodes, m);
    var t := ConstantsFrom(initial, g.nodes)[m];
    if k :| 0 <= k < |g.nodes| && MakesConstant(g.nodes[k], m, t) {
    }
  }

  lemma {:induction false} TableFrom(values: Env, nodes: seq<Node>, m: string)
    requires AllChecked(nodes) && m in ConstantsFrom(values, nodes)
    ensures
      var t := ConstantsFrom(values, nodes)[m];
      (m in values && values[m] == t) || exists k :: 0 <= k < |nodes| && MakesConstant(nodes[k], m, t)
  {
    if nodes != [] {
      var n := |nodes| - 1;
      var t := ConstantsFrom(values, nodes)[m];
      if IsConstant(nodes[n]) && nodes[n].outputs[0] == m {
        assert nodes[n].outputs == [m];
        assert MakesConstant(nodes[n], m, t);
      } else {
        TableFrom(values, nodes[..n], m);
        if k :| 0 <= k < n && MakesConstant(nodes[..n][k], m, t) {
          assert MakesConstant(nodes[k], m, t);
        }
      }
    }
  }

  // ------------------------------------------------------------ where the nodes come from

  lemma {:induction false} EinsumMember(nodes: seq<Node>, x: Node)
    requires AllChecked(nodes)
    requires x in EinsumNodes(nodes)
    ensures exists n :: n in nodes && Checked(n) && x in EinsumBlock(n)
  {
    var n := |nodes| - 1;
    if x in EinsumNodes(nodes[..n]) {
      EinsumMember(nodes[..n], x);
    } else {
      assert nodes[n] in nodes && x in EinsumBlock(nodes[n]);
    }
  }

  lemma {:induction false} SplitMember(nodes: seq<Node>, values: Env, x: Node)
    requires AllChecked(nodes) && x in SplitNodes(nodes, values)
    ensures exists i: nat :: i < |nodes| && x in SplitBlock(nodes[i], i, values)
  {
    var n := |nodes| - 1;
    if x in SplitNodes(nodes[..n], values) {
      SplitMember(nodes[..n], values, x);
      var i: nat :| i < n && x in SplitBlock(nodes[..n][i], i, values);
      assert nodes[..n][i] == nodes[i];
    } else {
      assert x in SplitBlock(nodes[n], n, values);
    }
  }

  lemma {:induction false} ConcatMember(nodes: seq<Node>, empty: set<string>, x: Node)
    requires x in ConcatNodes(nodes, empty)
    ensures exists c :: c in nodes && x == ConcatNode(c, empty)
  {
    var i :| 0 <= i < |nodes| && ConcatNodes(nodes, empty)[i] == x;
    assert nodes[i] in nodes;
  }

  function Trimmed(g: Graph, empty: set<string>): (r: seq<Node>)
    requires AllChecked(g.nodes)
    ensures AllChecked(r)
  {
    ConcatNodes(EinsumNodes(g.nodes), empty)
  }

  /** The first two passes leave other nodes than Einsums and Concats as they are. */
  lemma {:induction false} TrimmedMember(g: Graph, empty: set<string>, x: Node)
    requires AllChecked(g.nodes) && x in Trimmed(g, empty)
    ensures x.op in {PAD, CONSTANT, SLICE} ==> x in g.nodes
    ensures x.op == CONCAT ==> exists c :: c in g.nodes && x == ConcatNode(c, empty)
    ensures x.op == EINSUM ==> x in g.nodes && !IsEinsumOuter(x)
  {
    ConcatMember(EinsumNodes(g.nodes), empty, x);
    var c :| c in EinsumNodes(g.nodes) && x == ConcatNode(c, empty);
    LoweredMember(g.nodes, c);
  }

  lemma {:induction false} LoweredMember(nodes: seq<Node>, c: Node)
    requires AllChecked(nodes) && c in EinsumNodes(nodes)
    ensures c.op == UNSQUEEZE || c.op == MUL || (c in nodes && !IsEinsumOuter(c))
  {
    EinsumMember(nodes, c);
    var n :| n in nodes && Checked(n) && c in EinsumBlock(n);
  }

  // ------------------------------------------------------------ negative pads

  /** No name that the split pass makes up is an initializer, a constant, or the pads of a Pad. */
  ghost predicate NewNames(g: Graph) {
    && (forall m :: m in InitialValues(g.initializers) ==> !IsGenerated(m))
    && forall n :: n in g.nodes ==>
         && (n.op == PAD && |n.inputs| >= 2 ==> !IsGenerated(n.inputs[1]))
         && (n.op == CONSTANT ==> forall o :: o in n.outputs ==> !IsGenerated(o))
  }

  ghost predicate TableComplete(g: Graph)
    requires AllChecked(g.nodes)
  {
    forall m, t :: Supplies(g, m, t) ==>
      var values := ConstantValues(g.initializers, g.nodes);
      m in values && values[m] == t
  }

  /** What the split pass leaves. */
  function SplitGraph(g: Graph): Graph
    requires AllChecked(g.nodes)
  {
    var values := ConstantValues(g.initializers, g.nodes);
    Graph(SplitNodes(g.nodes, values), g.initializers + AllSplitInitializers(g.nodes, values), g.outputs)
  }

  /** A split graph says of a name what the graph says, or what the pass generated. */
  lemma {:induction false} SplitSupplies(g: Graph, m: string, t: Tensor)
    requires AllChecked(g.nodes) && NewNames(g) && Supplies(SplitGraph(g), m, t)
    ensures
      var generated := InitialValues(AllSplitInitializers(g.nodes, ConstantValues(g.initializers, g.nodes)));
      if IsGenerated(m) then m in generated && generated[m] == t else Supplies(g, m, t)
  {
    var values := ConstantValues(g.initializers, g.nodes);
    var items := AllSplitInitializers(g.nodes, values);
    InitialAppend(g.initializers, items);
    GeneratedDomain(g.nodes, values);
    if k :| 0 <= k < |SplitGraph(g).nodes| && MakesConstant(SplitGraph(g).nodes[k], m, t) {
      SplitConstant(g.nodes, values, SplitGraph(g).nodes[k]);
      var i :| 0 <= i < |g.nodes| && g.nodes[i] == SplitGraph(g).nodes[k];
      assert MakesConstant(g.nodes[i], m, t) && m in g.nodes[i].outputs && g.nodes[i] in g.nodes;
    }
  }

  lemma {:induction false} SplitConstant(nodes: seq<Node>, values: Env, x: Node)
    requires AllChecked(nodes) && x in SplitNodes(nodes, values) && x.op == CONSTANT
    ensures x in nodes
  {
    SplitMember(nodes, values, x);
    var i: nat :| i < |nodes| && x in SplitBlock(nodes[i], i, values);
    assert x == nodes[i];
  }

  lemma {:induction false} GeneratedNameIsGenerated(index: nat, part: Part)
    ensures IsGenerated(GeneratedName(index, part))
  {
  }

  predicate NotNegative(v: seq<int>) {
    forall k :: 0 <= k < |v| ==> v[k] >= 0
  }

  /** The pads that a split Pad reads are not negative. */
  lemma {:induction false} SplitPadsPositive(g: Graph, i: nat, t: Tensor)
    requires AllChecked(g.nodes) && NewNames(g) && i < |g.nodes|
    requires NeedsSplit(g.nodes[i], ConstantValues(g.initializers, g.nodes))
    requires Supplies(SplitGraph(g), GeneratedName(i, POSITIVE_PADS), t)
    ensures NotNegative(IntVector(t))
  {
    var values := ConstantValues(g.initializers, g.nodes);
    GeneratedNameIsGenerated(i, POSITIVE_PADS);
    SplitSupplies(g, GeneratedName(i, POSITIVE_PADS), t);
    GeneratedHolds(g.nodes, values, i);
    HeldVectors(InitialValues(AllSplitInitializers(g.nodes, values)), GeneratedNames(i), PadsOf(g.nodes[i], values));
    assert GeneratedNames(i)[4] == GeneratedName(i, POSITIVE_PADS);
  }

  /** Whatever the graph says of `m` is not negative. */
  ghost predicate SaysPositive(g: Graph, m: string) {
    forall t :: Supplies(g, m, t) ==> NotNegative(IntVector(t))
  }

  lemma {:induction false} NothingNegative(g: Graph, m: string)
    requires SaysPositive(g, m)
    ensures !KnownNegative(g, m)
  {
    forall v | Says(g, m, v) ensures NotNegative(v) {
      var t :| Supplies(g, m, t) && v == IntVector(t);
    }
  }

  lemma {:induction false} SplitIsPositive(g: Graph, i: nat)
    requires AllChecked(g.nodes) && NewNames(g) && i < |g.nodes|
    requires NeedsSplit(g.nodes[i], ConstantValues(g.initializers, g.nodes))
    ensures SaysPositive(SplitGraph(g), GeneratedName(i, POSITIVE_PADS))
  {
    forall t | Supplies(SplitGraph(g), GeneratedName(i, POSITIVE_PADS), t) ensures NotNegative(IntVector(t)) {
      SplitPadsPositive(g, i, t);
    }
  }

  lemma {:induction false} UnsplitIsPositive(g: Graph, n: Node)
    requires AllChecked(g.nodes) && NewNames(g) && TableComplete(g) && n in g.nodes && n.op == PAD && Checked(n)
    requires !NeedsSplit(n, ConstantValues(g.initializers, g.nodes))
    ensures SaysPositive(SplitGraph(g), n.inputs[1])
  {
    forall t | Supplies(SplitGraph(g), n.inputs[1], t) ensures NotNegative(IntVector(t)) {
      UnsplitPadsPositive(g, n, t);
    }
  }

  /** A Pad of the split pass is one of the graph that needs no split, or reads generated pads. */
  lemma {:induction false} SplitPads(nodes: seq<Node>, values: Env, x: Node) returns (i: nat)
    requires AllChecked(nodes) && x in SplitNodes(nodes, values) && x.op == PAD
    ensures i < |nodes| && |x.inputs| >= 2
    ensures if NeedsSplit(nodes[i], values) then x.inputs[1] == GeneratedName(i, POSITIVE_PADS) else x == nodes[i]
  {
    SplitMember(nodes, values, x);
    i :| i < |nodes| && x in SplitBlock(nodes[i], i, values);
    PadOfBlock(nodes[i], i, values, x);
  }

  lemma {:induction false} PadOfBlock(n: Node, index: nat, values: Env, x: Node)
    requires Checked(n) && x in SplitBlock(n, index, values) && x.op == PAD
    ensures |x.inputs| >= 2
    ensures if NeedsSplit(n, values) then x.inputs[1] == GeneratedName(index, POSITIVE_PADS) else x == n
  {
    if NeedsSplit(n, values) {
      var block := SplitPad(n, GeneratedNames(index));
      assert x == block[0] || x == block[1];
      assert GeneratedNames(index)[4] == GeneratedName(index, POSITIVE_PADS);
    }
  }

  /** After the split pass no Pad has pads that are known to be negative. */
  lemma {:induction false} SplitLeavesNone(g: Graph, x: Node)
    requires AllChecked(g.nodes) && NewNames(g) && TableComplete(g) && x in SplitGraph(g).nodes && x.op == PAD
    ensures |x.inputs| >= 2 && !KnownNegative(SplitGraph(g), x.inputs[1])
  {
    var i := SplitPads(g.nodes, ConstantValues(g.initializers, g.nodes), x);
    if NeedsSplit(g.nodes[i], ConstantValues(g.initializers, g.nodes)) {
      SplitIsPositive(g, i);
    } else {
      UnsplitIsPositive(g, g.nodes[i]);
    }
    NothingNegative(SplitGraph(g), x.inputs[1]);
  }

  /** So are the pads of a Pad that is not split. */
  lemma {:induction false} UnsplitPadsPositive(g: Graph, n: Node, t: Tensor)
    requires AllChecked(g.nodes) && NewNames(g) && TableComplete(g) && n in g.nodes && n.op == PAD && Checked(n)
    requires !NeedsSplit(n, ConstantValues(g.initializers, g.nodes)) && Supplies(SplitGraph(g), n.inputs[1], t)
    ensures NotNegative(IntVector(t))
  {
    SplitSupplies(g, n.inputs[1], t);
    assert Supplies(g, n.inputs[1], t);
  }

  // ------------------------------------------------------------ the three passes

  /** The graph between the second and the third pass. */
  function TrimmedGraph(g: Graph): Graph
    requires AllChecked(g.nodes)
  {
    Graph(Trimmed(g, EmptyOutputs(g.nodes, ConstantValues(g.initializers, g.nodes))), g.initializers, g.outputs)
  }

  lemma {:induction false} RewrittenIsSplit(g: Graph)
    requires AllChecked(g.nodes)
    ensures Rewritten(g) == SplitGraph(TrimmedGraph(g))
    ensures ConstantValues(g.initializers, TrimmedGraph(g).nodes) == ConstantValues(g.initializers, g.nodes)
  {
    var initial := InitialValues(g.initializers);
    var values := ConstantsFrom(initial, g.nodes);
    LoweringKeepsConstants(initial, g.nodes);
    LoweringKeepsEmptyOutputs(values, g.nodes);
    TrimmingKeepsConstants(initial, EinsumNodes(g.nodes), EmptyOutputs(g.nodes, values));
  }

  lemma {:induction false} TrimmedSupplies(g: Graph, m: string, t: Tensor)
    requires AllChecked(g.nodes) && Supplies(TrimmedGraph(g), m, t)
    ensures Supplies(g, m, t)
  {
    var h := TrimmedGraph(g);
    if k :| 0 <= k < |h.nodes| && MakesConstant(h.nodes[k], m, t) {
      TrimmedMember(g, EmptyOutputs(g.nodes, ConstantValues(g.initializers, g.nodes)), h.nodes[k]);
      var i :| 0 <= i < |g.nodes| && g.nodes[i] == h.nodes[k];
      assert MakesConstant(g.nodes[i], m, t);
    }
  }

  lemma {:induction false} TrimmedMeets(g: Graph)
    requires AllChecked(g.nodes) && OneValueEach(g) && NewNames(g)
    ensures NewNames(TrimmedGraph(g)) && TableComplete(TrimmedGraph(g))
  {
    var h := TrimmedGraph(g);
    var empty := EmptyOutputs(g.nodes, ConstantValues(g.initializers, g.nodes));
    RewrittenIsSplit(g);
    forall n | n in h.nodes && (n.op == PAD || n.op == CONSTANT) ensures n in g.nodes {
      TrimmedMember(g, empty, n);
    }
    forall m, t | Supplies(h, m, t)
      ensures
        var values := ConstantValues(h.initializers, h.nodes);
        m in values && values[m] == t
    {
      TrimmedSupplies(g, m, t);
      TableKnows(g, m, t);
    }
  }

  /** No Pad of a graph has pads that the graph says are negative. */
  ghost predicate NoNegativePads(g: Graph) {
    forall n :: n in g.nodes && n.op == PAD ==> |n.inputs| >= 2 && !KnownNegative(g, n.inputs[1])
  }

  /** The split pass, and the three passes in order, leave no negative pads. */
  lemma {:induction false} NoNegativePadsLeft(g: Graph)
    requires AllChecked(g.nodes) && OneValueEach(g) && NewNames(g)
    ensures NoNegativePads(SplitGraph(g)) && NoNegativePads(Rewritten(g))
  {
    forall m, t | Supplies(g, m, t)
      ensures
        var values := ConstantValues(g.initializers, g.nodes);
        m in values && values[m] == t
    {
      TableKnows(g, m, t);
    }
    forall n | n in SplitGraph(g).nodes && n.op == PAD
      ensures |n.inputs| >= 2 && !KnownNegative(SplitGraph(g), n.inputs[1])
    {
      SplitLeavesNone(g, n);
    }
    TrimmedMeets(g);
    RewrittenIsSplit(g);
    forall n | n in Rewritten(g).nodes && n.op == PAD
      ensures |n.inputs| >= 2 && !KnownNegative(Rewritten(g), n.inputs[1])
    {
      SplitLeavesNone(TrimmedGraph(g), n);
    }
  }

  // ------------------------------------------------------------ Einsums

  ghost predicate NoOuterEinsum(nodes: seq<Node>) {
    forall n :: n in nodes && n.op == EINSUM ==>
      !(EQUATION in n.attributes && n.attributes[EQUATION] == Text("... d, h d -> ... h d"))
  }

  lemma {:induction false} NoOuterEinsumLeft(g: Graph)
    requires AllChecked(g.nodes)
    ensures NoOuterEinsum(EinsumNodes(g.nodes)) && NoOuterEinsum(Rewritten(g).nodes)
  {
    forall n | n in EinsumNodes(g.nodes) && n.op == EINSUM ensures !IsEinsumOuter(n) {
      LoweredMember(g.nodes, n);
    }
    RewrittenIsSplit(g);
    var h := TrimmedGraph(g);
    forall n | n in Rewritten(g).nodes && n.op == EINSUM ensures !IsEinsumOuter(n) {
      SplitOther(h.nodes, ConstantValues(h.initializers, h.nodes), n);
      TrimmedMember(g, EmptyOutputs(g.nodes, ConstantValues(g.initializers, g.nodes)), n);
    }
  }

  lemma {:induction false} SplitOther(nodes: seq<Node>, values: Env, x: Node)
    requires AllChecked(nodes) && x in SplitNodes(nodes, values) && x.op != PAD && x.op != SLICE
    ensures x in nodes
  {
    SplitMember(nodes, values, x);
    var i: nat :| i < |nodes| && x in SplitBlock(nodes[i], i, values);
    assert x == nodes[i];
  }

  // ------------------------------------------------------------ empty inputs of Concats

  /** The names that the second pass collects: outputs of Slices that the table of constants shows empty. */
  lemma {:induction false} CollectedIff(nodes: seq<Node>, values: Env, m: string)
    requires AllChecked(nodes)
    ensures m in EmptyOutputs(nodes, values) <==>
            exists n :: n in nodes && Collects(n, values, m)
  {
    if nodes != [] {
      var last, rest := nodes[|nodes| - 1], nodes[..|nodes| - 1];
      CollectedIff(rest, values, m);
      OneMoreCollected(nodes, last, rest, values, m);
    }
  }

  lemma {:induction false} OneMoreCollected(nodes: seq<Node>, last: Node, rest: seq<Node>, values: Env, m: string)
    requires AllChecked(nodes) && nodes == rest + [last]
    ensures (exists n :: n in nodes && Collects(n, values, m)) <==>
            (exists n :: n in rest && Collects(n, values, m)) || Collects(last, values, m)
  {
    assert forall n :: n in nodes <==> n in rest || n == last;
    assert last in nodes;
  }

  predicate Collects(n: Node, values: Env, m: string) {
    Checked(n) && n.op == SLICE && n.outputs[0] == m && IsEmptySlice(n, values)
  }

  lemma {:induction false} SaidByTable(g: Graph, m: string, v: seq<int>)
    requires AllChecked(g.nodes) && OneValueEach(g)
    ensures
      var values := ConstantValues(g.initializers, g.nodes);
      Says(g, m, v) <==> m in values && v == IntVector(values[m])
  {
    if t :| Supplies(g, m, t) && v == IntVector(t) {
      TableKnows(g, m, t);
    }
    if m in ConstantValues(g.initializers, g.nodes) {
      TableIsSaid(g, m);
    }
  }

  /** The starts, ends and steps of a Slice in the table of constants. */
  ghost predicate TableSlice(n: Node, values: Env, starts: seq<int>, ends: seq<int>, steps: seq<int>) {
    && n.op == SLICE && |n.inputs| >= 3
    && (forall j :: 1 <= j < |n.inputs| ==> n.inputs[j] in values)
    && starts == IntVector(values[n.inputs[1]]) && ends == IntVector(values[n.inputs[2]])
    && if |n.inputs| > 4 && n.inputs[4] != "" then steps == IntVector(values[n.inputs[4]])
       else |steps| == |starts| && forall i :: 0 <= i < |steps| ==> steps[i] == 1
  }

  lemma {:induction false} KnownSliceByTable(g: Graph, n: Node, starts: seq<int>, ends: seq<int>, steps: seq<int>)
    requires AllChecked(g.nodes) && OneValueEach(g)
    ensures KnownSlice(g, n, starts, ends, steps) <==>
        TableSlice(n, ConstantValues(g.initializers, g.nodes), starts, ends, steps)
  {
    if |n.inputs| >= 3 {
      forall j | 1 <= j < |n.inputs|
        ensures IsSaid(g, n.inputs[j]) <==> n.inputs[j] in ConstantValues(g.initializers, g.nodes)
      {
        IsSaidByTable(g, n.inputs[j]);
      }
      SaidByTable(g, n.inputs[1], starts);
      SaidByTable(g, n.inputs[2], ends);
      if |n.inputs| > 4 {
        SaidByTable(g, n.inputs[4], steps);
      }
    }
  }

  lemma {:induction false} IsSaidByTable(g: Graph, m: string)
    requires AllChecked(g.nodes) && OneValueEach(g)
    ensures IsSaid(g, m) <==> m in ConstantValues(g.initializers, g.nodes)
  {
    var values := ConstantValues(g.initializers, g.nodes);
    if v :| Says(g, m, v) {
      SaidByTable(g, m, v);
    }
    if m in values {
      SaidByTable(g, m, IntVector(values[m]));
    }
  }

  lemma {:induction false} EmptyByTable(n: Node, values: Env)
    requires Checked(n)
    ensures IsEmptySlice(n, values) <==>
            exists starts, ends, steps, i :: TableSlice(n, values, starts, ends, steps) && 0 <= i < |starts|
              && i < |ends| && i < |steps| && starts[i] == ends[i] && steps[i] > 0
  {
    if IsEmptySlice(n, values) {
      var starts, ends := IntVector(values[n.inputs[1]]), IntVector(values[n.inputs[2]]);
      assert TableSlice(n, values, starts, ends, StepsOf(n, values, |starts|));
    }
  }

  lemma {:induction false} KnownEmptyIff(g: Graph, n: Node)
    requires AllChecked(g.nodes) && OneValueEach(g) && Checked(n)
    ensures KnownEmpty(g, n) <==> IsEmptySlice(n, ConstantValues(g.initializers, g.nodes))
  {
    EmptyByTable(n, ConstantValues(g.initializers, g.nodes));
    forall starts, ends, steps
      ensures KnownSlice(g, n, starts, ends, steps) <==>
          TableSlice(n, ConstantValues(g.initializers, g.nodes), starts, ends, steps)
    {
      KnownSliceByTable(g, n, starts, ends, steps);
    }
  }

  lemma {:induction false} WithoutMembers(names: seq<string>, empty: set<string>, m: string)
    ensures m in Without(names, empty) <==> m in names && m !in empty
    ensures |Without(names, empty)| == |names| ==> forall o :: o in names ==> o !in empty
    ensures |Without(names, empty)| <= |names|
  {
    if names != [] {
      WithoutMembers(names[..|names| - 1], empty, m);
    }
  }

  /** The names that the second pass collects are those that the graph says are empty. */
  lemma {:induction false} CollectedIsKnown(g: Graph, m: string)
    requires AllChecked(g.nodes) && OneValueEach(g)
    ensures m in EmptyOutputs(g.nodes, ConstantValues(g.initializers, g.nodes)) <==> KnownEmptyName(g, m)
  {
    var values := ConstantValues(g.initializers, g.nodes);
    CollectedIff(g.nodes, values, m);
    forall n | n in g.nodes ensures Collects(n, values, m) <==> KnownEmpty(g, n) && n.outputs == [m] {
      CollectsIff(g, n, m);
    }
    forall k | 0 <= k < |g.nodes| ensures g.nodes[k] in g.nodes {
    }
  }

  lemma {:induction false} CollectsIff(g: Graph, n: Node, m: string)
    requires AllChecked(g.nodes) && OneValueEach(g) && Checked(n)
    ensures Collects(n, ConstantValues(g.initializers, g.nodes), m) <==> KnownEmpty(g, n) && n.outputs == [m]
  {
    KnownEmptyIff(g, n);
    if n.op == SLICE {
      assert n.outputs[0] == m <==> n.outputs == [m];
    }
  }

  /** A Concat loses exactly the inputs that the graph says are empty, unless that are all of them. */
  ghost predicate LosesEmpty(g: Graph, c: Node, r: Node) {
    && r == c.(inputs := r.inputs)
    && if (forall m :: m in c.inputs ==> KnownEmptyName(g, m)) then r == c
       else forall m :: m in r.inputs <==> m in c.inputs && !KnownEmptyName(g, m)
  }

  lemma {:induction false} ConcatLoses(g: Graph, c: Node)
    requires AllChecked(g.nodes) && OneValueEach(g) && c.op == CONCAT
    ensures LosesEmpty(g, c, ConcatNode(c, EmptyOutputs(g.nodes, ConstantValues(g.initializers, g.nodes))))
  {
    var empty := EmptyOutputs(g.nodes, ConstantValues(g.initializers, g.nodes));
    forall m ensures m in empty <==> KnownEmptyName(g, m) {
      CollectedIsKnown(g, m);
    }
    forall m
      ensures m in Without(c.inputs, empty) <==> m in c.inputs && m !in empty
      ensures |Without(c.inputs, empty)| == |c.inputs| ==> forall o :: o in c.inputs ==> o !in empty
    {
      WithoutMembers(c.inputs, empty, m);
    }
    if Without(c.inputs, empty) != [] {
      assert Without(c.inputs, empty)[0] in Without(c.inputs, empty);
    }
  }

  /** Every Concat that the passes leave comes from one of the graph that lost its empty inputs. */
  ghost predicate ConcatsLoseEmpty(g: Graph, nodes: seq<Node>) {
    forall n :: n in nodes && n.op == CONCAT ==> exists c :: c in g.nodes && c.op == CONCAT && LosesEmpty(g, c, n)
  }

  lemma {:induction false} NoEmptyInputsLeft(g: Graph)
    requires AllChecked(g.nodes) && OneValueEach(g)
    ensures ConcatsLoseEmpty(g, Rewritten(g).nodes)
  {
    var values := ConstantValues(g.initializers, g.nodes);
    var empty, h := EmptyOutputs(g.nodes, values), TrimmedGraph(g);
    RewrittenIsSplit(g);
    forall n | n in Rewritten(g).nodes && n.op == CONCAT
      ensures exists c :: c in g.nodes && c.op == CONCAT && LosesEmpty(g, c, n)
    {
      SplitOther(h.nodes, ConstantValues(h.initializers, h.nodes), n);
      TrimmedMember(g, empty, n);
      var c :| c in g.nodes && n == ConcatNode(c, empty);
      ConcatLoses(g, c);
    }
  }

  // ------------------------------------------------------------ pruning

  lemma {:induction false} KeptAreNodes(nodes: seq<Node>, outputs: set<string>, n: Node)
    requires n in Scan(nodes, outputs).kept
    ensures n in nodes
  {
    var later := Scan(nodes[1..], outputs);
    if n in later.kept {
      KeptAreNodes(nodes[1..], outputs, n);
    }
  }

  /** A pruned graph says no more than the graph. */
  lemma {:induction false} PrunedSupplies(g: Graph, m: string, t: Tensor)
    requires Supplies(Pruned(g), m, t)
    ensures Supplies(g, m, t)
  {
    RetainValues(g.initializers, Used(Pruned(g).nodes));
    if k :| 0 <= k < |Pruned(g).nodes| && MakesConstant(Pruned(g).nodes[k], m, t) {
      KeptAreNodes(g.nodes, NameSet(g.outputs), Pruned(g).nodes[k]);
      var i :| 0 <= i < |g.nodes| && g.nodes[i] == Pruned(g).nodes[k];
      assert MakesConstant(g.nodes[i], m, t);
    }
  }

  lemma {:induction false} PrunedSays(g: Graph, m: string)
    requires KnownNegative(Pruned(g), m)
    ensures KnownNegative(g, m)
  {
    var v, k :| Says(Pruned(g), m, v) && 0 <= k < |v| && v[k] < 0;
    var t :| Supplies(Pruned(g), m, t) && v == IntVector(t);
    PrunedSupplies(g, m, t);
    assert Says(g, m, v);
  }

  /** What the exported graph has nothing of: a Pad whose pads it says are negative, an Einsum of the form that is
      rewritten, and a Concat input that the graph says is empty beside one that it does not. */
  lemma {:induction false} NothingLeft(g: Graph)
    requires AllChecked(g.nodes) && OneValueEach(g) && NewNames(g)
    ensures
      var p := Pruned(Rewritten(g));
      NoNegativePads(p) && NoOuterEinsum(p.nodes) && ConcatsLoseEmpty(g, p.nodes)
  {
    var w := Rewritten(g);
    var p := Pruned(w);
    NoNegativePadsLeft(g);
    NoOuterEinsumLeft(g);
    NoEmptyInputsLeft(g);
    forall n | n in p.nodes ensures n in w.nodes {
      KeptAreNodes(w.nodes, NameSet(w.outputs), n);
    }
    forall n | n in p.nodes && n.op == PAD ensures |n.inputs| >= 2 && !KnownNegative(p, n.inputs[1]) {
      assert n in w.nodes;
      if KnownNegative(p, n.inputs[1]) {
        PrunedSays(w, n.inputs[1]);
      }
    }
  }

  // ------------------------------------------------------------ what the passes leave alone

  /** Nothing in the graph is for the three passes to rewrite. */
  ghost predicate NothingToRewrite(g: Graph) {
    && NoNegativePads(g) && NoOuterEinsum(g.nodes)
    && forall c :: c in g.nodes && c.op == CONCAT ==> LosesEmpty(g, c, c)
  }

  lemma {:induction false} NoEinsumStays(nodes: seq<Node>)
    requires AllChecked(nodes) && forall i :: 0 <= i < |nodes| ==> !IsEinsumOuter(nodes[i])
    ensures EinsumNodes(nodes) == nodes
  {
    if nodes != [] {
      var n := |nodes| - 1;
      NoEinsumStays(nodes[..n]);
      LastStays(nodes, EinsumBlock(nodes[n]));
    }
  }

  lemma {:induction false} LastStays(nodes: seq<Node>, block: seq<Node>)
    requires nodes != [] && block == [nodes[|nodes| - 1]]
    ensures nodes[..|nodes| - 1] + block == nodes
  {
  }

  predicate SplitsNothing(nodes: seq<Node>, values: Env)
    requires AllChecked(nodes)
  {
    forall i :: 0 <= i < |nodes| ==> !NeedsSplit(nodes[i], values)
  }

  lemma {:induction false} FirstSplitNothing(nodes: seq<Node>, values: Env)
    requires AllChecked(nodes) && nodes != [] && SplitsNothing(nodes, values)
    ensures SplitsNothing(nodes[..|nodes| - 1], values) && !NeedsSplit(nodes[|nodes| - 1], values)
  {
  }

  lemma {:induction false} NoSplitStays(nodes: seq<Node>, values: Env)
    requires AllChecked(nodes) && SplitsNothing(nodes, values)
    ensures SplitNodes(nodes, values) == nodes && AllSplitInitializers(nodes, values) == []
  {
    if nodes != [] {
      var n := |nodes| - 1;
      FirstSplitNothing(nodes, values);
      NoSplitStays(nodes[..n], values);
      LastStays(nodes, SplitBlock(nodes[n], n, values));
    }
  }

  lemma {:induction false} NeedsSplitIsKnown(g: Graph, n: Node)
    requires AllChecked(g.nodes) && Checked(n) && NeedsSplit(n, ConstantValues(g.initializers, g.nodes))
    ensures n.op == PAD && KnownNegative(g, n.inputs[1])
  {
    var values := ConstantValues(g.initializers, g.nodes);
    TableIsSaid(g, n.inputs[1]);
    assert Says(g, n.inputs[1], IntVector(values[n.inputs[1]]));
  }

  lemma {:induction false} SameNode(g: Graph, c: Node)
    requires AllChecked(g.nodes) && OneValueEach(g) && c.op == CONCAT && LosesEmpty(g, c, c)
    ensures ConcatNode(c, EmptyOutputs(g.nodes, ConstantValues(g.initializers, g.nodes))) == c
  {
    var empty := EmptyOutputs(g.nodes, ConstantValues(g.initializers, g.nodes));
    if forall m :: m in c.inputs ==> KnownEmptyName(g, m) {
      ConcatLoses(g, c);
    } else {
      forall m | m in c.inputs ensures m !in empty {
        CollectedIsKnown(g, m);
      }
      NothingWithout(c.inputs, empty);
    }
  }

  lemma {:induction false} NothingWithout(names: seq<string>, empty: set<string>)
    requires forall m :: m in names ==> m !in empty
    ensures Without(names, empty) == names
  {
    if names != [] {
      var n := |names| - 1;
      assert forall m :: m in names[..n] ==> m in names;
      NothingWithout(names[..n], empty);
      assert names[n] in names && names == names[..n] + [names[n]];
    }
  }

  lemma {:induction false} NodeStays(g: Graph, n: Node)
    requires AllChecked(g.nodes) && OneValueEach(g) && NothingToRewrite(g) && n in g.nodes && Checked(n)
    ensures
      var values := ConstantValues(g.initializers, g.nodes);
      ConcatNode(n, EmptyOutputs(g.nodes, values)) == n && !NeedsSplit(n, values) && !IsEinsumOuter(n)
  {
    if n.op == CONCAT {
      SameNode(g, n);
    }
    if NeedsSplit(n, ConstantValues(g.initializers, g.nodes)) {
      NeedsSplitIsKnown(g, n);
    }
  }

  lemma {:induction false} TrimmedStays(g: Graph)
    requires AllChecked(g.nodes) && OneValueEach(g) && NothingToRewrite(g)
    ensures TrimmedGraph(g) == g
  {
    forall i | 0 <= i < |g.nodes| ensures !IsEinsumOuter(g.nodes[i]) {
      NodeStays(g, g.nodes[i]);
    }
    NoEinsumStays(g.nodes);
    var empty := EmptyOutputs(g.nodes, ConstantValues(g.initializers, g.nodes));
    forall i | 0 <= i < |g.nodes| ensures ConcatNodes(g.nodes, empty)[i] == g.nodes[i] {
      NodeStays(g, g.nodes[i]);
    }
    assert Trimmed(g, empty) == g.nodes;
  }

  /** A graph with nothing to rewrite stays as it is. */
  lemma {:induction false} NothingRewritten(g: Graph)
    requires AllChecked(g.nodes) && OneValueEach(g) && NothingToRewrite(g)
    ensures Rewritten(g) == g
  {
    RewrittenIsSplit(g);
    TrimmedStays(g);
    forall i | 0 <= i < |g.nodes| ensures !NeedsSplit(g.nodes[i], ConstantValues(g.initializers, g.nodes)) {
      NodeStays(g, g.nodes[i]);
    }
    NoSplitStays(g.nodes, ConstantValues(g.initializers, g.nodes));
  }

  // ------------------------------------------------------------ fills

  lemma {:induction false} CompatibleMember(nodes: seq<Node>, types: map<string, DType>, x: Node)
    requires AllChecked(nodes) && x in CompatibleNodes(nodes, types)
    ensures exists i: nat :: i < |nodes| && x in CompatibleBlock(nodes[i], i, types)
  {
    var n := |nodes| - 1;
    if x in CompatibleNodes(nodes[..n], types) {
      CompatibleMember(nodes[..n], types, x);
      var i: nat :| i < n && x in CompatibleBlock(nodes[..n][i], i, types);
      assert nodes[..n][i] == nodes[i];
    } else {
      assert x in CompatibleBlock(nodes[n], n, types);
    }
  }

  /** After the first pass every Pad has a fill, and none pads a tensor that shape inference calls bool. */
  lemma {:induction false} EveryPadIsFilled(g: Graph, types: map<string, DType>, x: Node)
    requires AllChecked(g.nodes) && forall name: string :: name + "__float" !in types
    requires x in Compatible(g, types).nodes && x.op == PAD
    ensures |x.inputs| >= 3 && x.inputs[2] != "" && !(x.inputs[0] in types && types[x.inputs[0]] == BOOL)
  {
    CompatibleMember(g.nodes, types, x);
    var i: nat :| i < |g.nodes| && x in CompatibleBlock(g.nodes[i], i, types);
    FillNameIsNotEmpty(i);
    PadIsFilled(g.nodes[i], i, types, x);
  }

  lemma {:induction false} FillNameIsNotEmpty(i: nat)
    ensures PadZero(i) != "" && BoolPadZero(i) != ""
  {
    assert |PadZero(i)| >= 19 && |BoolPadZero(i)| >= 24;
  }

  lemma {:induction false} PadIsFilled(n: Node, i: nat, types: map<string, DType>, x: Node)
    requires Checked(n) && x in CompatibleBlock(n, i, types) && x.op == PAD && PadZero(i) != "" && BoolPadZero(i) != ""
    requires forall name: string :: name + "__float" !in types
    ensures |x.inputs| >= 3 && x.inputs[2] != "" && !(x.inputs[0] in types && types[x.inputs[0]] == BOOL)
  {
    var block := CompatibleBlock(n, i, types);
    if KnownBool(n, types) {
      assert x == block[1] && x.inputs[0] == n.inputs[0] + "__float";
    } else {
      assert x == block[0] && x.inputs == FilledInputs(n, i);
    }
  }

  // ------------------------------------------------------------ casts

  function CastNode(input: string, output: string, code: int): Node {
    Node(CAST, [input], [output], map[TO := Number(code)])
  }

  lemma {:induction false} BlockIsThere(nodes: seq<Node>, types: map<string, DType>, i: nat, x: Node)
    requires AllChecked(nodes) && i < |nodes| && x in CompatibleBlock(nodes[i], i, types)
    ensures x in CompatibleNodes(nodes, types)
  {
    var n := |nodes| - 1;
    if i < n {
      assert nodes[..n][i] == nodes[i];
      BlockIsThere(nodes[..n], types, i, x);
    }
  }

  /** A Pad of a tensor that shape inference calls bool pads its cast to float, element type 1 of ONNX, and its output
      is the cast of the padded floats to bool, element type 9; the pads are its own. */
  lemma {:induction false} BoolPadIsCast(g: Graph, types: map<string, DType>, n: Node)
    requires AllChecked(g.nodes) && n in g.nodes && n.op == PAD && n.inputs[0] in types && types[n.inputs[0]] == BOOL
    ensures CastNode(n.inputs[0], n.inputs[0] + "__float", 1) in Compatible(g, types).nodes
    ensures CastNode(n.outputs[0] + "__float", n.outputs[0], 9) in Compatible(g, types).nodes
    ensures exists x :: x in Compatible(g, types).nodes && x.op == PAD && x.attributes == n.attributes
              && x.outputs == [n.outputs[0] + "__float"] && |x.inputs| >= 3
              && x.inputs[0] == n.inputs[0] + "__float" && x.inputs[1] == n.inputs[1]
  {
    var i: nat :| i < |g.nodes| && g.nodes[i] == n;
    var block := CompatibleBlock(n, i, types);
    assert block[0] in block && block[1] in block && block[2] in block;
    BlockIsThere(g.nodes, types, i, block[0]);
    BlockIsThere(g.nodes, types, i, block[1]);
    BlockIsThere(g.nodes, types, i, block[2]);
  }
}
