/** The three rewriting passes in the order in which the export runs them, and why together they keep
    every tensor of the graph. */
module Pipeline {
  import opened Wrappers
  import opened Tensors
  import opened Names
  import opened Graphs
  import opened Passes
  import opened PassProofs
  import opened Assignment

  /** Einsum rewrite, empty-Concat removal, negative-pad split. */
  function Rewritten(g: Graph): Graph
    requires AllChecked(g.nodes)
  {
    var lowered := EinsumNodes(g.nodes);
    var trimmed := ConcatNodes(lowered, EmptyOutputs(lowered, ConstantValues(g.initializers, lowered)));
    var values := ConstantValues(g.initializers, trimmed);
    Graph(SplitNodes(trimmed, values), g.initializers + AllSplitInitializers(trimmed, values), g.outputs)
  }

  /** The temporaries that the passes put around one node. */
  function Temporaries(n: Node, values: Env): set<string>
    requires Checked(n)
  {
    if IsEinsumOuter(n) then {n.outputs[0] + "__expanded"}
    else if NeedsSplit(n, values) then {n.inputs[0] + "__cropped"}
    else {}
  }

  /** The graph meets the passes as they expect it: the names they generate are not `taken`, and every Pad that
      they split is a constant-mode Pad. */
  ghost predicate Applicable(g: Graph, taken: set<string>)
    requires AllChecked(g.nodes)
  {
    var values := ConstantValues(g.initializers, g.nodes);
    && (forall index, part :: GeneratedName(index, part) !in taken)
    && forall i :: 0 <= i < |g.nodes| ==>
         Temporaries(g.nodes[i], values) !! taken && (NeedsSplit(g.nodes[i], values) ==> ConstantMode(g.nodes[i]))
  }

  /** In a run with tensors `final` the passes leave what this node computes: a Pad that is split crops no more
      than its data has, and a Concat loses only inputs that are empty along its axis. */
  ghost predicate KeepsValue(n: Node, values: Env, empty: set<string>, final: Env)
    requires Checked(n)
  {
    (NeedsSplit(n, values) ==> CropsHold(n, PadsOf(n, values), final)) && DropsOnlyEmpty(n, empty, final)
  }

  ghost predicate KeepsValues(g: Graph, final: Env)
    requires AllChecked(g.nodes)
  {
    var values := ConstantValues(g.initializers, g.nodes);
    var empty := EmptyOutputs(g.nodes, values);
    forall i :: 0 <= i < |g.nodes| ==> KeepsValue(g.nodes[i], values, empty, final)
  }

  // ------------------------------------------------------------ the passes do not disturb each other

  lemma {:induction false} ConstantsAppend(values: Env, nodes: seq<Node>, n: Node)
    requires AllChecked(nodes) && Checked(n)
    ensures AllChecked(nodes + [n])
    ensures ConstantsFrom(values, nodes + [n]) ==
            var earlier := ConstantsFrom(values, nodes);
            if IsConstant(n) then earlier[n.outputs[0] := n.attributes[VALUE].t] else earlier
  {
    assert (nodes + [n])[..|nodes|] == nodes;
  }

  lemma {:induction false} EmptyAppend(nodes: seq<Node>, n: Node, values: Env)
    requires AllChecked(nodes) && Checked(n)
    ensures AllChecked(nodes + [n])
    ensures EmptyOutputs(nodes + [n], values)
            == EmptyOutputs(nodes, values) + if IsEmptySlice(n, values) then {n.outputs[0]} else {}
  {
    assert (nodes + [n])[..|nodes|] == nodes;
  }

  lemma {:induction false} EinsumAppend(nodes: seq<Node>)
    requires AllChecked(nodes) && nodes != []
    ensures
      var n := |nodes| - 1;
      var most := EinsumNodes(nodes[..n]);
      if IsEinsumOuter(nodes[n])
      then var block := EinsumBlock(nodes[n]);
        |block| == 2 && block[0].op == UNSQUEEZE && block[1].op == MUL
            && EinsumNodes(nodes) == (most + [block[0]]) + [block[1]]
      else EinsumNodes(nodes) == most + [nodes[n]]
  {
    var n := |nodes| - 1;
    if IsEinsumOuter(nodes[n]) {
      var block := EinsumBlock(nodes[n]);
      assert block == [block[0]] + [block[1]];
    }
  }

  lemma {:induction false} LoweringKeepsConstants(values: Env, nodes: seq<Node>)
    requires AllChecked(nodes)
    ensures ConstantsFrom(values, EinsumNodes(nodes)) == ConstantsFrom(values, nodes)
  {
    if nodes != [] {
      var n := |nodes| - 1;
      LoweringKeepsConstants(values, nodes[..n]);
      EinsumAppend(nodes);
      var most, block := EinsumNodes(nodes[..n]), EinsumBlock(nodes[n]);
      if IsEinsumOuter(nodes[n]) {
        ConstantsAppend(values, most, block[0]);
        ConstantsAppend(values, most + [block[0]], block[1]);
      } else {
        ConstantsAppend(values, most, nodes[n]);
      }
    }
  }

  lemma {:induction false} LoweringKeepsEmptyOutputs(values: Env, nodes: seq<Node>)
    requires AllChecked(nodes)
    ensures EmptyOutputs(EinsumNodes(nodes), values) == EmptyOutputs(nodes, values)
  {
    if nodes != [] {
      var n := |nodes| - 1;
      LoweringKeepsEmptyOutputs(values, nodes[..n]);
      EinsumAppend(nodes);
      var most, block := EinsumNodes(nodes[..n]), EinsumBlock(nodes[n]);
      if IsEinsumOuter(nodes[n]) {
        EmptyAppend(most, block[0], values);
        EmptyAppend(most + [block[0]], block[1], values);
      } else {
        EmptyAppend(most, nodes[n], values);
      }
    }
  }

  lemma {:induction false} TrimmingKeepsConstants(values: Env, nodes: seq<Node>, empty: set<string>)
    requires AllChecked(nodes)
    ensures ConstantsFrom(values, ConcatNodes(nodes, empty)) == ConstantsFrom(values, nodes)
  {
    if nodes != [] {
      var n := |nodes| - 1;
      TrimmingKeepsConstants(values, nodes[..n], empty);
      assert ConcatNodes(nodes, empty)[..n] == ConcatNodes(nodes[..n], empty);
    }
  }

  // ------------------------------------------------------------ blocks

  /** What all three passes together make of one node that the first pass puts at position `place`. */
  function Block(n: Node, place: nat, values: Env, empty: set<string>): seq<Node>
    requires Checked(n)
  {
    if IsEinsumOuter(n) then EinsumBlock(n)
    else if n.op == CONCAT then [ConcatNode(n, empty)]
    else SplitBlock(n, place, values)
  }

  function Blocks(nodes: seq<Node>, values: Env, empty: set<string>): (r: seq<seq<Node>>)
    requires AllChecked(nodes)
    ensures |r| == |nodes|
  {
    if nodes == [] then []
    else
      var n := |nodes| - 1;
      Blocks(nodes[..n], values, empty) + [Block(nodes[n], |EinsumNodes(nodes[..n])|, values, empty)]
  }

  lemma {:induction false} FlattenAppend(blocks: seq<seq<Node>>, block: seq<Node>)
    ensures Flatten(blocks + [block]) == Flatten(blocks) + block
  {
    if blocks == [] {
      assert Flatten([block]) == block + Flatten([block][1..]);
    } else {
      FlattenAppend(blocks[1..], block);
      assert (blocks + [block])[1..] == blocks[1..] + [block];
    }
  }

  lemma {:induction false} SplitAppend(nodes: seq<Node>, n: Node, values: Env)
    requires AllChecked(nodes) && Checked(n)
    ensures AllChecked(nodes + [n])
    ensures SplitNodes(nodes + [n], values) == SplitNodes(nodes, values) + SplitBlock(n, |nodes|, values)
  {
    assert (nodes + [n])[..|nodes|] == nodes;
  }

  lemma {:induction false} ConcatAppend(nodes: seq<Node>, n: Node, empty: set<string>)
    ensures ConcatNodes(nodes + [n], empty) == ConcatNodes(nodes, empty) + [ConcatNode(n, empty)]
  {
  }

  /** Running the passes one after the other is replacing every node by its block. */
  lemma {:induction false} PassesAreBlocks(nodes: seq<Node>, values: Env, empty: set<string>)
    requires AllChecked(nodes)
    ensures SplitNodes(ConcatNodes(EinsumNodes(nodes), empty), values) == Flatten(Blocks(nodes, values, empty))
  {
    if nodes != [] {
      var n := |nodes| - 1;
      PassesAreBlocks(nodes[..n], values, empty);
      var most := EinsumNodes(nodes[..n]);
      FlattenAppend(Blocks(nodes[..n], values, empty), Block(nodes[n], |most|, values, empty));
      EinsumAppend(nodes);
      LastBlock(most, nodes[n], values, empty);
    }
  }

  /** Two nodes that are not Pads pass the split pass unchanged. */
  lemma {:induction false} SplitPair(most: seq<Node>, a: Node, b: Node, values: Env)
    requires AllChecked(most) && Checked(a) && Checked(b) && a.op != PAD && b.op != PAD
    ensures AllChecked(most + [a] + [b])
    ensures SplitNodes(most + [a] + [b], values) == SplitNodes(most, values) + ([a] + [b])
  {
    SplitAppend(most, a, values);
    SplitAppend(most + [a], b, values);
  }

  lemma {:induction false} LastBlock(most: seq<Node>, n: Node, values: Env, empty: set<string>)
    requires AllChecked(most) && Checked(n)
    ensures
      var nodes := if IsEinsumOuter(n) then (most + [EinsumBlock(n)[0]]) + [EinsumBlock(n)[1]] else most + [n];
      && AllChecked(nodes)
      && SplitNodes(ConcatNodes(nodes, empty), values)
         == SplitNodes(ConcatNodes(most, empty), values) + Block(n, |most|, values, empty)
  {
    if IsEinsumOuter(n) {
      LastPair(most, EinsumBlock(n)[0], EinsumBlock(n)[1], values, empty);
    } else {
      ConcatAppend(most, n, empty);
      SplitAppend(ConcatNodes(most, empty), ConcatNode(n, empty), values);
    }
  }

  lemma {:induction false} LastPair(most: seq<Node>, a: Node, b: Node, values: Env, empty: set<string>)
    requires AllChecked(most) && Checked(a) && Checked(b) && a.op in {UNSQUEEZE, MUL} && b.op in {UNSQUEEZE, MUL}
    ensures
      var nodes := most + [a] + [b];
      && AllChecked(nodes)
      && SplitNodes(ConcatNodes(nodes, empty), values) == SplitNodes(ConcatNodes(most, empty), values) + [a, b]
  {
    ConcatPair(most, a, b, empty);
    SplitPair(ConcatNodes(most, empty), a, b, values);
    assert [a] + [b] == [a, b];
  }

  lemma {:induction false} ConcatPair(most: seq<Node>, a: Node, b: Node, empty: set<string>)
    requires a.op != CONCAT && b.op != CONCAT
    ensures ConcatNodes(most + [a] + [b], empty) == ConcatNodes(most, empty) + [a] + [b]
  {
    ConcatAppend(most, a, empty);
    ConcatAppend(most + [a], b, empty);
  }

  /** Block `i` belongs to node `i`; a Pad still stands at its place when the split pass reaches it. */
  lemma {:induction false} BlockAt(nodes: seq<Node>, values: Env, empty: set<string>, i: nat) returns (place: nat)
    requires AllChecked(nodes) && i < |nodes|
    ensures Blocks(nodes, values, empty)[i] == Block(nodes[i], place, values, empty)
    ensures nodes[i].op == PAD ==>
        place < |EinsumNodes(nodes)| && ConcatNodes(EinsumNodes(nodes), empty)[place] == nodes[i]
  {
    var n := |nodes| - 1;
    if i == n {
      place := |EinsumNodes(nodes[..n])|;
    } else {
      place := BlockAt(nodes[..n], values, empty, i);
    }
  }

  // ------------------------------------------------------------ generated constants

  lemma {:induction false} InitialSnoc(a: seq<Initializer>, x: Initializer)
    ensures InitialValues(a + [x]) == InitialValues(a)[x.name := x.value]
  {
    assert (a + [x])[..|a|] == a;
  }

  /** Appending initializers overlays their values. */
  lemma {:induction false} InitialAppend(a: seq<Initializer>, b: seq<Initializer>)
    ensures forall m :: m in InitialValues(a + b) <==> m in InitialValues(a) || m in InitialValues(b)
    ensures Extends(InitialValues(b), InitialValues(a + b))
    ensures forall m :: m in InitialValues(a) && m !in InitialValues(b) ==>
        InitialValues(a + b)[m] == InitialValues(a)[m]
  {
    if b == [] {
      assert a + b == a;
    } else {
      var n := |b| - 1;
      InitialAppend(a, b[..n]);
      InitialSnoc(a + b[..n], b[n]);
      InitialSnoc(b[..n], b[n]);
      assert a + b == a + b[..n] + [b[n]] && b == b[..n] + [b[n]];
    }
  }

  predicate NamesOne(items: seq<Initializer>, m: string) {
    exists k :: 0 <= k < |items| && items[k].name == m
  }

  lemma {:induction false} InitialNamed(items: seq<Initializer>, m: string)
    requires m in InitialValues(items)
    ensures NamesOne(items, m)
  {
    var n := |items| - 1;
    if m != items[n].name {
      InitialNamed(items[..n], m);
      var k :| 0 <= k < n && items[..n][k].name == m;
      assert items[k].name == m;
    }
  }

  lemma {:induction false} InitialAt(items: seq<Initializer>, k: nat)
    requires k < |items| && forall i :: k < i < |items| ==> items[i].name != items[k].name
    ensures items[k].name in InitialValues(items) && InitialValues(items)[items[k].name] == items[k].value
  {
    var n := |items| - 1;
    if k < n {
      InitialAt(items[..n], k);
    }
  }

  lemma {:induction false} GeneratedNamesDiffer(index: nat)
    ensures forall i, j :: 0 <= i < j < |PARTS| ==> GeneratedNames(index)[i] != GeneratedNames(index)[j]
    ensures forall k :: 0 <= k < |PARTS| ==> GeneratedNames(index)[k] != ""
  {
    forall i, j | 0 <= i < j < |PARTS| ensures GeneratedNames(index)[i] != GeneratedNames(index)[j] {
      if GeneratedName(index, PARTS[i]) == GeneratedName(index, PARTS[j]) {
        GeneratedNameInjective(index, PARTS[i], index, PARTS[j]);
      }
    }
    forall k | 0 <= k < |PARTS| ensures GeneratedNames(index)[k] != "" {
      assert |GeneratedName(index, PARTS[k])| >= |Stem(PARTS[k])|;
    }
  }

  lemma {:induction false} ListOf(pads: seq<int>, k: nat)
    requires k < |PARTS|
    ensures PartLists(pads)[k] == GeneratedInts(pads, PARTS[k])
  {
    if k == 0 { assert PARTS[0] == CROP_STARTS; }
    else if k == 1 { assert PARTS[1] == CROP_ENDS; }
    else if k == 2 { assert PARTS[2] == CROP_AXES; }
    else if k == 3 { assert PARTS[3] == CROP_STEPS; }
    else { assert PARTS[4] == POSITIVE_PADS; }
  }

  lemma {:induction false} PartsHold(names: seq<string>, pads: seq<int>)
    requires |names| == |PARTS| && |pads| <= INT64_MAX
    ensures
      var items := PartInitializers(names, PartLists(pads), |PARTS|);
      && |items| == |PARTS|
      && forall k :: 0 <= k < |items| ==>
          items[k].name == names[k] && IsVector(items[k].value, GeneratedInts(pads, PARTS[k]))
  {
    var items := PartInitializers(names, PartLists(pads), |PARTS|);
    forall k: nat | k < |items|
      ensures items[k].name == names[k] && IsVector(items[k].value, GeneratedInts(pads, PARTS[k]))
    {
      PartAt(names, PartLists(pads), |PARTS|, k);
      ListOf(pads, k);
    }
  }

  /** One split Pad's own initializers hold its parameters. */
  lemma {:induction false} SplitInitializersHold(n: Node, index: nat, values: Env)
    requires Checked(n)
    ensures forall m :: m in InitialValues(SplitInitializers(n, index, values)) ==>
        exists part :: m == GeneratedName(index, part)
    ensures NeedsSplit(n, values) ==>
              HoldsParameters(InitialValues(SplitInitializers(n, index, values)), GeneratedNames(index),
                              PadsOf(n, values))
  {
    var items, names := SplitInitializers(n, index, values), GeneratedNames(index);
    if NeedsSplit(n, values) {
      PartsHold(names, PadsOf(n, values));
    }
    GeneratedNamesDiffer(index);
    ItemsHold(items, names);
    if NeedsSplit(n, values) {
      forall k | 0 <= k < |PARTS| ensures HoldsPart(InitialValues(items), names[k], PadsOf(n, values), PARTS[k]) {
        assert items[k].name == names[k];
      }
    }
    forall m | m in InitialValues(items) ensures exists part :: m == GeneratedName(index, part) {
      var k :| 0 <= k < |items| && names[k] == m;
      assert m == GeneratedName(index, PARTS[k]);
    }
  }

  lemma {:induction false} ItemsHold(items: seq<Initializer>, names: seq<string>)
    requires |items| <= |names|
    requires forall i, j :: 0 <= i < j < |names| ==> names[i] != names[j]
    requires forall k :: 0 <= k < |items| ==> items[k].name == names[k]
    ensures forall m :: m in InitialValues(items) ==> exists k :: 0 <= k < |items| && names[k] == m
    ensures forall k :: 0 <= k < |items| ==>
        names[k] in InitialValues(items) && InitialValues(items)[names[k]] == items[k].value
  {
    forall m | m in InitialValues(items) ensures exists k :: 0 <= k < |items| && names[k] == m {
      InitialNamed(items, m);
      var k :| 0 <= k < |items| && items[k].name == m;
      assert names[k] == m;
    }
    forall k: nat | k < |items|
      ensures names[k] in InitialValues(items) && InitialValues(items)[names[k]] == items[k].value
    {
      InitialAt(items, k);
    }
  }

  lemma {:induction false} GeneratedDomain(nodes: seq<Node>, values: Env)
    requires AllChecked(nodes)
    ensures forall m :: m in InitialValues(AllSplitInitializers(nodes, values)) ==>
              exists index: nat, part :: index < |nodes| && m == GeneratedName(index, part)
  {
    if nodes != [] {
      var n := |nodes| - 1;
      GeneratedDomain(nodes[..n], values);
      SplitInitializersHold(nodes[n], n, values);
      InitialAppend(AllSplitInitializers(nodes[..n], values), SplitInitializers(nodes[n], n, values));
    }
  }

  lemma {:induction false} AppendKeeps(earlier: seq<Initializer>, own: seq<Initializer>, names: seq<string>,
          pads: seq<int>)
    requires HoldsParameters(InitialValues(earlier), names, pads)
    requires forall k :: 0 <= k < |PARTS| ==> names[k] !in InitialValues(own)
    ensures HoldsParameters(InitialValues(earlier + own), names, pads)
  {
    InitialAppend(earlier, own);
    var small, large := InitialValues(earlier), InitialValues(earlier + own);
    forall k | 0 <= k < |PARTS| ensures HoldsPart(large, names[k], pads, PARTS[k]) {
      assert HoldsPart(small, names[k], pads, PARTS[k]);
    }
  }

  lemma {:induction false} AppendAdds(earlier: seq<Initializer>, own: seq<Initializer>, names: seq<string>,
          pads: seq<int>)
    requires HoldsParameters(InitialValues(own), names, pads)
    ensures HoldsParameters(InitialValues(earlier + own), names, pads)
  {
    InitialAppend(earlier, own);
    var small, large := InitialValues(own), InitialValues(earlier + own);
    forall k | 0 <= k < |PARTS| ensures HoldsPart(large, names[k], pads, PARTS[k]) {
      assert HoldsPart(small, names[k], pads, PARTS[k]);
    }
  }

  lemma {:induction false} OtherNames(i: nat, j: nat, env: Env)
    requires i != j && forall m :: m in env ==> exists part :: m == GeneratedName(j, part)
    ensures forall k :: 0 <= k < |PARTS| ==> GeneratedNames(i)[k] !in env
  {
    forall k | 0 <= k < |PARTS| ensures GeneratedNames(i)[k] !in env {
      if GeneratedName(i, PARTS[k]) in env {
        var part :| GeneratedName(i, PARTS[k]) == GeneratedName(j, part);
        GeneratedNameInjective(i, PARTS[k], j, part);
      }
    }
  }

  lemma {:induction false} AllSplitAppend(earlier: seq<Node>, node: Node, values: Env)
    requires AllChecked(earlier) && Checked(node)
    ensures AllChecked(earlier + [node])
    ensures AllSplitInitializers(earlier + [node], values)
        == AllSplitInitializers(earlier, values) + SplitInitializers(node, |earlier|, values)
  {
    assert (earlier + [node])[..|earlier|] == earlier;
  }

  /** The initializers are all named for one Pad. */
  ghost predicate NamedFor(items: seq<Initializer>, index: nat) {
    forall m :: m in InitialValues(items) ==> exists part :: m == GeneratedName(index, part)
  }

  lemma {:induction false} OthersKeep(base: seq<Initializer>, own: seq<Initializer>, i: nat, n: nat, pads: seq<int>)
    requires i != n && NamedFor(own, n) && HoldsParameters(InitialValues(base), GeneratedNames(i), pads)
    ensures HoldsParameters(InitialValues(base + own), GeneratedNames(i), pads)
  {
    OtherNames(i, n, InitialValues(own));
    AppendKeeps(base, own, GeneratedNames(i), pads);
  }

  lemma {:induction false} GeneratedStays(earlier: seq<Node>, node: Node, values: Env, i: nat, pads: seq<int>)
    requires AllChecked(earlier) && Checked(node) && i < |earlier|
    requires HoldsParameters(InitialValues(AllSplitInitializers(earlier, values)), GeneratedNames(i), pads)
    ensures AllChecked(earlier + [node])
    ensures HoldsParameters(InitialValues(AllSplitInitializers(earlier + [node], values)), GeneratedNames(i), pads)
  {
    AllSplitAppend(earlier, node, values);
    SplitInitializersHold(node, |earlier|, values);
    OthersKeep(AllSplitInitializers(earlier, values), SplitInitializers(node, |earlier|, values), i, |earlier|, pads);
  }

  lemma {:induction false} GeneratedLast(earlier: seq<Node>, node: Node, all: seq<Node>, values: Env, i: nat)
    requires AllChecked(earlier) && Checked(node) && NeedsSplit(node, values) && all == earlier + [node]
        && i == |earlier|
    ensures AllChecked(all)
    ensures HoldsParameters(InitialValues(AllSplitInitializers(all, values)), GeneratedNames(i), PadsOf(node, values))
  {
    AllSplitAppend(earlier, node, values);
    SplitInitializersHold(node, |earlier|, values);
    AppendAdds(AllSplitInitializers(earlier, values), SplitInitializers(node, |earlier|, values),
               GeneratedNames(|earlier|), PadsOf(node, values));
  }

  lemma {:induction false} GeneratedStart(nodes: seq<Node>, values: Env, i: nat)
    requires AllChecked(nodes) && i < |nodes| && NeedsSplit(nodes[i], values)
    ensures HoldsParameters(InitialValues(AllSplitInitializers(nodes[..i + 1], values)), GeneratedNames(i),
                            PadsOf(nodes[i], values))
  {
    GeneratedLast(nodes[..i], nodes[i], nodes[..i + 1], values, i);
  }

  lemma {:induction false} GeneratedSurvives(nodes: seq<Node>, values: Env, i: nat, first: nat, pads: seq<int>)
    requires AllChecked(nodes) && i < first <= |nodes|
    requires HoldsParameters(InitialValues(AllSplitInitializers(nodes[..first], values)), GeneratedNames(i), pads)
    ensures HoldsParameters(InitialValues(AllSplitInitializers(nodes, values)), GeneratedNames(i), pads)
    decreases |nodes| - first
  {
    if first < |nodes| {
      GeneratedStays(nodes[..first], nodes[first], values, i, pads);
      assert nodes[..first + 1] == nodes[..first] + [nodes[first]];
      GeneratedSurvives(nodes, values, i, first + 1, pads);
    } else {
      assert nodes[..first] == nodes;
    }
  }

  /** No later Pad overwrites the parameters of an earlier one. */
  lemma {:induction false} GeneratedHolds(nodes: seq<Node>, values: Env, i: nat)
    requires AllChecked(nodes) && i < |nodes| && NeedsSplit(nodes[i], values)
    ensures HoldsParameters(InitialValues(AllSplitInitializers(nodes, values)), GeneratedNames(i),
                            PadsOf(nodes[i], values))
  {
    GeneratedStart(nodes, values, i);
    GeneratedSurvives(nodes, values, i, i + 1, PadsOf(nodes[i], values));
  }

  // ------------------------------------------------------------ constants are what evaluation sees

  lemma {:induction false} ConstantRuns(ops: Operators, n: Node, env: Env)
    requires Checked(n) && IsConstant(n) && EvalNode(ops, n, env).Some?
    ensures EvalNode(ops, n, env).value == env[n.outputs[0] := n.attributes[VALUE].t]
  {
    var t := n.attributes[VALUE].t;
    assert |n.outputs| == 1;
    assert Bind(env[n.outputs[0] := t], n.outputs[1..], [t][1..]) == env[n.outputs[0] := t];
  }

  lemma {:induction false} EvalInit(ops: Operators, nodes: seq<Node>, env: Env)
    requires nodes != [] && SingleAssignment(nodes, env.Keys) && "" !in env && EvalNodes(ops, nodes, env).Some?
    ensures
      var n := |nodes| - 1;
      var mid := EvalNodes(ops, nodes[..n], env);
      && mid.Some? && EvalNode(ops, nodes[n], mid.value) == EvalNodes(ops, nodes, env)
      && SingleAssignment(nodes[..n], env.Keys) && Written(nodes[n]) !! mid.value.Keys && "" !in mid.value
  {
    var n := |nodes| - 1;
    EvalNodeExtends(ops, nodes[0], env, env);
    var next := EvalNode(ops, nodes[0], env).value;
    if n == 0 {
      EvalNodesOne(ops, nodes[0], env);
      assert nodes == [nodes[0]] && nodes[..0] == [];
    } else {
      EvalInit(ops, nodes[1..], next);
      assert nodes[1..][..n - 1] == nodes[..n][1..];
    }
  }

  /** One more node keeps the known constants, and is known itself if it is a Constant. */
  lemma {:induction false} OneMoreConstant(ops: Operators, n: Node, known: Env, env: Env)
    requires Checked(n) && EvalNode(ops, n, env).Some? && Written(n) !! env.Keys && "" !in env && Extends(known, env)
    ensures Extends(if IsConstant(n) then known[n.outputs[0] := n.attributes[VALUE].t] else known,
                    EvalNode(ops, n, env).value)
  {
    if IsConstant(n) {
      ConstantRuns(ops, n, env);
    } else {
      EvalNodeExtends(ops, n, env, env);
    }
  }

  /** Under single assignment every name that the passes treat as a constant has that value in the run. */
  lemma {:induction false} ConstantsHold(ops: Operators, nodes: seq<Node>, values: Env, env: Env)
    requires AllChecked(nodes) && SingleAssignment(nodes, env.Keys) && "" !in env
    requires EvalNodes(ops, nodes, env).Some? && Extends(values, env)
    ensures Extends(ConstantsFrom(values, nodes), EvalNodes(ops, nodes, env).value)
  {
    if nodes != [] {
      var n := |nodes| - 1;
      EvalInit(ops, nodes, env);
      ConstantsHold(ops, nodes[..n], values, env);
      OneMoreConstant(ops, nodes[n], ConstantsFrom(values, nodes[..n]), EvalNodes(ops, nodes[..n], env).value);
    }
  }

  // ------------------------------------------------------------ the theorem

  lemma {:induction false} BlockRefines(ops: Operators, g: Graph, i: nat, final: Env, constants: Env)
    requires AllChecked(g.nodes) && Applicable(g, final.Keys) && i < |g.nodes|
    requires
      var values := ConstantValues(g.initializers, g.nodes);
      var trimmed := ConcatNodes(EinsumNodes(g.nodes), EmptyOutputs(g.nodes, values));
      Extends(values, final) && constants == InitialValues(AllSplitInitializers(trimmed, values))
    requires constants.Keys !! final.Keys && Written(g.nodes[i]) <= final.Keys
    ensures
      var values := ConstantValues(g.initializers, g.nodes);
      var empty := EmptyOutputs(g.nodes, values);
      RefinesIff(ops, g.nodes[i], Blocks(g.nodes, values, empty)[i], final, constants,
                 KeepsValue(g.nodes[i], values, empty, final))
  {
    var n, values := g.nodes[i], ConstantValues(g.initializers, g.nodes);
    var empty := EmptyOutputs(g.nodes, values);
    var trimmed := ConcatNodes(EinsumNodes(g.nodes), empty);
    var place := BlockAt(g.nodes, values, empty, i);
    GeneratedNotTemporary(trimmed, values);
    assert Temporaries(n, values) !! final.Keys;
    if IsEinsumOuter(n) {
      assert n.outputs[0] + "__expanded" in Temporaries(n, values);
      EinsumRefines(ops, n, final, constants);
    } else if n.op == CONCAT && ConcatNode(n, empty) != n {
      ConcatRefines(ops, n, empty, final, constants);
    } else if NeedsSplit(n, values) {
      assert n.inputs[0] + "__cropped" in Temporaries(n, values);
      GeneratedHolds(trimmed, values, place);
      SplitRefines(ops, n, GeneratedNames(place), PadsOf(n, values), final, constants);
    } else {
      SelfRefines(ops, n, final, constants);
    }
  }

  lemma {:induction false} GeneratedNotTemporary(nodes: seq<Node>, values: Env)
    requires AllChecked(nodes)
    ensures
      var constants := InitialValues(AllSplitInitializers(nodes, values));
      && "" !in constants
      && forall name: string :: name + "__cropped" !in constants && name + "__expanded" !in constants
  {
    var constants := InitialValues(AllSplitInitializers(nodes, values));
    GeneratedDomain(nodes, values);
    forall m | m in constants
      ensures m != "" && forall name: string :: m != name + "__cropped" && m != name + "__expanded"
    {
      var index: nat, part :| index < |nodes| && m == GeneratedName(index, part);
      assert |GeneratedName(index, part)| >= |Stem(part)|;
      forall name: string ensures m != name + "__cropped" && m != name + "__expanded" {
        GeneratedNameEnd(index, part, name, "__cropped");
        GeneratedNameEnd(index, part, name, "__expanded");
      }
    }
  }

  function TemporariesOf(nodes: seq<Node>, values: Env): (r: seq<set<string>>)
    requires AllChecked(nodes)
    ensures |r| == |nodes| && forall i :: 0 <= i < |r| ==> r[i] == Temporaries(nodes[i], values)
  {
    seq(|nodes|, i requires 0 <= i < |nodes| => Temporaries(nodes[i], values))
  }

  lemma {:induction false} BlockLays(n: Node, place: nat, values: Env, empty: set<string>, taken: set<string>)
    requires Checked(n) && Written(n) <= taken && Temporaries(n, values) !! taken
    ensures Lays(n, Block(n, place, values, empty), Temporaries(n, values))
    ensures SingleAssignment(Block(n, place, values, empty), {})
  {
    if IsEinsumOuter(n) {
      PairLays(n, EinsumBlock(n)[0], EinsumBlock(n)[1], n.outputs[0] + "__expanded");
    } else if n.op != CONCAT && NeedsSplit(n, values) {
      var block := SplitBlock(n, place, values);
      PairLays(n, block[0], block[1], n.inputs[0] + "__cropped");
    } else {
      SingleLays(n, Block(n, place, values, empty)[0]);
    }
  }

  lemma {:induction false} SingleLays(n: Node, a: Node)
    requires a.outputs == n.outputs
    ensures Lays(n, [a], {}) && SingleAssignment([a], {})
  {
    assert WrittenAll([a]) == Written(a);
  }

  lemma {:induction false} PairLays(n: Node, a: Node, b: Node, t: string)
    requires a.outputs == [t] && t != "" && t !in Written(n) && b.outputs == n.outputs
    ensures Lays(n, [a, b], {t}) && SingleAssignment([a, b], {})
  {
    assert [a, b][1..] == [b] && Written(a) == {t};
    SingleLays(n, b);
    assert Written(b) == Written(n);
    assert {} + {t} == {t};
  }

  /** The blocks of the passes bring new names only. */
  lemma {:induction false} BlocksLaid(g: Graph, taken: set<string>, defined: set<string>)
    requires AllChecked(g.nodes) && Applicable(g, taken)
    requires forall i :: 0 <= i < |g.nodes| ==> Written(g.nodes[i]) <= taken && Written(g.nodes[i]) !! defined
    requires forall i :: 0 <= i < |g.nodes| ==>
        Temporaries(g.nodes[i], ConstantValues(g.initializers, g.nodes)) !! defined
    ensures
      var values := ConstantValues(g.initializers, g.nodes);
      var blocks := Blocks(g.nodes, values, EmptyOutputs(g.nodes, values));
      && Laid(g.nodes, blocks, TemporariesOf(g.nodes, values), taken, defined)
      && forall i :: 0 <= i < |blocks| ==> SingleAssignment(blocks[i], {})
  {
    var values := ConstantValues(g.initializers, g.nodes);
    var empty := EmptyOutputs(g.nodes, values);
    forall i: nat | i < |g.nodes|
      ensures Lays(g.nodes[i], Blocks(g.nodes, values, empty)[i], TemporariesOf(g.nodes, values)[i])
      ensures SingleAssignment(Blocks(g.nodes, values, empty)[i], {})
    {
      var place := BlockAt(g.nodes, values, empty, i);
      BlockLays(g.nodes[i], place, values, empty, taken);
    }
  }

  ghost function ValuesKept(g: Graph, final: Env): (r: seq<bool>)
    requires AllChecked(g.nodes)
    ensures |r| == |g.nodes|
    ensures
      var values := ConstantValues(g.initializers, g.nodes);
      forall i :: 0 <= i < |r| ==> r[i] == KeepsValue(g.nodes[i], values, EmptyOutputs(g.nodes, values), final)
  {
    var values := ConstantValues(g.initializers, g.nodes);
    var empty := EmptyOutputs(g.nodes, values);
    seq(|g.nodes|, i requires 0 <= i < |g.nodes| => KeepsValue(g.nodes[i], values, empty, final))
  }

  /** Rewriting is replacing every node by its block and adding the generated constants. */
  lemma {:induction false} RewrittenIs(g: Graph)
    requires AllChecked(g.nodes)
    ensures
      var values := ConstantValues(g.initializers, g.nodes);
      var empty := EmptyOutputs(g.nodes, values);
      var trimmed := ConcatNodes(EinsumNodes(g.nodes), empty);
      Rewritten(g) == Graph(Flatten(Blocks(g.nodes, values, empty)),
                            g.initializers + AllSplitInitializers(trimmed, values), g.outputs)
  {
    var initial := InitialValues(g.initializers);
    var values := ConstantsFrom(initial, g.nodes);
    var empty := EmptyOutputs(g.nodes, values);
    LoweringKeepsConstants(initial, g.nodes);
    LoweringKeepsEmptyOutputs(values, g.nodes);
    TrimmingKeepsConstants(initial, EinsumNodes(g.nodes), empty);
    PassesAreBlocks(g.nodes, values, empty);
  }

  lemma {:induction false} LaterWritesApart(g: Graph, taken: set<string>, defined: set<string>)
    requires AllChecked(g.nodes) && Applicable(g, taken) && SingleAssignment(g.nodes, defined) && defined <= taken
    requires forall i :: 0 <= i < |g.nodes| ==> Written(g.nodes[i]) <= taken
    ensures
      var values := ConstantValues(g.initializers, g.nodes);
      var blocks := Blocks(g.nodes, values, EmptyOutputs(g.nodes, values));
      forall i, k :: 0 <= i < k < |g.nodes| ==> Written(g.nodes[i]) !! WrittenAll(blocks[k])
  {
    var values := ConstantValues(g.initializers, g.nodes);
    var blocks := Blocks(g.nodes, values, EmptyOutputs(g.nodes, values));
    SingleApart(g.nodes, defined);
    BlocksLaid(g, taken, defined);
    forall i: nat, k: nat | i < k < |g.nodes| ensures Written(g.nodes[i]) !! WrittenAll(blocks[k]) {
      LaterWrites(g.nodes, blocks, TemporariesOf(g.nodes, values), taken, defined, i, k);
    }
  }

  lemma {:induction false} BlocksRefine(ops: Operators, g: Graph, final: Env, constants: Env)
    requires AllChecked(g.nodes) && Applicable(g, final.Keys)
    requires
      var values := ConstantValues(g.initializers, g.nodes);
      var trimmed := ConcatNodes(EinsumNodes(g.nodes), EmptyOutputs(g.nodes, values));
      Extends(values, final) && constants == InitialValues(AllSplitInitializers(trimmed, values))
    requires constants.Keys !! final.Keys && forall i :: 0 <= i < |g.nodes| ==> Written(g.nodes[i]) <= final.Keys
    ensures
      var values := ConstantValues(g.initializers, g.nodes);
      var blocks := Blocks(g.nodes, values, EmptyOutputs(g.nodes, values));
      forall i :: 0 <= i < |g.nodes| ==>
          RefinesIff(ops, g.nodes[i], blocks[i], final, constants, ValuesKept(g, final)[i])
  {
    var values := ConstantValues(g.initializers, g.nodes);
    var blocks := Blocks(g.nodes, values, EmptyOutputs(g.nodes, values));
    forall i: nat | i < |g.nodes|
      ensures RefinesIff(ops, g.nodes[i], blocks[i], final, constants, ValuesKept(g, final)[i])
    {
      BlockRefines(ops, g, i, final, constants);
    }
  }

  /** What a run says about the names and the constants of its graph. */
  lemma {:induction false} RunFacts(ops: Operators, g: Graph, inputs: Env, final: Env)
    requires AllChecked(g.nodes) && Evaluate(ops, g, inputs) == Some(final)
    requires SingleAssignment(g.nodes, (inputs + InitialValues(g.initializers)).Keys)
    requires "" !in inputs && "" !in InitialValues(g.initializers)
    ensures (inputs + InitialValues(g.initializers)).Keys <= final.Keys
    ensures forall i :: 0 <= i < |g.nodes| ==> Written(g.nodes[i]) <= final.Keys
    ensures Extends(ConstantValues(g.initializers, g.nodes), final)
  {
    var env := inputs + InitialValues(g.initializers);
    ConstantsHold(ops, g.nodes, InitialValues(g.initializers), env);
    EvalGrows(ops, g.nodes, env);
    forall i: nat | i < |g.nodes| ensures Written(g.nodes[i]) <= final.Keys {
      ReadsAreBound(ops, g.nodes, env, i);
    }
  }

  lemma {:induction false} AllKept(g: Graph, final: Env)
    requires AllChecked(g.nodes)
    ensures (forall i :: 0 <= i < |g.nodes| ==> ValuesKept(g, final)[i]) <==> KeepsValues(g, final)
  {
    var kept, values := ValuesKept(g, final), ConstantValues(g.initializers, g.nodes);
    var empty := EmptyOutputs(g.nodes, values);
    forall i: nat | i < |g.nodes| ensures kept[i] <==> KeepsValue(g.nodes[i], values, empty, final) {
    }
    if KeepsValues(g, final) {
      forall i: nat | i < |g.nodes| ensures kept[i] {
        assert KeepsValue(g.nodes[i], values, empty, final);
      }
    }
    if forall i :: 0 <= i < |g.nodes| ==> kept[i] {
      forall i: nat | i < |g.nodes| ensures KeepsValue(g.nodes[i], values, empty, final) {
        assert kept[i];
      }
    }
  }

  /** The run of the blocks, once the starting environments are known. */
  lemma {:induction false} BlocksRun(ops: Operators, g: Graph, env: Env, env': Env, final: Env, constants: Env)
    requires AllChecked(g.nodes) && EvalNodes(ops, g.nodes, env) == Some(final)
    requires SingleAssignment(g.nodes, env.Keys) && "" !in env && env.Keys <= final.Keys
    requires Applicable(g, final.Keys) && Extends(env, env') && Extends(constants, env')
    requires
      var values := ConstantValues(g.initializers, g.nodes);
      var trimmed := ConcatNodes(EinsumNodes(g.nodes), EmptyOutputs(g.nodes, values));
      Extends(values, final) && constants == InitialValues(AllSplitInitializers(trimmed, values))
    requires constants.Keys !! final.Keys && forall i :: 0 <= i < |g.nodes| ==> Written(g.nodes[i]) <= final.Keys
    ensures
      var values := ConstantValues(g.initializers, g.nodes);
      var r := EvalNodes(ops, Flatten(Blocks(g.nodes, values, EmptyOutputs(g.nodes, values))), env');
      (r.Some? && Extends(final, r.value)) <==> KeepsValues(g, final)
  {
    var values := ConstantValues(g.initializers, g.nodes);
    var blocks := Blocks(g.nodes, values, EmptyOutputs(g.nodes, values));
    BlocksRefine(ops, g, final, constants);
    LaterWritesApart(g, final.Keys, env.Keys);
    AllKept(g, final);
    Simulation(ops, g.nodes, blocks, ValuesKept(g, final), env, env', final, constants);
  }

  /** The three rewriting passes, run in order, keep every tensor of a run exactly when every crop fits its data
      and every dropped Concat input is empty along the axis of its Concat. */
  lemma {:induction false} RewritingPreserves(ops: Operators, g: Graph, inputs: Env, final: Env)
    requires AllChecked(g.nodes) && Evaluate(ops, g, inputs) == Some(final)
    requires SingleAssignment(g.nodes, (inputs + InitialValues(g.initializers)).Keys)
    requires "" !in inputs && "" !in InitialValues(g.initializers)
    requires Applicable(g, final.Keys)
    ensures var r := Evaluate(ops, Rewritten(g), inputs);
      (r.Some? && Extends(final, r.value)) <==> KeepsValues(g, final)
  {
    var initial, values := InitialValues(g.initializers), ConstantValues(g.initializers, g.nodes);
    var trimmed := ConcatNodes(EinsumNodes(g.nodes), EmptyOutputs(g.nodes, values));
    var generated := AllSplitInitializers(trimmed, values);
    RunFacts(ops, g, inputs, final);
    GeneratedIsNew(trimmed, values, final.Keys);
    StartingEnvironments(inputs, g.initializers, generated);
    RewrittenIs(g);
    BlocksRun(ops, g, inputs + initial, inputs + InitialValues(g.initializers + generated), final,
              InitialValues(generated));
  }

  lemma {:induction false} GeneratedIsNew(nodes: seq<Node>, values: Env, taken: set<string>)
    requires AllChecked(nodes) && forall index, part :: GeneratedName(index, part) !in taken
    ensures InitialValues(AllSplitInitializers(nodes, values)).Keys !! taken
  {
    GeneratedDomain(nodes, values);
  }

  lemma {:induction false} StartingEnvironments(inputs: Env, own: seq<Initializer>, generated: seq<Initializer>)
    requires InitialValues(generated).Keys !! (inputs + InitialValues(own)).Keys
    ensures Extends(inputs + InitialValues(own), inputs + InitialValues(own + generated))
    ensures Extends(InitialValues(generated), inputs + InitialValues(own + generated))
  {
    InitialAppend(own, generated);
  }
}
