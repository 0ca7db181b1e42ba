/** The export passes as they run: a model whose node and initializer lists the passes replace in place.
    Each pass is proved against what `Passes`, `Pruning` and `BoolPads` say it makes of the graph. */
module Export {
  import opened Wrappers
  import opened Tensors
  import opened TensorRewrites
  import opened Graphs
  import opened Passes
  import opened PassProofs
  import opened Pipeline
  import opened Pruning
  import opened BoolPads
  import opened Assignment
  import opened Survival
  import opened SharedNames
  import opened KeptNames
  import opened LiveRuns

  class Model {
    var nodes: seq<Node>
    var initializers: seq<Initializer>
    const outputs: seq<string>

    constructor (g: Graph)
      ensures Contents() == g
    {
      nodes, initializers, outputs := g.nodes, g.initializers, g.outputs;
    }

    function Contents(): Graph
      reads this
    {
      Graph(nodes, initializers, outputs)
    }

    method ConstantTable() returns (values: Env)
      requires AllChecked(nodes)
      ensures values == ConstantValues(initializers, nodes)
    {
      values := map[];
      for i := 0 to |initializers|
        invariant values == InitialValues(initializers[..i])
      {
        values := values[initializers[i].name := initializers[i].value];
        assert initializers[..i + 1][..i] == initializers[..i];
      }
      assert initializers[..|initializers|] == initializers;
      for i := 0 to |nodes|
        invariant values == ConstantsFrom(InitialValues(initializers), nodes[..i])
      {
        if IsConstant(nodes[i]) {
          values := values[nodes[i].outputs[0] := nodes[i].attributes[VALUE].t];
        }
        assert nodes[..i + 1][..i] == nodes[..i];
      }
      assert nodes[..|nodes|] == nodes;
    }

    method RewriteEinsum()
      requires AllChecked(nodes)
      modifies this`nodes
      ensures nodes == EinsumNodes(old(nodes))
    {
      var rewritten := [];
      for i := 0 to |nodes|
        invariant nodes == old(nodes)
        invariant rewritten == EinsumNodes(nodes[..i])
      {
        var node := nodes[i];
        if IsEinsumOuter(node) {
          var expanded := node.outputs[0] + "__expanded";
          rewritten := rewritten + [Node(UNSQUEEZE, [node.inputs[0]], [expanded], map[AXES := Numbers([-2])])];
          rewritten := rewritten + [Node(MUL, [expanded, node.inputs[1]], node.outputs, map[])];
        } else {
          rewritten := rewritten + [node];
        }
        assert nodes[..i + 1][..i] == nodes[..i];
      }
      assert nodes[..|nodes|] == nodes;
      nodes := rewritten;
    }

    method RemoveEmptyConcatInputs()
      requires AllChecked(nodes)
      modifies this`nodes
      ensures nodes == ConcatNodes(old(nodes), EmptyOutputs(old(nodes), ConstantValues(initializers, old(nodes))))
    {
      var values := ConstantTable();
      var empty := EmptySliceOutputs(values);
      DropInputs(empty);
    }

    method EmptySliceOutputs(values: Env) returns (empty: set<string>)
      requires AllChecked(nodes)
      ensures empty == EmptyOutputs(nodes, values)
    {
      empty := {};
      for i := 0 to |nodes|
        invariant empty == EmptyOutputs(nodes[..i], values)
      {
        if IsEmptySlice(nodes[i], values) {
          empty := empty + {nodes[i].outputs[0]};
        }
        assert nodes[..i + 1][..i] == nodes[..i];
      }
      assert nodes[..|nodes|] == nodes;
    }

    method DropInputs(empty: set<string>)
      modifies this`nodes
      ensures nodes == ConcatNodes(old(nodes), empty)
    {
      for i := 0 to |nodes|
        invariant |nodes| == |old(nodes)|
        invariant forall k :: 0 <= k < i ==> nodes[k] == ConcatNode(old(nodes[k]), empty)
        invariant forall k :: i <= k < |nodes| ==> nodes[k] == old(nodes[k])
      {
        if nodes[i].op == CONCAT {
          var retained := Without(nodes[i].inputs, empty);
          if retained != [] && |retained| != |nodes[i].inputs| {
            nodes := nodes[i := nodes[i].(inputs := retained)];
          }
        }
      }
    }

    method SplitNegativePadding()
      requires AllChecked(nodes)
      modifies this
      ensures nodes == SplitNodes(old(nodes), ConstantValues(old(initializers), old(nodes)))
      ensures initializers ==
              old(initializers) + AllSplitInitializers(old(nodes), ConstantValues(old(initializers), old(nodes)))
    {
      var values := ConstantTable();
      var rewritten := SplitAll(nodes, values);
      SplitGrownAll(old(initializers), nodes, values);
      nodes := rewritten;
    }

    /** The split pass over a node list, adding initializers as it goes. */
    method SplitAll(all: seq<Node>, values: Env) returns (rewritten: seq<Node>)
      requires AllChecked(all)
      modifies this`initializers
      ensures rewritten == SplitNodes(all, values) && initializers == SplitGrown(old(initializers), all, values)
    {
      rewritten := [];
      ghost var done: seq<Node> := [];
      for i := 0 to |all|
        invariant |done| == i && AllChecked(done) && done <= all
        invariant rewritten == SplitNodes(done, values)
        invariant initializers == SplitGrown(old(initializers), done, values)
      {
        SplitAppend(done, all[i], values);
        SplitInitializersAppend(old(initializers), done, all[i], values);
        var block := SplitNode(all[i], i, values);
        rewritten := rewritten + block;
        done := done + [all[i]];
      }
      assert done == all;
    }

    /** One step of the split pass: the block of a node; its constants are added. */
    method SplitNode(node: Node, i: nat, values: Env) returns (block: seq<Node>)
      requires Checked(node)
      modifies this`initializers
      ensures block == SplitBlock(node, i, values)
      ensures initializers == old(initializers) + SplitInitializers(node, i, values)
    {
      block := [node];
      if node.op == PAD && node.inputs[1] in values {
        var pads := IntVector(values[node.inputs[1]]);
        if exists k :: 0 <= k < |pads| && pads[k] < 0 {
          var names := GeneratedNames(i);
          var cropped := node.inputs[0] + "__cropped";
          AddCrops(names, pads);
          block := [Node(SLICE, [node.inputs[0], names[0], names[1], names[2], names[3]], [cropped], map[]),
                    node.(inputs := node.inputs[0 := cropped][1 := names[4]])];
        }
      }
    }

    /** Appends the constants of one split Pad. */
    method AddCrops(names: seq<string>, pads: seq<int>)
      requires |names| == |PARTS| && |pads| <= INT64_MAX
      modifies this`initializers
      ensures initializers == old(initializers) + PartInitializers(names, PartLists(pads), |PARTS|)
    {
      var crops := CropLists(pads);
      var arrays := [crops.starts, crops.ends, crops.axes, Ones(|crops.axes|), Positives(pads)];
      AddLists(names, arrays);
    }

    method AddLists(names: seq<string>, lists: seq<seq<int>>)
      requires |names| == |lists| && Fitting(lists)
      modifies this`initializers
      ensures initializers == old(initializers) + PartInitializers(names, lists, |lists|)
    {
      for k := 0 to |lists|
        invariant initializers == old(initializers) + PartInitializers(names, lists, k)
      {
        OnePartMore(old(initializers), names, lists, k);
        AddInitializer(names[k], lists[k]);
      }
    }

    method AddInitializer(name: string, values: seq<int>)
      requires |values| <= INT64_MAX
      modifies this`initializers
      ensures initializers == old(initializers) + [Initializer(name, FromInts(values))]
    {
      initializers := initializers + [Initializer(name, FromInts(values))];
    }

    method Prune()
      modifies this
      ensures Contents() == Pruned(old(Contents()))
    {
      var needed := NameSet(outputs);
      var retained := [];
      var i := |nodes|;
      assert nodes[i..] == [];
      while i > 0
        invariant 0 <= i <= |nodes| && nodes == old(nodes) && initializers == old(initializers)
        invariant ScanResult(Reversed(retained), needed) == Scan(nodes[i..], NameSet(outputs))
      {
        i := i - 1;
        assert nodes[i..][1..] == nodes[i + 1..] && nodes[i..][0] == nodes[i];
        if Hits(nodes[i], needed) {
          ReversedAppend(retained, nodes[i]);
          retained := retained + [nodes[i]];
          needed := needed + Reads(nodes[i]);
        }
      }
      assert nodes[0..] == nodes;
      nodes := Reversed(retained);
      var used := Used(nodes);
      var kept := [];
      for k := 0 to |initializers|
        invariant initializers == old(initializers) && nodes == Scan(old(nodes), NameSet(outputs)).kept
        invariant kept == Retain(initializers[..k], used)
      {
        if initializers[k].name in used {
          kept := kept + [initializers[k]];
        }
        assert initializers[..k + 1][..k] == initializers[..k];
      }
      assert initializers[..|initializers|] == initializers;
      initializers := kept;
    }

    method MakePadTractCompatible(types: map<string, DType>)
      requires AllChecked(nodes)
      modifies this
      ensures Contents() == Compatible(old(Contents()), types)
    {
      var rewritten := CompleteAll(nodes, types);
      CompatibleGrownAll(old(initializers), nodes, types);
      nodes := rewritten;
    }

    /** The pass over a node list, adding initializers as it goes. */
    method CompleteAll(all: seq<Node>, types: map<string, DType>) returns (rewritten: seq<Node>)
      requires AllChecked(all)
      modifies this`initializers
      ensures rewritten == CompatibleNodes(all, types) && initializers == CompatibleGrown(old(initializers), all, types)
    {
      rewritten := [];
      ghost var done: seq<Node> := [];
      for i := 0 to |all|
        invariant |done| == i && done <= all && Completed(old(initializers), done, types, rewritten, initializers)
      {
        CompletedNext(old(initializers), done, all[i], types, rewritten, initializers);
        var block := CompleteNode(all[i], i, types);
        rewritten := rewritten + block;
        done := done + [all[i]];
      }
      assert done == all;
    }

    /** One step: makes the fill of a Pad explicit, and carries out a bool Pad in floats. */
    method CompleteNode(node: Node, i: nat, types: map<string, DType>) returns (block: seq<Node>)
      requires Checked(node)
      modifies this`initializers
      ensures block == CompatibleBlock(node, i, types)
      ensures initializers == old(initializers) + CompatibleInitializers(node, i, types)
    {
      block := [node];
      if node.op == PAD {
        var inputs := node.inputs;
        if |inputs| < 3 {
          inputs := inputs + [""];
        }
        if inputs[2] == "" {
          initializers := initializers + [Initializer(PadZero(i), FromReal(0.0))];
          inputs := inputs[2 := PadZero(i)];
        }
        assert inputs == FilledInputs(node, i);
        if inputs[0] in types && types[inputs[0]] == BOOL {
          block := FloatBlock(node, inputs, i);
        } else {
          block := [node.(inputs := inputs)];
        }
      }
    }

    /** The Cast, Pad and Cast of a bool Pad with these inputs, and the fill of the Pad. */
    method FloatBlock(node: Node, inputs: seq<string>, i: nat) returns (block: seq<Node>)
      requires |inputs| >= 3 && |node.outputs| >= 1
      modifies this`initializers
      ensures block ==
        [Node(CAST, [inputs[0]], [inputs[0] + "__float"], map[TO := Number(CAST_FLOAT)]),
         node.(inputs := inputs[0 := inputs[0] + "__float"][2 := BoolPadZero(i)],
               outputs := node.outputs[0 := node.outputs[0] + "__float"]),
         Node(CAST, [node.outputs[0] + "__float"], [node.outputs[0]], map[TO := Number(CAST_BOOL)])]
      ensures initializers == old(initializers) + [Initializer(BoolPadZero(i), FromReal(0.0))]
    {
      var floatInput, floatOutput := inputs[0] + "__float", node.outputs[0] + "__float";
      initializers := initializers + [Initializer(BoolPadZero(i), FromReal(0.0))];
      block := [Node(CAST, [inputs[0]], [floatInput], map[TO := Number(CAST_FLOAT)]),
                node.(inputs := inputs[0 := floatInput][2 := BoolPadZero(i)],
                      outputs := node.outputs[0 := floatOutput]),
                Node(CAST, [floatOutput], [node.outputs[0]], map[TO := Number(CAST_BOOL)])];
    }

    /** The passes that follow the optimizer, in the order in which the export runs them. */
    method Optimize()
      requires AllChecked(nodes)
      modifies this
      ensures Contents() == Pruned(Rewritten(old(Contents())))
    {
      RewriteEinsum();
      RemoveEmptyConcatInputs();
      SplitNegativePadding();
      Prune();
    }
  }

  function Reversed(s: seq<Node>): (r: seq<Node>) {
    if s == [] then [] else [s[|s| - 1]] + Reversed(s[..|s| - 1])
  }

  lemma {:induction false} ReversedAppend(s: seq<Node>, n: Node)
    ensures Reversed(s + [n]) == [n] + Reversed(s)
  {
    assert (s + [n])[..|s|] == s;
  }

  lemma {:induction false} OnePartMore(base: seq<Initializer>, names: seq<string>, lists: seq<seq<int>>, k: nat)
    requires k < |lists| == |names| && Fitting(lists)
    ensures base + PartInitializers(names, lists, k + 1)
        == base + PartInitializers(names, lists, k) + [Initializer(names[k], FromInts(lists[k]))]
  {
  }

  lemma {:induction false} SplitInitializersAppend(base: seq<Initializer>, nodes: seq<Node>, n: Node, values: Env)
    requires AllChecked(nodes) && Checked(n)
    ensures AllChecked(nodes + [n])
    ensures SplitGrown(base, nodes + [n], values)
        == SplitGrown(base, nodes, values) + SplitInitializers(n, |nodes|, values)
  {
    assert (nodes + [n])[..|nodes|] == nodes;
  }

  /** The initializer list while the pass is under way, and once it is through. */
  function SplitGrown(base: seq<Initializer>, nodes: seq<Node>, values: Env): seq<Initializer>
    requires AllChecked(nodes)
  {
    if nodes == [] then base
    else var n := |nodes| - 1; SplitGrown(base, nodes[..n], values) + SplitInitializers(nodes[n], n, values)
  }

  lemma {:induction false} SplitGrownAll(base: seq<Initializer>, nodes: seq<Node>, values: Env)
    requires AllChecked(nodes)
    ensures SplitGrown(base, nodes, values) == base + AllSplitInitializers(nodes, values)
  {
    if nodes != [] {
      SplitGrownAll(base, nodes[..|nodes| - 1], values);
    }
  }

  /** The initializer list while the pass is under way, and once it is through. */
  function CompatibleGrown(base: seq<Initializer>, nodes: seq<Node>, types: map<string, DType>): seq<Initializer>
    requires AllChecked(nodes)
  {
    if nodes == [] then base
    else var n := |nodes| - 1; CompatibleGrown(base, nodes[..n], types) + CompatibleInitializers(nodes[n], n, types)
  }

  /** The pass is through with `done`. */
  ghost predicate Completed(base: seq<Initializer>, done: seq<Node>, types: map<string, DType>, rewritten: seq<Node>,
          initializers: seq<Initializer>)
  {
    AllChecked(done) && rewritten == CompatibleNodes(done, types) && initializers == CompatibleGrown(base, done, types)
  }

  lemma {:induction false} CompletedNext(base: seq<Initializer>, done: seq<Node>, n: Node, types: map<string, DType>,
          rewritten: seq<Node>, initializers: seq<Initializer>)
    requires Completed(base, done, types, rewritten, initializers) && Checked(n)
    ensures Completed(base, done + [n], types, rewritten + CompatibleBlock(n, |done|, types),
                      initializers + CompatibleInitializers(n, |done|, types))
  {
    assert (done + [n])[..|done|] == done;
  }

  lemma {:induction false} CompatibleGrownAll(base: seq<Initializer>, nodes: seq<Node>, types: map<string, DType>)
    requires AllChecked(nodes)
    ensures CompatibleGrown(base, nodes, types) == base + AllCompatibleInitializers(nodes, types)
  {
    if nodes != [] {
      CompatibleGrownAll(base, nodes[..|nodes| - 1], types);
    }
  }

  /** The crop lists of one Pad, collected axis by axis. */
  method CropLists(pads: seq<int>) returns (crops: CropParameters)
    ensures crops == CropsOf(pads)
  {
    var rank := |pads| / 2;
    var axes, starts, ends := [], [], [];
    for axis := 0 to rank
      invariant CropParameters(axes, starts, ends) == Crops(Before(pads), After(pads), axis)
    {
      if pads[axis] < 0 || pads[rank + axis] < 0 {
        axes := axes + [axis];
        starts := starts + [if pads[axis] < 0 then -pads[axis] else 0];
        ends := ends + [if pads[rank + axis] < 0 then pads[rank + axis] else INT64_MAX];
      }
    }
    crops := CropParameters(axes, starts, ends);
  }

  // ------------------------------------------------------------ the theorem of the pipeline

  lemma {:induction false} NoEmptyName(ops: Operators, nodes: seq<Node>, env: Env)
    requires EvalNodes(ops, nodes, env).Some? && "" !in env
    ensures "" !in EvalNodes(ops, nodes, env).value
  {
    if nodes != [] {
      EvalNodeExtends(ops, nodes[0], env, env);
      NoEmptyName(ops, nodes[1..], EvalNode(ops, nodes[0], env).value);
    }
  }

  /** What a run says about the names of its graph. */
  lemma {:induction false} RunNames(ops: Operators, g: Graph, inputs: Env, final: Env)
    requires AllChecked(g.nodes) && Evaluate(ops, g, inputs) == Some(final)
    requires SingleAssignment(g.nodes, (inputs + InitialValues(g.initializers)).Keys)
    requires "" !in inputs && "" !in InitialValues(g.initializers) && Applicable(g, final.Keys)
    ensures Named(g, inputs.Keys, final.Keys) && Ready(g.nodes, ConstantValues(g.initializers, g.nodes), final.Keys)
  {
    var env := inputs + InitialValues(g.initializers);
    assert inputs.Keys + InitialValues(g.initializers).Keys == env.Keys;
    RunFacts(ops, g, inputs, final);
    NoEmptyName(ops, g.nodes, env);
    SingleApart(g.nodes, env.Keys);
    forall k: nat | k < |g.nodes| ensures Reads(g.nodes[k]) <= final.Keys {
      ReadsAreBound(ops, g.nodes, env, k);
    }
    forall k: nat, l: nat | k < l < |g.nodes| ensures Written(g.nodes[k]) !! Written(g.nodes[l]) {
      assert WrittenBy(g.nodes)[k] !! WrittenBy(g.nodes)[l];
    }
  }

  /** The passes that follow the optimizer, run in order on a graph whose rewrites keep the values of the nodes on
      dependency paths, keep every graph output exactly when each output that is an initializer is still read on a
      dependency path; so they do on a graph that has no such output. The exported graph assigns every name once
      exactly when no split Pad on a dependency path shares its tensor with an earlier one. */
  lemma {:induction false} OptimizePreserves(ops: Operators, g: Graph, inputs: Env)
    requires AllChecked(g.nodes) && Run(ops, g, inputs).Some?
    requires SingleAssignment(g.nodes, (inputs + InitialValues(g.initializers)).Keys)
    requires inputs.Keys !! InitialValues(g.initializers).Keys && "" !in inputs && "" !in InitialValues(g.initializers)
    requires Applicable(g, Evaluate(ops, g, inputs).value.Keys) && KeepsLiveValues(g, Evaluate(ops, g, inputs).value)
    ensures Run(ops, Pruned(Rewritten(g)), inputs) == Run(ops, g, inputs) <==> OutputsRead(g)
    ensures (forall k :: 0 <= k < |g.outputs| ==> g.outputs[k] !in InitialValues(g.initializers)) ==>
              Run(ops, Pruned(Rewritten(g)), inputs) == Run(ops, g, inputs)
    ensures SingleAssignment(Pruned(Rewritten(g)).nodes,
                             inputs.Keys + InitialValues(Pruned(Rewritten(g)).initializers).Keys) <==>
            NoKeptSharedCrop(g)
  {
    var final := Evaluate(ops, g, inputs).value;
    RunNames(ops, g, inputs, final);
    RewrittenInitializersUnwritten(g, inputs.Keys, final.Keys);
    NewInitializers(g, inputs.Keys, final.Keys);
    RunIs(ops, g, inputs, final);
    OutputsAreBound(g, final);
    SurviveIff(g, final.Keys);
    ExportAssignsOnce(g, inputs.Keys, final.Keys);
    if OutputsRead(g) {
      ReadOutputsStay(ops, g, inputs, final);
    } else {
      LostOutput(ops, Rewritten(g), inputs);
    }
  }

  lemma {:induction false} OutputsAreBound(g: Graph, final: Env)
    requires forall k :: 0 <= k < |g.outputs| ==> g.outputs[k] in final
    ensures NameSet(g.outputs) <= final.Keys
  {
  }

  /** If every initializer output is still read, all outputs keep their values. */
  lemma {:induction false} ReadOutputsStay(ops: Operators, g: Graph, inputs: Env, final: Env)
    requires AllChecked(g.nodes) && Run(ops, g, inputs).Some? && Evaluate(ops, g, inputs) == Some(final)
    requires SingleAssignment(g.nodes, (inputs + InitialValues(g.initializers)).Keys)
    requires "" !in inputs && "" !in InitialValues(g.initializers)
    requires inputs.Keys !! InitialValues(Rewritten(g).initializers).Keys && OutputsSurvive(Rewritten(g))
    requires Applicable(g, final.Keys) && KeepsLiveValues(g, final)
    ensures Run(ops, Pruned(Rewritten(g)), inputs) == Run(ops, g, inputs)
  {
    var p := Pruned(Rewritten(g));
    RunMeets(ops, g, inputs, final);
    PrunedRuns(ops, g, inputs, final);
    SameOutputs(ops, g, p, inputs, final, Evaluate(ops, p, inputs).value);
  }

  /** What the theorem on kept blocks needs of a run. */
  lemma {:induction false} RunMeets(ops: Operators, g: Graph, inputs: Env, final: Env)
    requires AllChecked(g.nodes) && Run(ops, g, inputs).Some? && Evaluate(ops, g, inputs) == Some(final)
    requires SingleAssignment(g.nodes, (inputs + InitialValues(g.initializers)).Keys)
    requires "" !in inputs && "" !in InitialValues(g.initializers) && Applicable(g, final.Keys)
    ensures RunOf(g, final, InitialValues(GeneratedBy(g)))
    ensures (inputs + InitialValues(g.initializers)).Keys <= final.Keys
  {
    var values := ConstantValues(g.initializers, g.nodes);
    RunNames(ops, g, inputs, final);
    RunFacts(ops, g, inputs, final);
    RunIs(ops, g, inputs, final);
    OutputsAreBound(g, final);
    GeneratedIsNew(ConcatNodes(EinsumNodes(g.nodes), EmptyOutputs(g.nodes, values)), values, final.Keys);
  }

  lemma {:induction false} SameOutputs(ops: Operators, g: Graph, p: Graph, inputs: Env, final: Env, result: Env)
    requires Run(ops, g, inputs).Some? && Evaluate(ops, g, inputs) == Some(final)
    requires Evaluate(ops, p, inputs) == Some(result) && p.outputs == g.outputs
    requires Carries(NameSet(g.outputs), final, result)
    ensures Run(ops, p, inputs) == Run(ops, g, inputs)
  {
    RunIs(ops, g, inputs, final);
    forall k | 0 <= k < |g.outputs| ensures g.outputs[k] in result && result[g.outputs[k]] == final[g.outputs[k]] {
      assert g.outputs[k] in NameSet(g.outputs);
    }
    RunIs(ops, p, inputs, result);
    assert Run(ops, p, inputs).value == Run(ops, g, inputs).value;
  }

  /** The axes that a Slice lists, or those from the first on when it lists none. */
  function ListedAxes(args: Arguments): seq<int>
    requires |args| >= 2 && args[1].Some?
  {
    if Present(args, 3) then IntVector(args[3].value) else UpTo(|IntVector(args[1].value)|)
  }

  /** A Concat input that comes from a constant Slice with equal start and end on the Concat's own axis is
      empty along that axis, so dropping it meets the rewriting condition whatever the data. */
  lemma {:induction false} ConstantSliceIsEmpty(args: Arguments, i: nat, axis: int)
    requires ApplySlice(args).Some?
    requires
      var starts, ends := IntVector(args[1].value), IntVector(args[2].value);
      && i < |starts| && i < |ends| && starts[i] == ends[i]
      && (Present(args, 4) ==> i < |IntVector(args[4].value)| && IntVector(args[4].value)[i] > 0)
    requires i < |ListedAxes(args)|
             && NormalAxis(ListedAxes(args)[i], args[0].value.Rank()) == NormalAxis(axis, args[0].value.Rank())
    ensures ApplySlice(args).value.Rank() == args[0].value.Rank()
    ensures 0 <= NormalAxis(axis, args[0].value.Rank()) < args[0].value.Rank()
    ensures EmptyAlong(ApplySlice(args).value, axis)
  {
    var starts, ends := IntVector(args[1].value), IntVector(args[2].value);
    var steps := if Present(args, 4) then IntVector(args[4].value) else seq(|starts|, _ => 1);
    EqualEndsAreEmpty(args[0].value, starts, ends, ListedAxes(args), steps, i);
  }
}
