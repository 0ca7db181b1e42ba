/** Small graphs on which a pass of the export does not do what it is for. */
module ExportExamples {
  import opened Wrappers
  import opened Tensors
  import opened TensorRewrites
  import opened Names
  import opened Graphs
  import opened Passes
  import opened PassProofs
  import opened Pipeline
  import opened BoolPads
  import opened Pruning
  import opened Survival
  import opened SharedNames
  import opened KeptNames
  import opened LiveRuns
  import Export

  /** A Pad of "x" by "pads" that writes `out`. */
  function PadNode(out: string): Node { Node(PAD, ["x", "pads"], [out], map[]) }

  /** One Pad by a constant. */
  function OnePad(p: Tensor, outputs: seq<string>): Graph {
    Graph([PadNode("y")], [Initializer("pads", p)], outputs)
  }

  /** Two Pads of one tensor by one constant. */
  function TwoPads(p: Tensor): Graph {
    Graph([PadNode("y"), PadNode("z")], [Initializer("pads", p)], ["y", "z"])
  }

  lemma {:induction false} NoConstants(values: Env)
    ensures AllChecked([PadNode("y")]) && AllChecked([PadNode("y"), PadNode("z")])
    ensures ConstantsFrom(values, [PadNode("y")]) == values
    ensures ConstantsFrom(values, [PadNode("y"), PadNode("z")]) == values
  {
    assert ConstantsFrom(values, []) == values;
    var one, two := [PadNode("y")], [PadNode("y"), PadNode("z")];
    assert one[..0] == [] && two[..1] == one;
    assert ConstantsFrom(values, one) == values;
  }

  /** The constant is all that the passes know. */
  lemma {:induction false} OneConstant(p: Tensor)
    ensures InitialValues([Initializer("pads", p)]) == map["pads" := p]
    ensures ConstantValues(OnePad(p, ["y"]).initializers, OnePad(p, ["y"]).nodes) == map["pads" := p]
    ensures ConstantValues(TwoPads(p).initializers, TwoPads(p).nodes) == map["pads" := p]
  {
    SingleValue("pads", p);
    NoConstants(map["pads" := p]);
  }

  lemma {:induction false} LongFill(m: string)
    requires IsFillName(m)
    ensures |m| > 4
  {
    var index: nat :| m == PadZero(index) || m == BoolPadZero(index);
    assert |PadZero(index)| >= 19 && |BoolPadZero(index)| >= 24;
  }

  /** The names that the passes generate are longer than the names of these graphs. */
  lemma {:induction false} ShortNames(taken: set<string>)
    requires forall m :: m in taken ==> |m| <= 4
    ensures forall index, part :: GeneratedName(index, part) !in taken
    ensures forall name: string :: name + "__cropped" !in taken && name + "__float" !in taken
    ensures forall m :: m in taken ==> !IsFillName(m)
  {
    forall index, part ensures GeneratedName(index, part) !in taken {
      assert |GeneratedName(index, part)| >= |Stem(part)| >= 19;
    }
    forall name: string ensures name + "__cropped" !in taken && name + "__float" !in taken {
      assert |name + "__cropped"| >= 9 && |name + "__float"| >= 7;
    }
    forall m | m in taken ensures !IsFillName(m) {
      NotAFill(m);
    }
  }

  // ------------------------------------------------------------ two Pads, one temporary

  lemma {:induction false} TwoPadsNamed(p: Tensor)
    ensures Named(TwoPads(p), {"x"}, {"x", "pads", "y", "z"})
  {
    var g := TwoPads(p);
    var defined := {"x"} + InitialValues(g.initializers).Keys;
    OneConstant(p);
    assert defined == {"x", "pads"};
    assert Written(g.nodes[0]) == {"y"} && Written(g.nodes[1]) == {"z"};
    assert g.nodes[1..] == [PadNode("z")] && g.nodes[1..][1..] == [];
    assert SingleAssignment([PadNode("z")], defined + {"y"});
    assert SingleAssignment(g.nodes, defined);
  }

  ghost predicate CropsSome(p: Tensor) {
    exists k :: 0 <= k < |IntVector(p)| && IntVector(p)[k] < 0
  }

  lemma {:induction false} PadSplits(p: Tensor, out: string)
    requires CropsSome(p)
    ensures Checked(PadNode(out)) ==> NeedsSplit(PadNode(out), map["pads" := p])
  {
  }

  lemma {:induction false} BothSplit(p: Tensor)
    requires CropsSome(p)
    ensures
      var g := TwoPads(p);
      var values := ConstantValues(g.initializers, g.nodes);
      AllChecked(g.nodes) && SharesCrop(g.nodes[0], g.nodes[1], values)
  {
    OneConstant(p);
    NoConstants(map["pads" := p]);
    PadSplits(p, "y");
    PadSplits(p, "z");
  }

  lemma {:induction false} TwoPadsSplit(p: Tensor)
    requires CropsSome(p)
    ensures AllChecked(TwoPads(p).nodes) && !NoSharedCrop(TwoPads(p))
  {
    BothSplit(p);
  }

  lemma {:induction false} TwoPadsApplicable(p: Tensor, taken: set<string>)
    requires taken == {"x", "pads", "y", "z"}
    ensures AllChecked(TwoPads(p).nodes) && Applicable(TwoPads(p), taken)
  {
    NoConstants(map[]);
    assert forall m :: m in taken ==> |m| <= 4;
    ShortNames(taken);
    forall i | 0 <= i < |TwoPads(p).nodes| ensures ConstantMode(TwoPads(p).nodes[i]) {
    }
  }

  /** Both Pads write an output of the graph. */
  lemma {:induction false} TwoPadsOnPath(p: Tensor)
    requires CropsSome(p)
    ensures AllChecked(TwoPads(p).nodes) && !NoKeptSharedCrop(TwoPads(p))
  {
    var g := TwoPads(p);
    BothSplit(p);
    var values := ConstantValues(g.initializers, g.nodes);
    var still := StillNodes(g.nodes, values, EmptyOutputs(g.nodes, values));
    assert "z" in still[1].outputs && "z" in NameSet(g.outputs) by {
      assert g.outputs[1] == "z" && still[1].outputs[0] == "z";
    }
    assert Hits(still[1], NameSet(g.outputs));
    assert IsPath(still, NameSet(g.outputs), [1]) && [1][0] == 1;
    assert OnPath(still, NameSet(g.outputs), 1);
  }

  lemma {:induction false} TwoPadsRead(p: Tensor, taken: set<string>)
    requires taken == {"x", "pads", "y", "z"}
    ensures NameSet(TwoPads(p).outputs) <= taken && "" !in taken
    ensures forall i :: 0 <= i < |TwoPads(p).nodes| ==> Reads(TwoPads(p).nodes[i]) <= taken
  {
    assert TwoPads(p).outputs[0] == "y" && TwoPads(p).outputs[1] == "z";
    assert PadNode("y").inputs == PadNode("z").inputs == ["x", "pads"];
  }

  lemma {:induction false} TwoPadsMeet(p: Tensor, taken: set<string>)
    requires taken == {"x", "pads", "y", "z"}
    ensures AllChecked(TwoPads(p).nodes) && Applicable(TwoPads(p), taken) && Named(TwoPads(p), {"x"}, taken)
  {
    TwoPadsApplicable(p, taken);
    TwoPadsNamed(p);
  }

  lemma {:induction false} TwoPadsShareCrop(p: Tensor)
    requires CropsSome(p)
    ensures AllChecked(TwoPads(p).nodes) && !NoSharedCrop(TwoPads(p)) && !NoKeptSharedCrop(TwoPads(p))
  {
    TwoPadsSplit(p);
    TwoPadsOnPath(p);
  }

  lemma {:induction false} CropsAreRefused(g: Graph, inputs: set<string>, taken: set<string>)
    requires AllChecked(g.nodes) && Applicable(g, taken) && Named(g, inputs, taken) && NameSet(g.outputs) <= taken
    requires "" !in taken && forall i :: 0 <= i < |g.nodes| ==> Reads(g.nodes[i]) <= taken
    requires !NoSharedCrop(g) && !NoKeptSharedCrop(g)
    ensures SingleAssignment(g.nodes, inputs + InitialValues(g.initializers).Keys)
    ensures !SingleAssignment(Rewritten(g).nodes, inputs + InitialValues(Rewritten(g).initializers).Keys)
    ensures var r := Pruned(Rewritten(g)); !SingleAssignment(r.nodes, inputs + InitialValues(r.initializers).Keys)
  {
    RewrittenAssignsOnce(g, inputs, taken);
    ExportAssignsOnce(g, inputs, taken);
  }

  /** Two Pads that crop one tensor: the pass writes the cropped tensor twice, which no valid graph does, and pruning
      leaves it so. */
  lemma {:induction false} SharedCropIsRefused(p: Tensor)
    requires CropsSome(p)
    ensures
      var g := TwoPads(p);
      var r := Pruned(Rewritten(g));
      && AllChecked(g.nodes) && SingleAssignment(g.nodes, {"x"} + InitialValues(g.initializers).Keys)
      && !SingleAssignment(Rewritten(g).nodes, {"x"} + InitialValues(Rewritten(g).initializers).Keys)
      && !SingleAssignment(r.nodes, {"x"} + InitialValues(r.initializers).Keys)
  {
    var taken := {"x", "pads", "y", "z"};
    TwoPadsMeet(p, taken);
    TwoPadsShareCrop(p);
    TwoPadsRead(p, taken);
    CropsAreRefused(TwoPads(p), {"x"}, taken);
  }

  lemma {:induction false} TwoPadsShare(p: Tensor)
    ensures var g, types := TwoPads(p), map["x" := BOOL];
      && AllChecked(g.nodes) && !NoSharedFloat(g, types)
      && forall i :: 0 <= i < |g.nodes| ==> Floats(g.nodes[i], types) !! {"x", "pads", "y", "z"}
  {
    var g, types := TwoPads(p), map["x" := BOOL];
    NoConstants(map[]);
    ShortNames({"x", "pads", "y", "z"});
    var a, b := g.nodes[0], g.nodes[1];
    assert "x" in {a.inputs[0], a.outputs[0]} && "x" in {b.inputs[0], b.outputs[0]};
    assert IsBoolPad(a, types) && IsBoolPad(b, types) && !DataApart(a, b);
  }

  /** Two bool Pads of one tensor: the pass writes its float form twice. */
  lemma {:induction false} SharedFloatIsRefused(p: Tensor)
    ensures
      var g, types := TwoPads(p), map["x" := BOOL];
      && AllChecked(g.nodes) && SingleAssignment(g.nodes, {"x"} + InitialValues(g.initializers).Keys)
      && !SingleAssignment(Compatible(g, types).nodes, {"x"} + InitialValues(Compatible(g, types).initializers).Keys)
  {
    TwoPadsNamed(p);
    TwoPadsShare(p);
    ShortNames({"x", "pads", "y", "z"});
    CompatibleAssignsOnce(TwoPads(p), map["x" := BOOL], {"x"}, {"x", "pads", "y", "z"});
  }

  // ------------------------------------------------------------ one Pad

  /** The run of one Pad. */
  lemma {:induction false} OnePadRuns(ops: Operators, x: Tensor, p: Tensor, t: Tensor, outputs: seq<string>)
    requires ApplyPad([Some(x), Some(p)]) == Some(t)
    ensures Evaluate(ops, OnePad(p, outputs), map["x" := x]) == Some(PadEnv(x, p, t))
  {
    OneConstant(p);
    PadRunsIn(ops, map["x" := x] + map["pads" := p], x, p, t);
  }

  /** The tensors of the run of one Pad. */
  function PadEnv(x: Tensor, p: Tensor, t: Tensor): Env {
    (map["x" := x] + map["pads" := p])["y" := t]
  }

  lemma {:induction false} PadRunsIn(ops: Operators, env: Env, x: Tensor, p: Tensor, t: Tensor)
    requires ApplyPad([Some(x), Some(p)]) == Some(t)
    requires "x" in env && env["x"] == x && "pads" in env && env["pads"] == p
    ensures EvalNodes(ops, [PadNode("y")], env) == Some(env["y" := t])
  {
    ReadTwo("x", "pads", env, x, p);
    PadGives(ops, PadNode("y"), [Some(x), Some(p)]);
    EvalSingle(ops, PadNode("y"), env, [Some(x), Some(p)], t);
    EvalNodesOne(ops, PadNode("y"), env);
  }

  /** A Pad that drops the first of two elements. */
  lemma {:induction false} CropOne(x: Tensor, p: Tensor) returns (t: Tensor)
    requires x.shape == [2] && IsIntVector(p) && IntVector(p) == [-1, 0]
    ensures ApplyPad([Some(x), Some(p)]) == Some(t) && Before([-1, 0]) == [-1] && After([-1, 0]) == [0]
    ensures CropFits(x.shape, [-1], [0])
  {
    var pads := [-1, 0];
    assert pads[..1] == [-1] && pads[1..] == [0];
    assert PadDims(x.shape, [-1], [0]) == [1];
    assert PadDefined(x, [-1], [0]);
    t := Pad(x, [-1], [0], 0.0).value;
  }

  lemma {:induction false} OnePadApplicable(p: Tensor, taken: set<string>)
    requires taken == {"x", "pads", "y"}
    ensures AllChecked(OnePad(p, ["y", "pads"]).nodes) && Applicable(OnePad(p, ["y", "pads"]), taken)
  {
    NoConstants(map[]);
    assert forall m :: m in taken ==> |m| <= 4;
    ShortNames(taken);
    assert ConstantMode(PadNode("y"));
  }

  lemma {:induction false} OnePadKeeps(x: Tensor, p: Tensor, t: Tensor)
    requires x.shape == [2] && IsIntVector(p) && IntVector(p) == [-1, 0] && CropFits(x.shape, [-1], [0])
    requires Before([-1, 0]) == [-1] && After([-1, 0]) == [0]
    ensures AllChecked(OnePad(p, ["y", "pads"]).nodes) && KeepsValues(OnePad(p, ["y", "pads"]), PadEnv(x, p, t))
  {
    var g := OnePad(p, ["y", "pads"]);
    var values := map["pads" := p];
    OneConstant(p);
    NoConstants(values);
    assert IntVector(p)[0] < 0 && NeedsSplit(g.nodes[0], values) && PadsOf(g.nodes[0], values) == [-1, 0];
  }

  lemma {:induction false} OnePadSplits(x: Tensor, p: Tensor, t: Tensor)
    requires x.shape == [2] && IsIntVector(p) && IntVector(p) == [-1, 0] && CropFits(x.shape, [-1], [0])
    requires Before([-1, 0]) == [-1] && After([-1, 0]) == [0]
    ensures
      var g, final := OnePad(p, ["y", "pads"]), PadEnv(x, p, t);
      AllChecked(g.nodes) && Applicable(g, final.Keys) && KeepsValues(g, final)
  {
    assert PadEnv(x, p, t).Keys == {"x", "pads", "y"};
    OnePadApplicable(p, PadEnv(x, p, t).Keys);
    OnePadKeeps(x, p, t);
  }

  lemma {:induction false} PadsNoLongerRead(p: Tensor)
    requires IntVector(p) == [-1, 0]
    ensures AllChecked(OnePad(p, ["y", "pads"]).nodes) && !OutputsRead(OnePad(p, ["y", "pads"]))
  {
    var g := OnePad(p, ["y", "pads"]);
    var values := map["pads" := p];
    OneConstant(p);
    NoConstants(values);
    assert IntVector(p)[0] < 0 && NeedsSplit(g.nodes[0], values);
    var still := StillNodes(g.nodes, values, EmptyOutputs(g.nodes, values));
    assert still[0].inputs == ["x"];
    assert !ReadOnPath(still, NameSet(g.outputs), "pads");
    assert g.outputs[1] == "pads" && g.outputs[1] in InitialValues(g.initializers);
  }

  lemma {:induction false} OnePadNamed(x: Tensor, p: Tensor)
    ensures
      var g, inputs := OnePad(p, ["y", "pads"]), map["x" := x];
      && SingleAssignment(g.nodes, (inputs + InitialValues(g.initializers)).Keys)
      && inputs.Keys !! InitialValues(g.initializers).Keys && "" !in inputs && "" !in InitialValues(g.initializers)
  {
    var g := OnePad(p, ["y", "pads"]);
    OneConstant(p);
    assert Written(g.nodes[0]) == {"y"} && g.nodes[1..] == [];
  }

  lemma {:induction false} PadsOutputSurvives(p: Tensor)
    ensures OutputsSurvive(OnePad(p, ["y", "pads"]))
  {
    var g := OnePad(p, ["y", "pads"]);
    var n := g.nodes[0];
    assert g.outputs[0] == n.outputs[0] == "y" && n.outputs[0] in NameSet(g.outputs);
    assert Hits(n, NameSet(g.outputs)) && IsPath(g.nodes, NameSet(g.outputs), [0]) && [0][0] == 0;
    assert OnPath(g.nodes, NameSet(g.outputs), 0) && n.inputs[1] == "pads";
    assert InputOnPath(g.nodes, NameSet(g.outputs), "pads");
    SingleValue("pads", p);
  }

  /** A run of a graph with an initializer output that no node reads after the passes. */
  ghost predicate LeavesUnread(ops: Operators, g: Graph, inputs: Env, final: Env) {
    && AllChecked(g.nodes) && Run(ops, g, inputs).Some? && Evaluate(ops, g, inputs) == Some(final)
    && SingleAssignment(g.nodes, (inputs + InitialValues(g.initializers)).Keys)
    && inputs.Keys !! InitialValues(g.initializers).Keys && "" !in inputs && "" !in InitialValues(g.initializers)
    && Applicable(g, final.Keys) && KeepsLiveValues(g, final) && !OutputsRead(g)
  }

  lemma {:induction false} UnreadIsLost(ops: Operators, g: Graph, inputs: Env, final: Env)
    requires LeavesUnread(ops, g, inputs, final)
    ensures AllChecked(g.nodes) && Run(ops, g, inputs).Some?
    ensures Run(ops, Pruned(Rewritten(g)), inputs) != Run(ops, g, inputs)
  {
    Export.OptimizePreserves(ops, g, inputs);
  }

  lemma {:induction false} PadMeets(ops: Operators, x: Tensor, p: Tensor) returns (final: Env)
    requires x.shape == [2] && IsIntVector(p) && IntVector(p) == [-1, 0]
    ensures LeavesUnread(ops, OnePad(p, ["y", "pads"]), map["x" := x], final)
  {
    var g := OnePad(p, ["y", "pads"]);
    var t := CropOne(x, p);
    final := PadEnv(x, p, t);
    OnePadRuns(ops, x, p, t, g.outputs);
    OnePadSplits(x, p, t);
    AllAreLive(g, final);
    PadsNoLongerRead(p);
    OnePadNamed(x, p);
    RunIs(ops, g, map["x" := x], final);
  }

  /** A graph output that is the pads of a Pad survives pruning alone, and is lost when the Pad is split first. */
  lemma {:induction false} PadsOutputIsLost(ops: Operators, x: Tensor, p: Tensor)
    requires x.shape == [2] && IsIntVector(p) && IntVector(p) == [-1, 0]
    ensures
      var g, inputs := OnePad(p, ["y", "pads"]), map["x" := x];
      && AllChecked(g.nodes) && Run(ops, g, inputs).Some? && OutputsSurvive(g)
      && Run(ops, Pruned(Rewritten(g)), inputs) != Run(ops, g, inputs)
  {
    PadsOutputSurvives(p);
    var final := PadMeets(ops, x, p);
    UnreadIsLost(ops, OnePad(p, ["y", "pads"]), map["x" := x], final);
  }

  lemma {:induction false} AllAreLive(g: Graph, final: Env)
    requires AllChecked(g.nodes) && KeepsValues(g, final)
    ensures KeepsLiveValues(g, final)
  {
  }

  // ------------------------------------------------------------ a fill of the wrong type

  lemma {:induction false} FirstFill(n: Node)
    requires n == PadNode("y")
    ensures
      var fills := InitialValues(AllCompatibleInitializers([n], map[]));
      "x" !in fills && "pads" !in fills && PadZero(0) in fills && IsZero(fills[PadZero(0)])
  {
    FillsAreZero([n], map[], 0);
    assert [n][0] == n && LacksFill(n);
    NotAFill("x");
    NotAFill("pads");
  }

  /** The tensors before the first node, with the fills among the initializers. */
  function FilledEnv(x: Tensor, own: seq<Initializer>, fills: seq<Initializer>): Env {
    map["x" := x] + InitialValues(own + fills)
  }

  lemma {:induction false} FilledStart(x: Tensor, p: Tensor, own: seq<Initializer>, fills: seq<Initializer>,
          zero: string)
    requires InitialValues(own) == map["pads" := p] && zero in InitialValues(fills)
    requires "x" !in InitialValues(fills) && "pads" !in InitialValues(fills)
    ensures
      var env := FilledEnv(x, own, fills);
      && "x" in env && env["x"] == x && "pads" in env && env["pads"] == p
      && zero in env && env[zero] == InitialValues(fills)[zero]
  {
    InitialAppend(own, fills);
    var all := InitialValues(own + fills);
    assert "pads" in InitialValues(own) && all["pads"] == p && "x" !in all;
    assert zero in all && all[zero] == InitialValues(fills)[zero];
  }

  lemma {:induction false} NotAFill(m: string)
    requires |m| <= 4
    ensures !IsFillName(m)
  {
    if IsFillName(m) {
      LongFill(m);
    }
  }

  lemma {:induction false} FilledNode(p: Tensor)
    ensures Compatible(OnePad(p, ["y"]), map[]).nodes == [Node(PAD, ["x", "pads", PadZero(0)], ["y"], map[])]
  {
    var nodes := OnePad(p, ["y"]).nodes;
    assert nodes[..0] == [] && CompatibleNodes([], map[]) == [];
    assert FilledInputs(nodes[0], 0) == ["x", "pads", PadZero(0)];
  }

  lemma {:induction false} FilledPadFails(ops: Operators, env: Env, x: Tensor, p: Tensor, zero: string)
    requires "x" in env && env["x"] == x && "pads" in env && env["pads"] == p && zero in env && zero != ""
    requires IsZero(env[zero]) && x.dtype != FLOAT && ApplyPad([Some(x), Some(p)]).Some?
    ensures EvalNodes(ops, [Node(PAD, ["x", "pads", zero], ["y"], map[])], env) == None
  {
    var n := Node(PAD, ["x", "pads", zero], ["y"], map[]);
    ReadThree("x", "pads", zero, env);
    FillArguments([Some(x), Some(p)], env[zero]);
    PadGives(ops, n, [Some(x), Some(p), Some(env[zero])]);
    EvalNodesOne(ops, n, env);
  }

  lemma {:induction false} FilledFails(ops: Operators, x: Tensor, p: Tensor, own: seq<Initializer>)
    requires InitialValues(own) == map["pads" := p] && x.dtype != FLOAT && ApplyPad([Some(x), Some(p)]).Some?
    ensures
      var fills := AllCompatibleInitializers([PadNode("y")], map[]);
      EvalNodes(ops, [Node(PAD, ["x", "pads", PadZero(0)], ["y"], map[])], FilledEnv(x, own, fills)) == None
  {
    var fills := AllCompatibleInitializers([PadNode("y")], map[]);
    FirstFill(PadNode("y"));
    FilledStart(x, p, own, fills, PadZero(0));
    FilledPadFails(ops, FilledEnv(x, own, fills), x, p, PadZero(0));
  }

  /** A Pad of data that are not floats, and that shape inference does not know to be bool, gets a float fill:
      the graph ran before the pass and no longer runs. */
  lemma {:induction false} IntegerFillFails(ops: Operators, x: Tensor, p: Tensor, t: Tensor)
    requires x.dtype != FLOAT && ApplyPad([Some(x), Some(p)]) == Some(t)
    ensures
      var g, inputs := OnePad(p, ["y"]), map["x" := x];
      Evaluate(ops, g, inputs).Some? && Evaluate(ops, Compatible(g, map[]), inputs) == None
  {
    OnePadRuns(ops, x, p, t, ["y"]);
    OneConstant(p);
    FilledFails(ops, x, p, OnePad(p, ["y"]).initializers);
    FilledNode(p);
  }
}
