/** What each export pass makes of a node list; `Export` has the passes themselves. */
module Passes {
  import opened Tensors
  import opened TensorRewrites
  import opened Names
  import opened Graphs

  /** What `onnx.checker` guarantees of the nodes that the passes index into: enough inputs, and the one output
      that these operators have, which may not be omitted. */
  predicate Checked(n: Node) {
    && (n.op in {PAD, SLICE, CONCAT, EINSUM, CONSTANT} ==> |n.outputs| == 1 && n.outputs[0] != "")
    && (n.op == PAD ==> |n.inputs| >= 2)
    && (n.op == SLICE ==> |n.inputs| >= 3)
    && (IsEinsumOuter(n) ==> |n.inputs| >= 2)
  }

  predicate AllChecked(nodes: seq<Node>) { forall i :: 0 <= i < |nodes| ==> Checked(nodes[i]) }

  // ------------------------------------------------------------ constants

  function ConstantsFrom(values: Env, nodes: seq<Node>): Env
    requires AllChecked(nodes)
  {
    if nodes == [] then values
    else
      var n := |nodes| - 1;
      var earlier := ConstantsFrom(values, nodes[..n]);
      if IsConstant(nodes[n]) then earlier[nodes[n].outputs[0] := nodes[n].attributes[VALUE].t] else earlier
  }

  function ConstantValues(initializers: seq<Initializer>, nodes: seq<Node>): Env
    requires AllChecked(nodes)
  {
    ConstantsFrom(InitialValues(initializers), nodes)
  }

  // ------------------------------------------------------------ einsum

  function EinsumBlock(n: Node): (r: seq<Node>)
    requires Checked(n)
    ensures AllChecked(r)
  {
    if IsEinsumOuter(n) then
      var expanded := n.outputs[0] + "__expanded";
      [Node(UNSQUEEZE, [n.inputs[0]], [expanded], map[AXES := Numbers([-2])]),
       Node(MUL, [expanded, n.inputs[1]], n.outputs, map[])]
    else [n]
  }

  function EinsumNodes(nodes: seq<Node>): (r: seq<Node>)
    requires AllChecked(nodes)
    ensures AllChecked(r)
  {
    if nodes == [] then []
    else var n := |nodes| - 1; EinsumNodes(nodes[..n]) + EinsumBlock(nodes[n])
  }

  // ------------------------------------------------------------ empty concat inputs

  function StepsOf(n: Node, values: Env, count: nat): seq<int> {
    if |n.inputs| > 4 && n.inputs[4] != "" && n.inputs[4] in values then IntVector(values[n.inputs[4]]) else Ones(count)
  }

  /** All parameters of the Slice are constants, and some entry selects nothing. */
  predicate IsEmptySlice(n: Node, values: Env)
    requires Checked(n)
  {
    && n.op == SLICE
    && (forall k :: 1 <= k < |n.inputs| ==> n.inputs[k] in values)
    && var starts, ends := IntVector(values[n.inputs[1]]), IntVector(values[n.inputs[2]]);
      var steps := StepsOf(n, values, |starts|);
      exists i :: 0 <= i < |starts| && i < |ends| && i < |steps| && starts[i] == ends[i] && steps[i] > 0
  }

  function EmptyOutputs(nodes: seq<Node>, values: Env): set<string>
    requires AllChecked(nodes)
  {
    if nodes == [] then {}
    else
      var n := |nodes| - 1;
      EmptyOutputs(nodes[..n], values) + if IsEmptySlice(nodes[n], values) then {nodes[n].outputs[0]} else {}
  }

  function Without(names: seq<string>, empty: set<string>): seq<string> {
    if names == [] then []
    else
      var n := |names| - 1;
      Without(names[..n], empty) + if names[n] in empty then [] else [names[n]]
  }

  function ConcatNode(n: Node, empty: set<string>): (r: Node)
    ensures Checked(n) ==> Checked(r)
  {
    var retained := Without(n.inputs, empty);
    if n.op == CONCAT && retained != [] && |retained| != |n.inputs| then n.(inputs := retained) else n
  }

  function ConcatNodes(nodes: seq<Node>, empty: set<string>): (r: seq<Node>)
    ensures |r| == |nodes| && forall i :: 0 <= i < |r| ==> r[i] == ConcatNode(nodes[i], empty)
    ensures AllChecked(nodes) ==> AllChecked(r)
  {
    seq(|nodes|, i requires 0 <= i < |nodes| => ConcatNode(nodes[i], empty))
  }

  // ------------------------------------------------------------ negative pads

  predicate NeedsSplit(n: Node, values: Env)
    requires Checked(n)
  {
    && n.op == PAD && n.inputs[1] in values
    && var pads := IntVector(values[n.inputs[1]]);
      exists k :: 0 <= k < |pads| && pads[k] < 0
  }

  function PadRank(pads: seq<int>): (r: nat)
    ensures 2 * r <= |pads|
  {
    |pads| / 2
  }

  function Before(pads: seq<int>): (r: seq<int>)
    ensures |r| == PadRank(pads)
  {
    pads[..PadRank(pads)]
  }

  function After(pads: seq<int>): (r: seq<int>)
    ensures |r| == PadRank(pads)
  {
    pads[PadRank(pads)..2 * PadRank(pads)]
  }

  function CropsOf(pads: seq<int>): CropParameters {
    Crops(Before(pads), After(pads), PadRank(pads))
  }

  /** The integers generated for one part of a split Pad with pads `pads`. */
  function GeneratedInts(pads: seq<int>, part: Part): (r: seq<int>)
    ensures |r| <= |pads|
  {
    var c := CropsOf(pads);
    match part
    case CROP_STARTS => c.starts
    case CROP_ENDS => c.ends
    case CROP_AXES => c.axes
    case CROP_STEPS => Ones(|c.axes|)
    case POSITIVE_PADS => Positives(pads)
  }

  function PadsOf(n: Node, values: Env): (r: seq<int>)
    requires Checked(n) && NeedsSplit(n, values)
    ensures |r| <= INT64_MAX
  {
    IntVector(values[n.inputs[1]])
  }

  const PARTS: seq<Part> := [CROP_STARTS, CROP_ENDS, CROP_AXES, CROP_STEPS, POSITIVE_PADS]

  function GeneratedNames(index: nat): (r: seq<string>)
    ensures |r| == |PARTS| && forall k :: 0 <= k < |r| ==> r[k] == GeneratedName(index, PARTS[k])
  {
    seq(|PARTS|, k requires 0 <= k < |PARTS| => GeneratedName(index, PARTS[k]))
  }

  /** A Slice by the first four named constants, and the Pad by the fifth. */
  function SplitPad(n: Node, names: seq<string>): (r: seq<Node>)
    requires |n.inputs| >= 2 && |names| == |PARTS|
    ensures |r| == 2
  {
    var cropped := n.inputs[0] + "__cropped";
    [Node(SLICE, [n.inputs[0], names[0], names[1], names[2], names[3]], [cropped], map[]),
     n.(inputs := n.inputs[0 := cropped][1 := names[4]])]
  }

  function SplitBlock(n: Node, index: nat, values: Env): seq<Node>
    requires Checked(n)
  {
    if NeedsSplit(n, values) then SplitPad(n, GeneratedNames(index)) else [n]
  }

  /** The five lists of one split Pad, in the order of their names. */
  function PartLists(pads: seq<int>): (r: seq<seq<int>>)
    ensures |r| == |PARTS| && forall k :: 0 <= k < |r| ==> |r[k]| <= |pads|
  {
    var c := CropsOf(pads);
    [c.starts, c.ends, c.axes, Ones(|c.axes|), Positives(pads)]
  }

  predicate Fitting(lists: seq<seq<int>>) {
    forall k :: 0 <= k < |lists| ==> |lists[k]| <= INT64_MAX
  }

  /** The first `n` named constants of these lists. */
  function PartInitializers(names: seq<string>, lists: seq<seq<int>>, n: nat): (r: seq<Initializer>)
    requires n <= |lists| == |names| && Fitting(lists)
    ensures |r| == n
  {
    if n == 0 then [] else PartInitializers(names, lists, n - 1) + [Initializer(names[n - 1], FromInts(lists[n - 1]))]
  }

  lemma {:induction false} PartAt(names: seq<string>, lists: seq<seq<int>>, n: nat, k: nat)
    requires k < n <= |lists| == |names| && Fitting(lists)
    ensures PartInitializers(names, lists, n)[k] == Initializer(names[k], FromInts(lists[k]))
  {
    var earlier := PartInitializers(names, lists, n - 1);
    assert PartInitializers(names, lists, n) == earlier + [Initializer(names[n - 1], FromInts(lists[n - 1]))];
    if k < n - 1 {
      PartAt(names, lists, n - 1, k);
      assert PartInitializers(names, lists, n)[k] == earlier[k];
    }
  }

  function SplitInitializers(n: Node, index: nat, values: Env): seq<Initializer>
    requires Checked(n)
  {
    if NeedsSplit(n, values) then PartInitializers(GeneratedNames(index), PartLists(PadsOf(n, values)), |PARTS|) else []
  }

  function SplitNodes(nodes: seq<Node>, values: Env): seq<Node>
    requires AllChecked(nodes)
  {
    if nodes == [] then []
    else var n := |nodes| - 1; SplitNodes(nodes[..n], values) + SplitBlock(nodes[n], n, values)
  }

  function AllSplitInitializers(nodes: seq<Node>, values: Env): seq<Initializer>
    requires AllChecked(nodes)
  {
    if nodes == [] then []
    else var n := |nodes| - 1; AllSplitInitializers(nodes[..n], values) + SplitInitializers(nodes[n], n, values)
  }

  // ------------------------------------------------------------ bool pads

  function PadZero(index: nat): string { "__denoize_pad_zero_" + Decimal(index) }

  function BoolPadZero(index: nat): string { "__denoize_bool_pad_zero_" + Decimal(index) }

  predicate LacksFill(n: Node) { |n.inputs| < 3 || n.inputs[2] == "" }

  /** The inputs of a Pad with the fill made explicit. */
  function FilledInputs(n: Node, index: nat): (r: seq<string>)
    requires |n.inputs| >= 2
    ensures |r| >= 3
  {
    if |n.inputs| == 2 then n.inputs + [PadZero(index)]
    else if n.inputs[2] == "" then n.inputs[2 := PadZero(index)]
    else n.inputs
  }

  predicate KnownBool(n: Node, types: map<string, DType>)
    requires |n.inputs| >= 1
  {
    n.inputs[0] in types && types[n.inputs[0]] == BOOL
  }

  function CompatibleBlock(n: Node, index: nat, types: map<string, DType>): seq<Node>
    requires Checked(n)
  {
    if n.op != PAD then [n]
    else if !KnownBool(n, types) then [n.(inputs := FilledInputs(n, index))]
    else
      var floatInput, floatOutput := n.inputs[0] + "__float", n.outputs[0] + "__float";
      [Node(CAST, [n.inputs[0]], [floatInput], map[TO := Number(CAST_FLOAT)]),
       n.(inputs := FilledInputs(n, index)[0 := floatInput][2 := BoolPadZero(index)],
          outputs := n.outputs[0 := floatOutput]),
       Node(CAST, [floatOutput], [n.outputs[0]], map[TO := Number(CAST_BOOL)])]
  }

  function CompatibleInitializers(n: Node, index: nat, types: map<string, DType>): seq<Initializer>
    requires Checked(n)
  {
    if n.op != PAD then []
    else
      (if LacksFill(n) then [Initializer(PadZero(index), FromReal(0.0))] else [])
      + (if KnownBool(n, types) then [Initializer(BoolPadZero(index), FromReal(0.0))] else [])
  }

  function CompatibleNodes(nodes: seq<Node>, types: map<string, DType>): seq<Node>
    requires AllChecked(nodes)
  {
    if nodes == [] then []
    else var n := |nodes| - 1; CompatibleNodes(nodes[..n], types) + CompatibleBlock(nodes[n], n, types)
  }

  function AllCompatibleInitializers(nodes: seq<Node>, types: map<string, DType>): seq<Initializer>
    requires AllChecked(nodes)
  {
    if nodes == [] then []
    else var n := |nodes| - 1; AllCompatibleInitializers(nodes[..n], types) + CompatibleInitializers(nodes[n], n, types)
  }
}
