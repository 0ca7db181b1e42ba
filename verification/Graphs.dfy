/** ONNX graphs as ordered node lists, their evaluation, and the simulation argument that every
    node-by-node rewrite relies on. */
module Graphs {
  import opened Wrappers
  import opened Tensors

  datatype Attribute = Text(s: string) | Number(i: int) | Numbers(v: seq<int>) | Value(t: Tensor)

  /** `op_type` and attribute names, with everything the passes do not look at kept as text. */
  datatype Op = PAD | SLICE | CONCAT | UNSQUEEZE | MUL | EINSUM | CAST | CONSTANT | OTHER_OP(op: string)

  datatype Key = EQUATION | AXES | AXIS | MODE | TO | VALUE | OTHER_KEY(key: string)

  datatype Node = Node(op: Op, inputs: seq<string>, outputs: seq<string>, attributes: map<Key, Attribute>)

  datatype Initializer = Initializer(name: string, value: Tensor)

  type Env = map<string, Tensor>

  type Arguments = seq<Option<Tensor>>

  /** What the passes leave uninterpreted: the element product and every operator they do not touch. */
  datatype Operators = Operators(
    times: Product,
    other: (Op, map<Key, Attribute>, Arguments) -> Option<seq<Tensor>>)

  const EINSUM_EQUATION := "... d, h d -> ... h d"

  predicate ConstantMode(n: Node) {
    MODE !in n.attributes || n.attributes[MODE] == Text("constant")
  }

  predicate IsEinsumOuter(n: Node) {
    n.op == EINSUM && EQUATION in n.attributes && n.attributes[EQUATION] == Text(EINSUM_EQUATION)
  }

  predicate IsConstant(n: Node) {
    n.op == CONSTANT && VALUE in n.attributes && n.attributes[VALUE].Value?
  }

  // ------------------------------------------------------------ operators

  predicate Present(args: Arguments, k: nat) { k < |args| && args[k].Some? }

  predicate IsIntVector(t: Tensor) { t.Rank() == 1 && t.dtype != FLOAT && t.dtype != BOOL }

  ghost function One(t: Option<Tensor>): Option<seq<Tensor>> {
    if t.None? then None else Some([t.value])
  }

  /** The fill of a Pad: zero (false) unless the optional third input gives it. */
  function FillOf(args: Arguments): Option<real>
    requires |args| > 0 && args[0].Some?
  {
    if !Present(args, 2) then Some(0.0)
    else if args[2].value.dtype != args[0].value.dtype then None
    else ScalarValue(args[2].value)
  }

  ghost function ApplyPad(args: Arguments): Option<Tensor> {
    if !(2 <= |args| <= 3 && args[0].Some? && args[1].Some? && IsIntVector(args[1].value)) then None
    else
      var x, pads, fill := args[0].value, IntVector(args[1].value), FillOf(args);
      if |pads| != 2 * x.Rank() || fill.None? then None
      else Pad(x, pads[..x.Rank()], pads[x.Rank()..], fill.value)
  }

  function UpTo(n: nat): seq<int> { seq(n, k => k) }

  ghost function ApplySlice(args: Arguments): Option<Tensor> {
    if !(3 <= |args| <= 5 && args[0].Some? && args[1].Some? && args[2].Some?)
       || (exists k :: 1 <= k < |args| && args[k].Some? && !IsIntVector(args[k].value))
    then None
    else
      var starts, ends := IntVector(args[1].value), IntVector(args[2].value);
      var axes := if Present(args, 3) then IntVector(args[3].value) else UpTo(|starts|);
      var steps := if Present(args, 4) then IntVector(args[4].value) else seq(|starts|, _ => 1);
      Slice(args[0].value, starts, ends, axes, steps)
  }

  ghost function ApplyConcat(axis: int, args: Arguments): Option<Tensor> {
    if exists k :: 0 <= k < |args| && args[k].None? then None
    else Concat(Values(args), axis)
  }

  function Values(args: Arguments): (r: seq<Tensor>)
    requires forall k :: 0 <= k < |args| ==> args[k].Some?
    ensures |r| == |args| && forall k :: 0 <= k < |r| ==> r[k] == args[k].value
  {
    seq(|args|, k requires 0 <= k < |args| => args[k].value)
  }

  /** The outputs of a node. The operators that the passes read or generate have their ONNX meaning;
      all others are whatever `ops.other` says. */
  ghost function Apply(ops: Operators, n: Node, args: Arguments): Option<seq<Tensor>> {
    match n.op
    case PAD => if ConstantMode(n) then One(ApplyPad(args)) else ops.other(n.op, n.attributes, args)
    case SLICE => One(ApplySlice(args))
    case CONCAT =>
      if AXIS in n.attributes && n.attributes[AXIS].Number? then One(ApplyConcat(n.attributes[AXIS].i, args)) else None
    case UNSQUEEZE =>
      if AXES in n.attributes && n.attributes[AXES] == Numbers([-2])
      then (if |args| == 1 && args[0].Some? then One(UnsqueezeBeforeLast(args[0].value)) else None)
      else ops.other(n.op, n.attributes, args)
    case MUL => if Binary(args) then One(Mul(ops.times, args[0].value, args[1].value)) else None
    case EINSUM =>
      if IsEinsumOuter(n) then (if Binary(args) then One(EinsumOuter(ops.times, args[0].value, args[1].value))
                                else None)
      else ops.other(n.op, n.attributes, args)
    case CAST =>
      if CastsBetween(n, args, BOOL, CAST_FLOAT) then Some([Cast(args[0].value, FLOAT)])
      else if CastsBetween(n, args, FLOAT, CAST_BOOL) then Some([Cast(args[0].value, BOOL)])
      else ops.other(n.op, n.attributes, args)
    case CONSTANT => if IsConstant(n) then Some([n.attributes[VALUE].t]) else ops.other(n.op, n.attributes, args)
    case OTHER_OP(_) => ops.other(n.op, n.attributes, args)
  }

  predicate Binary(args: Arguments) { |args| == 2 && args[0].Some? && args[1].Some? }

  predicate CastsBetween(n: Node, args: Arguments, from: DType, to: int) {
    |args| == 1 && args[0].Some? && args[0].value.dtype == from && TO in n.attributes && n.attributes[TO] == Number(to)
  }

  /** `TensorProto.FLOAT` and `TensorProto.BOOL`. */
  const CAST_FLOAT := 1
  const CAST_BOOL := 9

  // ------------------------------------------------------------ evaluation

  /** The values of a node's inputs; an empty name is an omitted optional input, an unbound name an error. */
  ghost function Read(names: seq<string>, env: Env): (r: Option<Arguments>)
    ensures r.Some? <==> forall k :: 0 <= k < |names| && names[k] != "" ==> names[k] in env
    ensures r.Some? ==> |r.value| == |names|
    ensures r.Some? ==> forall k :: 0 <= k < |names| ==>
        r.value[k] == if names[k] == "" then None else Some(env[names[k]])
  {
    if names == [] then Some([])
    else
      var n := |names| - 1;
      match Read(names[..n], env)
      case None => None
      case Some(args) =>
        if names[n] == "" then Some(args + [None])
        else if names[n] in env then Some(args + [Some(env[names[n]])])
        else None
  }

  ghost function Bind(env: Env, names: seq<string>, values: seq<Tensor>): Env
    requires |names| == |values|
    decreases |names|
  {
    if names == [] then env
    else Bind(if names[0] == "" then env else env[names[0] := values[0]], names[1..], values[1..])
  }

  ghost function EvalNode(ops: Operators, n: Node, env: Env): Option<Env> {
    match Read(n.inputs, env)
    case None => None
    case Some(args) =>
      match Apply(ops, n, args)
      case None => None
      case Some(values) => if |values| != |n.outputs| then None else Some(Bind(env, n.outputs, values))
  }

  /** Nodes run in list order, so a graph evaluates only if the order is topological for its reads. */
  ghost function EvalNodes(ops: Operators, nodes: seq<Node>, env: Env): Option<Env> {
    if nodes == [] then Some(env)
    else match EvalNode(ops, nodes[0], env)
      case None => None
      case Some(next) => EvalNodes(ops, nodes[1..], next)
  }

  function InitialValues(initializers: seq<Initializer>): Env {
    if initializers == [] then map[]
    else
      var n := |initializers| - 1;
      InitialValues(initializers[..n])[initializers[n].name := initializers[n].value]
  }

  datatype Graph = Graph(nodes: seq<Node>, initializers: seq<Initializer>, outputs: seq<string>)

  /** The values of all tensors of a graph run on `inputs`. */
  ghost function Evaluate(ops: Operators, g: Graph, inputs: Env): Option<Env> {
    EvalNodes(ops, g.nodes, inputs + InitialValues(g.initializers))
  }

  /** The values of the graph outputs. */
  ghost function Run(ops: Operators, g: Graph, inputs: Env): Option<seq<Tensor>> {
    match Evaluate(ops, g, inputs)
    case None => None
    case Some(env) =>
      if exists k :: 0 <= k < |g.outputs| && g.outputs[k] !in env then None
      else Some(seq(|g.outputs|, k requires 0 <= k < |g.outputs| && g.outputs[k] in env => env[g.outputs[k]]))
  }

  // ------------------------------------------------------------ properties of evaluation

  ghost predicate Extends(a: Env, b: Env) {
    forall n :: n in a ==> n in b && b[n] == a[n]
  }

  function Written(n: Node): set<string> {
    set o | o in n.outputs && o != ""
  }

  /** ONNX's single-assignment rule: no node writes a name that is already defined. */
  ghost predicate SingleAssignment(nodes: seq<Node>, defined: set<string>) {
    nodes == [] || (Written(nodes[0]) !! defined && SingleAssignment(nodes[1..], defined + Written(nodes[0])))
  }

  lemma {:induction false} BindKeys(env: Env, names: seq<string>, values: seq<Tensor>)
    requires |names| == |values|
    decreases |names|
    ensures Bind(env, names, values).Keys == env.Keys + set o | o in names && o != ""
    ensures forall n :: n in env && n !in names ==> Bind(env, names, values)[n] == env[n]
  {
    if names != [] {
      BindKeys(if names[0] == "" then env else env[names[0] := values[0]], names[1..], values[1..]);
      assert forall o :: o in names <==> o == names[0] || o in names[1..];
    }
  }

  lemma {:induction false} BindExtends(env: Env, env': Env, names: seq<string>, values: seq<Tensor>)
    requires |names| == |values| && Extends(env, env')
    decreases |names|
    ensures Extends(Bind(env, names, values), Bind(env', names, values))
  {
    if names != [] {
      var e := if names[0] == "" then env else env[names[0] := values[0]];
      var e' := if names[0] == "" then env' else env'[names[0] := values[0]];
      BindExtends(e, e', names[1..], values[1..]);
    }
  }

  /** A node computes the same outputs in a larger environment. */
  lemma {:induction false} EvalNodeExtends(ops: Operators, n: Node, env: Env, env': Env)
    requires Extends(env, env') && EvalNode(ops, n, env).Some?
    ensures EvalNode(ops, n, env').Some? && Extends(EvalNode(ops, n, env).value, EvalNode(ops, n, env').value)
    ensures EvalNode(ops, n, env').value.Keys == env'.Keys + Written(n)
    ensures forall m :: m in env' && m !in Written(n) && m != "" ==> EvalNode(ops, n, env').value[m] == env'[m]
  {
    var args := Read(n.inputs, env).value;
    assert Read(n.inputs, env').value == args;
    BindExtends(env, env', n.outputs, Apply(ops, n, args).value);
    BindKeys(env', n.outputs, Apply(ops, n, args).value);
  }

  /** Under single assignment, evaluation only adds names. */
  lemma {:induction false} EvalGrows(ops: Operators, nodes: seq<Node>, env: Env)
    requires SingleAssignment(nodes, env.Keys) && EvalNodes(ops, nodes, env).Some?
    requires "" !in env
    ensures Extends(env, EvalNodes(ops, nodes, env).value)
  {
    if nodes != [] {
      EvalNodeExtends(ops, nodes[0], env, env);
      var next := EvalNode(ops, nodes[0], env).value;
      EvalGrows(ops, nodes[1..], next);
    }
  }

  lemma {:induction false} EvalAppend(ops: Operators, a: seq<Node>, b: seq<Node>, env: Env)
    ensures EvalNodes(ops, a + b, env) ==
            match EvalNodes(ops, a, env) case None => None case Some(mid) => EvalNodes(ops, b, mid)
  {
    if a == [] {
      assert a + b == b;
    } else {
      assert (a + b)[1..] == a[1..] + b;
      match EvalNode(ops, a[0], env)
      case None =>
      case Some(next) => EvalAppend(ops, a[1..], b, next);
    }
  }

  // ------------------------------------------------------------ simulation

  function Flatten(blocks: seq<seq<Node>>): seq<Node> {
    if blocks == [] then [] else blocks[0] + Flatten(blocks[1..])
  }

  function WrittenAll(nodes: seq<Node>): set<string> {
    if nodes == [] then {} else Written(nodes[0]) + WrittenAll(nodes[1..])
  }

  /** An output of the node is not what the run `final` has. */
  ghost predicate Loses(node: Node, final: Env, result: Env) {
    exists o :: o in Written(node) && o in final && (o !in result || result[o] != final[o])
  }

  /** On the way to `final` a node runs from `env`; `env'` has all that `env` has, and the generated constants. */
  ghost predicate OnTheWay(ops: Operators, node: Node, env: Env, env': Env, final: Env, constants: Env) {
    && Extends(env, env') && Extends(constants, env') && Extends(env, final)
    && EvalNode(ops, node, env).Some? && Extends(EvalNode(ops, node, env).value, final)
  }

  /** Running `block` instead of `node` from `env'` computes all that `node` computes; or else, it fails or
      loses an output. */
  ghost predicate Outcome(ops: Operators, node: Node, block: seq<Node>, env: Env, env': Env, final: Env,
          constants: Env, good: bool)
    requires EvalNode(ops, node, env).Some?
  {
    var r := EvalNodes(ops, block, env');
    if good then r.Some? && Extends(EvalNode(ops, node, env).value, r.value) && Extends(constants, r.value)
    else r.None? || Loses(node, final, r.value)
  }

  /** `block` computes what `node` computes, wherever the run reaches it, if `good`, and never if not. */
  ghost predicate RefinesIff(ops: Operators, node: Node, block: seq<Node>, final: Env, constants: Env, good: bool) {
    forall env, env' {:trigger OnTheWay(ops, node, env, env', final, constants)} ::
      OnTheWay(ops, node, env, env', final, constants) ==> Outcome(ops, node, block, env, env', final, constants, good)
  }

  /** A name that no node writes keeps its value. */
  lemma {:induction false} EvalKeeps(ops: Operators, nodes: seq<Node>, env: Env, o: string)
    requires EvalNodes(ops, nodes, env).Some? && o != "" && o !in WrittenAll(nodes)
    ensures var result := EvalNodes(ops, nodes, env).value;
            (o in result <==> o in env) && (o in env ==> result[o] == env[o])
  {
    if nodes != [] {
      EvalNodeExtends(ops, nodes[0], env, env);
      EvalKeeps(ops, nodes[1..], EvalNode(ops, nodes[0], env).value, o);
    }
  }

  lemma {:induction false} WrittenFlat(blocks: seq<seq<Node>>, names: set<string>)
    ensures names !! WrittenAll(Flatten(blocks)) <==> forall k :: 0 <= k < |blocks| ==> names !! WrittenAll(blocks[k])
  {
    if blocks != [] {
      WrittenFlat(blocks[1..], names);
      WrittenAppend(blocks[0], Flatten(blocks[1..]));
    }
  }

  lemma {:induction false} WrittenAppend(a: seq<Node>, b: seq<Node>)
    ensures WrittenAll(a + b) == WrittenAll(a) + WrittenAll(b)
  {
    if a == [] {
      assert a + b == b;
    } else {
      assert (a + b)[1..] == a[1..] + b;
      WrittenAppend(a[1..], b);
    }
  }

  /** What a block loses stays lost when no later block writes it. */
  lemma {:induction false} LossStays(ops: Operators, node: Node, block: seq<Node>, rest: seq<Node>, env': Env,
          final: Env)
    requires Written(node) !! WrittenAll(rest)
    requires EvalNodes(ops, block, env').None? || Loses(node, final, EvalNodes(ops, block, env').value)
    ensures var r := EvalNodes(ops, block + rest, env'); r.None? || Loses(node, final, r.value)
  {
    EvalAppend(ops, block, rest, env');
    if EvalNodes(ops, block + rest, env').Some? {
      var mid := EvalNodes(ops, block, env').value;
      var o :| o in Written(node) && o in final && (o !in mid || mid[o] != final[o]);
      EvalKeeps(ops, rest, mid, o);
    }
  }

  /** If no block writes what an earlier node writes, the block list computes every tensor of the run exactly
      when every block computes what its node computes. */
  lemma {:induction false} Simulation(ops: Operators, nodes: seq<Node>, blocks: seq<seq<Node>>, good: seq<bool>,
          env: Env, env': Env, final: Env, constants: Env)
    requires |blocks| == |nodes| == |good|
    requires forall i :: 0 <= i < |nodes| ==> RefinesIff(ops, nodes[i], blocks[i], final, constants, good[i])
    requires forall i, k :: 0 <= i < k < |nodes| ==> Written(nodes[i]) !! WrittenAll(blocks[k])
    requires EvalNodes(ops, nodes, env) == Some(final)
    requires SingleAssignment(nodes, env.Keys) && "" !in env
    requires Extends(env, env') && Extends(constants, env')
    ensures var r := EvalNodes(ops, Flatten(blocks), env');
      (r.Some? && Extends(final, r.value)) <==> forall i :: 0 <= i < |good| ==> good[i]
  {
    if nodes != [] {
      var next := EvalNode(ops, nodes[0], env).value;
      EvalNodeExtends(ops, nodes[0], env, env);
      EvalGrows(ops, nodes, env);
      EvalGrows(ops, nodes[1..], next);
      assert RefinesIff(ops, nodes[0], blocks[0], final, constants, good[0]);
      assert OnTheWay(ops, nodes[0], env, env', final, constants);
      if good[0] {
        var next' := EvalNodes(ops, blocks[0], env').value;
        Simulation(ops, nodes[1..], blocks[1..], good[1..], next, next', final, constants);
        EvalAppend(ops, blocks[0], Flatten(blocks[1..]), env');
        assert forall i :: 1 <= i < |good| ==> good[i] == good[1..][i - 1];
      } else {
        WrittenFlat(blocks[1..], Written(nodes[0]));
        LossStays(ops, nodes[0], blocks[0], Flatten(blocks[1..]), env', final);
      }
    }
  }

  /** An unchanged node refines itself when it does not overwrite a generated constant. */
  lemma {:induction false} SelfRefines(ops: Operators, n: Node, final: Env, constants: Env)
    requires constants.Keys !! Written(n) && "" !in constants
    ensures RefinesIff(ops, n, [n], final, constants, true)
  {
    forall env, env' | OnTheWay(ops, n, env, env', final, constants)
      ensures Outcome(ops, n, [n], env, env', final, constants, true)
    {
      EvalNodeExtends(ops, n, env, env');
      EvalNodesOne(ops, n, env');
    }
  }

  lemma {:induction false} EvalNodesOne(ops: Operators, n: Node, env: Env)
    ensures EvalNodes(ops, [n], env) == EvalNode(ops, n, env)
  {
    match EvalNode(ops, n, env)
    case None =>
    case Some(next) => assert EvalNodes(ops, [], next) == Some(next);
  }

  /** What the first node reads and writes stays bound. */
  lemma {:induction false} FirstIsBound(ops: Operators, n: Node, rest: seq<Node>, env: Env, final: Env)
    requires EvalNode(ops, n, env).Some? && EvalNodes(ops, rest, EvalNode(ops, n, env).value) == Some(final)
    requires SingleAssignment(rest, EvalNode(ops, n, env).value.Keys) && "" !in env && Written(n) !! env.Keys
    ensures (forall m :: m in n.inputs && m != "" ==> m in final) && Written(n) <= final.Keys
  {
    EvalNodeExtends(ops, n, env, env);
    EvalGrows(ops, rest, EvalNode(ops, n, env).value);
    forall m | m in n.inputs && m != "" ensures m in final {
      assert m in env;
    }
  }

  /** Every tensor that a graph reads or defines is bound when it has run. */
  lemma {:induction false} ReadsAreBound(ops: Operators, nodes: seq<Node>, env: Env, i: nat)
    requires SingleAssignment(nodes, env.Keys) && "" !in env && i < |nodes|
    requires EvalNodes(ops, nodes, env).Some?
    ensures var final := EvalNodes(ops, nodes, env).value;
      && (forall m :: m in nodes[i].inputs && m != "" ==> m in final)
      && Written(nodes[i]) <= final.Keys
  {
    EvalNodeExtends(ops, nodes[0], env, env);
    if i > 0 {
      ReadsAreBound(ops, nodes[1..], EvalNode(ops, nodes[0], env).value, i - 1);
    } else {
      FirstIsBound(ops, nodes[0], nodes[1..], env, EvalNodes(ops, nodes, env).value);
    }
  }
}
