/** The pass that runs before the optimizer: explicit Pad fills, and bool Pads carried out in floats. */
module BoolPads {
  import opened Wrappers
  import opened Tensors
  import opened TensorRewrites
  import opened Names
  import opened Graphs
  import opened Passes
  import opened PassProofs
  import opened Pipeline
  import opened Assignment

  function Compatible(g: Graph, types: map<string, DType>): Graph
    requires AllChecked(g.nodes)
  {
    Graph(CompatibleNodes(g.nodes, types), g.initializers + AllCompatibleInitializers(g.nodes, types), g.outputs)
  }

  /** No element of the padded tensor comes from the fill. */
  ghost predicate NothingFilled(x: Tensor, pads: seq<int>) {
    |pads| == 2 * x.Rank() ==> forall ix :: !TakesFill(x, pads[..x.Rank()], pads[x.Rank()..], ix)
  }

  /** The names that the pass puts around a bool Pad. */
  function Floats(n: Node, types: map<string, DType>): set<string>
    requires Checked(n)
  {
    if n.op == PAD && KnownBool(n, types) then {n.inputs[0] + "__float", n.outputs[0] + "__float"} else {}
  }

  /** A Pad that the pass changes is constant-mode, and in the run `final` it is a bool Pad when `types` says so. */
  ghost predicate Typed(n: Node, types: map<string, DType>, final: Env)
    requires Checked(n)
  {
    n.op == PAD && (LacksFill(n) || KnownBool(n, types)) ==>
      ConstantMode(n) && (KnownBool(n, types) && n.inputs[0] in final ==> final[n.inputs[0]].dtype == BOOL)
  }

  /** The names of the pass are new, and the outcome `types` of shape inference fits the run. */
  ghost predicate Completable(g: Graph, types: map<string, DType>, final: Env)
    requires AllChecked(g.nodes)
  {
    && (forall m :: m in final ==> !IsFillName(m))
    && forall i :: 0 <= i < |g.nodes| ==> Floats(g.nodes[i], types) !! final.Keys && Typed(g.nodes[i], types, final)
  }

  /** In a run with tensors `final` the pass leaves what a Pad computes: one that gets a float fill is a float Pad;
      a bool Pad had a false fill, none, or no element to fill. */
  ghost predicate KeepsFill(n: Node, types: map<string, DType>, final: Env)
    requires Checked(n)
  {
    n.op == PAD && n.inputs[0] in final && n.inputs[1] in final ==>
      if KnownBool(n, types)
      then LacksFill(n) || NothingFilled(final[n.inputs[0]], IntVector(final[n.inputs[1]])) || FalseFill(n, final)
      else LacksFill(n) ==> final[n.inputs[0]].dtype == FLOAT
  }

  predicate FalseFill(n: Node, final: Env)
    requires |n.inputs| >= 3
  {
    n.inputs[2] in final ==> ScalarValue(final[n.inputs[2]]) == Some(0.0)
  }

  ghost predicate KeepsFills(g: Graph, types: map<string, DType>, final: Env)
    requires AllChecked(g.nodes)
  {
    forall i :: 0 <= i < |g.nodes| ==> KeepsFill(g.nodes[i], types, final)
  }

  ghost predicate IsZero(t: Tensor) { t.dtype == FLOAT && ScalarValue(t) == Some(0.0) }

  // ------------------------------------------------------------ one node

  lemma {:induction false} ReadThree(a: string, b: string, c: string, env: Env)
    requires a in env && b in env && c in env && a != "" && b != "" && c != ""
    ensures Read([a, b, c], env) == Some([Some(env[a]), Some(env[b]), Some(env[c])])
  {
    assert Read([a, b, c], env).value == [Some(env[a]), Some(env[b]), Some(env[c])];
  }

  /** A float32 zero is what an omitted fill means for floats; any other data refuses it. */
  lemma {:induction false} FillArguments(args: Arguments, zero: Tensor)
    requires ApplyPad(args).Some? && !Present(args, 2) && IsZero(zero)
    ensures ApplyPad([args[0], args[1], Some(zero)]) == if args[0].value.dtype == FLOAT then ApplyPad(args) else None
  {
    var args' := [args[0], args[1], Some(zero)];
    assert FillOf(args') == if args[0].value.dtype == FLOAT then FillOf(args) else None;
  }

  lemma {:induction false} BoolArguments(args: Arguments, zero: Tensor)
    requires ApplyPad(args).Some? && args[0].value.dtype == BOOL && IsZero(zero)
    ensures
      var padded := ApplyPad([Some(Cast(args[0].value, FLOAT)), args[1], Some(zero)]);
      && padded.Some? && padded.value.dtype == FLOAT
      && (Cast(padded.value, BOOL) == ApplyPad(args).value <==>
          (!Present(args, 2) || ScalarValue(args[2].value) == Some(0.0)
           || NothingFilled(args[0].value, IntVector(args[1].value))))
  {
    var x, pads, fill := PadParts(args);
    CastPadCastIsPad(x, pads[..x.Rank()], pads[x.Rank()..], fill);
    FloatPad(Cast(x, FLOAT), args[1].value, zero);
  }

  lemma {:induction false} FloatPad(f: Tensor, pads: Tensor, zero: Tensor)
    requires f.dtype == FLOAT && IsIntVector(pads) && |IntVector(pads)| == 2 * f.Rank() && IsZero(zero)
    ensures ApplyPad([Some(f), Some(pads), Some(zero)])
        == Pad(f, IntVector(pads)[..f.Rank()], IntVector(pads)[f.Rank()..], 0.0)
  {
    assert FillOf([Some(f), Some(pads), Some(zero)]) == Some(0.0);
  }

  lemma {:induction false} CastRuns(ops: Operators, a: string, out: string, env: Env, to: int)
    requires a in env && a != "" && out != ""
    requires (to == CAST_FLOAT && env[a].dtype == BOOL) || (to == CAST_BOOL && env[a].dtype == FLOAT)
    ensures var n := Node(CAST, [a], [out], map[TO := Number(to)]);
      && Read(n.inputs, env) == Some([Some(env[a])])
      && Apply(ops, n, [Some(env[a])]) == Some([Cast(env[a], if to == CAST_FLOAT then FLOAT else BOOL)])
      && EvalNode(ops, n, env) == Some(env[out := Cast(env[a], if to == CAST_FLOAT then FLOAT else BOOL)])
  {
    ReadOne(a, env, env[a]);
    var n := Node(CAST, [a], [out], map[TO := Number(to)]);
    EvalSingle(ops, n, env, [Some(env[a])], Cast(env[a], if to == CAST_FLOAT then FLOAT else BOOL));
  }

  lemma {:induction false} CastApplies(ops: Operators, a: string, out: string, env: Env)
    requires a in env && a != "" && env[a].dtype == FLOAT
    ensures var n := Node(CAST, [a], [out], map[TO := Number(CAST_BOOL)]);
      && Read(n.inputs, env) == Some([Some(env[a])])
      && Apply(ops, n, [Some(env[a])]) == Some([Cast(env[a], BOOL)])
  {
    ReadOne(a, env, env[a]);
  }

  lemma {:induction false} PadRuns(ops: Operators, n: Node, a: string, b: string, c: string, out: string, env: Env,
          t: Tensor)
    requires a in env && b in env && c in env && a != "" && b != "" && c != "" && out != ""
    requires n.op == PAD && ConstantMode(n) && n.inputs == [a, b, c] && n.outputs == [out]
    requires ApplyPad([Some(env[a]), Some(env[b]), Some(env[c])]) == Some(t)
    ensures EvalNode(ops, n, env) == Some(env[out := t])
  {
    ReadThree(a, b, c, env);
    EvalSingle(ops, n, env, [Some(env[a]), Some(env[b]), Some(env[c])], t);
  }

  lemma {:induction false} EvalThree(ops: Operators, a: Node, b: Node, c: Node, env: Env, mid: Env, mid': Env)
    requires EvalNode(ops, a, env) == Some(mid) && EvalNode(ops, b, mid) == Some(mid')
    ensures EvalNodes(ops, [a, b, c], env) == EvalNode(ops, c, mid')
  {
    assert [a, b, c][1..] == [b, c];
    EvalTwo(ops, b, c, mid, mid');
  }

  lemma {:induction false} BoolApplies(ops: Operators, n: Node, index: nat, types: map<string, DType>, env: Env,
          env': Env, final: Env, constants: Env)
    returns (mid: Env, mid': Env, t: Tensor)
    requires Checked(n) && n.op == PAD && KnownBool(n, types) && Typed(n, types, final)
        && Floats(n, types) !! final.Keys
    requires BoolPadZero(index) in constants && IsZero(constants[BoolPadZero(index)]) && "" !in constants
    requires Floats(n, types) !! constants.Keys
    requires OnTheWay(ops, n, env, env', final, constants)
    ensures
      var block := CompatibleBlock(n, index, types);
      && |block| == 3 && block[2].outputs == n.outputs
      && EvalNode(ops, block[0], env') == Some(mid) && EvalNode(ops, block[1], mid) == Some(mid')
      && Extends(env, mid') && Extends(constants, mid') && Apply(ops, n, Read(n.inputs, env).value) == Some([t])
      && Read(block[2].inputs, mid').Some?
      && var r := Apply(ops, block[2], Read(block[2].inputs, mid').value);
         r.Some? && |r.value| == 1 && (r == Some([t]) <==> KeepsFill(n, types, final))
  {
    var floatInput, floatOutput, zero := n.inputs[0] + "__float", n.outputs[0] + "__float", BoolPadZero(index);
    assert floatInput in Floats(n, types) && floatOutput in Floats(n, types);
    var block := CompatibleBlock(n, index, types);
    var args := Read(n.inputs, env).value;
    PadSucceeds(ops, n, args);
    t := ApplyPad(args).value;
    BoolShape(n, index, types, args);
    var x, padded := BoolStep(n, types, args, env, final, constants[zero]);
    CastRuns(ops, n.inputs[0], floatInput, env', CAST_FLOAT);
    mid := env'[floatInput := Cast(x, FLOAT)];
    ExtraName(env, env', constants, floatInput, Cast(x, FLOAT));
    PadRuns(ops, block[1], floatInput, n.inputs[1], zero, floatOutput, mid, padded);
    mid' := mid[floatOutput := padded];
    ExtraName(env, mid, constants, floatOutput, padded);
    CastApplies(ops, floatOutput, n.outputs[0], mid');
  }

  lemma {:induction false} BoolShape(n: Node, index: nat, types: map<string, DType>, args: Arguments)
    requires Checked(n) && n.op == PAD && KnownBool(n, types)
    requires |args| == |n.inputs| <= 3 && |n.outputs| == 1
    ensures
      var floatInput, floatOutput, block :=
          n.inputs[0] + "__float", n.outputs[0] + "__float", CompatibleBlock(n, index, types);
      && |block| == 3
      && block[0] == Node(CAST, [n.inputs[0]], [floatInput], map[TO := Number(CAST_FLOAT)])
      && block[1] == n.(inputs := [floatInput, n.inputs[1], BoolPadZero(index)], outputs := [floatOutput])
      && block[2] == Node(CAST, [floatOutput], n.outputs, map[TO := Number(CAST_BOOL)])
  {
    assert FilledInputs(n, index)[0 := n.inputs[0] + "__float"][2 := BoolPadZero(index)]
        == [n.inputs[0] + "__float", n.inputs[1], BoolPadZero(index)];
    assert n.outputs == [n.outputs[0]];
  }

  lemma {:induction false} BoolStep(n: Node, types: map<string, DType>, args: Arguments, env: Env, final: Env,
          zero: Tensor)
    returns (x: Tensor, padded: Tensor)
    requires Checked(n) && n.op == PAD && KnownBool(n, types) && Typed(n, types, final) && Extends(env, final)
    requires Read(n.inputs, env) == Some(args) && ApplyPad(args).Some? && IsZero(zero)
    ensures args[0] == Some(x) && x == env[n.inputs[0]] && x.dtype == BOOL && args[1] == Some(env[n.inputs[1]])
    ensures n.inputs[0] != "" && n.inputs[0] in env && n.inputs[1] != "" && n.inputs[1] in env
    ensures ApplyPad([Some(Cast(x, FLOAT)), args[1], Some(zero)]) == Some(padded) && padded.dtype == FLOAT
    ensures Cast(padded, BOOL) == ApplyPad(args).value <==> KeepsFill(n, types, final)
  {
    x := args[0].value;
    BoolArguments(args, zero);
    padded := ApplyPad([Some(Cast(x, FLOAT)), args[1], Some(zero)]).value;
    FillIs(n, args, env, final);
  }

  /** The fill argument, by the input that gives it. */
  lemma {:induction false} FillIs(n: Node, args: Arguments, env: Env, final: Env)
    requires |n.inputs| >= 2 && Read(n.inputs, env) == Some(args) && Extends(env, final)
    ensures Present(args, 2) <==> !LacksFill(n)
    ensures Present(args, 2) ==> n.inputs[2] in final && args[2].value == final[n.inputs[2]]
  {
  }

  /** A bool Pad carried out in floats computes the Pad exactly when its fill is false or unused. */
  lemma {:induction false} BoolRefines(ops: Operators, n: Node, index: nat, types: map<string, DType>, final: Env,
          constants: Env)
    requires Checked(n) && n.op == PAD && KnownBool(n, types) && Typed(n, types, final)
        && Floats(n, types) !! final.Keys
    requires BoolPadZero(index) in constants && IsZero(constants[BoolPadZero(index)]) && "" !in constants
    requires Floats(n, types) !! constants.Keys && constants.Keys !! final.Keys
    ensures RefinesIff(ops, n, CompatibleBlock(n, index, types), final, constants, KeepsFill(n, types, final))
  {
    var block := CompatibleBlock(n, index, types);
    forall env, env' | OnTheWay(ops, n, env, env', final, constants)
      ensures Outcome(ops, n, block, env, env', final, constants, KeepsFill(n, types, final))
    {
      var mid, mid', t := BoolApplies(ops, n, index, types, env, env', final, constants);
      EvalThree(ops, block[0], block[1], block[2], env', mid, mid');
      Conclude(ops, n, block, block[2], env, env', mid', final, constants, t, KeepsFill(n, types, final));
    }
  }

  /** A Pad with an explicit float zero computes the Pad without a fill exactly when its data are floats. */
  lemma {:induction false} FillRefines(ops: Operators, n: Node, index: nat, types: map<string, DType>, final: Env,
          constants: Env)
    requires Checked(n) && n.op == PAD && !KnownBool(n, types) && LacksFill(n) && Typed(n, types, final)
    requires PadZero(index) in constants && IsZero(constants[PadZero(index)]) && "" !in constants
    requires constants.Keys !! final.Keys
    ensures RefinesIff(ops, n, CompatibleBlock(n, index, types), final, constants, KeepsFill(n, types, final))
  {
    var n' := n.(inputs := FilledInputs(n, index));
    var zero := PadZero(index);
    assert |n.inputs| <= 3 ==> FilledInputs(n, index) == [n.inputs[0], n.inputs[1], zero];
    forall env, env' | OnTheWay(ops, n, env, env', final, constants)
      ensures Outcome(ops, n, [n'], env, env', final, constants, KeepsFill(n, types, final))
    {
      var t := FillApplies(ops, n, n', types, env, env', final, zero);
      EvalNodesOne(ops, n', env');
      Conclude(ops, n, [n'], n', env, env', env', final, constants, t, KeepsFill(n, types, final));
    }
  }

  lemma {:induction false} FillApplies(ops: Operators, n: Node, n': Node, types: map<string, DType>, env: Env,
          env': Env, final: Env, zero: string)
    returns (t: Tensor)
    requires Checked(n) && n.op == PAD && LacksFill(n) && ConstantMode(n) && !KnownBool(n, types)
    requires zero in env' && zero != "" && IsZero(env'[zero])
    requires |n.inputs| <= 3 ==> n' == n.(inputs := [n.inputs[0], n.inputs[1], zero])
    requires Extends(env, env') && Extends(env, final) && EvalNode(ops, n, env).Some?
    ensures Apply(ops, n, Read(n.inputs, env).value) == Some([t]) && n'.outputs == n.outputs
    ensures Read(n'.inputs, env').Some?
    ensures var r := Apply(ops, n', Read(n'.inputs, env').value);
      (r.Some? ==> |r.value| == 1) && (r == Some([t]) <==> KeepsFill(n, types, final))
  {
    var args := Read(n.inputs, env).value;
    PadSucceeds(ops, n, args);
    t := ApplyPad(args).value;
    FillIs(n, args, env, final);
    FillArguments(args, env'[zero]);
    ReadThree(n.inputs[0], n.inputs[1], zero, env');
    PadGives(ops, n', [args[0], args[1], Some(env'[zero])]);
  }

  // ------------------------------------------------------------ the whole pass

  function CompatibleBlocks(nodes: seq<Node>, types: map<string, DType>): (r: seq<seq<Node>>)
    requires AllChecked(nodes)
    ensures |r| == |nodes| && forall i :: 0 <= i < |r| ==> r[i] == CompatibleBlock(nodes[i], i, types)
  {
    seq(|nodes|, i requires 0 <= i < |nodes| => CompatibleBlock(nodes[i], i, types))
  }

  lemma {:induction false} CompatibleNodesAreBlocks(nodes: seq<Node>, types: map<string, DType>)
    requires AllChecked(nodes)
    ensures CompatibleNodes(nodes, types) == Flatten(CompatibleBlocks(nodes, types))
  {
    if nodes != [] {
      var n := |nodes| - 1;
      CompatibleNodesAreBlocks(nodes[..n], types);
      FlattenAppend(CompatibleBlocks(nodes[..n], types), CompatibleBlock(nodes[n], n, types));
      assert CompatibleBlocks(nodes, types)
          == CompatibleBlocks(nodes[..n], types) + [CompatibleBlock(nodes[n], n, types)];
    }
  }

  ghost predicate IsFillName(m: string) {
    exists index: nat :: m == PadZero(index) || m == BoolPadZero(index)
  }

  predicate HasFills(values: Env, n: Node, index: nat, types: map<string, DType>)
    requires Checked(n)
  {
    n.op == PAD ==>
      (LacksFill(n) ==> PadZero(index) in values) && (KnownBool(n, types) ==> BoolPadZero(index) in values)
  }

  ghost predicate OnlyZeros(values: Env) {
    forall m :: m in values ==> IsFillName(m) && IsZero(values[m])
  }

  lemma {:induction false} AppendZeros(a: seq<Initializer>, b: seq<Initializer>)
    requires OnlyZeros(InitialValues(a)) && OnlyZeros(InitialValues(b))
    ensures OnlyZeros(InitialValues(a + b))
    ensures forall m :: m in InitialValues(a + b) <==> m in InitialValues(a) || m in InitialValues(b)
  {
    InitialAppend(a, b);
    var values := InitialValues(a + b);
    forall m | m in values ensures IsFillName(m) && IsZero(values[m]) {
      if m in InitialValues(b) {
        assert values[m] == InitialValues(b)[m];
      } else {
        assert values[m] == InitialValues(a)[m];
      }
    }
  }

  lemma {:induction false} SingleValue(name: string, t: Tensor)
    ensures InitialValues([Initializer(name, t)]) == map[name := t]
  {
    InitialSnoc([], Initializer(name, t));
    assert [] + [Initializer(name, t)] == [Initializer(name, t)];
  }

  /** One fill, if there is one. */
  function OptionalFill(present: bool, name: string): seq<Initializer> {
    if present then [Initializer(name, FromReal(0.0))] else []
  }

  lemma {:induction false} OptionalFillIsZero(present: bool, name: string)
    requires IsFillName(name)
    ensures OnlyZeros(InitialValues(OptionalFill(present, name)))
    ensures present ==> name in InitialValues(OptionalFill(present, name))
  {
    SingleValue(name, FromReal(0.0));
  }

  lemma {:induction false} FillItems(n: Node, index: nat, types: map<string, DType>)
    requires Checked(n)
    ensures OnlyZeros(InitialValues(CompatibleInitializers(n, index, types)))
    ensures HasFills(InitialValues(CompatibleInitializers(n, index, types)), n, index, types)
  {
    var a := OptionalFill(n.op == PAD && LacksFill(n), PadZero(index));
    var b := OptionalFill(n.op == PAD && KnownBool(n, types), BoolPadZero(index));
    assert CompatibleInitializers(n, index, types) == a + b;
    OptionalFillIsZero(n.op == PAD && LacksFill(n), PadZero(index));
    OptionalFillIsZero(n.op == PAD && KnownBool(n, types), BoolPadZero(index));
    AppendZeros(a, b);
  }

  /** The initializers of one more node keep the fills zero and present. */
  lemma {:induction false} MoreFills(earlier: seq<Initializer>, n: Node, index: nat, types: map<string, DType>)
    requires Checked(n) && OnlyZeros(InitialValues(earlier))
    ensures
      var own := CompatibleInitializers(n, index, types);
      && OnlyZeros(InitialValues(earlier + own)) && HasFills(InitialValues(earlier + own), n, index, types)
      && forall m :: m in InitialValues(earlier) ==> m in InitialValues(earlier + own)
  {
    FillItems(n, index, types);
    AppendZeros(earlier, CompatibleInitializers(n, index, types));
  }

  lemma {:induction false} MoreIsEnough(fewer: Env, more: Env, n: Node, index: nat, types: map<string, DType>)
    requires Checked(n) && HasFills(fewer, n, index, types) && forall m :: m in fewer ==> m in more
    ensures HasFills(more, n, index, types)
  {
  }

  /** Every generated fill is zero, so it does not matter which Pad a fill was generated for. */
  lemma {:induction false} FillsAreZero(nodes: seq<Node>, types: map<string, DType>, i: nat)
    requires AllChecked(nodes)
    ensures OnlyZeros(InitialValues(AllCompatibleInitializers(nodes, types)))
    ensures i < |nodes| ==> HasFills(InitialValues(AllCompatibleInitializers(nodes, types)), nodes[i], i, types)
  {
    if nodes != [] {
      var n := |nodes| - 1;
      var earlier := AllCompatibleInitializers(nodes[..n], types);
      FillsAreZero(nodes[..n], types, i);
      MoreFills(earlier, nodes[n], n, types);
      assert AllCompatibleInitializers(nodes, types) == earlier + CompatibleInitializers(nodes[n], n, types);
      if i < n {
        MoreIsEnough(InitialValues(earlier), InitialValues(AllCompatibleInitializers(nodes, types)), nodes[i], i,
                     types);
      }
    } else {
      assert InitialValues([]) == map[];
    }
  }

  lemma {:induction false} FillNameEnd(m: string, name: string)
    requires IsFillName(m)
    ensures m != "" && m != name + "__float"
  {
    var index: nat :| m == PadZero(index) || m == BoolPadZero(index);
    DecimalValue(index);
    var d, t := Decimal(index), name + "__float";
    assert m[|m| - 1] == d[|d| - 1];
    assert t[|t| - 1] == 't';
  }

  ghost function FillsKept(g: Graph, types: map<string, DType>, final: Env): (r: seq<bool>)
    requires AllChecked(g.nodes)
    ensures |r| == |g.nodes| && forall i :: 0 <= i < |r| ==> r[i] == KeepsFill(g.nodes[i], types, final)
  {
    seq(|g.nodes|, i requires 0 <= i < |g.nodes| => KeepsFill(g.nodes[i], types, final))
  }

  function FloatsOf(nodes: seq<Node>, types: map<string, DType>): (r: seq<set<string>>)
    requires AllChecked(nodes)
    ensures |r| == |nodes| && forall i :: 0 <= i < |r| ==> r[i] == Floats(nodes[i], types)
  {
    seq(|nodes|, i requires 0 <= i < |nodes| => Floats(nodes[i], types))
  }

  lemma {:induction false} CompatibleLays(n: Node, index: nat, types: map<string, DType>, taken: set<string>)
    requires Checked(n) && Written(n) <= taken && Floats(n, types) !! taken
    ensures Lays(n, CompatibleBlock(n, index, types), Floats(n, types))
    ensures SingleAssignment(CompatibleBlock(n, index, types), {}) <==>
            (n.op == PAD && KnownBool(n, types) ==> n.inputs[0] != n.outputs[0])
  {
    var block := CompatibleBlock(n, index, types);
    if n.op == PAD && KnownBool(n, types) {
      assert n.inputs[0] + "__float" in Floats(n, types) && n.outputs[0] + "__float" in Floats(n, types);
      assert n.outputs == [n.outputs[0]] && n.outputs[0] in Written(n);
      TripleLays(n, block[0], block[1], block[2], n.inputs[0] + "__float", n.outputs[0] + "__float");
      if n.inputs[0] + "__float" == n.outputs[0] + "__float" {
        SameTail(n.inputs[0], n.outputs[0], "__float");
      }
    } else {
      SingleLays(n, block[0]);
    }
  }

  lemma {:induction false} TripleLays(n: Node, a: Node, b: Node, c: Node, s: string, t: string)
    requires a.outputs == [s] && b.outputs == [t] && s != "" && t != "" && c.outputs == n.outputs
    requires s !in Written(n) && t !in Written(n)
    ensures Lays(n, [a, b, c], {s, t}) && (SingleAssignment([a, b, c], {}) <==> s != t)
  {
    assert [a, b, c][1..] == [b, c] && [b, c][1..] == [c];
    assert Written(a) == {s} && Written(b) == {t} && Written(c) == Written(n);
    assert WrittenAll([c]) == Written(c) && WrittenAll([b, c]) == {t} + Written(c);
    assert {} + {s} == {s} && {s} + {t} == {s, t};
    assert SingleAssignment([c], {s, t}) && (SingleAssignment([b, c], {s}) <==> s != t);
  }

  /** The blocks of the pass bring new names only. */
  lemma {:induction false} CompatibleLaid(g: Graph, types: map<string, DType>, taken: set<string>, defined: set<string>)
    requires AllChecked(g.nodes)
    requires forall i :: 0 <= i < |g.nodes| ==> Written(g.nodes[i]) <= taken && Written(g.nodes[i]) !! defined
    requires forall i :: 0 <= i < |g.nodes| ==>
        Floats(g.nodes[i], types) !! taken && Floats(g.nodes[i], types) !! defined
    ensures Laid(g.nodes, CompatibleBlocks(g.nodes, types), FloatsOf(g.nodes, types), taken, defined)
  {
    forall i: nat | i < |g.nodes|
      ensures Lays(g.nodes[i], CompatibleBlocks(g.nodes, types)[i], FloatsOf(g.nodes, types)[i])
    {
      CompatibleLays(g.nodes[i], i, types, taken);
    }
  }

  lemma {:induction false} LaterCompatibleApart(g: Graph, types: map<string, DType>, taken: set<string>,
          defined: set<string>)
    requires AllChecked(g.nodes) && SingleAssignment(g.nodes, defined) && defined <= taken
    requires forall i :: 0 <= i < |g.nodes| ==> Written(g.nodes[i]) <= taken && Floats(g.nodes[i], types) !! taken
    ensures forall i, k :: 0 <= i < k < |g.nodes| ==>
        Written(g.nodes[i]) !! WrittenAll(CompatibleBlocks(g.nodes, types)[k])
  {
    SingleApart(g.nodes, defined);
    CompatibleLaid(g, types, taken, defined);
    forall i: nat, k: nat | i < k < |g.nodes|
      ensures Written(g.nodes[i]) !! WrittenAll(CompatibleBlocks(g.nodes, types)[k])
    {
      LaterWrites(g.nodes, CompatibleBlocks(g.nodes, types), FloatsOf(g.nodes, types), taken, defined, i, k);
    }
  }

  lemma {:induction false} CompatibleRefines(ops: Operators, n: Node, index: nat, types: map<string, DType>,
          final: Env, constants: Env)
    requires Checked(n) && Typed(n, types, final) && Floats(n, types) !! final.Keys
    requires constants.Keys !! final.Keys && Written(n) <= final.Keys
    requires OnlyZeros(constants) && HasFills(constants, n, index, types)
    ensures RefinesIff(ops, n, CompatibleBlock(n, index, types), final, constants, KeepsFill(n, types, final))
  {
    forall m, name: string | m in constants ensures m != "" && m != name + "__float" {
      FillNameEnd(m, name);
    }
    if n.op == PAD && KnownBool(n, types) {
      BoolRefines(ops, n, index, types, final, constants);
    } else if n.op == PAD && LacksFill(n) {
      FillRefines(ops, n, index, types, final, constants);
    } else {
      assert CompatibleBlock(n, index, types) == [n];
      SelfRefines(ops, n, final, constants);
    }
  }

  /** The run of the blocks, once the starting environments are known. */
  lemma {:induction false} CompatibleRun(ops: Operators, g: Graph, types: map<string, DType>, env: Env, env': Env,
          final: Env, constants: Env)
    requires AllChecked(g.nodes) && EvalNodes(ops, g.nodes, env) == Some(final)
    requires SingleAssignment(g.nodes, env.Keys) && "" !in env && env.Keys <= final.Keys
    requires Completable(g, types, final) && Extends(env, env') && Extends(constants, env')
    requires constants.Keys !! final.Keys && constants == InitialValues(AllCompatibleInitializers(g.nodes, types))
    requires forall i :: 0 <= i < |g.nodes| ==> Written(g.nodes[i]) <= final.Keys
    ensures var r := EvalNodes(ops, Flatten(CompatibleBlocks(g.nodes, types)), env');
      (r.Some? && Extends(final, r.value)) <==> KeepsFills(g, types, final)
  {
    AllCompatibleRefine(ops, g, types, final, constants);
    LaterCompatibleApart(g, types, final.Keys, env.Keys);
    AllFillsKept(g, types, final);
    Simulation(ops, g.nodes, CompatibleBlocks(g.nodes, types), FillsKept(g, types, final), env, env', final, constants);
  }

  lemma {:induction false} AllCompatibleRefine(ops: Operators, g: Graph, types: map<string, DType>, final: Env,
          constants: Env)
    requires AllChecked(g.nodes) && Completable(g, types, final)
    requires constants.Keys !! final.Keys && constants == InitialValues(AllCompatibleInitializers(g.nodes, types))
    requires forall i :: 0 <= i < |g.nodes| ==> Written(g.nodes[i]) <= final.Keys
    ensures forall i :: 0 <= i < |g.nodes| ==>
      RefinesIff(ops, g.nodes[i], CompatibleBlocks(g.nodes, types)[i], final, constants, FillsKept(g, types, final)[i])
  {
    var blocks, kept := CompatibleBlocks(g.nodes, types), FillsKept(g, types, final);
    forall i: nat | i < |g.nodes| ensures RefinesIff(ops, g.nodes[i], blocks[i], final, constants, kept[i]) {
      FillsAreZero(g.nodes, types, i);
      CompatibleRefines(ops, g.nodes[i], i, types, final, constants);
    }
  }

  lemma {:induction false} AllFillsKept(g: Graph, types: map<string, DType>, final: Env)
    requires AllChecked(g.nodes)
    ensures (forall i :: 0 <= i < |g.nodes| ==> FillsKept(g, types, final)[i]) <==> KeepsFills(g, types, final)
  {
    var kept := FillsKept(g, types, final);
    if KeepsFills(g, types, final) {
      forall i: nat | i < |g.nodes| ensures kept[i] {
        assert KeepsFill(g.nodes[i], types, final);
      }
    }
    if forall i :: 0 <= i < |g.nodes| ==> kept[i] {
      forall i: nat | i < |g.nodes| ensures KeepsFill(g.nodes[i], types, final) {
        assert kept[i];
      }
    }
  }

  /** Making fills explicit and carrying out bool Pads in floats keeps every tensor of a run exactly when the Pads
      that get a fill are float Pads and the bool Pads had a false fill, none, or nothing to fill. */
  lemma {:induction false} CompatiblePreserves(ops: Operators, g: Graph, types: map<string, DType>, inputs: Env,
          final: Env)
    requires AllChecked(g.nodes) && Evaluate(ops, g, inputs) == Some(final)
    requires SingleAssignment(g.nodes, (inputs + InitialValues(g.initializers)).Keys)
    requires "" !in inputs && "" !in InitialValues(g.initializers)
    requires Completable(g, types, final)
    ensures var r := Evaluate(ops, Compatible(g, types), inputs);
      (r.Some? && Extends(final, r.value)) <==> KeepsFills(g, types, final)
  {
    var generated := AllCompatibleInitializers(g.nodes, types);
    RunFacts(ops, g, inputs, final);
    FillsAreZero(g.nodes, types, |g.nodes|);
    assert InitialValues(generated).Keys !! final.Keys;
    StartingEnvironments(inputs, g.initializers, generated);
    CompatibleNodesAreBlocks(g.nodes, types);
    CompatibleRun(ops, g, types, inputs + InitialValues(g.initializers),
                  inputs + InitialValues(g.initializers + generated),
                  final, InitialValues(generated));
  }
}
