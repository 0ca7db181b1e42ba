/** Each rewritten node computes what the original node computed, and the whole pipeline therefore
    computes what the original graph computed. */
module PassProofs {
  import opened Wrappers
  import opened Tensors
  import opened TensorRewrites
  import opened Names
  import opened Graphs
  import opened Passes

  // ------------------------------------------------------------ one node

  /** Evaluation of a node with a single, concretely known output. */
  lemma {:induction false} EvalSingle(ops: Operators, n: Node, env: Env, args: Arguments, t: Tensor)
    requires Read(n.inputs, env) == Some(args) && Apply(ops, n, args) == Some([t])
    requires |n.outputs| == 1 && n.outputs[0] != ""
    ensures EvalNode(ops, n, env) == Some(env[n.outputs[0] := t])
  {
    assert Bind(env[n.outputs[0] := t], n.outputs[1..], [t][1..]) == env[n.outputs[0] := t];
  }

  lemma {:induction false} EvalTwo(ops: Operators, a: Node, b: Node, env: Env, mid: Env)
    requires EvalNode(ops, a, env) == Some(mid)
    ensures EvalNodes(ops, [a, b], env) == EvalNode(ops, b, mid)
  {
    assert [a, b][1..] == [b];
    EvalNodesOne(ops, b, mid);
  }

  /** Writing a name that the original graph does not have loses nothing. */
  lemma {:induction false} ExtraName(env: Env, env': Env, constants: Env, name: string, t: Tensor)
    requires Extends(env, env') && Extends(constants, env') && name !in env && name !in constants
    ensures Extends(env, env'[name := t]) && Extends(constants, env'[name := t])
  {
  }

  /** The last node of a block writes the original outputs over a larger environment. */
  lemma {:induction false} Finish(ops: Operators, n: Node, last: Node, env: Env, env': Env, final: Env, constants: Env)
    requires Extends(env, env') && Extends(constants, env') && constants.Keys !! final.Keys && "" !in constants
    requires EvalNode(ops, n, env).Some? && Extends(EvalNode(ops, n, env).value, final)
    requires last.outputs == n.outputs
    requires Read(last.inputs, env').Some?
    requires Apply(ops, last, Read(last.inputs, env').value) == Apply(ops, n, Read(n.inputs, env).value)
    ensures EvalNode(ops, last, env').Some?
    ensures Extends(EvalNode(ops, n, env).value, EvalNode(ops, last, env').value)
    ensures Extends(constants, EvalNode(ops, last, env').value)
  {
    var values := Apply(ops, n, Read(n.inputs, env).value).value;
    BindExtends(env, env', n.outputs, values);
    BindKeys(env, n.outputs, values);
    BindKeys(env', n.outputs, values);
    assert forall m :: m in constants ==> m !in n.outputs by {
      assert EvalNode(ops, n, env).value.Keys <= final.Keys;
    }
  }

  /** The last node of a block computes another tensor, or none, for the only output. */
  lemma {:induction false} FinishLoses(ops: Operators, n: Node, last: Node, env: Env, env': Env, final: Env, t: Tensor)
    requires EvalNode(ops, n, env).Some? && Extends(EvalNode(ops, n, env).value, final)
    requires Apply(ops, n, Read(n.inputs, env).value) == Some([t]) && n.outputs != [] && n.outputs[0] != ""
    requires last.outputs == n.outputs && Read(last.inputs, env').Some?
    requires var r := Apply(ops, last, Read(last.inputs, env').value); r.Some? ==> |r.value| == 1 && r.value[0] != t
    ensures EvalNode(ops, last, env').None? || Loses(n, final, EvalNode(ops, last, env').value)
  {
    var o := n.outputs[0];
    EvalSingle(ops, n, env, Read(n.inputs, env).value, t);
    assert o in Written(n) && final[o] == t;
    var r := Apply(ops, last, Read(last.inputs, env').value);
    if r.Some? {
      assert r.value == [r.value[0]];
      EvalSingle(ops, last, env', Read(last.inputs, env').value, r.value[0]);
    }
  }

  lemma {:induction false} EinsumApplies(ops: Operators, n: Node, env: Env, env': Env, final: Env, constants: Env)
    returns (mid: Env)
    requires Checked(n) && IsEinsumOuter(n)
    requires var expanded := n.outputs[0] + "__expanded"; expanded !in final && expanded !in constants
    requires Extends(env, env') && Extends(constants, env') && Extends(env, final) && EvalNode(ops, n, env).Some?
    ensures
      var block := EinsumBlock(n);
      && EvalNode(ops, block[0], env') == Some(mid) && Extends(env, mid) && Extends(constants, mid)
      && Read(block[1].inputs, mid).Some?
      && Apply(ops, block[1], Read(block[1].inputs, mid).value) == Apply(ops, n, Read(n.inputs, env).value)
  {
    var expanded := n.outputs[0] + "__expanded";
    var x, w, u := EinsumInputs(ops, n, env);
    UnsqueezeRuns(ops, n.inputs[0], expanded, env', u);
    mid := env'[expanded := u];
    ExtraName(env, env', constants, expanded, u);
    MulReads(ops, expanded, n.inputs[1], n.outputs, mid, u, w);
  }

  lemma {:induction false} MulReads(ops: Operators, a: string, b: string, outputs: seq<string>, env: Env, u: Tensor,
          w: Tensor)
    requires a != "" && a in env && env[a] == u && b != "" && b in env && env[b] == w
    ensures var n := Node(MUL, [a, b], outputs, map[]);
      Read(n.inputs, env).Some? && Apply(ops, n, Read(n.inputs, env).value) == One(Mul(ops.times, u, w))
  {
    ReadTwo(a, b, env, u, w);
  }

  lemma {:induction false} EinsumInputs(ops: Operators, n: Node, env: Env) returns (x: Tensor, w: Tensor, u: Tensor)
    requires Checked(n) && IsEinsumOuter(n) && EvalNode(ops, n, env).Some?
    ensures |n.inputs| == 2 && n.inputs[0] != "" && n.inputs[1] != "" && n.inputs[0] in env && n.inputs[1] in env
    ensures x == env[n.inputs[0]] && w == env[n.inputs[1]] && UnsqueezeBeforeLast(x) == Some(u)
    ensures var product := Mul(ops.times, u, w);
      product.Some? && Read(n.inputs, env).Some? && Apply(ops, n, Read(n.inputs, env).value) == Some([product.value])
  {
    var args := Read(n.inputs, env).value;
    EinsumSucceeds(ops, n, args);
    x, w := args[0].value, args[1].value;
    u := UnsqueezeBeforeLast(x).value;
  }

  lemma {:induction false} EinsumSucceeds(ops: Operators, n: Node, args: Arguments)
    requires IsEinsumOuter(n) && Apply(ops, n, args).Some?
    ensures |args| == 2 && args[0].Some? && args[1].Some? && UnsqueezeBeforeLast(args[0].value).Some?
    ensures var product := Mul(ops.times, UnsqueezeBeforeLast(args[0].value).value, args[1].value);
      product.Some? && Apply(ops, n, args) == Some([product.value])
  {
    UnsqueezeMulIsEinsum(ops.times, args[0].value, args[1].value);
  }

  lemma {:induction false} UnsqueezeRuns(ops: Operators, a: string, out: string, env: Env, u: Tensor)
    requires a in env && a != "" && out != "" && UnsqueezeBeforeLast(env[a]) == Some(u)
    ensures EvalNode(ops, Node(UNSQUEEZE, [a], [out], map[AXES := Numbers([-2])]), env) == Some(env[out := u])
  {
    ReadOne(a, env, env[a]);
    EvalSingle(ops, Node(UNSQUEEZE, [a], [out], map[AXES := Numbers([-2])]), env, [Some(env[a])], u);
  }

  lemma {:induction false} ReadOne(a: string, env: Env, x: Tensor)
    requires a != "" && a in env && env[a] == x
    ensures Read([a], env) == Some([Some(x)])
  {
    assert Read([a], env).value == [Some(x)];
  }

  lemma {:induction false} ReadTwo(a: string, b: string, env: Env, x: Tensor, y: Tensor)
    requires a != "" && a in env && env[a] == x && b != "" && b in env && env[b] == y
    ensures Read([a, b], env) == Some([Some(x), Some(y)])
  {
    assert Read([a, b], env).value == [Some(x), Some(y)];
  }

  lemma {:induction false} EinsumRefines(ops: Operators, n: Node, final: Env, constants: Env)
    requires Checked(n) && IsEinsumOuter(n) && constants.Keys !! final.Keys && "" !in constants
    requires var expanded := n.outputs[0] + "__expanded"; expanded !in final && expanded !in constants
    ensures RefinesIff(ops, n, EinsumBlock(n), final, constants, true)
  {
    var block := EinsumBlock(n);
    forall env, env' | OnTheWay(ops, n, env, env', final, constants)
      ensures Outcome(ops, n, block, env, env', final, constants, true)
    {
      var mid := EinsumApplies(ops, n, env, env', final, constants);
      EvalTwo(ops, block[0], block[1], env', mid);
      Finish(ops, n, block[1], env, mid, final, constants);
    }
  }

  ghost predicate IsVector(t: Tensor, v: seq<int>) {
    t.dtype == INT64 && t.Rank() == 1 && IntVector(t) == v
  }

  /** The crop parameters and the positive pads of one split Pad are among the constants. */
  ghost predicate HoldsParameters(constants: Env, names: seq<string>, pads: seq<int>) {
    && |names| == |PARTS| && Bound(names, constants)
    && forall k {:trigger HoldsPart(constants, names[k], pads, PARTS[k])} :: 0 <= k < |PARTS| ==>
        HoldsPart(constants, names[k], pads, PARTS[k])
  }

  ghost predicate Bound(names: seq<string>, env: Env) {
    forall k :: 0 <= k < |names| ==> names[k] != "" && names[k] in env
  }

  ghost predicate HoldsPart(constants: Env, name: string, pads: seq<int>, part: Part) {
    name in constants && IsVector(constants[name], GeneratedInts(pads, part))
  }

  lemma {:induction false} PositiveHalves(pads: seq<int>)
    requires |pads| == 2 * PadRank(pads)
    ensures Positives(pads)[..PadRank(pads)] == Positives(Before(pads))
    ensures Positives(pads)[PadRank(pads)..] == Positives(After(pads))
    ensures pads[..PadRank(pads)] == Before(pads) && pads[PadRank(pads)..] == After(pads)
  {
  }

  lemma {:induction false} SliceApplies(x: Tensor, s: Tensor, e: Tensor, a: Tensor, st: Tensor)
    requires IsIntVector(s) && IsIntVector(e) && IsIntVector(a) && IsIntVector(st)
    ensures ApplySlice([Some(x), Some(s), Some(e), Some(a), Some(st)])
            == Slice(x, IntVector(s), IntVector(e), IntVector(a), IntVector(st))
  {
    var args := [Some(x), Some(s), Some(e), Some(a), Some(st)];
    assert |args| == 5 && Present(args, 3) && Present(args, 4);
    assert forall k :: 1 <= k < |args| ==> args[k].Some? && IsIntVector(args[k].value);
  }

  /** Replacing the data and the pads of a Pad leaves its fill alone. */
  lemma {:induction false} PadApplies(args: Arguments, data: Tensor, pads: Tensor, fill: real)
    requires ApplyPad(args).Some? && FillOf(args) == Some(fill)
    requires IsIntVector(pads) && data.dtype == args[0].value.dtype && |IntVector(pads)| == 2 * data.Rank()
    ensures ApplyPad(args[0 := Some(data)][1 := Some(pads)])
            == Pad(data, IntVector(pads)[..data.Rank()], IntVector(pads)[data.Rank()..], fill)
  {
    var args' := args[0 := Some(data)][1 := Some(pads)];
    assert Present(args', 2) <==> Present(args, 2);
    assert FillOf(args') == FillOf(args);
  }

  lemma {:induction false} SplitTensor(x: Tensor, pads: seq<int>, fill: real)
    requires |pads| == 2 * x.Rank() && (x.dtype == BOOL ==> IsBit(fill))
    requires Pad(x, pads[..x.Rank()], pads[x.Rank()..], fill).Some?
    ensures
      var c := CropsOf(pads);
      var slice := Slice(x, c.starts, c.ends, c.axes, Ones(|c.axes|));
      && slice.Some? && slice.value.dtype == x.dtype && slice.value.Rank() == x.Rank()
      && ((Pad(slice.value, Positives(pads)[..x.Rank()], Positives(pads)[x.Rank()..], fill)
           == Pad(x, pads[..x.Rank()], pads[x.Rank()..], fill)) <==> CropFits(x.shape, Before(pads), After(pads)))
  {
    PositiveHalves(pads);
    CropSlice(x, Before(pads), After(pads));
    CropThenPadIsPad(x, Before(pads), After(pads), fill);
  }

  lemma {:induction false} PadParts(args: Arguments) returns (x: Tensor, pads: seq<int>, fill: real)
    requires ApplyPad(args).Some?
    ensures |args| >= 2 && args[0] == Some(x) && args[1].Some? && pads == IntVector(args[1].value)
    ensures FillOf(args) == Some(fill) && (x.dtype == BOOL ==> IsBit(fill))
    ensures |pads| == 2 * x.Rank() && PadRank(pads) == x.Rank()
    ensures ApplyPad(args) == Pad(x, pads[..x.Rank()], pads[x.Rank()..], fill)
  {
    x, pads, fill := args[0].value, IntVector(args[1].value), FillOf(args).value;
  }

  lemma {:induction false} SplitArguments(args: Arguments, pads: seq<int>, s: Tensor, e: Tensor, a: Tensor,
          st: Tensor, p: Tensor)
    requires ApplyPad(args).Some? && pads == IntVector(args[1].value)
    requires IsVector(s, CropsOf(pads).starts) && IsVector(e, CropsOf(pads).ends) && IsVector(a, CropsOf(pads).axes)
    requires IsVector(st, Ones(|CropsOf(pads).axes|)) && IsVector(p, Positives(pads))
    ensures
      var slice := ApplySlice([args[0], Some(s), Some(e), Some(a), Some(st)]);
      && slice.Some? && args[0].value.Rank() == PadRank(pads)
      && (ApplyPad(args[0 := slice][1 := Some(p)]) == ApplyPad(args) <==>
          CropFits(args[0].value.shape, Before(pads), After(pads)))
  {
    var x, pads', fill := PadParts(args);
    SplitTensor(x, pads, fill);
    SliceApplies(x, s, e, a, st);
    PadApplies(args, ApplySlice([args[0], Some(s), Some(e), Some(a), Some(st)]).value, p, fill);
  }

  /** The crops of a Pad fit the data that it reads in the run `final`. */
  ghost predicate CropsHold(n: Node, pads: seq<int>, final: Env)
    requires |n.inputs| >= 2
  {
    n.inputs[0] in final && final[n.inputs[0]].Rank() == PadRank(pads) ==>
      CropFits(final[n.inputs[0]].shape, Before(pads), After(pads))
  }

  /** A split Pad computes what the Pad computes when the crops fit the data, and something else when not. */
  lemma {:induction false} SplitRefines(ops: Operators, n: Node, names: seq<string>, pads: seq<int>, final: Env,
          constants: Env)
    requires Checked(n) && n.op == PAD && ConstantMode(n)
    requires n.inputs[1] in final && n.inputs[1] != "" ==> IntVector(final[n.inputs[1]]) == pads
    requires constants.Keys !! final.Keys && "" !in constants
    requires HoldsParameters(constants, names, pads)
    requires var cropped := n.inputs[0] + "__cropped"; cropped !in final && cropped !in constants
    ensures RefinesIff(ops, n, SplitPad(n, names), final, constants, CropsHold(n, pads, final))
  {
    var block := SplitPad(n, names);
    forall env, env' | OnTheWay(ops, n, env, env', final, constants)
      ensures Outcome(ops, n, block, env, env', final, constants, CropsHold(n, pads, final))
    {
      var mid, t := SplitApplies(ops, n, names, pads, env, env', final, constants);
      EvalTwo(ops, block[0], block[1], env', mid);
      Conclude(ops, n, block, block[1], env, env', mid, final, constants, t, CropsHold(n, pads, final));
    }
  }

  /** A block whose last node computes the tensor of the original node exactly when `good`. */
  lemma {:induction false} Conclude(ops: Operators, n: Node, block: seq<Node>, last: Node, env: Env, env': Env,
          mid: Env, final: Env, constants: Env, t: Tensor, good: bool)
    requires EvalNodes(ops, block, env') == EvalNode(ops, last, mid)
    requires Extends(env, mid) && Extends(constants, mid) && constants.Keys !! final.Keys && "" !in constants
    requires EvalNode(ops, n, env).Some? && Extends(EvalNode(ops, n, env).value, final)
    requires Apply(ops, n, Read(n.inputs, env).value) == Some([t]) && n.outputs != [] && n.outputs[0] != ""
    requires last.outputs == n.outputs && Read(last.inputs, mid).Some?
    requires var r := Apply(ops, last, Read(last.inputs, mid).value);
      (r.Some? ==> |r.value| == 1) && (r == Some([t]) <==> good)
    ensures Outcome(ops, n, block, env, env', final, constants, good)
  {
    if good {
      Finish(ops, n, last, env, mid, final, constants);
    } else {
      var r := Apply(ops, last, Read(last.inputs, mid).value);
      assert r.Some? ==> r.value == [r.value[0]];
      FinishLoses(ops, n, last, env, mid, final, t);
    }
  }

  lemma {:induction false} SplitApplies(ops: Operators, n: Node, names: seq<string>, pads: seq<int>, env: Env,
          env': Env, final: Env, constants: Env)
    returns (mid: Env, t: Tensor)
    requires Checked(n) && n.op == PAD && ConstantMode(n)
    requires n.inputs[1] in final && n.inputs[1] != "" ==> IntVector(final[n.inputs[1]]) == pads
    requires HoldsParameters(constants, names, pads)
    requires var cropped := n.inputs[0] + "__cropped"; cropped !in final && cropped !in constants
    requires Extends(env, env') && Extends(constants, env') && Extends(env, final) && EvalNode(ops, n, env).Some?
    ensures
      var block := SplitPad(n, names);
      && EvalNode(ops, block[0], env') == Some(mid) && Extends(env, mid) && Extends(constants, mid)
      && Read(block[1].inputs, mid).Some? && Apply(ops, n, Read(n.inputs, env).value) == Some([t])
      && var r := Apply(ops, block[1], Read(block[1].inputs, mid).value);
         (r.Some? ==> |r.value| == 1) && (r == Some([t]) <==> CropsHold(n, pads, final))
  {
    var block, cropped := SplitPad(n, names), n.inputs[0] + "__cropped";
    var args := SplitInputs(ops, n, pads, env, final);
    var sliceArgs, slice := SliceStep(args, names, pads, constants);
    HeldVectors(constants, names, pads);
    SliceRuns(ops, n.inputs[0], names[0], names[1], names[2], names[3], cropped, env', slice);
    mid := env'[cropped := slice];
    ExtraName(env, env', constants, cropped, slice);
    ReadReplaced(n.inputs, env, mid, cropped, names[4]);
    PadSucceeds(ops, n, args);
    t := ApplyPad(args).value;
    PadGives(ops, block[1], args[0 := Some(slice)][1 := Some(constants[names[4]])]);
  }

  /** The arguments of a Pad that may be split. */
  lemma {:induction false} SplitInputs(ops: Operators, n: Node, pads: seq<int>, env: Env, final: Env)
    returns (args: Arguments)
    requires n.op == PAD && |n.inputs| >= 2 && ConstantMode(n)
    requires n.inputs[1] in final && n.inputs[1] != "" ==> IntVector(final[n.inputs[1]]) == pads
    requires Extends(env, final) && EvalNode(ops, n, env).Some?
    ensures Read(n.inputs, env) == Some(args) && ApplyPad(args).Some? && pads == IntVector(args[1].value)
    ensures n.inputs[0] != "" && n.inputs[0] in env && args[0] == Some(env[n.inputs[0]])
  {
    args := Read(n.inputs, env).value;
    PadSucceeds(ops, n, args);
  }

  lemma {:induction false} PadGives(ops: Operators, n: Node, args: Arguments)
    requires n.op == PAD && ConstantMode(n)
    ensures Apply(ops, n, args) == if ApplyPad(args).Some? then Some([ApplyPad(args).value]) else None
  {
  }

  lemma {:induction false} PadSucceeds(ops: Operators, n: Node, args: Arguments)
    requires n.op == PAD && ConstantMode(n) && Apply(ops, n, args).Some?
    ensures ApplyPad(args).Some? && Apply(ops, n, args) == Some([ApplyPad(args).value])
  {
  }

  lemma {:induction false} SliceStep(args: Arguments, names: seq<string>, pads: seq<int>, constants: Env)
    returns (sliceArgs: Arguments, t: Tensor)
    requires ApplyPad(args).Some? && pads == IntVector(args[1].value)
    requires HoldsParameters(constants, names, pads)
    ensures sliceArgs == [args[0], Some(constants[names[0]]), Some(constants[names[1]]), Some(constants[names[2]]),
                          Some(constants[names[3]])]
    ensures ApplySlice(sliceArgs) == Some(t) && args[0].value.Rank() == PadRank(pads)
    ensures (ApplyPad(args[0 := Some(t)][1 := Some(constants[names[4]])]) == ApplyPad(args)) <==>
            CropFits(args[0].value.shape, Before(pads), After(pads))
  {
    HeldVectors(constants, names, pads);
    var s, e, a, st, p := constants[names[0]], constants[names[1]], constants[names[2]], constants[names[3]],
        constants[names[4]];
    SplitArguments(args, pads, s, e, a, st, p);
    sliceArgs := [args[0], Some(s), Some(e), Some(a), Some(st)];
    t := ApplySlice(sliceArgs).value;
  }

  lemma {:induction false} HeldVectors(constants: Env, names: seq<string>, pads: seq<int>)
    requires HoldsParameters(constants, names, pads)
    ensures names[0] in constants && names[1] in constants && names[2] in constants && names[3] in constants
        && names[4] in constants
    ensures names[0] != "" && names[1] != "" && names[2] != "" && names[3] != "" && names[4] != ""
    ensures
      var c := CropsOf(pads);
      && IsVector(constants[names[0]], c.starts) && IsVector(constants[names[1]], c.ends)
      && IsVector(constants[names[2]], c.axes) && IsVector(constants[names[3]], Ones(|c.axes|))
      && IsVector(constants[names[4]], Positives(pads))
  {
    assert PARTS[0] == CROP_STARTS && PARTS[1] == CROP_ENDS && PARTS[2] == CROP_AXES && PARTS[3] == CROP_STEPS
      && PARTS[4] == POSITIVE_PADS;
    assert HoldsPart(constants, names[0], pads, PARTS[0]) && HoldsPart(constants, names[1], pads, PARTS[1]);
    assert HoldsPart(constants, names[2], pads, PARTS[2]) && HoldsPart(constants, names[3], pads, PARTS[3]);
    assert HoldsPart(constants, names[4], pads, PARTS[4]);
  }

  lemma {:induction false} ReadFive(a: string, b: string, c: string, d: string, e: string, env: Env)
    requires a in env && b in env && c in env && d in env && e in env
    requires a != "" && b != "" && c != "" && d != "" && e != ""
    ensures Read([a, b, c, d, e], env) == Some([Some(env[a]), Some(env[b]), Some(env[c]), Some(env[d]), Some(env[e])])
  {
    assert Read([a, b, c, d, e], env).value == [Some(env[a]), Some(env[b]), Some(env[c]), Some(env[d]), Some(env[e])];
  }

  lemma {:induction false} SliceRuns(ops: Operators, a: string, b: string, c: string, d: string, e: string,
          out: string, env: Env, t: Tensor)
    requires a in env && b in env && c in env && d in env && e in env && out != ""
    requires a != "" && b != "" && c != "" && d != "" && e != ""
    requires ApplySlice([Some(env[a]), Some(env[b]), Some(env[c]), Some(env[d]), Some(env[e])]) == Some(t)
    ensures EvalNode(ops, Node(SLICE, [a, b, c, d, e], [out], map[]), env) == Some(env[out := t])
  {
    ReadFive(a, b, c, d, e, env);
    EvalSingle(ops, Node(SLICE, [a, b, c, d, e], [out], map[]), env,
               [Some(env[a]), Some(env[b]), Some(env[c]), Some(env[d]), Some(env[e])], t);
  }

  /** Reading inputs of which the first two were renamed. */
  lemma {:induction false} ReadReplaced(names: seq<string>, env: Env, mid: Env, first: string, second: string)
    requires |names| >= 2 && Read(names, env).Some? && Extends(env, mid)
    requires first in mid && first != "" && second in mid && second != ""
    ensures Read(names[0 := first][1 := second], mid)
            == Some(Read(names, env).value[0 := Some(mid[first])][1 := Some(mid[second])])
  {
    var renamed := names[0 := first][1 := second];
    assert Read(renamed, mid).Some?;
    assert Read(renamed, mid).value == Read(names, env).value[0 := Some(mid[first])][1 := Some(mid[second])];
  }

  // ------------------------------------------------------------ Concat

  function KeepMask(names: seq<string>, empty: set<string>): (r: seq<bool>)
    ensures |r| == |names| && forall k :: 0 <= k < |names| ==> (r[k] <==> names[k] !in empty)
  {
    seq(|names|, k requires 0 <= k < |names| => names[k] !in empty)
  }

  function Lookups(names: seq<string>, env: Env): (r: seq<Tensor>)
    requires forall m :: m in names ==> m in env
    ensures |r| == |names| && forall k :: 0 <= k < |names| ==> r[k] == env[names[k]]
  {
    seq(|names|, k requires 0 <= k < |names| => env[names[k]])
  }

  lemma {:induction false} KeptAppend(ts: seq<Tensor>, keep: seq<bool>, t: Tensor, k: bool)
    requires |ts| == |keep|
    ensures Kept(ts + [t], keep + [k]) == Kept(ts, keep) + if k then [t] else []
  {
    if ts == [] {
      assert (ts + [t])[1..] == [] && (keep + [k])[1..] == [];
    } else {
      KeptAppend(ts[1..], keep[1..], t, k);
      KeptFirst(ts + [t], keep + [k], ts[1..] + [t], keep[1..] + [k]);
    }
  }

  lemma {:induction false} KeptFirst(ts: seq<Tensor>, keep: seq<bool>, rest: seq<Tensor>, restKeep: seq<bool>)
    requires ts != [] && |ts| == |keep| && ts[1..] == rest && keep[1..] == restKeep
    ensures Kept(ts, keep) == (if keep[0] then [ts[0]] else []) + Kept(rest, restKeep)
  {
  }

  /** Filtering names and then reading them is reading them and then filtering. */
  lemma {:induction false} WithoutIsKept(names: seq<string>, empty: set<string>, env: Env)
    requires forall m :: m in names ==> m in env
    ensures forall m :: m in Without(names, empty) ==> m in names
    ensures Lookups(Without(names, empty), env) == Kept(Lookups(names, env), KeepMask(names, empty))
  {
    if names != [] {
      var n := |names| - 1;
      var most, last := names[..n], names[n];
      WithoutIsKept(most, empty, env);
      assert names == most + [last];
      KeptOneMore(most, last, empty, env);
      if last !in empty {
        LookupsAppend(Without(most, empty), last, env);
      }
    }
  }

  lemma {:induction false} KeptOneMore(names: seq<string>, name: string, empty: set<string>, env: Env)
    requires name in env && forall m :: m in names ==> m in env
    ensures forall m :: m in names + [name] ==> m in env
    ensures Kept(Lookups(names + [name], env), KeepMask(names + [name], empty)) ==
            Kept(Lookups(names, env), KeepMask(names, empty)) + if name !in empty then [env[name]] else []
  {
    KeptAppend(Lookups(names, env), KeepMask(names, empty), env[name], name !in empty);
    LookupsAppend(names, name, env);
    assert KeepMask(names + [name], empty) == KeepMask(names, empty) + [name !in empty];
  }

  lemma {:induction false} LookupsAppend(names: seq<string>, name: string, env: Env)
    requires name in env && forall m :: m in names ==> m in env
    ensures forall m :: m in names + [name] ==> m in env
    ensures Lookups(names + [name], env) == Lookups(names, env) + [env[name]]
  {
  }

  /** Every input that a Concat loses is empty along the axis on which the node concatenates. */
  ghost predicate DropsOnlyEmpty(n: Node, empty: set<string>, final: Env) {
    ConcatNode(n, empty) != n && AXIS in n.attributes && n.attributes[AXIS].Number? ==>
      forall k :: 0 <= k < |n.inputs| && n.inputs[k] in empty && n.inputs[k] in final ==>
        EmptyAlong(final[n.inputs[k]], n.attributes[AXIS].i)
  }

  predicate EmptyAlong(t: Tensor, axis: int) {
    0 <= NormalAxis(axis, t.Rank()) < t.Rank() ==> t.shape[NormalAxis(axis, t.Rank())] == 0
  }

  /** Reading a list of names that are all bound and not empty. */
  lemma {:induction false} ReadAll(names: seq<string>, env: Env)
    requires forall m :: m in names ==> m in env && m != ""
    ensures Read(names, env).Some?
    ensures forall k :: 0 <= k < |names| ==> Read(names, env).value[k].Some?
    ensures Values(Read(names, env).value) == Lookups(names, env)
  {
  }

  /** Dropping inputs keeps the value of a Concat that has a value exactly when they are empty along its axis. */
  lemma {:induction false} ConcatArguments(names: seq<string>, empty: set<string>, env: Env, axis: int)
    requires forall m :: m in names ==> m in env && m != ""
    requires Concat(Lookups(names, env), axis).Some? && Without(names, empty) != []
    ensures forall m :: m in Without(names, empty) ==> m in names
    ensures Concat(Lookups(Without(names, empty), env), axis) == Concat(Lookups(names, env), axis)
            <==> forall k :: 0 <= k < |names| && names[k] in empty ==> EmptyAlong(env[names[k]], axis)
  {
    WithoutIsKept(names, empty, env);
    var ts, keep := Lookups(names, env), KeepMask(names, empty);
    assert Kept(ts, keep) != [] by {
      assert |Lookups(Without(names, empty), env)| > 0;
    }
    DropInputsIsConcat(ts, keep, axis);
    DroppedExtents(names, empty, env, axis, ts, keep);
  }

  lemma {:induction false} DroppedExtents(names: seq<string>, empty: set<string>, env: Env, axis: int,
          ts: seq<Tensor>, keep: seq<bool>)
    requires (forall m :: m in names ==> m in env) && ts == Lookups(names, env) && keep == KeepMask(names, empty)
    requires forall i :: 0 <= i < |ts| ==> 0 <= NormalAxis(axis, ts[i].Rank()) < ts[i].Rank()
    ensures (forall i :: 0 <= i < |ts| && !keep[i] ==> ts[i].shape[NormalAxis(axis, ts[i].Rank())] == 0)
            <==> forall k :: 0 <= k < |names| && names[k] in empty ==> EmptyAlong(env[names[k]], axis)
  {
    forall k | 0 <= k < |names|
      ensures EmptyAlong(env[names[k]], axis) <==> ts[k].shape[NormalAxis(axis, ts[k].Rank())] == 0
    {
      assert ts[k] == env[names[k]];
    }
  }

  /** A shortened Concat computes what the Concat computes when it lost empty inputs only, and otherwise
      something else. */
  lemma {:induction false} ConcatRefines(ops: Operators, n: Node, empty: set<string>, final: Env, constants: Env)
    requires Checked(n) && constants.Keys !! final.Keys && "" !in constants && ConcatNode(n, empty) != n
    ensures RefinesIff(ops, n, [ConcatNode(n, empty)], final, constants, DropsOnlyEmpty(n, empty, final))
  {
    var n' := ConcatNode(n, empty);
    forall env, env' | OnTheWay(ops, n, env, env', final, constants)
      ensures Outcome(ops, n, [n'], env, env', final, constants, DropsOnlyEmpty(n, empty, final))
    {
      var t := ConcatApplies(ops, n, empty, env, env', final);
      EvalNodesOne(ops, n', env');
      Conclude(ops, n, [n'], n', env, env', env', final, constants, t, DropsOnlyEmpty(n, empty, final));
    }
  }

  lemma {:induction false} ConcatSucceeds(ops: Operators, n: Node, env: Env) returns (axis: int)
    requires n.op == CONCAT && EvalNode(ops, n, env).Some?
    ensures AXIS in n.attributes && n.attributes[AXIS] == Number(axis)
    ensures forall m :: m in n.inputs ==> m in env && m != ""
    ensures Read(n.inputs, env).Some? && Concat(Lookups(n.inputs, env), axis).Some?
    ensures Apply(ops, n, Read(n.inputs, env).value) == Some([Concat(Lookups(n.inputs, env), axis).value])
  {
    axis := n.attributes[AXIS].i;
    var args := Read(n.inputs, env).value;
    forall m | m in n.inputs ensures m in env && m != "" {
      var k :| 0 <= k < |n.inputs| && n.inputs[k] == m;
      assert args[k].Some?;
    }
    ReadAll(n.inputs, env);
  }

  lemma {:induction false} ConcatOf(ops: Operators, n: Node, env: Env, axis: int)
    requires n.op == CONCAT && AXIS in n.attributes && n.attributes[AXIS] == Number(axis)
    requires forall m :: m in n.inputs ==> m in env && m != ""
    ensures Read(n.inputs, env).Some?
    ensures var r := Concat(Lookups(n.inputs, env), axis);
      Apply(ops, n, Read(n.inputs, env).value) == if r.Some? then Some([r.value]) else None
  {
    ReadAll(n.inputs, env);
  }

  lemma {:induction false} DroppedAreEmpty(n: Node, empty: set<string>, env: Env, final: Env, axis: int)
    requires ConcatNode(n, empty) != n && Extends(env, final)
    requires AXIS in n.attributes && n.attributes[AXIS] == Number(axis)
    requires forall m :: m in n.inputs ==> m in env && m != ""
    ensures DropsOnlyEmpty(n, empty, final) <==>
            forall k :: 0 <= k < |n.inputs| && n.inputs[k] in empty ==> EmptyAlong(env[n.inputs[k]], axis)
  {
    forall k | 0 <= k < |n.inputs| ensures n.inputs[k] in final && final[n.inputs[k]] == env[n.inputs[k]] {
      assert n.inputs[k] in n.inputs;
    }
  }

  lemma {:induction false} ConcatApplies(ops: Operators, n: Node, empty: set<string>, env: Env, env': Env, final: Env)
    returns (t: Tensor)
    requires ConcatNode(n, empty) != n
    requires Extends(env, env') && Extends(env, final) && EvalNode(ops, n, env).Some?
    ensures Read(ConcatNode(n, empty).inputs, env').Some? && Apply(ops, n, Read(n.inputs, env).value) == Some([t])
    ensures var r := Apply(ops, ConcatNode(n, empty), Read(ConcatNode(n, empty).inputs, env').value);
      (r.Some? ==> |r.value| == 1) && (r == Some([t]) <==> DropsOnlyEmpty(n, empty, final))
  {
    var axis := ConcatSucceeds(ops, n, env);
    t := Concat(Lookups(n.inputs, env), axis).value;
    RetainedConcat(n, empty, env, final, axis);
    LookupsExtend(ConcatNode(n, empty).inputs, env, env');
    ConcatOf(ops, ConcatNode(n, empty), env', axis);
  }

  lemma {:induction false} RetainedConcat(n: Node, empty: set<string>, env: Env, final: Env, axis: int)
    requires Extends(env, final) && ConcatNode(n, empty) != n
    requires AXIS in n.attributes && n.attributes[AXIS] == Number(axis)
    requires (forall m :: m in n.inputs ==> m in env && m != "") && Concat(Lookups(n.inputs, env), axis).Some?
    ensures ConcatNode(n, empty).op == CONCAT && ConcatNode(n, empty).attributes == n.attributes
    ensures forall m :: m in ConcatNode(n, empty).inputs ==> m in env && m != ""
    ensures Concat(Lookups(ConcatNode(n, empty).inputs, env), axis) == Concat(Lookups(n.inputs, env), axis)
            <==> DropsOnlyEmpty(n, empty, final)
  {
    DroppedAreEmpty(n, empty, env, final, axis);
    ConcatArguments(n.inputs, empty, env, axis);
  }

  lemma {:induction false} LookupsExtend(names: seq<string>, env: Env, env': Env)
    requires Extends(env, env') && forall m :: m in names ==> m in env
    ensures forall m :: m in names ==> m in env'
    ensures Lookups(names, env') == Lookups(names, env)
  {
  }
}
