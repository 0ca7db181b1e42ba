/** The run of the exported graph needs its rewrites to keep the values of the nodes on dependency paths only: the
    others are pruned, apart from crops that a later Pad over the same tensor writes again. */
module LiveRuns {
  import opened Wrappers
  import opened Tensors
  import opened Graphs
  import opened Passes
  import opened PassProofs
  import opened Pipeline
  import opened Pruning
  import opened Survival
  import opened SharedNames
  import opened KeptNames

  /** In a run with tensors `final` the passes leave what the nodes on dependency paths compute, where paths ignore
      the reads that the passes remove. */
  ghost predicate KeepsLiveValues(g: Graph, final: Env)
    requires AllChecked(g.nodes)
  {
    var values := ConstantValues(g.initializers, g.nodes);
    var empty := EmptyOutputs(g.nodes, values);
    forall i :: 0 <= i < |g.nodes| && OnPath(StillNodes(g.nodes, values, empty), NameSet(g.outputs), i) ==>
      KeepsValue(g.nodes[i], values, empty, final)
  }

  // ------------------------------------------------------------ runs that agree on some names

  /** Whatever `a` has of the names, `b` has too. */
  ghost predicate Carries(names: set<string>, a: Env, b: Env) {
    forall m :: m in names && m in a ==> m in b && b[m] == a[m]
  }

  /** Every node reads only the names and what earlier nodes write. */
  predicate ReadsWithin(nodes: seq<Node>, names: set<string>) {
    nodes == [] || (Reads(nodes[0]) <= names && ReadsWithin(nodes[1..], names + Written(nodes[0])))
  }

  lemma {:induction false} BindCarries(names: set<string>, a: Env, b: Env, outputs: seq<string>, values: seq<Tensor>)
    requires |outputs| == |values| && Carries(names, a, b)
    ensures Carries(names + (set o | o in outputs && o != ""), Bind(a, outputs, values), Bind(b, outputs, values))
    decreases |outputs|
  {
    if outputs == [] {
      assert names + (set o | o in outputs && o != "") == names;
    } else {
      var a' := if outputs[0] == "" then a else a[outputs[0] := values[0]];
      var b' := if outputs[0] == "" then b else b[outputs[0] := values[0]];
      var more := if outputs[0] == "" then names else names + {outputs[0]};
      BindCarries(more, a', b', outputs[1..], values[1..]);
      assert more + (set o | o in outputs[1..] && o != "") == names + (set o | o in outputs && o != "");
    }
  }

  lemma {:induction false} ReadCarries(names: set<string>, inputs: seq<string>, a: Env, b: Env)
    requires Carries(names, a, b) && Read(inputs, a).Some? && forall m :: m in inputs && m != "" ==> m in names
    ensures Read(inputs, b) == Read(inputs, a)
  {
    forall k | 0 <= k < |inputs| && inputs[k] != "" ensures inputs[k] in b && b[inputs[k]] == a[inputs[k]] {
      assert inputs[k] in a;
    }
    assert Read(inputs, b).value == Read(inputs, a).value;
  }

  lemma {:induction false} NodeCarries(ops: Operators, n: Node, names: set<string>, a: Env, b: Env)
    requires Carries(names, a, b) && Reads(n) <= names && EvalNode(ops, n, a).Some?
    ensures EvalNode(ops, n, b).Some?
    ensures Carries(names + Written(n), EvalNode(ops, n, a).value, EvalNode(ops, n, b).value)
  {
    ReadCarries(names, n.inputs, a, b);
    BindCarries(names, a, b, n.outputs, Apply(ops, n, Read(n.inputs, a).value).value);
  }

  lemma {:induction false} BlockCarries(ops: Operators, nodes: seq<Node>, names: set<string>, a: Env, b: Env)
    requires Carries(names, a, b) && ReadsWithin(nodes, names) && EvalNodes(ops, nodes, a).Some?
    ensures EvalNodes(ops, nodes, b).Some?
    ensures Carries(names, EvalNodes(ops, nodes, a).value, EvalNodes(ops, nodes, b).value)
  {
    if nodes != [] {
      NodeCarries(ops, nodes[0], names, a, b);
      BlockCarries(ops, nodes[1..], names + Written(nodes[0]), EvalNode(ops, nodes[0], a).value,
                   EvalNode(ops, nodes[0], b).value);
    }
  }

  /** A block that runs reads what is there. */
  lemma {:induction false} RunReads(ops: Operators, nodes: seq<Node>, env: Env, used: set<string>, names: set<string>)
    requires EvalNodes(ops, nodes, env).Some? && forall k :: 0 <= k < |nodes| ==> Reads(nodes[k]) <= used
    requires forall m :: m in env && m in used ==> m in names
    ensures ReadsWithin(nodes, names)
  {
    if nodes != [] {
      EvalNodeExtends(ops, nodes[0], env, env);
      forall m | m in Reads(nodes[0]) ensures m in names {
        assert m in env;
      }
      RunReads(ops, nodes[1..], EvalNode(ops, nodes[0], env).value, used, names + Written(nodes[0]));
    }
  }

  // ------------------------------------------------------------ one node

  /** A needed node: its block computes what later nodes need of it, also from what is left of the environment. */
  lemma {:induction false} HitStep(ops: Operators, n: Node, block: seq<Node>, final: Env, constants: Env, env: Env,
          env': Env, used: set<string>, names: set<string>, later: set<string>)
    requires RefinesIff(ops, n, block, final, constants, true) && constants.Keys !! final.Keys
    requires EvalNode(ops, n, env).Some? && Extends(env, final) && Extends(EvalNode(ops, n, env).value, final)
    requires Carries(names, env + constants, env') && later <= names
    requires forall k :: 0 <= k < |block| ==> Reads(block[k]) <= used
    requires forall m :: m in env + constants && m in used ==> m in names
    ensures EvalNodes(ops, block, env').Some?
    ensures Carries(later, EvalNode(ops, n, env).value + constants, EvalNodes(ops, block, env').value)
  {
    var both := env + constants;
    assert OnTheWay(ops, n, env, both, final, constants);
    assert Outcome(ops, n, block, env, both, final, constants, true);
    RunReads(ops, block, both, used, names);
    BlockCarries(ops, block, names, both, env');
  }

  /** A node that is not needed writes nothing that later nodes need. */
  lemma {:induction false} MissStep(ops: Operators, n: Node, constants: Env, env: Env, env': Env, names: set<string>,
          later: set<string>)
    requires EvalNode(ops, n, env).Some? && Carries(names, env + constants, env') && later <= names && "" !in later
    requires later !! Written(n)
    ensures Carries(later, EvalNode(ops, n, env).value + constants, env')
  {
    EvalNodeExtends(ops, n, env, env);
  }

  /** So does the crop of a Pad that is not needed itself. */
  lemma {:induction false} CropStep(ops: Operators, n: Node, a: Node, constants: Env, env: Env, env': Env,
          names: set<string>, later: set<string>)
    requires EvalNode(ops, n, env).Some? && Carries(names, env + constants, env') && later <= names && "" !in later
    requires later !! Written(n) && later !! Written(a)
    requires EvalNode(ops, a, env + constants).Some? && Reads(a) <= names
    ensures EvalNodes(ops, [a], env').Some?
    ensures Carries(later, EvalNode(ops, n, env).value + constants, EvalNodes(ops, [a], env').value)
  {
    MissStep(ops, n, constants, env, env', names, later);
    NodeCarries(ops, a, names, env + constants, env');
    EvalNodeExtends(ops, a, env', env');
    EvalNodesOne(ops, a, env');
  }

  // ------------------------------------------------------------ the kept part of one block

  /** Of a needed node the whole block is kept, of another one the crop if a later Pad reads it; what is kept reads
      names of `before`. */
  ghost predicate IsKeptPart(n: Node, values: Env, block: seq<Node>, kept: seq<Node>, hit: bool, before: set<string>)
    requires Checked(n)
  {
    && block != []
    && (if hit then kept == block
        else kept == [] || (kept == [block[0]] && NeedsSplit(n, values) && block[0].outputs == [Temporary(n)]))
    && forall k :: 0 <= k < |kept| ==> Reads(kept[k]) <= before
  }

  lemma {:induction false} PairPart(n: Node, a: Node, b: Node, values: Env, outputs: set<string>, used: set<string>)
    requires Checked(n) && (IsEinsumOuter(n) || NeedsSplit(n, values)) && Temporary(n) !in outputs
    requires a.outputs == [Temporary(n)] && b.outputs == n.outputs && Temporary(n) in Reads(b)
    requires IsEinsumOuter(n) ==> Temporary(n) !in used
    ensures IsKeptPart(n, values, [a, b], KeptBefore([a, b], outputs, used), Hits(n, outputs + used),
                       UsedBefore([a, b], outputs, used))
  {
    KeptPair(a, b, Temporary(n), outputs, used);
    TwoNodes(a, b, Temporary(n), outputs, used);
    assert Hits(b, outputs + used) <==> Hits(n, outputs + used);
  }

  lemma {:induction false} PlainPart(n: Node, a: Node, values: Env, outputs: set<string>, used: set<string>)
    requires Checked(n) && a.outputs == n.outputs
    ensures IsKeptPart(n, values, [a], KeptBefore([a], outputs, used), Hits(n, outputs + used),
                       UsedBefore([a], outputs, used))
  {
    KeptOne(a, outputs, used);
    OneNode(a, outputs, used);
    assert Hits(a, outputs + used) <==> Hits(n, outputs + used);
  }

  lemma {:induction false} BlockPart(n: Node, place: nat, values: Env, empty: set<string>, outputs: set<string>,
          taken: set<string>, used: set<string>)
    requires Checked(n) && outputs <= taken && Temporaries(n, values) !! taken && NotExpanded(n, used)
    ensures
      var block := Block(n, place, values, empty);
      IsKeptPart(n, values, block, KeptBefore(block, outputs, used), Hits(n, outputs + used),
                 UsedBefore(block, outputs, used))
  {
    TemporaryIs(n, values);
    if IsEinsumOuter(n) || NeedsSplit(n, values) {
      var a, b := PairOf(n, place, values, empty);
      assert Temporary(n) in Temporaries(n, values);
      PairPart(n, a, b, values, outputs, used);
    } else {
      var a := if n.op == CONCAT then ConcatNode(n, empty) else n;
      assert Block(n, place, values, empty) == [a];
      PlainPart(n, a, values, outputs, used);
    }
  }

  lemma {:induction false} KeptPart(nodes: seq<Node>, values: Env, empty: set<string>, outputs: set<string>,
          taken: set<string>, i: nat)
    requires AllChecked(nodes) && Ready(nodes, values, taken) && i < |nodes| && outputs <= taken
    ensures IsKeptPart(nodes[i], values, Blocks(nodes, values, empty)[i],
                       KeptBlocks(Blocks(nodes, values, empty), outputs)[i],
                       Needed(nodes, values, empty, outputs, i), UsedFromBlock(nodes, values, empty, outputs, i))
  {
    var used := UsedFromBlock(nodes, values, empty, outputs, i + 1);
    var place := BlockAt(nodes, values, empty, i);
    KeptAt(Blocks(nodes, values, empty), outputs, i);
    UsedFrom(Blocks(nodes, values, empty), outputs, i);
    TemporariesNew(nodes, values, taken, i);
    NotExpandedLater(nodes, values, empty, outputs, taken, i);
    BlockPart(nodes[i], place, values, empty, outputs, taken, used);
  }

  lemma {:induction false} NotExpandedLater(nodes: seq<Node>, values: Env, empty: set<string>, outputs: set<string>,
          taken: set<string>, i: nat)
    requires AllChecked(nodes) && Ready(nodes, values, taken) && i < |nodes| && outputs <= taken
    ensures NotExpanded(nodes[i], UsedFromBlock(nodes, values, empty, outputs, i + 1))
  {
    TracksFrom(nodes, values, empty, outputs, taken, i + 1);
  }

  /** The crop of a split Pad that ran runs, whether or not it fits. */
  ghost predicate CropRuns(ops: Operators, n: Node, crop: Node, final: Env, constants: Env) {
    forall env, env' {:trigger OnTheWay(ops, n, env, env', final, constants)} ::
      OnTheWay(ops, n, env, env', final, constants) ==> EvalNode(ops, crop, env').Some?
  }

  lemma {:induction false} SplitCropRuns(ops: Operators, n: Node, names: seq<string>, pads: seq<int>, final: Env,
          constants: Env)
    requires Checked(n) && n.op == PAD && ConstantMode(n)
    requires n.inputs[1] in final && n.inputs[1] != "" ==> IntVector(final[n.inputs[1]]) == pads
    requires HoldsParameters(constants, names, pads)
    requires var cropped := n.inputs[0] + "__cropped"; cropped !in final && cropped !in constants
    ensures CropRuns(ops, n, SplitPad(n, names)[0], final, constants)
  {
    forall env, env' | OnTheWay(ops, n, env, env', final, constants)
      ensures EvalNode(ops, SplitPad(n, names)[0], env').Some?
    {
      var mid, t := SplitApplies(ops, n, names, pads, env, env', final, constants);
    }
  }

  // ------------------------------------------------------------ the kept blocks

  /** Needed nodes are refined by their blocks, and the crops of all split Pads run. */
  ghost predicate Live(ops: Operators, nodes: seq<Node>, values: Env, empty: set<string>, outputs: set<string>,
          final: Env, constants: Env) {
    && AllChecked(nodes) && Ready(nodes, values, final.Keys) && outputs <= final.Keys
    && constants.Keys !! final.Keys && "" !in constants
    && forall i: nat :: i < |nodes| ==>
         NodeIsLive(ops, nodes[i], values, Blocks(nodes, values, empty)[i], Needed(nodes, values, empty, outputs, i),
                    final, constants)
  }

  /** The block of a needed node refines it; the crop of a split Pad runs. */
  ghost predicate NodeIsLive(ops: Operators, n: Node, values: Env, block: seq<Node>, hit: bool, final: Env,
          constants: Env)
    requires Checked(n)
  {
    && (hit ==> RefinesIff(ops, n, block, final, constants, true))
    && (NeedsSplit(n, values) ==>
          Temporary(n) !in constants && block != [] && CropRuns(ops, n, block[0], final, constants))
  }

  /** The names of the graph and the generated constants that are needed from node `i` on. */
  ghost function Carried(nodes: seq<Node>, values: Env, empty: set<string>, outputs: set<string>, known: set<string>,
          i: nat): set<string>
    requires AllChecked(nodes) && i <= |nodes|
  {
    (outputs + UsedFromBlock(nodes, values, empty, outputs, i)) * known
  }

  lemma {:induction false} ReadsAreThere(ops: Operators, n: Node, env: Env)
    requires EvalNode(ops, n, env).Some?
    ensures Reads(n) <= env.Keys
  {
  }

  /** Nothing that is needed later is written by a node that is not needed. */
  lemma {:induction false} MissWrites(n: Node, outputs: set<string>, used: set<string>, known: set<string>)
    requires !Hits(n, outputs + used)
    ensures (outputs + used) * known !! Written(n)
  {
    forall o | o in Written(n) ensures o !in outputs + used {
      assert o in n.outputs;
    }
  }

  /** The crop of a Pad that is not needed is carried out from what is left. */
  lemma {:induction false} MissedCrop(ops: Operators, n: Node, a: Node, t: string, final: Env, constants: Env,
          env: Env, env': Env, used: set<string>, names: set<string>, later: set<string>)
    requires CropRuns(ops, n, a, final, constants) && constants.Keys !! final.Keys && a.outputs == [t]
    requires EvalNode(ops, n, env).Some? && Extends(env, final) && Extends(EvalNode(ops, n, env).value, final)
    requires Carries(names, env + constants, env') && later <= names && "" !in later && later !! Written(n)
    requires t !in later && Reads(a) <= used && used * (final.Keys + constants.Keys) <= names
    ensures EvalNodes(ops, [a], env').Some?
    ensures Carries(later, EvalNode(ops, n, env).value + constants, EvalNodes(ops, [a], env').value)
  {
    assert OnTheWay(ops, n, env, env + constants, final, constants);
    ReadsAreThere(ops, a, env + constants);
    CropStep(ops, n, a, constants, env, env', names, later);
  }

  lemma {:induction false} CarriedShrinks(nodes: seq<Node>, values: Env, empty: set<string>, outputs: set<string>,
          taken: set<string>, known: set<string>, i: nat)
    requires AllChecked(nodes) && Ready(nodes, values, taken) && i < |nodes| && outputs <= taken
    ensures Carried(nodes, values, empty, outputs, known, i + 1) <= Carried(nodes, values, empty, outputs, known, i)
  {
    UsedGrows(nodes, values, empty, outputs, taken, i, i + 1);
  }

  /** A node runs on the way to `final`, and `env'` has what is needed of its environment. */
  ghost predicate Enters(ops: Operators, n: Node, env: Env, env': Env, final: Env, constants: Env, names: set<string>) {
    && EvalNode(ops, n, env).Some? && Extends(env, final) && Extends(EvalNode(ops, n, env).value, final)
    && Carries(names, env + constants, env')
  }

  /** The kept part of its block runs and leaves what is needed later. */
  ghost predicate Leaves(ops: Operators, n: Node, part: seq<Node>, env: Env, env': Env, constants: Env,
          later: set<string>)
    requires EvalNode(ops, n, env).Some?
  {
    var r := EvalNodes(ops, part, env');
    r.Some? && Carries(later, EvalNode(ops, n, env).value + constants, r.value)
  }

  ghost predicate StepHolds(ops: Operators, n: Node, part: seq<Node>, final: Env, constants: Env, names: set<string>,
          later: set<string>)
  {
    forall env, env' {:trigger Enters(ops, n, env, env', final, constants, names)} ::
      Enters(ops, n, env, env', final, constants, names) ==> Leaves(ops, n, part, env, env', constants, later)
  }

  lemma {:induction false} HitHolds(ops: Operators, n: Node, block: seq<Node>, final: Env, constants: Env,
          used: set<string>, names: set<string>, later: set<string>)
    requires RefinesIff(ops, n, block, final, constants, true) && constants.Keys !! final.Keys && later <= names
    requires forall k :: 0 <= k < |block| ==> Reads(block[k]) <= used
    requires used * (final.Keys + constants.Keys) <= names
    ensures StepHolds(ops, n, block, final, constants, names, later)
  {
    forall env, env' | Enters(ops, n, env, env', final, constants, names)
      ensures Leaves(ops, n, block, env, env', constants, later)
    {
      HitStep(ops, n, block, final, constants, env, env', used, names, later);
    }
  }

  lemma {:induction false} MissHolds(ops: Operators, n: Node, final: Env, constants: Env, names: set<string>,
          later: set<string>)
    requires later <= names && "" !in later && later !! Written(n)
    ensures StepHolds(ops, n, [], final, constants, names, later)
  {
    forall env, env' | Enters(ops, n, env, env', final, constants, names)
      ensures Leaves(ops, n, [], env, env', constants, later)
    {
      MissStep(ops, n, constants, env, env', names, later);
    }
  }

  lemma {:induction false} CropHolds(ops: Operators, n: Node, a: Node, t: string, final: Env, constants: Env,
          used: set<string>, names: set<string>, later: set<string>)
    requires CropRuns(ops, n, a, final, constants) && constants.Keys !! final.Keys && a.outputs == [t]
    requires later <= names && "" !in later && later !! Written(n) && t !in later
    requires Reads(a) <= used && used * (final.Keys + constants.Keys) <= names
    ensures StepHolds(ops, n, [a], final, constants, names, later)
  {
    forall env, env' | Enters(ops, n, env, env', final, constants, names)
      ensures Leaves(ops, n, [a], env, env', constants, later)
    {
      MissedCrop(ops, n, a, t, final, constants, env, env', used, names, later);
    }
  }

  /** What is needed later of a node that is not needed itself. */
  lemma {:induction false} LaterOfMissed(nodes: seq<Node>, values: Env, empty: set<string>, outputs: set<string>,
          taken: set<string>, constants: set<string>, i: nat)
    requires AllChecked(nodes) && Ready(nodes, values, taken) && i < |nodes| && outputs <= taken
    requires !Needed(nodes, values, empty, outputs, i) && "" !in constants
    ensures var later := Carried(nodes, values, empty, outputs, taken + constants, i + 1);
      "" !in later && later !! Written(nodes[i])
  {
    MissWrites(nodes[i], outputs, UsedFromBlock(nodes, values, empty, outputs, i + 1), taken + constants);
  }

  lemma {:induction false} MadeTemporaryIsNew(nodes: seq<Node>, values: Env, taken: set<string>, i: nat)
    requires AllChecked(nodes) && Ready(nodes, values, taken) && i < |nodes| && NeedsSplit(nodes[i], values)
    ensures Temporary(nodes[i]) !in taken
  {
    TemporariesNew(nodes, values, taken, i);
    TemporaryIs(nodes[i], values);
    assert Temporary(nodes[i]) in Temporaries(nodes[i], values);
  }

  lemma {:induction false} PartHolds(ops: Operators, n: Node, values: Env, block: seq<Node>, part: seq<Node>,
          hit: bool, final: Env, constants: Env, used: set<string>, names: set<string>, later: set<string>)
    requires Checked(n) && IsKeptPart(n, values, block, part, hit, used) && constants.Keys !! final.Keys
    requires later <= names && used * (final.Keys + constants.Keys) <= names
    requires hit ==> RefinesIff(ops, n, block, final, constants, true)
    requires !hit ==> "" !in later && later !! Written(n)
    requires NeedsSplit(n, values) ==> Temporary(n) !in later && CropRuns(ops, n, block[0], final, constants)
    ensures StepHolds(ops, n, part, final, constants, names, later)
  {
    if hit {
      HitHolds(ops, n, block, final, constants, used, names, later);
    } else if part == [] {
      MissHolds(ops, n, final, constants, names, later);
    } else {
      assert Reads(part[0]) <= used;
      CropHolds(ops, n, block[0], Temporary(n), final, constants, used, names, later);
    }
  }

  lemma {:induction false} LiveStep(ops: Operators, nodes: seq<Node>, values: Env, empty: set<string>,
          outputs: set<string>, final: Env, constants: Env, i: nat)
    requires Live(ops, nodes, values, empty, outputs, final, constants) && i < |nodes|
    ensures
      var known := final.Keys + constants.Keys;
      StepHolds(ops, nodes[i], KeptBlocks(Blocks(nodes, values, empty), outputs)[i], final, constants,
                Carried(nodes, values, empty, outputs, known, i), Carried(nodes, values, empty, outputs, known, i + 1))
  {
    var known, hit := final.Keys + constants.Keys, Needed(nodes, values, empty, outputs, i);
    CarriedShrinks(nodes, values, empty, outputs, final.Keys, known, i);
    KeptPart(nodes, values, empty, outputs, final.Keys, i);
    if !hit {
      LaterOfMissed(nodes, values, empty, outputs, final.Keys, constants.Keys, i);
    }
    if NeedsSplit(nodes[i], values) {
      MadeTemporaryIsNew(nodes, values, final.Keys, i);
    }
    PartHolds(ops, nodes[i], values, Blocks(nodes, values, empty)[i],
              KeptBlocks(Blocks(nodes, values, empty), outputs)[i], hit, final, constants,
              UsedFromBlock(nodes, values, empty, outputs, i), Carried(nodes, values, empty, outputs, known, i),
              Carried(nodes, values, empty, outputs, known, i + 1));
  }

  ghost predicate ChainHolds(ops: Operators, nodes: seq<Node>, parts: seq<seq<Node>>, final: Env, constants: Env,
          carried: seq<set<string>>)
  {
    && |parts| == |nodes| && |carried| == |nodes| + 1
    && forall i :: 0 <= i < |nodes| ==>
         StepHolds(ops, nodes[i], parts[i], final, constants, carried[i], carried[i + 1])
  }

  /** Steps that hold one by one hold in a row. */
  lemma {:induction false} Chain(ops: Operators, nodes: seq<Node>, parts: seq<seq<Node>>, final: Env, constants: Env,
          carried: seq<set<string>>, env: Env, env': Env)
    requires ChainHolds(ops, nodes, parts, final, constants, carried)
    requires EvalNodes(ops, nodes, env) == Some(final) && SingleAssignment(nodes, env.Keys) && "" !in env
    requires Carries(carried[0], env + constants, env')
    ensures
      var r := EvalNodes(ops, Flatten(parts), env');
      r.Some? && Carries(carried[|nodes|], final + constants, r.value)
  {
    if nodes != [] {
      var next := EvalNode(ops, nodes[0], env).value;
      EvalNodeExtends(ops, nodes[0], env, env);
      EvalGrows(ops, nodes, env);
      EvalGrows(ops, nodes[1..], next);
      assert StepHolds(ops, nodes[0], parts[0], final, constants, carried[0], carried[1]);
      assert Enters(ops, nodes[0], env, env', final, constants, carried[0]);
      EvalAppend(ops, parts[0], Flatten(parts[1..]), env');
      ChainTail(ops, nodes, parts, final, constants, carried);
      Chain(ops, nodes[1..], parts[1..], final, constants, carried[1..], next, EvalNodes(ops, parts[0], env').value);
    }
  }

  lemma {:induction false} ChainTail(ops: Operators, nodes: seq<Node>, parts: seq<seq<Node>>, final: Env,
          constants: Env, carried: seq<set<string>>)
    requires ChainHolds(ops, nodes, parts, final, constants, carried) && nodes != []
    ensures ChainHolds(ops, nodes[1..], parts[1..], final, constants, carried[1..])
  {
    forall i | 0 <= i < |nodes| - 1
      ensures StepHolds(ops, nodes[1..][i], parts[1..][i], final, constants, carried[1..][i], carried[1..][i + 1])
    {
      assert StepHolds(ops, nodes[i + 1], parts[i + 1], final, constants, carried[i + 1], carried[i + 2]);
    }
  }

  ghost function CarriedAlong(nodes: seq<Node>, values: Env, empty: set<string>, outputs: set<string>,
          known: set<string>): (r: seq<set<string>>)
    requires AllChecked(nodes)
    ensures |r| == |nodes| + 1
    ensures forall i :: 0 <= i < |r| ==> r[i] == Carried(nodes, values, empty, outputs, known, i)
  {
    seq(|nodes| + 1, i requires 0 <= i <= |nodes| => Carried(nodes, values, empty, outputs, known, i))
  }

  /** The kept blocks run from what is needed of the environment, and end with the outputs of the run. */
  lemma {:induction false} LiveRun(ops: Operators, nodes: seq<Node>, values: Env, empty: set<string>,
          outputs: set<string>, final: Env, constants: Env, env: Env, env': Env)
    requires Live(ops, nodes, values, empty, outputs, final, constants)
    requires EvalNodes(ops, nodes, env) == Some(final) && SingleAssignment(nodes, env.Keys) && "" !in env
    requires Carries(Carried(nodes, values, empty, outputs, final.Keys + constants.Keys, 0), env + constants, env')
    ensures
      var r := EvalNodes(ops, Scan(Flatten(Blocks(nodes, values, empty)), outputs).kept, env');
      r.Some? && Carries(outputs, final, r.value)
  {
    var known, parts := final.Keys + constants.Keys, KeptBlocks(Blocks(nodes, values, empty), outputs);
    var carried := CarriedAlong(nodes, values, empty, outputs, known);
    LiveChain(ops, nodes, values, empty, outputs, final, constants);
    Chain(ops, nodes, parts, final, constants, carried, env, env');
    KeptFlat(Blocks(nodes, values, empty), outputs);
    LastCarries(nodes, values, empty, outputs, known);
  }

  lemma {:induction false} LastCarries(nodes: seq<Node>, values: Env, empty: set<string>, outputs: set<string>,
          known: set<string>)
    requires AllChecked(nodes) && outputs <= known
    ensures outputs <= Carried(nodes, values, empty, outputs, known, |nodes|)
  {
  }

  lemma {:induction false} LiveChain(ops: Operators, nodes: seq<Node>, values: Env, empty: set<string>,
          outputs: set<string>, final: Env, constants: Env)
    requires Live(ops, nodes, values, empty, outputs, final, constants)
    ensures ChainHolds(ops, nodes, KeptBlocks(Blocks(nodes, values, empty), outputs), final, constants,
                       CarriedAlong(nodes, values, empty, outputs, final.Keys + constants.Keys))
  {
    var parts := KeptBlocks(Blocks(nodes, values, empty), outputs);
    var carried := CarriedAlong(nodes, values, empty, outputs, final.Keys + constants.Keys);
    forall i: nat | i < |nodes|
      ensures StepHolds(ops, nodes[i], parts[i], final, constants, carried[i], carried[i + 1])
    {
      LiveStep(ops, nodes, values, empty, outputs, final, constants, i);
    }
  }

  // ------------------------------------------------------------ the whole graph

  /** What a graph, a run of it and the generated constants have to do with each other. */
  ghost predicate RunOf(g: Graph, final: Env, constants: Env) {
    && AllChecked(g.nodes) && Applicable(g, final.Keys) && NameSet(g.outputs) <= final.Keys
    && Ready(g.nodes, ConstantValues(g.initializers, g.nodes), final.Keys)
    && Extends(ConstantValues(g.initializers, g.nodes), final)
    && constants == InitialValues(GeneratedBy(g)) && constants.Keys !! final.Keys
  }

  /** The initializers that the split pass adds. */
  ghost function GeneratedBy(g: Graph): seq<Initializer>
    requires AllChecked(g.nodes)
  {
    var values := ConstantValues(g.initializers, g.nodes);
    AllSplitInitializers(ConcatNodes(EinsumNodes(g.nodes), EmptyOutputs(g.nodes, values)), values)
  }

  lemma {:induction false} NeededRefines(ops: Operators, g: Graph, final: Env, constants: Env, i: nat)
    requires RunOf(g, final, constants) && KeepsLiveValues(g, final) && i < |g.nodes|
    requires
      var values := ConstantValues(g.initializers, g.nodes);
      Needed(g.nodes, values, EmptyOutputs(g.nodes, values), NameSet(g.outputs), i)
    ensures
      var values := ConstantValues(g.initializers, g.nodes);
      RefinesIff(ops, g.nodes[i], Blocks(g.nodes, values, EmptyOutputs(g.nodes, values))[i], final, constants, true)
  {
    var values := ConstantValues(g.initializers, g.nodes);
    var empty := EmptyOutputs(g.nodes, values);
    NeededIsOnPath(g.nodes, values, empty, NameSet(g.outputs), final.Keys, i);
    assert KeepsValue(g.nodes[i], values, empty, final);
    assert Written(g.nodes[i]) <= final.Keys;
    BlockRefines(ops, g, i, final, constants);
  }

  lemma {:induction false} CropsRun(ops: Operators, g: Graph, final: Env, constants: Env, i: nat)
    requires RunOf(g, final, constants) && i < |g.nodes|
    requires NeedsSplit(g.nodes[i], ConstantValues(g.initializers, g.nodes))
    ensures
      var values := ConstantValues(g.initializers, g.nodes);
      var blocks := Blocks(g.nodes, values, EmptyOutputs(g.nodes, values));
      Temporary(g.nodes[i]) !in constants && blocks[i] != []
      && CropRuns(ops, g.nodes[i], blocks[i][0], final, constants)
  {
    var n, values := g.nodes[i], ConstantValues(g.initializers, g.nodes);
    var empty := EmptyOutputs(g.nodes, values);
    var trimmed := ConcatNodes(EinsumNodes(g.nodes), empty);
    var place := BlockAt(g.nodes, values, empty, i);
    GeneratedNotTemporary(trimmed, values);
    MadeTemporaryIsNew(g.nodes, values, final.Keys, i);
    GeneratedHolds(trimmed, values, place);
    SplitCropRuns(ops, n, GeneratedNames(place), PadsOf(n, values), final, constants);
  }

  lemma {:induction false} RunIsLive(ops: Operators, g: Graph, final: Env, constants: Env)
    requires RunOf(g, final, constants) && KeepsLiveValues(g, final)
    ensures
      var values := ConstantValues(g.initializers, g.nodes);
      Live(ops, g.nodes, values, EmptyOutputs(g.nodes, values), NameSet(g.outputs), final, constants)
  {
    var values := ConstantValues(g.initializers, g.nodes);
    var empty := EmptyOutputs(g.nodes, values);
    GeneratedNotTemporary(ConcatNodes(EinsumNodes(g.nodes), empty), values);
    forall i: nat | i < |g.nodes|
      ensures NodeIsLive(ops, g.nodes[i], values, Blocks(g.nodes, values, empty)[i],
                         Needed(g.nodes, values, empty, NameSet(g.outputs), i), final, constants)
    {
      NodeLives(ops, g, final, constants, i);
    }
  }

  lemma {:induction false} NodeLives(ops: Operators, g: Graph, final: Env, constants: Env, i: nat)
    requires RunOf(g, final, constants) && KeepsLiveValues(g, final) && i < |g.nodes|
    ensures
      var values := ConstantValues(g.initializers, g.nodes);
      var empty := EmptyOutputs(g.nodes, values);
      NodeIsLive(ops, g.nodes[i], values, Blocks(g.nodes, values, empty)[i],
                 Needed(g.nodes, values, empty, NameSet(g.outputs), i), final, constants)
  {
    var values := ConstantValues(g.initializers, g.nodes);
    if Needed(g.nodes, values, EmptyOutputs(g.nodes, values), NameSet(g.outputs), i) {
      NeededRefines(ops, g, final, constants, i);
    }
    if NeedsSplit(g.nodes[i], values) {
      CropsRun(ops, g, final, constants, i);
    }
  }

  /** What is needed of the first environment is there after pruning. */
  lemma {:induction false} StartCarries(inputs: Env, own: seq<Initializer>, generated: seq<Initializer>,
          used: set<string>, outputs: set<string>, names: set<string>)
    requires inputs.Keys !! InitialValues(own + generated).Keys
    requires names <= outputs + used && forall m :: m in outputs && m in InitialValues(own + generated) ==> m in used
    ensures Carries(names, inputs + InitialValues(own) + InitialValues(generated),
                    inputs + InitialValues(Retain(own + generated, used)))
  {
    var a := inputs + InitialValues(own) + InitialValues(generated);
    var b := inputs + InitialValues(Retain(own + generated, used));
    InitialAppend(own, generated);
    RetainValues(own + generated, used);
    forall m | m in names && m in a ensures m in b && b[m] == a[m] {
      StartAt(inputs, own, generated, used, outputs, m);
    }
  }

  lemma {:induction false} StartAt(inputs: Env, own: seq<Initializer>, generated: seq<Initializer>, used: set<string>,
          outputs: set<string>, m: string)
    requires inputs.Keys !! InitialValues(own + generated).Keys && m in outputs + used
    requires m in inputs + InitialValues(own) + InitialValues(generated)
    requires m in outputs && m in InitialValues(own + generated) ==> m in used
    ensures
      var b := inputs + InitialValues(Retain(own + generated, used));
      m in b && b[m] == (inputs + InitialValues(own) + InitialValues(generated))[m]
  {
    InitialAppend(own, generated);
    RetainValues(own + generated, used);
    if m in InitialValues(own + generated) {
      assert m in InitialValues(Retain(own + generated, used));
    }
  }

  /** If every initializer output is still read, the pruned rewritten graph has the outputs of the run. */
  lemma {:induction false} PrunedRuns(ops: Operators, g: Graph, inputs: Env, final: Env)
    requires AllChecked(g.nodes) && RunOf(g, final, InitialValues(GeneratedBy(g))) && KeepsLiveValues(g, final)
    requires Evaluate(ops, g, inputs) == Some(final) && OutputsSurvive(Rewritten(g))
    requires SingleAssignment(g.nodes, (inputs + InitialValues(g.initializers)).Keys)
    requires (inputs + InitialValues(g.initializers)).Keys <= final.Keys && "" !in inputs
        && "" !in InitialValues(g.initializers)
    requires inputs.Keys !! InitialValues(Rewritten(g).initializers).Keys
    ensures
      var r := Evaluate(ops, Pruned(Rewritten(g)), inputs);
      r.Some? && Carries(NameSet(g.outputs), final, r.value)
  {
    var values, outputs := ConstantValues(g.initializers, g.nodes), NameSet(g.outputs);
    var empty, generated := EmptyOutputs(g.nodes, values), GeneratedBy(g);
    var constants, kept := InitialValues(generated), Pruned(Rewritten(g)).nodes;
    RewrittenIs(g);
    RunIsLive(ops, g, final, constants);
    SurvivorsUsed(Rewritten(g));
    UsedIs(Flatten(Blocks(g.nodes, values, empty)), outputs);
    assert Blocks(g.nodes, values, empty)[0..] == Blocks(g.nodes, values, empty);
    StartCarries(inputs, g.initializers, generated, Used(kept), outputs,
                 Carried(g.nodes, values, empty, outputs, final.Keys + constants.Keys, 0));
    LiveRun(ops, g.nodes, values, empty, outputs, final, constants, inputs + InitialValues(g.initializers),
            inputs + InitialValues(Retain(g.initializers + generated, Used(kept))));
  }

  lemma {:induction false} SurvivorsUsed(g: Graph)
    requires OutputsSurvive(g)
    ensures forall m :: m in NameSet(g.outputs) && m in InitialValues(g.initializers) ==> m in Used(Pruned(g).nodes)
  {
    SurvivorsAreUsed(g);
  }
}
