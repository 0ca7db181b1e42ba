/** Whether the exported graph still assigns every name once, which `onnx.checker` demands of it: the passes name
    their temporaries after tensors, so two of them may get one name. */
module SharedNames {
  import opened Tensors
  import opened Names
  import opened Graphs
  import opened Passes
  import opened Pipeline
  import opened Pruning
  import opened Assignment
  import opened Survival
  import opened BoolPads

  /** No two Pads that are split read one tensor. */
  predicate NoSharedCrop(g: Graph)
    requires AllChecked(g.nodes)
  {
    var values := ConstantValues(g.initializers, g.nodes);
    forall i, j :: 0 <= i < j < |g.nodes| && NeedsSplit(g.nodes[i], values) && NeedsSplit(g.nodes[j], values) ==>
      g.nodes[i].inputs[0] != g.nodes[j].inputs[0]
  }

  /** The graph assigns every name once, and `taken` are all its names. */
  ghost predicate Named(g: Graph, inputs: set<string>, taken: set<string>) {
    && SingleAssignment(g.nodes, inputs + InitialValues(g.initializers).Keys)
    && inputs + InitialValues(g.initializers).Keys <= taken
    && forall i :: 0 <= i < |g.nodes| ==> Written(g.nodes[i]) <= taken
  }

  lemma {:induction false} TemporaryIs(n: Node, values: Env)
    requires Checked(n)
    ensures Temporaries(n, values) == if IsEinsumOuter(n) || NeedsSplit(n, values) then {Temporary(n)} else {}
  {
  }

  /** The rewritten nodes write the names of the graph and their temporaries; none of them is an initializer. */
  lemma {:induction false} RewrittenLaid(g: Graph, inputs: set<string>, taken: set<string>)
    requires AllChecked(g.nodes) && Applicable(g, taken) && Named(g, inputs, taken)
    ensures
      var values := ConstantValues(g.initializers, g.nodes);
      var blocks := Blocks(g.nodes, values, EmptyOutputs(g.nodes, values));
      && Laid(g.nodes, blocks, TemporariesOf(g.nodes, values), taken,
              inputs + InitialValues(Rewritten(g).initializers).Keys)
      && Apart(WrittenBy(g.nodes)) && Rewritten(g).nodes == Flatten(blocks)
      && forall i :: 0 <= i < |blocks| ==> SingleAssignment(blocks[i], {})
  {
    var values := ConstantValues(g.initializers, g.nodes);
    var trimmed := ConcatNodes(EinsumNodes(g.nodes), EmptyOutputs(g.nodes, values));
    var generated := AllSplitInitializers(trimmed, values);
    var defined := inputs + InitialValues(Rewritten(g).initializers).Keys;
    RewrittenIs(g);
    GeneratedIsNew(trimmed, values, taken);
    InitialAppend(g.initializers, generated);
    SingleApart(g.nodes, inputs + InitialValues(g.initializers).Keys);
    GeneratedNotTemporary(trimmed, values);
    var own, before := InitialValues(generated).Keys, inputs + InitialValues(g.initializers).Keys;
    assert defined == before + own && own !! taken;
    forall i: nat | i < |g.nodes|
      ensures Written(g.nodes[i]) !! defined && Temporaries(g.nodes[i], values) !! defined
    {
      NoTemporaryIsGenerated(g.nodes[i], values, InitialValues(generated));
      NewNames(Written(g.nodes[i]), Temporaries(g.nodes[i], values), before, own, taken);
    }
    BlocksLaid(g, taken, defined);
  }

  lemma {:induction false} NoTemporaryIsGenerated(n: Node, values: Env, generated: Env)
    requires Checked(n)
    requires forall name: string :: name + "__cropped" !in generated && name + "__expanded" !in generated
    ensures Temporaries(n, values) !! generated.Keys
  {
    TemporaryIs(n, values);
  }

  lemma {:induction false} TemporariesApart(nodes: seq<Node>, values: Env, i: nat, j: nat)
    requires AllChecked(nodes) && Apart(WrittenBy(nodes)) && i < j < |nodes|
    ensures Temporaries(nodes[i], values) !! Temporaries(nodes[j], values) <==>
            !(NeedsSplit(nodes[i], values) && NeedsSplit(nodes[j], values) && nodes[i].inputs[0] == nodes[j].inputs[0])
  {
    var a, b := nodes[i], nodes[j];
    TemporaryIs(a, values);
    TemporaryIs(b, values);
    assert WrittenBy(nodes)[i] !! WrittenBy(nodes)[j];
    if (IsEinsumOuter(a) || NeedsSplit(a, values)) && (IsEinsumOuter(b) || NeedsSplit(b, values)) {
      SameTemporary(a, b);
      assert IsEinsumOuter(a) ==> a.outputs[0] in Written(a);
      assert IsEinsumOuter(b) ==> b.outputs[0] in Written(b);
    }
  }

  lemma {:induction false} ApartIff(g: Graph)
    requires AllChecked(g.nodes) && Apart(WrittenBy(g.nodes))
    ensures Apart(TemporariesOf(g.nodes, ConstantValues(g.initializers, g.nodes))) <==> NoSharedCrop(g)
  {
    var values := ConstantValues(g.initializers, g.nodes);
    forall i: nat, j: nat | i < j < |g.nodes|
      ensures TemporariesOf(g.nodes, values)[i] !! TemporariesOf(g.nodes, values)[j] <==>
              !(NeedsSplit(g.nodes[i], values) && NeedsSplit(g.nodes[j], values)
                && g.nodes[i].inputs[0] == g.nodes[j].inputs[0])
    {
      TemporariesApart(g.nodes, values, i, j);
    }
  }

  /** The rewritten graph assigns every name once exactly when no two split Pads read one tensor. */
  lemma {:induction false} RewrittenAssignsOnce(g: Graph, inputs: set<string>, taken: set<string>)
    requires AllChecked(g.nodes) && Applicable(g, taken) && Named(g, inputs, taken)
    ensures SingleAssignment(Rewritten(g).nodes, inputs + InitialValues(Rewritten(g).initializers).Keys) <==>
        NoSharedCrop(g)
  {
    var values := ConstantValues(g.initializers, g.nodes);
    RewrittenLaid(g, inputs, taken);
    BlocksAssignOnce(g.nodes, Blocks(g.nodes, values, EmptyOutputs(g.nodes, values)), TemporariesOf(g.nodes, values),
                     taken,
                     inputs + InitialValues(Rewritten(g).initializers).Keys);
    ApartIff(g);
  }

  /** No rewritten node writes an initializer. */
  lemma {:induction false} RewrittenInitializersUnwritten(g: Graph, inputs: set<string>, taken: set<string>)
    requires AllChecked(g.nodes) && Applicable(g, taken) && Named(g, inputs, taken)
    ensures InitializersUnwritten(Rewritten(g))
  {
    var values := ConstantValues(g.initializers, g.nodes);
    RewrittenLaid(g, inputs, taken);
    NothingDefinedAgain(g.nodes, Blocks(g.nodes, values, EmptyOutputs(g.nodes, values)), TemporariesOf(g.nodes, values),
                        taken, inputs + InitialValues(Rewritten(g).initializers).Keys);
  }

  lemma {:induction false} NewInitializers(g: Graph, inputs: set<string>, taken: set<string>)
    requires AllChecked(g.nodes) && Applicable(g, taken) && Named(g, inputs, taken)
    requires inputs !! InitialValues(g.initializers).Keys
    ensures inputs !! InitialValues(Rewritten(g).initializers).Keys
  {
    var values := ConstantValues(g.initializers, g.nodes);
    var trimmed := ConcatNodes(EinsumNodes(g.nodes), EmptyOutputs(g.nodes, values));
    RewrittenIs(g);
    GeneratedIsNew(trimmed, values, taken);
    InitialAppend(g.initializers, AllSplitInitializers(trimmed, values));
  }

  // ------------------------------------------------------------ bool Pads

  predicate IsBoolPad(n: Node, types: map<string, DType>)
    requires Checked(n)
  {
    n.op == PAD && KnownBool(n, types)
  }

  /** No two bool Pads share a tensor that either reads as its data or writes, and none writes what it reads. */
  predicate NoSharedFloat(g: Graph, types: map<string, DType>)
    requires AllChecked(g.nodes)
  {
    && (forall i :: 0 <= i < |g.nodes| && IsBoolPad(g.nodes[i], types) ==>
        g.nodes[i].inputs[0] != g.nodes[i].outputs[0])
    && forall i, j :: 0 <= i < j < |g.nodes| && IsBoolPad(g.nodes[i], types) && IsBoolPad(g.nodes[j], types) ==>
         DataApart(g.nodes[i], g.nodes[j])
  }

  predicate DataApart(a: Node, b: Node)
    requires Checked(a) && Checked(b) && a.op == b.op == PAD
  {
    {a.inputs[0], a.outputs[0]} !! {b.inputs[0], b.outputs[0]}
  }

  lemma {:induction false} FloatsAreApart(a: Node, b: Node, types: map<string, DType>)
    requires Checked(a) && Checked(b)
    ensures Floats(a, types) !! Floats(b, types) <==> (IsBoolPad(a, types) && IsBoolPad(b, types) ==> DataApart(a, b))
  {
    if IsBoolPad(a, types) && IsBoolPad(b, types) {
      forall x: string, y: string | x + "__float" == y + "__float" ensures x == y {
        SameTail(x, y, "__float");
      }
      assert a.inputs[0] + "__float" in Floats(a, types) && a.outputs[0] + "__float" in Floats(a, types);
      assert b.inputs[0] + "__float" in Floats(b, types) && b.outputs[0] + "__float" in Floats(b, types);
    }
  }

  lemma {:induction false} FloatsApartIff(g: Graph, types: map<string, DType>)
    requires AllChecked(g.nodes)
    ensures Apart(FloatsOf(g.nodes, types)) <==>
            forall i, j :: 0 <= i < j < |g.nodes| && IsBoolPad(g.nodes[i], types) && IsBoolPad(g.nodes[j], types) ==>
              DataApart(g.nodes[i], g.nodes[j])
  {
    forall i: nat, j: nat | i < j < |g.nodes|
      ensures FloatsOf(g.nodes, types)[i] !! FloatsOf(g.nodes, types)[j] <==>
              (IsBoolPad(g.nodes[i], types) && IsBoolPad(g.nodes[j], types) ==> DataApart(g.nodes[i], g.nodes[j]))
    {
      FloatsAreApart(g.nodes[i], g.nodes[j], types);
    }
  }

  /** The nodes of the compatible graph write the names of the graph and the float names; none is an initializer. */
  lemma {:induction false} CompatibleNamesLaid(g: Graph, types: map<string, DType>, inputs: set<string>,
          taken: set<string>)
    requires AllChecked(g.nodes) && Named(g, inputs, taken) && forall m :: m in taken ==> !IsFillName(m)
    requires forall i :: 0 <= i < |g.nodes| ==> Floats(g.nodes[i], types) !! taken
    ensures Laid(g.nodes, CompatibleBlocks(g.nodes, types), FloatsOf(g.nodes, types), taken,
                 inputs + InitialValues(Compatible(g, types).initializers).Keys)
    ensures Apart(WrittenBy(g.nodes))
  {
    var generated := AllCompatibleInitializers(g.nodes, types);
    var defined := inputs + InitialValues(Compatible(g, types).initializers).Keys;
    FillsAreZero(g.nodes, types, |g.nodes|);
    InitialAppend(g.initializers, generated);
    SingleApart(g.nodes, inputs + InitialValues(g.initializers).Keys);
    var own := InitialValues(generated).Keys;
    assert defined == inputs + InitialValues(g.initializers).Keys + own && own !! taken;
    forall i: nat | i < |g.nodes| ensures Written(g.nodes[i]) !! defined && Floats(g.nodes[i], types) !! defined {
      NoFloatIsFill(g.nodes[i], types, InitialValues(generated));
      NewNames(Written(g.nodes[i]), Floats(g.nodes[i], types), inputs + InitialValues(g.initializers).Keys, own, taken);
    }
    CompatibleLaid(g, types, taken, defined);
  }

  lemma {:induction false} NewNames(written: set<string>, floats: set<string>, before: set<string>, own: set<string>,
          taken: set<string>)
    requires written <= taken && floats !! taken && before <= taken && own !! taken && written !! before
        && floats !! own
    ensures written !! before + own && floats !! before + own
  {
  }

  lemma {:induction false} NoFloatIsFill(n: Node, types: map<string, DType>, fills: Env)
    requires Checked(n) && OnlyZeros(fills)
    ensures Floats(n, types) !! fills.Keys
  {
    forall m, name: string | m in fills ensures m != name + "__float" {
      FillNameEnd(m, name);
    }
  }

  /** The compatible graph assigns every name once exactly when no two bool Pads share a tensor. */
  lemma {:induction false} CompatibleAssignsOnce(g: Graph, types: map<string, DType>, inputs: set<string>,
          taken: set<string>)
    requires AllChecked(g.nodes) && Named(g, inputs, taken) && forall m :: m in taken ==> !IsFillName(m)
    requires forall i :: 0 <= i < |g.nodes| ==> Floats(g.nodes[i], types) !! taken
    ensures
      SingleAssignment(Compatible(g, types).nodes, inputs + InitialValues(Compatible(g, types).initializers).Keys) <==>
      NoSharedFloat(g, types)
  {
    var blocks := CompatibleBlocks(g.nodes, types);
    CompatibleNamesLaid(g, types, inputs, taken);
    CompatibleNodesAreBlocks(g.nodes, types);
    BlocksAssignOnce(g.nodes, blocks, FloatsOf(g.nodes, types), taken,
                     inputs + InitialValues(Compatible(g, types).initializers).Keys);
    FloatsApartIff(g, types);
    EachAssignsOnce(g, types, taken);
  }

  lemma {:induction false} EachAssignsOnce(g: Graph, types: map<string, DType>, taken: set<string>)
    requires AllChecked(g.nodes)
    requires forall i :: 0 <= i < |g.nodes| ==> Written(g.nodes[i]) <= taken && Floats(g.nodes[i], types) !! taken
    ensures (forall i :: 0 <= i < |g.nodes| ==> SingleAssignment(CompatibleBlocks(g.nodes, types)[i], {})) <==>
            forall i :: 0 <= i < |g.nodes| && IsBoolPad(g.nodes[i], types) ==>
                g.nodes[i].inputs[0] != g.nodes[i].outputs[0]
  {
    forall i: nat | i < |g.nodes|
      ensures SingleAssignment(CompatibleBlocks(g.nodes, types)[i], {}) <==>
              (IsBoolPad(g.nodes[i], types) ==> g.nodes[i].inputs[0] != g.nodes[i].outputs[0])
    {
      CompatibleLays(g.nodes[i], i, types, taken);
    }
  }
}
