/** Which initializers the exported graph still reads, told by the graph before the passes. */
module Survival {
  import opened Names
  import opened Graphs
  import opened Passes
  import opened Pipeline
  import opened Pruning

  /** The inputs that a node still reads after the rewrites: a split Pad no longer reads its pads, a Concat not
      the inputs it loses. */
  function StillReads(n: Node, values: Env, empty: set<string>): seq<string>
    requires Checked(n)
  {
    if IsEinsumOuter(n) then n.inputs[..2]
    else if n.op == CONCAT then ConcatNode(n, empty).inputs
    else if NeedsSplit(n, values) then [n.inputs[0]] + n.inputs[2..]
    else n.inputs
  }

  function Still(n: Node, values: Env, empty: set<string>): Node
    requires Checked(n)
  {
    n.(inputs := StillReads(n, values, empty))
  }

  function StillNodes(nodes: seq<Node>, values: Env, empty: set<string>): (r: seq<Node>)
    requires AllChecked(nodes)
    ensures |r| == |nodes| && forall i :: 0 <= i < |r| ==> r[i] == Still(nodes[i], values, empty)
  {
    seq(|nodes|, i requires 0 <= i < |nodes| => Still(nodes[i], values, empty))
  }

  /** Every graph output that is an initializer is read by a node on a dependency path, where paths and reads
      ignore the pads of split Pads and the inputs that Concats lose. */
  ghost predicate OutputsRead(g: Graph)
    requires AllChecked(g.nodes)
  {
    var values := ConstantValues(g.initializers, g.nodes);
    var still := StillNodes(g.nodes, values, EmptyOutputs(g.nodes, values));
    forall k :: 0 <= k < |g.outputs| && g.outputs[k] in InitialValues(g.initializers) ==>
      ReadOnPath(still, NameSet(g.outputs), g.outputs[k])
  }

  // ------------------------------------------------------------ one block

  ghost predicate IsGenerated(m: string) {
    exists index: nat, part :: m == GeneratedName(index, part)
  }

  /** The name that a node hands from the first to the second node of its block. */
  function Temporary(n: Node): string
    requires Checked(n) && (IsEinsumOuter(n) || n.op == PAD)
  {
    if IsEinsumOuter(n) then n.outputs[0] + "__expanded" else n.inputs[0] + "__cropped"
  }

  predicate Makes(n: Node, values: Env, m: string)
    requires Checked(n)
  {
    (IsEinsumOuter(n) || NeedsSplit(n, values)) && m == Temporary(n)
  }

  /** What a block reads: if the node is needed, what it still reads and otherwise only names of the passes. */
  ghost predicate Effect(n: Node, values: Env, empty: set<string>, taken: set<string>, hit: bool, before: set<string>,
          after: set<string>)
    requires Checked(n)
  {
    && after <= before
    && (forall m :: m in taken ==> (m in before <==> m in after || (hit && m in Reads(Still(n, values, empty)))))
    && (forall m :: m in before && m !in taken ==> m in after || (hit && Makes(n, values, m)) || IsGenerated(m))
  }

  lemma {:induction false} OneNode(a: Node, outputs: set<string>, used: set<string>)
    ensures UsedBefore([a], outputs, used) == if Hits(a, outputs + used) then used + Reads(a) else used
  {
    assert UsedBefore([], outputs, used) == used;
  }

  lemma {:induction false} TwoNodes(a: Node, b: Node, t: string, outputs: set<string>, used: set<string>)
    requires a.outputs == [t] && t !in outputs && t in Reads(b)
    ensures UsedBefore([a, b], outputs, used) ==
            if Hits(b, outputs + used) then used + Reads(b) + Reads(a)
            else if t in used then used + Reads(a) else used
  {
    assert [a, b][1..] == [b];
    OneNode(b, outputs, used);
    var later := UsedBefore([b], outputs, used);
    assert Hits(a, outputs + later) <==> t in later by {
      assert t in a.outputs;
    }
  }

  ghost predicate IsNew(m: string, taken: set<string>) {
    IsGenerated(m) && m !in taken
  }

  /** A pair of nodes that together read what the node still reads, the temporary and generated names. */
  ghost predicate PairReads(a: Node, b: Node, still: Node, t: string, taken: set<string>) {
    && (forall m :: m in Reads(a) ==> m in Reads(still) || IsNew(m, taken))
    && (forall m :: m in Reads(b) ==> m == t || m in Reads(still) || IsNew(m, taken))
    && (forall m :: m in Reads(still) ==> m in Reads(a) || m in Reads(b))
  }

  lemma {:induction false} PairEffect(n: Node, a: Node, b: Node, t: string, values: Env, empty: set<string>,
          outputs: set<string>, taken: set<string>, used: set<string>)
    requires Checked(n) && Makes(n, values, t) && PairReads(a, b, Still(n, values, empty), t, taken)
    requires a.outputs == [t] && t !in taken && t in Reads(b) && b.outputs == n.outputs && outputs <= taken
    requires Reads(Still(n, values, empty)) <= taken
        && (t in used ==> forall m :: m in Reads(a) ==> m in used || IsNew(m, taken))
    ensures Effect(n, values, empty, taken, Hits(n, outputs + used), UsedBefore([a, b], outputs, used), used)
  {
    TwoNodes(a, b, t, outputs, used);
    assert Hits(b, outputs + used) <==> Hits(n, outputs + used);
  }

  lemma {:induction false} EinsumEffect(n: Node, place: nat, values: Env, empty: set<string>, outputs: set<string>,
          taken: set<string>, used: set<string>)
    requires Checked(n) && IsEinsumOuter(n) && outputs <= taken && Reads(n) <= taken
    requires Temporary(n) !in taken && Temporary(n) !in used
    ensures Effect(n, values, empty, taken, Hits(n, outputs + used),
                   UsedBefore(Block(n, place, values, empty), outputs, used), used)
  {
    var a, b, t := EinsumBlock(n)[0], EinsumBlock(n)[1], Temporary(n);
    assert Block(n, place, values, empty) == [a, b];
    EinsumReads(n, values, empty, taken);
    StillReadsLess(n, values, empty);
    PairEffect(n, a, b, t, values, empty, outputs, taken, used);
  }

  lemma {:induction false} EinsumReads(n: Node, values: Env, empty: set<string>, taken: set<string>)
    requires Checked(n) && IsEinsumOuter(n)
    ensures
      var a, b, t := EinsumBlock(n)[0], EinsumBlock(n)[1], Temporary(n);
      t in Reads(b) && PairReads(a, b, Still(n, values, empty), t, taken)
  {
    var a, b, t := EinsumBlock(n)[0], EinsumBlock(n)[1], Temporary(n);
    var still := StillReads(n, values, empty);
    assert b.inputs[0] == t && t != "";
    assert still == [a.inputs[0], b.inputs[1]];
    forall m | m in Reads(a) ensures m in Reads(Still(n, values, empty)) {
      assert m == still[0];
    }
    forall m | m in Reads(b) ensures m == t || m in Reads(Still(n, values, empty)) {
      assert m == t || m == still[1];
    }
  }

  lemma {:induction false} SplitEffect(n: Node, place: nat, values: Env, empty: set<string>, outputs: set<string>,
          taken: set<string>, used: set<string>)
    requires Checked(n) && NeedsSplit(n, values) && outputs <= taken && Reads(n) <= taken
    requires Temporary(n) !in taken && (Temporary(n) in used && n.inputs[0] != "" ==> n.inputs[0] in used)
    requires forall part :: GeneratedName(place, part) !in taken
    ensures Effect(n, values, empty, taken, Hits(n, outputs + used),
                   UsedBefore(Block(n, place, values, empty), outputs, used), used)
  {
    var names := GeneratedNames(place);
    var a, b, t := SplitPad(n, names)[0], SplitPad(n, names)[1], Temporary(n);
    assert Block(n, place, values, empty) == [a, b];
    NamesAreNew(place, taken);
    SplitReads(n, names, values, empty, taken);
    StillReadsLess(n, values, empty);
    PairEffect(n, a, b, t, values, empty, outputs, taken, used);
  }

  lemma {:induction false} NamesAreNew(place: nat, taken: set<string>)
    requires forall part :: GeneratedName(place, part) !in taken
    ensures forall m :: m in GeneratedNames(place) ==> IsNew(m, taken)
  {
    forall m | m in GeneratedNames(place) ensures IsNew(m, taken) {
      var k :| 0 <= k < |PARTS| && GeneratedNames(place)[k] == m;
      assert m == GeneratedName(place, PARTS[k]);
    }
  }

  /** The two nodes of a split Pad read what the Pad still reads, the temporary and the generated names. */
  lemma {:induction false} SplitReads(n: Node, names: seq<string>, values: Env, empty: set<string>, taken: set<string>)
    requires Checked(n) && NeedsSplit(n, values) && |names| == |PARTS| && forall m :: m in names ==> IsNew(m, taken)
    ensures
      var a, b, t := SplitPad(n, names)[0], SplitPad(n, names)[1], Temporary(n);
      && t in Reads(b) && PairReads(a, b, Still(n, values, empty), t, taken)
      && forall m :: m in Reads(a) ==> m == n.inputs[0] || IsNew(m, taken)
  {
    var a, b, t := SplitPad(n, names)[0], SplitPad(n, names)[1], Temporary(n);
    var still := StillReads(n, values, empty);
    assert still[0] == n.inputs[0] && a.inputs[0] == n.inputs[0] && b.inputs[0] == t && t != "";
    forall m | m in Reads(a) ensures m == n.inputs[0] || m in names {
      var k :| 0 <= k < |a.inputs| && a.inputs[k] == m;
      if k > 0 {
        assert names[k - 1] == m;
      }
    }
    forall m | m in Reads(b) ensures m == t || m in names || m in Reads(Still(n, values, empty)) {
      var k :| 0 <= k < |b.inputs| && b.inputs[k] == m;
      if k == 1 {
        assert names[4] == m;
      } else if k >= 2 {
        assert still[k - 1] == m;
      }
    }
    forall m | m in Reads(Still(n, values, empty)) ensures m in Reads(a) || m in Reads(b) {
      var k :| 0 <= k < |still| && still[k] == m;
      if k > 0 {
        assert b.inputs[k + 1] == m;
      }
    }
  }

  lemma {:induction false} PlainEffect(n: Node, place: nat, values: Env, empty: set<string>, outputs: set<string>,
          taken: set<string>, used: set<string>)
    requires Checked(n) && !IsEinsumOuter(n) && !NeedsSplit(n, values)
    requires Reads(n) <= taken
    ensures Effect(n, values, empty, taken, Hits(n, outputs + used),
                   UsedBefore(Block(n, place, values, empty), outputs, used), used)
  {
    var a := if n.op == CONCAT then ConcatNode(n, empty) else n;
    assert Block(n, place, values, empty) == [a];
    OneNode(a, outputs, used);
    assert Reads(a) == Reads(Still(n, values, empty));
    StillReadsLess(n, values, empty);
  }

  lemma {:induction false} StillReadsLess(n: Node, values: Env, empty: set<string>)
    requires Checked(n)
    ensures Reads(Still(n, values, empty)) <= Reads(n)
  {
    if n.op == CONCAT {
      WithoutReads(n.inputs, empty);
    } else {
      forall m | m in StillReads(n, values, empty) ensures m in n.inputs {
      }
    }
  }

  lemma {:induction false} WithoutReads(names: seq<string>, empty: set<string>)
    ensures forall m :: m in Without(names, empty) ==> m in names
  {
    if names != [] {
      WithoutReads(names[..|names| - 1], empty);
    }
  }

  // ------------------------------------------------------------ all blocks

  /** The names of the passes are new, and the graph reads and writes `taken` names, each written once. */
  ghost predicate Ready(nodes: seq<Node>, values: Env, taken: set<string>)
    requires AllChecked(nodes)
  {
    && (forall index, part :: GeneratedName(index, part) !in taken) && "" !in taken
    && (forall k :: 0 <= k < |nodes| ==>
          Temporaries(nodes[k], values) !! taken && Reads(nodes[k]) <= taken && Written(nodes[k]) <= taken)
    && forall k, l :: 0 <= k < l < |nodes| ==> Written(nodes[k]) !! Written(nodes[l])
  }

  /** Behind node `i` the rewritten graph reads the same names of the graph as `still` does; it reads the cropped
      form of a tensor only where it reads the tensor, and no expanded form of an earlier node. */
  ghost predicate Tracks(nodes: seq<Node>, values: Env, taken: set<string>, i: nat, used: set<string>,
          still: set<string>)
    requires AllChecked(nodes)
  {
    && "" !in used && still <= taken && (forall m :: m in taken ==> (m in used <==> m in still))
    && (forall k :: 0 <= k < |nodes| ==> CroppedFollows(nodes[k], values, used))
    && forall k :: 0 <= k < |nodes| && k < i ==> NotExpanded(nodes[k], used)
  }

  ghost predicate CroppedFollows(n: Node, values: Env, used: set<string>)
    requires Checked(n)
  {
    NeedsSplit(n, values) && Temporary(n) in used && n.inputs[0] != "" ==> n.inputs[0] in used
  }

  ghost predicate NotExpanded(n: Node, used: set<string>)
    requires Checked(n)
  {
    IsEinsumOuter(n) ==> Temporary(n) !in used
  }

  lemma {:induction false} BlockEffect(nodes: seq<Node>, values: Env, empty: set<string>, outputs: set<string>,
          taken: set<string>, i: nat, place: nat, used: set<string>, still: set<string>)
    requires AllChecked(nodes) && Ready(nodes, values, taken) && i < |nodes| && outputs <= taken
    requires Tracks(nodes, values, taken, i + 1, used, still)
    ensures Effect(nodes[i], values, empty, taken, Hits(nodes[i], outputs + used),
                   UsedBefore(Block(nodes[i], place, values, empty), outputs, used), used)
  {
    var n := nodes[i];
    assert NotExpanded(n, used) && CroppedFollows(n, values, used);
    assert Temporaries(n, values) !! taken && Reads(n) <= taken;
    if IsEinsumOuter(n) {
      assert Temporary(n) in Temporaries(n, values);
      EinsumEffect(n, place, values, empty, outputs, taken, used);
    } else if NeedsSplit(n, values) {
      assert Temporary(n) in Temporaries(n, values);
      SplitEffect(n, place, values, empty, outputs, taken, used);
    } else {
      PlainEffect(n, place, values, empty, outputs, taken, used);
    }
  }

  lemma {:induction false} NotGenerated(n: Node)
    requires Checked(n) && (IsEinsumOuter(n) || n.op == PAD)
    ensures Temporary(n) != "" && !IsGenerated(Temporary(n)) && !IsGenerated("")
  {
    if IsGenerated(Temporary(n)) {
      var index: nat, part :| Temporary(n) == GeneratedName(index, part);
      var tail := if IsEinsumOuter(n) then "__expanded" else "__cropped";
      GeneratedNameEnd(index, part, if IsEinsumOuter(n) then n.outputs[0] else n.inputs[0], tail);
    }
    EmptyNotGenerated();
  }

  lemma {:induction false} EmptyNotGenerated()
    ensures !IsGenerated("")
  {
    forall index: nat, part ensures GeneratedName(index, part) != "" {
      assert |GeneratedName(index, part)| >= |Stem(part)|;
    }
  }

  lemma {:induction false} SameTemporary(a: Node, b: Node)
    requires Checked(a) && Checked(b) && (IsEinsumOuter(a) || a.op == PAD) && (IsEinsumOuter(b) || b.op == PAD)
    ensures Temporary(a) == Temporary(b) <==>
            (IsEinsumOuter(a) && IsEinsumOuter(b) && a.outputs[0] == b.outputs[0])
            || (a.op == PAD && b.op == PAD && a.inputs[0] == b.inputs[0])
  {
    if Temporary(a) == Temporary(b) {
      if IsEinsumOuter(a) && IsEinsumOuter(b) {
        SameTail(a.outputs[0], b.outputs[0], "__expanded");
      } else if a.op == PAD && b.op == PAD {
        SameTail(a.inputs[0], b.inputs[0], "__cropped");
      } else if IsEinsumOuter(a) {
        TailsDiffer(a.outputs[0], b.inputs[0]);
      } else {
        TailsDiffer(b.outputs[0], a.inputs[0]);
      }
    }
  }

  /** The cropped forms that become read are those of tensors that become read. */
  lemma {:induction false} CroppedStays(n: Node, k: Node, values: Env, empty: set<string>, taken: set<string>,
          hit: bool,
          before: set<string>, after: set<string>)
    requires Checked(n) && Checked(k) && Effect(n, values, empty, taken, hit, before, after)
    requires CroppedFollows(k, values, after) && Temporaries(k, values) !! taken && Reads(n) <= taken
    ensures CroppedFollows(k, values, before)
  {
    if NeedsSplit(k, values) && Temporary(k) in before && k.inputs[0] != "" && Temporary(k) !in after {
      assert Temporary(k) in Temporaries(k, values);
      NotGenerated(k);
      SameTemporary(n, k);
      assert StillReads(n, values, empty)[0] == k.inputs[0];
      assert k.inputs[0] in Reads(Still(n, values, empty));
      StillReadsLess(n, values, empty);
    }
  }

  lemma {:induction false} ExpandedStays(n: Node, k: Node, values: Env, empty: set<string>, taken: set<string>,
          hit: bool,
          before: set<string>, after: set<string>)
    requires Checked(n) && Checked(k) && Effect(n, values, empty, taken, hit, before, after)
    requires NotExpanded(k, after) && Temporaries(k, values) !! taken && Written(n) !! Written(k)
    ensures NotExpanded(k, before)
  {
    if IsEinsumOuter(k) {
      assert Temporary(k) in Temporaries(k, values) && k.outputs[0] in Written(k);
      NotGenerated(k);
      if Makes(n, values, Temporary(k)) {
        SameTemporary(n, k);
      }
    }
  }

  lemma {:induction false} TrackStep(nodes: seq<Node>, values: Env, empty: set<string>, outputs: set<string>,
          taken: set<string>, i: nat, place: nat, used: set<string>, still: set<string>)
    requires AllChecked(nodes) && Ready(nodes, values, taken) && i < |nodes| && outputs <= taken
    requires Tracks(nodes, values, taken, i + 1, used, still)
    ensures Tracks(nodes, values, taken, i, UsedBefore(Block(nodes[i], place, values, empty), outputs, used),
                   UsedBefore([Still(nodes[i], values, empty)], outputs, still))
  {
    var n := nodes[i];
    var before, earlier := UsedBefore(Block(n, place, values, empty), outputs, used),
        UsedBefore([Still(n, values, empty)], outputs, still);
    var hit := Hits(n, outputs + used);
    BlockEffect(nodes, values, empty, outputs, taken, i, place, used, still);
    assert Reads(n) <= taken && Written(n) <= taken;
    StillEffect(n, values, empty, outputs, taken, used, still);
    NothingEmpty(n, values, empty, taken, hit, before, used);
    forall k: nat | k < |nodes| ensures CroppedFollows(nodes[k], values, before) {
      assert CroppedFollows(nodes[k], values, used) && Temporaries(nodes[k], values) !! taken;
      CroppedStays(n, nodes[k], values, empty, taken, hit, before, used);
    }
    forall k: nat | k < |nodes| && k < i ensures NotExpanded(nodes[k], before) {
      assert NotExpanded(nodes[k], used) && Temporaries(nodes[k], values) !! taken;
      ExpandedStays(n, nodes[k], values, empty, taken, hit, before, used);
    }
  }

  lemma {:induction false} StillEffect(n: Node, values: Env, empty: set<string>, outputs: set<string>,
          taken: set<string>,
          used: set<string>, still: set<string>)
    requires Checked(n) && Reads(n) <= taken && Written(n) <= taken && outputs <= taken && "" !in taken && "" !in used
    requires still <= taken && forall m :: m in taken ==> (m in used <==> m in still)
    ensures
      var earlier := UsedBefore([Still(n, values, empty)], outputs, still);
      && earlier <= taken
      && forall m :: m in earlier <==> m in still || (Hits(n, outputs + used) && m in Reads(Still(n, values, empty)))
  {
    StillReadsLess(n, values, empty);
    OneNode(Still(n, values, empty), outputs, still);
    forall o | o in n.outputs ensures o in outputs + used <==> o in outputs + still {
      if o != "" {
        assert o in Written(n);
      }
    }
  }

  lemma {:induction false} NothingEmpty(n: Node, values: Env, empty: set<string>, taken: set<string>, hit: bool,
          before: set<string>, after: set<string>)
    requires Checked(n) && Effect(n, values, empty, taken, hit, before, after) && "" !in after && "" !in taken
    ensures "" !in before
  {
    if IsEinsumOuter(n) || n.op == PAD {
      NotGenerated(n);
    }
    EmptyNotGenerated();
  }

  /** The whole rewritten graph reads the same names of the graph as `still` does. */
  lemma {:induction false} TracksFrom(nodes: seq<Node>, values: Env, empty: set<string>, outputs: set<string>,
          taken: set<string>, i: nat)
    requires AllChecked(nodes) && Ready(nodes, values, taken) && i <= |nodes| && outputs <= taken
    ensures Tracks(nodes, values, taken, i, UsedBefore(Flatten(Blocks(nodes, values, empty)[i..]), outputs, {}),
                   UsedBefore(StillNodes(nodes, values, empty)[i..], outputs, {}))
    decreases |nodes| - i
  {
    var blocks, still := Blocks(nodes, values, empty), StillNodes(nodes, values, empty);
    if i < |nodes| {
      TracksFrom(nodes, values, empty, outputs, taken, i + 1);
      var place := BlockAt(nodes, values, empty, i);
      TrackFromStep(nodes, values, empty, outputs, taken, i, place, blocks, still);
    } else {
      assert blocks[i..] == [] && still[i..] == [];
      NothingTracked(nodes, values, taken, i);
    }
  }

  lemma {:induction false} NothingTracked(nodes: seq<Node>, values: Env, taken: set<string>, i: nat)
    requires AllChecked(nodes)
    ensures Tracks(nodes, values, taken, i, {}, {})
  {
  }

  lemma {:induction false} TrackFromStep(nodes: seq<Node>, values: Env, empty: set<string>, outputs: set<string>,
          taken: set<string>, i: nat, place: nat, blocks: seq<seq<Node>>, still: seq<Node>)
    requires AllChecked(nodes) && Ready(nodes, values, taken) && outputs <= taken && |blocks| == |still| == |nodes|
        && i < |nodes|
    requires blocks[i] == Block(nodes[i], place, values, empty) && still[i] == Still(nodes[i], values, empty)
    requires Tracks(nodes, values, taken, i + 1, UsedBefore(Flatten(blocks[i + 1..]), outputs, {}),
                    UsedBefore(still[i + 1..], outputs, {}))
    ensures Tracks(nodes, values, taken, i, UsedBefore(Flatten(blocks[i..]), outputs, {}),
                   UsedBefore(still[i..], outputs, {}))
  {
    UsedFrom(blocks, outputs, i);
    UsedFromOne(still, outputs, i);
    TrackStep(nodes, values, empty, outputs, taken, i, place, UsedBefore(Flatten(blocks[i + 1..]), outputs, {}),
              UsedBefore(still[i + 1..], outputs, {}));
  }

  lemma {:induction false} UsedFrom(blocks: seq<seq<Node>>, outputs: set<string>, i: nat)
    requires i < |blocks|
    ensures UsedBefore(Flatten(blocks[i..]), outputs, {})
            == UsedBefore(blocks[i], outputs, UsedBefore(Flatten(blocks[i + 1..]), outputs, {}))
  {
    assert blocks[i..][0] == blocks[i] && blocks[i..][1..] == blocks[i + 1..];
    UsedAppend(blocks[i], Flatten(blocks[i + 1..]), outputs, {});
  }

  lemma {:induction false} UsedFromOne(nodes: seq<Node>, outputs: set<string>, i: nat)
    requires i < |nodes|
    ensures UsedBefore(nodes[i..], outputs, {})
        == UsedBefore([nodes[i]], outputs, UsedBefore(nodes[i + 1..], outputs, {}))
  {
    assert nodes[i..] == [nodes[i]] + nodes[i + 1..];
    UsedAppend([nodes[i]], nodes[i + 1..], outputs, {});
  }

  /** The rewritten graph reads a name of the graph exactly when a node on a dependency path still reads it. */
  lemma {:induction false} StillUsed(g: Graph, values: Env, empty: set<string>, taken: set<string>, m: string)
    requires AllChecked(g.nodes) && Ready(g.nodes, values, taken) && NameSet(g.outputs) <= taken && m in taken
    ensures
      m in Used(Scan(Flatten(Blocks(g.nodes, values, empty)), NameSet(g.outputs)).kept) <==>
      ReadOnPath(StillNodes(g.nodes, values, empty), NameSet(g.outputs), m)
  {
    var blocks, still := Blocks(g.nodes, values, empty), StillNodes(g.nodes, values, empty);
    TracksFrom(g.nodes, values, empty, NameSet(g.outputs), taken, 0);
    assert blocks[0..] == blocks && still[0..] == still;
    UsedIs(Flatten(blocks), NameSet(g.outputs));
    UsedIsReadOnPath(still, NameSet(g.outputs), m);
  }

  /** A graph whose outputs and node inputs are `taken` names: after the passes an initializer output is still read
      exactly when a node on a dependency path reads it, apart from the reads that the passes remove. */
  lemma {:induction false} SurviveIff(g: Graph, taken: set<string>)
    requires AllChecked(g.nodes) && Ready(g.nodes, ConstantValues(g.initializers, g.nodes), taken)
    requires NameSet(g.outputs) <= taken
    ensures OutputsSurvive(Rewritten(g)) <==> OutputsRead(g)
  {
    var values := ConstantValues(g.initializers, g.nodes);
    var empty := EmptyOutputs(g.nodes, values);
    var trimmed := ConcatNodes(EinsumNodes(g.nodes), empty);
    RewrittenIs(g);
    GeneratedIsNew(trimmed, values, taken);
    InitialAppend(g.initializers, AllSplitInitializers(trimmed, values));
    forall k: nat | k < |g.outputs|
      ensures InputOnPath(Rewritten(g).nodes, NameSet(g.outputs), g.outputs[k]) <==>
              ReadOnPath(StillNodes(g.nodes, values, empty), NameSet(g.outputs), g.outputs[k])
      ensures g.outputs[k] in InitialValues(Rewritten(g).initializers) <==>
          g.outputs[k] in InitialValues(g.initializers)
    {
      assert g.outputs[k] in NameSet(g.outputs);
      StillUsed(g, values, empty, taken, g.outputs[k]);
      UsedIsOnPath(Rewritten(g).nodes, NameSet(g.outputs), g.outputs[k]);
    }
  }
}
