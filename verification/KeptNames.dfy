/** Whether the pruned graph assigns every name once. Pruning removes a crop only if no kept Pad behind it reads the
    cropped tensor, so of two split Pads over one tensor the later one decides. */
module KeptNames {
  import opened Graphs
  import opened Passes
  import opened Pipeline
  import opened Pruning
  import opened Assignment
  import opened Survival
  import opened SharedNames

  /** Both Pads are split and crop one tensor. */
  predicate SharesCrop(a: Node, b: Node, values: Env)
    requires Checked(a) && Checked(b)
  {
    NeedsSplit(a, values) && NeedsSplit(b, values) && a.inputs[0] == b.inputs[0]
  }

  /** A split Pad that an earlier one shares its tensor with is on no dependency path to an output, where paths
      ignore the reads that the passes remove. */
  ghost predicate NoKeptSharedCrop(g: Graph)
    requires AllChecked(g.nodes)
  {
    var values := ConstantValues(g.initializers, g.nodes);
    var still := StillNodes(g.nodes, values, EmptyOutputs(g.nodes, values));
    forall i, j :: 0 <= i < j < |g.nodes| && SharesCrop(g.nodes[i], g.nodes[j], values) ==>
      !OnPath(still, NameSet(g.outputs), j)
  }

  // ------------------------------------------------------------ the kept part of a block

  /** The nodes that the scan keeps when later nodes read `used`. */
  function KeptBefore(nodes: seq<Node>, outputs: set<string>, used: set<string>): seq<Node> {
    if nodes == [] then []
    else
      (if Hits(nodes[0], outputs + UsedBefore(nodes[1..], outputs, used)) then [nodes[0]] else [])
      + KeptBefore(nodes[1..], outputs, used)
  }

  lemma {:induction false} KeptBeforeAppend(a: seq<Node>, b: seq<Node>, outputs: set<string>)
    ensures Scan(a + b, outputs).kept == KeptBefore(a, outputs, UsedBefore(b, outputs, {})) + Scan(b, outputs).kept
  {
    if a == [] {
      assert a + b == b;
    } else {
      assert (a + b)[1..] == a[1..] + b && (a + b)[0] == a[0];
      KeptBeforeAppend(a[1..], b, outputs);
      UsedIs(a[1..] + b, outputs);
      UsedAppend(a[1..], b, outputs, {});
    }
  }

  function KeptBlocks(blocks: seq<seq<Node>>, outputs: set<string>): (r: seq<seq<Node>>)
    ensures |r| == |blocks|
  {
    if blocks == [] then []
    else
      [KeptBefore(blocks[0], outputs, UsedBefore(Flatten(blocks[1..]), outputs, {}))] + KeptBlocks(blocks[1..], outputs)
  }

  lemma {:induction false} KeptFlat(blocks: seq<seq<Node>>, outputs: set<string>)
    ensures Scan(Flatten(blocks), outputs).kept == Flatten(KeptBlocks(blocks, outputs))
  {
    if blocks != [] {
      KeptBeforeAppend(blocks[0], Flatten(blocks[1..]), outputs);
      KeptFlat(blocks[1..], outputs);
      var kept := KeptBlocks(blocks, outputs);
      assert kept[1..] == KeptBlocks(blocks[1..], outputs);
    }
  }

  lemma {:induction false} KeptAt(blocks: seq<seq<Node>>, outputs: set<string>, i: nat)
    requires i < |blocks|
    ensures KeptBlocks(blocks, outputs)[i] ==
            KeptBefore(blocks[i], outputs, UsedBefore(Flatten(blocks[i + 1..]), outputs, {}))
  {
    if i > 0 {
      KeptAt(blocks[1..], outputs, i - 1);
      assert blocks[1..][i..] == blocks[i + 1..];
    }
  }

  lemma {:induction false} KeptOne(a: Node, outputs: set<string>, used: set<string>)
    ensures KeptBefore([a], outputs, used) == if Hits(a, outputs + used) then [a] else []
  {
    assert KeptBefore([], outputs, used) == [] && UsedBefore([], outputs, used) == used;
  }

  /** Of two nodes that hand on `t` both are kept, or the first, or none. */
  lemma {:induction false} KeptPair(a: Node, b: Node, t: string, outputs: set<string>, used: set<string>)
    requires a.outputs == [t] && t !in outputs && t in Reads(b)
    ensures KeptBefore([a, b], outputs, used) ==
            if Hits(b, outputs + used) then [a, b] else if t in used then [a] else []
  {
    assert [a, b][1..] == [b];
    OneNode(b, outputs, used);
    KeptOne(b, outputs, used);
    var later := UsedBefore([b], outputs, used);
    assert Hits(a, outputs + later) <==> t in later by {
      assert t in a.outputs;
    }
  }

  /** The temporaries of a node that are kept. */
  function KeptTemporaries(n: Node, values: Env, hit: bool, used: set<string>): set<string>
    requires Checked(n)
  {
    if (IsEinsumOuter(n) || NeedsSplit(n, values)) && (hit || Temporary(n) in used) then {Temporary(n)} else {}
  }

  /** A kept block writes the outputs of its node if the node is needed, and the temporary if that is read. */
  ghost predicate WritesKept(n: Node, values: Env, hit: bool, used: set<string>, block: seq<Node>)
    requires Checked(n)
  {
    && WrittenAll(block) == (if hit then Written(n) else {}) + KeptTemporaries(n, values, hit, used)
    && SingleAssignment(block, {})
  }

  lemma {:induction false} OneWritten(a: Node, defined: set<string>)
    ensures WrittenAll([a]) == Written(a) && (SingleAssignment([a], defined) <==> Written(a) !! defined)
  {
    assert [a][1..] == [];
    assert WrittenAll([]) == {} && SingleAssignment([], defined + Written(a));
  }

  lemma {:induction false} PairWritten(a: Node, b: Node)
    ensures WrittenAll([a, b]) == Written(a) + Written(b) && WrittenAll([a]) == Written(a)
    ensures SingleAssignment([a], {}) && (SingleAssignment([a, b], {}) <==> Written(a) !! Written(b))
  {
    assert [a, b][1..] == [b];
    OneWritten(a, {});
    OneWritten(b, {} + Written(a));
  }

  lemma {:induction false} PairWrites(n: Node, a: Node, b: Node, t: string, values: Env, outputs: set<string>,
          used: set<string>)
    requires Checked(n) && Makes(n, values, t) && a.outputs == [t] && b.outputs == n.outputs
    requires t != "" && t !in outputs && t in Reads(b) && t !in Written(n)
    ensures WritesKept(n, values, Hits(n, outputs + used), used, KeptBefore([a, b], outputs, used))
  {
    KeptPair(a, b, t, outputs, used);
    assert Hits(b, outputs + used) <==> Hits(n, outputs + used);
    assert Written(a) == {t} && Written(b) == Written(n);
    PairWritten(a, b);
  }

  lemma {:induction false} PlainWrites(n: Node, a: Node, values: Env, outputs: set<string>, used: set<string>)
    requires Checked(n) && !IsEinsumOuter(n) && !NeedsSplit(n, values) && a.outputs == n.outputs
    ensures WritesKept(n, values, Hits(n, outputs + used), used, KeptBefore([a], outputs, used))
  {
    KeptOne(a, outputs, used);
    assert Hits(a, outputs + used) <==> Hits(n, outputs + used);
    assert Written(a) == Written(n);
    PairWritten(a, a);
  }

  /** The two nodes of a block with a temporary. */
  lemma {:induction false} PairOf(n: Node, place: nat, values: Env, empty: set<string>)
    returns (a: Node, b: Node)
    requires Checked(n) && (IsEinsumOuter(n) || NeedsSplit(n, values))
    ensures Block(n, place, values, empty) == [a, b] && a.outputs == [Temporary(n)] && b.outputs == n.outputs
    ensures Temporary(n) in Reads(b) && Temporary(n) != "" && Makes(n, values, Temporary(n))
  {
    NotGenerated(n);
    if IsEinsumOuter(n) {
      a, b := EinsumBlock(n)[0], EinsumBlock(n)[1];
      assert b.inputs[0] == Temporary(n);
    } else {
      a, b := SplitPad(n, GeneratedNames(place))[0], SplitPad(n, GeneratedNames(place))[1];
      assert b.inputs[0] == Temporary(n);
    }
  }

  lemma {:induction false} BlockWrites(n: Node, place: nat, values: Env, empty: set<string>, outputs: set<string>,
          taken: set<string>, used: set<string>)
    requires Checked(n) && outputs <= taken && Written(n) <= taken && Temporaries(n, values) !! taken
    ensures WritesKept(n, values, Hits(n, outputs + used), used,
                       KeptBefore(Block(n, place, values, empty), outputs, used))
  {
    TemporaryIs(n, values);
    if IsEinsumOuter(n) || NeedsSplit(n, values) {
      var a, b := PairOf(n, place, values, empty);
      assert Temporary(n) in Temporaries(n, values);
      PairWrites(n, a, b, Temporary(n), values, outputs, used);
    } else {
      var a := if n.op == CONCAT then ConcatNode(n, empty) else n;
      assert Block(n, place, values, empty) == [a];
      PlainWrites(n, a, values, outputs, used);
    }
  }

  // ------------------------------------------------------------ who reads a temporary

  /** What the rewritten nodes from node `i` on read, if they are kept. */
  function UsedFromBlock(nodes: seq<Node>, values: Env, empty: set<string>, outputs: set<string>, i: nat): set<string>
    requires AllChecked(nodes) && i <= |nodes|
  {
    UsedBefore(Flatten(Blocks(nodes, values, empty)[i..]), outputs, {})
  }

  /** Node `i` is needed in the rewritten graph. */
  predicate Needed(nodes: seq<Node>, values: Env, empty: set<string>, outputs: set<string>, i: nat)
    requires AllChecked(nodes) && i < |nodes|
  {
    Hits(nodes[i], outputs + UsedFromBlock(nodes, values, empty, outputs, i + 1))
  }

  lemma {:induction false} KeepsIsOnPath(nodes: seq<Node>, outputs: set<string>, i: nat)
    requires i < |nodes|
    ensures Keeps(nodes, outputs, i) <==> OnPath(nodes, outputs, i)
  {
    if Keeps(nodes, outputs, i) {
      var path := KeptHasPath(nodes, outputs, i);
      assert OnPath(nodes, outputs, i);
    }
    if OnPath(nodes, outputs, i) {
      var path :| IsPath(nodes, outputs, path) && path[0] == i;
      PathIsKept(nodes, outputs, path);
    }
  }

  /** A node is needed in the rewritten graph exactly when it is on a dependency path of the graph. */
  lemma {:induction false} NeededIsOnPath(nodes: seq<Node>, values: Env, empty: set<string>, outputs: set<string>,
          taken: set<string>, i: nat)
    requires AllChecked(nodes) && Ready(nodes, values, taken) && i < |nodes| && outputs <= taken
    ensures Needed(nodes, values, empty, outputs, i) <==> OnPath(StillNodes(nodes, values, empty), outputs, i)
  {
    var still := StillNodes(nodes, values, empty);
    TracksFrom(nodes, values, empty, outputs, taken, i + 1);
    UsedIs(still[i + 1..], outputs);
    KeepsIsOnPath(still, outputs, i);
    assert still[i].outputs == nodes[i].outputs && Written(nodes[i]) <= taken;
    var used, later := UsedFromBlock(nodes, values, empty, outputs, i + 1), UsedBefore(still[i + 1..], outputs, {});
    forall o | o in nodes[i].outputs ensures o in outputs + used <==> o in outputs + later {
      if o != "" {
        assert o in Written(nodes[i]);
      }
    }
  }

  lemma {:induction false} UsedStep(nodes: seq<Node>, values: Env, empty: set<string>, outputs: set<string>,
          taken: set<string>, i: nat)
    requires AllChecked(nodes) && Ready(nodes, values, taken) && i < |nodes| && outputs <= taken
    ensures Effect(nodes[i], values, empty, taken, Needed(nodes, values, empty, outputs, i),
                   UsedFromBlock(nodes, values, empty, outputs, i),
                   UsedFromBlock(nodes, values, empty, outputs, i + 1))
  {
    var place := BlockAt(nodes, values, empty, i);
    TracksFrom(nodes, values, empty, outputs, taken, i + 1);
    UsedFrom(Blocks(nodes, values, empty), outputs, i);
    BlockEffect(nodes, values, empty, outputs, taken, i, place, UsedFromBlock(nodes, values, empty, outputs, i + 1),
                UsedBefore(StillNodes(nodes, values, empty)[i + 1..], outputs, {}));
  }

  lemma {:induction false} UsedGrows(nodes: seq<Node>, values: Env, empty: set<string>, outputs: set<string>,
          taken: set<string>, i: nat, j: nat)
    requires AllChecked(nodes) && Ready(nodes, values, taken) && i <= j <= |nodes| && outputs <= taken
    ensures UsedFromBlock(nodes, values, empty, outputs, j) <= UsedFromBlock(nodes, values, empty, outputs, i)
    decreases j - i
  {
    if i < j {
      UsedStep(nodes, values, empty, outputs, taken, i);
      UsedGrows(nodes, values, empty, outputs, taken, i + 1, j);
    }
  }

  /** A needed node reads its temporary. */
  lemma {:induction false} ReadsTemporary(nodes: seq<Node>, values: Env, empty: set<string>, outputs: set<string>,
          taken: set<string>, i: nat)
    requires AllChecked(nodes) && i < |nodes| && outputs <= taken && Temporaries(nodes[i], values) !! taken
    requires (IsEinsumOuter(nodes[i]) || NeedsSplit(nodes[i], values)) && Needed(nodes, values, empty, outputs, i)
    ensures Temporary(nodes[i]) in UsedFromBlock(nodes, values, empty, outputs, i)
  {
    var n, used := nodes[i], UsedFromBlock(nodes, values, empty, outputs, i + 1);
    var place := BlockAt(nodes, values, empty, i);
    var a, b := PairOf(n, place, values, empty);
    TemporaryIs(n, values);
    assert Temporary(n) in Temporaries(n, values);
    UsedFrom(Blocks(nodes, values, empty), outputs, i);
    TwoNodes(a, b, Temporary(n), outputs, used);
    assert Hits(b, outputs + used) <==> Hits(n, outputs + used);
  }

  lemma {:induction false} NothingUsed(nodes: seq<Node>, values: Env, empty: set<string>, outputs: set<string>)
    requires AllChecked(nodes)
    ensures UsedFromBlock(nodes, values, empty, outputs, |nodes|) == {}
  {
    assert Blocks(nodes, values, empty)[|nodes|..] == [];
  }

  /** Only a needed node reads a temporary: its own. */
  lemma {:induction false} TemporaryReader(nodes: seq<Node>, values: Env, empty: set<string>, outputs: set<string>,
          taken: set<string>, i: nat, t: string) returns (k: nat)
    requires AllChecked(nodes) && Ready(nodes, values, taken) && i <= |nodes| && outputs <= taken
    requires t in UsedFromBlock(nodes, values, empty, outputs, i) && t !in taken && !IsGenerated(t)
    ensures i <= k < |nodes| && Needed(nodes, values, empty, outputs, k) && Makes(nodes[k], values, t)
    decreases |nodes| - i
  {
    NothingUsed(nodes, values, empty, outputs);
    assert i < |nodes|;
    UsedStep(nodes, values, empty, outputs, taken, i);
    if t in UsedFromBlock(nodes, values, empty, outputs, i + 1) {
      k := TemporaryReader(nodes, values, empty, outputs, taken, i + 1, t);
    } else {
      k := i;
    }
  }

  // ------------------------------------------------------------ the kept temporaries

  function KeptTemporariesOf(nodes: seq<Node>, values: Env, empty: set<string>, outputs: set<string>)
    : (r: seq<set<string>>)
    requires AllChecked(nodes)
    ensures |r| == |nodes|
    ensures forall i :: 0 <= i < |r| ==> r[i] == KeptTemporariesAt(nodes, values, empty, outputs, i)
  {
    seq(|nodes|, i requires 0 <= i < |nodes| => KeptTemporariesAt(nodes, values, empty, outputs, i))
  }

  function KeptTemporariesAt(nodes: seq<Node>, values: Env, empty: set<string>, outputs: set<string>, i: nat)
    : set<string>
    requires AllChecked(nodes) && i < |nodes|
  {
    KeptTemporaries(nodes[i], values, Needed(nodes, values, empty, outputs, i),
                    UsedFromBlock(nodes, values, empty, outputs, i + 1))
  }

  /** Two nodes with one temporary are split Pads that crop one tensor. */
  lemma {:induction false} OneTemporary(nodes: seq<Node>, values: Env, taken: set<string>, i: nat, j: nat, t: string)
    requires AllChecked(nodes) && Ready(nodes, values, taken) && i < j < |nodes|
    requires Makes(nodes[i], values, t) && Makes(nodes[j], values, t)
    ensures SharesCrop(nodes[i], nodes[j], values)
  {
    EinsumWrites(nodes[i]);
    EinsumWrites(nodes[j]);
    SameTemporary(nodes[i], nodes[j]);
    assert Written(nodes[i]) !! Written(nodes[j]);
  }

  lemma {:induction false} EinsumWrites(n: Node)
    requires Checked(n)
    ensures IsEinsumOuter(n) ==> n.outputs[0] in Written(n)
  {
  }

  /** Two nodes keep one temporary: the later one, or a still later one, is needed and crops the same tensor. */
  lemma {:induction false} SharedIsNeeded(nodes: seq<Node>, values: Env, empty: set<string>, outputs: set<string>,
          taken: set<string>, i: nat, j: nat, t: string) returns (k: nat)
    requires AllChecked(nodes) && Ready(nodes, values, taken) && i < j < |nodes| && outputs <= taken
    requires t in KeptTemporariesAt(nodes, values, empty, outputs, i)
    requires t in KeptTemporariesAt(nodes, values, empty, outputs, j)
    ensures i < k < |nodes| && SharesCrop(nodes[i], nodes[k], values) && Needed(nodes, values, empty, outputs, k)
  {
    assert Makes(nodes[i], values, t) && Makes(nodes[j], values, t);
    if Needed(nodes, values, empty, outputs, j) {
      k := j;
    } else {
      NotGenerated(nodes[j]);
      TemporaryIs(nodes[j], values);
      assert Temporaries(nodes[j], values) !! taken && t in Temporaries(nodes[j], values);
      k := TemporaryReader(nodes, values, empty, outputs, taken, j + 1, t);
    }
    OneTemporary(nodes, values, taken, i, k, t);
  }

  /** The crop of a needed split Pad is read from there on back. */
  lemma {:induction false} SharedIsRead(nodes: seq<Node>, values: Env, empty: set<string>, outputs: set<string>,
          taken: set<string>, i: nat, j: nat)
    requires AllChecked(nodes) && Ready(nodes, values, taken) && i < j < |nodes| && outputs <= taken
    requires NeedsSplit(nodes[j], values) && Needed(nodes, values, empty, outputs, j)
    ensures Temporary(nodes[j]) in UsedFromBlock(nodes, values, empty, outputs, i + 1)
  {
    TemporariesNew(nodes, values, taken, j);
    ReadsTemporary(nodes, values, empty, outputs, taken, j);
    UsedGrows(nodes, values, empty, outputs, taken, i + 1, j);
  }

  lemma {:induction false} TemporariesNew(nodes: seq<Node>, values: Env, taken: set<string>, j: nat)
    requires AllChecked(nodes) && Ready(nodes, values, taken) && j < |nodes|
    ensures Temporaries(nodes[j], values) !! taken
  {
  }

  /** A needed split Pad keeps its own crop and that of every earlier Pad over the tensor. */
  lemma {:induction false} NeededIsShared(nodes: seq<Node>, values: Env, empty: set<string>, outputs: set<string>,
          taken: set<string>, i: nat, j: nat)
    requires AllChecked(nodes) && Ready(nodes, values, taken) && i < j < |nodes| && outputs <= taken
    requires SharesCrop(nodes[i], nodes[j], values) && Needed(nodes, values, empty, outputs, j)
    ensures Temporary(nodes[j]) in KeptTemporariesAt(nodes, values, empty, outputs, i)
    ensures Temporary(nodes[j]) in KeptTemporariesAt(nodes, values, empty, outputs, j)
  {
    SharedIsRead(nodes, values, empty, outputs, taken, i, j);
    MakesShared(nodes[i], nodes[j], values);
    IsKept(nodes[i], values, Needed(nodes, values, empty, outputs, i),
           UsedFromBlock(nodes, values, empty, outputs, i + 1), Temporary(nodes[j]));
    IsKept(nodes[j], values, Needed(nodes, values, empty, outputs, j),
           UsedFromBlock(nodes, values, empty, outputs, j + 1), Temporary(nodes[j]));
  }

  lemma {:induction false} MakesShared(a: Node, b: Node, values: Env)
    requires Checked(a) && Checked(b) && SharesCrop(a, b, values)
    ensures Makes(a, values, Temporary(b)) && Makes(b, values, Temporary(b))
  {
  }

  lemma {:induction false} IsKept(n: Node, values: Env, hit: bool, used: set<string>, t: string)
    requires Checked(n) && Makes(n, values, t) && (hit || t in used)
    ensures t in KeptTemporaries(n, values, hit, used)
  {
  }

  lemma {:induction false} KeptApartIff(g: Graph, taken: set<string>)
    requires AllChecked(g.nodes) && Ready(g.nodes, ConstantValues(g.initializers, g.nodes), taken)
    requires NameSet(g.outputs) <= taken
    ensures
      var values := ConstantValues(g.initializers, g.nodes);
      Apart(KeptTemporariesOf(g.nodes, values, EmptyOutputs(g.nodes, values), NameSet(g.outputs))) <==>
      NoKeptSharedCrop(g)
  {
    var values, outputs := ConstantValues(g.initializers, g.nodes), NameSet(g.outputs);
    var empty := EmptyOutputs(g.nodes, values);
    var kept := KeptTemporariesOf(g.nodes, values, empty, outputs);
    if NoKeptSharedCrop(g) {
      forall i: nat, j: nat | i < j < |g.nodes| ensures kept[i] !! kept[j] {
        forall t ensures !(t in kept[i] && t in kept[j]) {
          if t in kept[i] && t in kept[j] {
            var k := SharedIsNeeded(g.nodes, values, empty, outputs, taken, i, j, t);
            NeededIsOnPath(g.nodes, values, empty, outputs, taken, k);
            assert false;
          }
        }
      }
    }
    if Apart(kept) {
      forall i: nat, j: nat | i < j < |g.nodes| && SharesCrop(g.nodes[i], g.nodes[j], values)
        ensures !OnPath(StillNodes(g.nodes, values, empty), outputs, j)
      {
        NeededIsOnPath(g.nodes, values, empty, outputs, taken, j);
        assert kept[i] !! kept[j];
        if Needed(g.nodes, values, empty, outputs, j) {
          NeededIsShared(g.nodes, values, empty, outputs, taken, i, j);
          assert false;
        }
      }
    }
  }

  // ------------------------------------------------------------ the exported graph

  /** A node that writes its outputs only if it is needed. */
  function Writer(n: Node, hit: bool): Node {
    if hit then n else n.(outputs := [])
  }

  function Writers(nodes: seq<Node>, values: Env, empty: set<string>, outputs: set<string>): (r: seq<Node>)
    requires AllChecked(nodes)
    ensures |r| == |nodes|
    ensures forall i :: 0 <= i < |r| ==> r[i] == Writer(nodes[i], Needed(nodes, values, empty, outputs, i))
  {
    seq(|nodes|, i requires 0 <= i < |nodes| => Writer(nodes[i], Needed(nodes, values, empty, outputs, i)))
  }

  lemma {:induction false} WriterWrites(n: Node, hit: bool)
    ensures Written(Writer(n, hit)) == if hit then Written(n) else {}
  {
  }

  lemma {:induction false} KeptWrites(nodes: seq<Node>, values: Env, empty: set<string>, outputs: set<string>,
          taken: set<string>, i: nat)
    requires AllChecked(nodes) && Ready(nodes, values, taken) && i < |nodes| && outputs <= taken
    ensures WritesKept(nodes[i], values, Needed(nodes, values, empty, outputs, i),
                       UsedFromBlock(nodes, values, empty, outputs, i + 1),
                       KeptBlocks(Blocks(nodes, values, empty), outputs)[i])
  {
    var place := BlockAt(nodes, values, empty, i);
    KeptAt(Blocks(nodes, values, empty), outputs, i);
    assert Written(nodes[i]) <= taken && Temporaries(nodes[i], values) !! taken;
    BlockWrites(nodes[i], place, values, empty, outputs, taken, UsedFromBlock(nodes, values, empty, outputs, i + 1));
  }

  lemma {:induction false} WritersApart(nodes: seq<Node>, values: Env, empty: set<string>, outputs: set<string>)
    requires AllChecked(nodes) && Apart(WrittenBy(nodes))
    ensures Apart(WrittenBy(Writers(nodes, values, empty, outputs)))
  {
    var writers := Writers(nodes, values, empty, outputs);
    forall i: nat, j: nat | i < j < |nodes| ensures WrittenBy(writers)[i] !! WrittenBy(writers)[j] {
      assert WrittenBy(nodes)[i] !! WrittenBy(nodes)[j];
      WriterWrites(nodes[i], Needed(nodes, values, empty, outputs, i));
      WriterWrites(nodes[j], Needed(nodes, values, empty, outputs, j));
    }
  }

  lemma {:induction false} KeptLays(nodes: seq<Node>, values: Env, empty: set<string>, outputs: set<string>,
          taken: set<string>, i: nat)
    requires AllChecked(nodes) && Ready(nodes, values, taken) && i < |nodes| && outputs <= taken
    ensures
      var writer := Writers(nodes, values, empty, outputs)[i];
      var temporaries := KeptTemporariesOf(nodes, values, empty, outputs)[i];
      var block := KeptBlocks(Blocks(nodes, values, empty), outputs)[i];
      && Lays(writer, block, temporaries) && SingleAssignment(block, {})
      && Written(writer) <= Written(nodes[i]) && temporaries <= Temporaries(nodes[i], values)
  {
    KeptWrites(nodes, values, empty, outputs, taken, i);
    WriterWrites(nodes[i], Needed(nodes, values, empty, outputs, i));
    TemporaryIs(nodes[i], values);
  }

  lemma {:induction false} Narrower(n: Node, values: Env, taken: set<string>, defined: set<string>,
          written: set<string>, temporaries: set<string>)
    requires Checked(n) && written <= Written(n) <= taken && temporaries <= Temporaries(n, values)
    requires Temporaries(n, values) !! taken && Written(n) !! defined && Temporaries(n, values) !! defined
    ensures written <= taken && temporaries !! taken && written !! defined && temporaries !! defined
  {
  }

  /** The kept nodes write names of the graph and kept temporaries, none of them defined before. */
  lemma {:induction false} KeptLaid(nodes: seq<Node>, values: Env, empty: set<string>, outputs: set<string>,
          taken: set<string>, defined: set<string>)
    requires AllChecked(nodes) && Ready(nodes, values, taken) && outputs <= taken
    requires forall i :: 0 <= i < |nodes| ==> Written(nodes[i]) !! defined && Temporaries(nodes[i], values) !! defined
    ensures
      var kept := KeptBlocks(Blocks(nodes, values, empty), outputs);
      && Laid(Writers(nodes, values, empty, outputs), kept, KeptTemporariesOf(nodes, values, empty, outputs), taken,
              defined)
      && forall i :: 0 <= i < |kept| ==> SingleAssignment(kept[i], {})
  {
    var kept := KeptBlocks(Blocks(nodes, values, empty), outputs);
    forall i: nat | i < |nodes|
      ensures
        var writer := Writers(nodes, values, empty, outputs)[i];
        var temporaries := KeptTemporariesOf(nodes, values, empty, outputs)[i];
        && Lays(writer, kept[i], temporaries) && SingleAssignment(kept[i], {})
        && Written(writer) <= taken && temporaries !! taken && Written(writer) !! defined && temporaries !! defined
    {
      KeptLays(nodes, values, empty, outputs, taken, i);
      Narrower(nodes[i], values, taken, defined, Written(Writers(nodes, values, empty, outputs)[i]),
               KeptTemporariesOf(nodes, values, empty, outputs)[i]);
    }
  }

  /** The exported graph assigns every name once exactly when no split Pad on a dependency path shares its tensor
      with an earlier one. */
  lemma {:induction false} ExportAssignsOnce(g: Graph, inputs: set<string>, taken: set<string>)
    requires AllChecked(g.nodes) && Applicable(g, taken) && Named(g, inputs, taken) && NameSet(g.outputs) <= taken
    requires "" !in taken && forall i :: 0 <= i < |g.nodes| ==> Reads(g.nodes[i]) <= taken
    ensures var p := Pruned(Rewritten(g));
      SingleAssignment(p.nodes, inputs + InitialValues(p.initializers).Keys) <==> NoKeptSharedCrop(g)
  {
    var values, outputs := ConstantValues(g.initializers, g.nodes), NameSet(g.outputs);
    var empty, r := EmptyOutputs(g.nodes, values), Rewritten(g);
    var defined := inputs + InitialValues(Pruned(r).initializers).Keys;
    RewrittenLaid(g, inputs, taken);
    RetainValues(r.initializers, Used(Pruned(r).nodes));
    NamesReady(g, inputs, taken);
    NothingDefined(g, inputs, taken, defined);
    KeptLaid(g.nodes, values, empty, outputs, taken, defined);
    KeptFlat(Blocks(g.nodes, values, empty), outputs);
    WritersApart(g.nodes, values, empty, outputs);
    BlocksAssignOnce(Writers(g.nodes, values, empty, outputs), KeptBlocks(Blocks(g.nodes, values, empty), outputs),
                     KeptTemporariesOf(g.nodes, values, empty, outputs), taken, defined);
    KeptApartIff(g, taken);
  }

  lemma {:induction false} NamesReady(g: Graph, inputs: set<string>, taken: set<string>)
    requires AllChecked(g.nodes) && Applicable(g, taken) && Named(g, inputs, taken) && "" !in taken
    requires forall i :: 0 <= i < |g.nodes| ==> Reads(g.nodes[i]) <= taken
    ensures Ready(g.nodes, ConstantValues(g.initializers, g.nodes), taken)
  {
    SingleApart(g.nodes, inputs + InitialValues(g.initializers).Keys);
    forall k: nat, l: nat | k < l < |g.nodes| ensures Written(g.nodes[k]) !! Written(g.nodes[l]) {
      assert WrittenBy(g.nodes)[k] !! WrittenBy(g.nodes)[l];
    }
  }

  lemma {:induction false} NothingDefined(g: Graph, inputs: set<string>, taken: set<string>, defined: set<string>)
    requires AllChecked(g.nodes) && Applicable(g, taken) && Named(g, inputs, taken)
    requires defined <= inputs + InitialValues(Rewritten(g).initializers).Keys
    ensures forall i :: 0 <= i < |g.nodes| ==>
        && Written(g.nodes[i]) !! defined
        && Temporaries(g.nodes[i], ConstantValues(g.initializers, g.nodes)) !! defined
  {
    RewrittenLaid(g, inputs, taken);
    var values := ConstantValues(g.initializers, g.nodes);
    var blocks := Blocks(g.nodes, values, EmptyOutputs(g.nodes, values));
    forall i: nat | i < |g.nodes|
      ensures Written(g.nodes[i]) !! defined && Temporaries(g.nodes[i], values) !! defined
    {
      assert Lays(g.nodes[i], blocks[i], TemporariesOf(g.nodes, values)[i]);
    }
  }
}
