/** Dead-node pruning: what it keeps, and when it keeps the graph outputs. */
module Pruning {
  import opened Wrappers
  import opened Tensors
  import opened Graphs

  /** The names a node reads. */
  function Reads(n: Node): set<string> {
    set m | m in n.inputs && m != ""
  }

  predicate Hits(n: Node, needed: set<string>) {
    exists o :: o in n.outputs && o in needed
  }

  datatype ScanResult = ScanResult(kept: seq<Node>, needed: set<string>)

  /** The backward scan: the nodes kept from `nodes`, and the names needed before them. */
  function Scan(nodes: seq<Node>, needed: set<string>): ScanResult {
    if nodes == [] then ScanResult([], needed)
    else
      var later := Scan(nodes[1..], needed);
      if Hits(nodes[0], later.needed)
      then ScanResult([nodes[0]] + later.kept, later.needed + Reads(nodes[0]))
      else later
  }

  function Used(nodes: seq<Node>): set<string> {
    set n, m | n in nodes && m in n.inputs :: m
  }

  function Retain(items: seq<Initializer>, used: set<string>): seq<Initializer> {
    if items == [] then []
    else
      var n := |items| - 1;
      Retain(items[..n], used) + if items[n].name in used then [items[n]] else []
  }

  function NameSet(items: seq<string>): set<string> { set o | o in items }

  function Pruned(g: Graph): Graph {
    var kept := Scan(g.nodes, NameSet(g.outputs)).kept;
    Graph(kept, Retain(g.initializers, Used(kept)), g.outputs)
  }

  // ------------------------------------------------------------ what is kept

  /** Node `j` comes after node `i` and reads one of its outputs. */
  predicate Feeds(nodes: seq<Node>, i: nat, j: nat)
    requires i < |nodes| && j < |nodes|
  {
    i < j && exists m :: m in Reads(nodes[j]) && m in nodes[i].outputs
  }

  /** A dependency path from a node to a graph output. */
  predicate IsPath(nodes: seq<Node>, outputs: set<string>, path: seq<nat>) {
    && path != [] && (forall k :: 0 <= k < |path| ==> path[k] < |nodes|)
    && (forall k :: 0 <= k < |path| - 1 ==> Feeds(nodes, path[k], path[k + 1]))
    && Hits(nodes[path[|path| - 1]], outputs)
  }

  ghost predicate OnPath(nodes: seq<Node>, outputs: set<string>, i: nat) {
    exists path :: IsPath(nodes, outputs, path) && path[0] == i
  }

  /** The scan keeps the node at position `i`. */
  predicate Keeps(nodes: seq<Node>, outputs: set<string>, i: nat)
    requires i < |nodes|
  {
    Hits(nodes[i], Scan(nodes[i + 1..], outputs).needed)
  }

  lemma {:induction false} NeededBy(nodes: seq<Node>, outputs: set<string>, from: nat, name: string)
    requires from <= |nodes|
    ensures name in Scan(nodes[from..], outputs).needed <==>
            name in outputs || exists j :: from <= j < |nodes| && Keeps(nodes, outputs, j) && name in Reads(nodes[j])
    decreases |nodes| - from
  {
    if from < |nodes| {
      NeededBy(nodes, outputs, from + 1, name);
      assert nodes[from..][1..] == nodes[from + 1..];
    }
  }

  /** A kept node has a path to an output. */
  lemma {:induction false} KeptHasPath(nodes: seq<Node>, outputs: set<string>, i: nat) returns (path: seq<nat>)
    requires i < |nodes| && Keeps(nodes, outputs, i)
    ensures IsPath(nodes, outputs, path) && path[0] == i
    decreases |nodes| - i
  {
    var o :| o in nodes[i].outputs && o in Scan(nodes[i + 1..], outputs).needed;
    NeededBy(nodes, outputs, i + 1, o);
    if o in outputs {
      path := [i];
    } else {
      var j :| i + 1 <= j < |nodes| && Keeps(nodes, outputs, j) && o in Reads(nodes[j]);
      var rest := KeptHasPath(nodes, outputs, j);
      path := [i] + rest;
      assert Feeds(nodes, path[0], path[1]);
      forall k | 1 <= k < |path| - 1 ensures Feeds(nodes, path[k], path[k + 1]) {
        assert path[k] == rest[k - 1] && path[k + 1] == rest[k];
      }
    }
  }

  /** A node with a path to an output is kept. */
  lemma {:induction false} PathIsKept(nodes: seq<Node>, outputs: set<string>, path: seq<nat>)
    requires IsPath(nodes, outputs, path)
    ensures Keeps(nodes, outputs, path[0])
    decreases |path|
  {
    var i := path[0];
    if |path| == 1 {
      var o :| o in nodes[i].outputs && o in outputs;
      NeededBy(nodes, outputs, i + 1, o);
    } else {
      var rest := path[1..];
      forall k | 0 <= k < |rest| - 1 ensures Feeds(nodes, rest[k], rest[k + 1]) {
        assert Feeds(nodes, path[k + 1], path[k + 2]);
      }
      PathIsKept(nodes, outputs, rest);
      assert Feeds(nodes, path[0], path[1]);
      var o :| o in Reads(nodes[path[1]]) && o in nodes[i].outputs;
      NeededBy(nodes, outputs, i + 1, o);
    }
  }

  /** Pruning keeps, in order, exactly the nodes that lie on a dependency path to an output: `at` lists
      their positions. */
  lemma {:induction false} PruneKeepsExactlyThePaths(nodes: seq<Node>, outputs: set<string>, from: nat)
    returns (at: seq<nat>)
    requires from <= |nodes|
    ensures |at| == |Scan(nodes[from..], outputs).kept|
    ensures forall k :: 0 <= k < |at| ==>
        from <= at[k] < |nodes| && Scan(nodes[from..], outputs).kept[k] == nodes[at[k]]
    ensures forall k, l :: 0 <= k < l < |at| ==> at[k] < at[l]
    ensures forall i: nat :: i in at <==> from <= i < |nodes| && OnPath(nodes, outputs, i)
    decreases |nodes| - from
  {
    if from == |nodes| {
      at := [];
    } else {
      var rest := PruneKeepsExactlyThePaths(nodes, outputs, from + 1);
      assert nodes[from..][1..] == nodes[from + 1..];
      if Keeps(nodes, outputs, from) {
        var path := KeptHasPath(nodes, outputs, from);
        at := [from] + rest;
      } else {
        if OnPath(nodes, outputs, from) {
          var path :| IsPath(nodes, outputs, path) && path[0] == from;
          PathIsKept(nodes, outputs, path);
        }
        at := rest;
      }
      assert forall i: nat :: i in at <==> i in rest || (i == from && Keeps(nodes, outputs, from));
    }
  }

  // ------------------------------------------------------------ pruning twice

  lemma {:induction false} ScanTwice(nodes: seq<Node>, outputs: set<string>)
    ensures Scan(Scan(nodes, outputs).kept, outputs) == Scan(nodes, outputs)
  {
    if nodes != [] {
      ScanTwice(nodes[1..], outputs);
      var later := Scan(nodes[1..], outputs);
      if Hits(nodes[0], later.needed) {
        assert ([nodes[0]] + later.kept)[1..] == later.kept;
      }
    }
  }

  lemma {:induction false} RetainTwice(items: seq<Initializer>, used: set<string>)
    ensures Retain(Retain(items, used), used) == Retain(items, used)
  {
    if items != [] {
      var n := |items| - 1;
      RetainTwice(items[..n], used);
      var r := Retain(items[..n], used);
      if items[n].name in used {
        assert (r + [items[n]])[..|r|] == r;
      } else {
        assert r + [] == r;
      }
    }
  }

  lemma {:induction false} PruneTwice(g: Graph)
    ensures Pruned(Pruned(g)) == Pruned(g)
  {
    ScanTwice(g.nodes, NameSet(g.outputs));
    RetainTwice(g.initializers, Used(Scan(g.nodes, NameSet(g.outputs)).kept));
  }

  // ------------------------------------------------------------ what is preserved

  ghost predicate AgreeOn(names: set<string>, a: Env, b: Env) {
    forall m :: m in names ==> (m in a <==> m in b) && (m in a ==> a[m] == b[m])
  }

  lemma {:induction false} BindAgrees(names: set<string>, a: Env, b: Env, outputs: seq<string>, values: seq<Tensor>)
    requires |outputs| == |values| && AgreeOn(names, a, b)
    ensures AgreeOn(names, Bind(a, outputs, values), Bind(b, outputs, values))
    decreases |outputs|
  {
    if outputs != [] {
      var a' := if outputs[0] == "" then a else a[outputs[0] := values[0]];
      var b' := if outputs[0] == "" then b else b[outputs[0] := values[0]];
      BindAgrees(names, a', b', outputs[1..], values[1..]);
    }
  }

  lemma {:induction false} ReadAgrees(names: seq<string>, a: Env, b: Env)
    requires Read(names, a).Some? && AgreeOn((set m | m in names && m != ""), a, b)
    ensures Read(names, b) == Read(names, a)
  {
    forall k | 0 <= k < |names| && names[k] != "" ensures names[k] in b && b[names[k]] == a[names[k]] {
      assert names[k] in a;
    }
    assert Read(names, b).value == Read(names, a).value;
  }

  /** Runs that agree on what the kept nodes need end in agreement on the outputs. */
  lemma {:induction false} ScanPreserves(ops: Operators, nodes: seq<Node>, outputs: set<string>, a: Env, b: Env)
    requires EvalNodes(ops, nodes, a).Some? && AgreeOn(Scan(nodes, outputs).needed, a, b)
    ensures EvalNodes(ops, Scan(nodes, outputs).kept, b).Some?
    ensures AgreeOn(outputs, EvalNodes(ops, nodes, a).value, EvalNodes(ops, Scan(nodes, outputs).kept, b).value)
  {
    if nodes != [] {
      var n, later, next := nodes[0], Scan(nodes[1..], outputs), EvalNode(ops, nodes[0], a).value;
      var values := Apply(ops, n, Read(n.inputs, a).value).value;
      if Hits(n, later.needed) {
        assert Scan(nodes, outputs).kept[1..] == later.kept;
        ReadAgrees(n.inputs, a, b);
        BindAgrees(later.needed, a, b, n.outputs, values);
        ScanPreserves(ops, nodes[1..], outputs, next, Bind(b, n.outputs, values));
      } else {
        BindKeys(a, n.outputs, values);
        ScanPreserves(ops, nodes[1..], outputs, next, b);
      }
    }
  }

  /** The names that the kept nodes read, when later nodes read `used`. */
  function UsedBefore(nodes: seq<Node>, outputs: set<string>, used: set<string>): set<string> {
    if nodes == [] then used
    else
      var later := UsedBefore(nodes[1..], outputs, used);
      if Hits(nodes[0], outputs + later) then later + Reads(nodes[0]) else later
  }

  lemma {:induction false} UsedAppend(a: seq<Node>, b: seq<Node>, outputs: set<string>, used: set<string>)
    ensures UsedBefore(a + b, outputs, used) == UsedBefore(a, outputs, UsedBefore(b, outputs, used))
  {
    if a == [] {
      assert a + b == b;
    } else {
      assert (a + b)[1..] == a[1..] + b && (a + b)[0] == a[0];
      UsedAppend(a[1..], b, outputs, used);
    }
  }

  /** The scan needs the outputs and what the kept nodes read. */
  lemma {:induction false} UsedIs(nodes: seq<Node>, outputs: set<string>)
    ensures UsedBefore(nodes, outputs, {}) == Used(Scan(nodes, outputs).kept) - {""}
    ensures Scan(nodes, outputs).needed == outputs + UsedBefore(nodes, outputs, {})
  {
    if nodes != [] {
      UsedIs(nodes[1..], outputs);
      var later := Scan(nodes[1..], outputs);
      if Hits(nodes[0], later.needed) {
        UsedCons(nodes[0], later.kept);
      }
    }
  }

  /** A node on a dependency path to an output reads `name`. */
  ghost predicate ReadOnPath(nodes: seq<Node>, outputs: set<string>, name: string) {
    exists i :: 0 <= i < |nodes| && OnPath(nodes, outputs, i) && name in Reads(nodes[i])
  }

  lemma {:induction false} UsedByKept(nodes: seq<Node>, outputs: set<string>, from: nat, name: string)
    requires from <= |nodes|
    ensures name in UsedBefore(nodes[from..], outputs, {}) <==>
            exists j :: from <= j < |nodes| && Keeps(nodes, outputs, j) && name in Reads(nodes[j])
    decreases |nodes| - from
  {
    if from < |nodes| {
      UsedByKept(nodes, outputs, from + 1, name);
      assert nodes[from..][1..] == nodes[from + 1..];
      UsedIs(nodes[from + 1..], outputs);
    }
  }

  /** The kept nodes read what nodes on dependency paths read. */
  lemma {:induction false} UsedIsReadOnPath(nodes: seq<Node>, outputs: set<string>, name: string)
    ensures name in UsedBefore(nodes, outputs, {}) <==> ReadOnPath(nodes, outputs, name)
  {
    assert nodes[0..] == nodes;
    UsedByKept(nodes, outputs, 0, name);
    if j :| 0 <= j < |nodes| && Keeps(nodes, outputs, j) && name in Reads(nodes[j]) {
      var path := KeptHasPath(nodes, outputs, j);
      assert OnPath(nodes, outputs, j);
    }
    if ReadOnPath(nodes, outputs, name) {
      var i :| 0 <= i < |nodes| && OnPath(nodes, outputs, i) && name in Reads(nodes[i]);
      var path :| IsPath(nodes, outputs, path) && path[0] == i;
      PathIsKept(nodes, outputs, path);
    }
  }

  lemma {:induction false} UsedCons(n: Node, nodes: seq<Node>)
    ensures Used([n] + nodes) - {""} == Reads(n) + (Used(nodes) - {""})
  {
    forall m ensures m in Used([n] + nodes) <==> m in n.inputs || m in Used(nodes) {
      if m in n.inputs {
        assert n in [n] + nodes;
      }
      if m in Used(nodes) {
        var k :| k in nodes && m in k.inputs;
        assert k in [n] + nodes;
      }
    }
  }

  lemma {:induction false} RetainValues(items: seq<Initializer>, used: set<string>)
    ensures forall m :: m in InitialValues(Retain(items, used)) <==> m in InitialValues(items) && m in used
    ensures Extends(InitialValues(Retain(items, used)), InitialValues(items))
  {
    if items != [] {
      var n := |items| - 1;
      RetainValues(items[..n], used);
      var r := Retain(items[..n], used);
      if items[n].name in used {
        assert (r + [items[n]])[..|r|] == r;
        assert InitialValues(r + [items[n]]) == InitialValues(r)[items[n].name := items[n].value];
      } else {
        assert Retain(items, used) == r;
      }
    }
  }

  /** A name that no node writes and that is unbound at the start stays unbound. */
  lemma {:induction false} NotWritten(ops: Operators, nodes: seq<Node>, outputs: set<string>, env: Env, m: string)
    requires EvalNodes(ops, Scan(nodes, outputs).kept, env).Some?
    requires m !in env && forall i :: 0 <= i < |nodes| ==> m !in Written(nodes[i])
    ensures m !in EvalNodes(ops, Scan(nodes, outputs).kept, env).value
  {
    if nodes != [] {
      var later := Scan(nodes[1..], outputs);
      assert forall i :: 0 <= i < |nodes[1..]| ==> nodes[1..][i] == nodes[i + 1];
      if Hits(nodes[0], later.needed) {
        assert Scan(nodes, outputs).kept[1..] == later.kept;
        EvalNodeExtends(ops, nodes[0], env, env);
        NotWritten(ops, nodes[1..], outputs, EvalNode(ops, nodes[0], env).value, m);
      } else {
        NotWritten(ops, nodes[1..], outputs, env, m);
      }
    }
  }

  /** No node writes the name of an initializer. */
  ghost predicate InitializersUnwritten(g: Graph) {
    forall m, i :: m in InitialValues(g.initializers) && 0 <= i < |g.nodes| ==> m !in Written(g.nodes[i])
  }

  lemma {:induction false} AssignedOnce(nodes: seq<Node>, defined: set<string>, m: string, i: nat)
    requires SingleAssignment(nodes, defined) && m in defined && i < |nodes|
    ensures m !in Written(nodes[i])
  {
    if i > 0 {
      AssignedOnce(nodes[1..], defined + Written(nodes[0]), m, i - 1);
    }
  }

  /** A node on a dependency path to an output lists `name` among its inputs. */
  ghost predicate InputOnPath(nodes: seq<Node>, outputs: set<string>, name: string) {
    exists i :: 0 <= i < |nodes| && OnPath(nodes, outputs, i) && name in nodes[i].inputs
  }

  /** Every graph output that is an initializer is an input of a node on a dependency path. */
  ghost predicate OutputsSurvive(g: Graph) {
    forall k :: 0 <= k < |g.outputs| && g.outputs[k] in InitialValues(g.initializers) ==>
      InputOnPath(g.nodes, NameSet(g.outputs), g.outputs[k])
  }

  /** The kept nodes use the inputs of the nodes on dependency paths. */
  lemma {:induction false} UsedIsOnPath(nodes: seq<Node>, outputs: set<string>, name: string)
    ensures name in Used(Scan(nodes, outputs).kept) <==> InputOnPath(nodes, outputs, name)
  {
    var at := PruneKeepsExactlyThePaths(nodes, outputs, 0);
    assert nodes[0..] == nodes;
    var kept := Scan(nodes, outputs).kept;
    if name in Used(kept) {
      var n :| n in kept && name in n.inputs;
      var k :| 0 <= k < |kept| && kept[k] == n;
      assert at[k] in at && name in nodes[at[k]].inputs;
    }
    if InputOnPath(nodes, outputs, name) {
      var i :| 0 <= i < |nodes| && OnPath(nodes, outputs, i) && name in nodes[i].inputs;
      assert i in at;
      var k :| 0 <= k < |at| && at[k] == i;
      assert kept[k] in kept;
    }
  }

  /** The positions of the initializers whose names are used. */
  function RetainedAt(items: seq<Initializer>, used: set<string>): (at: seq<nat>)
    ensures |at| == |Retain(items, used)|
    ensures forall k :: 0 <= k < |at| ==> at[k] < |items| && items[at[k]] == Retain(items, used)[k]
  {
    if items == [] then []
    else
      var n := |items| - 1;
      if items[n].name in used then RetainedAt(items[..n], used) + [n] else RetainedAt(items[..n], used)
  }

  lemma {:induction false} RetainedAtAscends(items: seq<Initializer>, used: set<string>)
    ensures forall j, k :: 0 <= j < k < |RetainedAt(items, used)| ==>
        RetainedAt(items, used)[j] < RetainedAt(items, used)[k]
    ensures forall i: nat :: i < |items| ==> (i in RetainedAt(items, used) <==> items[i].name in used)
  {
    if items != [] {
      var n := |items| - 1;
      RetainedAtAscends(items[..n], used);
      var before := RetainedAt(items[..n], used);
      OneMoreMember(before, n);
      forall i: nat | i < n ensures i in before <==> items[i].name in used {
        assert items[..n][i] == items[i];
      }
      assert n !in before;
    }
  }

  lemma {:induction false} OneMoreMember(at: seq<nat>, n: nat)
    ensures forall i: nat :: i in at + [n] <==> i in at || i == n
  {
  }

  /** Pruning keeps, in order, exactly the initializers that a node on a dependency path reads. */
  lemma {:induction false} PruneKeepsTheReadInitializers(g: Graph) returns (at: seq<nat>)
    ensures |at| == |Pruned(g).initializers|
    ensures forall k :: 0 <= k < |at| ==>
        at[k] < |g.initializers| && Pruned(g).initializers[k] == g.initializers[at[k]]
    ensures forall j, k :: 0 <= j < k < |at| ==> at[j] < at[k]
    ensures forall i: nat :: i < |g.initializers| ==>
        (i in at <==> InputOnPath(g.nodes, NameSet(g.outputs), g.initializers[i].name))
  {
    at := RetainedAt(g.initializers, Used(Pruned(g).nodes));
    RetainedAtAscends(g.initializers, Used(Pruned(g).nodes));
    forall i: nat | i < |g.initializers|
      ensures i in at <==> InputOnPath(g.nodes, NameSet(g.outputs), g.initializers[i].name)
    {
      UsedIsOnPath(g.nodes, NameSet(g.outputs), g.initializers[i].name);
    }
  }

  lemma {:induction false} SurvivorsAreUsed(g: Graph)
    requires OutputsSurvive(g)
    ensures forall k :: 0 <= k < |g.outputs| && g.outputs[k] in InitialValues(g.initializers) ==>
        g.outputs[k] in Used(Pruned(g).nodes)
  {
    forall k | 0 <= k < |g.outputs| && g.outputs[k] in InitialValues(g.initializers)
      ensures g.outputs[k] in Used(Pruned(g).nodes)
    {
      UsedIsOnPath(g.nodes, NameSet(g.outputs), g.outputs[k]);
    }
  }

  lemma {:induction false} PrunedStart(g: Graph, inputs: Env)
    requires inputs.Keys !! InitialValues(g.initializers).Keys && OutputsSurvive(g)
    ensures AgreeOn(Scan(g.nodes, NameSet(g.outputs)).needed,
                    inputs + InitialValues(g.initializers), inputs + InitialValues(Pruned(g).initializers))
  {
    var kept := Pruned(g).nodes;
    SurvivorsAreUsed(g);
    UsedIs(g.nodes, NameSet(g.outputs));
    RetainValues(g.initializers, Used(kept));
  }

  lemma {:induction false} RunIs(ops: Operators, g: Graph, inputs: Env, env: Env)
    requires Evaluate(ops, g, inputs) == Some(env)
    ensures Run(ops, g, inputs).Some? <==> forall k :: 0 <= k < |g.outputs| ==> g.outputs[k] in env
    ensures Run(ops, g, inputs).Some? ==> |Run(ops, g, inputs).value| == |g.outputs|
    ensures Run(ops, g, inputs).Some? ==> forall k :: 0 <= k < |g.outputs| ==>
        Run(ops, g, inputs).value[k] == env[g.outputs[k]]
  {
  }

  /** An initializer output that no node on a dependency path reads is lost. */
  lemma {:induction false} LostOutput(ops: Operators, g: Graph, inputs: Env)
    requires inputs.Keys !! InitialValues(g.initializers).Keys && InitializersUnwritten(g) && !OutputsSurvive(g)
    ensures Run(ops, Pruned(g), inputs) == None
  {
    var outputs := NameSet(g.outputs);
    var b := inputs + InitialValues(Pruned(g).initializers);
    if EvalNodes(ops, Pruned(g).nodes, b).Some? {
      var k :| 0 <= k < |g.outputs| && g.outputs[k] in InitialValues(g.initializers)
          && !InputOnPath(g.nodes, outputs, g.outputs[k]);
      UsedIsOnPath(g.nodes, outputs, g.outputs[k]);
      RetainValues(g.initializers, Used(Pruned(g).nodes));
      NotWritten(ops, g.nodes, outputs, b, g.outputs[k]);
      RunIs(ops, Pruned(g), inputs, EvalNodes(ops, Pruned(g).nodes, b).value);
    }
  }

  /** Pruning keeps the value of every graph output exactly when each output that is an initializer is an input of
      a node on a dependency path. */
  lemma {:induction false} PrunePreserves(ops: Operators, g: Graph, inputs: Env)
    requires Run(ops, g, inputs).Some?
    requires inputs.Keys !! InitialValues(g.initializers).Keys && InitializersUnwritten(g)
    ensures Run(ops, Pruned(g), inputs) == Run(ops, g, inputs) <==> OutputsSurvive(g)
  {
    var outputs := NameSet(g.outputs);
    var a, b := inputs + InitialValues(g.initializers), inputs + InitialValues(Pruned(g).initializers);
    var final := Evaluate(ops, g, inputs).value;
    RunIs(ops, g, inputs, final);
    if OutputsSurvive(g) {
      PrunedStart(g, inputs);
      ScanPreserves(ops, g.nodes, outputs, a, b);
      RunIs(ops, Pruned(g), inputs, EvalNodes(ops, Pruned(g).nodes, b).value);
      assert forall k :: 0 <= k < |g.outputs| ==> g.outputs[k] in outputs;
      assert Run(ops, Pruned(g), inputs).value == Run(ops, g, inputs).value;
    } else {
      LostOutput(ops, g, inputs);
    }
  }

  /** A graph whose only output is an initializer loses it. */
  lemma {:induction false} PruneLosesInitializerOutput(ops: Operators, value: Tensor)
    ensures
      var g := Graph([], [Initializer("mask", value)], ["mask"]);
      Run(ops, g, map[]) == Some([value]) && Run(ops, Pruned(g), map[]) == None
  {
    var g := Graph([], [Initializer("mask", value)], ["mask"]);
    assert g.initializers[..0] == [];
    assert InitialValues(g.initializers) == map["mask" := value];
    assert Used([]) == {};
    assert Retain(g.initializers, {}) == [];
    assert Pruned(g).initializers == [];
    assert g.outputs[0] == "mask";
    assert Run(ops, g, map[]).value == [value];
  }
}
