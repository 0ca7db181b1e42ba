/** When a rewritten node list still assigns every name once: the names that the passes make up for their own
    use are the only ones that can be written twice. */
module Assignment {
  import opened Graphs

  /** Names that were defined before do not matter to a list that writes none of them. */
  lemma {:induction false} SingleDefined(nodes: seq<Node>, d: set<string>, e: set<string>)
    ensures SingleAssignment(nodes, d + e) <==> SingleAssignment(nodes, d) && WrittenAll(nodes) !! e
  {
    if nodes != [] {
      var own := Written(nodes[0]);
      SingleDefined(nodes[1..], d + own, e);
      assert d + e + own == d + own + e;
    }
  }

  lemma {:induction false} SingleAppend(a: seq<Node>, b: seq<Node>, d: set<string>)
    ensures SingleAssignment(a + b, d) <==> SingleAssignment(a, d) && SingleAssignment(b, d + WrittenAll(a))
  {
    if a == [] {
      assert a + b == b && d + {} == d;
    } else {
      assert (a + b)[1..] == a[1..] + b && (a + b)[0] == a[0];
      SingleAppend(a[1..], b, d + Written(a[0]));
      assert d + Written(a[0]) + WrittenAll(a[1..]) == d + WrittenAll(a);
    }
  }

  predicate Apart(names: seq<set<string>>) {
    forall i, j :: 0 <= i < j < |names| ==> names[i] !! names[j]
  }

  function WrittenBy(nodes: seq<Node>): (r: seq<set<string>>)
    ensures |r| == |nodes| && forall i :: 0 <= i < |r| ==> r[i] == Written(nodes[i])
  {
    seq(|nodes|, i requires 0 <= i < |nodes| => Written(nodes[i]))
  }

  lemma {:induction false} SingleApart(nodes: seq<Node>, d: set<string>)
    requires SingleAssignment(nodes, d)
    ensures Apart(WrittenBy(nodes)) && forall i :: 0 <= i < |nodes| ==> Written(nodes[i]) !! d
  {
    if nodes != [] {
      SingleApart(nodes[1..], d + Written(nodes[0]));
      forall i | 1 <= i < |nodes| ensures Written(nodes[i]) !! d + Written(nodes[0]) {
        assert nodes[i] == nodes[1..][i - 1];
      }
      forall i, j | 0 <= i < j < |nodes| ensures WrittenBy(nodes)[i] !! WrittenBy(nodes)[j] {
        if i > 0 {
          assert WrittenBy(nodes[1..])[i - 1] !! WrittenBy(nodes[1..])[j - 1];
        }
      }
    }
  }

  /** A block writes the outputs of its node and temporaries of its own. */
  predicate Lays(node: Node, block: seq<Node>, temporaries: set<string>) {
    WrittenAll(block) == Written(node) + temporaries
  }

  /** The temporaries are neither names of the graph nor defined before. */
  ghost predicate Laid(nodes: seq<Node>, blocks: seq<seq<Node>>, temporaries: seq<set<string>>, taken: set<string>,
          defined: set<string>)
  {
    && |blocks| == |nodes| == |temporaries|
    && forall i :: 0 <= i < |nodes| ==>
         && Lays(nodes[i], blocks[i], temporaries[i]) && Written(nodes[i]) <= taken
         && temporaries[i] !! taken && Written(nodes[i]) !! defined && temporaries[i] !! defined
  }

  lemma {:induction false} LaterWrites(nodes: seq<Node>, blocks: seq<seq<Node>>, temporaries: seq<set<string>>,
          taken: set<string>, defined: set<string>, i: nat, k: nat)
    requires Laid(nodes, blocks, temporaries, taken, defined) && Apart(WrittenBy(nodes)) && i < k < |nodes|
    ensures Written(nodes[i]) !! WrittenAll(blocks[k])
    ensures WrittenAll(blocks[i]) !! WrittenAll(blocks[k]) <==> temporaries[i] !! temporaries[k]
  {
    assert WrittenBy(nodes)[i] !! WrittenBy(nodes)[k];
    assert Lays(nodes[i], blocks[i], temporaries[i]) && Lays(nodes[k], blocks[k], temporaries[k]);
  }

  lemma {:induction false} FirstApart(nodes: seq<Node>, blocks: seq<seq<Node>>, temporaries: seq<set<string>>,
          taken: set<string>, defined: set<string>)
    requires Laid(nodes, blocks, temporaries, taken, defined) && Apart(WrittenBy(nodes)) && nodes != []
    ensures WrittenAll(blocks[0]) !! WrittenAll(Flatten(blocks[1..])) <==>
            forall k :: 1 <= k < |temporaries| ==> temporaries[0] !! temporaries[k]
  {
    WrittenFlat(blocks[1..], WrittenAll(blocks[0]));
    forall k: nat | 1 <= k < |blocks|
      ensures WrittenAll(blocks[0]) !! WrittenAll(blocks[1..][k - 1]) <==> temporaries[0] !! temporaries[k]
    {
      LaterWrites(nodes, blocks, temporaries, taken, defined, 0, k);
    }
  }

  lemma {:induction false} ApartCons(names: seq<set<string>>)
    requires names != []
    ensures Apart(names) <==> Apart(names[1..]) && forall k :: 1 <= k < |names| ==> names[0] !! names[k]
  {
    if Apart(names[1..]) && forall k :: 1 <= k < |names| ==> names[0] !! names[k] {
      forall i, j | 0 <= i < j < |names| ensures names[i] !! names[j] {
        if i > 0 {
          assert names[1..][i - 1] !! names[1..][j - 1];
        }
      }
    }
  }

  lemma {:induction false} LaidTail(nodes: seq<Node>, blocks: seq<seq<Node>>, temporaries: seq<set<string>>,
          taken: set<string>, defined: set<string>)
    requires Laid(nodes, blocks, temporaries, taken, defined) && Apart(WrittenBy(nodes)) && nodes != []
    ensures Laid(nodes[1..], blocks[1..], temporaries[1..], taken, defined) && Apart(WrittenBy(nodes[1..]))
  {
    ApartCons(WrittenBy(nodes));
    assert WrittenBy(nodes)[1..] == WrittenBy(nodes[1..]);
  }

  /** The blocks of a single-assignment list assign every name once exactly when each one does and no two share
      a temporary. */
  lemma {:induction false} BlocksAssignOnce(nodes: seq<Node>, blocks: seq<seq<Node>>, temporaries: seq<set<string>>,
          taken: set<string>, defined: set<string>)
    requires Laid(nodes, blocks, temporaries, taken, defined) && Apart(WrittenBy(nodes))
    ensures SingleAssignment(Flatten(blocks), defined) <==>
            (forall i :: 0 <= i < |blocks| ==> SingleAssignment(blocks[i], {})) && Apart(temporaries)
  {
    if nodes != [] {
      var first, rest := blocks[0], Flatten(blocks[1..]);
      LaidTail(nodes, blocks, temporaries, taken, defined);
      BlocksAssignOnce(nodes[1..], blocks[1..], temporaries[1..], taken, defined);
      SingleAppend(first, rest, defined);
      SingleDefined(rest, defined, WrittenAll(first));
      SingleDefined(first, {}, defined);
      assert {} + defined == defined;
      assert Lays(nodes[0], first, temporaries[0]);
      FirstApart(nodes, blocks, temporaries, taken, defined);
      ApartCons(temporaries);
      assert forall i :: 1 <= i < |blocks| ==> blocks[i] == blocks[1..][i - 1];
    }
  }

  /** The blocks write nothing that was defined before. */
  lemma {:induction false} NothingDefinedAgain(nodes: seq<Node>, blocks: seq<seq<Node>>, temporaries: seq<set<string>>,
          taken: set<string>, defined: set<string>)
    requires Laid(nodes, blocks, temporaries, taken, defined)
    ensures forall i :: 0 <= i < |Flatten(blocks)| ==> Written(Flatten(blocks)[i]) !! defined
  {
    forall k: nat | k < |blocks| ensures defined !! WrittenAll(blocks[k]) {
      assert Lays(nodes[k], blocks[k], temporaries[k]);
    }
    WrittenFlat(blocks, defined);
    forall i: nat | i < |Flatten(blocks)| ensures Written(Flatten(blocks)[i]) !! defined {
      WrittenIn(Flatten(blocks), i);
    }
  }

  lemma {:induction false} WrittenIn(nodes: seq<Node>, i: nat)
    requires i < |nodes|
    ensures Written(nodes[i]) <= WrittenAll(nodes)
  {
    if i > 0 {
      WrittenIn(nodes[1..], i - 1);
    }
  }
}
