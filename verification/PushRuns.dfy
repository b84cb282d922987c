/** From created nodes to read values. */
module PushRuns {
  import opened CodecModel
  import opened CodecRoundTrip
  import opened CodecAlignment
  import CodecNumbers
  import opened PushModel

  // ---------- names and areas ----------

  /** Names have no dot and differ among siblings. */
  predicate ProperNames(n: Node) {
    '.' !in n.name
    && (n.Complex? ==> SiblingsDiffer(n.children) && forall i :: 0 <= i < |n.children| ==> ProperNames(n.children[i]))
  }

  predicate SiblingsDiffer(ns: seq<Node>) {
    forall i, j :: 0 <= i < j < |ns| ==> ns[i].name != ns[j].name
  }

  predicate AllProper(ns: seq<Node>) {
    SiblingsDiffer(ns) && forall i :: 0 <= i < |ns| ==> ProperNames(ns[i])
  }

  /** The identifier of the node `name` below `parent`, or of a node below that. */
  predicate Under(parent: string, name: string, id: string) {
    var own := GenerateNodeId(parent, name);
    own <= id && (|id| == |own| || id[|own|] == '.')
  }

  /** ... below one of several siblings. */
  predicate UnderSome(parent: string, ns: seq<Node>, id: string) {
    exists i :: 0 <= i < |ns| && Under(parent, ns[i].name, id)
  }

  lemma AreasAreDisjoint(parent: string, a: string, b: string, id: string)
    requires '.' !in a && '.' !in b && Under(parent, a, id) && Under(parent, b, id)
    ensures a == b
  {
    var p := |parent| + 1;
    assert forall k :: 0 <= k < |a| ==> a[k] == GenerateNodeId(parent, a)[p + k] == id[p + k];
    assert forall k :: 0 <= k < |b| ==> b[k] == GenerateNodeId(parent, b)[p + k] == id[p + k];
  }

  lemma AreaIsNested(parent: string, name: string, inner: string, id: string)
    requires Under(GenerateNodeId(parent, name), inner, id)
    ensures Under(parent, name, id) && id != GenerateNodeId(parent, name)
  {
    var own := GenerateNodeId(parent, name);
    var below := GenerateNodeId(own, inner);
    assert below[..|own|] == own && below[|own|] == '.';
    assert id[..|own|] == id[..|below|][..|own|];
    assert id[|own|] == id[..|below|][|own|];
  }

  // ---------- prepared nodes ----------

  /** Every leaf has its variable node, closed or open. */
  predicate Prepared(nodes: Nodes, parent: string, n: Node, open: bool)
    decreases n
  {
    var id := GenerateNodeId(parent, n.name);
    if n.Complex? then forall i :: 0 <= i < |n.children| ==> Prepared(nodes, id, n.children[i], open)
    else id in nodes && nodes[id].Variable? && nodes[id].dataType == NodeType(n) && nodes[id].readable == open
  }

  predicate AllPrepared(nodes: Nodes, parent: string, ns: seq<Node>, open: bool) {
    forall i :: 0 <= i < |ns| ==> Prepared(nodes, parent, ns[i], open)
  }

  /** The nodes outside an area are the same. */
  ghost predicate SameOutside(a: Nodes, b: Nodes, parent: string, name: string) {
    forall id :: !Under(parent, name, id) ==> SameAt(a, b, id)
  }

  ghost predicate SameOutsideAll(a: Nodes, b: Nodes, parent: string, ns: seq<Node>) {
    forall id :: !UnderSome(parent, ns, id) ==> SameAt(a, b, id)
  }

  predicate SameAt(a: Nodes, b: Nodes, id: string) {
    (id in a <==> id in b) && (id in a ==> a[id] == b[id])
  }

  lemma {:induction false} PreparedElsewhere(a: Nodes, b: Nodes, parent: string, n: Node, open: bool)
    requires Prepared(a, parent, n, open)
    requires forall id :: Under(parent, n.name, id) ==> SameAt(a, b, id)
    ensures Prepared(b, parent, n, open)
    decreases n
  {
    var own := GenerateNodeId(parent, n.name);
    assert Under(parent, n.name, own);
    if n.Complex? {
      forall i | 0 <= i < |n.children| ensures Prepared(b, own, n.children[i], open) {
        var c := n.children[i];
        forall id | Under(own, c.name, id) ensures SameAt(a, b, id) {
          AreaIsNested(parent, n.name, c.name, id);
        }
        PreparedElsewhere(a, b, own, c, open);
      }
    }
  }

  /** What happens in the area of the last sibling does not show in the others. */
  lemma OtherSiblings(a: Nodes, b: Nodes, parent: string, ns: seq<Node>, open: bool)
    requires ns != [] && AllProper(ns) && SameOutside(a, b, parent, ns[|ns| - 1].name)
    ensures AllPrepared(a, parent, ns[..|ns| - 1], open) ==> AllPrepared(b, parent, ns[..|ns| - 1], open)
  {
    if AllPrepared(a, parent, ns[..|ns| - 1], open) {
      forall i | 0 <= i < |ns| - 1 ensures Prepared(b, parent, ns[i], open) {
        assert Prepared(a, parent, ns[..|ns| - 1][i], open);
        forall id | Under(parent, ns[i].name, id) ensures SameAt(a, b, id) {
          NotInLast(parent, ns, i, id);
        }
        PreparedElsewhere(a, b, parent, ns[i], open);
      }
    }
  }

  lemma NotInLast(parent: string, ns: seq<Node>, i: nat, id: string)
    requires AllProper(ns) && i < |ns| - 1 && Under(parent, ns[i].name, id)
    ensures !Under(parent, ns[|ns| - 1].name, id)
  {
    assert ProperNames(ns[i]) && ProperNames(ns[|ns| - 1]);
    if Under(parent, ns[|ns| - 1].name, id) {
      AreasAreDisjoint(parent, ns[i].name, ns[|ns| - 1].name, id);
      assert false;
    }
  }

  lemma FrontIsProper(ns: seq<Node>)
    requires AllProper(ns) && ns != []
    ensures AllProper(ns[..|ns| - 1])
  {
  }

  lemma SomeOfBoth(parent: string, ns: seq<Node>, id: string)
    requires ns != []
    ensures UnderSome(parent, ns, id)
      <==> UnderSome(parent, ns[..|ns| - 1], id) || Under(parent, ns[|ns| - 1].name, id)
  {
    if UnderSome(parent, ns[..|ns| - 1], id) {
      var i :| 0 <= i < |ns| - 1 && Under(parent, ns[..|ns| - 1][i].name, id);
      assert Under(parent, ns[i].name, id);
    }
    if UnderSome(parent, ns, id) {
      var i :| 0 <= i < |ns| && Under(parent, ns[i].name, id);
      assert i < |ns| - 1 ==> Under(parent, ns[..|ns| - 1][i].name, id);
    }
  }

  /** Changes among the first siblings and then in the last one. */
  lemma OutsideOfBoth(a: Nodes, b: Nodes, c: Nodes, parent: string, ns: seq<Node>)
    requires ns != [] && SameOutsideAll(a, b, parent, ns[..|ns| - 1]) && SameOutside(b, c, parent, ns[|ns| - 1].name)
    ensures SameOutsideAll(a, c, parent, ns)
  {
    forall id | !UnderSome(parent, ns, id) ensures SameAt(a, c, id) {
      SomeOfBoth(parent, ns, id);
      assert SameAt(a, b, id) && SameAt(b, c, id);
    }
  }

  lemma OutsideOfParent(a: Nodes, b: Nodes, parent: string, name: string, ns: seq<Node>)
    requires SameOutsideAll(a, b, GenerateNodeId(parent, name), ns)
    ensures SameOutside(a, b, parent, name) && SameAt(a, b, GenerateNodeId(parent, name))
  {
    var own := GenerateNodeId(parent, name);
    forall id | !Under(parent, name, id) || id == own ensures SameAt(a, b, id) {
      if UnderSome(own, ns, id) {
        var i :| 0 <= i < |ns| && Under(own, ns[i].name, id);
        AreaIsNested(parent, name, ns[i].name, id);
        assert false;
      }
    }
  }

  // ---------- writing ----------

  lemma UpdateTypesAgree(leaf: Node)
    requires !leaf.Complex?
    ensures Encode(leaf) == [UpdateValue(leaf)]
    ensures leaf.Leaf? ==> UpdateType(leaf.kind) == NodeType(leaf)
    ensures leaf.Arr? ==> NodeType(leaf) == VARIANT
  {
    if leaf.Leaf? {
      match leaf.kind
      case _ =>
    }
  }

  /** Writing prepared nodes succeeds, stays in its area, and lets a client read
      the encoding of the value. */
  lemma {:induction false} UpdateWorks(nodes: Nodes, parent: string, n: Node)
    requires Prepared(nodes, parent, n, true) && ProperNames(n)
    ensures var r := Update(nodes, parent, n);
      r.ok && Prepared(r.nodes, parent, n, true) && SameOutside(nodes, r.nodes, parent, n.name)
      && ReadAll(r.nodes, VariableIds(parent, n)) == Encode(n)
    decreases n, 1
  {
    var own := GenerateNodeId(parent, n.name);
    if n.Complex? {
      AllUpdatesWork(nodes, own, n.children);
      OutsideOfParent(nodes, Update(nodes, parent, n).nodes, parent, n.name, n.children);
    } else {
      assert Under(parent, n.name, own);
      UpdateTypesAgree(n);
    }
  }

  lemma {:induction false} AllUpdatesWork(nodes: Nodes, parent: string, ns: seq<Node>)
    requires AllPrepared(nodes, parent, ns, true) && AllProper(ns)
    ensures var r := UpdateAll(nodes, parent, ns);
      r.ok && AllPrepared(r.nodes, parent, ns, true) && SameOutsideAll(nodes, r.nodes, parent, ns)
      && ReadAll(r.nodes, VariableIdsOfAll(parent, ns)) == EncodeAll(ns)
    decreases ns, 0
  {
    if ns != [] {
      var front, last := ns[..|ns| - 1], ns[|ns| - 1];
      FrontIsProper(ns);
      AllUpdatesWork(nodes, parent, front);
      var a := UpdateAll(nodes, parent, front).nodes;
      forall id | Under(parent, last.name, id) ensures SameAt(nodes, a, id) {
        NotInFront(parent, ns, id);
      }
      assert Prepared(nodes, parent, ns[|ns| - 1], true);
      PreparedElsewhere(nodes, a, parent, last, true);
      UpdateWorks(a, parent, last);
      var b := Update(a, parent, last).nodes;
      OutsideOfBoth(nodes, a, b, parent, ns);
      OtherSiblings(a, b, parent, ns, true);
      FrontReads(a, b, parent, ns);
    }
  }

  lemma NotInFront(parent: string, ns: seq<Node>, id: string)
    requires ns != [] && AllProper(ns) && Under(parent, ns[|ns| - 1].name, id)
    ensures !UnderSome(parent, ns[..|ns| - 1], id)
  {
    if UnderSome(parent, ns[..|ns| - 1], id) {
      var i :| 0 <= i < |ns| - 1 && Under(parent, ns[..|ns| - 1][i].name, id);
      NotInLast(parent, ns, i, id);
      assert false;
    }
  }

  lemma FrontReads(a: Nodes, b: Nodes, parent: string, ns: seq<Node>)
    requires ns != [] && AllProper(ns) && SameOutside(a, b, parent, ns[|ns| - 1].name)
    ensures var ids := VariableIdsOfAll(parent, ns[..|ns| - 1]); ReadAll(a, ids) == ReadAll(b, ids)
  {
    var ids := VariableIdsOfAll(parent, ns[..|ns| - 1]);
    forall k | 0 <= k < |ids| ensures Read(a, ids[k]) == Read(b, ids[k]) {
      AllVariablesUnder(parent, ns[..|ns| - 1], k);
      if Under(parent, ns[|ns| - 1].name, ids[k]) {
        NotInFront(parent, ns, ids[k]);
        assert false;
      }
      assert SameAt(a, b, ids[k]);
    }
  }

  lemma {:induction false} VariablesUnder(parent: string, n: Node, k: nat)
    requires k < |VariableIds(parent, n)|
    ensures Under(parent, n.name, VariableIds(parent, n)[k])
    decreases n, 1
  {
    if n.Complex? {
      var own := GenerateNodeId(parent, n.name);
      AllVariablesUnder(own, n.children, k);
      var id := VariableIds(parent, n)[k];
      var i :| 0 <= i < |n.children| && Under(own, n.children[i].name, id);
      AreaIsNested(parent, n.name, n.children[i].name, id);
    }
  }

  lemma {:induction false} AllVariablesUnder(parent: string, ns: seq<Node>, k: nat)
    requires k < |VariableIdsOfAll(parent, ns)|
    ensures UnderSome(parent, ns, VariableIdsOfAll(parent, ns)[k])
    decreases ns, 0
  {
    var front := ns[..|ns| - 1];
    var m := |VariableIdsOfAll(parent, front)|;
    if k < m {
      AllVariablesUnder(parent, front, k);
      var i :| 0 <= i < |front| && Under(parent, front[i].name, VariableIdsOfAll(parent, front)[k]);
      assert Under(parent, ns[i].name, VariableIdsOfAll(parent, ns)[k]);
    } else {
      VariablesUnder(parent, ns[|ns| - 1], k - m);
      assert Under(parent, ns[|ns| - 1].name, VariableIdsOfAll(parent, ns)[k]);
    }
  }

  // ---------- opening ----------

  /** Opening prepared nodes succeeds, stays in its area and leaves them open. */
  lemma {:induction false} EnableWorks(nodes: Nodes, parent: string, n: Node)
    requires Prepared(nodes, parent, n, false) && ProperNames(n)
    ensures var r := Enable(nodes, parent, n);
      r.ok && Prepared(r.nodes, parent, n, true) && SameOutside(nodes, r.nodes, parent, n.name)
    decreases n, 1
  {
    var own := GenerateNodeId(parent, n.name);
    if n.Complex? {
      AllEnablesWork(nodes, own, n.children);
      OutsideOfParent(nodes, Enable(nodes, parent, n).nodes, parent, n.name, n.children);
    } else {
      assert Under(parent, n.name, own);
    }
  }

  lemma {:induction false} AllEnablesWork(nodes: Nodes, parent: string, ns: seq<Node>)
    requires AllPrepared(nodes, parent, ns, false) && AllProper(ns)
    ensures var r := EnableAll(nodes, parent, ns);
      r.ok && AllPrepared(r.nodes, parent, ns, true) && SameOutsideAll(nodes, r.nodes, parent, ns)
    decreases ns, 0
  {
    if ns != [] {
      var front, last := ns[..|ns| - 1], ns[|ns| - 1];
      FrontIsProper(ns);
      AllEnablesWork(nodes, parent, front);
      var a := EnableAll(nodes, parent, front).nodes;
      forall id | Under(parent, last.name, id) ensures SameAt(nodes, a, id) {
        NotInFront(parent, ns, id);
      }
      assert Prepared(nodes, parent, ns[|ns| - 1], false);
      PreparedElsewhere(nodes, a, parent, last, false);
      EnableWorks(a, parent, last);
      var b := Enable(a, parent, last).nodes;
      OutsideOfBoth(nodes, a, b, parent, ns);
      OtherSiblings(a, b, parent, ns, true);
    }
  }

  // ---------- creating ----------

  ghost predicate Free(nodes: Nodes, parent: string, name: string) {
    forall id :: Under(parent, name, id) ==> id !in nodes
  }

  /** The area holds the nodes of the description and no others; the variables
      among them are the leaves. */
  ghost predicate Holds(nodes: Nodes, parent: string, n: Node) {
    forall id :: Under(parent, n.name, id) ==> Listed(nodes, id, NodeIds(parent, n), VariableIds(parent, n))
  }

  ghost predicate HoldsAll(nodes: Nodes, parent: string, ns: seq<Node>) {
    forall id :: UnderSome(parent, ns, id) ==> Listed(nodes, id, NodeIdsOfAll(parent, ns), VariableIdsOfAll(parent, ns))
  }

  predicate Listed(nodes: Nodes, id: string, all: seq<string>, variables: seq<string>) {
    (id in nodes <==> id in all) && (id in nodes && nodes[id].Variable? <==> id in variables)
  }

  lemma {:induction false} IdsUnder(parent: string, n: Node, id: string)
    requires id in NodeIds(parent, n) || id in VariableIds(parent, n)
    ensures Under(parent, n.name, id)
    decreases n, 1
  {
    var own := GenerateNodeId(parent, n.name);
    if n.Complex? && id != own {
      AllIdsUnder(own, n.children, id);
      var i :| 0 <= i < |n.children| && Under(own, n.children[i].name, id);
      AreaIsNested(parent, n.name, n.children[i].name, id);
    }
  }

  lemma {:induction false} AllIdsUnder(parent: string, ns: seq<Node>, id: string)
    requires id in NodeIdsOfAll(parent, ns) || id in VariableIdsOfAll(parent, ns)
    ensures UnderSome(parent, ns, id)
    decreases ns, 0
  {
    var n := |ns| - 1;
    if id in NodeIds(parent, ns[n]) || id in VariableIds(parent, ns[n]) {
      IdsUnder(parent, ns[n], id);
    } else {
      AllIdsUnder(parent, ns[..n], id);
      var i :| 0 <= i < n && Under(parent, ns[..n][i].name, id);
      assert Under(parent, ns[i].name, id);
    }
  }

  /** In a free area the nodes are created closed, and nothing else is. */
  lemma {:induction false} CreateWorks(nodes: Nodes, parent: string, n: Node)
    requires Free(nodes, parent, n.name) && ProperNames(n)
    ensures var r := Create(nodes, parent, n);
      r.ok && Prepared(r.nodes, parent, n, false) && SameOutside(nodes, r.nodes, parent, n.name)
      && Holds(r.nodes, parent, n)
    decreases n, 1
  {
    var own := GenerateNodeId(parent, n.name);
    assert Under(parent, n.name, own);
    if n.Complex? {
      var a := nodes[own := Object];
      forall i, id | 0 <= i < |n.children| && Under(own, n.children[i].name, id) ensures id !in a {
        AreaIsNested(parent, n.name, n.children[i].name, id);
      }
      AllCreatesWork(a, own, n.children);
      OutsideOfParent(a, Create(nodes, parent, n).nodes, parent, n.name, n.children);
      ObjectHolds(nodes, Create(nodes, parent, n).nodes, parent, n);
    }
  }

  lemma {:induction false} AllCreatesWork(nodes: Nodes, parent: string, ns: seq<Node>)
    requires AllProper(ns) && forall i :: 0 <= i < |ns| ==> Free(nodes, parent, ns[i].name)
    ensures var r := CreateAll(nodes, parent, ns);
      r.ok && AllPrepared(r.nodes, parent, ns, false) && SameOutsideAll(nodes, r.nodes, parent, ns)
      && HoldsAll(r.nodes, parent, ns)
    decreases ns, 0
  {
    if ns != [] {
      var front, last := ns[..|ns| - 1], ns[|ns| - 1];
      FrontIsProper(ns);
      AllCreatesWork(nodes, parent, front);
      var a := CreateAll(nodes, parent, front).nodes;
      assert Free(nodes, parent, ns[|ns| - 1].name);
      forall id | Under(parent, last.name, id) ensures id !in a {
        NotInFront(parent, ns, id);
        assert SameAt(nodes, a, id);
      }
      CreateWorks(a, parent, last);
      var b := Create(a, parent, last).nodes;
      OutsideOfBoth(nodes, a, b, parent, ns);
      OtherSiblings(a, b, parent, ns, false);
      BothHold(a, b, parent, ns);
    }
  }

  lemma BothHold(a: Nodes, b: Nodes, parent: string, ns: seq<Node>)
    requires ns != [] && AllProper(ns) && HoldsAll(a, parent, ns[..|ns| - 1])
    requires SameOutside(a, b, parent, ns[|ns| - 1].name) && Holds(b, parent, ns[|ns| - 1])
    ensures HoldsAll(b, parent, ns)
  {
    var n := |ns| - 1;
    forall id | UnderSome(parent, ns, id)
      ensures Listed(b, id, NodeIdsOfAll(parent, ns), VariableIdsOfAll(parent, ns))
    {
      SomeOfBoth(parent, ns, id);
      if Under(parent, ns[n].name, id) {
        NotInFront(parent, ns, id);
        NotListed(parent, ns[..n], id);
      } else {
        assert SameAt(a, b, id);
        if id in NodeIds(parent, ns[n]) || id in VariableIds(parent, ns[n]) {
          IdsUnder(parent, ns[n], id);
          assert false;
        }
      }
      BothListed(b, id, NodeIdsOfAll(parent, ns[..n]), NodeIds(parent, ns[n]),
        VariableIdsOfAll(parent, ns[..n]), VariableIds(parent, ns[n]));
    }
  }

  lemma NotListed(parent: string, ns: seq<Node>, id: string)
    requires !UnderSome(parent, ns, id)
    ensures id !in NodeIdsOfAll(parent, ns) && id !in VariableIdsOfAll(parent, ns)
  {
    if id in NodeIdsOfAll(parent, ns) || id in VariableIdsOfAll(parent, ns) {
      AllIdsUnder(parent, ns, id);
      assert false;
    }
  }

  lemma BothListed(nodes: Nodes, id: string, a: seq<string>, b: seq<string>, c: seq<string>, d: seq<string>)
    requires (Listed(nodes, id, a, c) && id !in b && id !in d) || (Listed(nodes, id, b, d) && id !in a && id !in c)
    ensures Listed(nodes, id, a + b, c + d)
  {
  }

  lemma ObjectHolds(nodes: Nodes, b: Nodes, parent: string, n: Node)
    requires n.Complex? && Free(nodes, parent, n.name)
    requires var own := GenerateNodeId(parent, n.name);
      SameOutsideAll(nodes[own := Object], b, own, n.children) && SameAt(nodes[own := Object], b, own)
      && HoldsAll(b, own, n.children)
    ensures Holds(b, parent, n)
  {
    var own := GenerateNodeId(parent, n.name);
    forall id | Under(parent, n.name, id) ensures Listed(b, id, NodeIds(parent, n), VariableIds(parent, n)) {
      if UnderSome(own, n.children, id) {
        var i :| 0 <= i < |n.children| && Under(own, n.children[i].name, id);
        AreaIsNested(parent, n.name, n.children[i].name, id);
      } else {
        assert SameAt(nodes[own := Object], b, id);
        NotListed(own, n.children, id);
      }
    }
  }

  /** The identifiers of a description with proper names differ pairwise. */
  lemma {:induction false} IdsDiffer(parent: string, n: Node, j: nat, k: nat)
    requires ProperNames(n) && j < k < |NodeIds(parent, n)|
    ensures NodeIds(parent, n)[j] != NodeIds(parent, n)[k]
    decreases n, 1
  {
    if n.Complex? {
      var own := GenerateNodeId(parent, n.name);
      if j == 0 {
        var id := NodeIds(parent, n)[k];
        assert id == NodeIdsOfAll(own, n.children)[k - 1];
        AllIdsUnder(own, n.children, id);
        var i :| 0 <= i < |n.children| && Under(own, n.children[i].name, id);
        AreaIsNested(parent, n.name, n.children[i].name, id);
      } else {
        AllIdsDiffer(own, n.children, j - 1, k - 1);
      }
    }
  }

  lemma {:induction false} AllIdsDiffer(parent: string, ns: seq<Node>, j: nat, k: nat)
    requires AllProper(ns) && j < k < |NodeIdsOfAll(parent, ns)|
    ensures NodeIdsOfAll(parent, ns)[j] != NodeIdsOfAll(parent, ns)[k]
    decreases ns, 0
  {
    var n := |ns| - 1;
    var front := NodeIdsOfAll(parent, ns[..n]);
    FrontIsProper(ns);
    if k < |front| {
      AllIdsDiffer(parent, ns[..n], j, k);
    } else if j >= |front| {
      IdsDiffer(parent, ns[n], j - |front|, k - |front|);
    } else {
      IdsUnder(parent, ns[n], NodeIdsOfAll(parent, ns)[k]);
      NotInFront(parent, ns, NodeIdsOfAll(parent, ns)[k]);
      AllIdsUnder(parent, ns[..n], front[j]);
    }
  }

  // ---------- a service ----------

  /** Values of one type have the same nodes. */
  lemma {:induction false} SameNodes(nodes: Nodes, parent: string, t: Node, v: Node, open: bool)
    requires SameTree(t, v) && Prepared(nodes, parent, t, open) && ProperNames(t)
    ensures Prepared(nodes, parent, v, open) && ProperNames(v) && t.name == v.name
    ensures VariableIds(parent, v) == VariableIds(parent, t)
    decreases t, 1
  {
    if t.Complex? {
      AllSameNodes(nodes, GenerateNodeId(parent, t.name), t.children, v.children, open);
    }
  }

  lemma {:induction false} AllSameNodes(nodes: Nodes, parent: string, ts: seq<Node>, vs: seq<Node>, open: bool)
    requires SameTrees(ts, vs) && AllPrepared(nodes, parent, ts, open) && AllProper(ts)
    ensures AllPrepared(nodes, parent, vs, open) && AllProper(vs)
    ensures VariableIdsOfAll(parent, vs) == VariableIdsOfAll(parent, ts)
    decreases ts, 0
  {
    if ts != [] {
      FrontIsProper(ts);
      AllSameNodes(nodes, parent, ts[..|ts| - 1], vs[..|vs| - 1], open);
      forall i | 0 <= i < |ts| ensures Prepared(nodes, parent, vs[i], open) && ProperNames(vs[i]) && vs[i].name == ts[i].name {
        assert Prepared(nodes, parent, ts[i], open);
        SameNodes(nodes, parent, ts[i], vs[i], open);
      }
      SameNodes(nodes, parent, ts[|ts| - 1], vs[|vs| - 1], open);
    }
  }

  /** A closed node gives nothing. */
  lemma ClosedReadsNothing(nodes: Nodes, parent: string, n: Node, k: nat)
    requires Prepared(nodes, parent, n, false) && k < |VariableIds(parent, n)|
    ensures Read(nodes, VariableIds(parent, n)[k]) == Null
    decreases n, 1
  {
    if n.Complex? {
      AllClosedReadNothing(nodes, GenerateNodeId(parent, n.name), n.children, k);
    }
  }

  lemma AllClosedReadNothing(nodes: Nodes, parent: string, ns: seq<Node>, k: nat)
    requires AllPrepared(nodes, parent, ns, false) && k < |VariableIdsOfAll(parent, ns)|
    ensures Read(nodes, VariableIdsOfAll(parent, ns)[k]) == Null
    decreases ns, 0
  {
    var n := |ns| - 1;
    var m := |VariableIdsOfAll(parent, ns[..n])|;
    if k < m {
      AllClosedReadNothing(nodes, parent, ns[..n], k);
    } else {
      assert Prepared(nodes, parent, ns[n], false);
      ClosedReadsNothing(nodes, parent, ns[n], k - m);
    }
  }

  /** The state of a service after some values: closed before the first one, and
      from then on a client reads the encoding of the last one. */
  ghost predicate Published(nodes: Nodes, parent: string, t: Node, vs: seq<Node>) {
    Prepared(nodes, parent, t, vs != [])
    && ReadAll(nodes, VariableIds(parent, t)) ==
         if vs == [] then seq(|VariableIds(parent, t)|, _ => Null) else Encode(vs[|vs| - 1])
  }

  lemma {:induction false} PutsPublish(nodes: Nodes, parent: string, t: Node, vs: seq<Node>)
    requires Prepared(nodes, parent, t, false) && ProperNames(t)
    requires forall i :: 0 <= i < |vs| ==> SameTree(t, vs[i])
    ensures var r := Puts(nodes, true, parent, vs);
      r.ok && Published(r.nodes, parent, t, vs) && SameOutside(nodes, r.nodes, parent, t.name)
    decreases |vs|
  {
    if vs == [] {
      forall k | 0 <= k < |VariableIds(parent, t)| ensures Read(nodes, VariableIds(parent, t)[k]) == Null {
        ClosedReadsNothing(nodes, parent, t, k);
      }
    } else {
      var n := |vs| - 1;
      PutsPublish(nodes, parent, t, vs[..n]);
      var a := Puts(nodes, true, parent, vs[..n]).nodes;
      SameNodes(a, parent, t, vs[n], n > 0);
      if n == 0 {
        EnableWorks(a, parent, vs[n]);
      }
      var b := if n == 0 then Enable(a, parent, vs[n]).nodes else a;
      UpdateWorks(b, parent, vs[n]);
      var c := Update(b, parent, vs[n]).nodes;
      SameTreeIsSymmetric(t, vs[n]);
      SameNodes(c, parent, vs[n], t, true);
    }
  }

  lemma {:induction false} SameTreeIsSymmetric(a: Node, b: Node)
    requires SameTree(a, b)
    ensures SameTree(b, a)
  {
    if a.Complex? {
      forall i | 0 <= i < |a.children| ensures SameTree(b.children[i], a.children[i]) {
        SameTreeIsSymmetric(a.children[i], b.children[i]);
      }
    }
  }

  /** A service publishes under its name: in a free area the nodes of `t` are
      created, any values can be put, and a client that reads the variable nodes
      in the order of the flat list gets the variants of the last value. Other
      nodes stay as they were. */
  lemma PushEndToEnd(nodes: Nodes, parent: string, t: Node, vs: seq<Node>)
    requires Free(nodes, parent, t.name) && ProperNames(t)
    requires forall i :: 0 <= i < |vs| ==> SameTree(t, vs[i])
    ensures var created := Create(nodes, parent, t);
      created.ok && Holds(created.nodes, parent, t)
    ensures var r := Puts(Create(nodes, parent, t).nodes, true, parent, vs);
      r.ok && Published(r.nodes, parent, t, vs) && SameOutside(nodes, r.nodes, parent, t.name)
  {
    CreateWorks(nodes, parent, t);
    var created := Create(nodes, parent, t).nodes;
    PutsPublish(created, parent, t, vs);
    var r := Puts(created, true, parent, vs).nodes;
    forall id | !Under(parent, t.name, id) ensures SameAt(nodes, r, id) {
      assert SameAt(nodes, created, id) && SameAt(created, r, id);
    }
  }

  lemma {:induction false} ValuesHaveTheTree(t: Node, v: Node)
    requires ValueOf(t, v)
    ensures SameTree(t, v)
    decreases t
  {
    if t.Complex? {
      forall i | 0 <= i < |t.children| ensures SameTree(t.children[i], v.children[i]) {
        assert ValueOf(t.children[i], v.children[i]);
        ValuesHaveTheTree(t.children[i], v.children[i]);
      }
    }
  }

  /** A client that reads the variable nodes in the order of the flat list and
      decodes them into a fresh object gets the last value that was put, exactly
      when that value survives the conversion. */
  lemma PushedValueArrives(nodes: Nodes, parent: string, t: Node, vs: seq<Node>)
    requires Free(nodes, parent, t.name) && ProperNames(t) && Blank(t) && NewElementsBlank(t)
    requires vs != [] && forall i :: 0 <= i < |vs| ==> ValueOf(t, vs[i])
    ensures var r := Puts(Create(nodes, parent, t).nodes, true, parent, vs);
      var variants, last := ReadAll(r.nodes, VariableIds(parent, t)), vs[|vs| - 1];
      r.ok && (Decode(t, variants, 0) == Good((last, |variants|)) <==> Survives(last))
  {
    forall i | 0 <= i < |vs| ensures SameTree(t, vs[i]) {
      ValuesHaveTheTree(t, vs[i]);
    }
    PushEndToEnd(nodes, parent, t, vs);
    FreshRoundTrip(t, vs[|vs| - 1]);
  }

  // ---------- any names ----------

  /** The identifiers can be added to the server: none is taken, none repeated. */
  predicate Unused(taken: set<string>, ids: seq<string>) {
    forall i :: 0 <= i < |ids| ==> ids[i] !in taken && ids[i] !in ids[..i]
  }

  function Ids(ids: seq<string>): set<string> { set id | id in ids }

  lemma UnusedConcat(taken: set<string>, a: seq<string>, b: seq<string>)
    ensures Unused(taken, a + b) <==> Unused(taken, a) && Unused(taken + Ids(a), b)
    ensures Ids(a + b) == Ids(a) + Ids(b)
  {
    var c := a + b;
    forall i | 0 <= i < |a| ensures c[i] == a[i] && c[..i] == a[..i] {}
    forall i | 0 <= i < |b| ensures c[|a| + i] == b[i] && c[..|a| + i] == a + b[..i] {}
    if Unused(taken, c) {
      forall i | 0 <= i < |b| ensures b[i] !in taken + Ids(a) && b[i] !in b[..i] {
        assert c[|a| + i] !in c[..|a| + i];
      }
      forall i | 0 <= i < |a| ensures a[i] !in taken && a[i] !in a[..i] {
        assert c[i] !in c[..i];
      }
    }
  }

  /** Whatever the names are: the nodes are created exactly when no identifier is
      taken or repeated. */
  lemma {:induction false} CreateSucceeds(nodes: Nodes, parent: string, n: Node)
    ensures var r := Create(nodes, parent, n);
      (r.ok <==> Unused(nodes.Keys, NodeIds(parent, n)))
      && (r.ok ==> r.nodes.Keys == nodes.Keys + Ids(NodeIds(parent, n)))
    decreases n, 1
  {
    var own := GenerateNodeId(parent, n.name);
    assert Ids([own]) == {own} && [own][..0] == [];
    assert Unused(nodes.Keys, [own]) <==> own !in nodes;
    if n.Complex? {
      UnusedConcat(nodes.Keys, [own], NodeIdsOfAll(own, n.children));
      if own !in nodes {
        assert nodes[own := Object].Keys == nodes.Keys + {own};
        AllCreatesSucceed(nodes[own := Object], own, n.children);
      }
    }
  }

  lemma {:induction false} AllCreatesSucceed(nodes: Nodes, parent: string, ns: seq<Node>)
    ensures var r := CreateAll(nodes, parent, ns);
      (r.ok <==> Unused(nodes.Keys, NodeIdsOfAll(parent, ns)))
      && (r.ok ==> r.nodes.Keys == nodes.Keys + Ids(NodeIdsOfAll(parent, ns)))
    decreases ns, 0
  {
    if ns != [] {
      var front, last := ns[..|ns| - 1], ns[|ns| - 1];
      AllCreatesSucceed(nodes, parent, front);
      UnusedConcat(nodes.Keys, NodeIdsOfAll(parent, front), NodeIds(parent, last));
      if CreateAll(nodes, parent, front).ok {
        CreateSucceeds(CreateAll(nodes, parent, front).nodes, parent, last);
      }
    }
  }

  /** With a dot in a name, two different elements can have one identifier. */
  lemma DottedNamesCollide(nodes: Nodes, parent: string)
    ensures var x := Leaf("b", Bool, Flag(false));
      !Create(nodes, parent, Complex("s", [Complex("a", [x]), Leaf("a.b", Bool, Flag(false))])).ok
  {
    var x := Leaf("b", Bool, Flag(false));
    var a := Complex("a", [x]);
    var dotted := Leaf("a.b", Bool, Flag(false));
    var s := Complex("s", [a, dotted]);
    var own := GenerateNodeId(parent, "s");
    var inner := GenerateNodeId(own, "a");
    assert GenerateNodeId(inner, "b") == GenerateNodeId(own, "a.b");
    assert s.children[..1] == [a] && [a][..0] == [] && [x][..0] == [];
    assert NodeIdsOfAll(inner, [x]) == [GenerateNodeId(inner, "b")];
    assert NodeIds(own, a) == [inner, GenerateNodeId(inner, "b")];
    assert NodeIdsOfAll(own, []) == [];
    assert NodeIdsOfAll(own, [a]) == NodeIds(own, a);
    assert NodeIdsOfAll(own, s.children) == NodeIds(own, a) + [GenerateNodeId(own, "a.b")];
    var ids := NodeIds(parent, s);
    assert ids == [own, inner, GenerateNodeId(inner, "b"), GenerateNodeId(own, "a.b")];
    assert ids[2] in ids[..3] && ids[3] == ids[2];
    CreateSucceeds(nodes, parent, s);
  }

  // ---------- types of the nodes ----------

  /** Number of the data type of a leaf's node: that of "variant" for every array. */
  function NodeNumber(leaf: Node): int
    requires !leaf.Complex?
  {
    if leaf.Arr? then 23 else CodecNumbers.Number(leaf.kind)
  }

  ghost predicate HasNode(nodes: Nodes, id: string, leaf: Node) {
    !leaf.Complex? && id in nodes && nodes[id].Variable? && nodes[id].dataType as int == NodeNumber(leaf)
  }

  ghost predicate HaveNodes(nodes: Nodes, ids: seq<string>, leaves: seq<Node>) {
    |ids| == |leaves| && forall k :: 0 <= k < |ids| ==> HasNode(nodes, ids[k], leaves[k])
  }

  lemma {:induction false} PreparedTypes(nodes: Nodes, parent: string, n: Node, open: bool)
    requires Prepared(nodes, parent, n, open)
    ensures HaveNodes(nodes, VariableIds(parent, n), Leaves(n))
    decreases n, 1
  {
    match n
    case Leaf(_, k, _) => NodeTypeNumber(n);
    case Complex(_, children) => AllPreparedTypes(nodes, GenerateNodeId(parent, n.name), children, open);
    case Arr(_, _, _) => NodeTypeNumber(n);
  }

  lemma {:induction false} AllPreparedTypes(nodes: Nodes, parent: string, ns: seq<Node>, open: bool)
    requires AllPrepared(nodes, parent, ns, open)
    ensures HaveNodes(nodes, VariableIdsOfAll(parent, ns), LeavesOfAll(ns))
    decreases ns, 0
  {
    if ns != [] {
      assert Prepared(nodes, parent, ns[|ns| - 1], open);
      AllPreparedTypes(nodes, parent, ns[..|ns| - 1], open);
      PreparedTypes(nodes, parent, ns[|ns| - 1], open);
    }
  }

  lemma NodeTypeNumber(leaf: Node)
    requires !leaf.Complex?
    ensures NodeType(leaf) as int == NodeNumber(leaf)
  {
    if leaf.Leaf? {
      match leaf.kind
      case _ =>
    }
  }

  /** The nodes that are created are, in the order of the flat list, variables of the
      type of their leaf. */
  lemma CreatedTypes(nodes: Nodes, parent: string, n: Node)
    requires Free(nodes, parent, n.name) && ProperNames(n)
    ensures HaveNodes(Create(nodes, parent, n).nodes, VariableIds(parent, n), Leaves(n))
  {
    CreateWorks(nodes, parent, n);
    PreparedTypes(Create(nodes, parent, n).nodes, parent, n, false);
  }
}
