/** The tree the browser rebuilds from nodes and edges (frontend/src/pages/topology.tsx). */
module TopologyPage {
  import opened Topology

  // ----- The tree a graph stands for -----

  datatype Tree = Tree(id: string, children: seq<Tree>)

  /** The subtree below node i. */
  function Unfold(g: Graph, i: nat): Tree
    requires TreeGraph(g) && i < |g.nodes|
    decreases |g.nodes| - i, 1, 0
  {
    Tree(g.nodes[i].id, Kids(g, i, |g.edges|))
  }

  /** The subtrees of the targets of node i among the first n edges, in the order of the edges. */
  function Kids(g: Graph, i: nat, n: nat): seq<Tree>
    requires TreeGraph(g) && i < |g.nodes| && n <= |g.edges|
    decreases |g.nodes| - i, 0, n
  {
    if n == 0 then []
    else if g.edges[n - 1].source == g.nodes[i].id then
      EdgesGoForward(g, i, n - 1);
      Kids(g, i, n - 1) + [Unfold(g, n)]
    else Kids(g, i, n - 1)
  }

  lemma EdgesGoForward(g: Graph, i: nat, k: nat)
    requires TreeGraph(g) && i < |g.nodes| && k < |g.edges| && g.edges[k].source == g.nodes[i].id
    ensures i < k + 1
  {
    var p :| 0 <= p < k + 1 && g.nodes[..k + 1][p].id == g.edges[k].source;
  }

  function Flatten(t: Tree): seq<string>
  {
    [t.id] + FlattenAll(t.children)
  }

  function FlattenAll(ts: seq<Tree>): seq<string>
  {
    if ts == [] then [] else FlattenAll(ts[..|ts| - 1]) + Flatten(ts[|ts| - 1])
  }

  function Count(t: Tree, x: string): nat { multiset(Flatten(t))[x] }

  function CountAll(ts: seq<Tree>, x: string): nat { multiset(FlattenAll(ts))[x] }

  lemma CountSplits(t: Tree, x: string)
    ensures Count(t, x) == (if t.id == x then 1 else 0) + CountAll(t.children, x)
  {
  }

  lemma CountAllSplits(ts: seq<Tree>, last: Tree, x: string)
    ensures CountAll(ts + [last], x) == CountAll(ts, x) + Count(last, x)
  {
    assert (ts + [last])[..|ts|] == ts;
  }

  /** Counting below node i, one edge more. */
  lemma KidsStep(g: Graph, i: nat, n: nat, x: string)
    requires TreeGraph(g) && i < |g.nodes| && 0 < n <= |g.edges|
    ensures g.edges[n - 1].source == g.nodes[i].id ==> i < n
    ensures CountAll(Kids(g, i, n), x) ==
      CountAll(Kids(g, i, n - 1), x) + if g.edges[n - 1].source == g.nodes[i].id then Count(Unfold(g, n), x) else 0
  {
    if g.edges[n - 1].source == g.nodes[i].id {
      EdgesGoForward(g, i, n - 1);
      CountAllSplits(Kids(g, i, n - 1), Unfold(g, n), x);
    }
  }

  /** The source of the edge to node j. */
  function Parent(g: Graph, j: nat): string
    requires TreeGraph(g) && 0 < j < |g.nodes|
  {
    g.edges[j - 1].source
  }

  /** Node j occurs below i as often as its parent does, and once more where it is i itself. */
  lemma {:induction false} CountByParent(g: Graph, i: nat, j: nat)
    requires TreeGraph(g) && i < |g.nodes| && 0 < j < |g.nodes|
    ensures Count(Unfold(g, i), g.nodes[j].id) == (if i == j then 1 else 0) + Count(Unfold(g, i), Parent(g, j))
    decreases |g.nodes| - i, 1, 0
  {
    KidsByParent(g, i, j, |g.edges|);
    CountSplits(Unfold(g, i), g.nodes[j].id);
    CountSplits(Unfold(g, i), Parent(g, j));
  }

  lemma {:induction false} KidsByParent(g: Graph, i: nat, j: nat, n: nat)
    requires TreeGraph(g) && i < |g.nodes| && 0 < j < |g.nodes| && n <= |g.edges|
    ensures CountAll(Kids(g, i, n), g.nodes[j].id) ==
      (if j <= n && Parent(g, j) == g.nodes[i].id then 1 else 0) + CountAll(Kids(g, i, n), Parent(g, j))
    decreases |g.nodes| - i, 0, n
  {
    if n > 0 {
      KidsByParent(g, i, j, n - 1);
      KidsStep(g, i, n, g.nodes[j].id);
      KidsStep(g, i, n, Parent(g, j));
      if g.edges[n - 1].source == g.nodes[i].id {
        CountByParent(g, n, j);
      }
    }
  }

  /** Below node i there are only nodes from i on. */
  lemma {:induction false} OnlyLater(g: Graph, i: nat, x: string)
    requires TreeGraph(g) && i < |g.nodes| && forall k :: i <= k < |g.nodes| ==> g.nodes[k].id != x
    ensures Count(Unfold(g, i), x) == 0
    decreases |g.nodes| - i, 1, 0
  {
    OnlyLaterKids(g, i, x, |g.edges|);
    CountSplits(Unfold(g, i), x);
  }

  lemma {:induction false} OnlyLaterKids(g: Graph, i: nat, x: string, n: nat)
    requires TreeGraph(g) && i < |g.nodes| && n <= |g.edges| && forall k :: i < k < |g.nodes| ==> g.nodes[k].id != x
    ensures CountAll(Kids(g, i, n), x) == 0
    decreases |g.nodes| - i, 0, n
  {
    if n > 0 {
      OnlyLaterKids(g, i, x, n - 1);
      KidsStep(g, i, n, x);
      if g.edges[n - 1].source == g.nodes[i].id {
        OnlyLater(g, n, x);
      }
    }
  }

  lemma {:induction false} OnceFromRoot(g: Graph, j: nat)
    requires TreeGraph(g) && j < |g.nodes|
    ensures Count(Unfold(g, 0), g.nodes[j].id) == 1
  {
    if j == 0 {
      OnlyLaterKids(g, 0, g.nodes[0].id, |g.edges|);
      CountSplits(Unfold(g, 0), g.nodes[0].id);
    } else {
      var p :| 0 <= p < j && g.nodes[..j][p].id == Parent(g, j);
      OnceFromRoot(g, p);
      CountByParent(g, 0, j);
    }
  }

  function Ids(nodes: seq<Node>): (r: seq<string>)
    ensures |r| == |nodes| && forall i :: 0 <= i < |r| ==> r[i] == nodes[i].id
  {
    seq(|nodes|, i requires 0 <= i < |nodes| => nodes[i].id)
  }

  lemma HasNodeSplits(nodes: seq<Node>, x: string)
    requires nodes != []
    ensures HasNode(nodes, x) <==> x == nodes[0].id || HasNode(nodes[1..], x)
  {
    if i :| 0 < i < |nodes| && nodes[i].id == x {
      assert nodes[1..][i - 1].id == x;
    }
    if i :| 0 <= i < |nodes[1..]| && nodes[1..][i].id == x {
      assert nodes[i + 1].id == x;
    }
  }

  lemma FirstIdIsAlone(nodes: seq<Node>)
    requires nodes != [] && DistinctIds(nodes)
    ensures DistinctIds(nodes[1..]) && !HasNode(nodes[1..], nodes[0].id)
  {
    assert forall i :: 0 <= i < |nodes[1..]| ==> nodes[1..][i] == nodes[i + 1];
  }

  lemma {:induction false} DistinctCounts(nodes: seq<Node>, x: string)
    requires DistinctIds(nodes)
    ensures multiset(Ids(nodes))[x] == if HasNode(nodes, x) then 1 else 0
  {
    if nodes != [] {
      assert Ids(nodes) == [nodes[0].id] + Ids(nodes[1..]);
      FirstIdIsAlone(nodes);
      HasNodeSplits(nodes, x);
      DistinctCounts(nodes[1..], x);
    }
  }

  /** Main result: flattening the tree of a graph gives every node exactly once. */
  lemma FlatteningIsPermutation(g: Graph)
    requires TreeGraph(g)
    ensures multiset(Flatten(Unfold(g, 0))) == multiset(Ids(g.nodes))
  {
    forall x ensures multiset(Flatten(Unfold(g, 0)))[x] == multiset(Ids(g.nodes))[x] {
      DistinctCounts(g.nodes, x);
      if HasNode(g.nodes, x) {
        var j :| 0 <= j < |g.nodes| && g.nodes[j].id == x;
        OnceFromRoot(g, j);
      } else {
        OnlyLater(g, 0, x);
      }
    }
  }

  // ----- buildTree -----

  class TreeNode {
    const id: string
    var children: seq<TreeNode>

    constructor (id: string)
      ensures this.id == id && children == []
    {
      this.id := id;
      children := [];
    }
  }

  /** Both ends of the edge are known nodes. */
  predicate Linked(nodes: seq<Node>, edge: Edge)
  {
    HasNode(nodes, edge.source) && HasNode(nodes, edge.target)
  }

  /** The targets of the linked edges from a node, in the order of the edges. */
  function Targets(nodes: seq<Node>, edges: seq<Edge>, id: string): seq<string>
  {
    if edges == [] then []
    else
      var last := edges[|edges| - 1];
      Targets(nodes, edges[..|edges| - 1], id) + if Linked(nodes, last) && last.source == id then [last.target] else []
  }

  predicate IsTarget(nodes: seq<Node>, edges: seq<Edge>, id: string)
  {
    exists e :: e in edges && Linked(nodes, e) && e.target == id
  }

  /** The ids of the nodes no linked edge leads to. */
  function RootIds(nodes: seq<Node>, all: seq<Node>, edges: seq<Edge>): seq<string>
  {
    if nodes == [] then []
    else
      var last := nodes[|nodes| - 1];
      RootIds(nodes[..|nodes| - 1], all, edges) + if IsTarget(all, edges, last.id) then [] else [last.id]
  }

  lemma RootStep(nodes: seq<Node>, i: nat, all: seq<Node>, edges: seq<Edge>)
    requires i < |nodes|
    ensures IsTarget(all, edges, nodes[i].id) ==> RootIds(nodes[..i + 1], all, edges) == RootIds(nodes[..i], all, edges)
    ensures !IsTarget(all, edges, nodes[i].id) ==>
      RootIds(nodes[..i + 1], all, edges) == RootIds(nodes[..i], all, edges) + [nodes[i].id]
  {
    assert nodes[..i + 1][..i] == nodes[..i];
  }

  /** The map from ids to tree nodes: one object for each id. */
  ghost predicate IsNodeMap(nodes: seq<Node>, nodeMap: map<string, TreeNode>)
  {
    (forall id :: id in nodeMap <==> HasNode(nodes, id)) &&
    (forall id :: id in nodeMap ==> nodeMap[id].id == id)
  }

  /** The objects that belong to a list of ids. */
  ghost predicate Refers(objects: seq<TreeNode>, ids: seq<string>, nodeMap: map<string, TreeNode>)
  {
    |objects| == |ids| && forall k :: 0 <= k < |ids| ==> ids[k] in nodeMap && objects[k] == nodeMap[ids[k]]
  }

  method MakeNodes(nodes: seq<Node>) returns (nodeMap: map<string, TreeNode>)
    ensures IsNodeMap(nodes, nodeMap)
    ensures forall id :: id in nodeMap ==> fresh(nodeMap[id]) && nodeMap[id].children == []
  {
    nodeMap := map[];
    for i := 0 to |nodes|
      invariant IsNodeMap(nodes[..i], nodeMap)
      invariant forall id :: id in nodeMap ==> fresh(nodeMap[id]) && nodeMap[id].children == []
    {
      var treeNode := new TreeNode(nodes[i].id);
      nodeMap := nodeMap[nodes[i].id := treeNode];
      assert nodes[..i + 1] == nodes[..i] + [nodes[i]];
      GrowHas(Graph(nodes[..i], []), "", nodes[i], "");
    }
    assert nodes[..|nodes|] == nodes;
  }

  /** One edge: the child joins its parent's children, at the end. */
  method LinkEdge(nodes: seq<Node>, ghost before: seq<Edge>, edge: Edge, nodeMap: map<string, TreeNode>)
    requires IsNodeMap(nodes, nodeMap)
    requires forall id :: id in nodeMap ==> Refers(nodeMap[id].children, Targets(nodes, before, id), nodeMap)
    modifies nodeMap.Values
    ensures forall id :: id in nodeMap ==> Refers(nodeMap[id].children, Targets(nodes, before + [edge], id), nodeMap)
  {
    TargetsStep(nodes, before, edge);
    if edge.source in nodeMap && edge.target in nodeMap {
      var parent, child := nodeMap[edge.source], nodeMap[edge.target];
      assert parent in nodeMap.Values;
      ReferOneMore(parent.children, Targets(nodes, before, edge.source), child, edge.target, nodeMap);
      parent.children := parent.children + [child];
      assert forall id :: id in nodeMap && id != edge.source ==> nodeMap[id] != parent;
    }
  }

  lemma ReferOneMore(objects: seq<TreeNode>, ids: seq<string>, child: TreeNode, id: string, nodeMap: map<string,
                     TreeNode>)
    requires Refers(objects, ids, nodeMap) && id in nodeMap && child == nodeMap[id]
    ensures Refers(objects + [child], ids + [id], nodeMap)
  {
  }

  lemma TargetsStep(nodes: seq<Node>, before: seq<Edge>, edge: Edge)
    ensures Linked(nodes, edge) ==>
      Targets(nodes, before + [edge], edge.source) == Targets(nodes, before, edge.source) + [edge.target]
    ensures forall id :: id != edge.source || !Linked(nodes, edge) ==>
      Targets(nodes, before + [edge], id) == Targets(nodes, before, id)
  {
    assert (before + [edge])[..|before|] == before;
  }

  /** The nodes no edge leads to, in order. */
  method Roots(nodes: seq<Node>, ghost edges: seq<Edge>, childIds: set<string>, nodeMap: map<string, TreeNode>)
    returns (roots: seq<TreeNode>)
    requires IsNodeMap(nodes, nodeMap) && forall id :: id in childIds <==> IsTarget(nodes, edges, id)
    ensures Refers(roots, RootIds(nodes, nodes, edges), nodeMap)
  {
    roots := [];
    for i := 0 to |nodes|
      invariant Refers(roots, RootIds(nodes[..i], nodes, edges), nodeMap)
    {
      var id := nodes[i].id;
      RootStep(nodes, i, nodes, edges);
      assert HasNode(nodes, id);
      if id !in childIds {
        ReferOneMore(roots, RootIds(nodes[..i], nodes, edges), nodeMap[id], id, nodeMap);
        roots := roots + [nodeMap[id]];
      }
    }
    assert nodes[..|nodes|] == nodes;
  }

  method BuildTree(nodes: seq<Node>, edges: seq<Edge>) returns (roots: seq<TreeNode>, nodeMap: map<string, TreeNode>)
    ensures IsNodeMap(nodes, nodeMap) && forall id :: id in nodeMap ==> fresh(nodeMap[id])
    ensures forall id :: id in nodeMap ==> Refers(nodeMap[id].children, Targets(nodes, edges, id), nodeMap)
    ensures Refers(roots, RootIds(nodes, nodes, edges), nodeMap)
  {
    nodeMap := MakeNodes(nodes);
    var childIds: set<string> := {};
    for k := 0 to |edges|
      invariant forall id :: id in childIds <==> IsTarget(nodes, edges[..k], id)
      invariant forall id :: id in nodeMap ==> Refers(nodeMap[id].children, Targets(nodes, edges[..k], id), nodeMap)
    {
      var edge := edges[k];
      assert edges[..k + 1] == edges[..k] + [edge];
      LinkEdge(nodes, edges[..k], edge, nodeMap);
      if edge.source in nodeMap && edge.target in nodeMap {
        childIds := childIds + {edge.target};
      }
    }
    assert edges[..|edges|] == edges;
    roots := Roots(nodes, edges, childIds, nodeMap);
  }

  // ----- The objects show the tree -----

  /** The object and everything below it look like the tree. */
  ghost predicate Shows(n: TreeNode, t: Tree, objects: set<TreeNode>)
    reads objects
    decreases t
  {
    n in objects && n.id == t.id && |n.children| == |t.children| &&
    forall k :: 0 <= k < |t.children| ==> Shows(n.children[k], t.children[k], objects)
  }

  /** The objects of a graph after buildTree. */
  ghost predicate Wired(g: Graph, nodeMap: map<string, TreeNode>, objects: set<TreeNode>)
    reads objects
  {
    objects == nodeMap.Values && IsNodeMap(g.nodes, nodeMap) &&
    forall id :: id in nodeMap ==> Refers(nodeMap[id].children, Targets(g.nodes, g.edges, id), nodeMap)
  }

  lemma {:induction false} RootOnly(g: Graph, n: nat)
    requires TreeGraph(g) && 0 < n <= |g.nodes|
    ensures RootIds(g.nodes[..n], g.nodes, g.edges) == [g.nodes[0].id]
  {
    var i := n - 1;
    assert g.nodes[..n][..i] == g.nodes[..i] && g.nodes[..n][i] == g.nodes[i];
    if i == 0 {
      TargetsOnce(g, 0);
      assert RootIds([], g.nodes, g.edges) == [] && g.nodes[..0] == [];
      assert !IsTarget(g.nodes, g.edges, g.nodes[0].id);
    } else {
      RootOnly(g, i);
      AllLinked(g, i - 1);
      assert g.edges[i - 1] in g.edges;
    }
  }

  lemma AllLinked(g: Graph, k: nat)
    requires TreeGraph(g) && k < |g.edges|
    ensures Linked(g.nodes, g.edges[k])
  {
    var p :| 0 <= p < k + 1 && g.nodes[..k + 1][p].id == g.edges[k].source;
    assert g.nodes[p].id == g.edges[k].source && g.nodes[k + 1].id == g.edges[k].target;
  }

  lemma {:induction false} ShowsUnfold(g: Graph, nodeMap: map<string, TreeNode>, objects: set<TreeNode>, i: nat)
    requires TreeGraph(g) && i < |g.nodes| && Wired(g, nodeMap, objects)
    ensures HasNode(g.nodes, g.nodes[i].id) && Shows(nodeMap[g.nodes[i].id], Unfold(g, i), objects)
    decreases |g.nodes| - i, 1, 0
  {
    var id := g.nodes[i].id;
    assert HasNode(g.nodes, id) && id in nodeMap;
    assert g.edges[..|g.edges|] == g.edges;
    ShowsKids(g, nodeMap, objects, i, |g.edges|);
  }

  /** The objects of the ids show the trees, one for one. */
  ghost predicate ShowAll(ids: seq<string>, kids: seq<Tree>, nodeMap: map<string, TreeNode>, objects: set<TreeNode>)
    reads objects
  {
    |ids| == |kids| && forall k :: 0 <= k < |kids| ==> ids[k] in nodeMap && Shows(nodeMap[ids[k]], kids[k], objects)
  }

  lemma {:induction false} ShowsKids(g: Graph, nodeMap: map<string, TreeNode>, objects: set<TreeNode>, i: nat, n: nat)
    requires TreeGraph(g) && i < |g.nodes| && n <= |g.edges| && Wired(g, nodeMap, objects)
    ensures ShowAll(Targets(g.nodes, g.edges[..n], g.nodes[i].id), Kids(g, i, n), nodeMap, objects)
    decreases |g.nodes| - i, 0, n
  {
    if n > 0 {
      ShowsKids(g, nodeMap, objects, i, n - 1);
      if g.edges[n - 1].source == g.nodes[i].id {
        EdgesGoForward(g, i, n - 1);
        ShowsUnfold(g, nodeMap, objects, n);
      }
      ShowsKid(g, nodeMap, objects, i, n);
    }
  }

  lemma ShowsKid(g: Graph, nodeMap: map<string, TreeNode>, objects: set<TreeNode>, i: nat, n: nat)
    requires TreeGraph(g) && i < |g.nodes| && 0 < n <= |g.edges| && IsNodeMap(g.nodes, nodeMap)
    requires ShowAll(Targets(g.nodes, g.edges[..n - 1], g.nodes[i].id), Kids(g, i, n - 1), nodeMap, objects)
    requires g.edges[n - 1].source == g.nodes[i].id ==>
      g.nodes[n].id in nodeMap && Shows(nodeMap[g.nodes[n].id], Unfold(g, n), objects)
    ensures ShowAll(Targets(g.nodes, g.edges[..n], g.nodes[i].id), Kids(g, i, n), nodeMap, objects)
  {
    assert g.edges[..n] == g.edges[..n - 1] + [g.edges[n - 1]];
    TargetsStep(g.nodes, g.edges[..n - 1], g.edges[n - 1]);
    AllLinked(g, n - 1);
    if g.edges[n - 1].source == g.nodes[i].id {
      ShowOneMore(Targets(g.nodes, g.edges[..n - 1], g.nodes[i].id), Kids(g, i, n - 1), g.nodes[n].id, Unfold(g, n),
                  nodeMap, objects);
    }
  }

  lemma ShowOneMore(ids: seq<string>, kids: seq<Tree>, id: string, kid: Tree, nodeMap: map<string, TreeNode>,
                    objects: set<TreeNode>)
    requires ShowAll(ids, kids, nodeMap, objects) && id in nodeMap && Shows(nodeMap[id], kid, objects)
    ensures ShowAll(ids + [id], kids + [kid], nodeMap, objects)
  {
  }

  /** Rendering visits a node, then its children: it ends, and lists the ids of the tree. */
  method Render(n: TreeNode, ghost t: Tree, ghost objects: set<TreeNode>) returns (ids: seq<string>)
    requires Shows(n, t, objects)
    ensures ids == Flatten(t)
    decreases t
  {
    ids := [n.id];
    for k := 0 to |n.children|
      invariant ids == [t.id] + FlattenAll(t.children[..k])
    {
      var below := Render(n.children[k], t.children[k], objects);
      assert t.children[..k + 1][..k] == t.children[..k];
      ids := ids + below;
    }
    assert t.children[..|t.children|] == t.children;
  }

  /** Main result: from a tree graph the page builds a single root, and rendering it ends and shows
      every node exactly once. */
  method ShowTopology(g: Graph) returns (roots: seq<TreeNode>, ids: seq<string>)
    requires TreeGraph(g)
    ensures |roots| == 1 && roots[0].id == g.nodes[0].id
    ensures ids == Flatten(Unfold(g, 0))
    ensures multiset(ids) == multiset(Ids(g.nodes))
  {
    var nodeMap;
    roots, nodeMap := BuildTree(g.nodes, g.edges);
    assert g.nodes[..|g.nodes|] == g.nodes;
    RootOnly(g, |g.nodes|);
    ShowsUnfold(g, nodeMap, nodeMap.Values, 0);
    assert |roots| == 1;
    ids := Render(roots[0], Unfold(g, 0), nodeMap.Values);
    FlatteningIsPermutation(g);
  }

  // ----- The order of the children -----

  /** Earlier edges give earlier children, and one linked edge gives one child. */
  lemma {:induction false} TargetsConcat(nodes: seq<Node>, a: seq<Edge>, b: seq<Edge>, id: string)
    ensures Targets(nodes, a + b, id) == Targets(nodes, a, id) + Targets(nodes, b, id)
  {
    if b == [] {
      assert a + b == a;
    } else {
      var last := b[|b| - 1];
      var more := if Linked(nodes, last) && last.source == id then [last.target] else [];
      assert (a + b)[|a + b| - 1] == last && (a + b)[..|a + b| - 1] == a + b[..|b| - 1];
      TargetsConcat(nodes, a, b[..|b| - 1], id);
      assert (Targets(nodes, a, id) + Targets(nodes, b[..|b| - 1], id)) + more ==
        Targets(nodes, a, id) + (Targets(nodes, b[..|b| - 1], id) + more);
    }
  }

  lemma TargetsOfOne(nodes: seq<Node>, edge: Edge, id: string)
    ensures Targets(nodes, [edge], id) ==
      if edge.source == id && (exists i :: 0 <= i < |nodes| && nodes[i].id == edge.source) &&
         exists i :: 0 <= i < |nodes| && nodes[i].id == edge.target
      then [edge.target] else []
  {
    assert [edge][..0] == [];
    assert Targets(nodes, [edge][..0], id) == [];
  }

  function RootsOf(trees: seq<Tree>): (r: seq<string>)
    ensures |r| == |trees| && forall k :: 0 <= k < |r| ==> r[k] == trees[k].id
  {
    seq(|trees|, k requires 0 <= k < |trees| => trees[k].id)
  }

  /** The tree that is shown has, below each node, the targets of its edges in the order of the edges. */
  lemma {:induction false} KidsAreTargets(g: Graph, i: nat, n: nat)
    requires TreeGraph(g) && i < |g.nodes| && n <= |g.edges|
    ensures RootsOf(Kids(g, i, n)) == Targets(g.nodes, g.edges[..n], g.nodes[i].id)
    decreases n
  {
    if n > 0 {
      KidsAreTargets(g, i, n - 1);
      AllLinked(g, n - 1);
      assert g.edges[..n][..n - 1] == g.edges[..n - 1];
      if g.edges[n - 1].source == g.nodes[i].id {
        EdgesGoForward(g, i, n - 1);
        assert Unfold(g, n).id == g.edges[n - 1].target;
      }
    }
  }
}
