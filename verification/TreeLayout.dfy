/**
 `layoutGraph` in pkg/api/svg.go, from the nodes and edges to the boxes and the marked tree edges.

 A node comes with the length of its longest text line and the number of its wrapped lines, which the source
 measures from its texts. Node IDs are distinct and non-empty, as for the drawing order.
 */
module TreeLayout {
  import opened ForestTour
  import opened TreeOrder
  import opened Clustering
  import opened Columns
  import DrawOrder

  datatype Node = Node(id: string, typ: string, longest: nat, lines: nat)
  datatype SvgEdge = SvgEdge(edge: Edge, tree: bool)

  const NUL: char := '\0'

  function NodeWidth(n: Node): nat {
    var w := Max(16, n.longest) * 7 + 24;
    if w < MIN_NODE_W then MIN_NODE_W else if w > MAX_NODE_W then MAX_NODE_W else w
  }

  function NodeHeight(n: Node): nat {
    Max(MIN_NODE_H, 18 + n.lines * 13 + 10)
  }

  /**
   The box of a node has room for all its wrapped lines and is wide enough for its longest line as far as the greatest
   width allows; it is no wider than its text or the smallest width demand.
   */
  lemma {:induction false} BoxHoldsText(n: Node)
    ensures 240 <= NodeWidth(n) <= 520 && NodeHeight(n) >= 82
    ensures NodeWidth(n) >= 24 + 7 * n.longest || NodeWidth(n) == 520
    ensures NodeWidth(n) == 240 || NodeWidth(n) <= 24 + 7 * n.longest || n.longest < 16
    ensures NodeHeight(n) >= 28 + 13 * n.lines
    ensures NodeHeight(n) == 82 || NodeHeight(n) == 28 + 13 * n.lines
  {
  }

  // ----- tree edges -----

  /** The edges between visible nodes, in order. */
  function Shown(edges: seq<Edge>, visible: set<string>): seq<Edge> {
    if edges == [] then []
    else
      var e := edges[|edges| - 1];
      Shown(edges[..|edges| - 1], visible) + if e.source in visible && e.target in visible then [e] else []
  }

  lemma {:induction false} ShownMembers(edges: seq<Edge>, visible: set<string>, e: Edge)
    ensures e in Shown(edges, visible) <==> e in edges && e.source in visible && e.target in visible
    decreases |edges|
  {
    if edges != [] {
      ShownMembers(edges[..|edges| - 1], visible, e);
      assert edges == edges[..|edges| - 1] + [edges[|edges| - 1]];
    }
  }

  function PairKey(e: Edge): string {
    e.source + [NUL] + e.target
  }

  /** e joins a node to its tree parent. */
  predicate JoinsParent(parent: map<string, string>, e: Edge) {
    e.target in parent && parent[e.target] == e.source
  }

  /** The edge is a tree edge whose pair of ends was not marked before. */
  ghost predicate FirstOfPair(parent: map<string, string>, shown: seq<Edge>, i: nat)
    requires i < |shown|
  {
    JoinsParent(parent, shown[i])
        && forall j :: 0 <= j < i && JoinsParent(parent, shown[j]) ==> PairKey(shown[j]) != PairKey(shown[i])
  }

  ghost predicate Marked(parent: map<string, string>, shown: seq<Edge>, out: seq<SvgEdge>) {
    && |out| == |shown|
    && forall i {:trigger out[i]} :: 0 <= i < |shown| ==>
        out[i].edge == shown[i] && (out[i].tree <==> FirstOfPair(parent, shown, i))
  }

  ghost predicate UsedKeys(parent: map<string, string>, shown: seq<Edge>, used: set<string>) {
    forall k :: k in used <==> exists j :: 0 <= j < |shown| && JoinsParent(parent, shown[j]) && PairKey(shown[j]) == k
  }

  lemma {:induction false} FirstIffUnused(parent: map<string, string>, shown: seq<Edge>, used: set<string>, e: Edge)
    requires UsedKeys(parent, shown, used)
    ensures FirstOfPair(parent, shown + [e], |shown|) <==> JoinsParent(parent, e) && PairKey(e) !in used
  {
    var now := shown + [e];
    if PairKey(e) in used {
      var j :| 0 <= j < |shown| && JoinsParent(parent, shown[j]) && PairKey(shown[j]) == PairKey(e);
      assert now[j] == shown[j];
    } else {
      forall j | 0 <= j < |shown| && JoinsParent(parent, now[j]) ensures PairKey(now[j]) != PairKey(e)
      { assert now[j] == shown[j]; }
    }
  }

  lemma {:induction false} MarkNext(parent: map<string, string>, shown: seq<Edge>, out: seq<SvgEdge>,
        used: set<string>, e: Edge)
    requires Marked(parent, shown, out) && UsedKeys(parent, shown, used)
    ensures var tree := JoinsParent(parent, e) && PairKey(e) !in used;
            && Marked(parent, shown + [e], out + [SvgEdge(e, tree)])
            && UsedKeys(parent, shown + [e], if tree then used + {PairKey(e)} else used)
  {
    var tree := JoinsParent(parent, e) && PairKey(e) !in used;
    var now, marks := shown + [e], out + [SvgEdge(e, tree)];
    forall i | 0 <= i < |now| ensures marks[i].edge == now[i] && (marks[i].tree <==> FirstOfPair(parent, now, i)) {
      if i < |shown| {
        assert out[i].tree <==> FirstOfPair(parent, shown, i);
        assert forall j :: 0 <= j <= i ==> now[j] == shown[j];
      } else {
        FirstIffUnused(parent, shown, used, e);
      }
    }
    var after := if tree then used + {PairKey(e)} else used;
    forall k ensures k in after <==> exists j :: 0 <= j < |now| && JoinsParent(parent, now[j]) && PairKey(now[j]) == k {
      assert now[|shown|] == e;
      if k in used {
        var j :| 0 <= j < |shown| && JoinsParent(parent, shown[j]) && PairKey(shown[j]) == k;
        assert now[j] == shown[j];
      }
      if j :| 0 <= j < |now| && JoinsParent(parent, now[j]) && PairKey(now[j]) == k {
        if j < |shown| { assert shown[j] == now[j]; }
      }
    }
  }

  method MarkTreeEdges(edges: seq<Edge>, visible: set<string>, parent: map<string, string>) returns (out: seq<SvgEdge>)
    requires "" !in visible
    ensures Marked(parent, Shown(edges, visible), out)
  {
    out := [];
    var used: set<string> := {};
    for i := 0 to |edges|
      invariant Marked(parent, Shown(edges[..i], visible), out) && UsedKeys(parent, Shown(edges[..i], visible), used)
    {
      assert edges[..i + 1][..i] == edges[..i];
      var e := edges[i];
      if e.source in visible && e.target in visible {
        assert Shown(edges[..i + 1], visible) == Shown(edges[..i], visible) + [e];
        MarkNext(parent, Shown(edges[..i], visible), out, used, e);
        var tree := DrawOrder.ParentOf(parent, e.target) == e.source && PairKey(e) !in used;
        if tree { used := used + {PairKey(e)}; }
        out := out + [SvgEdge(e, tree)];
      } else {
        assert Shown(edges[..i + 1], visible) == Shown(edges[..i], visible);
      }
    }
    assert edges[..|edges|] == edges;
  }

  lemma {:induction false} SamePair(a: Edge, b: Edge)
    requires PairKey(a) == PairKey(b) && NUL !in a.source && NUL !in b.source
    ensures a == b
  {
    var k := PairKey(a);
    assert k[|a.source|] == NUL && k[|b.source|] == NUL;
    assert forall i :: 0 <= i < |a.source| ==> k[i] == a.source[i];
    assert forall i :: 0 <= i < |b.source| ==> k[i] == b.source[i];
    assert |a.source| == |b.source|;
    assert a.target == k[|a.source| + 1..] && b.target == k[|b.source| + 1..];
  }

  lemma {:induction false} FirstIndex(shown: seq<Edge>, e: Edge) returns (i: nat)
    requires e in shown
    ensures i < |shown| && shown[i] == e && e !in shown[..i]
    decreases |shown|
  {
    var init, last := shown[..|shown| - 1], shown[|shown| - 1];
    if e in init {
      i := FirstIndex(init, e);
      assert shown[..i] == init[..i];
    } else {
      i := |shown| - 1;
    }
  }

  /** Edge j comes before the first occurrence of e, is a tree edge and has the same marking key. */
  ghost predicate ShadowedAt(parent: map<string, string>, shown: seq<Edge>, e: Edge, j: int) {
    && 0 <= j < |shown| && e !in shown[..j + 1]
    && JoinsParent(parent, shown[j]) && PairKey(shown[j]) == PairKey(e)
  }

  ghost predicate Shadowed(parent: map<string, string>, shown: seq<Edge>, e: Edge) {
    exists j :: ShadowedAt(parent, shown, e, j)
  }

  lemma {:induction false} AbsentBefore(shown: seq<Edge>, e: Edge, i: nat, j: nat)
    requires i < |shown| && shown[i] == e && e !in shown[..i] && j < |shown|
    ensures e in shown[..j + 1] <==> i <= j
  {
    if i <= j { assert shown[..j + 1][i] == e; } else { assert shown[..j + 1] == shown[..i][..j + 1]; }
  }

  lemma {:induction false} FirstUnlessShadowed(parent: map<string, string>, shown: seq<Edge>, e: Edge, i: nat)
    requires JoinsParent(parent, e) && i < |shown| && shown[i] == e && e !in shown[..i]
    ensures FirstOfPair(parent, shown, i) <==> !Shadowed(parent, shown, e)
  {
    if Shadowed(parent, shown, e) {
      var j :| ShadowedAt(parent, shown, e, j);
      AbsentBefore(shown, e, i, j);
    }
    if !FirstOfPair(parent, shown, i) {
      var j :| 0 <= j < i && JoinsParent(parent, shown[j]) && PairKey(shown[j]) == PairKey(e);
      AbsentBefore(shown, e, i, j);
      assert ShadowedAt(parent, shown, e, j);
    }
  }

  /**
   A visible node never has two tree edges. If its tree parent is visible, it has one, from that parent, exactly when
   no earlier tree edge between other nodes has the same marking key.
   */
  lemma {:induction false} TreeEdgeIff(edges: seq<Edge>, visible: set<string>, parent: map<string, string>,
        out: seq<SvgEdge>, v: string)
    requires Marked(parent, Shown(edges, visible), out)
    requires v in visible && v in parent && parent[v] in visible && Edge(parent[v], v) in edges
    ensures forall i, j :: 0 <= i < j < |out| && out[i].tree && out[j].tree ==>
        out[i].edge.target != v || out[j].edge.target != v
    ensures SvgEdge(Edge(parent[v], v), true) in out <==> !Shadowed(parent, Shown(edges, visible), Edge(parent[v], v))
  {
    var shown, e := Shown(edges, visible), Edge(parent[v], v);
    ShownMembers(edges, visible, e);
    var i := FirstIndex(shown, e);
    FirstUnlessShadowed(parent, shown, e, i);
    forall j | 0 <= j < |out| && out[j].tree && out[j].edge.target == v ensures j == i {
      assert FirstOfPair(parent, shown, j) && shown[j] == e;
      AbsentBefore(shown, e, i, j);
    }
    assert out[i].edge == e;
  }

  /** Without NUL in the IDs, every visible node whose tree parent is visible has its tree edge. */
  lemma {:induction false} OneTreeEdgePerChild(edges: seq<Edge>, visible: set<string>, parent: map<string, string>,
        out: seq<SvgEdge>, v: string)
    requires Marked(parent, Shown(edges, visible), out)
    requires v in visible && v in parent && parent[v] in visible && Edge(parent[v], v) in edges
    requires forall u :: u in visible ==> NUL !in u
    ensures SvgEdge(Edge(parent[v], v), true) in out
  {
    var shown, e := Shown(edges, visible), Edge(parent[v], v);
    TreeEdgeIff(edges, visible, parent, out, v);
    forall j | 0 <= j < |shown| && PairKey(shown[j]) == PairKey(e) ensures e in shown[..j + 1] {
      ShownMembers(edges, visible, shown[j]);
      SamePair(shown[j], e);
      assert shown[..j + 1][j] == e;
    }
  }

  /** With a NUL in an ID, two tree edges can share their key, and the later one is not marked. */
  lemma {:induction false} NulShadows()
    ensures var a, b := Edge("a", ['b', NUL, 'c']), Edge(['a', NUL, 'b'], "c");
            Shadowed(map[a.target := a.source, b.target := b.source], [a, b], b)
  {
    var a, b := Edge("a", ['b', NUL, 'c']), Edge(['a', NUL, 'b'], "c");
    var shown := [a, b];
    assert PairKey(a) == ['a', NUL, 'b', NUL, 'c'] == PairKey(b);
    assert shown[..1] == [a];
    assert ShadowedAt(map[a.target := a.source, b.target := b.source], shown, b, 0);
  }

  // ----- the layout -----

  datatype Layout = Layout(
    depth: map<string, nat>, parent: map<string, string>,
    ids: seq<string>, clusters: seq<Cluster>, collapsedNodes: nat, drawing: Drawing, edges: seq<SvgEdge>)

  function Ids(nodes: seq<Node>): seq<string> {
    seq(|nodes|, i requires 0 <= i < |nodes| => nodes[i].id)
  }

  ghost predicate ById(nodes: seq<Node>, byID: map<string, Node>) {
    && (forall i :: 0 <= i < |nodes| ==> nodes[i].id in byID && byID[nodes[i].id] == nodes[i])
    && byID.Keys == SetOf(Ids(nodes))
  }

  method Index(nodes: seq<Node>) returns (byID: map<string, Node>)
    requires Distinct(Ids(nodes))
    ensures ById(nodes, byID)
  {
    byID := map[];
    for i := 0 to |nodes|
      invariant forall k :: 0 <= k < i ==> nodes[k].id in byID && byID[nodes[k].id] == nodes[k]
      invariant byID.Keys == SetOf(Ids(nodes[..i]))
    {
      assert Ids(nodes[..i + 1]) == Ids(nodes[..i]) + [nodes[i].id];
      forall k | 0 <= k < i ensures nodes[k].id != nodes[i].id { assert Ids(nodes)[k] != Ids(nodes)[i]; }
      byID := byID[nodes[i].id := nodes[i]];
    }
    assert nodes[..|nodes|] == nodes;
  }

  function Types(byID: map<string, Node>): map<string, string> {
    map id | id in byID :: byID[id].typ
  }

  function NodeItems(byID: map<string, Node>, depth: map<string, nat>, ids: seq<string>): seq<Item>
    requires forall i :: 0 <= i < |ids| ==> ids[i] in byID && ids[i] in depth
  {
    seq(|ids|, i requires 0 <= i < |ids| => Item(depth[ids[i]], NodeWidth(byID[ids[i]]), NodeHeight(byID[ids[i]])))
  }

  function ClusterItems(clusters: seq<Cluster>): seq<Item> {
    seq(|clusters|, i requires 0 <= i < |clusters| => Item(clusters[i].key.depth, MIN_NODE_W, CLUSTER_H))
  }

  method ColumnCount(items: seq<Item>, clusters: seq<Item>) returns (n: nat)
    ensures n > 0 && Fits(items, n) && Fits(clusters, n)
    ensures n == 1 || (exists i :: 0 <= i < |items + clusters| && (items + clusters)[i].col == n - 1)
  {
    var maxDepth := 0;
    for i := 0 to |items|
      invariant forall k :: 0 <= k < i ==> items[k].col <= maxDepth
      invariant maxDepth == 0 || exists k :: 0 <= k < |items + clusters| && (items + clusters)[k].col == maxDepth
    {
      assert (items + clusters)[i] == items[i];
      maxDepth := Max(maxDepth, items[i].col);
    }
    for i := 0 to |clusters|
      invariant Fits(items, maxDepth + 1) && forall k :: 0 <= k < i ==> clusters[k].col <= maxDepth
      invariant maxDepth == 0 || exists k :: 0 <= k < |items + clusters| && (items + clusters)[k].col == maxDepth
    {
      assert (items + clusters)[|items| + i] == clusters[i];
      maxDepth := Max(maxDepth, clusters[i].col);
    }
    n := maxDepth + 1;
  }

  /** Every node is drawn once or is in one cluster, and the counts add up. */
  ghost predicate Partitioned(nodes: seq<string>, lay: Layout) {
    && Distinct(lay.ids) && (forall v :: v in lay.ids ==> v in nodes)
    && (forall i, v :: 0 <= i < |lay.clusters| && v in lay.clusters[i].members ==> v in nodes && v !in lay.ids)
    && (forall v :: v in nodes && v !in lay.ids ==> exists i :: 0 <= i < |lay.clusters| && v in lay.clusters[i].members)
    && (forall i, j, v :: 0 <= i < j < |lay.clusters| && v in lay.clusters[i].members ==> v !in lay.clusters[j].members)
    && lay.collapsedNodes == Counts(lay.clusters) && |lay.ids| + lay.collapsedNodes == |nodes|
  }

  lemma {:induction false} ClustersPartition(t: Table, nodes: seq<string>, ordered: seq<string>, lay: Layout)
    requires Distinct(nodes) && Distinct(ordered) && |ordered| == |nodes| && (forall v :: v in ordered <==> v in nodes)
    requires ExactClusters(t, ordered, lay.clusters) && Distinct(lay.ids)
    requires forall v :: v in lay.ids <==> v in ordered && !Hidden(t, ordered, v)
    requires lay.collapsedNodes == |ordered| - |lay.ids| && |lay.ids| + Counts(lay.clusters) == |ordered|
    ensures Partitioned(nodes, lay)
  {
    forall i, v | 0 <= i < |lay.clusters| && v in lay.clusters[i].members ensures v in nodes && v !in lay.ids {
      DrawnOrFolded(t, ordered, lay.clusters, v);
      assert IsCluster(t, ordered, lay.clusters[i]);
      FoldedMembers(Group(t, ordered, lay.clusters[i].key), v);
      GroupMembers(t, ordered, lay.clusters[i].key, v);
    }
    forall v | v in nodes && v !in lay.ids ensures exists i :: 0 <= i < |lay.clusters| && v in lay.clusters[i].members {
      DrawnOrFolded(t, ordered, lay.clusters, v);
    }
    forall i, j, v | 0 <= i < j < |lay.clusters| && v in lay.clusters[i].members ensures v !in lay.clusters[j].members {
      DrawnOrFolded(t, ordered, lay.clusters, v);
    }
  }

  lemma {:induction false} SameCount(s: seq<string>, r: seq<string>)
    requires Distinct(s) && Distinct(r) && forall v :: v in s <==> v in r
    ensures |s| == |r|
  {
    SetSize(s);
    SetSize(r);
    assert (set x | x in s) == (set x | x in r);
  }

  /**
   The order lists every node once, is the preorder of the tree from the sorted level-0 nodes, with heavier siblings
   first, and so has parents before children.
   */
  ghost predicate DrawingOrder(nodes: seq<string>, edges: seq<Edge>, depth: map<string, nat>,
        parent: map<string, string>,
        ordered: seq<string>) {
    && Distinct(ordered) && |ordered| == |nodes| && (forall v :: v in ordered <==> v in nodes)
    && (forall i :: 0 <= i < |ordered| && ordered[i] in parent ==> parent[ordered[i]] in ordered[..i])
    && exists f, g, tops :: Preorder(DrawOrder.AdjOf(edges, SetOf(nodes)), f, g, tops, depth, parent, ordered)
  }

  ghost predicate Preorder(adj: Adj, f: Forest, g: Forest, tops: seq<string>, depth: map<string, nat>,
        parent: map<string, string>, ordered: seq<string>) {
    && DrawOrder.Drawable(adj, f, g) && g.depth == depth && g.parent == parent
    && DrawOrder.AtLevelZero(g.depth, tops) && ordered == TourAll(g, tops, 0)
  }

  /** What is drawn, in drawing order, and what is folded: the clusters of the large groups and nothing else. */
  ghost predicate Folding(byID: map<string, Node>, depth: map<string, nat>, ordered: seq<string>, ids: seq<string>,
        clusters: seq<Cluster>) {
    var t := Table(Types(byID), depth);
    ExactClusters(t, ordered, clusters) && ids == Without(ordered, HiddenSet(t, ordered))
  }

  /** The levels, the tree and the drawing order, followed by what is folded. */
  method Arrange(byID: map<string, Node>, nodes: seq<string>, edges: seq<Edge>)
    returns (depth: map<string, nat>, parent: map<string, string>, ids: seq<string>, clusters: seq<Cluster>,
        collapsedNodes: nat, ghost ordered: seq<string>)
    requires Distinct(nodes) && "" !in nodes && byID.Keys == SetOf(nodes)
    ensures DrawOrder.DepthsAreDistances(DrawOrder.AdjOf(edges, SetOf(nodes)), DrawOrder.RootSet(nodes, edges), nodes,
        depth, parent)
    ensures DrawOrder.TreeEdgesAreReal(edges, depth, parent)
    ensures DrawingOrder(nodes, edges, depth, parent, ordered) && Folding(byID, depth, ordered, ids, clusters)
    ensures var t := Table(Types(byID), depth);
            && Distinct(ids) && (forall v :: v in ids <==> v in ordered && !Hidden(t, ordered, v))
            && collapsedNodes == |ordered| - |ids| && |ids| + Counts(clusters) == |ordered|
  {
    var roots := DrawOrder.FindRoots(nodes, edges);
    assert forall r :: r in roots ==> r in SetOf(roots);
    var order;
    ghost var f, g, tops;
    depth, parent, order, f, g, tops := DrawOrder.TreeLayoutOrder(nodes, edges, roots);
    ordered := order;
    SameCount(nodes, ordered);
    assert Preorder(DrawOrder.AdjOf(edges, SetOf(nodes)), f, g, tops, depth, parent, ordered);
    var t := Table(Types(byID), depth);
    var visible;
    visible, clusters := ClusterNodes(t, order);
    if order != [] {
      SomeoneStays(t, order);
      ghost var id :| id in order && !Hidden(t, order, id);
      assert id in visible;
    }
    collapsedNodes := |order| - |visible|;
    ids := order;
    if |visible| > 0 {
      ids := visible;
    }
  }

  /** `layoutGraph`. */
  method LayoutGraph(nodes: seq<Node>, edges: seq<Edge>)
    returns (lay: Layout, ghost byID: map<string, Node>, ghost ordered: seq<string>)
    requires Distinct(Ids(nodes)) && "" !in Ids(nodes)
    ensures ById(nodes, byID) && Partitioned(Ids(nodes), lay)
    ensures DrawOrder.DepthsAreDistances(DrawOrder.AdjOf(edges, SetOf(Ids(nodes))),
        DrawOrder.RootSet(Ids(nodes), edges), Ids(nodes), lay.depth, lay.parent)
    ensures DrawOrder.TreeEdgesAreReal(edges, lay.depth, lay.parent)
    ensures DrawingOrder(Ids(nodes), edges, lay.depth, lay.parent, ordered)
    ensures Folding(byID, lay.depth, ordered, lay.ids, lay.clusters)
    ensures forall i :: 0 <= i < |lay.ids| ==> lay.ids[i] in byID && lay.ids[i] in lay.depth
    ensures WellDrawn(NodeItems(byID, lay.depth, lay.ids), ClusterItems(lay.clusters), lay.drawing)
    ensures Exact(NodeItems(byID, lay.depth, lay.ids), ClusterItems(lay.clusters), lay.drawing)
    ensures Marked(lay.parent, Shown(edges, SetOf(lay.ids)), lay.edges)
  {
    var names := Ids(nodes);
    var table := Index(nodes);
    byID := table;
    var depth, parent, ids, clusters, collapsed;
    depth, parent, ids, clusters, collapsed, ordered := Arrange(table, names, edges);
    forall i | 0 <= i < |ids| ensures ids[i] in byID && ids[i] in depth { assert ids[i] in ids; }
    var items, folds := NodeItems(table, depth, ids), ClusterItems(clusters);
    var n := ColumnCount(items, folds);
    var drawing;
    ghost var widths, first, y;
    drawing, widths, first, y := Draw(items, folds, n);
    var marked := MarkTreeEdges(edges, SetOf(ids), parent);
    lay := Layout(depth, parent, ids, clusters, collapsed, drawing, marked);
    ClustersPartition(Table(Types(table), depth), names, ordered, lay);
  }

  // ----- what the drawing shows -----

  /** A layout whose boxes are drawn from its visible nodes and clusters. */
  ghost predicate Laid(byID: map<string, Node>, lay: Layout) {
    && (forall i :: 0 <= i < |lay.ids| ==> lay.ids[i] in byID && lay.ids[i] in lay.depth)
    && WellDrawn(NodeItems(byID, lay.depth, lay.ids), ClusterItems(lay.clusters), lay.drawing)
  }

  /**
   Deeper nodes stand at least 120 to the right; nodes of one level stand in one column, those drawn later at least 42
   lower; and each box holds its node's text.
   */
  lemma {:induction false} NodesByLevel(byID: map<string, Node>, lay: Layout, i: nat, j: nat)
    requires Laid(byID, lay) && i < |lay.ids| && j < |lay.ids| && i != j
    ensures var a, b, p, q := lay.depth[lay.ids[i]], lay.depth[lay.ids[j]], lay.drawing.nodes[i], lay.drawing.nodes[j];
            && (a < b ==> p.x + p.w + 120 <= q.x)
            && (a == b ==> p.x == q.x && (i < j ==> p.y + p.h + 42 <= q.y))
            && p.h >= 28 + 13 * byID[lay.ids[i]].lines && (p.w >= 24 + 7 * byID[lay.ids[i]].longest || p.w == 520)
  {
    var items, boxes := NodeItems(byID, lay.depth, lay.ids), Boxes(lay.drawing);
    var all := items + ClusterItems(lay.clusters);
    BoxHoldsText(byID[lay.ids[i]]);
    assert all[i] == items[i] && all[j] == items[j] && boxes[i] == lay.drawing.nodes[i]
        && boxes[j] == lay.drawing.nodes[j];
    if i < j { assert Arranged(all[i], boxes[i], all[j], boxes[j]); }
        else { assert Arranged(all[j], boxes[j], all[i], boxes[i]); }
  }

  /** A cluster stands in the column of its level, below every node and every earlier cluster of that level. */
  lemma {:induction false} ClustersBelow(byID: map<string, Node>, lay: Layout, i: nat, j: nat)
    requires Laid(byID, lay) && j < |lay.clusters|
    ensures var q, d := lay.drawing.clusters[j], lay.clusters[j].key.depth;
            && q.h == 88 && q.w >= 240
            && (i < |lay.ids| && lay.depth[lay.ids[i]] == d ==>
                  var p := lay.drawing.nodes[i]; p.x == q.x && p.y + p.h + 42 <= q.y)
            && (i < j && lay.clusters[i].key.depth == d ==>
                  var p := lay.drawing.clusters[i]; p.x == q.x && p.y + p.h + 42 <= q.y)
  {
    var items, folds, boxes := NodeItems(byID, lay.depth, lay.ids), ClusterItems(lay.clusters), Boxes(lay.drawing);
    var all, n := items + folds, |items|;
    assert all[n + j] == folds[j] && boxes[n + j] == lay.drawing.clusters[j];
    if i < |lay.ids| {
      assert all[i] == items[i] && boxes[i] == lay.drawing.nodes[i];
      assert Arranged(all[i], boxes[i], all[n + j], boxes[n + j]);
    }
    if i < j {
      assert all[n + i] == folds[i] && boxes[n + i] == lay.drawing.clusters[i];
      assert Arranged(all[n + i], boxes[n + i], all[n + j], boxes[n + j]);
    }
  }
}
