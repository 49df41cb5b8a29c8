/**
 The geometry of `layoutGraph` in pkg/api/svg.go: one column per level, boxes stacked from the top, node boxes
 before cluster boxes.
 */
module Columns {
  const MIN_NODE_W: nat := 240
  const MAX_NODE_W: nat := 520
  const MIN_NODE_H: nat := 82
  const X_PAD: nat := 36
  const Y_PAD: nat := 42
  const LAYER_GAP: nat := 120
  const TOP_Y: nat := 120
  const MIN_GRAPH_H: nat := 320
  const MIN_WIDTH: nat := 1120
  const CLUSTER_H: nat := 88

  /** Something to be placed: its column, the width it asks for and its height. */
  datatype Item = Item(col: nat, w: nat, h: nat)
  datatype Box = Box(x: nat, y: nat, w: nat, h: nat)

  function Max(a: nat, b: nat): nat {
    if a < b then b else a
  }

  ghost predicate Fits(items: seq<Item>, n: nat) {
    forall i :: 0 <= i < |items| ==> items[i].col < n
  }

  // ----- widths -----

  function Widest(items: seq<Item>, c: nat): nat {
    if items == [] then 0
    else
      var w, last := Widest(items[..|items| - 1], c), items[|items| - 1];
      if last.col == c then Max(w, last.w) else w
  }

  lemma {:induction false} WidestBounds(items: seq<Item>, i: nat)
    requires i < |items|
    ensures items[i].w <= Widest(items, items[i].col)
    decreases |items|
  {
    if i < |items| - 1 { WidestBounds(items[..|items| - 1], i); }
  }

  lemma {:induction false} WidestConcat(a: seq<Item>, b: seq<Item>, c: nat)
    ensures Widest(a + b, c) == Max(Widest(a, c), Widest(b, c))
    decreases |b|
  {
    if b == [] {
      assert a + b == a;
    } else {
      assert (a + b)[..|a + b| - 1] == a + b[..|b| - 1];
      WidestConcat(a, b[..|b| - 1], c);
    }
  }

  method Widen(widths: seq<nat>, items: seq<Item>) returns (wider: seq<nat>)
    requires Fits(items, |widths|)
    ensures |wider| == |widths|
        && forall c {:trigger wider[c]} :: 0 <= c < |widths| ==> wider[c] == Max(widths[c], Widest(items, c))
  {
    wider := widths;
    for i := 0 to |items|
      invariant |wider| == |widths|
          && forall c {:trigger wider[c]} :: 0 <= c < |widths| ==> wider[c] == Max(widths[c], Widest(items[..i], c))
    {
      assert items[..i + 1][..i] == items[..i];
      var item := items[i];
      wider := wider[item.col := Max(wider[item.col], item.w)];
    }
    assert items[..|items|] == items;
  }

  // ----- columns from left to right -----

  /** The total width of the first i columns, each followed by a gap. */
  function Span(widths: seq<nat>, i: nat): nat
    requires i <= |widths|
  {
    if i == 0 then 0 else Span(widths, i - 1) + widths[i - 1] + LAYER_GAP
  }

  lemma {:induction false} SpanGrows(widths: seq<nat>, i: nat, j: nat)
    requires i < j <= |widths|
    ensures Span(widths, i) + widths[i] + LAYER_GAP <= Span(widths, j)
    decreases j
  {
    if i < j - 1 { SpanGrows(widths, i, j - 1); }
  }

  method TotalWidth(widths: seq<nat>) returns (total: nat)
    requires |widths| > 0
    ensures total + LAYER_GAP == Span(widths, |widths|)
  {
    total := 0;
    for i := 0 to |widths|
      invariant i > 0 ==> total + LAYER_GAP == Span(widths, i)
      invariant i == 0 ==> total == 0
    {
      total := total + widths[i];
      if i > 0 { total := total + LAYER_GAP; }
    }
  }

  method ColumnStarts(widths: seq<nat>, first: nat) returns (starts: seq<nat>)
    ensures |starts| == |widths|
        && forall c {:trigger starts[c]} :: 0 <= c < |widths| ==> starts[c] == first + Span(widths, c)
  {
    starts := [];
    var x := first;
    for i := 0 to |widths|
      invariant x == first + Span(widths, i)
      invariant |starts| == i && forall c {:trigger starts[c]} :: 0 <= c < i ==> starts[c] == first + Span(widths, c)
    {
      starts := starts + [x];
      x := x + widths[i] + LAYER_GAP;
    }
  }

  // ----- boxes from top to bottom -----

  /** The height that those of the first k items that are in column c take up, each with its padding. */
  function Used(items: seq<Item>, k: nat, c: nat): nat
    requires k <= |items|
  {
    if k == 0 then 0 else Used(items, k - 1, c) + if items[k - 1].col == c then items[k - 1].h + Y_PAD else 0
  }

  lemma {:induction false} UsedGrows(items: seq<Item>, i: nat, j: nat)
    requires i < j <= |items|
    ensures Used(items, i, items[i].col) + items[i].h + Y_PAD <= Used(items, j, items[i].col)
    decreases j
  {
    if i < j - 1 { UsedGrows(items, i, j - 1); }
  }

  lemma {:induction false} UsedPrefix(a: seq<Item>, b: seq<Item>, k: nat, c: nat)
    requires k <= |a|
    ensures Used(a + b, k, c) == Used(a, k, c)
    decreases k
  {
    if k > 0 { UsedPrefix(a, b, k - 1, c); }
  }

  lemma {:induction false} UsedConcat(a: seq<Item>, b: seq<Item>, k: nat, c: nat)
    requires k <= |b|
    ensures Used(a + b, |a| + k, c) == Used(a, |a|, c) + Used(b, k, c)
    decreases k
  {
    if k == 0 { UsedPrefix(a, b, |a|, c); } else { UsedConcat(a, b, k - 1, c); }
  }

  /** The bottoms of the columns after the first k items. */
  ghost predicate BottomsAt(tops: seq<nat>, items: seq<Item>, k: nat, bottoms: seq<nat>)
    requires k <= |items|
  {
    |bottoms| == |tops|
        && forall c {:trigger bottoms[c]} :: 0 <= c < |tops| ==> bottoms[c] == tops[c] + Used(items, k, c)
  }

  ghost predicate PlacedAt(tops: seq<nat>, items: seq<Item>, k: nat, ys: seq<nat>)
    requires k <= |items| && Fits(items, |tops|)
  {
    |ys| == k && forall i {:trigger ys[i]} :: 0 <= i < k ==> ys[i] == tops[items[i].col] + Used(items, i, items[i].col)
  }

  method Stack(tops: seq<nat>, items: seq<Item>) returns (ys: seq<nat>, bottoms: seq<nat>)
    requires Fits(items, |tops|)
    ensures PlacedAt(tops, items, |items|, ys) && BottomsAt(tops, items, |items|, bottoms)
  {
    ys, bottoms := [], tops;
    forall c | 0 <= c < |tops| ensures Used(items, 0, c) == 0 { }
    assert BottomsAt(tops, items, 0, bottoms);
    for i := 0 to |items|
      invariant PlacedAt(tops, items, i, ys) && BottomsAt(tops, items, i, bottoms)
    {
      var item := items[i];
      ys := ys + [bottoms[item.col]];
      bottoms := bottoms[item.col := bottoms[item.col] + item.h + Y_PAD];
    }
  }

  method Lowest(bottoms: seq<nat>) returns (y: nat)
    ensures y >= TOP_Y && forall c :: 0 <= c < |bottoms| ==> bottoms[c] <= y
    ensures y == TOP_Y || y in bottoms
  {
    y := TOP_Y;
    for i := 0 to |bottoms|
      invariant y >= TOP_Y && (forall c :: 0 <= c < i ==> bottoms[c] <= y) && (y == TOP_Y || y in bottoms)
    {
      y := Max(y, bottoms[i]);
    }
  }

  // ----- the drawing -----

  /** Two boxes of a drawing: same column, earlier above later; otherwise lower levels to the left. */
  ghost predicate Arranged(a: Item, p: Box, b: Item, q: Box) {
    && (a.col == b.col ==> p.x == q.x && p.y + p.h + Y_PAD <= q.y)
    && (a.col < b.col ==> p.x + p.w + LAYER_GAP <= q.x)
    && (b.col < a.col ==> q.x + q.w + LAYER_GAP <= p.x)
  }

  ghost predicate Inside(b: Box, width: nat, height: nat) {
    X_PAD <= b.x && b.x + b.w + X_PAD <= width && TOP_Y <= b.y && b.y + b.h + Y_PAD + 20 <= height
  }

  /** The box of item i when columns start at first. */
  ghost function BoxAt(items: seq<Item>, widths: seq<nat>, first: nat, i: nat, w: nat): Box
    requires i < |items| && items[i].col < |widths|
  {
    Box(first + Span(widths, items[i].col), TOP_Y + Used(items, i, items[i].col), w, items[i].h)
  }

  ghost predicate WidthsOf(items: seq<Item>, widths: seq<nat>) {
    Fits(items, |widths|) && forall c :: 0 <= c < |widths| ==> widths[c] == Widest(items, c)
  }

  lemma {:induction false} BoxesArranged(items: seq<Item>, widths: seq<nat>, first: nat, i: nat, v: nat, j: nat, w: nat)
    requires WidthsOf(items, widths) && i < j < |items| && v <= widths[items[i].col] && w <= widths[items[j].col]
    ensures Arranged(items[i], BoxAt(items, widths, first, i, v), items[j], BoxAt(items, widths, first, j, w))
  {
    var a, b := items[i].col, items[j].col;
    if a == b {
      UsedGrows(items, i, j);
    } else if a < b {
      SpanGrows(widths, a, b);
    } else {
      SpanGrows(widths, b, a);
    }
  }

  lemma {:induction false} BoxInside(items: seq<Item>, widths: seq<nat>, first: nat, i: nat, w: nat, width: nat,
        height: nat)
    requires WidthsOf(items, widths) && i < |items| && w <= widths[items[i].col]
    requires X_PAD <= first && first + Span(widths, |widths|) + X_PAD <= width + LAYER_GAP
    requires TOP_Y + Used(items, |items|, items[i].col) + 20 <= height
    ensures Inside(BoxAt(items, widths, first, i, w), width, height)
  {
    SpanGrows(widths, items[i].col, |widths|);
    UsedGrows(items, i, |items|);
  }

  datatype Drawing = Drawing(nodes: seq<Box>, clusters: seq<Box>, width: nat, graphH: nat)

  function Boxes(d: Drawing): seq<Box> {
    d.nodes + d.clusters
  }

  /** What the layout promises of all its boxes together. */
  ghost predicate WellDrawn(nodes: seq<Item>, clusters: seq<Item>, d: Drawing) {
    var items, boxes := nodes + clusters, Boxes(d);
    && |d.nodes| == |nodes| && |d.clusters| == |clusters| && d.width >= MIN_WIDTH && d.graphH >= MIN_GRAPH_H
    && (forall i, j :: 0 <= i < j < |boxes| ==> Arranged(items[i], boxes[i], items[j], boxes[j]))
    && (forall i :: 0 <= i < |boxes| ==> Inside(boxes[i], d.width, d.graphH))
    && (forall i :: 0 <= i < |nodes| ==> d.nodes[i].w == nodes[i].w && d.nodes[i].h == nodes[i].h)
    && (forall i :: 0 <= i < |clusters| ==> d.clusters[i].w >= MIN_NODE_W && d.clusters[i].h == clusters[i].h)
  }

  ghost predicate Overlap(p: Box, q: Box) {
    p.x < q.x + q.w && q.x < p.x + p.w && p.y < q.y + q.h && q.y < p.y + p.h
  }

  /** No two boxes of the drawing overlap. */
  lemma {:induction false} NoOverlap(nodes: seq<Item>, clusters: seq<Item>, d: Drawing, i: nat, j: nat)
    requires WellDrawn(nodes, clusters, d) && i < |Boxes(d)| && j < |Boxes(d)| && i != j
    ensures !Overlap(Boxes(d)[i], Boxes(d)[j])
  {
    var items := nodes + clusters;
    if i < j {
      assert Arranged(items[i], Boxes(d)[i], items[j], Boxes(d)[j]);
    } else {
      assert Arranged(items[j], Boxes(d)[j], items[i], Boxes(d)[i]);
    }
  }

  /** The page is as wide and high as its contents and minimum demand, and the contents are centred. */
  ghost predicate Framed(items: seq<Item>, widths: seq<nat>, first: nat, d: Drawing, y: nat) {
    && |widths| > 0
    && d.width == Max(MIN_WIDTH, X_PAD * 2 + Span(widths, |widths|) - LAYER_GAP)
    && first == Max(X_PAD, (d.width + LAYER_GAP - Span(widths, |widths|)) / 2)
    && d.graphH == Max(MIN_GRAPH_H, y + 20)
    && (y == TOP_Y || exists c :: 0 <= c < |widths| && y == TOP_Y + Used(items, |items|, c))
  }

  /** Columns as wide as their widest item, the boxes as `BoxAt` says and everything above y. */
  ghost predicate Laid(nodes: seq<Item>, clusters: seq<Item>, widths: seq<nat>, first: nat, d: Drawing, y: nat) {
    && WidthsOf(nodes + clusters, widths) && |d.nodes| == |nodes| && |d.clusters| == |clusters|
    && (forall i {:trigger NodeLaid(nodes, clusters, widths, first, d, i)} :: 0 <= i < |nodes| ==>
        NodeLaid(nodes, clusters, widths, first, d, i))
    && (forall i {:trigger ClusterLaid(nodes, clusters, widths, first, d, i)} :: 0 <= i < |clusters| ==>
        ClusterLaid(nodes, clusters, widths, first, d, i))
    && (forall c :: 0 <= c < |widths| ==> TOP_Y + Used(nodes + clusters, |nodes + clusters|, c) <= y)
  }

  ghost predicate NodeLaid(nodes: seq<Item>, clusters: seq<Item>, widths: seq<nat>, first: nat, d: Drawing, i: int) {
    var items := nodes + clusters;
    0 <= i < |d.nodes| == |nodes| && items[i].col < |widths| && d.nodes[i] == BoxAt(items, widths, first, i, nodes[i].w)
  }

  ghost predicate ClusterLaid(nodes: seq<Item>, clusters: seq<Item>, widths: seq<nat>, first: nat, d: Drawing, i: int) {
    var items := nodes + clusters;
    && 0 <= i < |d.clusters| == |clusters| && items[|nodes| + i].col < |widths|
    && clusters[i].w == MIN_NODE_W
        && d.clusters[i] == BoxAt(items, widths, first, |nodes| + i, Max(MIN_NODE_W, widths[clusters[i].col]))
  }

  /** The drawing is the one that the column sums of its items determine. */
  ghost predicate Exact(nodes: seq<Item>, clusters: seq<Item>, d: Drawing) {
    exists widths, first: nat, y: nat ::
      Laid(nodes, clusters, widths, first, d, y) && Framed(nodes + clusters, widths, first, d, y)
  }

  lemma {:induction false} LaidBox(nodes: seq<Item>, clusters: seq<Item>, widths: seq<nat>, first: nat, d: Drawing,
        y: nat, i: nat)
    requires Laid(nodes, clusters, widths, first, d, y) && i < |Boxes(d)|
    ensures var items, box := nodes + clusters, Boxes(d)[i];
            items[i].col < |widths| && box.w <= widths[items[i].col] && box == BoxAt(items, widths, first, i, box.w)
  {
    WidestBounds(nodes + clusters, i);
    if i < |nodes| {
      assert NodeLaid(nodes, clusters, widths, first, d, i);
    } else {
      assert ClusterLaid(nodes, clusters, widths, first, d, i - |nodes|);
    }
  }

  lemma {:induction false} LaidSizes(nodes: seq<Item>, clusters: seq<Item>, widths: seq<nat>, first: nat, d: Drawing,
        y: nat)
    requires Laid(nodes, clusters, widths, first, d, y)
    ensures forall i :: 0 <= i < |nodes| ==> d.nodes[i].w == nodes[i].w && d.nodes[i].h == nodes[i].h
    ensures forall i :: 0 <= i < |clusters| ==> d.clusters[i].w >= MIN_NODE_W && d.clusters[i].h == clusters[i].h
  {
    forall i | 0 <= i < |nodes| ensures d.nodes[i].w == nodes[i].w && d.nodes[i].h == nodes[i].h {
      assert NodeLaid(nodes, clusters, widths, first, d, i);
    }
    forall i | 0 <= i < |clusters| ensures d.clusters[i].w >= MIN_NODE_W && d.clusters[i].h == clusters[i].h {
      assert ClusterLaid(nodes, clusters, widths, first, d, i);
    }
  }

  lemma {:induction false} DrawnWell(nodes: seq<Item>, clusters: seq<Item>, widths: seq<nat>, first: nat, d: Drawing,
        y: nat)
    requires Laid(nodes, clusters, widths, first, d, y)
    requires X_PAD <= first && first + Span(widths, |widths|) + X_PAD <= d.width + LAYER_GAP
    requires d.width >= MIN_WIDTH && d.graphH == Max(MIN_GRAPH_H, y + 20)
    ensures WellDrawn(nodes, clusters, d)
  {
    var items, boxes := nodes + clusters, Boxes(d);
    forall i, j | 0 <= i < j < |boxes| ensures Arranged(items[i], boxes[i], items[j], boxes[j]) {
      LaidBox(nodes, clusters, widths, first, d, y, i);
      LaidBox(nodes, clusters, widths, first, d, y, j);
      BoxesArranged(items, widths, first, i, boxes[i].w, j, boxes[j].w);
    }
    forall i | 0 <= i < |boxes| ensures Inside(boxes[i], d.width, d.graphH) {
      LaidBox(nodes, clusters, widths, first, d, y, i);
      BoxInside(items, widths, first, i, boxes[i].w, d.width, d.graphH);
    }
    LaidSizes(nodes, clusters, widths, first, d, y);
  }

  method ColumnWidths(nodes: seq<Item>, clusters: seq<Item>, n: nat) returns (widths: seq<nat>)
    requires Fits(nodes, n) && Fits(clusters, n)
    ensures |widths| == n && WidthsOf(nodes + clusters, widths)
  {
    widths := Widen(seq(n, _ => 0), nodes);
    widths := Widen(widths, clusters);
    forall c | 0 <= c < n ensures widths[c] == Widest(nodes + clusters, c) { WidestConcat(nodes, clusters, c); }
  }

  method StackAll(nodes: seq<Item>, clusters: seq<Item>, n: nat) returns (ys: seq<nat>, clusterYs: seq<nat>, y: nat)
    requires Fits(nodes, n) && Fits(clusters, n)
    ensures |ys| == |nodes|
        && forall i {:trigger ys[i]} :: 0 <= i < |nodes| ==> ys[i] == TOP_Y + Used(nodes + clusters, i, nodes[i].col)
    ensures |clusterYs| == |clusters|
    ensures forall i {:trigger clusterYs[i]} :: 0 <= i < |clusters| ==>
        clusterYs[i] == TOP_Y + Used(nodes + clusters, |nodes| + i, clusters[i].col)
    ensures forall c :: 0 <= c < n ==> TOP_Y + Used(nodes + clusters, |nodes + clusters|, c) <= y
    ensures y == TOP_Y || exists c :: 0 <= c < n && y == TOP_Y + Used(nodes + clusters, |nodes + clusters|, c)
  {
    var tops := seq(n, _ => TOP_Y);
    var bottoms, ends;
    ys, bottoms := Stack(tops, nodes);
    clusterYs, ends := Stack(bottoms, clusters);
    y := Lowest(ends);
    StackedNodes(nodes, clusters, tops, ys);
    StackedClusters(nodes, clusters, tops, bottoms, clusterYs);
    forall c | 0 <= c < n ensures TOP_Y + Used(nodes + clusters, |nodes + clusters|, c) <= y {
      UsedConcat(nodes, clusters, |clusters|, c);
      assert ends[c] == bottoms[c] + Used(clusters, |clusters|, c);
    }
    if y != TOP_Y {
      var c :| 0 <= c < n && ends[c] == y;
      UsedConcat(nodes, clusters, |clusters|, c);
      assert ends[c] == bottoms[c] + Used(clusters, |clusters|, c);
    }
  }

  lemma {:induction false} StackedNodes(nodes: seq<Item>, clusters: seq<Item>, tops: seq<nat>, ys: seq<nat>)
    requires Fits(nodes, |tops|) && PlacedAt(tops, nodes, |nodes|, ys)
        && forall c :: 0 <= c < |tops| ==> tops[c] == TOP_Y
    ensures forall i {:trigger ys[i]} :: 0 <= i < |nodes| ==> ys[i] == TOP_Y + Used(nodes + clusters, i, nodes[i].col)
  {
    forall i | 0 <= i < |nodes| ensures ys[i] == TOP_Y + Used(nodes + clusters, i, nodes[i].col)
    { UsedPrefix(nodes, clusters, i, nodes[i].col); }
  }

  lemma {:induction false} StackedClusters(nodes: seq<Item>, clusters: seq<Item>, tops: seq<nat>, bottoms: seq<nat>,
        ys: seq<nat>)
    requires BottomsAt(tops, nodes, |nodes|, bottoms) && forall c :: 0 <= c < |tops| ==> tops[c] == TOP_Y
    requires Fits(clusters, |bottoms|) && PlacedAt(bottoms, clusters, |clusters|, ys)
    ensures forall i {:trigger ys[i]} :: 0 <= i < |clusters| ==>
        ys[i] == TOP_Y + Used(nodes + clusters, |nodes| + i, clusters[i].col)
  {
    forall i | 0 <= i < |clusters| ensures ys[i] == TOP_Y + Used(nodes + clusters, |nodes| + i, clusters[i].col) {
      UsedConcat(nodes, clusters, i, clusters[i].col);
    }
  }

  /** Places the nodes, then the clusters, in n columns. */
  method Draw(nodes: seq<Item>, clusters: seq<Item>, n: nat)
    returns (d: Drawing, ghost widths: seq<nat>, ghost first: nat, ghost y: nat)
    requires n > 0 && Fits(nodes, n) && Fits(clusters, n)
    requires forall i :: 0 <= i < |clusters| ==> clusters[i].w == MIN_NODE_W
    ensures WellDrawn(nodes, clusters, d) && Laid(nodes, clusters, widths, first, d, y)
    ensures |widths| == n && Framed(nodes + clusters, widths, first, d, y)
  {
    var colWidths := ColumnWidths(nodes, clusters, n);
    var graphW := TotalWidth(colWidths);
    var width := Max(MIN_WIDTH, X_PAD * 2 + graphW);
    var contentX := Max(X_PAD, (width - graphW) / 2);
    var starts := ColumnStarts(colWidths, contentX);
    var ys, clusterYs, lowest := StackAll(nodes, clusters, n);
    d := Drawing(NodeBoxes(nodes, starts, ys), ClusterBoxes(clusters, starts, clusterYs, colWidths), width,
        Max(MIN_GRAPH_H, lowest + 20));
    widths, first, y := colWidths, contentX, lowest;
    forall i | 0 <= i < |nodes| ensures NodeLaid(nodes, clusters, widths, first, d, i) { }
    forall i | 0 <= i < |clusters| ensures ClusterLaid(nodes, clusters, widths, first, d, i) { }
    DrawnWell(nodes, clusters, widths, first, d, y);
  }

  function NodeBoxes(nodes: seq<Item>, starts: seq<nat>, ys: seq<nat>): seq<Box>
    requires |ys| == |nodes| && Fits(nodes, |starts|)
  {
    seq(|nodes|, i requires 0 <= i < |nodes| => Box(starts[nodes[i].col], ys[i], nodes[i].w, nodes[i].h))
  }

  function ClusterBoxes(clusters: seq<Item>, starts: seq<nat>, ys: seq<nat>, widths: seq<nat>): seq<Box>
    requires |ys| == |clusters| && |starts| == |widths| && Fits(clusters, |starts|)
  {
    seq(|clusters|, i requires 0 <= i < |clusters| =>
      Box(starts[clusters[i].col], ys[i], Max(MIN_NODE_W, widths[clusters[i].col]), clusters[i].h))
  }
}
