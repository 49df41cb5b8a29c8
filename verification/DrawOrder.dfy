/**
 `findRoots`, `subtreeWeight` and the whole of `treeLayoutOrder` in pkg/api/svg.go: the breadth-first forest
 is drawn in preorder, heavier subtrees first.

 Node IDs are distinct and non-empty: the source takes a missing tree parent for the node with the empty ID.
 */
module DrawOrder {
  import opened Lex
  import opened ForestTour
  import opened TreeOrder

  /** A lookup in the parent map of the source, which yields the empty string for a node without a parent. */
  function ParentOf(parent: map<string, string>, c: string): string {
    if c in parent then parent[c] else ""
  }

  // ----- adjacency -----

  /** The targets of the edges from u between known nodes, in edge order. */
  function Targets(edges: seq<Edge>, known: set<string>, u: string): seq<string> {
    if edges == [] then []
    else
      var e := edges[|edges| - 1];
      Targets(edges[..|edges| - 1], known, u)
          + if e.source == u && u in known && e.target in known then [e.target] else []
  }

  function AdjOf(edges: seq<Edge>, known: set<string>): Adj {
    map u | u in known && Targets(edges, known, u) != [] :: Sort(Targets(edges, known, u))
  }

  lemma {:induction false} TargetsMembers(edges: seq<Edge>, known: set<string>, u: string, c: string)
    ensures c in Targets(edges, known, u) <==> Edge(u, c) in edges && u in known && c in known
    decreases |edges|
  {
    if edges != [] {
      var init, e := edges[..|edges| - 1], edges[|edges| - 1];
      TargetsMembers(init, known, u, c);
      assert edges == init + [e];
    }
  }

  /** The successors of u are the known targets of its edges. */
  lemma {:induction false} SuccIffEdge(edges: seq<Edge>, known: set<string>, u: string, c: string)
    ensures c in Succ(AdjOf(edges, known), u) <==> Edge(u, c) in edges && u in known && c in known
  {
    TargetsMembers(edges, known, u, c);
    SameElements(Sort(Targets(edges, known, u)), Targets(edges, known, u));
  }

  // ----- child lists -----

  /** The tree children of id among cs, each once, in order of first occurrence. */
  function KidsIn(parent: map<string, string>, id: string, cs: seq<string>): seq<string> {
    if cs == [] then []
    else
      var kids, c := KidsIn(parent, id, cs[..|cs| - 1]), cs[|cs| - 1];
      if c in parent && parent[c] == id && c !in kids then kids + [c] else kids
  }

  lemma {:induction false} KidsInMembers(parent: map<string, string>, id: string, cs: seq<string>)
    ensures Distinct(KidsIn(parent, id, cs))
    ensures forall c :: c in KidsIn(parent, id, cs) <==> c in cs && c in parent && parent[c] == id
    decreases |cs|
  {
    if cs != [] {
      KidsInMembers(parent, id, cs[..|cs| - 1]);
      assert cs == cs[..|cs| - 1] + [cs[|cs| - 1]];
    }
  }

  /** A forest on the given levels and parents, whose child lists follow the given lists. */
  ghost predicate Follows(f: Forest, lists: Adj) {
    Valid(f) && "" !in f.depth && forall v {:trigger FollowsAt(f, lists, v)} :: v in f.depth ==> FollowsAt(f, lists, v)
  }

  ghost predicate FollowsAt(f: Forest, lists: Adj, v: string) {
    v in f.kids && f.kids[v] == KidsIn(f.parent, v, Succ(lists, v))
  }

  /** The next child's tree is below id and meets neither id nor the children before it. */
  lemma {:induction false} NextKidFresh(f: Forest, id: string, before: seq<string>, c: string)
    requires Valid(f) && id in f.depth && ChildOf(f, c, id) && c !in before
    requires forall k :: k in before ==> ChildOf(f, k, id)
    ensures c in f.depth && f.depth[c] == f.depth[id] + 1
    ensures forall i :: 0 <= i < |before| ==> before[i] in f.depth && f.depth[before[i]] == f.depth[id] + 1
    ensures forall x :: x in Tour(f, c) ==> x in Tour(f, id) && x != id && x !in TourAll(f, before, f.depth[id] + 1)
  {
    var d := f.depth[id] + 1;
    forall i | 0 <= i < |before| ensures before[i] in f.depth && f.depth[before[i]] == d { assert before[i] in before; }
    assert KidsOk(f, id);
    forall x | x in Tour(f, c) ensures x in Tour(f, id) && x != id && x !in TourAll(f, before, d) {
      TourMembers(f, c, x);
      BelowSplits(f, x, id);
      TourMembers(f, id, x);
      TourAllMembers(f, before, d, x);
      if x in TourAll(f, before, d) {
        var k :| k in before && k in f.depth && Below(f, x, k);
        SameLevelApart(f, c, k, x);
      }
    }
  }

  lemma {:induction false} KidIsToured(f: Forest, before: seq<string>, c: string, d: nat)
    requires Valid(f) && c in before
        && forall i :: 0 <= i < |before| ==> before[i] in f.depth && f.depth[before[i]] == d
    ensures c in TourAll(f, before, d)
  {
    var i :| 0 <= i < |before| && before[i] == c;
    assert Below(f, c, c);
    TourAllMembers(f, before, d, c);
  }

  // ----- subtree weights -----

  ghost predicate AllChildrenOf(f: Forest, cs: seq<string>, id: string) {
    forall k :: k in cs ==> ChildOf(f, k, id)
  }

  /** The part of the tree below id that is done: id and the trees of the children before. */
  ghost function Partial(f: Forest, id: string, before: seq<string>): seq<string>
    requires Valid(f) && id in f.depth && AllChildrenOf(f, before, id)
  {
    assert forall k :: 0 <= k < |before| ==> before[k] in before;
    [id] + TourAll(f, before, f.depth[id] + 1)
  }

  /** No node below id has been seen. */
  ghost predicate Unseen(f: Forest, id: string, seen: set<string>)
    requires Valid(f) && id in f.depth
  {
    forall x :: x in Tour(f, id) ==> x !in seen
  }

  /** The count and the marks of `subtreeWeight` once id and the children before are done. */
  ghost predicate Weighed(f: Forest, id: string, seen: set<string>, before: seq<string>, total: nat,
        marked: set<string>) {
    && Valid(f) && id in f.depth && AllChildrenOf(f, before, id)
    && total == |Partial(f, id, before)| && marked == seen + SetOf(Partial(f, id, before))
  }

  lemma {:induction false} WeighNone(f: Forest, id: string, seen: set<string>)
    requires Valid(f) && id in f.depth
    ensures Weighed(f, id, seen, [], 1, seen + {id})
  {
    assert Partial(f, id, []) == [id];
  }

  lemma {:induction false} ChildReady(f: Forest, id: string, seen: set<string>, before: seq<string>, total: nat,
        marked: set<string>, c: string)
    requires Weighed(f, id, seen, before, total, marked) && Unseen(f, id, seen) && ChildOf(f, c, id)
    ensures c in f.depth && f.depth[c] == f.depth[id] + 1
    ensures if c in before then c in marked else c !in marked && Unseen(f, c, marked)
  {
    if c in before {
      ChildToured(f, id, before, c);
    } else {
      NextKidFresh(f, id, before, c);
      forall x | x in Tour(f, c) ensures x !in marked {
        assert x in Tour(f, id) && x !in seen;
        assert x !in Partial(f, id, before);
      }
      assert Tour(f, c)[0] == c;
    }
  }

  lemma {:induction false} PartialSnoc(g: Forest, id: string, before: seq<string>, c: string)
    requires Valid(g) && id in g.depth && AllChildrenOf(g, before, id) && ChildOf(g, c, id) && c in g.depth
        && g.depth[c] == g.depth[id] + 1
    ensures AllChildrenOf(g, before + [c], id) && Partial(g, id, before + [c]) == Partial(g, id, before) + Tour(g, c)
  {
    assert forall k :: 0 <= k < |before| ==> before[k] in before;
    TourAllSnoc(g, before, c, g.depth[id] + 1);
  }

  lemma {:induction false} ChildWeighed(f: Forest, id: string, seen: set<string>, before: seq<string>, total: nat,
        marked: set<string>, c: string)
    requires Weighed(f, id, seen, before, total, marked) && ChildOf(f, c, id) && c in f.depth
        && f.depth[c] == f.depth[id] + 1
    ensures Weighed(f, id, seen, before + [c], total + |Tour(f, c)|, marked + SetOf(Tour(f, c)))
  {
    PartialSnoc(f, id, before, c);
    SetOfSum(Partial(f, id, before), Tour(f, c));
  }

  lemma {:induction false} SetOfSum(s: seq<string>, t: seq<string>)
    ensures SetOf(s + t) == SetOf(s) + SetOf(t)
  {
  }

  /** `subtreeWeight` of an unseen tree is its number of nodes, all of which it marks as seen. */
  method SubtreeWeight(id: string, adj: Adj, parent: map<string, string>, seen: set<string>, ghost f: Forest)
    returns (total: nat, marked: set<string>)
    requires Follows(f, adj) && f.parent == parent && id in f.depth
    requires id in seen || Unseen(f, id, seen)
    ensures id in seen ==> total == 0 && marked == seen
    ensures id !in seen ==> total == |Tour(f, id)| && marked == seen + SetOf(Tour(f, id))
    decreases f.height - f.depth[id]
  {
    if id in seen {
      return 0, seen;
    }
    marked, total := seen + {id}, 1;
    var children := Succ(adj, id);
    ghost var before: seq<string> := [];
    WeighNone(f, id, seen);
    for i := 0 to |children|
      invariant before == KidsIn(parent, id, children[..i])
      invariant Weighed(f, id, seen, before, total, marked)
    {
      assert children[..i + 1][..i] == children[..i];
      var child := children[i];
      if ParentOf(parent, child) == id {
        ChildReady(f, id, seen, before, total, marked, child);
        var w, m := SubtreeWeight(child, adj, parent, marked, f);
        if child !in before {
          ChildWeighed(f, id, seen, before, total, marked, child);
          before := before + [child];
        }
        total, marked := total + w, m;
      }
    }
    assert children[..|children|] == children;
    assert FollowsAt(f, adj, id);
  }

  lemma {:induction false} ChildToured(f: Forest, id: string, before: seq<string>, c: string)
    requires Valid(f) && id in f.depth && AllChildrenOf(f, before, id) && c in before
    ensures c in f.depth && f.depth[c] == f.depth[id] + 1 && c in Partial(f, id, before)
  {
    assert ChildOf(f, c, id);
    assert forall k :: 0 <= k < |before| ==> before[k] in before;
    KidIsToured(f, before, c, f.depth[id] + 1);
  }

  lemma {:induction false} TourAllSnoc(f: Forest, before: seq<string>, c: string, d: nat)
    requires Valid(f) && c in f.depth && f.depth[c] == d
    requires forall k :: 0 <= k < |before| ==> before[k] in f.depth && f.depth[before[k]] == d
    ensures TourAll(f, before + [c], d) == TourAll(f, before, d) + Tour(f, c)
  {
    assert (before + [c])[..|before|] == before;
  }

  // ----- heavier subtrees first -----

  /** The number of nodes of each subtree. */
  ghost function Weights(f: Forest): map<string, nat>
    requires Valid(f)
  {
    map v | v in f.depth :: |Tour(f, v)|
  }

  /** The comparison of the child sort: by weight, heaviest first, then by ID. */
  predicate Precedes(w: map<string, nat>, a: string, b: string)
    requires a in w && b in w
  {
    if w[a] == w[b] then Less(a, b) else w[a] > w[b]
  }

  predicate AllIn(w: map<string, nat>, s: seq<string>) {
    forall i :: 0 <= i < |s| ==> s[i] in w
  }

  function RankInsert(w: map<string, nat>, x: string, s: seq<string>): (r: seq<string>)
    requires x in w && AllIn(w, s)
    ensures AllIn(w, r)
  {
    if s != [] && Precedes(w, x, s[|s| - 1]) then RankInsert(w, x, s[..|s| - 1]) + [s[|s| - 1]] else s + [x]
  }

  function Rank(w: map<string, nat>, cs: seq<string>): (r: seq<string>)
    requires AllIn(w, cs)
    ensures AllIn(w, r)
  {
    if cs == [] then [] else RankInsert(w, cs[|cs| - 1], Rank(w, cs[..|cs| - 1]))
  }

  lemma {:induction false} RankInsertMembers(w: map<string, nat>, x: string, s: seq<string>)
    requires x in w && AllIn(w, s)
    ensures multiset(RankInsert(w, x, s)) == multiset(s) + multiset{x}
    decreases |s|
  {
    if s != [] && Precedes(w, x, s[|s| - 1]) {
      RankInsertMembers(w, x, s[..|s| - 1]);
      assert s == s[..|s| - 1] + [s[|s| - 1]];
    }
  }

  lemma {:induction false} RankMembers(w: map<string, nat>, cs: seq<string>)
    requires AllIn(w, cs)
    ensures multiset(Rank(w, cs)) == multiset(cs)
    decreases |cs|
  {
    if cs != [] {
      var init := cs[..|cs| - 1];
      RankMembers(w, init);
      RankInsertMembers(w, cs[|cs| - 1], Rank(w, init));
      assert cs == init + [cs[|cs| - 1]];
    }
  }

  /** No element is preceded by a later one. */
  ghost predicate Ranked(w: map<string, nat>, s: seq<string>)
    requires AllIn(w, s)
  {
    forall i, j :: 0 <= i < j < |s| ==> !Precedes(w, s[j], s[i])
  }

  lemma {:induction false} PrecedesOrder(w: map<string, nat>, a: string, b: string, c: string)
    requires a in w && b in w && c in w && !Precedes(w, a, b) && !Precedes(w, b, c)
    ensures !Precedes(w, a, c)
  {
    Total(a, b);
    Total(b, c);
    if Less(c, b) && Less(b, a) { Transitive(c, b, a); }
    if Less(c, a) { Asymmetric(c, a); }
    Irreflexive(a);
  }

  lemma {:induction false} RankInsertRanked(w: map<string, nat>, x: string, s: seq<string>)
    requires x in w && AllIn(w, s) && Ranked(w, s)
    ensures Ranked(w, RankInsert(w, x, s))
    decreases |s|
  {
    var r := RankInsert(w, x, s);
    if s == [] {
    } else {
      var init, last := s[..|s| - 1], s[|s| - 1];
      if Precedes(w, x, last) {
        RankInsertRanked(w, x, init);
        var m := RankInsert(w, x, init);
        RankInsertMembers(w, x, init);
        forall i | 0 <= i < |m| ensures !Precedes(w, last, m[i]) {
          assert m[i] in multiset(m);
          if m[i] == x {
            PrecedesAsymmetric(w, x, last);
          } else {
            assert m[i] in init;
          }
        }
      } else {
        forall i | 0 <= i < |s| ensures !Precedes(w, x, s[i]) {
          if i < |s| - 1 { PrecedesOrder(w, x, last, s[i]); }
        }
      }
    }
  }

  lemma {:induction false} PrecedesAsymmetric(w: map<string, nat>, a: string, b: string)
    requires a in w && b in w && Precedes(w, a, b)
    ensures !Precedes(w, b, a)
  {
    if Less(a, b) { Asymmetric(a, b); }
  }

  /** The child sort orders by weight, then by ID. */
  lemma {:induction false} RankIsRanked(w: map<string, nat>, cs: seq<string>)
    requires AllIn(w, cs)
    ensures Ranked(w, Rank(w, cs))
    decreases |cs|
  {
    if cs != [] {
      RankIsRanked(w, cs[..|cs| - 1]);
      RankInsertRanked(w, cs[|cs| - 1], Rank(w, cs[..|cs| - 1]));
    }
  }

  method ComesFirst(a: string, b: string, adj: Adj, parent: map<string, string>, ghost f: Forest) returns (first: bool)
    requires Follows(f, adj) && f.parent == parent && a in f.depth && b in f.depth
    ensures first <==> Precedes(Weights(f), a, b)
  {
    var left, _ := SubtreeWeight(a, adj, parent, {}, f);
    var right, _ := SubtreeWeight(b, adj, parent, {}, f);
    first := if left == right then Less(a, b) else left > right;
  }

  method SortChildren(cs: seq<string>, adj: Adj, parent: map<string, string>, ghost f: Forest) returns (r: seq<string>)
    requires Follows(f, adj) && f.parent == parent && AllIn(Weights(f), cs)
    ensures r == Rank(Weights(f), cs)
  {
    ghost var w := Weights(f);
    r := [];
    for k := 0 to |cs|
      invariant AllIn(w, cs[..k]) && r == Rank(w, cs[..k])
    {
      assert cs[..k + 1][..k] == cs[..k];
      r := InsertChild(cs[k], r, adj, parent, f);
    }
    assert cs[..|cs|] == cs;
  }

  method InsertChild(x: string, s: seq<string>, adj: Adj, parent: map<string, string>, ghost f: Forest)
    returns (r: seq<string>)
    requires Follows(f, adj) && f.parent == parent && x in f.depth && AllIn(Weights(f), s)
    ensures r == RankInsert(Weights(f), x, s)
    decreases |s|
  {
    if s == [] {
      return [x];
    }
    var before := ComesFirst(x, s[|s| - 1], adj, parent, f);
    if before {
      var front := InsertChild(x, s[..|s| - 1], adj, parent, f);
      return front + [s[|s| - 1]];
    }
    return s + [x];
  }

  // ----- the walk -----

  lemma {:induction false} WalkReady(g: Forest, id: string, start: seq<string>, before: seq<string>, now: seq<string>,
        c: string)
    requires Valid(g) && id in g.depth && AllChildrenOf(g, before, id) && ChildOf(g, c, id)
    requires Unseen(g, id, SetOf(start)) && now == start + Partial(g, id, before)
    ensures c in g.depth && g.depth[c] == g.depth[id] + 1
    ensures if c in before then c in now else c !in now && Unseen(g, c, SetOf(now))
  {
    assert SetOf(now) == SetOf(start) + SetOf(Partial(g, id, before));
    ChildReady(g, id, SetOf(start), before, |Partial(g, id, before)|, SetOf(now), c);
  }

  /** f weighs the trees in successor order, and g draws the same trees with the children ranked. */
  ghost predicate Drawable(adj: Adj, f: Forest, g: Forest) {
    && Follows(f, adj) && Valid(g) && SameTrees(f, g)
    && forall v {:trigger DrawnAt(adj, f, g, v)} :: v in f.depth ==> DrawnAt(adj, f, g, v)
  }

  ghost predicate DrawnAt(adj: Adj, f: Forest, g: Forest, v: string)
    requires Valid(f)
  {
    AllIn(Weights(f), Succ(adj, v)) && v in g.kids && g.kids[v] == KidsIn(g.parent, v, Rank(Weights(f), Succ(adj, v)))
  }

  method RankedChildren(id: string, adj: Adj, parent: map<string, string>, ghost f: Forest, ghost g: Forest)
    returns (children: seq<string>)
    requires Drawable(adj, f, g) && parent == g.parent && id in g.depth
    ensures KidsIn(parent, id, children) == g.kids[id]
  {
    assert DrawnAt(adj, f, g, id);
    children := SortChildren(Succ(adj, id), adj, parent, f);
  }

  /** What `walk` has appended once id and the children before are done. */
  ghost predicate Walked(g: Forest, id: string, start: seq<string>, before: seq<string>, now: seq<string>) {
    Valid(g) && id in g.depth && AllChildrenOf(g, before, id) && now == start + Partial(g, id, before)
  }

  /** `walk` appends the preorder of an unvisited tree, children ranked by weight. */
  method Walk(id: string, adj: Adj, parent: map<string, string>, ordered: seq<string>, ghost f: Forest, ghost g: Forest)
    returns (now: seq<string>)
    requires Drawable(adj, f, g) && parent == g.parent && id in g.depth
    requires id in ordered || Unseen(g, id, SetOf(ordered))
    ensures now == ordered + if id in ordered then [] else Tour(g, id)
    decreases g.height - g.depth[id], 1
  {
    if id in ordered {
      return ordered;
    }
    now := ordered + [id];
    var children := RankedChildren(id, adj, parent, f, g);
    assert Walked(g, id, ordered, [], now) by { assert Partial(g, id, []) == [id]; }
    now := WalkChildren(id, children, adj, parent, ordered, now, f, g);
    assert children[..|children|] == children;
  }

  method WalkChildren(id: string, children: seq<string>, adj: Adj, parent: map<string, string>,
        ghost start: seq<string>,
                      visited: seq<string>, ghost f: Forest, ghost g: Forest)
    returns (now: seq<string>)
    requires Drawable(adj, f, g) && parent == g.parent && id in g.depth && Unseen(g, id, SetOf(start))
    requires Walked(g, id, start, [], visited)
    ensures Walked(g, id, start, KidsIn(parent, id, children), now)
    decreases g.height - g.depth[id], 0
  {
    now := visited;
    ghost var before: seq<string> := [];
    for i := 0 to |children|
      invariant before == KidsIn(parent, id, children[..i]) && Walked(g, id, start, before, now)
    {
      assert children[..i + 1][..i] == children[..i];
      var child := children[i];
      if ParentOf(parent, child) == id {
        WalkReady(g, id, start, before, now, child);
        now := Walk(child, adj, parent, now, f, g);
        if child !in before {
          PartialSnoc(g, id, before, child);
          before := before + [child];
        }
      }
    }
    assert children[..|children|] == children;
  }

  // ----- the whole of treeLayoutOrder -----

  /** Every node's level: its distance when the search reached it, otherwise 0. */
  function AllDepths(s: Search, nodes: seq<string>): map<string, nat> {
    map v | v in SetOf(nodes) :: if v in s.depth then s.depth[v] else 0
  }

  ghost function HeightOf(depth: map<string, nat>): (h: nat)
    ensures forall v :: v in depth ==> depth[v] <= h
  {
    if depth == map[] then 0
    else
      var v :| v in depth;
      var h := HeightOf(depth - {v});
      assert forall w :: w in depth && w != v ==> w in depth - {v} && (depth - {v})[w] == depth[w];
      if depth[v] > h then depth[v] else h
  }

  /** A finished search whose depths and parents cover the nodes. */
  ghost predicate Found(adj: Adj, roots: set<string>, s: Search, nodes: seq<string>) {
    && Searched(adj, roots, s) && s.depth.Keys <= SetOf(nodes) && roots <= SetOf(nodes)
    && forall u, c :: u in adj && c in adj[u] ==> c in SetOf(nodes)
  }

  lemma {:induction false} LevelZeroIffRoot(adj: Adj, roots: set<string>, s: Search, v: string)
    requires Searched(adj, roots, s) && v in s.depth
    ensures s.depth[v] == 0 <==> v in roots
    ensures v in s.parent <==> s.depth[v] > 0
  {
    assert AtDistance(adj, roots, v, s.depth[v]);
    if v in roots && s.depth[v] > 0 { WithinGrows(adj, roots, 0, s.depth[v] - 1); }
  }

  ghost function ForestWith(s: Search, depth: map<string, nat>, kids: map<string, seq<string>>): Forest {
    Forest(s.parent, depth, kids, HeightOf(depth))
  }

  /** The list holds exactly the tree children of v. */
  ghost predicate ListsKids(parent: map<string, string>, v: string, cs: seq<string>) {
    Distinct(cs) && forall c :: c in cs <==> c in parent && parent[c] == v
  }

  ghost predicate ListsAllKids(parent: map<string, string>, kids: map<string, seq<string>>) {
    forall v {:trigger kids[v]} :: v in kids ==> ListsKids(parent, v, kids[v])
  }

  /** Child lists that hold exactly the tree children make a forest. */
  lemma {:induction false} SearchIsForest(adj: Adj, roots: set<string>, s: Search, nodes: seq<string>,
        kids: map<string, seq<string>>)
    requires Found(adj, roots, s, nodes) && kids.Keys == SetOf(nodes) && ListsAllKids(s.parent, kids)
    ensures Valid(ForestWith(s, AllDepths(s, nodes), kids))
  {
    var depth := AllDepths(s, nodes);
    forall v | v in depth ensures v in s.parent <==> depth[v] > 0 {
      if v in s.depth { LevelZeroIffRoot(adj, roots, s, v); }
    }
    forall c | c in s.parent ensures OneBelow(s.parent, depth, c) {}
    LevelsMakeForest(s, depth, kids);
  }

  ghost predicate OneBelow(parent: map<string, string>, depth: map<string, nat>, c: string) {
    c in parent && c in depth && parent[c] in depth && depth[c] == depth[parent[c]] + 1
  }

  lemma {:induction false} LevelsMakeForest(s: Search, depth: map<string, nat>, kids: map<string, seq<string>>)
    requires kids.Keys == depth.Keys && ListsAllKids(s.parent, kids)
    requires forall v :: v in depth ==> (v in s.parent <==> depth[v] > 0)
    requires forall c :: c in s.parent ==> OneBelow(s.parent, depth, c)
    ensures Valid(ForestWith(s, depth, kids))
  {
    var f := ForestWith(s, depth, kids);
    forall v | v in f.depth ensures KidsOk(f, v) { assert ListsKids(s.parent, v, kids[v]); }
  }

  lemma {:induction false} KidsOfSearch(adj: Adj, roots: set<string>, s: Search, v: string, cs: seq<string>)
    requires Searched(adj, roots, s) && forall c :: c in cs <==> c in Succ(adj, v)
    ensures ListsKids(s.parent, v, KidsIn(s.parent, v, cs))
  {
    KidsInMembers(s.parent, v, cs);
  }

  /** The forest whose trees `subtreeWeight` weighs. */
  lemma {:induction false} WeighingForest(adj: Adj, roots: set<string>, s: Search, nodes: seq<string>)
    returns (f: Forest)
    requires Found(adj, roots, s, nodes) && "" !in nodes
    ensures Follows(f, adj) && f.parent == s.parent && f.depth == AllDepths(s, nodes)
  {
    var kids := map v | v in SetOf(nodes) :: KidsIn(s.parent, v, Succ(adj, v));
    forall v | v in kids ensures ListsKids(s.parent, v, kids[v]) {
      KidsOfSearch(adj, roots, s, v, Succ(adj, v));
    }
    SearchIsForest(adj, roots, s, nodes, kids);
    f := ForestWith(s, AllDepths(s, nodes), kids);
    forall v | v in f.depth ensures FollowsAt(f, adj, v) {}
  }

  lemma {:induction false} SuccWeighed(adj: Adj, f: Forest, nodes: seq<string>, v: string)
    requires Valid(f) && f.depth.Keys == SetOf(nodes) && forall u, c :: u in adj && c in adj[u] ==> c in SetOf(nodes)
    ensures AllIn(Weights(f), Succ(adj, v))
  {
    forall i | 0 <= i < |Succ(adj, v)| ensures Succ(adj, v)[i] in Weights(f) { assert Succ(adj, v)[i] in adj[v]; }
  }

  /** The forest that `walk` draws. */
  lemma {:induction false} DrawingForest(adj: Adj, roots: set<string>, s: Search, nodes: seq<string>, f: Forest)
    returns (g: Forest)
    requires Found(adj, roots, s, nodes)
    requires Follows(f, adj) && f.parent == s.parent && f.depth == AllDepths(s, nodes)
    ensures Drawable(adj, f, g)
  {
    forall v ensures AllIn(Weights(f), Succ(adj, v)) { SuccWeighed(adj, f, nodes, v); }
    var kids := map v | v in SetOf(nodes) :: KidsIn(s.parent, v, Rank(Weights(f), Succ(adj, v)));
    forall v | v in kids ensures ListsKids(s.parent, v, kids[v]) {
      RankMembers(Weights(f), Succ(adj, v));
      SameElements(Rank(Weights(f), Succ(adj, v)), Succ(adj, v));
      KidsOfSearch(adj, roots, s, v, Rank(Weights(f), Succ(adj, v)));
    }
    SearchIsForest(adj, roots, s, nodes, kids);
    g := ForestWith(s, AllDepths(s, nodes), kids);
    forall v | v in f.depth ensures DrawnAt(adj, f, g, v) {}
  }

  /** Walks the trees of the sorted roots, one after the other. */
  method WalkRoots(roots: seq<string>, adj: Adj, parent: map<string, string>, ghost f: Forest, ghost g: Forest)
    returns (ordered: seq<string>)
    requires Drawable(adj, f, g) && parent == g.parent && Distinct(roots)
    requires forall i :: 0 <= i < |roots| ==> roots[i] in g.depth && g.depth[roots[i]] == 0
    ensures ordered == TourAll(g, roots, 0)
  {
    ordered := [];
    for i := 0 to |roots|
      invariant ordered == TourAll(g, roots[..i], 0)
    {
      NextTreeUnseen(g, roots, i);
      assert roots[..i + 1] == roots[..i] + [roots[i]];
      TourAllSnoc(g, roots[..i], roots[i], 0);
      ordered := Walk(roots[i], adj, parent, ordered, f, g);
    }
    assert roots[..|roots|] == roots;
  }

  lemma {:induction false} NextTreeUnseen(g: Forest, roots: seq<string>, i: nat)
    requires Valid(g) && Distinct(roots) && i < |roots|
        && forall k :: 0 <= k < |roots| ==> roots[k] in g.depth && g.depth[roots[k]] == 0
    ensures roots[i] !in TourAll(g, roots[..i], 0) && Unseen(g, roots[i], SetOf(TourAll(g, roots[..i], 0)))
  {
    var done := TourAll(g, roots[..i], 0);
    forall x | x in Tour(g, roots[i]) ensures x !in done {
      TourMembers(g, roots[i], x);
      TourAllMembers(g, roots[..i], 0, x);
    }
    assert Tour(g, roots[i])[0] == roots[i];
  }

  method WalkRest(ids: seq<string>, adj: Adj, parent: map<string, string>, ordered: seq<string>, ghost f: Forest,
        ghost g: Forest) returns (now: seq<string>)
    requires Drawable(adj, f, g) && parent == g.parent
        && forall i :: 0 <= i < |ids| ==> ids[i] in g.depth && ids[i] in ordered
    ensures now == ordered
  {
    now := ordered;
    for i := 0 to |ids|
      invariant now == ordered
    {
      now := Walk(ids[i], adj, parent, now, f, g);
    }
  }

  // ----- siblings -----

  /** x occurs before y. */
  ghost predicate Before(s: seq<string>, x: string, y: string) {
    exists i, j :: 0 <= i < j < |s| && s[i] == x && s[j] == y
  }

  lemma {:induction false} BeforeInBlock(s: seq<string>, t: seq<string>, x: string, y: string)
    requires Block(s, t) && Before(t, x, y)
    ensures Before(s, x, y)
  {
    var k: nat :| BlockAt(s, t, k);
    var i, j :| 0 <= i < j < |t| && t[i] == x && t[j] == y;
    assert s[k + i] == s[k..k + |t|][i] && s[k + j] == s[k..k + |t|][j];
  }

  lemma {:induction false} BeforeInConcat(a: seq<string>, b: seq<string>, x: string, y: string)
    requires (x in a && y in b) || Before(a, x, y)
    ensures Before(a + b, x, y)
  {
    if Before(a, x, y) {
      var i, j :| 0 <= i < j < |a| && a[i] == x && a[j] == y;
      assert (a + b)[i] == x && (a + b)[j] == y;
    } else {
      var i, j :| 0 <= i < |a| && 0 <= j < |b| && a[i] == x && b[j] == y;
      assert (a + b)[i] == x && (a + b)[|a| + j] == y;
    }
  }

  lemma {:induction false} EarlierTreeFirst(g: Forest, cs: seq<string>, d: nat, i: nat, j: nat, x: string, y: string)
    requires Valid(g) && (forall k :: 0 <= k < |cs| ==> cs[k] in g.depth && g.depth[cs[k]] == d) && i < j < |cs|
    requires x in Tour(g, cs[i]) && y in Tour(g, cs[j])
    ensures Before(TourAll(g, cs, d), x, y)
    decreases |cs|
  {
    var init, c := cs[..|cs| - 1], cs[|cs| - 1];
    if j == |cs| - 1 {
      TourMembers(g, cs[i], x);
      assert init[i] == cs[i];
      TourAllMembers(g, init, d, x);
    } else {
      EarlierTreeFirst(g, init, d, i, j, x, y);
    }
    BeforeInConcat(TourAll(g, init, d), Tour(g, c), x, y);
  }

  lemma {:induction false} KidsInRanked(w: map<string, nat>, parent: map<string, string>, id: string, cs: seq<string>)
    requires AllIn(w, cs) && Ranked(w, cs)
    ensures AllIn(w, KidsIn(parent, id, cs)) && Ranked(w, KidsIn(parent, id, cs))
    decreases |cs|
  {
    if cs != [] {
      var init := cs[..|cs| - 1];
      KidsInRanked(w, parent, id, init);
      KidsInMembers(parent, id, init);
      var kids := KidsIn(parent, id, init);
      forall i | 0 <= i < |kids| ensures !Precedes(w, cs[|cs| - 1], kids[i]) {
        assert kids[i] in kids;
        var k :| 0 <= k < |init| && init[k] == kids[i];
      }
    }
  }

  /** The position of two siblings in the drawn child list follows their weights. */
  lemma {:induction false} HeavierKidFirst(adj: Adj, f: Forest, g: Forest, p: string, i: nat, j: nat)
    requires Drawable(adj, f, g) && p in g.depth && i < |g.kids[p]| && j < |g.kids[p]|
    requires g.kids[p][i] in Weights(f) && g.kids[p][j] in Weights(f)
        && Precedes(Weights(f), g.kids[p][i], g.kids[p][j])
    ensures i < j
  {
    var w := Weights(f);
    assert DrawnAt(adj, f, g, p);
    RankIsRanked(w, Succ(adj, p));
    KidsInRanked(w, g.parent, p, Rank(w, Succ(adj, p)));
    var a := g.kids[p][i];
    if i == j { Irreflexive(a); }
  }

  /** Of two siblings, the whole tree with more nodes is drawn first; among equals the smaller ID goes first. */
  lemma {:induction false} HeavierSiblingFirst(adj: Adj, f: Forest, g: Forest, ordered: seq<string>, a: string,
        b: string, x: string, y: string)
    requires Drawable(adj, f, g) && a in g.parent && b in g.parent && g.parent[a] == g.parent[b]
    requires |Tour(g, a)| > |Tour(g, b)| || (|Tour(g, a)| == |Tour(g, b)| && Less(a, b))
    requires Block(ordered, Tour(g, g.parent[a])) && x in Tour(g, a) && y in Tour(g, b)
    ensures Before(ordered, x, y)
  {
    var p := g.parent[a];
    var i := KidIndex(g, a);
    var j := KidIndex(g, b);
    SizeIsOrderFree(f, g, a);
    SizeIsOrderFree(f, g, b);
    HeavierKidFirst(adj, f, g, p, i, j);
    KidLevels(g, p);
    var below := TourAll(g, g.kids[p], g.depth[p] + 1);
    EarlierTreeFirst(g, g.kids[p], g.depth[p] + 1, i, j, x, y);
    assert BlockAt(Tour(g, p), below, 1);
    BeforeInBlock(Tour(g, p), below, x, y);
    BeforeInBlock(ordered, Tour(g, p), x, y);
  }

  lemma {:induction false} KidIndex(g: Forest, a: string) returns (i: nat)
    requires Valid(g) && a in g.parent
    ensures i < |g.kids[g.parent[a]]| && g.kids[g.parent[a]][i] == a
  {
    assert KidsOk(g, g.parent[a]) && ChildOf(g, a, g.parent[a]);
    i :| 0 <= i < |g.kids[g.parent[a]]| && g.kids[g.parent[a]][i] == a;
  }

  lemma {:induction false} KidLevels(g: Forest, p: string)
    requires Valid(g) && p in g.depth
    ensures forall k :: 0 <= k < |g.kids[p]| ==> g.kids[p][k] in g.depth && g.depth[g.kids[p][k]] == g.depth[p] + 1
  {
    forall k | 0 <= k < |g.kids[p]| ensures g.kids[p][k] in g.depth && g.depth[g.kids[p][k]] == g.depth[p] + 1 {
      assert KidsOk(g, p) && g.kids[p][k] in g.kids[p];
      assert ChildOf(g, g.kids[p][k], p);
    }
  }

  // ----- building the inputs -----

  /** The successor lists before sorting, built edge by edge. */
  function RawAdj(edges: seq<Edge>, known: set<string>): Adj {
    if edges == [] then map[]
    else
      var m, e := RawAdj(edges[..|edges| - 1], known), edges[|edges| - 1];
      if e.source in known && e.target in known then m[e.source := Succ(m, e.source) + [e.target]] else m
  }

  lemma {:induction false} RawAdjIsTargets(edges: seq<Edge>, known: set<string>, u: string)
    ensures Succ(RawAdj(edges, known), u) == Targets(edges, known, u)
    ensures u in RawAdj(edges, known) <==> u in known && Targets(edges, known, u) != []
    decreases |edges|
  {
    if edges != [] { RawAdjIsTargets(edges[..|edges| - 1], known, u); }
  }

  method BuildAdj(edges: seq<Edge>, known: set<string>) returns (adj: Adj)
    ensures adj == AdjOf(edges, known)
  {
    adj := map[];
    for i := 0 to |edges|
      invariant adj == RawAdj(edges[..i], known)
    {
      assert edges[..i + 1][..i] == edges[..i];
      var e := edges[i];
      if e.source in known && e.target in known {
        adj := adj[e.source := Succ(adj, e.source) + [e.target]];
      }
    }
    assert edges[..|edges|] == edges;
    forall u ensures u in adj <==> u in AdjOf(edges, known) { RawAdjIsTargets(edges, known, u); }
    adj := SortLists(adj);
    forall u | u in adj ensures adj[u] == AdjOf(edges, known)[u] { RawAdjIsTargets(edges, known, u); }
  }

  method SortLists(adj: Adj) returns (sorted: Adj)
    ensures sorted.Keys == adj.Keys && forall u :: u in adj ==> sorted[u] == Sort(adj[u])
  {
    sorted := adj;
    var rest := adj.Keys;
    while rest != {}
      invariant rest <= adj.Keys && sorted.Keys == adj.Keys
      invariant forall u :: u in adj ==> sorted[u] == if u in rest then adj[u] else Sort(adj[u])
      decreases rest
    {
      var u :| u in rest;
      sorted := sorted[u := Sort(adj[u])];
      rest := rest - {u};
    }
  }

  /** The nodes no edge points at, or the first node when there are none. */
  function RootSet(nodes: seq<string>, edges: seq<Edge>): set<string> {
    var free := set n | n in nodes && forall e :: e in edges ==> e.target != n;
    if free == {} && nodes != [] then {nodes[0]} else free
  }

  method FindRoots(nodes: seq<string>, edges: seq<Edge>) returns (roots: seq<string>)
    requires Distinct(nodes)
    ensures SetOf(roots) == RootSet(nodes, edges) && Distinct(roots) && Sorted(roots)
  {
    var targets := set e | e in edges :: e.target;
    roots := [];
    for i := 0 to |nodes|
      invariant Distinct(roots) && forall n :: n in roots <==> n in nodes[..i] && n !in targets
    {
      assert nodes[..i + 1] == nodes[..i] + [nodes[i]];
      if nodes[i] !in targets {
        assert nodes[i] !in roots;
        roots := roots + [nodes[i]];
      }
    }
    assert nodes[..|nodes|] == nodes;
    ghost var free := set n | n in nodes && forall e :: e in edges ==> e.target != n;
    assert SetOf(roots) == free by {
      forall n ensures n in targets <==> exists e :: e in edges && e.target == n { }
    }
    if |roots| == 0 && |nodes| > 0 {
      roots := roots + [nodes[0]];
      assert SetOf(roots) == {nodes[0]};
    } else if |roots| > 0 {
      assert roots[0] in free;
    }
    assert SetOf(roots) == RootSet(nodes, edges);
    DistinctSorted(roots);
    SameElements(Sort(roots), roots);
    roots := Sort(roots);
  }

  lemma {:induction false} DistinctSorted(s: seq<string>)
    requires Distinct(s)
    ensures Distinct(Sort(s))
  {
    RearrangedDistinct(s, Sort(s));
  }

  lemma {:induction false} RearrangedDistinct(s: seq<string>, r: seq<string>)
    requires Distinct(s) && multiset(s) == multiset(r)
    ensures Distinct(r)
  {
    forall i, j | 0 <= i < j < |r| ensures r[i] != r[j] {
      DistinctCount(s, r[j]);
      assert r == r[..j] + [r[j]] + r[j + 1..];
      assert r[i] == r[..j][i];
    }
  }

  lemma {:induction false} DistinctCount(s: seq<string>, x: string)
    requires Distinct(s)
    ensures multiset(s)[x] <= 1
    decreases |s|
  {
    if s != [] {
      var init, last := s[..|s| - 1], s[|s| - 1];
      DistinctCount(init, x);
      assert s == init + [last];
      assert last !in init;
    }
  }

  /** Adds the nodes the search did not reach as further roots. */
  method AddUnreached(roots: seq<string>, nodeIDs: seq<string>, s: Search) returns (all: seq<string>)
    requires Distinct(roots) && Distinct(nodeIDs) && forall r :: r in roots ==> r in s.depth
    ensures Distinct(all) && forall v :: v in all <==> v in roots || (v in nodeIDs && v !in s.depth)
  {
    all := roots;
    for i := 0 to |nodeIDs|
      invariant Distinct(all) && forall v :: v in all <==> v in roots || (v in nodeIDs[..i] && v !in s.depth)
    {
      assert nodeIDs[..i + 1] == nodeIDs[..i] + [nodeIDs[i]];
      if nodeIDs[i] !in s.depth {
        assert nodeIDs[i] !in all;
        all := all + [nodeIDs[i]];
      }
    }
    assert nodeIDs[..|nodeIDs|] == nodeIDs;
  }

  /** Reachable nodes carry their shortest distance; the others are at level 0 without a parent. */
  ghost predicate DepthsAreDistances(adj: Adj, roots: set<string>, nodes: seq<string>, depth: map<string, nat>,
        parent: map<string, string>) {
    && depth.Keys == SetOf(nodes)
    && forall v :: v in nodes ==>
         if Reachable(adj, roots, v) then AtDistance(adj, roots, v, depth[v]) else depth[v] == 0 && v !in parent
  }

  /** Every tree edge is an edge of the graph that goes one level down. */
  ghost predicate TreeEdgesAreReal(edges: seq<Edge>, depth: map<string, nat>, parent: map<string, string>) {
    forall c :: c in parent ==>
      c in depth && parent[c] in depth && Edge(parent[c], c) in edges && depth[c] == depth[parent[c]] + 1
  }

  lemma {:induction false} SearchGivesTree(edges: seq<Edge>, nodes: seq<string>, roots: set<string>, s: Search)
    requires Found(AdjOf(edges, SetOf(nodes)), roots, s, nodes)
    ensures DepthsAreDistances(AdjOf(edges, SetOf(nodes)), roots, nodes, AllDepths(s, nodes), s.parent)
    ensures TreeEdgesAreReal(edges, AllDepths(s, nodes), s.parent)
  {
    var adj := AdjOf(edges, SetOf(nodes));
    forall c | c in s.parent ensures Edge(s.parent[c], c) in edges { SuccIffEdge(edges, SetOf(nodes), s.parent[c], c); }
  }

  lemma {:induction false} ZeroLevel(adj: Adj, roots: seq<string>, s: Search, nodes: seq<string>, all: seq<string>)
    requires Found(adj, SetOf(roots), s, nodes) && forall v :: v in all <==> v in roots || (v in nodes && v !in s.depth)
    ensures forall v :: v in all <==> v in AllDepths(s, nodes) && AllDepths(s, nodes)[v] == 0
  {
    forall v | v in s.depth ensures s.depth[v] == 0 <==> v in roots { LevelZeroIffRoot(adj, SetOf(roots), s, v); }
    forall r | r in roots ensures r in nodes && r in s.depth {
      assert r in Within(adj, SetOf(roots), 0);
      assert Reachable(adj, SetOf(roots), r);
      assert r in SetOf(nodes);
    }
  }

  /** The nodes at level 0, each once and in ID order. */
  ghost predicate AtLevelZero(depth: map<string, nat>, tops: seq<string>) {
    && Sorted(tops) && Distinct(tops) && (forall v :: v in tops <==> v in depth && depth[v] == 0)
    && forall i :: 0 <= i < |tops| ==> tops[i] in depth && depth[tops[i]] == 0
  }

  /**
   `treeLayoutOrder`: distances from the roots, the breadth-first forest, and a drawing order that lists every
   node once, parents first, each subtree as one block, with heavier siblings first.
   */
  method TreeLayoutOrder(nodes: seq<string>, edges: seq<Edge>, roots: seq<string>)
    returns (depth: map<string, nat>, parent: map<string, string>, ordered: seq<string>, ghost f: Forest,
        ghost g: Forest, ghost tops: seq<string>)
    requires Distinct(nodes) && "" !in nodes && Distinct(roots) && forall r :: r in roots ==> r in nodes
    ensures DepthsAreDistances(AdjOf(edges, SetOf(nodes)), SetOf(roots), nodes, depth, parent)
    ensures TreeEdgesAreReal(edges, depth, parent)
    ensures Distinct(ordered) && forall v :: v in ordered <==> v in nodes
    ensures forall i :: 0 <= i < |ordered| && ordered[i] in parent ==> parent[ordered[i]] in ordered[..i]
    ensures Drawable(AdjOf(edges, SetOf(nodes)), f, g) && g.depth == depth && g.parent == parent
    ensures forall v :: v in nodes ==> Block(ordered, Tour(g, v))
    ensures AtLevelZero(g.depth, tops) && ordered == TourAll(g, tops, 0)
  {
    var nodeIDs := Sort(nodes);
    DistinctSorted(nodes);
    SameElements(nodeIDs, nodes);
    var adj := BuildAdj(edges, SetOf(nodes));
    KnownTargets(edges, SetOf(nodes));
    var s := BreadthFirst(adj, roots, SetOf(nodes));
    assert Found(adj, SetOf(roots), s, nodes);
    f := WeighingForest(adj, SetOf(roots), s, nodes);
    g := DrawingForest(adj, SetOf(roots), s, nodes, f);
    SearchGivesTree(edges, nodes, SetOf(roots), s);
    depth, parent := AllDepths(s, nodes), s.parent;
    ordered, tops := DrawAll(roots, nodeIDs, nodes, adj, s, f, g);
  }

  lemma {:induction false} KnownTargets(edges: seq<Edge>, known: set<string>)
    ensures forall u, c :: u in AdjOf(edges, known) && c in AdjOf(edges, known)[u] ==> c in known
  {
    forall u, c | u in AdjOf(edges, known) && c in AdjOf(edges, known)[u] ensures c in known
    { SuccIffEdge(edges, known, u, c); }
  }

  method DrawAll(roots: seq<string>, nodeIDs: seq<string>, nodes: seq<string>, adj: Adj, s: Search, ghost f: Forest,
        ghost g: Forest)
    returns (ordered: seq<string>, tops: seq<string>)
    requires Distinct(nodeIDs) && Distinct(roots) && (forall v :: v in nodeIDs <==> v in nodes)
    requires Found(adj, SetOf(roots), s, nodes) && Drawable(adj, f, g) && g.parent == s.parent
        && g.depth == AllDepths(s, nodes)
    ensures Distinct(ordered) && (forall v :: v in ordered <==> v in nodes)
    ensures forall i :: 0 <= i < |ordered| && ordered[i] in g.parent ==> g.parent[ordered[i]] in ordered[..i]
    ensures forall v :: v in nodes ==> Block(ordered, Tour(g, v))
    ensures AtLevelZero(g.depth, tops) && ordered == TourAll(g, tops, 0)
  {
    tops := Tops(roots, nodeIDs, nodes, adj, s);
    assert AtLevelZero(g.depth, tops);
    ordered := WalkRoots(tops, adj, s.parent, f, g);
    WholeTour(g, tops);
    assert forall i :: 0 <= i < |nodeIDs| ==> nodeIDs[i] in nodeIDs;
    ordered := WalkRest(nodeIDs, adj, s.parent, ordered, f, g);
  }

  /** The roots and the unreached nodes, sorted. */
  method Tops(roots: seq<string>, nodeIDs: seq<string>, nodes: seq<string>, ghost adj: Adj, s: Search)
    returns (tops: seq<string>)
    requires Distinct(nodeIDs) && Distinct(roots) && (forall v :: v in nodeIDs <==> v in nodes)
    requires Found(adj, SetOf(roots), s, nodes)
    ensures AtLevelZero(AllDepths(s, nodes), tops)
  {
    forall r | r in roots ensures r in s.depth {
      assert r in Within(adj, SetOf(roots), 0);
      assert Reachable(adj, SetOf(roots), r);
    }
    var all := AddUnreached(roots, nodeIDs, s);
    ZeroLevel(adj, roots, s, nodes, all);
    DistinctSorted(all);
    tops := Sort(all);
    SameElements(tops, all);
  }
}
