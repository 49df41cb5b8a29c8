/**
 Distances in a directed graph and the breadth-first search of `treeLayoutOrder` in pkg/api/svg.go.
 */
module TreeOrder {
  import opened Lex

  datatype Edge = Edge(source: string, target: string)

  /** Successor lists; a node without outgoing edges has no entry. */
  type Adj = map<string, seq<string>>

  function Succ(adj: Adj, u: string): seq<string> {
    if u in adj then adj[u] else []
  }

  // ----- distances -----

  ghost function NextOf(adj: Adj, S: set<string>): set<string> {
    set u, c | u in S && c in Succ(adj, u) :: c
  }

  /** The nodes that some root reaches in at most n steps. */
  ghost function Within(adj: Adj, roots: set<string>, n: nat): set<string> {
    if n == 0 then roots else Within(adj, roots, n - 1) + NextOf(adj, Within(adj, roots, n - 1))
  }

  /** The shortest distance from the roots to v is n. */
  ghost predicate AtDistance(adj: Adj, roots: set<string>, v: string, n: nat) {
    v in Within(adj, roots, n) && (n > 0 ==> v !in Within(adj, roots, n - 1))
  }

  lemma {:induction false} WithinGrows(adj: Adj, roots: set<string>, m: nat, n: nat)
    requires m <= n
    ensures Within(adj, roots, m) <= Within(adj, roots, n)
    decreases n
  {
    if m < n { WithinGrows(adj, roots, m, n - 1); }
  }

  /** p is a directed path that starts at a root. */
  ghost predicate IsPath(adj: Adj, roots: set<string>, p: seq<string>) {
    p != [] && p[0] in roots && forall i :: 0 <= i < |p| - 1 ==> p[i + 1] in Succ(adj, p[i])
  }

  /** `Within` is what directed paths say it is. */
  lemma {:induction false} WithinIffPath(adj: Adj, roots: set<string>, v: string, n: nat)
    ensures v in Within(adj, roots, n) <==> exists p :: IsPath(adj, roots, p) && |p| <= n + 1 && p[|p| - 1] == v
    decreases n
  {
    if v in Within(adj, roots, n) {
      var p := PathTo(adj, roots, v, n);
    }
    forall p | IsPath(adj, roots, p) && |p| <= n + 1 && p[|p| - 1] == v ensures v in Within(adj, roots, n) {
      PathEnds(adj, roots, p);
      WithinGrows(adj, roots, |p| - 1, n);
    }
  }

  lemma {:induction false} PathTo(adj: Adj, roots: set<string>, v: string, n: nat) returns (p: seq<string>)
    requires v in Within(adj, roots, n)
    ensures IsPath(adj, roots, p) && |p| <= n + 1 && p[|p| - 1] == v
    decreases n
  {
    if n == 0 {
      p := [v];
    } else if v in Within(adj, roots, n - 1) {
      p := PathTo(adj, roots, v, n - 1);
    } else {
      var u :| u in Within(adj, roots, n - 1) && v in Succ(adj, u);
      p := PathTo(adj, roots, u, n - 1);
      p := p + [v];
    }
  }

  lemma {:induction false} PathEnds(adj: Adj, roots: set<string>, p: seq<string>)
    requires IsPath(adj, roots, p)
    ensures p[|p| - 1] in Within(adj, roots, |p| - 1)
    decreases |p|
  {
    if |p| > 1 {
      var q := p[..|p| - 1];
      PathEnds(adj, roots, q);
      assert p[|q| - 1 + 1] in Succ(adj, p[|q| - 1]);
    }
  }

  // ----- the breadth-first search -----

  datatype Search = Search(queue: seq<string>, depth: map<string, nat>, parent: map<string, string>)

  /** One child of the dequeued node. */
  function Discover(s: Search, id: string, c: string): Search
    requires id in s.depth
  {
    if c in s.depth then s else Search(s.queue + [c], s.depth[c := s.depth[id] + 1], s.parent[c := id])
  }

  function DiscoverAll(s: Search, id: string, cs: seq<string>): (r: Search)
    requires id in s.depth
    ensures id in r.depth
  {
    if cs == [] then s else Discover(DiscoverAll(s, id, cs[..|cs| - 1]), id, cs[|cs| - 1])
  }

  /** What discovering the children cs of id adds to a search. */
  ghost predicate Grown(s: Search, id: string, cs: seq<string>, r: Search)
    requires id in s.depth
  {
    DepthGrown(s, id, cs, r) && QueueGrown(s, cs, r) && ParentGrown(s, id, r)
  }

  ghost predicate DepthGrown(s: Search, id: string, cs: seq<string>, r: Search)
    requires id in s.depth
  {
    && r.depth.Keys == s.depth.Keys + (set c | c in cs)
    && (forall v :: v in r.depth ==> r.depth[v] == if v in s.depth then s.depth[v] else s.depth[id] + 1)
  }

  ghost predicate QueueGrown(s: Search, cs: seq<string>, r: Search) {
    && |r.queue| >= |s.queue| && r.queue[..|s.queue|] == s.queue
    && (forall i :: |s.queue| <= i < |r.queue| ==> r.queue[i] in cs && r.queue[i] !in s.depth)
    && (forall v :: v in r.depth && v !in s.depth ==> v in r.queue)
  }

  ghost predicate ParentGrown(s: Search, id: string, r: Search) {
    && (forall v :: v in r.depth && v !in s.depth ==> v in r.parent && r.parent[v] == id)
    && (forall v :: v in s.depth ==>
        (v in r.parent <==> v in s.parent) && (v in s.parent ==> r.parent[v] == s.parent[v]))
    && (forall v :: v in r.parent ==> v in s.parent || v in r.depth)
  }

  lemma {:induction false} DiscoverGrows(s: Search, id: string, cs: seq<string>, m: Search, c: string)
    requires id in s.depth && Grown(s, id, cs, m) && id in m.depth
    ensures Grown(s, id, cs + [c], Discover(m, id, c))
  {
    var r := Discover(m, id, c);
    assert s.depth.Keys <= m.depth.Keys;
    assert r.depth.Keys == s.depth.Keys + (set x | x in cs + [c]);
    DiscoverQueues(s, id, cs, m, c);
  }

  lemma {:induction false} DiscoverQueues(s: Search, id: string, cs: seq<string>, m: Search, c: string)
    requires id in m.depth && QueueGrown(s, cs, m) && s.depth.Keys <= m.depth.Keys
    ensures QueueGrown(s, cs + [c], Discover(m, id, c))
  {
    var r := Discover(m, id, c);
    if c !in m.depth {
      assert m.queue <= r.queue && r.queue[|r.queue| - 1] == c;
      forall v | v in r.depth && v !in s.depth ensures v in r.queue {
        if v in m.depth { assert v in m.queue; }
      }
    }
  }

  lemma {:induction false} DiscoverAllGrows(s: Search, id: string, cs: seq<string>)
    requires id in s.depth && forall v :: v in s.parent ==> v in s.depth
    ensures Grown(s, id, cs, DiscoverAll(s, id, cs))
    decreases |cs|
  {
    if cs != [] {
      var init, c := cs[..|cs| - 1], cs[|cs| - 1];
      DiscoverAllGrows(s, id, init);
      assert cs == init + [c];
      DiscoverGrows(s, id, init, DiscoverAll(s, id, init), c);
    }
  }

  /** One turn of the search loop. */
  function Expand(adj: Adj, s: Search): Search
    requires s.queue != [] && s.queue[0] in s.depth
  {
    DiscoverAll(s.(queue := s.queue[1..]), s.queue[0], Succ(adj, s.queue[0]))
  }

  ghost predicate QueueOrdered(s: Search)
    requires forall i :: 0 <= i < |s.queue| ==> s.queue[i] in s.depth
  {
    forall i, j :: 0 <= i < j < |s.queue| ==> s.depth[s.queue[i]] <= s.depth[s.queue[j]] <= s.depth[s.queue[i]] + 1
  }

  /** Every tree edge is an edge that goes one level down, and only roots have no parent. */
  ghost predicate IsForest(adj: Adj, roots: set<string>, s: Search) {
    && (forall c :: c in s.parent ==>
          c in s.depth && c !in roots && s.parent[c] in s.depth && c in Succ(adj, s.parent[c])
              && s.depth[c] == s.depth[s.parent[c]] + 1)
    && (forall v :: v in s.depth && v !in s.parent ==> v in roots)
  }

  /** The state between two turns of the loop; done holds the dequeued nodes. */
  ghost predicate Searching(adj: Adj, roots: set<string>, s: Search, done: set<string>) {
    && (forall i :: 0 <= i < |s.queue| ==> s.queue[i] in s.depth)
    && done <= s.depth.Keys && (forall v :: v in s.depth ==> v in done || v in s.queue)
    && (forall v, c :: v in done && c in Succ(adj, v) ==> c in s.depth)
    && QueueOrdered(s)
    && (forall v {:trigger AtDistance(adj, roots, v, s.depth[v])} :: v in s.depth ==>
        AtDistance(adj, roots, v, s.depth[v]))
    && (s.queue != [] ==> Within(adj, roots, s.depth[s.queue[0]]) <= s.depth.Keys)
    && roots <= s.depth.Keys
    && IsForest(adj, roots, s)
  }

  lemma {:induction false} ExpandGrows(adj: Adj, roots: set<string>, s: Search, done: set<string>)
    requires Searching(adj, roots, s, done) && s.queue != []
    ensures Grown(s.(queue := s.queue[1..]), s.queue[0], Succ(adj, s.queue[0]), Expand(adj, s))
  {
    DiscoverAllGrows(s.(queue := s.queue[1..]), s.queue[0], Succ(adj, s.queue[0]));
  }

  /** An undiscovered child of a node at distance d, when all nodes within d are known, is at distance d + 1. */
  lemma {:induction false} ChildIsOneFurther(adj: Adj, roots: set<string>, u: string, d: nat, c: string,
        known: set<string>)
    requires u in Within(adj, roots, d) && c in Succ(adj, u) && c !in known && Within(adj, roots, d) <= known
    ensures AtDistance(adj, roots, c, d + 1)
  {
    assert c in NextOf(adj, Within(adj, roots, d));
  }

  lemma {:induction false} ExpandDistance(adj: Adj, roots: set<string>, s: Search, done: set<string>, v: string)
    requires Searching(adj, roots, s, done) && s.queue != [] && v in Expand(adj, s).depth
    ensures AtDistance(adj, roots, v, Expand(adj, s).depth[v])
  {
    ExpandGrows(adj, roots, s, done);
    var id := s.queue[0];
    if v in s.depth {
      assert AtDistance(adj, roots, v, s.depth[v]);
    } else {
      assert AtDistance(adj, roots, id, s.depth[id]);
      ChildIsOneFurther(adj, roots, id, s.depth[id], v, s.depth.Keys);
    }
  }

  lemma {:induction false} ExpandDistances(adj: Adj, roots: set<string>, s: Search, done: set<string>)
    requires Searching(adj, roots, s, done) && s.queue != []
    ensures var r := Expand(adj, s);
        forall v {:trigger AtDistance(adj, roots, v, r.depth[v])} :: v in r.depth ==>
        AtDistance(adj, roots, v, r.depth[v])
  {
    var r := Expand(adj, s);
    forall v | v in r.depth ensures AtDistance(adj, roots, v, r.depth[v]) { ExpandDistance(adj, roots, s, done, v); }
  }

  lemma {:induction false} ExpandOrder(adj: Adj, roots: set<string>, s: Search, done: set<string>)
    requires Searching(adj, roots, s, done) && s.queue != []
    ensures var r := Expand(adj, s);
            (forall i :: 0 <= i < |r.queue| ==> r.queue[i] in r.depth) && QueueOrdered(r)
  {
    ExpandGrows(adj, roots, s, done);
    var r, n, d := Expand(adj, s), |s.queue| - 1, s.depth[s.queue[0]];
    forall i | 0 <= i < |r.queue|
      ensures r.queue[i] in r.depth && d <= r.depth[r.queue[i]] <= d + 1
      ensures i >= n ==> r.depth[r.queue[i]] == d + 1
      ensures i < n ==> r.queue[i] == s.queue[i + 1] && r.depth[r.queue[i]] == s.depth[s.queue[i + 1]]
    {
      if i < n { assert r.queue[i] == r.queue[..n][i] == s.queue[1..][i]; }
    }
  }

  lemma {:induction false} ExpandCovers(adj: Adj, roots: set<string>, s: Search, done: set<string>)
    requires Searching(adj, roots, s, done) && s.queue != []
    ensures var r, all := Expand(adj, s), done + {s.queue[0]};
            && all <= r.depth.Keys && (forall v :: v in r.depth ==> v in all || v in r.queue)
            && (forall v, c :: v in all && c in Succ(adj, v) ==> c in r.depth)
  {
    ExpandGrows(adj, roots, s, done);
    var r, all := Expand(adj, s), done + {s.queue[0]};
    forall v | v in r.depth ensures v in all || v in r.queue {
      if v in s.depth && v !in all {
        var i :| 0 <= i < |s.queue| && s.queue[i] == v;
        assert r.queue[..|s.queue| - 1][i - 1] == v;
      }
    }
  }

  lemma {:induction false} DistanceIsLeast(adj: Adj, roots: set<string>, v: string, d: nat, n: nat)
    requires AtDistance(adj, roots, v, d) && v in Within(adj, roots, n)
    ensures d <= n
  {
    if n < d { StillWithin(adj, roots, n, d - 1, v); }
  }

  lemma {:induction false} StillWithin(adj: Adj, roots: set<string>, m: nat, n: nat, v: string)
    requires m <= n && v in Within(adj, roots, m)
    ensures v in Within(adj, roots, n)
    decreases n
  {
    if m < n { StillWithin(adj, roots, m, n - 1, v); }
  }

  /** Closing the dequeued nodes under successors covers one more level. */
  lemma {:induction false} CoversNextLevel(adj: Adj, S: set<string>, all: set<string>, known: set<string>)
    requires S <= all && S <= known && forall v, c :: v in all && c in Succ(adj, v) ==> c in known
    ensures S + NextOf(adj, S) <= known
  {
  }

  /** Once the front of the queue lies beyond level d, every node within d steps has been dequeued. */
  lemma {:induction false} LevelDequeued(adj: Adj, roots: set<string>, s: Search, done: set<string>)
    requires Searching(adj, roots, s, done) && s.queue != []
    requires var r, d := Expand(adj, s), s.depth[s.queue[0]];
        r.queue != [] && r.queue[0] in r.depth && r.depth[r.queue[0]] != d
    ensures Within(adj, roots, s.depth[s.queue[0]]) <= done + {s.queue[0]}
  {
    var r, d := Expand(adj, s), s.depth[s.queue[0]];
    HeadDepth(adj, roots, s, done);
    ExpandOrder(adj, roots, s, done);
    forall u | u in Within(adj, roots, d) ensures u in done + {s.queue[0]} {
      assert u in s.depth;
      DistanceIsLeast(adj, roots, u, s.depth[u], d);
      if u !in done && u != s.queue[0] {
        var i :| 0 <= i < |s.queue| && s.queue[i] == u;
        assert s.depth[s.queue[1]] <= s.depth[u];
        SecondIsHead(adj, roots, s, done);
      }
    }
  }

  lemma {:induction false} SecondIsHead(adj: Adj, roots: set<string>, s: Search, done: set<string>)
    requires Searching(adj, roots, s, done) && |s.queue| > 1
    ensures var r := Expand(adj, s);
        r.queue != [] && r.queue[0] == s.queue[1] && s.queue[1] in r.depth && r.depth[s.queue[1]] == s.depth[s.queue[1]]
  {
    ExpandGrows(adj, roots, s, done);
    var r := Expand(adj, s);
    assert r.queue[0] == r.queue[..|s.queue| - 1][0] == s.queue[1];
  }

  lemma {:induction false} NextLevelKnown(adj: Adj, roots: set<string>, s: Search, done: set<string>)
    requires Searching(adj, roots, s, done) && s.queue != []
    requires var r, d := Expand(adj, s), s.depth[s.queue[0]];
        r.queue != [] && r.queue[0] in r.depth && r.depth[r.queue[0]] != d
    ensures Within(adj, roots, s.depth[s.queue[0]] + 1) <= Expand(adj, s).depth.Keys
  {
    var r, all := Expand(adj, s), done + {s.queue[0]};
    var S := Within(adj, roots, s.depth[s.queue[0]]);
    assert S <= all by { LevelDequeued(adj, roots, s, done); }
    assert all <= r.depth.Keys
        && forall v, c :: v in all && c in Succ(adj, v) ==> c in r.depth.Keys by { ExpandCovers(adj, roots, s, done); }
    CoversNextLevel(adj, S, all, r.depth.Keys);
  }

  lemma {:induction false} ExpandFrontier(adj: Adj, roots: set<string>, s: Search, done: set<string>)
    requires Searching(adj, roots, s, done) && s.queue != []
    ensures var r := Expand(adj, s);
        r.queue != [] ==> r.queue[0] in r.depth && Within(adj, roots, r.depth[r.queue[0]]) <= r.depth.Keys
  {
    var r, d := Expand(adj, s), s.depth[s.queue[0]];
    HeadDepth(adj, roots, s, done);
    if r.queue != [] {
      if r.depth[r.queue[0]] == d {
        assert s.depth.Keys <= r.depth.Keys by { ExpandGrows(adj, roots, s, done); }
      } else {
        NextLevelKnown(adj, roots, s, done);
      }
    }
  }

  lemma {:induction false} HeadDepth(adj: Adj, roots: set<string>, s: Search, done: set<string>)
    requires Searching(adj, roots, s, done) && s.queue != []
    ensures var r, d := Expand(adj, s), s.depth[s.queue[0]];
            r.queue != [] ==> r.queue[0] in r.depth && d <= r.depth[r.queue[0]] <= d + 1
  {
    ExpandGrows(adj, roots, s, done);
    var r := Expand(adj, s);
    if |s.queue| > 1 { assert r.queue[0] == r.queue[..|s.queue| - 1][0] == s.queue[1]; }
  }

  lemma {:induction false} ExpandForest(adj: Adj, roots: set<string>, s: Search, done: set<string>)
    requires Searching(adj, roots, s, done) && s.queue != []
    ensures IsForest(adj, roots, Expand(adj, s)) && roots <= Expand(adj, s).depth.Keys
  {
    ExpandGrows(adj, roots, s, done);
  }

  lemma {:induction false} ExpandKeepsSearching(adj: Adj, roots: set<string>, s: Search, done: set<string>)
    requires Searching(adj, roots, s, done) && s.queue != []
    ensures Searching(adj, roots, Expand(adj, s), done + {s.queue[0]})
  {
    ExpandOrder(adj, roots, s, done);
    ExpandCovers(adj, roots, s, done);
    ExpandDistances(adj, roots, s, done);
    ExpandFrontier(adj, roots, s, done);
    ExpandForest(adj, roots, s, done);
  }

  // ----- the search from start to end -----

  ghost predicate Reachable(adj: Adj, roots: set<string>, v: string) {
    exists n: nat :: v in Within(adj, roots, n)
  }

  function SetOf(s: seq<string>): set<string> {
    set x | x in s
  }

  function Start(roots: seq<string>): Search {
    Search(Sort(roots), map r | r in SetOf(roots) :: 0, map[])
  }

  lemma {:induction false} StartSearching(adj: Adj, roots: seq<string>)
    ensures Searching(adj, SetOf(roots), Start(roots), {})
  {
    var s := Start(roots);
    SameElements(s.queue, roots);
    forall i | 0 <= i < |s.queue| ensures s.queue[i] in s.depth { assert s.queue[i] in roots; }
  }

  lemma {:induction false} ClosedCoversAll(adj: Adj, roots: set<string>, known: set<string>, n: nat)
    requires roots <= known && forall v, c :: v in known && c in Succ(adj, v) ==> c in known
    ensures Within(adj, roots, n) <= known
  {
    if n > 0 { ClosedCoversAll(adj, roots, known, n - 1); }
  }

  /** A finished search has found exactly the reachable nodes, at their shortest distances. */
  ghost predicate Searched(adj: Adj, roots: set<string>, s: Search) {
    && (forall v :: v in s.depth <==> Reachable(adj, roots, v))
    && (forall v :: v in s.depth ==> AtDistance(adj, roots, v, s.depth[v]))
    && IsForest(adj, roots, s)
  }

  lemma {:induction false} EmptyQueueIsSearched(adj: Adj, roots: set<string>, s: Search, done: set<string>)
    requires Searching(adj, roots, s, done) && s.queue == []
    ensures Searched(adj, roots, s)
  {
    forall v ensures v in s.depth <==> Reachable(adj, roots, v) {
      if v in s.depth { assert AtDistance(adj, roots, v, s.depth[v]); }
      if Reachable(adj, roots, v) {
        var n: nat :| v in Within(adj, roots, n);
        ClosedCoversAll(adj, roots, s.depth.Keys, n);
      }
    }
  }

  lemma {:induction false} ExpandStaysIn(adj: Adj, roots: set<string>, s: Search, done: set<string>,
        universe: set<string>)
    requires Searching(adj, roots, s, done) && s.queue != [] && s.depth.Keys <= universe
    requires forall u, c :: u in adj && c in adj[u] ==> c in universe
    ensures var r := Expand(adj, s);
            && r.depth.Keys <= universe && s.depth.Keys <= r.depth.Keys
            && (r.depth.Keys == s.depth.Keys ==> |r.queue| < |s.queue|)
            && |universe - r.depth.Keys| <= |universe - s.depth.Keys|
            && (r.depth.Keys != s.depth.Keys ==> |universe - r.depth.Keys| < |universe - s.depth.Keys|)
  {
    ExpandGrows(adj, roots, s, done);
    var r := Expand(adj, s);
    if |r.queue| > |s.queue| - 1 { assert r.queue[|s.queue| - 1] !in s.depth; }
    SmallerSet(universe - r.depth.Keys, universe - s.depth.Keys);
  }

  lemma {:induction false} SmallerSet(a: set<string>, b: set<string>)
    requires a <= b
    ensures |a| <= |b| && (a != b ==> |a| < |b|)
  {
    assert b == a + (b - a);
    if a != b { var x :| x in b - a; }
  }

  /** The search loop: dequeue, then discover the children in order. */
  method BreadthFirst(adj: Adj, roots: seq<string>, ghost universe: set<string>) returns (s: Search)
    requires SetOf(roots) <= universe && forall u, c :: u in adj && c in adj[u] ==> c in universe
    ensures Searched(adj, SetOf(roots), s) && s.depth.Keys <= universe
  {
    ghost var all := SetOf(roots);
    s := Start(roots);
    ghost var done: set<string> := {};
    StartSearching(adj, roots);
    while s.queue != []
      invariant Searching(adj, all, s, done) && s.depth.Keys <= universe
      decreases |universe - s.depth.Keys|, |s.queue|
    {
      ExpandKeepsSearching(adj, all, s, done);
      ExpandStaysIn(adj, all, s, done, universe);
      ghost var id := s.queue[0];
      s := DequeueAndDiscover(adj, s);
      done := done + {id};
    }
    EmptyQueueIsSearched(adj, all, s, done);
  }

  method DequeueAndDiscover(adj: Adj, s: Search) returns (r: Search)
    requires s.queue != [] && s.queue[0] in s.depth
    ensures r == Expand(adj, s)
  {
    var id := s.queue[0];
    var children := Succ(adj, id);
    r := s.(queue := s.queue[1..]);
    for i := 0 to |children|
      invariant id in r.depth && r == DiscoverAll(s.(queue := s.queue[1..]), id, children[..i])
    {
      assert children[..i + 1][..i] == children[..i];
      var child := children[i];
      if child !in r.depth {
        r := Search(r.queue + [child], r.depth[child := r.depth[id] + 1], r.parent[child := id]);
      }
    }
    assert children[..|children|] == children;
  }
}
