/**
 `clusterSVGNodes` in pkg/api/svg.go: nodes of one level and type are folded once there are too many of them.

 The title, ID and reason texts of a cluster are functions of its key and are left out; its count is the number
 of its members.
 */
module Clustering {
  import opened Lex
  import opened ForestTour
  import opened TreeOrder
  import DrawOrder

  const CLUSTER_MIN: nat := 5
  const CLUSTER_KEEP: nat := 3

  datatype Key = Key(depth: nat, typ: string)
  datatype Cluster = Cluster(key: Key, members: seq<string>)

  /** The node table: the types of the known nodes and the levels, 0 where none is recorded. */
  datatype Table = Table(types: map<string, string>, depth: map<string, nat>)

  function DepthOf(depth: map<string, nat>, id: string): nat {
    if id in depth then depth[id] else 0
  }

  predicate InGroup(t: Table, id: string, key: Key) {
    id in t.types && key == Key(DepthOf(t.depth, id), t.types[id])
  }

  function Group(t: Table, ids: seq<string>, key: Key): seq<string> {
    if ids == [] then []
    else Group(t, ids[..|ids| - 1], key) + if InGroup(t, ids[|ids| - 1], key) then [ids[|ids| - 1]] else []
  }

  lemma {:induction false} GroupMembers(t: Table, ids: seq<string>, key: Key, id: string)
    ensures id in Group(t, ids, key) <==> id in ids && InGroup(t, id, key)
    decreases |ids|
  {
    if ids != [] {
      GroupMembers(t, ids[..|ids| - 1], key, id);
      assert ids == ids[..|ids| - 1] + [ids[|ids| - 1]];
    }
  }

  lemma {:induction false} GroupDistinct(t: Table, ids: seq<string>, key: Key)
    requires Distinct(ids)
    ensures Distinct(Group(t, ids, key))
    decreases |ids|
  {
    if ids != [] {
      var init, last := ids[..|ids| - 1], ids[|ids| - 1];
      GroupDistinct(t, init, key);
      GroupMembers(t, init, key, last);
      assert last !in init;
    }
  }

  /** What a group folds away: all but its smallest IDs, once it is large enough. */
  function Folded(group: seq<string>): seq<string> {
    if |group| < CLUSTER_MIN then [] else SameLength(group); Sort(group)[CLUSTER_KEEP..]
  }

  lemma {:induction false} SameLength(s: seq<string>)
    ensures |Sort(s)| == |s|
  {
    SameElements(Sort(s), s);
  }

  ghost predicate Hidden(t: Table, ids: seq<string>, id: string) {
    id in t.types && id in Folded(Group(t, ids, Key(DepthOf(t.depth, id), t.types[id])))
  }

  ghost function HiddenSet(t: Table, ids: seq<string>): set<string> {
    set id | id in ids && Hidden(t, ids, id)
  }

  lemma {:induction false} FoldedMembers(group: seq<string>, id: string)
    requires id in Folded(group)
    ensures id in group
  {
    SameElements(Sort(group), group);
    assert id in Sort(group);
  }

  lemma {:induction false} FoldedDistinct(group: seq<string>)
    requires Distinct(group)
    ensures Distinct(Folded(group))
  {
    if |group| >= CLUSTER_MIN {
      DrawOrder.DistinctSorted(group);
      SameLength(group);
      TailDistinct(Sort(group), CLUSTER_KEEP);
    }
  }

  lemma {:induction false} TailDistinct(s: seq<string>, k: nat)
    requires Distinct(s) && k <= |s|
    ensures Distinct(s[k..])
  {
    forall i, j | 0 <= i < j < |s[k..]| ensures s[k..][i] != s[k..][j] { assert s[k + i] != s[k + j]; }
  }

  /** A node is hidden exactly when the group of some key folds it. */
  lemma {:induction false} HiddenIffFolded(t: Table, ids: seq<string>, key: Key, id: string)
    ensures id in Folded(Group(t, ids, key)) <==> Hidden(t, ids, id) && InGroup(t, id, key)
  {
    if id in Folded(Group(t, ids, key)) {
      FoldedMembers(Group(t, ids, key), id);
      GroupMembers(t, ids, key, id);
    }
  }

  // ----- grouping -----

  type Groups = map<Key, seq<string>>

  function ListAt(groups: Groups, key: Key): seq<string> {
    if key in groups then groups[key] else []
  }

  ghost predicate Grouped(t: Table, ids: seq<string>, groups: Groups) {
    forall key {:trigger ListAt(groups, key)} :: ListAt(groups, key) == Group(t, ids, key)
  }

  lemma {:induction false} AddToGroup(t: Table, ids: seq<string>, groups: Groups, id: string)
    requires Grouped(t, ids, groups)
    ensures id !in t.types ==> Grouped(t, ids + [id], groups)
    ensures id in t.types ==>
              var key := Key(DepthOf(t.depth, id), t.types[id]);
                  Grouped(t, ids + [id], groups[key := ListAt(groups, key) + [id]])
  {
    assert (ids + [id])[..|ids|] == ids;
    forall key ensures id !in t.types ==> ListAt(groups, key) == Group(t, ids + [id], key) { }
    if id in t.types {
      var k := Key(DepthOf(t.depth, id), t.types[id]);
      var now := groups[k := ListAt(groups, k) + [id]];
      forall key ensures ListAt(now, key) == Group(t, ids + [id], key)
      { assert ListAt(groups, key) == Group(t, ids, key); }
    }
  }

  method BuildGroups(t: Table, ids: seq<string>) returns (groups: Groups)
    ensures Grouped(t, ids, groups)
  {
    groups := map[];
    for i := 0 to |ids|
      invariant Grouped(t, ids[..i], groups)
    {
      AddToGroup(t, ids[..i], groups, ids[i]);
      assert ids[..i + 1] == ids[..i] + [ids[i]];
      if ids[i] in t.types {
        var key := Key(DepthOf(t.depth, ids[i]), t.types[ids[i]]);
        groups := groups[key := ListAt(groups, key) + [ids[i]]];
      }
    }
    assert ids[..|ids|] == ids;
  }

  // ----- cluster lists -----

  predicate KeyLess(a: Key, b: Key) {
    if a.depth == b.depth then Less(a.typ, b.typ) else a.depth < b.depth
  }

  lemma {:induction false} KeyTotal(a: Key, b: Key)
    ensures KeyLess(a, b) || a == b || KeyLess(b, a)
  {
    Total(a.typ, b.typ);
  }

  lemma {:induction false} KeyTransitive(a: Key, b: Key, c: Key)
    requires KeyLess(a, b) && KeyLess(b, c)
    ensures KeyLess(a, c)
  {
    if a.depth == b.depth == c.depth { Transitive(a.typ, b.typ, c.typ); }
  }

  ghost predicate KeySorted(cs: seq<Cluster>) {
    forall i, j :: 0 <= i < j < |cs| ==>
      cs[i].key.depth <= cs[j].key.depth && (cs[i].key.depth == cs[j].key.depth ==> Less(cs[i].key.typ, cs[j].key.typ))
  }

  function Counts(cs: seq<Cluster>): nat {
    if cs == [] then 0 else |cs[|cs| - 1].members| + Counts(cs[..|cs| - 1])
  }

  function Insert(c: Cluster, cs: seq<Cluster>): seq<Cluster> {
    if cs != [] && KeyLess(c.key, cs[|cs| - 1].key) then Insert(c, cs[..|cs| - 1]) + [cs[|cs| - 1]] else cs + [c]
  }

  function SortClusters(cs: seq<Cluster>): seq<Cluster> {
    if cs == [] then [] else Insert(cs[|cs| - 1], SortClusters(cs[..|cs| - 1]))
  }

  lemma {:induction false} InsertCounts(c: Cluster, cs: seq<Cluster>)
    ensures Counts(Insert(c, cs)) == Counts(cs) + |c.members|
    decreases |cs|
  {
    if cs != [] && KeyLess(c.key, cs[|cs| - 1].key) {
      InsertCounts(c, cs[..|cs| - 1]);
      assert Insert(c, cs)[..|Insert(c, cs)| - 1] == Insert(c, cs[..|cs| - 1]);
    } else {
      assert (cs + [c])[..|cs|] == cs;
    }
  }

  lemma {:induction false} InsertMembers(c: Cluster, cs: seq<Cluster>, x: Cluster)
    ensures x in Insert(c, cs) <==> x == c || x in cs
    decreases |cs|
  {
    if cs != [] {
      assert cs == cs[..|cs| - 1] + [cs[|cs| - 1]];
      if KeyLess(c.key, cs[|cs| - 1].key) { InsertMembers(c, cs[..|cs| - 1], x); }
    }
  }

  ghost predicate AllBelow(cs: seq<Cluster>, k: Key) {
    forall i :: 0 <= i < |cs| ==> KeyLess(cs[i].key, k)
  }

  lemma {:induction false} AppendSorted(cs: seq<Cluster>, c: Cluster)
    requires KeySorted(cs) && AllBelow(cs, c.key)
    ensures KeySorted(cs + [c])
  {
  }

  lemma {:induction false} InsertBelow(c: Cluster, cs: seq<Cluster>, k: Key)
    requires AllBelow(cs, k) && KeyLess(c.key, k)
    ensures AllBelow(Insert(c, cs), k)
    decreases |cs|
  {
    if cs != [] && KeyLess(c.key, cs[|cs| - 1].key) { InsertBelow(c, cs[..|cs| - 1], k); }
  }

  lemma {:induction false} LastIsGreatest(cs: seq<Cluster>, k: Key)
    requires KeySorted(cs) && cs != [] && KeyLess(cs[|cs| - 1].key, k)
    ensures AllBelow(cs, k)
  {
    forall i | 0 <= i < |cs| ensures KeyLess(cs[i].key, k) {
      if i < |cs| - 1 { KeyTransitive(cs[i].key, cs[|cs| - 1].key, k); }
    }
  }

  lemma {:induction false} InsertSorted(c: Cluster, cs: seq<Cluster>)
    requires KeySorted(cs) && forall i :: 0 <= i < |cs| ==> cs[i].key != c.key
    ensures KeySorted(Insert(c, cs))
    decreases |cs|
  {
    if cs != [] {
      var init, last := cs[..|cs| - 1], cs[|cs| - 1];
      KeyTotal(c.key, last.key);
      if KeyLess(c.key, last.key) {
        InsertSorted(c, init);
        InsertBelow(c, init, last.key);
        AppendSorted(Insert(c, init), last);
      } else {
        LastIsGreatest(cs, c.key);
        AppendSorted(cs, c);
      }
    }
  }

  lemma {:induction false} SortClustersCounts(cs: seq<Cluster>)
    ensures Counts(SortClusters(cs)) == Counts(cs)
    decreases |cs|
  {
    if cs != [] {
      SortClustersCounts(cs[..|cs| - 1]);
      InsertCounts(cs[|cs| - 1], SortClusters(cs[..|cs| - 1]));
    }
  }

  lemma {:induction false} SortClustersMembers(cs: seq<Cluster>, x: Cluster)
    ensures x in SortClusters(cs) <==> x in cs
    decreases |cs|
  {
    if cs != [] {
      SortClustersMembers(cs[..|cs| - 1], x);
      InsertMembers(cs[|cs| - 1], SortClusters(cs[..|cs| - 1]), x);
      assert cs == cs[..|cs| - 1] + [cs[|cs| - 1]];
    }
  }

  ghost predicate KeysDiffer(cs: seq<Cluster>) {
    forall i, j :: 0 <= i < j < |cs| ==> cs[i].key != cs[j].key
  }

  lemma {:induction false} SortClustersSorted(cs: seq<Cluster>)
    requires KeysDiffer(cs)
    ensures KeySorted(SortClusters(cs))
    decreases |cs|
  {
    if cs != [] {
      var init, last := cs[..|cs| - 1], cs[|cs| - 1];
      SortClustersSorted(init);
      var sorted := SortClusters(init);
      forall i | 0 <= i < |sorted| ensures sorted[i].key != last.key {
        SortClustersMembers(init, sorted[i]);
        assert sorted[i] in init;
      }
      InsertSorted(last, sorted);
    }
  }

  // ----- clusterSVGNodes -----

  /** The clusters of the keys in ks. */
  ghost predicate ClustersOf(t: Table, ids: seq<string>, cs: seq<Cluster>, ks: set<Key>) {
    && (forall c {:trigger IsCluster(t, ids, c)} :: c in cs ==> c.key in ks && IsCluster(t, ids, c))
    && (forall k {:trigger HasCluster(cs, k)} :: k in ks && |Group(t, ids, k)| >= CLUSTER_MIN ==> HasCluster(cs, k))
  }

  ghost predicate IsCluster(t: Table, ids: seq<string>, c: Cluster) {
    |Group(t, ids, c.key)| >= CLUSTER_MIN && c.members == Folded(Group(t, ids, c.key))
  }

  ghost predicate HasCluster(cs: seq<Cluster>, k: Key) {
    exists i :: 0 <= i < |cs| && cs[i].key == k
  }

  ghost predicate Collapsed(t: Table, ids: seq<string>, collapsed: set<string>, ks: set<Key>) {
    forall id {:trigger CollapsedIff(t, ids, collapsed, ks, id)} :: CollapsedIff(t, ids, collapsed, ks, id)
  }

  ghost predicate CollapsedIff(t: Table, ids: seq<string>, collapsed: set<string>, ks: set<Key>, id: string) {
    id in collapsed <==> id in t.types && Key(DepthOf(t.depth, id), t.types[id]) in ks && Hidden(t, ids, id)
  }

  lemma {:induction false} CollapseOne(t: Table, ids: seq<string>, collapsed: set<string>, ks: set<Key>, key: Key)
    requires Distinct(ids) && Collapsed(t, ids, collapsed, ks) && key !in ks
    ensures var members := Folded(Group(t, ids, key));
            && Collapsed(t, ids, collapsed + SetOf(members), ks + {key})
            && |collapsed + SetOf(members)| == |collapsed| + |members|
  {
    var members := Folded(Group(t, ids, key));
    forall id ensures id in members <==> Hidden(t, ids, id) && InGroup(t, id, key) { HiddenIffFolded(t, ids, key, id); }
    GroupDistinct(t, ids, key);
    FoldedDistinct(Group(t, ids, key));
    SetSize(members);
    assert collapsed !! SetOf(members) by {
      forall id | id in members ensures id !in collapsed { assert CollapsedIff(t, ids, collapsed, ks, id); }
    }
    forall id ensures CollapsedIff(t, ids, collapsed + SetOf(members), ks + {key}, id)
    { assert CollapsedIff(t, ids, collapsed, ks, id); }
  }

  lemma {:induction false} AddCluster(t: Table, ids: seq<string>, cs: seq<Cluster>, ks: set<Key>, key: Key)
    requires ClustersOf(t, ids, cs, ks) && key !in ks && KeysDiffer(cs)
    ensures |Group(t, ids, key)| < CLUSTER_MIN ==> ClustersOf(t, ids, cs, ks + {key})
    ensures var c := Cluster(key, Folded(Group(t, ids, key)));
            |Group(t, ids, key)| >= CLUSTER_MIN ==>
                ClustersOf(t, ids, cs + [c], ks + {key}) && KeysDiffer(cs + [c])
                && Counts(cs + [c]) == Counts(cs) + |c.members|
  {
    var c := Cluster(key, Folded(Group(t, ids, key)));
    var now := cs + [c];
    assert now[..|cs|] == cs;
    forall i | 0 <= i < |cs| ensures cs[i].key != key { assert IsCluster(t, ids, cs[i]); }
    assert now[|cs|].key == key;
    forall k | HasCluster(cs, k) ensures HasCluster(now, k) {
      var i :| 0 <= i < |cs| && cs[i].key == k;
      assert now[i].key == k;
    }
    if |Group(t, ids, key)| >= CLUSTER_MIN {
      forall d | d in now ensures d.key in ks + {key} && IsCluster(t, ids, d) {
        if d in cs { assert IsCluster(t, ids, d); }
      }
      forall k | k in ks + {key} && |Group(t, ids, k)| >= CLUSTER_MIN ensures HasCluster(now, k) {
        if k in ks { assert HasCluster(cs, k); }
      }
    } else {
      forall d | d in cs ensures d.key in ks + {key} && IsCluster(t, ids, d) { assert IsCluster(t, ids, d); }
      forall k | k in ks + {key} && |Group(t, ids, k)| >= CLUSTER_MIN ensures HasCluster(cs, k) { assert k in ks; }
    }
  }

  /** The outcome of folding the groups of the keys in ks. */
  ghost predicate FoldedSoFar(t: Table, ids: seq<string>, collapsed: set<string>, clusters: seq<Cluster>,
        ks: set<Key>) {
    && Collapsed(t, ids, collapsed, ks) && ClustersOf(t, ids, clusters, ks)
    && KeysDiffer(clusters) && Counts(clusters) == |collapsed|
  }

  lemma {:induction false} FoldOne(t: Table, ids: seq<string>, collapsed: set<string>, clusters: seq<Cluster>,
        ks: set<Key>, key: Key)
    requires Distinct(ids) && FoldedSoFar(t, ids, collapsed, clusters, ks) && key !in ks
    ensures var group := Group(t, ids, key);
            if |group| < CLUSTER_MIN then FoldedSoFar(t, ids, collapsed, clusters, ks + {key})
            else FoldedSoFar(t, ids, collapsed + SetOf(Folded(group)), clusters + [Cluster(key, Folded(group))],
                ks + {key})
  {
    CollapseOne(t, ids, collapsed, ks, key);
    AddCluster(t, ids, clusters, ks, key);
    if |Group(t, ids, key)| < CLUSTER_MIN { assert collapsed + SetOf([]) == collapsed; }
  }

  lemma {:induction false} NothingFolded(t: Table, ids: seq<string>)
    ensures FoldedSoFar(t, ids, {}, [], {})
  {
  }

  method FoldGroups(t: Table, ghost ids: seq<string>, groups: Groups)
    returns (collapsed: set<string>, clusters: seq<Cluster>)
    requires Distinct(ids) && Grouped(t, ids, groups)
    ensures FoldedSoFar(t, ids, collapsed, clusters, groups.Keys)
  {
    collapsed, clusters := {}, [];
    var rest := groups.Keys;
    ghost var ks: set<Key> := {};
    NothingFolded(t, ids);
    while rest != {}
      invariant rest !! ks && rest + ks == groups.Keys
      invariant FoldedSoFar(t, ids, collapsed, clusters, ks)
      decreases rest
    {
      var key :| key in rest;
      var group := groups[key];
      assert ListAt(groups, key) == Group(t, ids, key);
      FoldOne(t, ids, collapsed, clusters, ks, key);
      rest, ks := rest - {key}, ks + {key};
      if |group| < CLUSTER_MIN { continue; }
      collapsed := collapsed + SetOf(Folded(group));
      clusters := clusters + [Cluster(key, Folded(group))];
    }
    assert ks == groups.Keys;
  }

  /** The IDs outside the set, in order. */
  function Without(ids: seq<string>, collapsed: set<string>): seq<string> {
    if ids == [] then []
    else Without(ids[..|ids| - 1], collapsed) + if ids[|ids| - 1] in collapsed then [] else [ids[|ids| - 1]]
  }

  lemma {:induction false} WithoutMembers(ids: seq<string>, collapsed: set<string>)
    requires Distinct(ids)
    ensures Distinct(Without(ids, collapsed))
        && forall id :: id in Without(ids, collapsed) <==> id in ids && id !in collapsed
    decreases |ids|
  {
    if ids != [] {
      WithoutMembers(ids[..|ids| - 1], collapsed);
      assert ids == ids[..|ids| - 1] + [ids[|ids| - 1]];
    }
  }

  lemma {:induction false} WithoutCount(ids: seq<string>, collapsed: set<string>)
    requires Distinct(ids) && forall id :: id in collapsed ==> id in ids
    ensures |Without(ids, collapsed)| + |collapsed| == |ids|
    decreases |ids|
  {
    if ids != [] {
      var init, last := ids[..|ids| - 1], ids[|ids| - 1];
      assert ids == init + [last];
      WithoutCount(init, collapsed - {last});
      SameWithout(init, collapsed, last);
    }
  }

  lemma {:induction false} SameWithout(ids: seq<string>, collapsed: set<string>, x: string)
    requires x !in ids
    ensures Without(ids, collapsed - {x}) == Without(ids, collapsed)
    decreases |ids|
  {
    if ids != [] { SameWithout(ids[..|ids| - 1], collapsed, x); }
  }

  /** One cluster for each group that is too large, and none else, in level and type order. */
  ghost predicate ExactClusters(t: Table, ids: seq<string>, cs: seq<Cluster>) {
    && (forall c {:trigger IsCluster(t, ids, c)} :: c in cs ==> IsCluster(t, ids, c))
    && (forall k {:trigger HasCluster(cs, k)} :: |Group(t, ids, k)| >= CLUSTER_MIN ==> HasCluster(cs, k))
    && KeySorted(cs)
  }

  method ClusterNodes(t: Table, ids: seq<string>) returns (out: seq<string>, clusters: seq<Cluster>)
    requires Distinct(ids)
    ensures ExactClusters(t, ids, clusters)
    ensures out == Without(ids, HiddenSet(t, ids))
    ensures Distinct(out) && forall id :: id in out <==> id in ids && !Hidden(t, ids, id)
    ensures |out| + Counts(clusters) == |ids|
  {
    var groups := BuildGroups(t, ids);
    var collapsed, found := FoldGroups(t, ids, groups);
    clusters := SortClusters(found);
    out := [];
    for i := 0 to |ids|
      invariant out == Without(ids[..i], collapsed)
    {
      assert ids[..i + 1][..i] == ids[..i];
      if ids[i] !in collapsed { out := out + [ids[i]]; }
    }
    assert ids[..|ids|] == ids;
    CollapsedIsHidden(t, ids, groups, collapsed);
    assert collapsed == HiddenSet(t, ids);
    WithoutMembers(ids, collapsed);
    WithoutCount(ids, collapsed);
    SortedIsExact(t, ids, groups, found);
  }

  lemma {:induction false} CollapsedIsHidden(t: Table, ids: seq<string>, groups: Groups, collapsed: set<string>)
    requires Grouped(t, ids, groups) && Collapsed(t, ids, collapsed, groups.Keys)
    ensures forall id :: id in collapsed <==> Hidden(t, ids, id)
    ensures forall id :: id in collapsed ==> id in ids
  {
    forall id ensures id in collapsed <==>
        id in t.types && Key(DepthOf(t.depth, id), t.types[id]) in groups && Hidden(t, ids, id) {
      assert CollapsedIff(t, ids, collapsed, groups.Keys, id);
    }
    forall id | Hidden(t, ids, id) ensures id in collapsed && id in ids {
      var k := Key(DepthOf(t.depth, id), t.types[id]);
      assert ListAt(groups, k) == Group(t, ids, k);
      FoldedMembers(Group(t, ids, k), id);
      GroupMembers(t, ids, k, id);
    }
  }

  lemma {:induction false} SortedIsExact(t: Table, ids: seq<string>, groups: Groups, cs: seq<Cluster>)
    requires Grouped(t, ids, groups) && ClustersOf(t, ids, cs, groups.Keys) && KeysDiffer(cs)
    ensures ExactClusters(t, ids, SortClusters(cs)) && Counts(SortClusters(cs)) == Counts(cs)
  {
    var sorted := SortClusters(cs);
    SortClustersCounts(cs);
    SortClustersSorted(cs);
    forall c | c in sorted ensures IsCluster(t, ids, c) { SortClustersMembers(cs, c); }
    forall k | |Group(t, ids, k)| >= CLUSTER_MIN ensures HasCluster(sorted, k) {
      assert ListAt(groups, k) == Group(t, ids, k);
      assert HasCluster(cs, k);
      var i :| 0 <= i < |cs| && cs[i].key == k;
      SortClustersMembers(cs, cs[i]);
      var j :| 0 <= j < |sorted| && sorted[j] == cs[i];
    }
  }

  // ----- what clustering means for a node -----

  /** Every node is drawn or is a member of exactly one cluster, never both. */
  lemma {:induction false} DrawnOrFolded(t: Table, ids: seq<string>, cs: seq<Cluster>, id: string)
    requires ExactClusters(t, ids, cs)
    ensures Hidden(t, ids, id) <==> exists i :: 0 <= i < |cs| && id in cs[i].members
    ensures forall i, j :: 0 <= i < j < |cs| && id in cs[i].members ==> id !in cs[j].members
  {
    forall i | 0 <= i < |cs| && id in cs[i].members ensures Hidden(t, ids, id) && InGroup(t, id, cs[i].key) {
      assert IsCluster(t, ids, cs[i]);
      HiddenIffFolded(t, ids, cs[i].key, id);
    }
    if Hidden(t, ids, id) {
      var k := Key(DepthOf(t.depth, id), t.types[id]);
      assert HasCluster(cs, k);
      var i :| 0 <= i < |cs| && cs[i].key == k;
      assert IsCluster(t, ids, cs[i]);
    }
    forall i, j | 0 <= i < j < |cs| && id in cs[i].members ensures id !in cs[j].members { Irreflexive(cs[i].key.typ); }
  }

  /** A group that is too large keeps exactly its three smallest IDs. */
  lemma {:induction false} SmallestStay(t: Table, ids: seq<string>, key: Key, a: string, b: string)
    requires Distinct(ids) && a in ids && b in ids && InGroup(t, a, key) && InGroup(t, b, key)
    requires !Hidden(t, ids, a) && Hidden(t, ids, b)
    ensures Less(a, b) && |Group(t, ids, key)| == |Folded(Group(t, ids, key))| + CLUSTER_KEEP
  {
    var group := Group(t, ids, key);
    var sorted := Sort(group);
    GroupMembers(t, ids, key, a);
    SameElements(sorted, group);
    assert b in sorted[CLUSTER_KEEP..];
    var i :| 0 <= i < |sorted| && sorted[i] == a;
    var j :| 0 <= j < |sorted[CLUSTER_KEEP..]| && sorted[CLUSTER_KEEP..][j] == b;
    assert i < CLUSTER_KEEP;
    assert Leq(sorted[i], sorted[CLUSTER_KEEP + j]);
  }

  // ----- who is hidden, counted -----

  /** The nodes of the level and type of id. */
  ghost function Alike(t: Table, ids: seq<string>, id: string): set<string>
    requires id in t.types
  {
    set v | v in ids && v in t.types && t.types[v] == t.types[id] && DepthOf(t.depth, v) == DepthOf(t.depth, id)
  }

  ghost function Smaller(S: set<string>, x: string): set<string> {
    set v | v in S && Less(v, x)
  }

  lemma {:induction false} SortedPosition(s: seq<string>, i: nat)
    requires Sorted(s) && Distinct(s) && i < |s|
    ensures |Smaller(SetOf(s), s[i])| == i
  {
    forall v ensures v in Smaller(SetOf(s), s[i]) <==> v in s[..i] {
      if v in s[..i] {
        var j :| 0 <= j < i && s[j] == v;
        assert Leq(s[j], s[i]) && s[j] != s[i];
      }
      if v in Smaller(SetOf(s), s[i]) {
        var j :| 0 <= j < |s| && s[j] == v;
        if j >= i { NotBefore(s, i, j); }
        assert s[..i][j] == v;
      }
    }
    assert Smaller(SetOf(s), s[i]) == set x | x in s[..i];
    SetSize(s[..i]);
  }

  lemma {:induction false} NotBefore(s: seq<string>, i: nat, j: nat)
    requires Sorted(s) && i <= j < |s|
    ensures !Less(s[j], s[i])
  {
    if i == j { Irreflexive(s[i]); } else {
      assert Leq(s[i], s[j]);
      if s[i] == s[j] { Irreflexive(s[i]); } else { Asymmetric(s[i], s[j]); }
    }
  }

  lemma {:induction false} GroupIsAlike(t: Table, ids: seq<string>, id: string)
    requires Distinct(ids) && id in t.types
    ensures var group := Group(t, ids, Key(DepthOf(t.depth, id), t.types[id]));
            && Distinct(Sort(group)) && |Sort(group)| == |group| == |Alike(t, ids, id)|
            && forall v :: v in Sort(group) <==> v in Alike(t, ids, id)
  {
    var key := Key(DepthOf(t.depth, id), t.types[id]);
    var group := Group(t, ids, key);
    forall v ensures v in group <==> v in Alike(t, ids, id) { GroupMembers(t, ids, key, v); }
    GroupDistinct(t, ids, key);
    DrawOrder.DistinctSorted(group);
    SameElements(Sort(group), group);
    SetSize(group);
    assert (set x | x in group) == Alike(t, ids, id);
  }

  /** A node is hidden exactly when at least five nodes share its level and type and three of them have smaller IDs. */
  lemma {:induction false} HiddenIff(t: Table, ids: seq<string>, id: string)
    requires Distinct(ids) && id in ids && id in t.types
    ensures Hidden(t, ids, id) <==> |Alike(t, ids, id)| >= 5 && |Smaller(Alike(t, ids, id), id)| >= 3
  {
    var group := Group(t, ids, Key(DepthOf(t.depth, id), t.types[id]));
    var sorted := Sort(group);
    GroupIsAlike(t, ids, id);
    assert SetOf(sorted) == Alike(t, ids, id);
    assert id in sorted;
    var i :| 0 <= i < |sorted| && sorted[i] == id;
    SortedPosition(sorted, i);
    FoldedFrom(group, i);
  }

  lemma {:induction false} FoldedFrom(group: seq<string>, i: nat)
    requires i < |Sort(group)| == |group| && Distinct(Sort(group))
    ensures Sort(group)[i] in Folded(group) <==> |group| >= 5 && i >= 3
  {
    if |group| >= 5 { InTail(Sort(group), 3, i); }
  }

  lemma {:induction false} InTail(s: seq<string>, k: nat, i: nat)
    requires Distinct(s) && k <= |s| && i < |s|
    ensures s[i] in s[k..] <==> i >= k
  {
    if i >= k { assert s[k..][i - k] == s[i]; }
  }

  /** Folding never hides every node. */
  lemma {:induction false} SomeoneStays(t: Table, ids: seq<string>)
    requires Distinct(ids) && ids != []
    ensures exists id :: id in ids && !Hidden(t, ids, id)
  {
    if Hidden(t, ids, ids[0]) {
      var key := Key(DepthOf(t.depth, ids[0]), t.types[ids[0]]);
      var group := Group(t, ids, key);
      var sorted := Sort(group);
      SameElements(sorted, group);
      GroupMembers(t, ids, key, sorted[0]);
      GroupDistinct(t, ids, key);
      DrawOrder.DistinctSorted(group);
      assert sorted[0] in group && sorted[0] !in sorted[CLUSTER_KEEP..];
      assert !Hidden(t, ids, sorted[0]);
    }
  }
}
