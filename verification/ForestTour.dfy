/**
 Preorder tours of a forest given by parents, depths and ordered child lists.
 */
module ForestTour {

  /** `kids` lists the children of every node; `height` bounds the depths. */
  datatype Forest = Forest(parent: map<string, string>, depth: map<string, nat>, kids: map<string, seq<string>>,
        height: nat)

  ghost predicate Distinct(s: seq<string>) {
    forall i, j :: 0 <= i < j < |s| ==> s[i] != s[j]
  }

  /** c is a child of id. */
  ghost predicate ChildOf(f: Forest, c: string, id: string) {
    c in f.parent && f.parent[c] == id
  }

  ghost predicate KidsOk(f: Forest, id: string)
    requires id in f.kids
  {
    && Distinct(f.kids[id])
    && (forall c :: c in f.kids[id] <==> ChildOf(f, c, id))
  }

  /** Children lie one level below their parent, child lists and parents agree, and level 0 has no parents. */
  ghost predicate Valid(f: Forest) {
    && f.kids.Keys == f.depth.Keys
    && (forall v :: v in f.depth ==> f.depth[v] <= f.height && KidsOk(f, v))
    && (forall v :: v in f.depth ==> (v in f.parent <==> f.depth[v] > 0))
    && (forall c :: c in f.parent ==> c in f.depth && f.parent[c] in f.depth && f.depth[c] == f.depth[f.parent[c]] + 1)
  }

  /** The preorder of the tree below id. */
  ghost function Tour(f: Forest, id: string): seq<string>
    requires Valid(f) && id in f.depth
    decreases f.height - f.depth[id], 1, 0
  {
    KidsAreBelow(f, id);
    [id] + TourAll(f, f.kids[id], f.depth[id] + 1)
  }

  lemma {:induction false} KidsAreBelow(f: Forest, id: string)
    requires Valid(f) && id in f.depth
    ensures forall i :: 0 <= i < |f.kids[id]| ==>
        f.kids[id][i] in f.depth && f.depth[f.kids[id][i]] == f.depth[id] + 1 && ChildOf(f, f.kids[id][i], id)
  {
    assert KidsOk(f, id);
    forall i | 0 <= i < |f.kids[id]| ensures ChildOf(f, f.kids[id][i], id) { assert f.kids[id][i] in f.kids[id]; }
  }

  /** The preorders of several trees at level d, one after the other. */
  ghost function TourAll(f: Forest, cs: seq<string>, d: nat): seq<string>
    requires Valid(f) && forall i :: 0 <= i < |cs| ==> cs[i] in f.depth && f.depth[cs[i]] == d
    decreases f.height - d + 1, 0, |cs|
  {
    if cs == [] then [] else TourAll(f, cs[..|cs| - 1], d) + Tour(f, cs[|cs| - 1])
  }

  /** The ancestor of v at level d. */
  ghost function Ancestor(f: Forest, v: string, d: nat): (a: string)
    requires Valid(f) && v in f.depth && d <= f.depth[v]
    ensures a in f.depth && f.depth[a] == d
    decreases f.depth[v]
  {
    if f.depth[v] == d then v else Ancestor(f, f.parent[v], d)
  }

  ghost predicate Below(f: Forest, v: string, id: string)
    requires Valid(f) && id in f.depth
  {
    v in f.depth && f.depth[id] <= f.depth[v] && Ancestor(f, v, f.depth[id]) == id
  }

  lemma {:induction false} AncestorStep(f: Forest, v: string, d: nat)
    requires Valid(f) && v in f.depth && d < f.depth[v]
    ensures var a := Ancestor(f, v, d + 1); a in f.parent && f.parent[a] == Ancestor(f, v, d)
    decreases f.depth[v]
  {
    if f.depth[v] > d + 1 { AncestorStep(f, f.parent[v], d); }
  }

  /** Below id lie id itself and what is below one of its children. */
  lemma {:induction false} BelowSplits(f: Forest, v: string, id: string)
    requires Valid(f) && id in f.depth
    ensures Below(f, v, id) <==> v == id || exists c :: c in f.kids[id] && c in f.depth && Below(f, v, c)
  {
    KidsAreBelow(f, id);
    assert KidsOk(f, id);
    if Below(f, v, id) && v != id {
      var d := f.depth[id];
      AncestorStep(f, v, d);
      var c := Ancestor(f, v, d + 1);
      assert ChildOf(f, c, id) && c in f.kids[id] && Below(f, v, c);
    }
    forall c | c in f.kids[id] && c in f.depth && Below(f, v, c) ensures Below(f, v, id) {
      AncestorStep(f, v, f.depth[id]);
    }
  }

  /** A tour visits exactly the nodes below its root. */
  lemma {:induction false} TourMembers(f: Forest, id: string, v: string)
    requires Valid(f) && id in f.depth
    ensures v in Tour(f, id) <==> Below(f, v, id)
    decreases f.height - f.depth[id], 1, 0
  {
    KidsAreBelow(f, id);
    TourAllMembers(f, f.kids[id], f.depth[id] + 1, v);
    BelowSplits(f, v, id);
  }

  lemma {:induction false} TourAllMembers(f: Forest, cs: seq<string>, d: nat, v: string)
    requires Valid(f) && forall i :: 0 <= i < |cs| ==> cs[i] in f.depth && f.depth[cs[i]] == d
    ensures v in TourAll(f, cs, d) <==> exists c :: c in cs && c in f.depth && Below(f, v, c)
    decreases f.height - d + 1, 0, |cs|
  {
    if cs != [] {
      var init, last := cs[..|cs| - 1], cs[|cs| - 1];
      TourAllMembers(f, init, d, v);
      TourMembers(f, last, v);
      assert cs == init + [last];
    }
  }

  /** Trees at one level do not overlap. */
  lemma {:induction false} SameLevelApart(f: Forest, a: string, b: string, v: string)
    requires Valid(f) && a in f.depth && b in f.depth && f.depth[a] == f.depth[b] && a != b
    ensures !(Below(f, v, a) && Below(f, v, b))
  {
  }

  lemma {:induction false} DistinctConcat(s: seq<string>, t: seq<string>)
    requires Distinct(s) && Distinct(t) && forall x :: x in s ==> x !in t
    ensures Distinct(s + t)
  {
    var r := s + t;
    forall i, j | 0 <= i < j < |r| ensures r[i] != r[j] {
      if i < |s| <= j { assert s[i] in s && t[j - |s|] in t; }
    }
  }

  lemma {:induction false} TourDistinct(f: Forest, id: string)
    requires Valid(f) && id in f.depth
    ensures Distinct(Tour(f, id))
    decreases f.height - f.depth[id], 1, 0
  {
    KidsAreBelow(f, id);
    assert KidsOk(f, id);
    var d := f.depth[id] + 1;
    TourAllDistinct(f, f.kids[id], d);
    forall x | x in TourAll(f, f.kids[id], d) ensures x != id { TourAllMembers(f, f.kids[id], d, x); }
    DistinctConcat([id], TourAll(f, f.kids[id], d));
  }

  /** Tours of distinct trees at one level visit no node twice. */
  lemma {:induction false} TourAllDistinct(f: Forest, cs: seq<string>, d: nat)
    requires Valid(f) && Distinct(cs) && forall i :: 0 <= i < |cs| ==> cs[i] in f.depth && f.depth[cs[i]] == d
    ensures Distinct(TourAll(f, cs, d))
    decreases f.height - d + 1, 0, |cs|
  {
    if cs != [] {
      var init, last := cs[..|cs| - 1], cs[|cs| - 1];
      TourAllDistinct(f, init, d);
      TourDistinct(f, last);
      forall x | x in TourAll(f, init, d) ensures x !in Tour(f, last) {
        TourAllMembers(f, init, d, x);
        TourMembers(f, last, x);
        var c :| c in init && c in f.depth && Below(f, x, c);
        var i :| 0 <= i < |init| && init[i] == c;
        assert cs[i] != cs[|cs| - 1];
        if Below(f, x, last) { SameLevelApart(f, c, last, x); }
      }
      DistinctConcat(TourAll(f, init, d), Tour(f, last));
    }
  }

  /** Every node of s deeper than level d comes after its parent. */
  ghost predicate ParentsFirst(f: Forest, s: seq<string>, d: nat) {
    forall i :: 0 <= i < |s| && s[i] in f.depth && f.depth[s[i]] > d ==> s[i] in f.parent && f.parent[s[i]] in s[..i]
  }

  lemma {:induction false} ParentsFirstConcat(f: Forest, s: seq<string>, t: seq<string>, d: nat)
    requires ParentsFirst(f, s, d) && ParentsFirst(f, t, d)
    ensures ParentsFirst(f, s + t, d)
  {
    var r := s + t;
    forall i | 0 <= i < |r| && r[i] in f.depth && f.depth[r[i]] > d
      ensures r[i] in f.parent && f.parent[r[i]] in r[..i] {
      if i < |s| {
        assert r[..i] == s[..i];
      } else {
        assert r[i] == t[i - |s|] && r[..i] == s + t[..i - |s|];
      }
    }
  }

  lemma {:induction false} TourParentsFirst(f: Forest, id: string)
    requires Valid(f) && id in f.depth
    ensures ParentsFirst(f, Tour(f, id), f.depth[id])
    decreases f.height - f.depth[id], 1, 0
  {
    KidsAreBelow(f, id);
    var d := f.depth[id];
    var rest := TourAll(f, f.kids[id], d + 1);
    TourAllParentsFirst(f, f.kids[id], d + 1);
    var t := Tour(f, id);
    forall i | 0 <= i < |t| && t[i] in f.depth && f.depth[t[i]] > d
      ensures t[i] in f.parent && f.parent[t[i]] in t[..i] {
      assert t[i] == rest[i - 1] && t[..i] == [id] + rest[..i - 1];
      if f.depth[t[i]] == d + 1 {
        assert rest[i - 1] in rest;
        TourAllMembers(f, f.kids[id], d + 1, t[i]);
        var c :| c in f.kids[id] && c in f.depth && Below(f, t[i], c);
        var k :| 0 <= k < |f.kids[id]| && f.kids[id][k] == c;
        assert ChildOf(f, c, id) && c == t[i];
      }
    }
  }

  lemma {:induction false} TourAllParentsFirst(f: Forest, cs: seq<string>, d: nat)
    requires Valid(f) && forall i :: 0 <= i < |cs| ==> cs[i] in f.depth && f.depth[cs[i]] == d
    ensures ParentsFirst(f, TourAll(f, cs, d), d)
    decreases f.height - d + 1, 0, |cs|
  {
    if cs != [] {
      var init, last := cs[..|cs| - 1], cs[|cs| - 1];
      TourAllParentsFirst(f, init, d);
      TourParentsFirst(f, last);
      ParentsFirstConcat(f, TourAll(f, init, d), Tour(f, last), d);
    }
  }

  /** t occurs in s as one block. */
  ghost predicate Block(s: seq<string>, t: seq<string>) {
    exists i: nat :: BlockAt(s, t, i)
  }

  ghost predicate BlockAt(s: seq<string>, t: seq<string>, i: nat) {
    i + |t| <= |s| && s[i..i + |t|] == t
  }

  lemma {:induction false} BlockInConcat(a: seq<string>, s: seq<string>, b: seq<string>, t: seq<string>)
    requires Block(s, t)
    ensures Block(a + s + b, t)
  {
    var i: nat :| BlockAt(s, t, i);
    assert BlockAt(a + s + b, t, |a| + i);
  }

  /** Each subtree is one block of the tour. */
  lemma {:induction false} SubtreeIsBlock(f: Forest, id: string, v: string)
    requires Valid(f) && id in f.depth && Below(f, v, id)
    ensures Block(Tour(f, id), Tour(f, v))
    decreases f.height - f.depth[id], 1, 0
  {
    if v == id {
      var t := Tour(f, id);
      assert BlockAt(t, t, 0);
    } else {
      BelowSplits(f, v, id);
      KidsAreBelow(f, id);
      var d := f.depth[id] + 1;
      SubtreeIsBlockOfAll(f, f.kids[id], d, v);
      var rest := TourAll(f, f.kids[id], d);
      BlockInConcat([id], rest, [], Tour(f, v));
      assert [id] + rest + [] == Tour(f, id);
    }
  }

  lemma {:induction false} SubtreeIsBlockOfAll(f: Forest, cs: seq<string>, d: nat, v: string)
    requires Valid(f) && (forall i :: 0 <= i < |cs| ==> cs[i] in f.depth && f.depth[cs[i]] == d)
    requires v in f.depth && exists c :: c in cs && c in f.depth && Below(f, v, c)
    ensures Block(TourAll(f, cs, d), Tour(f, v))
    decreases f.height - d + 1, 0, |cs|
  {
    var init, last := cs[..|cs| - 1], cs[|cs| - 1];
    assert cs == init + [last];
    if Below(f, v, last) {
      SubtreeIsBlock(f, last, v);
      BlockInConcat(TourAll(f, init, d), Tour(f, last), [], Tour(f, v));
      assert TourAll(f, init, d) + Tour(f, last) + [] == TourAll(f, cs, d);
    } else {
      SubtreeIsBlockOfAll(f, init, d, v);
      BlockInConcat([], TourAll(f, init, d), Tour(f, last), Tour(f, v));
      assert [] + TourAll(f, init, d) + Tour(f, last) == TourAll(f, cs, d);
    }
  }

  // ----- the size of a tree does not depend on the order of its children -----

  ghost predicate SameTrees(f: Forest, g: Forest) {
    f.parent == g.parent && f.depth == g.depth
  }

  lemma {:induction false} SameAncestors(f: Forest, g: Forest, v: string, d: nat)
    requires Valid(f) && Valid(g) && SameTrees(f, g) && v in f.depth && d <= f.depth[v]
    ensures Ancestor(f, v, d) == Ancestor(g, v, d)
    decreases f.depth[v]
  {
    if f.depth[v] > d { SameAncestors(f, g, f.parent[v], d); }
  }

  lemma {:induction false} SetSize(s: seq<string>)
    requires Distinct(s)
    ensures |set x | x in s| == |s|
    decreases |s|
  {
    if s != [] {
      var init, last := s[..|s| - 1], s[|s| - 1];
      SetSize(init);
      assert (set x | x in s) == (set x | x in init) + {last};
      assert last !in init;
    }
  }

  lemma {:induction false} SizeIsOrderFree(f: Forest, g: Forest, id: string)
    requires Valid(f) && Valid(g) && SameTrees(f, g) && id in f.depth
    ensures |Tour(f, id)| == |Tour(g, id)| && forall v :: v in Tour(f, id) <==> v in Tour(g, id)
  {
    forall v ensures v in Tour(f, id) <==> v in Tour(g, id) {
      TourMembers(f, id, v);
      TourMembers(g, id, v);
      if v in f.depth && f.depth[id] <= f.depth[v] { SameAncestors(f, g, v, f.depth[id]); }
    }
    TourDistinct(f, id);
    TourDistinct(g, id);
    SetSize(Tour(f, id));
    SetSize(Tour(g, id));
    assert (set x | x in Tour(f, id)) == (set x | x in Tour(g, id));
  }

  /** Touring every tree visits every node once, parents first, and each subtree as one block. */
  lemma {:induction false} WholeTour(f: Forest, roots: seq<string>)
    requires Valid(f) && Distinct(roots) && forall v :: v in roots <==> v in f.depth && f.depth[v] == 0
    ensures var t := TourAll(f, roots, 0);
            && Distinct(t) && (forall v :: v in t <==> v in f.depth) && ParentsFirst(f, t, 0)
            && forall v :: v in f.depth ==> Block(t, Tour(f, v))
  {
    var t := TourAll(f, roots, 0);
    assert forall i :: 0 <= i < |roots| ==> roots[i] in roots;
    TourAllDistinct(f, roots, 0);
    TourAllParentsFirst(f, roots, 0);
    forall v ensures v in t <==> v in f.depth {
      TourAllMembers(f, roots, 0, v);
      if v in f.depth { assert Below(f, v, Ancestor(f, v, 0)); }
    }
    forall v | v in f.depth ensures Block(t, Tour(f, v)) {
      assert Below(f, v, Ancestor(f, v, 0));
      SubtreeIsBlockOfAll(f, roots, 0, v);
    }
  }
}
