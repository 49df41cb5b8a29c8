/**
 The Merkle tree of pkg/secure/merkle.go.

 Digests are values of a type `D`, and `h(l, r)` stands for the SHA-256 digest of the
 concatenation of two 32-byte digests. `Levels`, `ProofOf` and `Fold` say what the
 loops of `rebuild`, `Proof` and `VerifyProof` compute; the class at the end is proved
 against them.
 */
module Merkle {
  import opened Common

  // ----- building the tree, level by level -----

  /** One round of `rebuild`: hash neighbours, promote an odd last node. */
  function Up<D>(h: (D, D) -> D, s: seq<D>): seq<D> {
    seq((|s| + 1) / 2, j requires 0 <= j < (|s| + 1) / 2 => Parent(h, s, j))
  }

  /** Node j of the next level. */
  function Parent<D>(h: (D, D) -> D, s: seq<D>, j: nat): D
    requires 2 * j < |s|
  {
    if 2 * j + 1 < |s| then h(s[2 * j], s[2 * j + 1]) else s[2 * j]
  }

  /** All levels, leaves first. */
  function Levels<D>(h: (D, D) -> D, s: seq<D>): (r: seq<seq<D>>)
    requires |s| > 0
    ensures |r| > 0 && r[0] == s && |r[|r| - 1]| == 1
    decreases |s|
  {
    if |s| == 1 then [s] else [s] + Levels(h, Up(h, s))
  }

  function RootOf<D>(h: (D, D) -> D, s: seq<D>): D
    requires |s| > 0
    decreases |s|
  {
    if |s| == 1 then s[0] else RootOf(h, Up(h, s))
  }

  // ----- the recursive tree hash of section 2.1 of RFC 6962, without its prefix bytes -----

  function Pow2(e: nat): (r: nat)
    ensures r >= 1
  {
    if e == 0 then 1 else 2 * Pow2(e - 1)
  }

  /** The largest power of two below n. */
  function SplitPoint(n: nat): (k: nat)
    requires n >= 2
    ensures 1 <= k < n <= 2 * k
    ensures n > 2 ==> k % 2 == 0
  {
    if n == 2 then 1 else 2 * SplitPoint((n + 1) / 2)
  }

  lemma {:induction false} SplitPointIsPowerOfTwo(n: nat)
    requires n >= 2
    ensures exists e: nat :: SplitPoint(n) == Pow2(e)
  {
    if n == 2 {
      assert SplitPoint(n) == Pow2(0);
    } else {
      SplitPointIsPowerOfTwo((n + 1) / 2);
      var e: nat :| SplitPoint((n + 1) / 2) == Pow2(e);
      assert SplitPoint(n) == Pow2(e + 1);
    }
  }

  function TreeHash<D>(h: (D, D) -> D, s: seq<D>): D
    requires |s| > 0
    decreases |s|
  {
    if |s| == 1 then s[0]
    else
      var k := SplitPoint(|s|);
      h(TreeHash(h, s[..k]), TreeHash(h, s[k..]))
  }

  lemma {:induction false} UpSplits<D>(h: (D, D) -> D, s: seq<D>, k: nat)
    requires k <= |s| && k % 2 == 0
    ensures Up(h, s) == Up(h, s[..k]) + Up(h, s[k..])
  {
    var all, parts := Up(h, s), Up(h, s[..k]) + Up(h, s[k..]);
    forall j | 0 <= j < |all|
      ensures all[j] == parts[j]
    {
      if j >= k / 2 { assert parts[j] == Up(h, s[k..])[j - k / 2] == Parent(h, s[k..], j - k / 2); }
    }
  }

  lemma {:induction false} TreeHashUp<D>(h: (D, D) -> D, s: seq<D>)
    requires |s| >= 2
    ensures TreeHash(h, Up(h, s)) == TreeHash(h, s)
    decreases |s|
  {
    var k := SplitPoint(|s|);
    if |s| > 2 {
      var up, left, right := Up(h, s), Up(h, s[..k]), Up(h, s[k..]);
      UpSplits(h, s, k);
      assert SplitPoint(|up|) == k / 2 == |left|;
      assert up[..k / 2] == left && up[k / 2..] == right;
      TreeHashUp(h, s[..k]);
      if |s[k..]| >= 2 { TreeHashUp(h, s[k..]); } else { assert right == s[k..]; }
    } else {
      assert s[..1] == [s[0]] && s[1..] == [s[1]];
    }
  }

  /** Building bottom-up with odd promotion gives the recursive RFC 6962 tree. */
  lemma {:induction false} RootIsTreeHash<D>(h: (D, D) -> D, s: seq<D>)
    requires |s| > 0
    ensures RootOf(h, s) == TreeHash(h, s)
    decreases |s|
  {
    if |s| >= 2 {
      RootIsTreeHash(h, Up(h, s));
      TreeHashUp(h, s);
    }
  }

  /** The tree over n leaves has ceil(log2 n) + 1 levels, the last one being the root alone. */
  lemma {:induction false} LevelCount<D>(h: (D, D) -> D, s: seq<D>)
    requires |s| > 0
    ensures var top := |Levels(h, s)| - 1;
            && |s| <= Pow2(top)
            && (top > 0 ==> Pow2(top - 1) < |s|)
            && Levels(h, s)[top] == [RootOf(h, s)]
    decreases |s|
  {
    if |s| >= 2 {
      LevelCount(h, Up(h, s));
      var top := |Levels(h, s)| - 1;
      assert top >= 1 && Pow2(top) == 2 * Pow2(top - 1);
      assert top >= 2 ==> Pow2(top - 1) == 2 * Pow2(top - 2);
    }
  }

  // ----- inclusion proofs -----

  predicate Promoted(n: nat, i: nat) {
    n % 2 == 1 && i == n - 1
  }

  function Sibling(i: nat): nat {
    if i % 2 == 0 then i + 1 else i - 1
  }

  /** What `Proof` collects: the sibling at each level that has one. */
  function ProofOf<D>(h: (D, D) -> D, s: seq<D>, i: nat): seq<D>
    requires i < |s|
    decreases |s|
  {
    if |s| == 1 then []
    else (if Promoted(|s|, i) then [] else [s[Sibling(i)]]) + ProofOf(h, Up(h, s), i / 2)
  }

  /** Go's `currentIdx / 2`, which truncates toward zero. */
  function Half(i: int): int {
    if i >= 0 then i / 2 else -((-i) / 2)
  }

  function PairAt<D>(current: D, sibling: D, idx: int): (D, D) {
    if idx % 2 == 0 then (current, sibling) else (sibling, current)
  }

  function Join<D>(h: (D, D) -> D, current: D, sibling: D, idx: int): D {
    var p := PairAt(current, sibling, idx);
    h(p.0, p.1)
  }

  /** The value that `VerifyProof` compares with the expected root. */
  function Fold<D>(h: (D, D) -> D, current: D, proof: seq<D>, idx: int): D
    decreases |proof|
  {
    if proof == [] then current
    else Fold(h, Join(h, current, proof[0], idx), proof[1..], Half(idx))
  }

  /** The leaf index with the bits of the promoted levels removed. */
  function Compact(n: nat, i: nat): nat
    requires i < n
    decreases n
  {
    if n == 1 then 0
    else if Promoted(n, i) then Compact((n + 1) / 2, i / 2)
    else 2 * Compact((n + 1) / 2, i / 2) + i % 2
  }

  lemma {:induction false} CompactStep(n: nat, i: nat)
    requires i < n && n > 1 && !Promoted(n, i)
    ensures Compact(n, i) % 2 == i % 2 && Half(Compact(n, i)) == Compact((n + 1) / 2, i / 2)
  {
    var c := Compact((n + 1) / 2, i / 2);
    assert Compact(n, i) == 2 * c + i % 2;
  }

  /** A promoted node is its own parent and meets no sibling. */
  lemma {:induction false} PromotedStep<D>(h: (D, D) -> D, s: seq<D>, i: nat)
    requires i < |s| && |s| > 1 && Promoted(|s|, i)
    ensures |Up(h, s)| == (|s| + 1) / 2 > i / 2
    ensures ProofOf(h, s, i) == ProofOf(h, Up(h, s), i / 2)
    ensures Compact(|s|, i) == Compact((|s| + 1) / 2, i / 2)
    ensures Up(h, s)[i / 2] == s[i]
  {
    assert 2 * (i / 2) == i;
    assert Up(h, s)[i / 2] == Parent(h, s, i / 2);
  }

  /** An unpromoted node joins with its sibling into their common parent. */
  lemma {:induction false} JoinIsParent<D>(h: (D, D) -> D, s: seq<D>, i: nat)
    requires i < |s| && !Promoted(|s|, i)
    ensures 2 * (i / 2) + 1 < |s| && Sibling(i) < |s|
    ensures PairAt(s[i], s[Sibling(i)], i) == (s[2 * (i / 2)], s[2 * (i / 2) + 1])
    ensures Join(h, s[i], s[Sibling(i)], i) == Up(h, s)[i / 2]
  {
    var j := i / 2;
    assert i == 2 * j || i == 2 * j + 1;
    assert Up(h, s)[j] == Parent(h, s, j);
  }

  /** One level of an unpromoted path, as `VerifyProof` climbs it at the compacted index. */
  lemma {:induction false} PathStep<D>(h: (D, D) -> D, s: seq<D>, i: nat)
    requires i < |s| && |s| > 1 && !Promoted(|s|, i)
    ensures var proof, c := ProofOf(h, s, i), Compact(|s|, i);
            && 2 * (i / 2) + 1 < |s| && Sibling(i) < |s| && |Up(h, s)| == (|s| + 1) / 2 > i / 2
            && proof != [] && proof[0] == s[Sibling(i)] && proof[1..] == ProofOf(h, Up(h, s), i / 2)
            && PairAt(s[i], proof[0], c) == (s[2 * (i / 2)], s[2 * (i / 2) + 1])
            && Join(h, s[i], proof[0], c) == Up(h, s)[i / 2]
            && Half(c) == Compact((|s| + 1) / 2, i / 2)
  {
    JoinIsParent(h, s, i);
    CompactStep(|s|, i);
    var rest := ProofOf(h, Up(h, s), i / 2);
    assert ([s[Sibling(i)]] + rest)[1..] == rest;
  }

  /** A proof verifies at the compacted index, for every tree and every leaf. */
  lemma {:induction false} CompactIndexVerifies<D>(h: (D, D) -> D, s: seq<D>, i: nat)
    requires i < |s|
    ensures Fold(h, s[i], ProofOf(h, s, i), Compact(|s|, i)) == RootOf(h, s)
    decreases |s|
  {
    if |s| > 1 {
      CompactIndexVerifies(h, Up(h, s), i / 2);
      if Promoted(|s|, i) { PromotedStep(h, s, i); } else { PathStep(h, s, i); }
    }
  }

  /** No node on the path from leaf i to the root is ever promoted. */
  predicate NeverPromoted(n: nat, i: nat)
    requires i < n
    decreases n
  {
    n == 1 || (!Promoted(n, i) && NeverPromoted((n + 1) / 2, i / 2))
  }

  /** The two indices have the same k lowest bits. */
  predicate AgreeLow(a: int, b: int, k: nat)
    decreases k
  {
    k == 0 || (a % 2 == b % 2 && AgreeLow(Half(a), Half(b), k - 1))
  }

  lemma {:induction false} FoldReadsLowBits<D>(h: (D, D) -> D, current: D, proof: seq<D>, a: int, b: int)
    requires AgreeLow(a, b, |proof|)
    ensures Fold(h, current, proof, a) == Fold(h, current, proof, b)
    decreases |proof|
  {
    if proof != [] {
      FoldReadsLowBits(h, Join(h, current, proof[0], a), proof[1..], Half(a), Half(b));
    }
  }

  function ProofLength(n: nat, i: nat): nat
    requires i < n
    decreases n
  {
    if n == 1 then 0 else (if Promoted(n, i) then 0 else 1) + ProofLength((n + 1) / 2, i / 2)
  }

  lemma {:induction false} ProofLengthIsRight<D>(h: (D, D) -> D, s: seq<D>, i: nat)
    requires i < |s|
    ensures |ProofOf(h, s, i)| == ProofLength(|s|, i)
    decreases |s|
  {
    if |s| > 1 { ProofLengthIsRight(h, Up(h, s), i / 2); }
  }

  lemma {:induction false} LastLeafCompactsToOnes(n: nat)
    requires n >= 2
    ensures ProofLength(n, n - 1) >= 1 && Compact(n, n - 1) % 2 == 1
  {
    if n > 2 {
      LastLeafCompactsToOnes((n + 1) / 2);
      assert (n - 1) / 2 == (n + 1) / 2 - 1;
    } else {
      assert Compact(1, 0) == 0;
    }
  }

  /** The compacted index agrees with the leaf index exactly when nothing was promoted. */
  lemma {:induction false} CompactKeepsIndexIff(n: nat, i: nat)
    requires i < n
    ensures AgreeLow(i, Compact(n, i), ProofLength(n, i)) <==> NeverPromoted(n, i)
    decreases n
  {
    if n > 1 {
      if Promoted(n, i) {
        assert i / 2 == (n + 1) / 2 - 1;
        LastLeafCompactsToOnes((n + 1) / 2);
      } else {
        CompactKeepsIndexIff((n + 1) / 2, i / 2);
        assert Half(Compact(n, i)) == Compact((n + 1) / 2, i / 2);
      }
    }
  }

  lemma {:induction false} PowerOfTwoNeverPromotes(e: nat, i: nat)
    requires i < Pow2(e)
    ensures NeverPromoted(Pow2(e), i)
  {
    if e > 0 { PowerOfTwoNeverPromotes(e - 1, i / 2); }
  }

  // ----- when a proof is accepted at all -----

  /** Every pair that `rebuild` hashes. */
  ghost function TreePairs<D>(h: (D, D) -> D, s: seq<D>): set<(D, D)>
    requires |s| > 0
    decreases |s|
  {
    if |s| == 1 then {}
    else (set j | 0 <= j < |s| / 2 :: (s[2 * j], s[2 * j + 1])) + TreePairs(h, Up(h, s))
  }

  /** Every pair that `VerifyProof` hashes. */
  ghost function FoldPairs<D>(h: (D, D) -> D, current: D, proof: seq<D>, idx: int): set<(D, D)>
    decreases |proof|
  {
    if proof == [] then {}
    else {PairAt(current, proof[0], idx)} + FoldPairs(h, Join(h, current, proof[0], idx), proof[1..], Half(idx))
  }

  /** No two pairs of P have the same hash. */
  ghost predicate CollisionFree<D(!new)>(h: (D, D) -> D, P: set<(D, D)>) {
    forall p, q :: p in P && q in P && h(p.0, p.1) == h(q.0, q.1) ==> p == q
  }

  /** No leaf is also the hash of a pair of P. */
  ghost predicate NoLeafIsHash<D>(h: (D, D) -> D, leaves: seq<D>, P: set<(D, D)>) {
    forall i, p :: 0 <= i < |leaves| && p in P ==> leaves[i] != h(p.0, p.1)
  }

  /** The leaves are distinct, and none is also the hash of a pair of P. */
  ghost predicate LeavesApart<D>(h: (D, D) -> D, leaves: seq<D>, P: set<(D, D)>) {
    && (forall i, j :: 0 <= i < j < |leaves| ==> leaves[i] != leaves[j])
    && NoLeafIsHash(h, leaves, P)
  }

  /** A symbolic node: which leaves it covers and how they were hashed together. */
  datatype Term = Leaf(k: nat) | Node(l: Term, r: Term)

  /** Hashing of terms: two terms have equal hashes only when they are equal. */
  function Combine(l: Term, r: Term): Term {
    Node(l, r)
  }

  function First(t: Term): nat {
    match t case Leaf(k) => k case Node(l, _) => First(l)
  }

  predicate InRange(n: nat, t: Term) {
    match t case Leaf(k) => k < n case Node(l, r) => InRange(n, l) && InRange(n, r)
  }

  function Eval<D>(h: (D, D) -> D, leaves: seq<D>, t: Term): D
    requires InRange(|leaves|, t)
  {
    match t case Leaf(k) => leaves[k] case Node(l, r) => h(Eval(h, leaves, l), Eval(h, leaves, r))
  }

  /** t is over the given leaves, and evaluating it hashes only pairs of P. */
  ghost predicate Over<D>(h: (D, D) -> D, leaves: seq<D>, P: set<(D, D)>, t: Term) {
    && InRange(|leaves|, t)
    && (t.Node? ==>
        Over(h, leaves, P, t.l) && Over(h, leaves, P, t.r) && (Eval(h, leaves, t.l), Eval(h, leaves, t.r)) in P)
  }

  lemma {:induction false} EvalInjective<D(!new)>(h: (D, D) -> D, leaves: seq<D>, P: set<(D, D)>, t: Term, u: Term)
    requires CollisionFree(h, P) && LeavesApart(h, leaves, P)
    requires Over(h, leaves, P, t) && Over(h, leaves, P, u)
    requires Eval(h, leaves, t) == Eval(h, leaves, u)
    ensures t == u
  {
    match (t, u)
    case (Node(tl, tr), Node(ul, ur)) =>
      var p := (Eval(h, leaves, tl), Eval(h, leaves, tr));
      var q := (Eval(h, leaves, ul), Eval(h, leaves, ur));
      assert p in P && q in P && h(p.0, p.1) == h(q.0, q.1);
      EvalInjective(h, leaves, P, tl, ul);
      EvalInjective(h, leaves, P, tr, ur);
    case (Leaf(_), Leaf(_)) =>
    case (Leaf(_), Node(_, _)) =>
    case (Node(_, _), Leaf(_)) =>
  }

  /** ts names the nodes of level s, in order of the leaves they cover. */
  ghost predicate Names<D>(h: (D, D) -> D, leaves: seq<D>, P: set<(D, D)>, ts: seq<Term>, s: seq<D>) {
    && |ts| == |s|
    && (forall j :: 0 <= j < |s| ==> Over(h, leaves, P, ts[j]) && Eval(h, leaves, ts[j]) == s[j])
    && (forall i, j :: 0 <= i < j < |ts| ==> First(ts[i]) < First(ts[j]))
  }

  function LeafTerms(n: nat): seq<Term> {
    seq(n, j requires 0 <= j => Leaf(j))
  }

  lemma {:induction false} LeavesAreNamed<D>(h: (D, D) -> D, leaves: seq<D>, P: set<(D, D)>)
    ensures Names(h, leaves, P, LeafTerms(|leaves|), leaves)
  {
  }

  lemma {:induction false} NamesUp<D>(h: (D, D) -> D, leaves: seq<D>, P: set<(D, D)>, ts: seq<Term>, s: seq<D>)
    requires |s| > 1 && TreePairs(h, s) <= P
    requires Names(h, leaves, P, ts, s)
    ensures Names(h, leaves, P, Up(Combine, ts), Up(h, s))
  {
    var us, up := Up(Combine, ts), Up(h, s);
    forall j | 0 <= j < |up|
      ensures Over(h, leaves, P, us[j]) && Eval(h, leaves, us[j]) == up[j] && First(us[j]) == First(ts[2 * j])
    {
      if 2 * j + 1 < |s| { assert (s[2 * j], s[2 * j + 1]) in TreePairs(h, s); }
    }
  }

  lemma {:induction false} NamedNodesDiffer<D(!new)>(h: (D, D) -> D, leaves: seq<D>, P: set<(D, D)>, ts: seq<Term>,
        s: seq<D>, a: nat, b: nat)
    requires CollisionFree(h, P) && LeavesApart(h, leaves, P)
    requires Names(h, leaves, P, ts, s)
    requires a < b < |s|
    ensures s[a] != s[b]
  {
    if s[a] == s[b] {
      EvalInjective(h, leaves, P, ts[a], ts[b]);
    }
  }

  /** On the path the proof describes, the running hash never equals the sibling it meets. */
  ghost predicate NoTwin<D>(h: (D, D) -> D, current: D, proof: seq<D>, idx: int)
    decreases |proof|
  {
    proof == [] || (current != proof[0] && NoTwin(h, Join(h, current, proof[0], idx), proof[1..], Half(idx)))
  }

  lemma {:induction false} SiblingsDiffer<D(!new)>(h: (D, D) -> D, leaves: seq<D>, P: set<(D, D)>, ts: seq<Term>,
        s: seq<D>, i: nat)
    requires CollisionFree(h, P) && LeavesApart(h, leaves, P) && Names(h, leaves, P, ts, s)
    requires i < |s| && !Promoted(|s|, i)
    ensures Sibling(i) < |s| && s[i] != s[Sibling(i)]
  {
    if i % 2 == 0 { NamedNodesDiffer(h, leaves, P, ts, s, i, i + 1); }
        else { NamedNodesDiffer(h, leaves, P, ts, s, i - 1, i); }
  }

  lemma {:induction false} PathHasNoTwin<D(!new)>(h: (D, D) -> D, leaves: seq<D>, P: set<(D, D)>, ts: seq<Term>,
        s: seq<D>, i: nat)
    requires CollisionFree(h, P) && LeavesApart(h, leaves, P)
    requires i < |s| && TreePairs(h, s) <= P && Names(h, leaves, P, ts, s)
    ensures NoTwin(h, s[i], ProofOf(h, s, i), Compact(|s|, i))
    decreases |s|
  {
    if |s| > 1 {
      var up, j := Up(h, s), i / 2;
      assert NoTwin(h, up[j], ProofOf(h, up, j), Compact(|up|, j)) by {
        NamesUp(h, leaves, P, ts, s);
        PathHasNoTwin(h, leaves, P, Up(Combine, ts), up, j);
      }
      if Promoted(|s|, i) {
        PromotedStep(h, s, i);
      } else {
        SiblingsDiffer(h, leaves, P, ts, s, i);
        PathStep(h, s, i);
      }
    }
  }

  lemma {:induction false} PathPairsAreTreePairs<D>(h: (D, D) -> D, s: seq<D>, i: nat)
    requires i < |s|
    ensures FoldPairs(h, s[i], ProofOf(h, s, i), Compact(|s|, i)) <= TreePairs(h, s)
    decreases |s|
  {
    if |s| > 1 {
      PathPairsAreTreePairs(h, Up(h, s), i / 2);
      if Promoted(|s|, i) {
        PromotedStep(h, s, i);
      } else {
        PathStep(h, s, i);
        var j := i / 2;
        assert 0 <= j < |s| / 2;
        assert (s[2 * j], s[2 * j + 1]) in TreePairs(h, s);
      }
    }
  }

  /** Reading u instead of c turns another way only where the running hash meets its own twin. */
  ghost predicate TurnsAlike<D>(h: (D, D) -> D, current: D, proof: seq<D>, u: int, c: int)
    decreases |proof|
  {
    proof == []
    || ((u % 2 == c % 2 || current == proof[0])
        && TurnsAlike(h, Join(h, current, proof[0], c), proof[1..], Half(u), Half(c)))
  }

  lemma {:induction false} TurningAlikeFoldsAlike<D>(h: (D, D) -> D, current: D, proof: seq<D>, u: int, c: int)
    requires TurnsAlike(h, current, proof, u, c)
    ensures Fold(h, current, proof, u) == Fold(h, current, proof, c)
    decreases |proof|
  {
    if proof != [] {
      TurningAlikeFoldsAlike(h, Join(h, current, proof[0], c), proof[1..], Half(u), Half(c));
    }
  }

  /** Two ways to the same root over one proof start at the same value and turn alike. */
  lemma {:induction false} FoldUnique<D(!new)>(h: (D, D) -> D, P: set<(D, D)>, proof: seq<D>, x: D, u: int, y: D,
        c: int)
    requires CollisionFree(h, P)
    requires FoldPairs(h, x, proof, u) <= P && FoldPairs(h, y, proof, c) <= P
    requires Fold(h, x, proof, u) == Fold(h, y, proof, c)
    ensures x == y && TurnsAlike(h, y, proof, u, c)
    decreases |proof|
  {
    if proof != [] {
      FoldUnique(h, P, proof[1..], Join(h, x, proof[0], u), Half(u), Join(h, y, proof[0], c), Half(c));
      var p, q := PairAt(x, proof[0], u), PairAt(y, proof[0], c);
      assert p in P && q in P && h(p.0, p.1) == h(q.0, q.1);
    }
  }

  lemma {:induction false} WithoutTwinsBitsDecide<D>(h: (D, D) -> D, current: D, proof: seq<D>, u: int, c: int)
    requires NoTwin(h, current, proof, c)
    ensures TurnsAlike(h, current, proof, u, c) <==> AgreeLow(u, c, |proof|)
    decreases |proof|
  {
    if proof != [] {
      WithoutTwinsBitsDecide(h, Join(h, current, proof[0], c), proof[1..], Half(u), Half(c));
    }
  }

  /**
   The exact acceptance condition, for every tree. Unless two of the pairs hashed while building the tree and checking
   the proof collide, `Proof(i)` is accepted for the value x at index u exactly when x is leaf i and u turns like the
   compacted index wherever the two siblings differ. A changed leaf is never accepted.
   */
  lemma {:induction false} AcceptsExactly<D(!new)>(h: (D, D) -> D, leaves: seq<D>, i: nat, x: D, u: int)
    requires i < |leaves|
    requires CollisionFree(h, TreePairs(h, leaves) + FoldPairs(h, x, ProofOf(h, leaves, i), u))
    ensures Fold(h, x, ProofOf(h, leaves, i), u) == RootOf(h, leaves)
       <==> x == leaves[i] && TurnsAlike(h, leaves[i], ProofOf(h, leaves, i), u, Compact(|leaves|, i))
  {
    var proof, c := ProofOf(h, leaves, i), Compact(|leaves|, i);
    CompactIndexVerifies(h, leaves, i);
    if x == leaves[i] && TurnsAlike(h, leaves[i], proof, u, c) {
      TurningAlikeFoldsAlike(h, x, proof, u, c);
    }
    if Fold(h, x, proof, u) == RootOf(h, leaves) {
      PathPairsAreTreePairs(h, leaves, i);
      FoldUnique(h, TreePairs(h, leaves) + FoldPairs(h, x, proof, u), proof, x, u, leaves[i], c);
    }
  }

  /** When moreover the leaves are distinct and none is the hash of a pair, the bits that are read decide. */
  lemma {:induction false} DistinctLeavesFixIndex<D(!new)>(h: (D, D) -> D, leaves: seq<D>, i: nat, x: D, u: int)
    requires i < |leaves|
    requires var P := TreePairs(h, leaves) + FoldPairs(h, x, ProofOf(h, leaves, i), u);
             CollisionFree(h, P) && LeavesApart(h, leaves, P)
    ensures Fold(h, x, ProofOf(h, leaves, i), u) == RootOf(h, leaves)
       <==> x == leaves[i] && AgreeLow(u, Compact(|leaves|, i), |ProofOf(h, leaves, i)|)
  {
    var proof := ProofOf(h, leaves, i);
    var P := TreePairs(h, leaves) + FoldPairs(h, x, proof, u);
    AcceptsExactly(h, leaves, i, x, u);
    LeavesAreNamed(h, leaves, P);
    PathHasNoTwin(h, leaves, P, LeafTerms(|leaves|), leaves, i);
    WithoutTwinsBitsDecide(h, leaves[i], proof, u, Compact(|leaves|, i));
  }

  /** Two equal leaves: the proof of the first is also accepted at the index of the second. */
  lemma {:induction false} TwinLeavesSwap()
    ensures var leaves := [Leaf(0), Leaf(0)];
            && Fold(Combine, leaves[0], ProofOf(Combine, leaves, 0), 1) == RootOf(Combine, leaves)
            && !AgreeLow(1, Compact(2, 0), |ProofOf(Combine, leaves, 0)|)
  {
    var leaves := [Leaf(0), Leaf(0)];
    assert Up(Combine, leaves) == [Node(Leaf(0), Leaf(0))];
    assert ProofOf(Combine, leaves, 0) == [Leaf(0)] + ProofOf(Combine, Up(Combine, leaves), 0) == [Leaf(0)];
    assert RootOf(Combine, Up(Combine, leaves)) == Node(Leaf(0), Leaf(0));
    assert Compact(1, 0) == 0;
  }

  /** A proof checked at the leaf's own index is accepted whenever no ancestor is promoted. */
  lemma {:induction false} OwnIndexVerifies<D>(h: (D, D) -> D, leaves: seq<D>, i: nat)
    requires i < |leaves| && NeverPromoted(|leaves|, i)
    ensures Fold(h, leaves[i], ProofOf(h, leaves, i), i) == RootOf(h, leaves)
  {
    CompactIndexVerifies(h, leaves, i);
    CompactKeepsIndexIff(|leaves|, i);
    ProofLengthIsRight(h, leaves, i);
    FoldReadsLowBits(h, leaves[i], ProofOf(h, leaves, i), i, Compact(|leaves|, i));
  }

  // ----- promoted nodes are recognised by their left spine -----

  /** How many nodes lie on the way from the term down its left side. */
  function LeftDepth(t: Term): nat {
    match t case Leaf(_) => 0 case Node(l, _) => LeftDepth(l) + 1
  }

  lemma {:induction false} EqualHashesEqualDepths<D(!new)>(h: (D, D) -> D, leaves: seq<D>, P: set<(D, D)>, t: Term,
        u: Term)
    requires CollisionFree(h, P) && NoLeafIsHash(h, leaves, P)
    requires Over(h, leaves, P, t) && Over(h, leaves, P, u) && Eval(h, leaves, t) == Eval(h, leaves, u)
    ensures LeftDepth(t) == LeftDepth(u)
  {
    match (t, u)
    case (Node(tl, tr), Node(ul, ur)) =>
      var p := (Eval(h, leaves, tl), Eval(h, leaves, tr));
      var q := (Eval(h, leaves, ul), Eval(h, leaves, ur));
      assert p in P && q in P && h(p.0, p.1) == h(q.0, q.1);
      EqualHashesEqualDepths(h, leaves, P, tl, ul);
    case (Leaf(_), Leaf(_)) =>
    case (Leaf(_), Node(_, _)) =>
    case (Node(_, _), Leaf(_)) =>
  }

  /** On a level, every node before the last has the full left depth, and the last has at most that. */
  ghost predicate Spines(ts: seq<Term>, level: nat) {
    && (forall j :: 0 <= j < |ts| - 1 ==> LeftDepth(ts[j]) == level)
    && (ts != [] ==> LeftDepth(ts[|ts| - 1]) <= level)
  }

  lemma {:induction false} SpinesUp(ts: seq<Term>, level: nat)
    requires Spines(ts, level) && |ts| > 1
    ensures Spines(Up(Combine, ts), level + 1)
    ensures |ts| % 2 == 1 ==> Up(Combine, ts)[|Up(Combine, ts)| - 1] == ts[|ts| - 1]
  {
    var us := Up(Combine, ts);
    forall j | 0 <= j < |us|
      ensures us[j] == (if 2 * j + 1 < |ts| then Node(ts[2 * j], ts[2 * j + 1]) else ts[2 * j])
    {
      assert us[j] == Parent(Combine, ts, j);
    }
  }

  /**
   A promoted last node at an even index: where it meets its first sibling, the sibling has the greater left depth,
   and the even index hashes the two the wrong way round.
   */
  lemma {:induction false} PromotedIsRefused<D(!new)>(h: (D, D) -> D, leaves: seq<D>, P: set<(D, D)>, ts: seq<Term>,
        s: seq<D>, level: nat, u: int)
    requires CollisionFree(h, P) && NoLeafIsHash(h, leaves, P) && Names(h, leaves, P, ts, s) && Spines(ts, level)
    requires |s| > 1 && TreePairs(h, s) <= P && LeftDepth(ts[|s| - 1]) < level && u % 2 == 0
    requires FoldPairs(h, s[|s| - 1], ProofOf(h, s, |s| - 1), u) <= P
    ensures Fold(h, s[|s| - 1], ProofOf(h, s, |s| - 1), u) != RootOf(h, s)
    decreases |s|
  {
    var i := |s| - 1;
    if Promoted(|s|, i) {
      PromotedStep(h, s, i);
      NamesUp(h, leaves, P, ts, s);
      SpinesUp(ts, level);
      assert i / 2 == |Up(h, s)| - 1;
      PromotedIsRefused(h, leaves, P, Up(Combine, ts), Up(h, s), level + 1, u);
    } else {
      LastMeetsDeeper(h, leaves, P, ts, s, level);
      WrongTurnIsRefused(h, P, s, u);
    }
  }

  lemma {:induction false} WrongTurnIsRefused<D(!new)>(h: (D, D) -> D, P: set<(D, D)>, s: seq<D>, u: int)
    requires CollisionFree(h, P) && |s| > 1 && |s| % 2 == 0 && TreePairs(h, s) <= P && u % 2 == 0
    requires var proof := ProofOf(h, s, |s| - 1);
             proof != [] && s[|s| - 1] != proof[0] && FoldPairs(h, s[|s| - 1], proof, u) <= P
    ensures Fold(h, s[|s| - 1], ProofOf(h, s, |s| - 1), u) != RootOf(h, s)
  {
    var i := |s| - 1;
    var proof, c := ProofOf(h, s, i), Compact(|s|, i);
    LastLeafCompactsToOnes(|s|);
    CompactIndexVerifies(h, s, i);
    PathPairsAreTreePairs(h, s, i);
    if Fold(h, s[i], proof, u) == Fold(h, s[i], proof, c) { FoldUnique(h, P, proof, s[i], u, s[i], c); }
  }

  lemma {:induction false} LastMeetsDeeper<D(!new)>(h: (D, D) -> D, leaves: seq<D>, P: set<(D, D)>, ts: seq<Term>,
        s: seq<D>, level: nat)
    requires CollisionFree(h, P) && NoLeafIsHash(h, leaves, P) && Names(h, leaves, P, ts, s) && Spines(ts, level)
    requires |s| > 1 && |s| % 2 == 0 && LeftDepth(ts[|s| - 1]) < level
    ensures ProofOf(h, s, |s| - 1) != [] && s[|s| - 1] != ProofOf(h, s, |s| - 1)[0]
  {
    var i := |s| - 1;
    assert Sibling(i) == i - 1 && ProofOf(h, s, i)[0] == s[i - 1];
    if s[i] == s[i - 1] { EqualHashesEqualDepths(h, leaves, P, ts[i], ts[i - 1]); }
  }

  lemma {:induction false} OwnIndexNeedsNoPromotion<D(!new)>(h: (D, D) -> D, leaves: seq<D>, P: set<(D, D)>,
        ts: seq<Term>, s: seq<D>, level: nat, i: nat)
    requires CollisionFree(h, P) && NoLeafIsHash(h, leaves, P) && Names(h, leaves, P, ts, s) && Spines(ts, level)
    requires i < |s| && TreePairs(h, s) <= P && FoldPairs(h, s[i], ProofOf(h, s, i), i) <= P
    requires Fold(h, s[i], ProofOf(h, s, i), i) == RootOf(h, s)
    ensures NeverPromoted(|s|, i)
    decreases |s|
  {
    if |s| > 1 {
      NamesUp(h, leaves, P, ts, s);
      SpinesUp(ts, level);
      if Promoted(|s|, i) {
        PromotedStep(h, s, i);
        assert i / 2 == |Up(h, s)| - 1 && LeftDepth(ts[i]) < level + 1;
        PromotedIsRefused(h, leaves, P, Up(Combine, ts), Up(h, s), level + 1, i);
      } else {
        OwnStep(h, s, i);
        OwnIndexNeedsNoPromotion(h, leaves, P, Up(Combine, ts), Up(h, s), level + 1, i / 2);
      }
    }
  }

  lemma {:induction false} OwnStep<D>(h: (D, D) -> D, s: seq<D>, i: nat)
    requires i < |s| && |s| > 1 && !Promoted(|s|, i)
    ensures i / 2 < |Up(h, s)|
    ensures Fold(h, s[i], ProofOf(h, s, i), i) == Fold(h, Up(h, s)[i / 2], ProofOf(h, Up(h, s), i / 2), i / 2)
    ensures FoldPairs(h, Up(h, s)[i / 2], ProofOf(h, Up(h, s), i / 2), i / 2) <= FoldPairs(h, s[i], ProofOf(h, s, i), i)
  {
    PathStep(h, s, i);
    CompactStep(|s|, i);
    assert Join(h, s[i], ProofOf(h, s, i)[0], i) == Up(h, s)[i / 2];
  }

  /** ... and only then, unless hashed pairs collide or a leaf is the hash of one. Leaves may repeat. */
  lemma {:induction false} OwnIndexVerifiesIff<D(!new)>(h: (D, D) -> D, leaves: seq<D>, i: nat)
    requires i < |leaves|
    requires var P := TreePairs(h, leaves) + FoldPairs(h, leaves[i], ProofOf(h, leaves, i), i);
             CollisionFree(h, P) && NoLeafIsHash(h, leaves, P)
    ensures Fold(h, leaves[i], ProofOf(h, leaves, i), i) == RootOf(h, leaves) <==> NeverPromoted(|leaves|, i)
  {
    var P := TreePairs(h, leaves) + FoldPairs(h, leaves[i], ProofOf(h, leaves, i), i);
    if NeverPromoted(|leaves|, i) {
      OwnIndexVerifies(h, leaves, i);
    } else if Fold(h, leaves[i], ProofOf(h, leaves, i), i) == RootOf(h, leaves) {
      LeavesAreNamed(h, leaves, P);
      OwnIndexNeedsNoPromotion(h, leaves, P, LeafTerms(|leaves|), leaves, 0, i);
    }
  }

  /** A leaf that is itself the hash of a pair can pass under its own index although it is promoted. */
  lemma {:induction false} HashLeafPasses()
    ensures var leaves := [Leaf(0), Leaf(1), Node(Leaf(0), Leaf(1))];
            Fold(Combine, leaves[2], ProofOf(Combine, leaves, 2), 2) == RootOf(Combine, leaves) && !NeverPromoted(3, 2)
  {
    var a := Node(Leaf(0), Leaf(1));
    var leaves := [Leaf(0), Leaf(1), a];
    var up := Up(Combine, leaves);
    assert up == [a, a];
    assert Up(Combine, up) == [Node(a, a)];
    assert RootOf(Combine, up) == Node(a, a);
    assert ProofOf(Combine, up, 1) == [up[0]] + ProofOf(Combine, Up(Combine, up), 0) == [up[0]];
    assert ProofOf(Combine, leaves, 2) == [a];
  }

  // ----- the root binds the leaves -----

  lemma {:induction false} UpBinds<D(!new)>(h: (D, D) -> D, P: set<(D, D)>, s: seq<D>, t: seq<D>)
    requires |s| == |t| > 1 && CollisionFree(h, P) && TreePairs(h, s) <= P && TreePairs(h, t) <= P
    requires Up(h, s) == Up(h, t)
    ensures s == t
  {
    forall i | 0 <= i < |s| ensures s[i] == t[i] {
      var j := i / 2;
      assert Up(h, s)[j] == Parent(h, s, j) && Up(h, t)[j] == Parent(h, t, j);
      if 2 * j + 1 < |s| {
        assert (s[2 * j], s[2 * j + 1]) in TreePairs(h, s) && (t[2 * j], t[2 * j + 1]) in TreePairs(h, t);
      }
    }
  }

  /** Trees of one size with the same root have the same leaves, unless two of the hashed pairs collide. */
  lemma {:induction false} RootBindsLeaves<D(!new)>(h: (D, D) -> D, s: seq<D>, t: seq<D>)
    requires |s| == |t| > 0 && CollisionFree(h, TreePairs(h, s) + TreePairs(h, t))
    requires RootOf(h, s) == RootOf(h, t)
    ensures s == t
    decreases |s|
  {
    if |s| > 1 {
      assert TreePairs(h, Up(h, s)) + TreePairs(h, Up(h, t)) <= TreePairs(h, s) + TreePairs(h, t);
      RootBindsLeaves(h, Up(h, s), Up(h, t));
      UpBinds(h, TreePairs(h, s) + TreePairs(h, t), s, t);
    }
  }

  /** Across sizes it does not: without prefix bytes, a leaf can stand for the hash of two. */
  lemma {:induction false} SizesShareRoots()
    ensures RootOf(Combine, [Leaf(0), Leaf(1)]) == RootOf(Combine, [Node(Leaf(0), Leaf(1))])
  {
    var pair := [Leaf(0), Leaf(1)];
    assert Up(Combine, pair) == [Node(Leaf(0), Leaf(1))];
  }

  /** Three leaves, index 2: the genuine proof of the promoted leaf is refused at its own index. */
  lemma {:induction false} ThirdOfThreeIsRefused()
    ensures var leaves := [Leaf(0), Leaf(1), Leaf(2)];
            && Fold(Combine, leaves[2], ProofOf(Combine, leaves, 2), 2) != RootOf(Combine, leaves)
            && Fold(Combine, leaves[2], ProofOf(Combine, leaves, 2), 1) == RootOf(Combine, leaves)
  {
    var leaves := [Leaf(0), Leaf(1), Leaf(2)];
    var up := Up(Combine, leaves);
    assert up == [Node(Leaf(0), Leaf(1)), Leaf(2)];
    assert Up(Combine, up) == [Node(Node(Leaf(0), Leaf(1)), Leaf(2))];
    assert RootOf(Combine, up) == Node(Node(Leaf(0), Leaf(1)), Leaf(2));
    assert ProofOf(Combine, up, 1) == [up[0]] + ProofOf(Combine, Up(Combine, up), 0) == [up[0]];
    assert ProofOf(Combine, leaves, 2) == [up[0]];
  }

  /** `VerifyProof`: the root may be absent, as the nil root of an empty tree is. */
  method VerifyProof<D(==)>(h: (D, D) -> D, leaf: D, proof: seq<D>, idx: int, expectedRoot: Option<D>)
    returns (ok: bool)
    ensures ok <==> expectedRoot == Some(Fold(h, leaf, proof, idx))
  {
    var current, currentIdx := leaf, idx;
    for k := 0 to |proof|
      invariant Fold(h, leaf, proof, idx) == Fold(h, current, proof[k..], currentIdx)
    {
      assert proof[k..][1..] == proof[k + 1..];
      current := Join(h, current, proof[k], currentIdx);
      currentIdx := Half(currentIdx);
    }
    ok := expectedRoot == Some(current);
  }

  lemma {:induction false} NextRow<D>(h: (D, D) -> D, nodes: seq<seq<D>>, level: nat)
    requires level < |nodes| - 1 && |nodes[level]| > 0 && nodes[level..] == Levels(h, nodes[level])
    ensures |nodes[level]| > 1 && nodes[level + 1] == Up(h, nodes[level])
    ensures nodes[level + 1..] == Levels(h, nodes[level + 1])
  {
    assert |nodes[level..]| > 1;
    assert nodes[level..][1..] == nodes[level + 1..];
    assert nodes[level..][1] == nodes[level + 1];
  }

  lemma {:induction false} ProofUnfolds<D>(h: (D, D) -> D, s: seq<D>, i: nat)
    requires i < |s| && |s| > 1
    ensures |Up(h, s)| > i / 2
    ensures ProofOf(h, s, i) == (if Sibling(i) < |s| then [s[Sibling(i)]] else []) + ProofOf(h, Up(h, s), i / 2)
  {
  }

  /** The proof so far, continued from index i of the given level, is the whole proof. */
  ghost predicate Climbing<D>(h: (D, D) -> D, nodes: seq<seq<D>>, level: nat, i: nat, proof: seq<D>, whole: seq<D>) {
    && level < |nodes| && i < |nodes[level]| && nodes[level..] == Levels(h, nodes[level])
    && proof + ProofOf(h, nodes[level], i) == whole
  }

  lemma {:induction false} ClimbOne<D>(h: (D, D) -> D, nodes: seq<seq<D>>, level: nat, i: nat, proof: seq<D>,
        whole: seq<D>)
    requires Climbing(h, nodes, level, i, proof, whole) && level < |nodes| - 1
    ensures var row, k := nodes[level], Sibling(i);
            && (k < |row| ==> Climbing(h, nodes, level + 1, i / 2, proof + [row[k]], whole))
            && (k >= |row| ==> Climbing(h, nodes, level + 1, i / 2, proof, whole))
  {
    NextRow(h, nodes, level);
    ProofUnfolds(h, nodes[level], i);
  }

  lemma {:induction false} ClimbEnds<D>(h: (D, D) -> D, nodes: seq<seq<D>>, level: nat, i: nat, proof: seq<D>,
        whole: seq<D>)
    requires Climbing(h, nodes, level, i, proof, whole) && level == |nodes| - 1
    ensures proof == whole
  {
    assert |nodes[level..]| == 1;
    assert ProofOf(h, nodes[level], i) == [];
  }

  /** The loop of `Proof`. */
  method CollectSiblings<D>(ghost h: (D, D) -> D, nodes: seq<seq<D>>, idx: nat) returns (proof: seq<D>)
    requires |nodes| > 0 && idx < |nodes[0]| && nodes == Levels(h, nodes[0])
    ensures proof == ProofOf(h, nodes[0], idx)
  {
    proof := [];
    var currentIdx: nat, level: nat := idx, 0;
    ghost var whole := ProofOf(h, nodes[0], idx);
    assert nodes[0..] == nodes;
    while level < |nodes| - 1
      invariant Climbing(h, nodes, level, currentIdx, proof, whole)
    {
      var row := nodes[level];
      ClimbOne(h, nodes, level, currentIdx, proof, whole);
      var siblingIdx := if currentIdx % 2 == 0 then currentIdx + 1 else currentIdx - 1;
      if siblingIdx < |row| {
        proof := proof + [row[siblingIdx]];
      }
      currentIdx := currentIdx / 2;
      level := level + 1;
    }
    ClimbEnds(h, nodes, level, currentIdx, proof, whole);
  }

  class MerkleTree<D(==)> {
    const h: (D, D) -> D
    var leaves: seq<D>
    var nodes: seq<seq<D>>
    var rootHash: Option<D>

    /** The stored levels and root are those of the stored leaves. */
    ghost predicate Valid()
      reads this
    {
      if leaves == [] then nodes == [] && rootHash == None
      else nodes == Levels(h, leaves) && rootHash == Some(RootOf(h, leaves))
    }

    constructor (h: (D, D) -> D)
      ensures Valid() && leaves == [] && this.h == h
    {
      this.h := h;
      leaves, nodes, rootHash := [], [], None;
    }

    /** Appends a leaf; the root is then the RFC 6962 tree hash of every leaf added so far. */
    method AddLeaf(hash: D)
      requires Valid()
      modifies this
      ensures Valid() && leaves == old(leaves) + [hash]
      ensures rootHash == Some(TreeHash(h, leaves))
    {
      leaves := leaves + [hash];
      Rebuild();
      RootIsTreeHash(h, leaves);
    }

    method NextLevel(current: seq<D>) returns (next: seq<D>)
      ensures next == Up(h, current)
    {
      next := [];
      var i := 0;
      while i < |current|
        invariant 0 <= i <= |current| + 1 && i == 2 * |next|
        invariant next == Up(h, current)[..|next|]
      {
        assert Up(h, current)[|next|] == Parent(h, current, |next|);
        if i + 1 < |current| {
          next := next + [h(current[i], current[i + 1])];
        } else {
          next := next + [current[i]];
        }
        i := i + 2;
      }
    }

    method Rebuild()
      modifies this`nodes, this`rootHash
      ensures Valid()
    {
      if |leaves| == 0 {
        rootHash, nodes := None, [];
        return;
      }
      var current := leaves;
      nodes := [current];
      while |current| > 1
        invariant |current| > 0 && |nodes| > 0 && nodes[|nodes| - 1] == current
        invariant nodes[..|nodes| - 1] + Levels(h, current) == Levels(h, leaves)
        invariant RootOf(h, current) == RootOf(h, leaves)
        decreases |current|
      {
        var next := NextLevel(current);
        nodes := nodes + [next];
        current := next;
      }
      assert Levels(h, current) == [current];
      assert nodes == nodes[..|nodes| - 1] + [current];
      rootHash := Some(current[0]);
    }

    method Root() returns (r: Option<D>)
      requires Valid()
      ensures r == if leaves == [] then None else Some(TreeHash(h, leaves))
    {
      if leaves != [] { RootIsTreeHash(h, leaves); }
      r := rootHash;
    }

    method LeafCount() returns (n: nat)
      ensures n == |leaves|
    {
      n := |leaves|;
    }

    /** Sibling hashes of leaf idx, or an error when there is no such leaf. */
    method Proof(idx: int) returns (r: Result<seq<D>, string>)
      requires Valid()
      ensures r.Ok? <==> 0 <= idx < |leaves|
      ensures r.Ok? ==> r.value == ProofOf(h, leaves, idx)
      ensures r.Ok? ==> Some(Fold(h, leaves[idx], r.value, Compact(|leaves|, idx))) == rootHash
    {
      if idx < 0 || idx >= |leaves| {
        return Err("leaf index out of range");
      }
      var proof := CollectSiblings(h, nodes, idx);
      CompactIndexVerifies(h, leaves, idx);
      return Ok(proof);
    }
  }
}
