/**
 Which node and reverse keys a time purge of pkg/purge/purge.go deletes, told from the bytes of the stored keys.

 The purge cuts an edge key at its first three colons, so a source that itself holds a colon is cut inside, and the
 reverse key it deletes is built from the cutoff.
 */
module PurgedNodes {
  import opened Common
  import opened Lex
  import opened Numerals
  import opened EdgeKeys
  import opened Purge

  /** The key is cut into "e", stamp, a and b. */
  predicate CutInto(k: string, stamp: string, a: string, b: string) {
    k == "e:" + stamp + ":" + a + ":" + b && ':' !in stamp && ':' !in a
  }

  lemma {:induction false} HeadHasNoColon(s: string)
    requires CutColon(s).Some?
    ensures ':' !in CutColon(s).value.0
    decreases |s|
  {
    if s[0] != ':' { HeadHasNoColon(s[1..]); }
  }

  lemma {:induction false} CutFields(stamp: string, a: string, b: string)
    requires ':' !in stamp && ':' !in a
    ensures Fields("e:" + stamp + ":" + a + ":" + b) == Some((a, b))
  {
    var k, pair := "e:" + stamp + ":" + a + ":" + b, a + ":" + b;
    assert k == "e" + ":" + (stamp + ":" + pair);
    CutAtFirstColon("e", stamp + ":" + pair);
    CutAtFirstColon(stamp, pair);
    CutAtFirstColon(a, b);
  }

  lemma {:induction false} FieldsCut(k: string) returns (stamp: string)
    requires "e:" <= k && Fields(k).Some?
    ensures CutInto(k, stamp, Fields(k).value.0, Fields(k).value.1)
  {
    var (a, rest) := CutColon(k).value;
    var (s, pair) := CutColon(rest).value;
    assert k == "e" + ":" + k[2..];
    CutAtFirstColon("e", k[2..]);
    PartsRejoin(rest);
    stamp := s;
  }

  lemma {:induction false} PartsRejoin(rest: string)
    requires CutColon(rest).Some? && CutColon(CutColon(rest).value.1).Some?
    ensures var (stamp, pair) := CutColon(rest).value; var (a, b) := CutColon(pair).value;
            CutInto("e:" + rest, stamp, a, b)
  {
    var pair := CutColon(rest).value.1;
    CutRejoins(rest);
    CutRejoins(pair);
    HeadHasNoColon(rest);
    HeadHasNoColon(pair);
  }

  /** A stored edge key below the cutoff, cut into stamp, a and b. */
  ghost predicate OldKey(keys: set<string>, cutoff: nat, k: string, stamp: string, a: string, b: string) {
    k in keys && Less(k, "e:" + Stamp(cutoff)) && CutInto(k, stamp, a, b)
  }

  lemma {:induction false} OldIsDoomed(keys: set<string>, cutoff: nat, k: string, stamp: string, a: string, b: string)
    requires OldKey(keys, cutoff, k, stamp, a, b)
    ensures k in Doomed(keys, cutoff) && Fields(k) == Some((a, b))
  {
    CutFields(stamp, a, b);
    assert k == "e:" + (stamp + ":" + a + ":" + b);
  }

  lemma {:induction false} DoomedIsOld(keys: set<string>, cutoff: nat, k: string) returns (stamp: string)
    requires k in Doomed(keys, cutoff)
    ensures OldKey(keys, cutoff, k, stamp, Fields(k).value.0, Fields(k).value.1)
  {
    stamp := FieldsCut(k);
  }

  // ----- nodes -----

  /** Some edge key holds ":" and the ID, or some key starts with "r:" and the ID. */
  ghost predicate Mentions(keys: set<string>, id: string) {
    || (exists k, i :: k in keys && "e:" <= k && 0 <= i <= |k| && ":" + id <= k[i..])
    || (exists k :: k in keys && "r:" + id <= k)
  }

  ghost predicate PartOfOld(keys: set<string>, cutoff: nat, id: string) {
    exists k, stamp, a, b :: OldKey(keys, cutoff, k, stamp, a, b) && (id == a || id == b)
  }

  lemma {:induction false} CandidateIff(keys: set<string>, cutoff: nat, id: string)
    ensures id in Candidates(Doomed(keys, cutoff)) <==> PartOfOld(keys, cutoff, id)
  {
    if id in Candidates(Doomed(keys, cutoff)) {
      var k :| k in Doomed(keys, cutoff) && id in Named(k);
      var stamp := DoomedIsOld(keys, cutoff, k);
      assert OldKey(keys, cutoff, k, stamp, Fields(k).value.0, Fields(k).value.1);
    }
    if PartOfOld(keys, cutoff, id) {
      var k, stamp, a, b :| OldKey(keys, cutoff, k, stamp, a, b) && (id == a || id == b);
      OldIsDoomed(keys, cutoff, k, stamp, a, b);
      assert id in Named(k);
    }
  }

  lemma {:induction false} MentionsIff(keys: set<string>, id: string)
    ensures Mentions(keys, id) <==> Referenced(keys, id)
  {
    if k :| k in keys && "e:" <= k && Contains(k, ":" + id) {
      var i :| 0 <= i <= |k| && ":" + id <= k[i..];
    }
    if k, i :| k in keys && "e:" <= k && 0 <= i <= |k| && ":" + id <= k[i..] { assert Contains(k, ":" + id); }
  }

  /**
   A stored node is deleted exactly when it is a part of some edge key below the cutoff and no key that the purge
   leaves mentions it.
   */
  lemma {:induction false} NodeGoneIff(keys: set<string>, cutoff: nat, id: string)
    requires "n:" + id in keys
    ensures "n:" + id !in Purged(keys, cutoff) <==> PartOfOld(keys, cutoff, id) && !Mentions(Purged(keys, cutoff), id)
  {
    var doomed, left := Doomed(keys, cutoff), WithoutEdges(keys, cutoff);
    var orphans := Orphans(Candidates(doomed), left);
    CandidateIff(keys, cutoff, id);
    MentionsIff(Purged(keys, cutoff), id);
    OnlyNodeKeysGone(left, orphans, id);
    NodeKeyOf(id, orphans);
    NodeKeyLeft(keys, cutoff, id);
  }

  lemma {:induction false} NodeKeyOf(id: string, ids: set<string>)
    ensures "n:" + id in NodeKeys(ids) <==> id in ids
  {
    forall x: string | "n:" + x == "n:" + id ensures x == id { assert x == ("n:" + x)[2..] == ("n:" + id)[2..] == id; }
  }

  lemma {:induction false} NodeKeyLeft(keys: set<string>, cutoff: nat, id: string)
    requires "n:" + id in keys
    ensures "n:" + id in WithoutEdges(keys, cutoff)
  {
    var n, doomed := "n:" + id, Doomed(keys, cutoff);
    assert n[0] == 'n';
    forall d | d in doomed ensures ReverseOf(d, cutoff) != n { assert ReverseOf(d, cutoff)[0] == 'r'; }
  }

  /** Both parts of an edge key below the cutoff lose their node keys when nothing that is left mentions them. */
  lemma {:induction false} BothPartsGo(keys: set<string>, cutoff: nat, k: string, stamp: string, a: string, b: string)
    requires OldKey(keys, cutoff, k, stamp, a, b)
    ensures !Mentions(Purged(keys, cutoff), a) ==> "n:" + a !in Purged(keys, cutoff)
    ensures !Mentions(Purged(keys, cutoff), b) ==> "n:" + b !in Purged(keys, cutoff)
  {
    if "n:" + a in keys { NodeGoneIff(keys, cutoff, a); }
    if "n:" + b in keys { NodeGoneIff(keys, cutoff, b); }
  }

  /** The edge keys are printed from node IDs. */
  ghost predicate NodeIDSources(keys: set<string>) {
    forall k :: k in keys && "e:" <= k ==> exists e: Edge :: FromNodeID(k, e)
  }

  predicate FromNodeID(k: string, e: Edge) {
    e.ts < UINT64 && IsNodeID(e.source) && k == EdgeKey(e.ts, e.source, e.target)
  }

  lemma {:induction false} NodeIDIsCut(e: Edge)
    requires e.ts < UINT64 && IsNodeID(e.source)
    ensures Fields(EdgeKey(e.ts, e.source, e.target)) == Some((e.source[..1], e.source[2..] + ":" + e.target))
  {
    StampValue(e.ts);
    NoColonInDigits(Stamp(e.ts));
    CutAfterLetter(Stamp(e.ts), e.source, e.target);
  }

  lemma {:induction false} NoColonInDigits(d: string)
    requires AllDigits(d)
    ensures ':' !in d
  {
  }

  lemma {:induction false} CutAfterLetter(d: string, s: string, t: string)
    requires ':' !in d && |s| >= 2 && s[0] != ':' && s[1] == ':'
    ensures Fields("e:" + d + ":" + s + ":" + t) == Some((s[..1], s[2..] + ":" + t))
  {
    var a, b := s[..1], s[2..] + ":" + t;
    assert "e:" + d + ":" + s + ":" + t == "e:" + d + ":" + a + ":" + b by { assert s == a + ":" + s[2..]; }
    CutFields(d, a, b);
  }

  /**
   Node IDs hold a colon, so the purge never has one as a candidate: on a store of well-formed edge keys no node with a
   well-formed ID is ever deleted, orphaned or not.
   */
  lemma {:induction false} NodeIDsStay(keys: set<string>, cutoff: nat, id: string)
    requires NodeIDSources(keys) && IsNodeID(id) && "n:" + id in keys
    ensures "n:" + id in Purged(keys, cutoff)
  {
    NodeGoneIff(keys, cutoff, id);
    if PartOfOld(keys, cutoff, id) {
      var k, stamp, a, b :| OldKey(keys, cutoff, k, stamp, a, b) && (id == a || id == b);
      OldIsDoomed(keys, cutoff, k, stamp, a, b);
      var e: Edge :| FromNodeID(k, e);
      NodeIDIsCut(e);
      RestIsNoNodeID(e.source, e.target);
    }
  }

  lemma {:induction false} RestIsNoNodeID(s: string, t: string)
    requires IsNodeID(s)
    ensures !IsNodeID(s[..1]) && !IsNodeID(s[2..] + ":" + t)
  {
    if |s| > 2 { assert Continues(s, 2); }
  }

  /** For every timestamp before the cutoff, a store whose only edge is purged and whose orphan stays. */
  lemma {:induction false} OrphanStays(ts: nat, cutoff: nat)
    requires ts < cutoff < UINT64
    ensures var k, keys := EdgeKey(ts, "p:1", "f:2"), {EdgeKey(ts, "p:1", "f:2"), "n:p:1"};
            k !in Purged(keys, cutoff) && "n:p:1" in Purged(keys, cutoff) && !Mentions(Purged(keys, cutoff), "p:1")
  {
    var k := EdgeKey(ts, "p:1", "f:2");
    var keys := {k, "n:p:1"};
    LeavesExactlyNewEdges(keys, Edge("p:1", "f:2", ts), cutoff);
    assert NodeIDSources(keys) by { assert FromNodeID(k, Edge("p:1", "f:2", ts)); }
    assert "n:" + "p:1" == "n:p:1";
    NodeIDsStay(keys, cutoff, "p:1");
    forall x | x in Purged(keys, cutoff) ensures x == "n:p:1" { }
  }

  // ----- reverse keys -----

  /** r is the reverse key that the purge builds, from the cutoff and the parts of an old key. */
  ghost predicate BuiltFromOld(keys: set<string>, cutoff: nat, r: string) {
    exists k, stamp, a, b :: OldKey(keys, cutoff, k, stamp, a, b) && r == "r:" + b + ":" + Stamp(cutoff) + ":" + a
  }

  /** A stored r: key is deleted exactly when it carries the cutoff and the parts of an edge key below it. */
  lemma {:induction false} ReverseGoneIff(keys: set<string>, cutoff: nat, r: string)
    requires r in keys && "r:" <= r
    ensures r !in Purged(keys, cutoff) <==> BuiltFromOld(keys, cutoff, r)
  {
    var doomed, left := Doomed(keys, cutoff), WithoutEdges(keys, cutoff);
    assert r[0] == 'r';
    NotNodeKey(r, Orphans(Candidates(doomed), left));
    if r in ReversesOf(doomed, cutoff) {
      var k :| k in doomed && r == ReverseOf(k, cutoff);
      var stamp := DoomedIsOld(keys, cutoff, k);
      assert OldKey(keys, cutoff, k, stamp, Fields(k).value.0, Fields(k).value.1);
    }
    if BuiltFromOld(keys, cutoff, r) {
      var k, stamp, a, b :| OldKey(keys, cutoff, k, stamp, a, b) && r == "r:" + b + ":" + Stamp(cutoff) + ":" + a;
      OldIsDoomed(keys, cutoff, k, stamp, a, b);
      assert ReverseOf(k, cutoff) == r;
    }
  }

  /** For every timestamp before the cutoff, the reverse key of a purged edge stays behind. */
  lemma {:induction false} TrueReverseStays(ts: nat, cutoff: nat, s: string, t: string)
    requires ts < cutoff < UINT64 && ':' !in s
    ensures var keys := {EdgeKey(ts, s, t), ReverseKey(ts, t, s)};
            EdgeKey(ts, s, t) !in Purged(keys, cutoff) && ReverseKey(ts, t, s) in Purged(keys, cutoff)
  {
    var k, r := EdgeKey(ts, s, t), ReverseKey(ts, t, s);
    var keys := {k, r};
    LeavesExactlyNewEdges(keys, Edge(s, t, ts), cutoff);
    assert r[0] == 'r';
    ReverseGoneIff(keys, cutoff, r);
    if BuiltFromOld(keys, cutoff, r) {
      var x, stamp, a, b :| OldKey(keys, cutoff, x, stamp, a, b) && r == "r:" + b + ":" + Stamp(cutoff) + ":" + a;
      assert x[0] == 'e';
      OldIsDoomed(keys, cutoff, x, stamp, a, b);
      PartsOfPrinted(ts, s, t);
      OtherStamp(t, ts, cutoff, s);
    }
  }

  lemma {:induction false} PartsOfPrinted(ts: nat, s: string, t: string)
    requires ts < UINT64 && ':' !in s
    ensures Fields(EdgeKey(ts, s, t)) == Some((s, t))
  {
    StampValue(ts);
    NoColonInDigits(Stamp(ts));
    CutFields(Stamp(ts), s, t);
  }

  lemma {:induction false} OtherStamp(t: string, ts: nat, cutoff: nat, s: string)
    requires ts < UINT64 && cutoff < UINT64 && ts != cutoff
    ensures "r:" + t + ":" + Stamp(ts) + ":" + s != "r:" + t + ":" + Stamp(cutoff) + ":" + s
  {
    var c, d, n := Stamp(ts), Stamp(cutoff), 3 + |t|;
    StampValue(ts);
    StampValue(cutoff);
    assert ("r:" + t + ":" + c + ":" + s)[n..n + |c|] == c;
    assert ("r:" + t + ":" + d + ":" + s)[n..n + |c|] == d;
  }
}
