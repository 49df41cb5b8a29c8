/**
 The time purge of pkg/purge/purge.go, over the key layout of `EdgeKeys`.
 */
module Purge {
  import opened Common
  import opened Lex
  import opened Numerals
  import opened EdgeKeys

  datatype PurgeReport = PurgeReport(nodesDeleted: nat, edgesDeleted: nat, reverseEdgesDeleted: nat,
        totalKeysDeleted: nat)

  // ----- strings -----

  /** What precedes and follows the first colon. */
  function CutColon(s: string): Option<(string, string)> {
    if s == "" then None
    else if s[0] == ':' then Some(("", s[1..]))
    else match CutColon(s[1..])
         case None => None
         case Some((head, tail)) => Some(([s[0]] + head, tail))
  }

  /** Parts 2 and 3 of `strings.SplitN(key, ":", 4)`, when there are four parts. */
  function Fields(key: string): Option<(string, string)> {
    match CutColon(key)
    case None => None
    case Some((_, rest)) =>
      match CutColon(rest)
      case None => None
      case Some((_, pair)) => CutColon(pair)
  }

  lemma {:induction false} CutAtFirstColon(head: string, tail: string)
    requires ':' !in head
    ensures CutColon(head + ":" + tail) == Some((head, tail))
    decreases |head|
  {
    var s := head + ":" + tail;
    if head != "" {
      CutAtFirstColon(head[1..], tail);
      assert s[1..] == head[1..] + ":" + tail;
      assert [head[0]] + head[1..] == head;
    }
  }

  lemma {:induction false} CutRejoins(s: string)
    requires CutColon(s).Some?
    ensures var (head, tail) := CutColon(s).value; s == head + ":" + tail
    decreases |s|
  {
    if s[0] != ':' { CutRejoins(s[1..]); }
  }

  predicate Contains(s: string, sub: string) {
    exists i :: 0 <= i <= |s| && sub <= s[i..]
  }

  /** Between a prefix and a string with that prefix, every string has it. */
  lemma {:induction false} PrefixBetween(p: string, m: string, k: string)
    requires Leq(p, m) && Leq(m, k) && p <= k
    ensures p <= m
    decreases |p|
  {
    if p != "" {
      assert p[0] == k[0] == m[0];
      assert p[1..] <= k[1..];
      Irreflexive(p[1..]);
      assert p == [p[0]] + p[1..] && m == [m[0]] + m[1..] && k == [k[0]] + k[1..];
      PrefixBetween(p[1..], m[1..], k[1..]);
    }
  }

  // ----- what a purge removes -----

  function CutoffKey(cutoff: nat): string {
    "e:" + Stamp(cutoff)
  }

  /** The edge keys that sort below the cutoff. */
  function Doomed(keys: set<string>, cutoff: nat): set<string> {
    set k | k in keys && "e:" <= k && Less(k, CutoffKey(cutoff)) && Fields(k).Some?
  }

  function ReverseOf(k: string, cutoff: nat): string
    requires Fields(k).Some?
  {
    var (source, target) := Fields(k).value;
    "r:" + target + ":" + Stamp(cutoff) + ":" + source
  }

  function ReversesOf(doomed: set<string>, cutoff: nat): set<string>
    requires forall k :: k in doomed ==> Fields(k).Some?
  {
    set k | k in doomed :: ReverseOf(k, cutoff)
  }

  function Named(k: string): set<string>
    requires Fields(k).Some?
  {
    {Fields(k).value.0, Fields(k).value.1}
  }

  function Candidates(doomed: set<string>): set<string>
    requires forall k :: k in doomed ==> Fields(k).Some?
  {
    set k, id | k in doomed && id in Named(k) :: id
  }

  /** `hasRemainingEdges`: some edge key mentions the ID, or some reverse key starts with it. */
  predicate Referenced(keys: set<string>, id: string) {
    || (exists k :: k in keys && "e:" <= k && Contains(k, ":" + id))
    || (exists k :: k in keys && "r:" + id <= k)
  }

  function Orphans(candidates: set<string>, keys: set<string>): set<string> {
    set id | id in candidates && !Referenced(keys, id)
  }

  function NodeKeys(ids: set<string>): set<string> {
    set id | id in ids :: "n:" + id
  }

  /** The keys left once the edge loop is done. */
  function WithoutEdges(keys: set<string>, cutoff: nat): set<string> {
    keys - Doomed(keys, cutoff) - ReversesOf(Doomed(keys, cutoff), cutoff)
  }

  function Purged(keys: set<string>, cutoff: nat): set<string> {
    WithoutEdges(keys, cutoff) - NodeKeys(Orphans(Candidates(Doomed(keys, cutoff)), WithoutEdges(keys, cutoff)))
  }

  // ----- the source's loops -----

  /** The keys from "e:" on, in the order the iterator visits them. */
  method SeekEdges(keys: set<string>) returns (ks: seq<string>)
    ensures StrictlySorted(ks) && forall k :: k in ks <==> k in keys && Leq("e:", k)
    ensures forall k :: k in keys && "e:" <= k ==> k in ks
  {
    ks := Scan(set k | k in keys && Leq("e:", k));
    forall k | k in keys && "e:" <= k ensures k in ks { PrefixIsLeq("e:", k); }
  }

  method SomeEdgeMentions(keys: set<string>, sub: string) returns (found: bool)
    ensures found <==> exists k :: k in keys && "e:" <= k && Contains(k, sub)
  {
    var ks := SeekEdges(keys);
    for i := 0 to |ks|
      invariant forall j :: 0 <= j < i ==> !Contains(ks[j], sub)
    {
      if !("e:" <= ks[i]) {
        NoEdgeFrom(ks, i);
        return false;
      }
      if Contains(ks[i], sub) {
        assert ks[i] in ks;
        return true;
      }
    }
    return false;
  }

  method SomeKeyStartsWith(keys: set<string>, p: string) returns (found: bool)
    ensures found <==> exists k :: k in keys && p <= k
  {
    var ks := Scan(set k | k in keys && Leq(p, k));
    found := |ks| > 0 && p <= ks[0];
    if found {
      assert ks[0] in ks;
    }
    forall k | k in keys && p <= k ensures found {
      PrefixIsLeq(p, k);
      assert k in ks && ks[0] in ks;
      PrefixBetween(p, ks[0], k);
    }
  }

  method HasRemainingEdges(keys: set<string>, nodeID: string) returns (found: bool)
    ensures found <==> Referenced(keys, nodeID)
  {
    found := SomeEdgeMentions(keys, ":" + nodeID);
    if !found {
      found := SomeKeyStartsWith(keys, "r:" + nodeID);
    }
  }

  lemma {:induction false} PrefixIsLeq(p: string, k: string)
    requires p <= k
    ensures Leq(p, k)
    decreases |p|
  {
    if p != "" {
      PrefixIsLeq(p[1..], k[1..]);
      assert p == [p[0]] + p[1..] && k == [k[0]] + k[1..];
    }
  }

  /** In an ascending listing of keys from "e:" on, no edge key follows one that is not an edge key. */
  lemma {:induction false} NoEdgeFrom(ks: seq<string>, i: nat)
    requires StrictlySorted(ks) && i < |ks| && (forall k :: k in ks ==> Leq("e:", k)) && !("e:" <= ks[i])
    ensures forall j :: i <= j < |ks| ==> !("e:" <= ks[j])
  {
    forall j | i <= j < |ks| ensures !("e:" <= ks[j]) {
      assert ks[i] in ks;
      if "e:" <= ks[j] { PrefixBetween("e:", ks[i], ks[j]); }
    }
  }

  class Database {
    var data: map<string, string>
  }

  lemma {:induction false} GoneGrows(gone: set<string>, k: string, cutoff: nat)
    requires (forall g :: g in gone ==> Fields(g).Some?) && Fields(k).Some?
    ensures ReversesOf(gone + {k}, cutoff) == ReversesOf(gone, cutoff) + {ReverseOf(k, cutoff)}
    ensures Candidates(gone + {k}) == Candidates(gone) + Named(k)
  {
  }

  /** The edge loop goes on at this key. */
  predicate InLoop(key: string, cutoff: nat) {
    "e:" <= key && Less(key, CutoffKey(cutoff))
  }

  /** The edge loop may stop at the first key it does not go on at: no later key is doomed. */
  lemma {:induction false} NoneDoomedFrom(ks: seq<string>, i: nat, cutoff: nat)
    requires StrictlySorted(ks) && i < |ks| && forall k :: k in ks ==> Leq("e:", k)
    requires !InLoop(ks[i], cutoff)
    ensures forall j :: i <= j < |ks| ==> !InLoop(ks[j], cutoff)
  {
    if !("e:" <= ks[i]) {
      NoEdgeFrom(ks, i);
    } else {
      forall j | i <= j < |ks| ensures !Less(ks[j], CutoffKey(cutoff)) {
        if i < j && Less(ks[j], CutoffKey(cutoff)) { Transitive(ks[i], ks[j], CutoffKey(cutoff)); }
      }
    }
  }

  /** The keys that the snapshot iterator yields before the edge loop breaks. */
  method Visited(keys: set<string>, cutoff: nat) returns (ks: seq<string>)
    ensures forall k :: k in ks <==> k in keys && InLoop(k, cutoff)
    ensures forall i, j :: 0 <= i < j < |ks| ==> ks[i] != ks[j]
  {
    var all := SeekEdges(keys);
    var stop := 0;
    while stop < |all| && InLoop(all[stop], cutoff)
      invariant 0 <= stop <= |all| && forall j :: 0 <= j < stop ==> InLoop(all[j], cutoff)
    {
      stop := stop + 1;
    }
    ks := all[..stop];
    assert forall k :: k in ks ==> k in all;
    if stop < |all| { NoneDoomedFrom(all, stop, cutoff); }
    forall k | k in keys && InLoop(k, cutoff) ensures k in ks { assert k in all; }
    forall i, j | 0 <= i < j < |ks| ensures ks[i] != ks[j] { Asymmetric(all[i], all[j]); }
  }

  /** The store and the tallies of the edge loop. */
  datatype Work = Work(data: map<string, string>, ids: set<string>, edges: nat)

  /** One turn of the edge loop. */
  function PurgeEdge(w: Work, key: string, cutoff: nat, dryRun: bool): Work {
    match Fields(key)
    case None => w
    case Some((source, target)) =>
      Work(if dryRun then w.data else w.data - {key} - {ReverseOf(key, cutoff)}, w.ids + {source, target}, w.edges + 1)
  }

  function PurgeAll(w: Work, ks: seq<string>, cutoff: nat, dryRun: bool): Work {
    if ks == [] then w else PurgeEdge(PurgeAll(w, ks[..|ks| - 1], cutoff, dryRun), ks[|ks| - 1], cutoff, dryRun)
  }

  /** The keys of ks that have the four parts of an edge key. */
  function Handled(ks: seq<string>): set<string> {
    set k | k in ks && Fields(k).Some?
  }

  /** The outcome of handling the keys of gone. */
  ghost predicate PurgedWork(data: map<string, string>, gone: set<string>, cutoff: nat, dryRun: bool, w: Work) {
    && (forall g :: g in gone ==> Fields(g).Some?)
    && w.ids == Candidates(gone) && w.edges == |gone|
    && w.data == if dryRun then data else data - (gone + ReversesOf(gone, cutoff))
  }

  lemma {:induction false} PurgeEdgeRemoves(data: map<string, string>, gone: set<string>, cutoff: nat, dryRun: bool,
        w: Work, key: string)
    requires PurgedWork(data, gone, cutoff, dryRun, w) && key !in gone && Fields(key).Some?
    ensures PurgedWork(data, gone + {key}, cutoff, dryRun, PurgeEdge(w, key, cutoff, dryRun))
  {
    GoneGrows(gone, key, cutoff);
    RemovalGrows(data, gone, key, cutoff);
  }

  lemma {:induction false} HandledGrows(init: seq<string>, key: string)
    ensures Handled(init + [key]) == if Fields(key).Some? then Handled(init) + {key} else Handled(init)
  {
  }

  lemma {:induction false} PurgeAllRemoves(data: map<string, string>, ks: seq<string>, cutoff: nat, dryRun: bool)
    requires forall i, j :: 0 <= i < j < |ks| ==> ks[i] != ks[j]
    ensures PurgedWork(data, Handled(ks), cutoff, dryRun, PurgeAll(Work(data, {}, 0), ks, cutoff, dryRun))
    decreases |ks|
  {
    if ks == [] {
      assert Handled(ks) == {};
    } else {
      var init, key := ks[..|ks| - 1], ks[|ks| - 1];
      PurgeAllRemoves(data, init, cutoff, dryRun);
      assert ks == init + [key] && key !in init;
      HandledGrows(init, key);
      if Fields(key).Some? {
        PurgeEdgeRemoves(data, Handled(init), cutoff, dryRun, PurgeAll(Work(data, {}, 0), init, cutoff, dryRun), key);
      }
    }
  }

  lemma {:induction false} RemovalGrows(data: map<string, string>, gone: set<string>, key: string, cutoff: nat)
    requires (forall g :: g in gone ==> Fields(g).Some?) && Fields(key).Some?
    ensures data - (gone + ReversesOf(gone, cutoff)) - {key} - {ReverseOf(key, cutoff)}
         == data - (gone + {key} + ReversesOf(gone + {key}, cutoff))
  {
    var before, after := gone + ReversesOf(gone, cutoff), gone + {key} + ReversesOf(gone + {key}, cutoff);
    assert after == before + {key} + {ReverseOf(key, cutoff)} by { GoneGrows(gone, key, cutoff); }
    RemoveMore(data, before, key, ReverseOf(key, cutoff));
  }

  lemma {:induction false} RemoveMore(data: map<string, string>, gone: set<string>, a: string, b: string)
    ensures data - gone - {a} - {b} == data - (gone + {a} + {b})
  {
  }

  /** The edge loop of `purgeByTime`; the iterator reads the store as it was when it was opened. */
  method PurgeEdges(db: Database, cutoff: nat, dryRun: bool) returns (ids: set<string>, edges: nat)
    modifies db
    ensures var doomed := Doomed(old(db.data).Keys, cutoff);
            && db.data == (if dryRun then old(db.data) else old(db.data) - (doomed + ReversesOf(doomed, cutoff)))
            && ids == Candidates(doomed) && edges == |doomed|
  {
    ghost var start := Work(db.data, {}, 0);
    var ks := Visited(db.data.Keys, cutoff);
    ids, edges := {}, 0;
    for i := 0 to |ks|
      invariant Work(db.data, ids, edges) == PurgeAll(start, ks[..i], cutoff, dryRun)
    {
      var key := ks[i];
      assert ks[..i + 1][..i] == ks[..i];
      var fields := Fields(key);
      if fields.Some? {
        var (source, target) := fields.value;
        ids := ids + {source, target};
        if !dryRun {
          db.data := db.data - {key};
          db.data := db.data - {"r:" + target + ":" + Stamp(cutoff) + ":" + source};
        }
        edges := edges + 1;
      }
    }
    assert ks[..|ks|] == ks;
    PurgeAllRemoves(start.data, ks, cutoff, dryRun);
    assert Handled(ks) == Doomed(start.data.Keys, cutoff);
  }

  /** `purgeByTime`. A dry run changes nothing. */
  method PurgeByTime(db: Database, cutoff: nat, dryRun: bool) returns (r: PurgeReport)
    modifies db
    ensures dryRun ==> db.data == old(db.data)
    ensures !dryRun ==>
        db.data.Keys == Purged(old(db.data).Keys, cutoff) && forall k :: k in db.data ==> db.data[k] == old(db.data)[k]
    ensures var keys := old(db.data).Keys; var doomed := Doomed(keys, cutoff);
            && r.edgesDeleted == r.reverseEdgesDeleted == |doomed|
            && r.nodesDeleted == |Orphans(Candidates(doomed), if dryRun then keys else WithoutEdges(keys, cutoff))|
            && r.totalKeysDeleted == r.edgesDeleted + r.reverseEdgesDeleted + r.nodesDeleted
  {
    var orphanNodes, edges := PurgeEdges(db, cutoff, dryRun);
    ghost var left := db.data;
    var nodes := PurgeOrphans(db, orphanNodes, dryRun);
    r := PurgeReport(nodes, edges, edges, 2 * edges + nodes);
    assert left.Keys == if dryRun then old(db.data).Keys else WithoutEdges(old(db.data).Keys, cutoff);
  }

  /** The node loop of `purgeByTime`. */
  method PurgeOrphans(db: Database, orphanNodes: set<string>, dryRun: bool) returns (nodes: nat)
    modifies db
    ensures var orphans := Orphans(orphanNodes, old(db.data).Keys);
            db.data == (if dryRun then old(db.data) else old(db.data) - NodeKeys(orphans)) && nodes == |orphans|
  {
    var rest := orphanNodes;
    nodes := 0;
    NothingPurged(db.data, dryRun);
    assert orphanNodes - rest == {};
    while rest != {}
      invariant rest <= orphanNodes
      invariant NodesPurged(old(db.data), orphanNodes - rest, dryRun, db.data, nodes)
      decreases rest
    {
      var id :| id in rest;
      NextOrphan(old(db.data), orphanNodes - rest, dryRun, db.data, nodes, id);
      var hasRefs := HasRemainingEdges(db.data.Keys, id);
      if !hasRefs {
        if !dryRun { db.data := db.data - {"n:" + id}; }
        nodes := nodes + 1;
      }
      assert orphanNodes - (rest - {id}) == orphanNodes - rest + {id};
      rest := rest - {id};
    }
    assert orphanNodes - rest == orphanNodes;
  }

  /** The store and the count once the candidates in done have been looked at. */
  ghost predicate NodesPurged(was: map<string, string>, done: set<string>, dryRun: bool, now: map<string, string>,
        nodes: nat) {
    now == (if dryRun then was else was - NodeKeys(Orphans(done, was.Keys))) && nodes == |Orphans(done, was.Keys)|
  }

  lemma {:induction false} NothingPurged(was: map<string, string>, dryRun: bool)
    ensures NodesPurged(was, {}, dryRun, was, 0)
  {
    assert Orphans({}, was.Keys) == {};
    assert was - NodeKeys({}) == was;
  }

  lemma {:induction false} NextOrphan(was: map<string, string>, done: set<string>, dryRun: bool,
        now: map<string, string>, nodes: nat, id: string)
    requires NodesPurged(was, done, dryRun, now, nodes) && id !in done
    ensures if Referenced(now.Keys, id) then NodesPurged(was, done + {id}, dryRun, now, nodes)
            else NodesPurged(was, done + {id}, dryRun, if dryRun then now else now - {"n:" + id}, nodes + 1)
  {
    var orphans := Orphans(done, was.Keys);
    OnlyNodeKeysGone(was.Keys, orphans, id);
    assert now.Keys == if dryRun then was.Keys else was.Keys - NodeKeys(orphans);
    OrphansGrow(done, id, was.Keys);
    if Referenced(was.Keys, id) {
      assert orphans + {} == orphans;
    } else {
      NodeRemovalGrows(was, orphans, id);
    }
  }

  lemma {:induction false} NodeRemovalGrows(data: map<string, string>, ids: set<string>, id: string)
    ensures data - NodeKeys(ids) - {"n:" + id} == data - NodeKeys(ids + {id})
  {
  }

  lemma {:induction false} OrphansGrow(done: set<string>, id: string, keys: set<string>)
    ensures Orphans(done + {id}, keys) == Orphans(done, keys) + (if Referenced(keys, id) then {} else {id})
  {
  }

  lemma {:induction false} NotNodeKey(k: string, ids: set<string>)
    requires k != "" && k[0] != 'n'
    ensures k !in NodeKeys(ids)
  {
    forall id: string ensures "n:" + id != k { assert ("n:" + id)[0] == 'n'; }
  }

  /** Deleting node keys does not change which IDs are referenced. */
  lemma {:induction false} OnlyNodeKeysGone(keys: set<string>, ids: set<string>, id: string)
    ensures Referenced(keys - NodeKeys(ids), id) <==> Referenced(keys, id)
  {
    if exists k :: k in keys && "e:" <= k && Contains(k, ":" + id) {
      var k :| k in keys && "e:" <= k && Contains(k, ":" + id);
      NotNodeKey(k, ids);
    }
    var p := "r:" + id;
    if exists k :: k in keys && p <= k {
      var k :| k in keys && p <= k;
      assert p[0] == k[0] == 'r';
      NotNodeKey(k, ids);
      assert "r:" + id <= k && k in keys - NodeKeys(ids);
    }
  }

  // ----- what is left -----

  lemma {:induction false} StampedKeyFields(d: string, s: string, t: string)
    requires |d| == 20 && AllDigits(d)
    ensures var key := "e:" + d + ":" + s + ":" + t;
            Fields(key).Some? && s + ":" + t == Fields(key).value.0 + ":" + Fields(key).value.1
  {
    var key, pair := "e:" + d + ":" + s + ":" + t, s + ":" + t;
    assert key == "e" + ":" + (d + ":" + pair);
    CutAtFirstColon("e", d + ":" + pair);
    CutAtFirstColon(d, pair);
    HasColonCuts(s, t);
    CutRejoins(pair);
  }

  lemma {:induction false} HasColonCuts(s: string, t: string)
    ensures CutColon(s + ":" + t).Some?
    decreases |s|
  {
    var x := s + ":" + t;
    if s != "" {
      HasColonCuts(s[1..], t);
      assert x[1..] == s[1..] + ":" + t;
    }
  }

  /** Byte order of a printed key against the cutoff key is the order of the timestamps. */
  lemma {:induction false} CutoffSeparates(ts: nat, s: string, t: string, cutoff: nat)
    requires ts < UINT64 && cutoff < UINT64
    ensures Less(EdgeKey(ts, s, t), CutoffKey(cutoff)) <==> ts < cutoff
  {
    assert Less(Stamp(ts), Stamp(cutoff)) <==> ts < cutoff by {
      StampValue(ts);
      StampValue(cutoff);
      DigitsOrder(ts, cutoff, Decimal, STAMP_WIDTH);
    }
    StampedOrder(Stamp(ts), Stamp(cutoff), s, t);
  }

  lemma {:induction false} StampedOrder(d: string, c: string, s: string, t: string)
    requires |d| == |c|
    ensures Less("e:" + d + ":" + s + ":" + t, "e:" + c) <==> Less(d, c)
  {
    var tail := ":" + s + ":" + t;
    assert "e:" + d + ":" + s + ":" + t == "e:" + (d + tail);
    CommonPrefix("e:", d + tail, c);
    assert c == c + "";
    if d == c {
      CommonPrefix(d, tail, "");
      Irreflexive(d);
    } else {
      HeadDecides(d, c, tail, "");
    }
  }

  lemma {:induction false} DoomedIff(keys: set<string>, e: Edge, cutoff: nat)
    requires e.ts < UINT64 && cutoff < UINT64 && EdgeKey(e.ts, e.source, e.target) in keys
    ensures EdgeKey(e.ts, e.source, e.target) in Doomed(keys, cutoff) <==> e.ts < cutoff
  {
    CutoffSeparates(e.ts, e.source, e.target, cutoff);
    StampValue(e.ts);
    StampedKeyFields(Stamp(e.ts), e.source, e.target);
  }

  lemma {:induction false} EdgeKeysStay(keys: set<string>, k: string, cutoff: nat)
    requires "e:" <= k
    ensures k in Purged(keys, cutoff) <==> k in keys && k !in Doomed(keys, cutoff)
  {
    var doomed := Doomed(keys, cutoff);
    assert k !in ReversesOf(doomed, cutoff) by {
      forall d | d in doomed ensures ReverseOf(d, cutoff) != k { assert ReverseOf(d, cutoff)[0] == 'r'; }
    }
    NotNodeKey(k, Orphans(Candidates(doomed), WithoutEdges(keys, cutoff)));
  }

  /** On well-formed keys a real purge leaves exactly the edges stamped at or after the cutoff. */
  lemma {:induction false} LeavesExactlyNewEdges(keys: set<string>, e: Edge, cutoff: nat)
    requires e.ts < UINT64 && cutoff < UINT64
    ensures EdgeKey(e.ts, e.source, e.target) in Purged(keys, cutoff) <==>
        EdgeKey(e.ts, e.source, e.target) in keys && e.ts >= cutoff
  {
    var k := EdgeKey(e.ts, e.source, e.target);
    EdgeKeysStay(keys, k, cutoff);
    if k in keys { DoomedIff(keys, e, cutoff); }
  }

  /** No node that a remaining edge names is deleted. */
  lemma {:induction false} NamedNodesSurvive(keys: set<string>, e: Edge, cutoff: nat)
    requires EdgeKey(e.ts, e.source, e.target) in Purged(keys, cutoff)
    ensures forall id :: id in {e.source, e.target} && "n:" + id in keys ==> "n:" + id in Purged(keys, cutoff)
  {
    var k, left := EdgeKey(e.ts, e.source, e.target), WithoutEdges(keys, cutoff);
    PartsAreMentioned("e:" + Stamp(e.ts), e.source, e.target);
    forall id | id in {e.source, e.target} && "n:" + id in keys ensures "n:" + id in Purged(keys, cutoff) {
      assert k in left && "e:" <= k && Contains(k, ":" + id);
      NodeKeyStays(keys, id, cutoff);
    }
  }

  lemma {:induction false} NodeKeyStays(keys: set<string>, id: string, cutoff: nat)
    requires "n:" + id in keys && Referenced(WithoutEdges(keys, cutoff), id)
    ensures "n:" + id in Purged(keys, cutoff)
  {
    var n, doomed := "n:" + id, Doomed(keys, cutoff);
    assert n[0] == 'n';
    assert n !in ReversesOf(doomed, cutoff) by {
      forall d | d in doomed ensures ReverseOf(d, cutoff) != n { assert ReverseOf(d, cutoff)[0] == 'r'; }
    }
    forall x: string | "n:" + x == n ensures x == id { assert x == ("n:" + x)[2..] == n[2..] == id; }
  }

  /** Every candidate is still mentioned by the edge it came from, so a dry run always reports zero nodes. */
  lemma {:induction false} DryRunReportsNoNodes(keys: set<string>, cutoff: nat)
    ensures Orphans(Candidates(Doomed(keys, cutoff)), keys) == {}
  {
    forall id | id in Candidates(Doomed(keys, cutoff)) ensures Referenced(keys, id) {
      var k :| k in Doomed(keys, cutoff) && id in Named(k);
      FieldsAreMentioned(k);
      assert k in keys && "e:" <= k && Contains(k, ":" + id);
    }
  }

  lemma {:induction false} FieldsRejoin(k: string) returns (head: string)
    requires Fields(k).Some?
    ensures k == head + ":" + Fields(k).value.0 + ":" + Fields(k).value.1
  {
    var (a, rest) := CutColon(k).value;
    var (b, pair) := CutColon(rest).value;
    CutRejoins(k);
    CutRejoins(rest);
    CutRejoins(pair);
    head := a + ":" + b;
  }

  lemma {:induction false} FieldsAreMentioned(k: string)
    requires Fields(k).Some?
    ensures forall id :: id in Named(k) ==> Contains(k, ":" + id)
  {
    var head := FieldsRejoin(k);
    PartsAreMentioned(head, Fields(k).value.0, Fields(k).value.1);
  }

  lemma {:induction false} PartsAreMentioned(head: string, s: string, t: string)
    ensures Contains(head + ":" + s + ":" + t, ":" + s) && Contains(head + ":" + s + ":" + t, ":" + t)
  {
    var key := head + ":" + s + ":" + t;
    assert key[|head|..] == ":" + s + (":" + t);
    assert key[|head| + |s| + 1..] == ":" + t;
  }
}
