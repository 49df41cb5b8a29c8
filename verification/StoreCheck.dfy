/**
 The consistency check and repair of pkg/verify/verify.go, over a store of keys
 "n:<id>", "e:<edge>" and "r:<reverse edge>".
 */
module StoreCheck {
  import opened Common
  import opened Lex
  import opened Numerals
  import opened EdgeKeys

  type Store = map<string, string>

  datatype CheckType = EdgeConsistency | NodeReferences

  /** `missingNode` is the node ID that the source names in the message of a reference issue. */
  datatype Issue = Issue(check: CheckType, key: string, fixable: bool, expectedKey: string, missingNode: string)

  datatype Report = Report(
    issues: seq<Issue>, issueCount: nat, repairable: nat, nodeCount: nat, edgeCount: nat, reverseCount: nat)

  // ----- the mirror of a key -----

  predicate IsEdgeKey(k: string) { "e:" <= k }

  predicate IsReverseKey(k: string) { "r:" <= k }

  predicate IsPairKey(k: string) { IsEdgeKey(k) || IsReverseKey(k) }

  function Parse(k: string): Option<Edge> {
    if IsEdgeKey(k) then ParseEdge(k) else ParseReverse(k)
  }

  /** The key on the other side: the r: key of an e: key and the e: key of an r: key. */
  function Mirror(k: string): (r: Option<string>)
    ensures r.Some? && IsEdgeKey(k) ==> IsReverseKey(r.value)
    ensures r.Some? && !IsEdgeKey(k) ==> IsEdgeKey(r.value)
  {
    match Parse(k)
    case None => None
    case Some(e) =>
      if IsEdgeKey(k) then Some(ReverseKey(e.ts, e.target, e.source)) else Some(EdgeKey(e.ts, e.source, e.target))
  }

  // ----- what the check reports -----

  /** The four passes of `RunChecks`: each e:/r: key is checked for its mirror, then for its nodes. */
  datatype Pass = Mirrors | Nodes

  function MissingNode(k: string, id: string, keys: set<string>): seq<Issue> {
    if "n:" + id in keys then [] else [Issue(NodeReferences, k, false, "", id)]
  }

  function MirrorIssues(k: string, mirror: Option<string>, keys: set<string>): seq<Issue> {
    match mirror
    case None => [Issue(EdgeConsistency, k, false, "", "")]
    case Some(expected) => if expected in keys then [] else [Issue(EdgeConsistency, k, true, expected, "")]
  }

  function NodeIssues(k: string, parsed: Option<Edge>, keys: set<string>): seq<Issue> {
    match parsed
    case None => []
    case Some(e) => MissingNode(k, e.source, keys) + MissingNode(k, e.target, keys)
  }

  function IssuesOf(pass: Pass, k: string, keys: set<string>): seq<Issue> {
    match pass
    case Mirrors => MirrorIssues(k, Mirror(k), keys)
    case Nodes => NodeIssues(k, Parse(k), keys)
  }

  function Issues(pass: Pass, ks: seq<string>, keys: set<string>): seq<Issue> {
    if ks == [] then [] else Issues(pass, ks[..|ks| - 1], keys) + IssuesOf(pass, ks[|ks| - 1], keys)
  }

  function Fixable(issues: seq<Issue>): nat {
    if issues == [] then 0 else Fixable(issues[..|issues| - 1]) + (if issues[|issues| - 1].fixable then 1 else 0)
  }

  function WithPrefix(keys: set<string>, p: string): set<string> {
    set k | k in keys && p <= k
  }

  ghost function AllIssues(keys: set<string>): seq<Issue> {
    var edges, reverses := Ascending(WithPrefix(keys, "e:")), Ascending(WithPrefix(keys, "r:"));
    Issues(Mirrors, edges, keys) + Issues(Mirrors, reverses, keys)
      + Issues(Nodes, edges, keys) + Issues(Nodes, reverses, keys)
  }

  /** `scanPrefix`: the keys between the prefix and the prefix with its last byte increased. */
  method ScanPrefix(store: Store, p: string) returns (out: seq<string>)
    requires p in {"n:", "e:", "r:"}
    ensures out == Ascending(WithPrefix(store.Keys, p))
  {
    var hi := p[..1] + ";";
    var between := set k | k in store && Leq(p, k) && Less(k, hi);
    forall k ensures Leq(p, k) && Less(k, hi) <==> p <= k {
      PrefixRange(p[..1], ':', ';', k);
      assert p == p[..1] + ":";
    }
    assert between == WithPrefix(store.Keys, p);
    out := Scan(between);
  }

  method RunPass(pass: Pass, ks: seq<string>, keys: set<string>) returns (issues: seq<Issue>)
    ensures issues == Issues(pass, ks, keys)
  {
    issues := [];
    for i := 0 to |ks|
      invariant issues == Issues(pass, ks[..i], keys)
    {
      assert ks[..i + 1][..i] == ks[..i];
      var k := ks[i];
      var parsed;
      if IsEdgeKey(k) { parsed := ParseEdgeKeyV1(k); } else { parsed := ParseReverseKeyV1(k); }
      match pass {
        case Mirrors =>
          if parsed.None? {
            issues := issues + [Issue(EdgeConsistency, k, false, "", "")];
          } else {
            var e := parsed.value;
            var expected := if IsEdgeKey(k) then ReverseKey(e.ts, e.target, e.source)
                else EdgeKey(e.ts, e.source, e.target);
            if expected !in keys {
              issues := issues + [Issue(EdgeConsistency, k, true, expected, "")];
            }
          }
        case Nodes =>
          issues := issues + NodeIssues(k, parsed, keys);
      }
    }
    assert ks[..|ks|] == ks;
  }

  method CountFixable(issues: seq<Issue>) returns (n: nat)
    ensures n == Fixable(issues)
  {
    n := 0;
    for i := 0 to |issues|
      invariant n == Fixable(issues[..i])
    {
      assert issues[..i + 1][..i] == issues[..i];
      if issues[i].fixable { n := n + 1; }
    }
    assert issues[..|issues|] == issues;
  }

  method RunChecks(store: Store) returns (r: Report)
    ensures r.issues == AllIssues(store.Keys)
    ensures r.issueCount == |r.issues| && r.repairable == Fixable(r.issues)
    ensures r.nodeCount == |WithPrefix(store.Keys, "n:")|
    ensures r.edgeCount == |WithPrefix(store.Keys, "e:")| && r.reverseCount == |WithPrefix(store.Keys, "r:")|
  {
    var nodeKeys := ScanPrefix(store, "n:");
    var edgeKeys := ScanPrefix(store, "e:");
    var reverseKeys := ScanPrefix(store, "r:");
    var a := RunPass(Mirrors, edgeKeys, store.Keys);
    var b := RunPass(Mirrors, reverseKeys, store.Keys);
    var c := RunPass(Nodes, edgeKeys, store.Keys);
    var d := RunPass(Nodes, reverseKeys, store.Keys);
    var issues := a + b + c + d;
    var repairable := CountFixable(issues);
    r := Report(issues, |issues|, repairable, |nodeKeys|, |edgeKeys|, |reverseKeys|);
  }

  /** The keys that `Repair` writes for a report. */
  function Repairs(issues: seq<Issue>): set<string> {
    set i | 0 <= i < |issues| && issues[i].fixable && issues[i].expectedKey != "" :: issues[i].expectedKey
  }

  method Repair(report: Report, store: Store) returns (next: Store)
    ensures next.Keys == store.Keys + Repairs(report.issues)
    ensures forall k :: k in next ==> next[k] == if k in Repairs(report.issues) then "" else store[k]
  {
    var batch: Store := map[];
    for i := 0 to |report.issues|
      invariant batch.Keys == Repairs(report.issues[..i])
      invariant forall k :: k in batch ==> batch[k] == ""
    {
      var iss := report.issues[i];
      assert report.issues[..i + 1] == report.issues[..i] + [iss];
      RepairsAppend(report.issues[..i], iss);
      if iss.fixable && iss.expectedKey != "" {
        batch := batch[iss.expectedKey := ""];
      }
    }
    assert report.issues[..|report.issues|] == report.issues;
    next := store + batch;
  }

  lemma {:induction false} RepairsAppend(issues: seq<Issue>, iss: Issue)
    ensures Repairs(issues + [iss])
        == Repairs(issues) + (if iss.fixable && iss.expectedKey != "" then {iss.expectedKey} else {})
  {
    var all := issues + [iss];
    forall x | x in Repairs(issues) ensures x in Repairs(all) {
      var i :| 0 <= i < |issues| && issues[i].fixable && issues[i].expectedKey != "" && issues[i].expectedKey == x;
      assert all[i] == issues[i];
    }
    assert all[|issues|] == iss;
  }

  // ----- what the issues mean -----

  lemma {:induction false} PassReports(pass: Pass, ks: seq<string>, keys: set<string>, i: nat, iss: Issue)
    requires i < |ks| && iss in IssuesOf(pass, ks[i], keys)
    ensures iss in Issues(pass, ks, keys)
    decreases |ks|
  {
    if i < |ks| - 1 { PassReports(pass, ks[..|ks| - 1], keys, i, iss); }
  }

  lemma {:induction false} PassOrigin(pass: Pass, ks: seq<string>, keys: set<string>, iss: Issue) returns (i: nat)
    requires iss in Issues(pass, ks, keys)
    ensures i < |ks| && iss in IssuesOf(pass, ks[i], keys)
    decreases |ks|
  {
    i := |ks| - 1;
    if iss !in IssuesOf(pass, ks[i], keys) { i := PassOrigin(pass, ks[..i], keys, iss); }
  }

  lemma {:induction false} IssueReported(keys: set<string>, pass: Pass, k: string, iss: Issue)
    requires k in keys && IsPairKey(k) && iss in IssuesOf(pass, k, keys)
    ensures iss in AllIssues(keys)
  {
    var ks := if IsEdgeKey(k) then Ascending(WithPrefix(keys, "e:")) else Ascending(WithPrefix(keys, "r:"));
    assert k in ks;
    var i :| 0 <= i < |ks| && ks[i] == k;
    PassReports(pass, ks, keys, i, iss);
  }

  lemma {:induction false} IssueOrigin(keys: set<string>, iss: Issue) returns (pass: Pass, k: string)
    requires iss in AllIssues(keys)
    ensures k in keys && IsPairKey(k) && iss in IssuesOf(pass, k, keys)
  {
    var edges, reverses := Ascending(WithPrefix(keys, "e:")), Ascending(WithPrefix(keys, "r:"));
    pass := if iss in Issues(Mirrors, edges, keys) || iss in Issues(Mirrors, reverses, keys) then Mirrors else Nodes;
    var ks := if iss in Issues(pass, edges, keys) then edges else reverses;
    var i := PassOrigin(pass, ks, keys, iss);
    k := ks[i];
    assert k in ks;
  }

  lemma {:induction false} MirrorIssueMeans(k: string, mirror: Option<string>, keys: set<string>, iss: Issue)
    requires iss in MirrorIssues(k, mirror, keys)
    ensures if iss.fixable then mirror == Some(iss.expectedKey) && iss.expectedKey !in keys else mirror == None
  {
  }

  lemma {:induction false} NodeIssueMeans(k: string, parsed: Option<Edge>, keys: set<string>, iss: Issue)
    requires iss in NodeIssues(k, parsed, keys)
    ensures iss.check == NodeReferences && !iss.fixable
  {
  }

  /** An edge-consistency issue comes from a key without a stored mirror. */
  lemma {:induction false} EdgeIssueOrigin(keys: set<string>, iss: Issue) returns (k: string)
    requires iss in AllIssues(keys) && (iss.check == EdgeConsistency || iss.fixable)
    ensures k in keys && IsPairKey(k)
    ensures if iss.fixable then Mirror(k) == Some(iss.expectedKey) && iss.expectedKey !in keys else Mirror(k) == None
  {
    var pass, origin := IssueOrigin(keys, iss);
    k := origin;
    if pass == Nodes { NodeIssueMeans(k, Parse(k), keys, iss); } else { MirrorIssueMeans(k, Mirror(k), keys, iss); }
  }

  lemma {:induction false} MissingMirrorReported(keys: set<string>, k: string) returns (iss: Issue)
    requires k in keys && IsPairKey(k) && !(Mirror(k).Some? && Mirror(k).value in keys)
    ensures iss in AllIssues(keys) && iss.check == EdgeConsistency
    ensures Mirror(k).Some? ==> iss.fixable && iss.expectedKey == Mirror(k).value
  {
    iss := MirrorIssues(k, Mirror(k), keys)[0];
    assert iss in IssuesOf(Mirrors, k, keys);
    IssueReported(keys, Mirrors, k, iss);
  }

  /** Every e:/r: key parses and its mirror is stored. */
  ghost predicate Consistent(keys: set<string>) {
    forall k :: k in keys && IsPairKey(k) ==> Mirror(k).Some? && Mirror(k).value in keys
  }

  /** No edge-consistency issue is reported. */
  ghost predicate Clean(issues: seq<Issue>) {
    forall iss :: iss in issues ==> iss.check != EdgeConsistency
  }

  /** The check reports no edge-consistency issue exactly on consistent stores. */
  lemma {:induction false} CleanIff(keys: set<string>)
    ensures Clean(AllIssues(keys)) <==> Consistent(keys)
  {
    var issues := AllIssues(keys);
    if !Clean(issues) {
      var iss :| iss in issues && iss.check == EdgeConsistency;
      var k := EdgeIssueOrigin(keys, iss);
    }
    if !Consistent(keys) {
      var k :| k in keys && IsPairKey(k) && !(Mirror(k).Some? && Mirror(k).value in keys);
      var iss := MissingMirrorReported(keys, k);
    }
  }

  ghost function MirrorsOf(keys: set<string>): set<string> {
    set k | k in keys && IsPairKey(k) && Mirror(k).Some? :: Mirror(k).value
  }

  lemma {:induction false} RepairIsMissingMirror(keys: set<string>, x: string)
    requires x in Repairs(AllIssues(keys))
    ensures x in MirrorsOf(keys) && x !in keys
  {
    var issues := AllIssues(keys);
    var i :| 0 <= i < |issues| && issues[i].fixable && issues[i].expectedKey != "" && issues[i].expectedKey == x;
    var k := EdgeIssueOrigin(keys, issues[i]);
  }

  lemma {:induction false} MissingMirrorIsRepaired(keys: set<string>, x: string)
    requires x in MirrorsOf(keys) && x !in keys
    ensures x in Repairs(AllIssues(keys))
  {
    var issues := AllIssues(keys);
    var k :| k in keys && IsPairKey(k) && Mirror(k).Some? && Mirror(k).value == x;
    var iss := MissingMirrorReported(keys, k);
    var i :| 0 <= i < |issues| && issues[i] == iss;
  }

  /** Repair writes exactly the mirrors that are missing. */
  lemma {:induction false} RepairsAreMissingMirrors(keys: set<string>)
    ensures Repairs(AllIssues(keys)) == MirrorsOf(keys) - keys
  {
    var r := Repairs(AllIssues(keys));
    forall x | x in r ensures x in MirrorsOf(keys) - keys { RepairIsMissingMirror(keys, x); }
    forall x | x in MirrorsOf(keys) - keys ensures x in r { MissingMirrorIsRepaired(keys, x); }
  }

  // ----- one round of repair -----

  /** T holds the mirror of each of its keys that has one. */
  ghost predicate Closed(T: set<string>) {
    forall k :: k in T && IsPairKey(k) && Mirror(k).Some? ==> Mirror(k).value in T
  }

  /** The keys of the store after `RunChecks` and `Repair`. */
  ghost function Repaired(keys: set<string>): set<string> {
    keys + Repairs(AllIssues(keys))
  }

  /** Repair adds no key that closing the store under mirrors would not add, and no n: key. */
  lemma {:induction false} RepairIsLeast(keys: set<string>, T: set<string>)
    requires keys <= T && Closed(T)
    ensures Repaired(keys) <= T
    ensures forall k :: k in Repaired(keys) && !IsPairKey(k) ==> k in keys
  {
    RepairsAreMissingMirrors(keys);
  }

  /** The key's mirror parses, and the mirror's mirror is a stored key or the mirror of one. */
  ghost predicate Settles(k: string, keys: set<string>) {
    && Mirror(k).Some?
    && Mirror(Mirror(k).value).Some?
    && Mirror(Mirror(k).value).value in keys + MirrorsOf(keys)
  }

  /** One round of repair leaves a store that checks clean exactly when every e:/r: key settles. */
  lemma {:induction false} RepairSettlesIff(keys: set<string>)
    ensures Consistent(Repaired(keys)) <==> forall k :: k in keys && IsPairKey(k) ==> Settles(k, keys)
  {
    RepairsAreMissingMirrors(keys);
    var after := Repaired(keys);
    assert after == keys + MirrorsOf(keys);
    if forall k :: k in keys && IsPairKey(k) ==> Settles(k, keys) {
      forall k | k in after && IsPairKey(k) ensures Mirror(k).Some? && Mirror(k).value in after {
        if k in keys { assert Settles(k, keys); }
        if k !in keys {
          var k0 :| k0 in keys && IsPairKey(k0) && Mirror(k0).Some? && Mirror(k0).value == k;
          assert Settles(k0, keys);
        }
      }
    }
    if Consistent(after) {
      forall k | k in keys && IsPairKey(k) ensures Settles(k, keys) {
        assert Mirror(k).Some? && Mirror(k).value in after;
      }
    }
  }

  /** Both keys of the edge parse back to it. */
  predicate Printable(e: Edge) {
    && e.ts < UINT64 && IsNodeID(e.source) && e.target != "" && !StartsWithDigit(e.target) && !HasStampGroup(e.target)
  }

  ghost predicate Printed(k: string) {
    exists e: Edge :: Printable(e)
        && (k == EdgeKey(e.ts, e.source, e.target) || k == ReverseKey(e.ts, e.target, e.source))
  }

  lemma {:induction false} MirrorTwice(e: Edge)
    requires Printable(e)
    ensures var f, r := EdgeKey(e.ts, e.source, e.target), ReverseKey(e.ts, e.target, e.source);
            IsEdgeKey(f) && !IsEdgeKey(r) && Mirror(f) == Some(r) && Mirror(r) == Some(f)
  {
    assert ReverseKey(e.ts, e.target, e.source)[0] == 'r';
    EdgeRoundTripIff(e.ts, e.source, e.target);
    ReverseRoundTripIff(e.ts, e.target, e.source);
  }

  /**
   On a store whose e:/r: keys were printed from printable edges, one round of repair yields the least
   superset closed under mirroring, keeps every other key, and checks clean.
   */
  lemma {:induction false} RepairConverges(keys: set<string>)
    requires forall k :: k in keys && IsPairKey(k) ==> Printed(k)
    ensures Consistent(Repaired(keys)) && Closed(Repaired(keys)) && keys <= Repaired(keys)
    ensures Clean(AllIssues(Repaired(keys)))
    ensures forall T :: keys <= T && Closed(T) ==> Repaired(keys) <= T
  {
    forall k | k in keys && IsPairKey(k) ensures Settles(k, keys) {
      var e: Edge :| Printable(e)
          && (k == EdgeKey(e.ts, e.source, e.target) || k == ReverseKey(e.ts, e.target, e.source));
      MirrorTwice(e);
    }
    RepairSettlesIff(keys);
    CleanIff(Repaired(keys));
    forall T | keys <= T && Closed(T) ensures Repaired(keys) <= T { RepairIsLeast(keys, T); }
  }

  lemma {:induction false} OddKeyParses(d: string)
    requires |d| == 20 && AllDigits(d) && Value(d) < UINT64
    ensures ParseEdge("e:" + d + ":p:1xf:2") == Some(Edge("p:1", "f:2", Value(d)))
    ensures "e:" + d + ":p:1xf:2" != "e:" + d + ":" + "p:1" + ":" + "f:2"
  {
    var k, pair := "e:" + d + ":p:1xf:2", "p:1xf:2";
    assert k == "e:" + (d + (":" + pair));
    assert k[2..22] == d && k[22] == ':' && k[23..] == pair;
    assert ScanEnd(pair, 2) == 3;
    assert pair[..3] == "p:1" && pair[4..] == "f:2";
    assert Split(pair) == ("p:1", "f:2");
    assert k[26] == 'x' && ("e:" + d + ":" + "p:1" + ":" + "f:2")[26] == ':';
  }

  lemma {:induction false} ShortTargetHasNoStamp(t: string)
    requires |t| < 21
    ensures !HasStampGroup(t)
  {
  }

  lemma {:induction false} OddKeyMirrors(ts: nat)
    requires ts < UINT64
    ensures var k, r, f := "e:" + Stamp(ts) + ":p:1xf:2", ReverseKey(ts, "f:2", "p:1"), EdgeKey(ts, "p:1", "f:2");
            IsPairKey(k) && Mirror(k) == Some(r) && Mirror(r) == Some(f) && f != k && f != r
  {
    StampValue(ts);
    OddKeyParses(Stamp(ts));
    ShortTargetHasNoStamp("f:2");
    MirrorTwice(Edge("p:1", "f:2", ts));
  }

  lemma {:induction false} LoneKeyDoesNotSettle(k: string, r: string, f: string)
    requires IsPairKey(k) && Mirror(k) == Some(r) && Mirror(r) == Some(f) && f != k && f != r
    ensures !Consistent(Repaired({k}))
  {
    assert MirrorsOf({k}) == {r};
    assert !Settles(k, {k});
    RepairSettlesIff({k});
  }

  /**
   `splitNodePair` drops the byte after the source without looking at it, so a key with another byte there
   gets a mirror that is printed from a different edge key, and the repaired store checks dirty again.
   */
  lemma {:induction false} RepairNeedsAnotherRound(ts: nat)
    requires ts < UINT64
    ensures !Consistent(Repaired({"e:" + Stamp(ts) + ":p:1xf:2"}))
  {
    OddKeyMirrors(ts);
    LoneKeyDoesNotSettle("e:" + Stamp(ts) + ":p:1xf:2", ReverseKey(ts, "f:2", "p:1"), EdgeKey(ts, "p:1", "f:2"));
  }
}
