/**
 What a report of `RunChecks` in pkg/verify/verify.go holds, issue by issue: which issues there are, for which keys,
 and how often each occurs.
 */
module IssueCounts {
  import opened Common
  import opened Lex
  import opened EdgeKeys
  import opened StoreCheck

  function Times(issues: seq<Issue>, iss: Issue): nat {
    multiset(issues)[iss]
  }

  lemma {:induction false} TimesConcat(a: seq<Issue>, b: seq<Issue>, iss: Issue)
    ensures Times(a + b, iss) == Times(a, iss) + Times(b, iss)
  {
  }

  lemma {:induction false} NeverIn(issues: seq<Issue>, iss: Issue)
    requires forall i :: 0 <= i < |issues| ==> issues[i].key != iss.key
    ensures Times(issues, iss) == 0
  {
    assert iss !in issues;
  }

  lemma {:induction false} OwnKey(pass: Pass, k: string, keys: set<string>)
    ensures forall i :: 0 <= i < |IssuesOf(pass, k, keys)| ==> IssuesOf(pass, k, keys)[i].key == k
  {
  }

  /** Each key of a pass contributes its own issues, once. */
  lemma {:induction false} PassTimes(pass: Pass, ks: seq<string>, keys: set<string>, iss: Issue)
    requires forall i, j :: 0 <= i < j < |ks| ==> ks[i] != ks[j]
    ensures Times(Issues(pass, ks, keys), iss) ==
              if iss.key in ks then Times(IssuesOf(pass, iss.key, keys), iss) else 0
    decreases |ks|
  {
    if ks != [] {
      var init, k := ks[..|ks| - 1], ks[|ks| - 1];
      PassTimes(pass, init, keys, iss);
      TimesConcat(Issues(pass, init, keys), IssuesOf(pass, k, keys), iss);
      assert ks == init + [k] && k !in init;
      if iss.key != k {
        OwnKey(pass, k, keys);
        NeverIn(IssuesOf(pass, k, keys), iss);
      }
    }
  }

  lemma {:induction false} ScanTimes(pass: Pass, p: string, keys: set<string>, iss: Issue)
    ensures Times(Issues(pass, Ascending(WithPrefix(keys, p)), keys), iss) ==
              if iss.key in keys && p <= iss.key then Times(IssuesOf(pass, iss.key, keys), iss) else 0
  {
    var ks := Ascending(WithPrefix(keys, p));
    forall i, j | 0 <= i < j < |ks| ensures ks[i] != ks[j] { assert Less(ks[i], ks[j]); Irreflexive(ks[i]); }
    PassTimes(pass, ks, keys, iss);
    assert iss.key in ks <==> iss.key in WithPrefix(keys, p);
  }

  /** A report holds, for each stored e: and r: key, what its two passes say of it, and nothing else. */
  lemma {:induction false} ReportTimes(keys: set<string>, iss: Issue)
    ensures Times(AllIssues(keys), iss) ==
              if iss.key in keys && IsPairKey(iss.key)
              then Times(IssuesOf(Mirrors, iss.key, keys), iss) + Times(IssuesOf(Nodes, iss.key, keys), iss) else 0
  {
    var edges, reverses := Ascending(WithPrefix(keys, "e:")), Ascending(WithPrefix(keys, "r:"));
    var a, b := Issues(Mirrors, edges, keys), Issues(Mirrors, reverses, keys);
    var c, d := Issues(Nodes, edges, keys), Issues(Nodes, reverses, keys);
    assert AllIssues(keys) == a + b + c + d;
    TimesConcat(a, b, iss);
    TimesConcat(a + b, c, iss);
    TimesConcat(a + b + c, d, iss);
    ScanTimes(Mirrors, "e:", keys, iss);
    ScanTimes(Mirrors, "r:", keys, iss);
    ScanTimes(Nodes, "e:", keys, iss);
    ScanTimes(Nodes, "r:", keys, iss);
    assert !(IsEdgeKey(iss.key) && IsReverseKey(iss.key)) by {
      if IsEdgeKey(iss.key) { assert iss.key[0] == 'e'; }
    }
  }

  function Missing(k: string, id: string): Issue {
    Issue(NodeReferences, k, false, "", id)
  }

  function One(b: bool): nat {
    if b then 1 else 0
  }

  lemma {:induction false} NodeTimes(k: string, e: Edge, keys: set<string>, id: string)
    ensures Times(NodeIssues(k, Some(e), keys), Missing(k, id)) ==
              if "n:" + id in keys then 0 else One(e.source == id) + One(e.target == id)
  {
    var a, b := MissingNode(k, e.source, keys), MissingNode(k, e.target, keys);
    TimesConcat(a, b, Missing(k, id));
    assert Times(a, Missing(k, id)) == if "n:" + id in keys then 0 else One(e.source == id);
    assert Times(b, Missing(k, id)) == if "n:" + id in keys then 0 else One(e.target == id);
  }

  lemma {:induction false} NoReferenceAmongMirrors(k: string, keys: set<string>, id: string)
    ensures Times(MirrorIssues(k, Mirror(k), keys), Missing(k, id)) == 0
  {
  }

  /**
   For every store, key and ID: a missing node is reported once for the source and once for the target of each stored
   e: and r: key that parses and names it, exactly when the node is not stored.
   */
  lemma {:induction false} MissingNodeTimes(keys: set<string>, k: string, id: string)
    ensures Times(AllIssues(keys), Missing(k, id)) ==
              if k in keys && IsPairKey(k) && Parse(k).Some? && "n:" + id !in keys
              then One(Parse(k).value.source == id) + One(Parse(k).value.target == id) else 0
  {
    ReportTimes(keys, Missing(k, id));
    NoReferenceAmongMirrors(k, keys, id);
    if Parse(k).Some? { NodeTimes(k, Parse(k).value, keys, id); }
  }

  /** ... so it is reported if and only if some such key names it. */
  lemma {:induction false} MissingNodeIff(keys: set<string>, k: string, id: string)
    ensures Missing(k, id) in AllIssues(keys) <==>
              && k in keys && IsPairKey(k) && Parse(k).Some? && "n:" + id !in keys
              && (id == Parse(k).value.source || id == Parse(k).value.target)
  {
    MissingNodeTimes(keys, k, id);
    assert Missing(k, id) in AllIssues(keys) <==> Missing(k, id) in multiset(AllIssues(keys));
  }

  /** A key without its mirror is reported once, as fixable with that mirror; one that does not parse once, as not. */
  lemma {:induction false} MirrorTimes(keys: set<string>, k: string, fixable: bool, x: string)
    ensures Times(AllIssues(keys), Issue(EdgeConsistency, k, fixable, x, "")) ==
              One(k in keys && IsPairKey(k)
                  && if fixable then Mirror(k) == Some(x) && x !in keys else Mirror(k) == None && x == "")
  {
    var iss := Issue(EdgeConsistency, k, fixable, x, "");
    ReportTimes(keys, iss);
    NoMirrorAmongNodes(k, Parse(k), keys, iss);
    MirrorTimesAt(k, Mirror(k), keys, fixable, x);
  }

  lemma {:induction false} NoMirrorAmongNodes(k: string, parsed: Option<Edge>, keys: set<string>, iss: Issue)
    requires iss.check == EdgeConsistency
    ensures Times(NodeIssues(k, parsed, keys), iss) == 0
  {
    var issues := NodeIssues(k, parsed, keys);
    assert forall i :: 0 <= i < |issues| ==> issues[i].check == NodeReferences;
    assert iss !in issues;
  }

  lemma {:induction false} MirrorTimesAt(k: string, mirror: Option<string>, keys: set<string>, fixable: bool, x: string)
    ensures Times(MirrorIssues(k, mirror, keys), Issue(EdgeConsistency, k, fixable, x, "")) ==
              One(if fixable then mirror == Some(x) && x !in keys else mirror == None && x == "")
  {
  }

  /** There are no other issues. */
  lemma {:induction false} NoOtherIssues(keys: set<string>, iss: Issue)
    requires iss in AllIssues(keys)
    ensures iss == Missing(iss.key, iss.missingNode)
         || iss == Issue(EdgeConsistency, iss.key, iss.fixable, iss.expectedKey, "")
  {
    var pass, k := IssueOrigin(keys, iss);
    IssueShape(pass, k, keys, iss);
  }

  lemma {:induction false} IssueShape(pass: Pass, k: string, keys: set<string>, iss: Issue)
    requires iss in IssuesOf(pass, k, keys)
    ensures iss == Missing(iss.key, iss.missingNode)
         || iss == Issue(EdgeConsistency, iss.key, iss.fixable, iss.expectedKey, "")
  {
    if pass == Nodes {
      var e := Parse(k).value;
      assert iss in MissingNode(k, e.source, keys) || iss in MissingNode(k, e.target, keys);
    }
  }

  /** Both nodes of every stored edge are stored. */
  ghost predicate NodesStored(keys: set<string>) {
    forall k :: k in keys && IsPairKey(k) && Parse(k).Some? ==>
      "n:" + Parse(k).value.source in keys && "n:" + Parse(k).value.target in keys
  }

  /** The report holds no reference issue exactly when both nodes of every stored edge are stored. */
  lemma {:induction false} ReferencesCleanIff(keys: set<string>)
    ensures (forall iss :: iss in AllIssues(keys) ==> iss.check != NodeReferences) <==> NodesStored(keys)
  {
    forall iss | iss in AllIssues(keys) && iss.check == NodeReferences
      ensures iss.key in keys && IsPairKey(iss.key) && Parse(iss.key).Some? && "n:" + iss.missingNode !in keys
      ensures iss.missingNode == Parse(iss.key).value.source || iss.missingNode == Parse(iss.key).value.target
    {
      NoOtherIssues(keys, iss);
      MissingNodeIff(keys, iss.key, iss.missingNode);
    }
    if !NodesStored(keys) {
      var k :| && k in keys && IsPairKey(k) && Parse(k).Some?
               && !("n:" + Parse(k).value.source in keys && "n:" + Parse(k).value.target in keys);
      var e := Parse(k).value;
      var id := if "n:" + e.source in keys then e.target else e.source;
      MissingNodeIff(keys, k, id);
      assert Missing(k, id).check == NodeReferences;
    }
  }
}
