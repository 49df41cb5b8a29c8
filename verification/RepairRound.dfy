/**
 When one round of check and repair of pkg/verify/verify.go is enough, told from the bytes of the stored keys.

 A stored key may fail to come back from its mirror at three guards: the byte that `splitNodePair` skips after the
 source of an e: key, the first twenty-digit group that `parseReverseKeyV1` finds in a target, and the greedy end of
 a source that an r: key brings in. The theorem below says for each guard what else must be stored.
 */
module RepairRound {
  import opened Common
  import opened Numerals
  import opened EdgeKeys
  import opened StoreCheck

  // ----- which keys are mirrors of stored keys -----

  function PairOf(e: Edge): string {
    e.source + ":" + e.target
  }

  function EdgeOf(e: Edge): string {
    EdgeKey(e.ts, e.source, e.target)
  }

  function ReverseOf(e: Edge): string {
    ReverseKey(e.ts, e.target, e.source)
  }

  /** The r: key for the pair cut at the colon at position i is stored, and it is read as that cut. */
  predicate SpelledAt(keys: set<string>, ts: nat, pair: string, i: int) {
    && 0 < i < |pair| - 1 && pair[i] == ':' && !HasStampGroup(pair[i + 1..])
    && ReverseKey(ts, pair[i + 1..], pair[..i]) in keys
  }

  /** Some stored r: key has the source and target that, joined, spell the pair. */
  ghost predicate Spelled(keys: set<string>, ts: nat, pair: string) {
    exists i :: SpelledAt(keys, ts, pair, i)
  }

  lemma {:induction false} SameEdgeKey(e: Edge, f: Edge)
    requires e.ts < UINT64 && f.ts < UINT64 && EdgeOf(e) == EdgeOf(f)
    ensures e.ts == f.ts && PairOf(e) == PairOf(f)
  {
    StampValue(e.ts);
    StampValue(f.ts);
    EdgeKeyParts(Stamp(e.ts), e.source, e.target);
    EdgeKeyParts(Stamp(f.ts), f.source, f.target);
  }

  lemma {:induction false} SameSpelling(e: Edge, f: Edge)
    requires e.ts == f.ts && PairOf(e) == PairOf(f)
    ensures EdgeOf(e) == EdgeOf(f)
  {
    assert EdgeOf(e) == "e:" + Stamp(e.ts) + ":" + PairOf(e);
    assert EdgeOf(f) == "e:" + Stamp(f.ts) + ":" + PairOf(f);
  }

  lemma {:induction false} EdgeKeyFirst(e: Edge)
    ensures IsEdgeKey(EdgeOf(e)) && !IsReverseKey(EdgeOf(e))
    ensures IsReverseKey(ReverseOf(e)) && !IsEdgeKey(ReverseOf(e))
  {
    assert EdgeOf(e)[0] == 'e' && ReverseOf(e)[0] == 'r';
  }

  lemma {:induction false} SpelledByStored(keys: set<string>, e: Edge, k: string)
    requires e.ts < UINT64 && k in keys && IsPairKey(k) && Mirror(k) == Some(EdgeOf(e))
    ensures Spelled(keys, e.ts, PairOf(e))
  {
    EdgeKeyFirst(e);
    var f := ParseReverse(k).value;
    ParsedReverse(k);
    SameEdgeKey(e, f);
    var pair, i := PairOf(e), |f.source|;
    assert pair[..i] == f.source && pair[i + 1..] == f.target;
    assert SpelledAt(keys, e.ts, pair, i);
  }

  lemma {:induction false} StoredSpells(keys: set<string>, e: Edge, i: int)
    requires e.ts < UINT64 && SpelledAt(keys, e.ts, PairOf(e), i)
    ensures EdgeOf(e) in MirrorsOf(keys)
  {
    var pair := PairOf(e);
    var f := Edge(pair[..i], pair[i + 1..], e.ts);
    assert pair == PairOf(f);
    EdgeKeyFirst(f);
    ReverseRoundTripIff(f.ts, f.target, f.source);
    SameSpelling(e, f);
    assert Mirror(ReverseOf(f)) == Some(EdgeOf(f));
  }

  /** An edge key is the mirror of a stored key exactly when a stored r: key spells it. */
  lemma {:induction false} MirroredEdgeIff(keys: set<string>, e: Edge)
    requires e.ts < UINT64
    ensures EdgeOf(e) in MirrorsOf(keys) <==> Spelled(keys, e.ts, PairOf(e))
  {
    if EdgeOf(e) in MirrorsOf(keys) {
      var k :| k in keys && IsPairKey(k) && Mirror(k).Some? && Mirror(k).value == EdgeOf(e);
      SpelledByStored(keys, e, k);
    }
    if Spelled(keys, e.ts, PairOf(e)) {
      var i :| SpelledAt(keys, e.ts, PairOf(e), i);
      StoredSpells(keys, e, i);
    }
  }

  /** A node ID is not a proper end of another: its letter occurs only at the front. */
  lemma {:induction false} NodeIDsNotNested(a: string, b: string)
    requires IsNodeID(a) && IsNodeID(b) && |a| <= |b| && b[|b| - |a|..] == a
    ensures a == b
  {
    forall i | 2 <= i < |b| ensures b[i] != 'p' && b[i] != 'f' { assert Continues(b, i); }
    assert b[|b| - |a|] == a[0];
  }

  lemma {:induction false} EndOf(x: string, y: string)
    ensures (x + y)[|x + y| - |y|..] == y
  {
  }

  lemma {:induction false} SameReverseKey(e: Edge, f: Edge)
    requires e.ts < UINT64 && f.ts < UINT64 && IsNodeID(e.source) && IsNodeID(f.source) && ReverseOf(e) == ReverseOf(f)
    ensures e == f
  {
    var k := ReverseOf(e);
    EndOf("r:" + e.target + ":" + Stamp(e.ts) + ":", e.source);
    EndOf("r:" + f.target + ":" + Stamp(f.ts) + ":", f.source);
    if |e.source| <= |f.source| {
      assert f.source[|f.source| - |e.source|..] == k[|k| - |e.source|..];
      NodeIDsNotNested(e.source, f.source);
    } else {
      assert e.source[|e.source| - |f.source|..] == k[|k| - |f.source|..];
      NodeIDsNotNested(f.source, e.source);
    }
    StampValue(e.ts);
    StampValue(f.ts);
    SameMiddle(e.target, Stamp(e.ts), f.target, Stamp(f.ts), e.source);
  }

  lemma {:induction false} SameMiddle(t: string, c: string, u: string, d: string, s: string)
    requires |c| == |d| && "r:" + t + ":" + c + ":" + s == "r:" + u + ":" + d + ":" + s
    ensures t == u && c == d
  {
    var x, y := "r:" + t + ":" + c + ":" + s, "r:" + u + ":" + d + ":" + s;
    assert |t| == |u|;
    assert x[2..2 + |t|] == t && y[2..2 + |u|] == u;
    assert x[3 + |t|..3 + |t| + |c|] == c && y[3 + |u|..3 + |u| + |d|] == d;
  }

  /** Some stored e: key has the parts of e, whatever byte stands between source and target. */
  ghost predicate Worded(keys: set<string>, e: Edge) {
    exists b: char :: Separates(b, e.target) && KeyWith(e, b) in keys
  }

  /** A reverse key is the mirror of a stored key exactly when a stored e: key has its parts. */
  lemma {:induction false} MirroredReverseIff(keys: set<string>, e: Edge)
    requires e.ts < UINT64 && IsNodeID(e.source) && e.target != ""
    ensures ReverseOf(e) in MirrorsOf(keys) <==> Worded(keys, e)
  {
    if ReverseOf(e) in MirrorsOf(keys) {
      var k :| k in keys && IsPairKey(k) && Mirror(k).Some? && Mirror(k).value == ReverseOf(e);
      EdgeKeyFirst(e);
      var f := ParseEdge(k).value;
      ParsedEdge(k);
      SameReverseKey(e, f);
      assert Separates(k[23 + |f.source|], e.target) && KeyWith(e, k[23 + |f.source|]) in keys;
    }
    if Worded(keys, e) {
      var b: char :| Separates(b, e.target) && KeyWith(e, b) in keys;
      KeyWithParses(e, b);
      assert IsEdgeKey(KeyWith(e, b)) && Mirror(KeyWith(e, b)) == Some(ReverseOf(e));
    }
  }

  // ----- the three guards -----

  /** How the reverse key of e is read when its target holds a twenty-digit group at i. */
  function Reread(e: Edge, i: nat): Edge
    requires StampAt(e.target + ":", i)
  {
    var rest := e.target + ":" + Stamp(e.ts) + ":" + e.source;
    assert rest[i + 1..i + 21] == (e.target + ":")[i + 1..i + 21];
    Edge(rest[i + 22..], e.target[..i], Value(rest[i + 1..i + 21]))
  }

  lemma {:induction false} NoGroupIff(t: string)
    ensures FindStamp(t + ":", 0).None? <==> !HasStampGroup(t)
  {
    if FindStamp(t + ":", 0).Some? { assert FindStamp(t + ":", 0).value < |t|; }
  }

  lemma {:induction false} FindsFirstGroup(t: string, tail: string, i: nat)
    requires tail != "" && tail[0] == ':' && FindStamp(t + ":", 0) == Some(i)
    ensures FindStamp(t + tail, 0) == Some(i)
  {
    assert i < |t|;
    forall j: nat | j <= i ensures StampAt(t + tail, j) <==> StampAt(t + ":", j) { EarlierStamp(t, tail, j); }
    var r := FindStamp(t + tail, 0);
    assert StampAt(t + tail, i);
  }

  lemma {:induction false} RereadsAs(e: Edge, i: nat)
    requires e.ts < UINT64 && e.source != "" && FindStamp(e.target + ":", 0) == Some(i)
    ensures ParseReverse(ReverseOf(e)) == if i > 0 && Reread(e, i).ts < UINT64 then Some(Reread(e, i)) else None
  {
    StampValue(e.ts);
    CutAtGroup(e.target, Stamp(e.ts), e.source, i);
  }

  lemma {:induction false} CutAtGroup(t: string, d: string, s: string, i: nat)
    requires |d| == 20 && s != "" && FindStamp(t + ":", 0) == Some(i)
    ensures var k, rest := "r:" + t + ":" + d + ":" + s, t + ":" + d + ":" + s;
            && StampAt(rest, i) && rest[..i] == t[..i] && rest[i + 22..] != ""
            && ParseReverse(k) ==
               if i > 0 && Value(rest[i + 1..i + 21]) < UINT64
               then Some(Edge(rest[i + 22..], t[..i], Value(rest[i + 1..i + 21]))) else None
  {
    var tail := ":" + d + ":" + s;
    var k, rest := "r:" + t + ":" + d + ":" + s, t + ":" + d + ":" + s;
    assert FindStamp(rest, 0) == Some(i) by {
      assert rest == t + tail;
      FindsFirstGroup(t, tail, i);
    }
    assert k[2..] == rest && "r:" <= k && |k| >= 25 by { assert k == "r:" + rest; }
    assert i + 21 <= |t| && rest[..i] == t[..i];
    assert StampAt(rest, i) && |rest[i + 22..]| > 0;
  }

  /** The edge key of e is stored, or a stored r: key spells it. */
  ghost predicate EdgeHeld(keys: set<string>, e: Edge) {
    EdgeOf(e) in keys || Spelled(keys, e.ts, PairOf(e))
  }

  /** The reverse key of e is stored, or a stored e: key has its parts. */
  ghost predicate ReverseHeld(keys: set<string>, e: Edge) {
    ReverseOf(e) in keys || Worded(keys, e)
  }

  predicate ByteAt(k: string, n: nat, c: char) {
    n < |k| && k[n] == c
  }

  /**
   What an e: key asks for: a colon where `splitNodePair` skips a byte, or the key with a colon there. If the target
   holds a twenty-digit group, the reverse key is cut at the first one, and the key read from that cut is asked for.
   */
  ghost predicate EdgeSettles(k: string, keys: set<string>) {
    match ParseEdge(k)
    case None => false
    case Some(e) =>
      match FindStamp(e.target + ":", 0)
      case None => ByteAt(k, 23 + |e.source|, ':') || EdgeHeld(keys, e)
      case Some(i) => i > 0 && Reread(e, i).ts < UINT64 && EdgeHeld(keys, Reread(e, i))
  }

  /**
   What an r: key asks for: a source that the greedy scan of the edge key ends at, or the key for the source and
   target at which it does end.
   */
  ghost predicate ReverseSettles(k: string, keys: set<string>) {
    match ParseReverse(k)
    case None => false
    case Some(e) =>
      || (IsNodeID(e.source) && !StartsWithDigit(e.target))
      || var (s, t) := Split(PairOf(e)); s != "" && t != "" && ReverseHeld(keys, Edge(s, t, e.ts))
  }

  /** The key finds at its guard what it asks for; keys of other kinds ask for nothing. */
  ghost predicate KeySettles(k: string, keys: set<string>) {
    (IsEdgeKey(k) ==> EdgeSettles(k, keys)) && (IsReverseKey(k) ==> ReverseSettles(k, keys))
  }

  lemma {:induction false} EdgeSettlesIff(k: string, keys: set<string>)
    requires k in keys && IsEdgeKey(k)
    ensures Settles(k, keys) <==> EdgeSettles(k, keys)
  {
    if ParseEdge(k).Some? {
      var e := ParseEdge(k).value;
      ParsedEdge(k);
      EdgeKeyFirst(e);
      var group := FindStamp(e.target + ":", 0);
      NoGroupIff(e.target);
      if group.None? {
        ReverseRoundTripIff(e.ts, e.target, e.source);
        MirroredEdgeIff(keys, e);
        if ByteAt(k, 23 + |e.source|, ':') { assert k == EdgeOf(e); }
      } else {
        RereadsAs(e, group.value);
        if Reread(e, group.value).ts < UINT64 { MirroredEdgeIff(keys, Reread(e, group.value)); }
      }
    }
  }

  lemma {:induction false} EdgeKeyParsesAs(e: Edge)
    requires e.ts < UINT64
    ensures var (s, t) := Split(PairOf(e));
            ParseEdge(EdgeOf(e)) == if s == "" || t == "" then None else Some(Edge(s, t, e.ts))
  {
    StampValue(e.ts);
    EdgeKeyParts(Stamp(e.ts), e.source, e.target);
  }

  lemma {:induction false} ReverseSettlesIff(k: string, keys: set<string>)
    requires k in keys && IsReverseKey(k)
    ensures Settles(k, keys) <==> ReverseSettles(k, keys)
  {
    assert !IsEdgeKey(k) by { assert k[0] == 'r'; }
    if ParseReverse(k).Some? {
      var e := ParseReverse(k).value;
      ParsedReverse(k);
      EdgeKeyFirst(e);
      EdgeKeyParsesAs(e);
      SplitJoined(e.source, e.target);
      SplitParts(PairOf(e));
      var (s, t) := Split(PairOf(e));
      if s != "" && t != "" { MirroredReverseIff(keys, Edge(s, t, e.ts)); }
    }
  }

  /**
   For every store: one round of check and repair leaves no edge-consistency issue exactly when each e: key and each
   r: key finds at its guard what it asks for.
   */
  lemma {:induction false} RepairConvergesIff(keys: set<string>)
    ensures Consistent(Repaired(keys)) <==> forall k {:trigger KeySettles(k, keys)} :: k in keys ==> KeySettles(k, keys)
  {
    RepairSettlesIff(keys);
    forall k | k in keys && IsPairKey(k) ensures Settles(k, keys) <==> KeySettles(k, keys) {
      if IsEdgeKey(k) {
        assert k[0] == 'e';
        EdgeSettlesIff(k, keys);
      } else {
        ReverseSettlesIff(k, keys);
      }
    }
    if !Consistent(Repaired(keys)) {
      var k :| k in keys && IsPairKey(k) && !Settles(k, keys);
      assert !KeySettles(k, keys);
    }
  }

  // ----- what this means for plain stores -----

  /** The parts of the key can be told apart, except for the byte between source and target of an e: key. */
  predicate Plain(k: string) {
    match Parse(k)
    case None => false
    case Some(e) => !StartsWithDigit(e.target) && if IsEdgeKey(k) then !HasStampGroup(e.target) else IsNodeID(e.source)
  }

  /** The byte that `splitNodePair` skips is a colon. */
  predicate ColonBetween(k: string) {
    ParseEdge(k).Some? && ByteAt(k, 23 + |ParseEdge(k).value.source|, ':')
  }

  /** The key with a colon at that byte, or the r: key, is stored. */
  predicate CanonicalStored(k: string, keys: set<string>) {
    ParseEdge(k).Some? && (EdgeOf(ParseEdge(k).value) in keys || ReverseOf(ParseEdge(k).value) in keys)
  }

  lemma {:induction false} PlainSpelling(keys: set<string>, e: Edge)
    requires e.ts < UINT64 && IsNodeID(e.source) && e.target != "" && !StartsWithDigit(e.target)
    requires !HasStampGroup(e.target) && forall k {:trigger Plain(k)} :: k in keys && IsPairKey(k) ==> Plain(k)
    ensures Spelled(keys, e.ts, PairOf(e)) <==> ReverseOf(e) in keys
  {
    var pair := PairOf(e);
    if Spelled(keys, e.ts, pair) {
      var i :| SpelledAt(keys, e.ts, pair, i);
      var f := Edge(pair[..i], pair[i + 1..], e.ts);
      assert PairOf(f) == pair;
      EdgeKeyFirst(f);
      assert Plain(ReverseOf(f));
      SameCut(e, f);
    }
    if ReverseOf(e) in keys {
      assert pair[..|e.source|] == e.source && pair[|e.source| + 1..] == e.target;
      assert SpelledAt(keys, e.ts, pair, |e.source|);
    }
  }

  lemma {:induction false} SameCut(e: Edge, f: Edge)
    requires e.ts == f.ts < UINT64 && PairOf(e) == PairOf(f) && e.target != "" && f.source != "" && f.target != ""
    requires IsNodeID(e.source) && !StartsWithDigit(e.target) && !HasStampGroup(f.target) && Plain(ReverseOf(f))
    ensures e == f
  {
    EdgeKeyFirst(f);
    ReverseRoundTripIff(f.ts, f.target, f.source);
    SplitJoined(e.source, e.target);
    SplitJoined(f.source, f.target);
  }

  /**
   On a store of plain keys one round is enough exactly when each e: key has its colon, or its key with the colon or
   its r: key is stored.
   */
  lemma {:induction false} SeparatorDecides(keys: set<string>)
    requires forall k {:trigger Plain(k)} :: k in keys && IsPairKey(k) ==> Plain(k)
    ensures Consistent(Repaired(keys)) <==>
              forall k :: k in keys && IsEdgeKey(k) ==>
                ColonBetween(k) || CanonicalStored(k, keys)
  {
    RepairConvergesIff(keys);
    forall k | k in keys && IsReverseKey(k) ensures ReverseSettles(k, keys) && !IsEdgeKey(k) {
      assert Plain(k) && k[0] == 'r';
    }
    forall k | k in keys && IsEdgeKey(k)
      ensures EdgeSettles(k, keys) <==> ColonBetween(k) || CanonicalStored(k, keys)
    {
      assert Plain(k);
      var e := ParseEdge(k).value;
      ParsedEdge(k);
      NoGroupIff(e.target);
      PlainSpelling(keys, e);
    }
    forall k | k in keys
      ensures KeySettles(k, keys) <==> (IsEdgeKey(k) ==> ColonBetween(k) || CanonicalStored(k, keys)) { }
  }

  /** A lone edge key is settled by its separator byte alone. */
  lemma {:induction false} LoneKeyConvergesIff(k: string)
    requires IsEdgeKey(k) && ParseEdge(k).Some? && !HasStampGroup(ParseEdge(k).value.target)
    ensures Consistent(Repaired({k})) <==> ColonBetween(k)
  {
    var e := ParseEdge(k).value;
    RepairConvergesIff({k});
    assert KeySettles(k, {k}) || !KeySettles(k, {k});
    ParsedEdge(k);
    NoGroupIff(e.target);
    assert !IsReverseKey(k) by { assert k[0] == 'e'; }
    assert !Spelled({k}, e.ts, PairOf(e)) by { NothingSpelled(k, e.ts, PairOf(e)); }
    if EdgeOf(e) == k { EdgeKeyParts(Stamp(e.ts), e.source, e.target); }
  }

  lemma {:induction false} NothingSpelled(k: string, ts: nat, pair: string)
    requires !IsReverseKey(k)
    ensures !Spelled({k}, ts, pair)
  {
    forall i ensures !SpelledAt({k}, ts, pair, i) {
      if 0 < i < |pair| - 1 { EdgeKeyFirst(Edge(pair[..i], pair[i + 1..], ts)); }
    }
  }

  /**
   Plainness of the target matters: an e: key without its colon whose target starts with a digit can be settled by
   the r: key of another edge that spells the same pair, with neither of its own keys stored.
   */
  lemma {:induction false} DigitTargetBorrows(ts: nat) returns (k: string, e: Edge, r: string)
    requires ts < UINT64
    ensures e == Edge("p:1", "2:q", ts) && k == KeyWith(e, 'x') && r == ReverseKey(ts, "q", "p:1:2")
    ensures ParseEdge(k) == Some(e) && !ColonBetween(k) && !CanonicalStored(k, {k, r}) && Consistent(Repaired({k, r}))
  {
    var f := Edge("p:1:2", "q", ts);
    e := Edge("p:1", "2:q", ts);
    k, r := KeyWith(e, 'x'), ReverseOf(f);
    BorrowerParses(k, e, r, f);
    OwnKeysMissing(k, e, r, f);
    BorrowedSpelling({k, r}, ts);
    TwoKeysSettle(k, e, r, f);
  }

  lemma {:induction false} BorrowerParses(k: string, e: Edge, r: string, f: Edge)
    requires e.source == "p:1" && e.target == "2:q" && f == Edge("p:1:2", "q", e.ts) && e.ts < UINT64
    requires k == KeyWith(e, 'x') && r == ReverseOf(f)
    ensures IsEdgeKey(k) && ParseEdge(k) == Some(e) && !HasStampGroup(e.target)
    ensures IsReverseKey(r) && ParseReverse(r) == Some(f) && IsNodeID(f.source) && !StartsWithDigit(f.target)
  {
    KeyWithParses(e, 'x');
    EdgeKeyFirst(f);
    ShortTargetHasNoStamp(e.target);
    ShortTargetHasNoStamp(f.target);
    ReverseRoundTripIff(f.ts, f.target, f.source);
  }

  lemma {:induction false} OwnKeysMissing(k: string, e: Edge, r: string, f: Edge)
    requires e.source == "p:1" && e.target == "2:q" && f == Edge("p:1:2", "q", e.ts) && e.ts < UINT64
    requires k == KeyWith(e, 'x') && ParseEdge(k) == Some(e) && r == ReverseOf(f)
    ensures !ColonBetween(k) && !CanonicalStored(k, {k, r})
  {
    assert |k| > 26 && k[26] == 'x' && k != EdgeOf(e) && r != ReverseOf(e) by {
      StampValue(e.ts);
      OddByte(Stamp(e.ts));
    }
    EdgeKeyFirst(e);
    EdgeKeyFirst(f);
  }

  lemma {:induction false} TwoKeysSettle(k: string, e: Edge, r: string, f: Edge)
    requires IsEdgeKey(k) && ParseEdge(k) == Some(e) && !HasStampGroup(e.target) && Spelled({k, r}, e.ts, PairOf(e))
    requires IsReverseKey(r) && ParseReverse(r) == Some(f) && IsNodeID(f.source) && !StartsWithDigit(f.target)
    ensures Consistent(Repaired({k, r}))
  {
    assert KeySettles(k, {k, r}) by {
      NoGroupIff(e.target);
      assert k[0] == 'e';
    }
    assert KeySettles(r, {k, r}) by { assert r[0] == 'r'; }
    AllSettle({k, r});
  }

  lemma {:induction false} AllSettle(keys: set<string>)
    requires forall k :: k in keys ==> KeySettles(k, keys)
    ensures Consistent(Repaired(keys))
  {
    RepairConvergesIff(keys);
  }

  lemma {:induction false} OddByte(d: string)
    requires |d| == 20
    ensures var k := "e:" + d + ":" + "p:1" + ['x'] + "2:q";
            && |k| > 26 && k[26] == 'x' && k != "e:" + d + ":" + "p:1" + ":" + "2:q"
    ensures "r:" + "2:q" + ":" + d + ":" + "p:1" != "r:" + "q" + ":" + d + ":" + "p:1:2"
  {
    assert ("e:" + d + ":" + "p:1" + ":" + "2:q")[26] == ':';
    assert ("r:" + "2:q" + ":" + d + ":" + "p:1")[2] == '2' && ("r:" + "q" + ":" + d + ":" + "p:1:2")[2] == 'q';
  }

  lemma {:induction false} BorrowedSpelling(keys: set<string>, ts: nat)
    requires ReverseKey(ts, "q", "p:1:2") in keys
    ensures Spelled(keys, ts, PairOf(Edge("p:1", "2:q", ts)))
  {
    var pair := PairOf(Edge("p:1", "2:q", ts));
    assert pair == "p:1:2:q" && pair[..5] == "p:1:2" && pair[6..] == "q";
    ShortTargetHasNoStamp("q");
    assert SpelledAt(keys, ts, pair, 5);
  }
}
