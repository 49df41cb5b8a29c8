/**
 The v1 edge-key codec of pkg/verify/verify.go: "e:<20-digit ts>:<source>:<target>" and
 "r:<target>:<20-digit ts>:<source>".
 */
module EdgeKeys {
  import opened Common
  import opened Numerals

  const STAMP_WIDTH: nat := 20

  datatype Edge = Edge(source: string, target: string, ts: nat)

  // ----- fixed-width decimal numbers -----

  predicate IsDigit(c: char) {
    '0' <= c <= '9'
  }

  predicate AllDigits(s: string) {
    forall i :: 0 <= i < |s| ==> IsDigit(s[i])
  }

  function Value(s: string): nat
    requires AllDigits(s)
  {
    if s == "" then 0 else 10 * Value(s[..|s| - 1]) + (s[|s| - 1] as int - '0' as int)
  }

  lemma {:induction false} ValueOfDigits(n: nat, w: nat)
    requires n < Pow(Decimal, w)
    ensures AllDigits(Digits(n, Decimal, w)) && Value(Digits(n, Decimal, w)) == n
    decreases w
  {
    if w > 0 {
      ValueOfDigits(n / 10, w - 1);
      ValueSnoc(Digits(n / 10, Decimal, w - 1), n % 10);
    }
  }

  lemma {:induction false} ValueSnoc(s: string, d: nat)
    requires AllDigits(s) && d < 10
    ensures AllDigits(s + [DigitOf(d)]) && Value(s + [DigitOf(d)]) == 10 * Value(s) + d
  {
    assert (s + [DigitOf(d)])[..|s|] == s;
  }

  function Stamp(ts: nat): string {
    Digits(ts, Decimal, STAMP_WIDTH)
  }

  lemma {:induction false} StampValue(ts: nat)
    requires ts < UINT64
    ensures |Stamp(ts)| == 20 && ts < Pow(Decimal, STAMP_WIDTH)
    ensures AllDigits(Stamp(ts)) && Value(Stamp(ts)) == ts
  {
    assert Pow(Decimal, 10) == 10_000_000_000;
    assert Pow(Decimal, 15) == 1_000_000_000_000_000;
    assert Pow(Decimal, 20) == 100_000_000_000_000_000_000;
    ValueOfDigits(ts, STAMP_WIDTH);
  }

  // ----- printing -----

  function EdgeKey(ts: nat, source: string, target: string): string {
    "e:" + Stamp(ts) + ":" + source + ":" + target
  }

  function ReverseKey(ts: nat, target: string, source: string): string {
    "r:" + target + ":" + Stamp(ts) + ":" + source
  }

  // ----- what the parsers accept -----

  /** The source ID goes on at position i: a digit, or a colon that a digit follows. */
  predicate Continues(s: string, i: nat) {
    i < |s| && (IsDigit(s[i]) || (s[i] == ':' && i + 1 < |s| && IsDigit(s[i + 1])))
  }

  /** Where the greedy scan that starts at i stops. */
  function ScanEnd(s: string, i: nat): (e: nat)
    requires i <= |s|
    ensures i <= e <= |s| && !Continues(s, e)
    ensures forall k :: i <= k < e ==> Continues(s, k)
    decreases |s| - i
  {
    if Continues(s, i) then ScanEnd(s, i + 1) else i
  }

  /** The two halves of "source:target", or two empty strings. */
  function Split(pair: string): (string, string) {
    if |pair| < 3 || (pair[0] != 'p' && pair[0] != 'f') || pair[1] != ':' then ("", "")
    else
      var e := ScanEnd(pair, 2);
      if e >= |pair| then ("", "") else (pair[..e], pair[e + 1..])
  }

  function ParseEdge(key: string): Option<Edge> {
    if !("e:" <= key) || |key| < 24 || key[22] != ':' || !AllDigits(key[2..22]) || Value(key[2..22]) >= UINT64 then None
    else
      var (source, target) := Split(key[23..]);
      if source == "" || target == "" then None else Some(Edge(source, target, Value(key[2..22])))
  }

  /** ":<20 digits>:" starts at position i. */
  predicate StampAt(s: string, i: nat) {
    i + 21 < |s| && s[i] == ':' && s[i + 21] == ':' && AllDigits(s[i + 1..i + 21])
  }

  function FindStamp(s: string, i: nat): (r: Option<nat>)
    ensures r.None? ==> forall k: nat :: i <= k ==> !StampAt(s, k)
    ensures r.Some? ==> i <= r.value && StampAt(s, r.value) && forall k: nat :: i <= k < r.value ==> !StampAt(s, k)
    decreases |s| - i
  {
    if i >= |s| then None else if StampAt(s, i) then Some(i) else FindStamp(s, i + 1)
  }

  function ParseReverse(key: string): Option<Edge> {
    if !("r:" <= key) || |key| < 25 then None
    else
      var rest := key[2..];
      match FindStamp(rest, 0)
      case None => None
      case Some(i) =>
        var digits, target, source := rest[i + 1..i + 21], rest[..i], rest[i + 22..];
        if Value(digits) >= UINT64 || target == "" || source == "" then None
        else Some(Edge(source, target, Value(digits)))
  }

  // ----- the source's scanning loops -----

  method SplitNodePair(pair: string) returns (source: string, target: string)
    ensures (source, target) == Split(pair)
  {
    var i := 0;
    if |pair| < 3 || (pair[i] != 'p' && pair[i] != 'f') {
      return "", "";
    }
    i := i + 1;
    if i >= |pair| || pair[i] != ':' {
      return "", "";
    }
    i := i + 1;
    while i < |pair| && IsDigit(pair[i])
      invariant 2 <= i <= |pair| && ScanEnd(pair, i) == ScanEnd(pair, 2)
    {
      i := i + 1;
    }
    while i < |pair| && pair[i] == ':'
      invariant 2 <= i <= |pair| && ScanEnd(pair, i) == ScanEnd(pair, 2)
      invariant i == |pair| || !IsDigit(pair[i])
      decreases |pair| - i
    {
      var next := i + 1;
      if next < |pair| && IsDigit(pair[next]) {
        i := next;
        while i < |pair| && IsDigit(pair[i])
          invariant next <= i <= |pair| && ScanEnd(pair, i) == ScanEnd(pair, 2)
        {
          i := i + 1;
        }
      } else {
        break;
      }
    }
    if i <= 0 || i >= |pair| {
      return "", "";
    }
    return pair[..i], pair[i + 1..];
  }

  method ParseEdgeKeyV1(key: string) returns (r: Option<Edge>)
    ensures r == ParseEdge(key)
  {
    if !("e:" <= key) || |key| - 2 < 22 {
      return None;
    }
    var rest := key[2..];
    var tsStr := rest[..20];
    assert tsStr == key[2..22];
    if rest[20] != ':' {
      return None;
    }
    for i := 0 to |tsStr|
      invariant AllDigits(tsStr[..i])
    {
      if tsStr[i] < '0' || tsStr[i] > '9' {
        return None;
      }
    }
    assert tsStr[..|tsStr|] == tsStr;
    if Value(tsStr) >= UINT64 {
      return None;
    }
    assert rest[21..] == key[23..];
    var source, target := SplitNodePair(rest[21..]);
    if source == "" || target == "" {
      return None;
    }
    return Some(Edge(source, target, Value(tsStr)));
  }

  method DigitsFollow(s: string, i: nat) returns (all: bool)
    requires i + 20 <= |s|
    ensures all <==> AllDigits(s[i..i + 20])
  {
    for j := 0 to 20
      invariant forall k :: i <= k < i + j ==> IsDigit(s[k])
    {
      if s[i + j] < '0' || s[i + j] > '9' {
        assert !IsDigit(s[i..i + 20][j]);
        return false;
      }
    }
    return true;
  }

  method ParseReverseKeyV1(key: string) returns (r: Option<Edge>)
    ensures r == ParseReverse(key)
  {
    if !("r:" <= key) || |key| - 2 < 23 {
      return None;
    }
    var rest := key[2..];
    var tsStart := -1;
    var i := 0;
    while i <= |rest| - 22
      invariant 0 <= i <= |rest| - 21 && tsStart == -1
      invariant FindStamp(rest, i) == FindStamp(rest, 0)
    {
      if rest[i] == ':' {
        var allDigits := DigitsFollow(rest, i + 1);
        if allDigits && i + 21 < |rest| && rest[i + 21] == ':' {
          tsStart := i + 1;
          break;
        }
      }
      i := i + 1;
    }
    if tsStart < 0 {
      return None;
    }
    var target, tsStr, source := rest[..tsStart - 1], rest[tsStart..tsStart + 20], rest[tsStart + 21..];
    if Value(tsStr) >= UINT64 {
      return None;
    }
    if target == "" || source == "" {
      return None;
    }
    return Some(Edge(source, target, Value(tsStr)));
  }

  // ----- round trips -----

  /** A node ID of the form [pf]:digits(:digits)*, where the first group may be empty. */
  predicate IsNodeID(s: string) {
    && |s| >= 2 && (s[0] == 'p' || s[0] == 'f') && s[1] == ':'
    && forall i :: 2 <= i < |s| ==> Continues(s, i)
  }

  predicate StartsWithDigit(s: string) {
    s != "" && IsDigit(s[0])
  }

  lemma {:induction false} SplitJoined(s: string, t: string)
    ensures t != "" ==> (Split(s + ":" + t) == (s, t) <==> IsNodeID(s) && !StartsWithDigit(t))
  {
    var pair := s + ":" + t;
    if t != "" && |s| >= 2 {
      assert pair[..|s|] == s && pair[|s|] == ':' && pair[|s| + 1..] == t;
      assert Continues(pair, |s|) <==> StartsWithDigit(t);
      forall i | 2 <= i < |s| ensures Continues(pair, i) <==> Continues(s, i) {
        if i + 1 == |s| { assert pair[i + 1] == ':'; }
      }
    }
  }

  lemma {:induction false} EdgeKeyParts(d: string, s: string, t: string)
    requires |d| == 20
    ensures var key := "e:" + d + ":" + s + ":" + t;
            "e:" <= key && |key| >= 24 && key[22] == ':' && key[2..22] == d && key[23..] == s + ":" + t
  {
    var key := "e:" + d + ":" + s + ":" + t;
    assert key == "e:" + (d + (":" + (s + ":" + t)));
  }

  /** An edge key parses back to what it was printed from exactly for well-formed sources and unambiguous targets. */
  lemma {:induction false} EdgeRoundTripIff(ts: nat, s: string, t: string)
    requires ts < UINT64
    ensures ParseEdge(EdgeKey(ts, s, t)) == Some(Edge(s, t, ts)) <==> IsNodeID(s) && t != "" && !StartsWithDigit(t)
  {
    StampValue(ts);
    EdgeKeyParts(Stamp(ts), s, t);
    SplitJoined(s, t);
  }

  /** The target holds a ":<20 digits>" group that ends at a colon or at its own end. */
  predicate HasStampGroup(t: string) {
    exists i: nat :: i < |t| && StampAt(t + ":", i)
  }

  lemma {:induction false} StampInMiddle(t: string, d: string, s: string)
    requires |d| == 20 && AllDigits(d)
    ensures var rest := t + ":" + d + ":" + s;
            && rest[..|t|] == t && rest[|t| + 1..|t| + 21] == d && rest[|t| + 22..] == s
            && StampAt(rest, |t|)
  {
    var rest := t + ":" + d + ":" + s;
    assert rest[|t| + 1..|t| + 21] == d;
  }

  /** A stamp that starts inside the target lies inside the target and its closing colon. */
  lemma {:induction false} EarlierStamp(t: string, tail: string, i: nat)
    requires i < |t| && tail != "" && tail[0] == ':'
    ensures StampAt(t + tail, i) <==> StampAt(t + ":", i)
  {
    var rest, own := t + tail, t + ":";
    if i + 21 <= |t| {
      assert rest[i + 1..i + 21] == own[i + 1..i + 21];
    } else if i + 21 < |rest| {
      assert rest[i + 1..i + 21][|t| - i - 1] == ':';
    }
  }

  lemma {:induction false} FindsOwnStampIff(t: string, d: string, s: string)
    requires |d| == 20 && AllDigits(d)
    ensures FindStamp(t + ":" + d + ":" + s, 0) == Some(|t|) <==> !HasStampGroup(t)
  {
    var tail := ":" + d + ":" + s;
    var rest := t + ":" + d + ":" + s;
    assert rest == t + tail;
    StampInMiddle(t, d, s);
    forall i: nat | i < |t| ensures StampAt(rest, i) <==> StampAt(t + ":", i) { EarlierStamp(t, tail, i); }
  }

  lemma {:induction false} ReverseParsesIff(t: string, d: string, s: string)
    requires |d| == 20 && AllDigits(d) && Value(d) < UINT64
    ensures ParseReverse("r:" + t + ":" + d + ":" + s) == Some(Edge(s, t, Value(d))) <==>
        s != "" && t != "" && !HasStampGroup(t)
  {
    var rest := t + ":" + d + ":" + s;
    var key := "r:" + t + ":" + d + ":" + s;
    assert key == "r:" + rest && key[2..] == rest;
    StampInMiddle(t, d, s);
    FindsOwnStampIff(t, d, s);
  }

  /** A reverse key parses back exactly when both IDs are non-empty and the target holds no stamp-like group. */
  lemma {:induction false} ReverseRoundTripIff(ts: nat, t: string, s: string)
    requires ts < UINT64
    ensures ParseReverse(ReverseKey(ts, t, s)) == Some(Edge(s, t, ts)) <==> s != "" && t != "" && !HasStampGroup(t)
  {
    StampValue(ts);
    ReverseParsesIff(t, Stamp(ts), s);
  }

  // ----- what the parsers accept, by shape -----

  lemma {:induction false} DigitsOfValue(d: string)
    requires AllDigits(d)
    ensures Digits(Value(d), Decimal, |d|) == d
    decreases |d|
  {
    if d != "" {
      var init, c := d[..|d| - 1], d[|d| - 1];
      DigitsOfValue(init);
      assert IsDigit(c);
      assert DigitOf(c as int - '0' as int) == c;
      assert Value(d) / 10 == Value(init) && Value(d) % 10 == c as int - '0' as int;
      assert d == init + [c];
    }
  }

  lemma {:induction false} StampOfValue(d: string)
    requires |d| == 20 && AllDigits(d)
    ensures Stamp(Value(d)) == d
  {
    DigitsOfValue(d);
  }

  /** The edge key of e with the byte b where the colon between source and target belongs. */
  function KeyWith(e: Edge, b: char): string {
    "e:" + Stamp(e.ts) + ":" + e.source + [b] + e.target
  }

  /** The greedy scan stops at the byte b before the target t. */
  predicate Separates(b: char, t: string) {
    !IsDigit(b) && (b == ':' ==> !StartsWithDigit(t))
  }

  lemma {:induction false} SplitParts(pair: string)
    ensures var (s, t) := Split(pair);
            s != "" && t != "" ==> |s| < |pair| && pair == s + [pair[|s|]] + t && IsNodeID(s) && Separates(pair[|s|], t)
  {
    var (s, t) := Split(pair);
    if s != "" && t != "" {
      var e := ScanEnd(pair, 2);
      assert |s| == e && pair[..e] == s && pair[e + 1..] == t;
      forall i | 2 <= i < e ensures Continues(s, i) { assert Continues(pair, i) && !Continues(pair, e); }
    }
  }

  lemma {:induction false} SplitAt(s: string, b: char, t: string)
    requires IsNodeID(s) && t != "" && Separates(b, t)
    ensures Split(s + [b] + t) == (s, t)
  {
    var pair := s + [b] + t;
    assert pair[..|s|] == s && pair[|s|] == b && pair[|s| + 1..] == t;
    forall i | 2 <= i < |s| ensures Continues(pair, i) {
      assert Continues(s, i);
      assert pair[i] == s[i] && (i + 1 < |s| ==> pair[i + 1] == s[i + 1]);
    }
    assert !Continues(pair, |s|) by { assert pair[|s| + 1] == t[0]; }
  }

  lemma {:induction false} KeyParts(d: string, pair: string)
    requires |d| == 20 && pair != ""
    ensures var k := "e:" + d + ":" + pair;
            "e:" <= k && |k| >= 24 && k[22] == ':' && k[2..22] == d && k[23..] == pair
  {
    var k := "e:" + d + ":" + pair;
    assert k == "e:" + (d + (":" + pair));
  }

  lemma {:induction false} KeyFromParts(k: string)
    requires "e:" <= k && |k| >= 24 && k[22] == ':'
    ensures k == "e:" + k[2..22] + ":" + k[23..]
  {
  }

  /** The edges that keys parse to: a node ID as source, and a byte that ends it before the target. */
  predicate ReadFrom(e: Edge, b: char) {
    e.ts < UINT64 && IsNodeID(e.source) && e.target != "" && Separates(b, e.target)
  }

  lemma {:induction false} ParsedEdge(k: string)
    requires ParseEdge(k).Some?
    ensures var e := ParseEdge(k).value;
            23 + |e.source| < |k| && k == KeyWith(e, k[23 + |e.source|]) && ReadFrom(e, k[23 + |e.source|])
  {
    var e, d, pair := ParseEdge(k).value, k[2..22], k[23..];
    SplitParts(pair);
    StampOfValue(d);
    KeyFromParts(k);
    assert "e:" + d + ":" + (e.source + [pair[|e.source|]] + e.target) == KeyWith(e, pair[|e.source|]);
  }

  lemma {:induction false} KeyWithParses(e: Edge, b: char)
    requires ReadFrom(e, b)
    ensures ParseEdge(KeyWith(e, b)) == Some(e)
  {
    var pair := e.source + [b] + e.target;
    assert KeyWith(e, b) == "e:" + Stamp(e.ts) + ":" + pair;
    StampValue(e.ts);
    KeyParts(Stamp(e.ts), pair);
    SplitAt(e.source, b, e.target);
  }

  /** A reverse key that parses is the printed key of what it parses to. */
  lemma {:induction false} ParsedReverse(k: string)
    requires ParseReverse(k).Some?
    ensures var e := ParseReverse(k).value;
            k == ReverseKey(e.ts, e.target, e.source) && e.ts < UINT64 && e.source != "" && e.target != ""
            && !HasStampGroup(e.target)
  {
    var e, rest := ParseReverse(k).value, k[2..];
    var i := FindStamp(rest, 0).value;
    var d := rest[i + 1..i + 21];
    StampOfValue(d);
    assert rest == e.target + ":" + d + ":" + e.source;
    FindsOwnStampIff(e.target, d, e.source);
    assert k == "r:" + rest;
  }
}
