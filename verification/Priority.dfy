/**
 The two-priority pipeline of pkg/transport/priority.go, with its Pebble-backed low-priority queue.

 `Pipe` is the state of one pipeline together with its database; the `After...` functions say what each
 locked method does to it. The class is proved against them, and the theorems range over runs of them.
 */
module Priority {
  import opened Common
  import opened Lex
  import opened Numerals

  const PRIORITY_HIGH := 2
  const SEQ_KEY := "lp:seq"
  const KEY_WIDTH: nat := 16

  /** `data` is nil for a heartbeat. */
  datatype Event = Event(
    data: Option<string>, hash: string, priority: int, tainted: bool, ruleMatch: bool, timestamp: int)

  /** A database cell: a queued event, or the sequence counter under SEQ_KEY. */
  datatype Value = EventValue(evt: Event) | SeqValue(n: nat)

  type DB = map<string, Value>

  datatype Summary = Summary(count: nat, firstSeen: int, lastSeen: int, hashCount: map<string, nat>)

  datatype Pipe = Pipe(
    high: seq<Event>, low: seq<Event>, db: Option<DB>, lowSeq: nat,
    processed: nat, highSent: nat, lowStaged: nat, maxDrain: int)

  predicate IsHigh(e: Event) {
    e.priority >= PRIORITY_HIGH || e.tainted || e.ruleMatch
  }

  /** What survives serialization: the payload field is not written out. */
  function Stored(e: Event): Event {
    e.(data := None)
  }

  function EventKey(n: nat): string {
    "lp:" + Digits(n, Hex, KEY_WIDTH)
  }

  // ----- the steps -----

  function NextSeq(n: nat): nat {
    (n + 1) % UINT64
  }

  function AfterIngest(p: Pipe, e: Event): Pipe {
    if IsHigh(e) then p.(high := p.high + [e], highSent := p.highSent + 1)
    else if p.db.Some? then
      var n := NextSeq(p.lowSeq);
      p.(lowSeq := n,
          db := Some(p.db.value[EventKey(n) := EventValue(Stored(e))][SEQ_KEY := SeqValue(n)]),
          lowStaged := p.lowStaged + 1)
    else p.(low := p.low + [e], lowStaged := p.lowStaged + 1)
  }

  function AfterDrainHigh(p: Pipe): Pipe {
    p.(high := [], processed := p.processed + |p.high|)
  }

  predicate IsQueued(db: DB, k: string) {
    k in db && k != SEQ_KEY && db[k].EventValue?
  }

  /** Extends the taken keys by the queued keys of ks, until max keys are taken; the first is always taken. */
  function Take(db: DB, ks: seq<string>, taken: seq<string>, max: int): (r: seq<string>)
    ensures (forall i :: 0 <= i < |taken| ==> IsQueued(db, taken[i])) ==>
        forall i {:trigger IsQueued(db, r[i])} :: 0 <= i < |r| ==> IsQueued(db, r[i])
    decreases |ks|
  {
    if ks == [] || (taken != [] && |taken| >= max) then taken
    else Take(db, ks[1..], if IsQueued(db, ks[0]) then taken + [ks[0]] else taken, max)
  }

  function InRange(db: DB): set<string> {
    set k | k in db && Leq("lp:", k) && Less(k, "lq:")
  }

  /** The keys that one drain removes. */
  ghost function DrainKeys(db: DB, max: int): (r: seq<string>)
    ensures forall i {:trigger IsQueued(db, r[i])} :: 0 <= i < |r| ==> IsQueued(db, r[i])
  {
    Take(db, Ascending(InRange(db)), [], max)
  }

  function EventsAt(db: DB, ks: seq<string>): seq<Event>
    requires forall i :: 0 <= i < |ks| ==> IsQueued(db, ks[i])
  {
    seq(|ks|, i requires 0 <= i < |ks| && IsQueued(db, ks[i]) => db[ks[i]].evt)
  }

  /** The low-priority events that a drain removes, in order. */
  ghost function DrainedLow(p: Pipe): seq<Event> {
    if p.db.Some? then EventsAt(p.db.value, DrainKeys(p.db.value, p.maxDrain)) else p.low
  }

  ghost function AfterDrainLow(p: Pipe): Pipe {
    var n := |DrainedLow(p)|;
    if p.db.Some? then AfterTaking(p, p.db.value, DrainKeys(p.db.value, p.maxDrain))
        else p.(low := [], processed := p.processed + n)
  }

  function AfterTaking(p: Pipe, db: DB, ks: seq<string>): Pipe {
    p.(db := Some(db - SetOf(ks)), low := if ks == [] then p.low else [], processed := p.processed + |ks|)
  }

  lemma {:induction false} DrainLowKeepsHigh(p: Pipe)
    ensures AfterDrainLow(p).high == p.high
  {
  }

  function SetOf(ks: seq<string>): set<string> {
    set k | k in ks
  }

  /** A new process opens the database that the previous one left; only the database survives. */
  function AfterReopen(p: Pipe): Pipe {
    Pipe([], [], p.db, if p.db.Some? then LoadSeq(p.db.value) else 0, 0, 0, 0, p.maxDrain)
  }

  function LoadSeq(db: DB): nat {
    if SEQ_KEY in db && db[SEQ_KEY].SeqValue? then db[SEQ_KEY].n else 0
  }

  // ----- the shape of a low-priority database -----

  lemma {:induction false} KeySpace(a: nat, b: nat)
    requires a < UINT64 && b < UINT64
    ensures Less(EventKey(a), EventKey(b)) <==> a < b
    ensures EventKey(a) == EventKey(b) ==> a == b
  {
    assert Pow(Hex, 8) == 0x1_0000_0000;
    assert Pow(Hex, KEY_WIDTH) == UINT64;
    var x, y := Digits(a, Hex, KEY_WIDTH), Digits(b, Hex, KEY_WIDTH);
    DigitsOrder(a, b, Hex, KEY_WIDTH);
    CommonPrefix("lp:", x, y);
    assert EventKey(a)[3..] == x && EventKey(b)[3..] == y;
  }

  lemma {:induction false} HexDigitsAreLow(n: nat, w: nat)
    ensures forall c :: c in Digits(n, Hex, w) ==> c <= 'f'
    decreases w
  {
    if w > 0 { HexDigitsAreLow(Hex.Quot(n), w - 1); }
  }

  /** Every event key is in the scanned range and sorts before the sequence cell. */
  lemma {:induction false} KeyInRange(n: nat)
    ensures Leq("lp:", EventKey(n)) && Less(EventKey(n), "lq:") && Less(EventKey(n), SEQ_KEY) && EventKey(n) != SEQ_KEY
  {
    var d := Digits(n, Hex, KEY_WIDTH);
    HexDigitsAreLow(n, KEY_WIDTH);
    assert d[0] in d;
    LpKeyOrder(d);
  }

  lemma {:induction false} LpKeyOrder(d: string)
    requires d != "" && d[0] <= 'f'
    ensures Leq("lp:", "lp:" + d) && Less("lp:" + d, "lq:") && Less("lp:" + d, SEQ_KEY) && "lp:" + d != SEQ_KEY
  {
    CommonPrefix("lp:", "", d);
    assert "lp:" + "" == "lp:" && SEQ_KEY == "lp:" + "seq";
    CommonPrefix("lp:", d, "seq");
    HeadDecides("lp:", "lq:", d, "");
    assert "lq:" + "" == "lq:";
    CommonPrefix("l", "p:", "q:");
    assert "l" + "p:" == "lp:" && "l" + "q:" == "lq:";
    assert ("lp:" + d)[3] == d[0] && SEQ_KEY[3] == 's';
  }

  lemma {:induction false} SeqKeyInRange()
    ensures Leq("lp:", SEQ_KEY) && Less(SEQ_KEY, "lq:")
  {
    CommonPrefix("lp:", "", "seq");
    assert "lp:" + "" == "lp:" && SEQ_KEY == "lp:" + "seq";
    HeadDecides("lp:", "lq:", "seq", "");
    assert "lq:" + "" == "lq:";
    CommonPrefix("l", "p:", "q:");
    assert "l" + "p:" == "lp:" && "l" + "q:" == "lq:";
  }

  /** The keys of n consecutive events after number lo. */
  function Keys(lo: nat, n: nat): seq<string> {
    seq(n, i requires 0 <= i => EventKey(lo + 1 + i))
  }

  /** Apart from the counter, the database holds the events q under the keys ks. */
  ghost predicate StoredAt(db: DB, ks: seq<string>, q: seq<Event>) {
    && |ks| == |q| && db.Keys - {SEQ_KEY} == SetOf(ks)
    && forall i {:trigger CellAt(db, ks, q, i)} :: 0 <= i < |q| ==> CellAt(db, ks, q, i)
  }

  ghost predicate CellAt(db: DB, ks: seq<string>, q: seq<Event>, i: int) {
    0 <= i < |ks| == |q| && ks[i] in db && db[ks[i]] == EventValue(q[i])
  }

  lemma {:induction false} StoreNext(db: DB, ks: seq<string>, q: seq<Event>, k: string, e: Event, n: nat)
    requires StoredAt(db, ks, q) && k !in ks && k != SEQ_KEY && SEQ_KEY !in ks
    ensures k !in db && StoredAt(db[k := EventValue(e)][SEQ_KEY := SeqValue(n)], ks + [k], q + [e])
  {
    assert k !in db.Keys - {SEQ_KEY};
    var now := db[k := EventValue(e)][SEQ_KEY := SeqValue(n)];
    forall x ensures x in now.Keys - {SEQ_KEY} <==> x in SetOf(ks + [k])
    { assert x in db.Keys - {SEQ_KEY} <==> x in SetOf(ks); }
    forall i | 0 <= i <= |q| ensures CellAt(now, ks + [k], q + [e], i) {
      if i < |q| { assert CellAt(db, ks, q, i) && ks[i] in ks; }
    }
  }

  lemma {:induction false} RemoveOldest(db: DB, gone: seq<string>, left: seq<string>, q: seq<Event>)
    requires StoredAt(db, gone + left, q) && SEQ_KEY !in gone
        && forall i, j :: 0 <= i < |gone| && 0 <= j < |left| ==> gone[i] != left[j]
    ensures StoredAt(db - SetOf(gone), left, q[|gone|..])
  {
    var now, all := db - SetOf(gone), gone + left;
    forall x ensures x in now.Keys - {SEQ_KEY} <==> x in SetOf(left) {
      assert x in db.Keys - {SEQ_KEY} <==> x in SetOf(all);
      assert x in SetOf(all) <==> x in gone || x in left;
    }
    forall i | 0 <= i < |left| ensures CellAt(now, left, q[|gone|..], i)
    { assert CellAt(db, all, q, |gone| + i) && all[|gone| + i] == left[i]; }
  }

  /** The database holds the queue q under the consecutive numbers after lo, and the counter. */
  ghost predicate LowDB(db: DB, lo: nat, q: seq<Event>) {
    && lo + |q| < UINT64
    && StoredAt(db, Keys(lo, |q|), q)
    && LoadSeq(db) == lo + |q|
    && (SEQ_KEY in db ==> db[SEQ_KEY].SeqValue?)
  }

  lemma {:induction false} KeysSorted(lo: nat, n: nat)
    requires lo + n < UINT64
    ensures StrictlySorted(Keys(lo, n))
    ensures forall i :: 0 <= i < n ==> Less(Keys(lo, n)[i], SEQ_KEY) && Keys(lo, n)[i] != SEQ_KEY
    ensures forall i :: 0 <= i < n ==> Leq("lp:", Keys(lo, n)[i]) && Less(Keys(lo, n)[i], "lq:")
  {
    var ks := Keys(lo, n);
    forall i, j | 0 <= i < j < n ensures Less(ks[i], ks[j]) { KeySpace(lo + 1 + i, lo + 1 + j); }
    forall i | 0 <= i < n ensures Leq("lp:", ks[i]) && Less(ks[i], "lq:") && Less(ks[i], SEQ_KEY) && ks[i] != SEQ_KEY {
      KeyInRange(lo + 1 + i);
    }
  }

  function SeqTail(db: DB): seq<string> {
    if SEQ_KEY in db then [SEQ_KEY] else []
  }

  /** The iterator visits the events in the order of their numbers, then the counter. */
  lemma {:induction false} ScanOrder(db: DB, lo: nat, q: seq<Event>)
    requires LowDB(db, lo, q)
    ensures Ascending(InRange(db)) == Keys(lo, |q|) + SeqTail(db)
  {
    var ks := Keys(lo, |q|);
    KeysSorted(lo, |q|);
    SeqKeyInRange();
    forall k | k in db ensures k in InRange(db) {
      if k != SEQ_KEY {
        assert k in db.Keys - {SEQ_KEY};
        var i :| 0 <= i < |ks| && ks[i] == k;
      }
    }
    assert InRange(db) == db.Keys;
    assert forall k :: k in ks + SeqTail(db) <==> k in db.Keys by {
      forall k ensures k in ks + SeqTail(db) <==> k in db.Keys {
        assert k in db.Keys - {SEQ_KEY} <==> k in ks;
      }
    }
    AscendingUnique(ks + SeqTail(db), db.Keys);
  }

  function Batch(max: int, n: nat): nat {
    if max < 1 then (if n == 0 then 0 else 1) else if max < n then max else n
  }

  lemma {:induction false} TakeNone(db: DB, ks: seq<string>, taken: seq<string>, max: int)
    requires forall k :: k in ks ==> !IsQueued(db, k)
    ensures Take(db, ks, taken, max) == taken
    decreases |ks|
  {
    if ks != [] && !(taken != [] && |taken| >= max) { TakeNone(db, ks[1..], taken, max); }
  }

  lemma {:induction false} TakePrefix(db: DB, ks: seq<string>, tail: seq<string>, taken: seq<string>, max: int)
    requires forall i :: 0 <= i < |ks| ==> IsQueued(db, ks[i])
    requires forall k :: k in tail ==> !IsQueued(db, k)
    requires taken == [] || |taken| < max
    ensures Take(db, ks + tail, taken, max) == taken + ks[..Batch(max - |taken|, |ks|)]
    decreases |ks|
  {
    var all := ks + tail;
    if ks == [] {
      assert all == tail;
      TakeNone(db, tail, taken, max);
    } else {
      assert all[0] == ks[0] && all[1..] == ks[1..] + tail;
      var more := taken + [ks[0]];
      assert Take(db, all, taken, max) == Take(db, ks[1..] + tail, more, max);
      if |more| < max {
        TakePrefix(db, ks[1..], tail, more, max);
        assert [ks[0]] + ks[1..][..Batch(max - |more|, |ks| - 1)] == ks[..Batch(max - |taken|, |ks|)];
      } else {
        assert [ks[0]] == ks[..1];
      }
    }
  }

  lemma {:induction false} OldestKeys(db: DB, lo: nat, q: seq<Event>, max: int)
    requires LowDB(db, lo, q)
    ensures DrainKeys(db, max) == Keys(lo, |q|)[..Batch(max, |q|)]
  {
    var ks := Keys(lo, |q|);
    ScanOrder(db, lo, q);
    forall i | 0 <= i < |ks| ensures IsQueued(db, ks[i]) {
      assert CellAt(db, ks, q, i);
      KeyInRange(lo + 1 + i);
    }
    TakePrefix(db, ks, SeqTail(db), [], max);
  }

  lemma {:induction false} EventsOfPrefix(db: DB, ks: seq<string>, q: seq<Event>, n: nat)
    requires StoredAt(db, ks, q) && n <= |q| && forall i :: 0 <= i < n ==> IsQueued(db, ks[..n][i])
    ensures EventsAt(db, ks[..n]) == q[..n]
  {
    forall i | 0 <= i < n ensures EventsAt(db, ks[..n])[i] == q[i]
    { assert CellAt(db, ks, q, i) && ks[..n][i] == ks[i]; }
  }

  /** A drain takes the oldest events, up to the cap. */
  lemma {:induction false} DrainTakesOldest(db: DB, lo: nat, q: seq<Event>, max: int)
    requires LowDB(db, lo, q)
    ensures DrainKeys(db, max) == Keys(lo, |q|)[..Batch(max, |q|)]
        && EventsAt(db, DrainKeys(db, max)) == q[..Batch(max, |q|)]
  {
    OldestKeys(db, lo, q, max);
    EventsOfPrefix(db, Keys(lo, |q|), q, Batch(max, |q|));
  }

  lemma {:induction false} EventsAppend(db: DB, ks: seq<string>, k: string)
    requires (forall i :: 0 <= i < |ks| ==> IsQueued(db, ks[i])) && IsQueued(db, k)
    ensures (forall i :: 0 <= i < |ks + [k]| ==> IsQueued(db, (ks + [k])[i]))
    ensures EventsAt(db, ks + [k]) == EventsAt(db, ks) + [db[k].evt]
  {
  }

  lemma {:induction false} KeysSplit(lo: nat, m: nat, n: nat)
    requires lo + m < UINT64 && n <= m
    ensures var gone, left := Keys(lo, m)[..n], Keys(lo + n, m - n);
            && Keys(lo, m) == gone + left && SEQ_KEY !in gone
            && forall i, j :: 0 <= i < |gone| && 0 <= j < |left| ==> gone[i] != left[j]
  {
    var before, gone, left := Keys(lo, m), Keys(lo, m)[..n], Keys(lo + n, m - n);
    KeysSorted(lo, m);
    forall i, j | 0 <= i < |gone| && 0 <= j < |left| ensures gone[i] != left[j] {
      assert before[i] == gone[i] && before[n + j] == left[j];
      Asymmetric(before[i], before[n + j]);
    }
  }

  lemma {:induction false} DrainKeepsShape(db: DB, lo: nat, q: seq<Event>, n: nat)
    requires LowDB(db, lo, q) && n <= |q|
    ensures LowDB(db - SetOf(Keys(lo, |q|)[..n]), lo + n, q[n..])
  {
    KeysSplit(lo, |q|, n);
    RemoveOldest(db, Keys(lo, |q|)[..n], Keys(lo + n, |q| - n), q);
  }

  lemma {:induction false} NextKeyIsNew(lo: nat, n: nat)
    requires lo + n + 1 < UINT64
    ensures var k := EventKey(lo + n + 1);
            Keys(lo, n + 1) == Keys(lo, n) + [k] && k !in Keys(lo, n) && k != SEQ_KEY && SEQ_KEY !in Keys(lo, n)
  {
    KeyInRange(lo + n + 1);
    KeysSorted(lo, n);
    forall i | 0 <= i < n ensures Keys(lo, n)[i] != EventKey(lo + n + 1) { KeySpace(lo + 1 + i, lo + n + 1); }
  }

  /** Writing the next event overwrites nothing and appends it to the queue. */
  lemma {:induction false} IngestKeepsShape(db: DB, lo: nat, q: seq<Event>, e: Event)
    requires LowDB(db, lo, q) && lo + |q| + 1 < UINT64
    ensures var n := lo + |q| + 1;
            && EventKey(n) !in db
            && LowDB(db[EventKey(n) := EventValue(e)][SEQ_KEY := SeqValue(n)], lo, q + [e])
  {
    NextKeyIsNew(lo, |q|);
    StoreNext(db, Keys(lo, |q|), q, EventKey(lo + |q| + 1), e, lo + |q| + 1);
  }

  // ----- runs -----

  datatype Op = Ingest(e: Event) | DrainHigh | DrainLow | Reopen

  ghost function Step(p: Pipe, op: Op): Pipe {
    match op
    case Ingest(e) => AfterIngest(p, e)
    case DrainHigh => AfterDrainHigh(p)
    case DrainLow => AfterDrainLow(p)
    case Reopen => AfterReopen(p)
  }

  ghost function Run(p: Pipe, ops: seq<Op>): Pipe {
    if ops == [] then p else Step(Run(p, ops[..|ops| - 1]), ops[|ops| - 1])
  }

  function QueuedBy(persistent: bool, op: Op): seq<Event> {
    if op.Ingest? && !IsHigh(op.e) then [if persistent then Stored(op.e) else op.e] else []
  }

  ghost function DrainedBy(p: Pipe, op: Op): seq<Event> {
    if op.DrainLow? then DrainedLow(p) else []
  }

  /** The low-priority events that the run drains, in order. */
  ghost function Drained(p: Pipe, ops: seq<Op>): seq<Event> {
    if ops == [] then []
    else
      var before := ops[..|ops| - 1];
      Drained(p, before) + DrainedBy(Run(p, before), ops[|ops| - 1])
  }

  /** The low-priority events that the run ingests, as its queue keeps them. */
  function Queued(persistent: bool, ops: seq<Op>): seq<Event> {
    if ops == [] then [] else Queued(persistent, ops[..|ops| - 1]) + QueuedBy(persistent, ops[|ops| - 1])
  }

  /** The pipeline's pending low-priority events are q. */
  ghost predicate Holds(p: Pipe, lo: nat, q: seq<Event>) {
    if p.db.Some? then p.low == [] && p.lowSeq == lo + |q| && LowDB(p.db.value, lo, q) else p.low == q
  }

  /** What the counters add up to, apart from the events in flight. */
  function Slack(p: Pipe, depth: nat): int {
    p.highSent + p.lowStaged - p.processed - |p.high| - depth
  }

  lemma {:induction false} IngestHolds(p: Pipe, lo: nat, q: seq<Event>, e: Event)
    requires Holds(p, lo, q) && !IsHigh(e) && (p.db.Some? ==> lo + |q| + 1 < UINT64)
    ensures var q' := q + [if p.db.Some? then Stored(e) else e];
            Holds(AfterIngest(p, e), lo, q') && Slack(AfterIngest(p, e), |q'|) == Slack(p, |q|)
  {
    if p.db.Some? {
      assert NextSeq(p.lowSeq) == lo + |q| + 1;
      IngestKeepsShape(p.db.value, lo, q, Stored(e));
    }
  }

  lemma {:induction false} TakingHolds(p: Pipe, lo: nat, q: seq<Event>, n: nat)
    requires Holds(p, lo, q) && p.db.Some? && n <= |q|
    ensures var r := AfterTaking(p, p.db.value, Keys(lo, |q|)[..n]);
            Holds(r, lo + n, q[n..]) && r.db.Some? && Slack(r, |q| - n) == Slack(p, |q|)
  {
    DrainKeepsShape(p.db.value, lo, q, n);
  }

  lemma {:induction false} DrainIsTaking(p: Pipe, lo: nat, q: seq<Event>, n: nat)
    requires Holds(p, lo, q) && p.db.Some? && n == Batch(p.maxDrain, |q|)
    ensures AfterDrainLow(p) == AfterTaking(p, p.db.value, Keys(lo, |q|)[..n]) && DrainedLow(p) == q[..n]
  {
    DrainTakesOldest(p.db.value, lo, q, p.maxDrain);
  }

  function DrainCount(p: Pipe, n: nat): nat {
    if p.db.Some? then Batch(p.maxDrain, n) else n
  }

  lemma {:induction false} DrainHolds(p: Pipe, lo: nat, q: seq<Event>)
    requires Holds(p, lo, q)
    ensures var n := DrainCount(p, |q|); Holds(AfterDrainLow(p), lo + n, q[n..])
  {
    if p.db.Some? {
      var n := Batch(p.maxDrain, |q|);
      var r := AfterTaking(p, p.db.value, Keys(lo, |q|)[..n]);
      assert AfterDrainLow(p) == r by { DrainIsTaking(p, lo, q, n); }
      assert Holds(r, lo + n, q[n..]) by { TakingHolds(p, lo, q, n); }
    }
  }

  lemma {:induction false} DrainCounts(p: Pipe, lo: nat, q: seq<Event>)
    requires Holds(p, lo, q)
    ensures var n := DrainCount(p, |q|);
            && DrainedLow(p) == q[..n] && AfterDrainLow(p).db.Some? == p.db.Some?
            && Slack(AfterDrainLow(p), |q| - n) == Slack(p, |q|)
  {
    if p.db.Some? {
      var n := Batch(p.maxDrain, |q|);
      var r := AfterTaking(p, p.db.value, Keys(lo, |q|)[..n]);
      assert AfterDrainLow(p) == r && DrainedLow(p) == q[..n] by { DrainIsTaking(p, lo, q, n); }
    }
  }

  /** The pending events, and the number before them, after one operation. */
  function NextQueue(p: Pipe, q: seq<Event>, op: Op): seq<Event> {
    if op.DrainLow? then DrainBound(p, |q|); q[DrainCount(p, |q|)..] else q + QueuedBy(p.db.Some?, op)
  }

  function NextLow(p: Pipe, lo: nat, q: seq<Event>, op: Op): nat {
    if op.DrainLow? then lo + DrainCount(p, |q|) else lo
  }

  lemma {:induction false} DrainBound(p: Pipe, n: nat)
    ensures DrainCount(p, n) <= n
  {
  }

  lemma {:induction false} StepHolds(p: Pipe, lo: nat, q: seq<Event>, op: Op)
    requires Holds(p, lo, q) && (p.db.Some? ==> lo + |q| + 1 < UINT64) && (p.db.None? ==> !op.Reopen?)
    ensures Holds(Step(p, op), NextLow(p, lo, q, op), NextQueue(p, q, op))
  {
    if op.DrainLow? {
      DrainHolds(p, lo, q);
    } else if op.Ingest? && !IsHigh(op.e) {
      IngestHolds(p, lo, q, op.e);
    } else {
      QuietHolds(p, lo, q, op);
    }
  }

  lemma {:induction false} QuietHolds(p: Pipe, lo: nat, q: seq<Event>, op: Op)
    requires Holds(p, lo, q) && (p.db.None? ==> !op.Reopen?) && !op.DrainLow? && (op.Ingest? ==> IsHigh(op.e))
    ensures Holds(Step(p, op), lo, q + QueuedBy(p.db.Some?, op))
  {
    assert q + [] == q;
  }

  lemma {:induction false} StepCounts(p: Pipe, lo: nat, q: seq<Event>, op: Op)
    requires Holds(p, lo, q) && (p.db.Some? ==> lo + |q| + 1 < UINT64) && (p.db.None? ==> !op.Reopen?)
    ensures Step(p, op).db.Some? == p.db.Some?
    ensures q + QueuedBy(p.db.Some?, op) == DrainedBy(p, op) + NextQueue(p, q, op)
    ensures !op.Reopen? ==> Slack(Step(p, op), |NextQueue(p, q, op)|) == Slack(p, |q|)
  {
    if op.DrainLow? {
      DrainCounts(p, lo, q);
      assert q + [] == q;
    } else if op.Ingest? && !IsHigh(op.e) {
      IngestHolds(p, lo, q, op.e);
    }
  }

  lemma {:induction false} Requeue(q: seq<Event>, a: seq<Event>, x: seq<Event>, d: seq<Event>, q1: seq<Event>,
        y: seq<Event>, q2: seq<Event>)
    requires q + a == d + q1 && q1 + x == y + q2
    ensures q + (a + x) == (d + y) + q2
  {
    calc {
      q + (a + x);
      (q + a) + x;
      (d + q1) + x;
      d + (q1 + x);
      d + (y + q2);
      (d + y) + q2;
    }
  }

  /**
   First in, first out, across any mix of ingests, capped drains, crashes and reopenings: what was drained,
   followed by what is still queued, is what was queued at the start followed by every low-priority event
   ingested, in order.
   */
  lemma {:induction false} Fifo(p: Pipe, lo: nat, q: seq<Event>, ops: seq<Op>) returns (lo': nat, q': seq<Event>)
    requires Holds(p, lo, q) && (p.db.None? ==> forall op :: op in ops ==> !op.Reopen?)
    requires p.db.Some? ==> lo + |q| + |ops| < UINT64
    ensures Holds(Run(p, ops), lo', q') && Run(p, ops).db.Some? == p.db.Some?
    ensures q + Queued(p.db.Some?, ops) == Drained(p, ops) + q'
    ensures p.db.Some? ==> lo' + |q'| <= lo + |q| + |ops|
    ensures (forall op :: op in ops ==> !op.Reopen?) ==> Slack(Run(p, ops), |q'|) == Slack(p, |q|)
    decreases |ops|
  {
    if ops == [] {
      lo', q' := lo, q;
    } else {
      var init, op := ops[..|ops| - 1], ops[|ops| - 1];
      assert op in ops && forall o :: o in init ==> o in ops;
      var lo1, q1 := Fifo(p, lo, q, init);
      var mid := Run(p, init);
      lo', q' := NextLow(mid, lo1, q1, op), NextQueue(mid, q1, op);
      StepHolds(mid, lo1, q1, op);
      StepCounts(mid, lo1, q1, op);
      Requeue(q, Queued(p.db.Some?, init), QueuedBy(p.db.Some?, op), Drained(p, init), q1, DrainedBy(mid, op), q');
    }
  }

  /** Conservation within one session: everything accepted, plus the depth at open, is processed or pending. */
  lemma {:induction false} Conservation(p: Pipe, lo: nat, q: seq<Event>, ops: seq<Op>) returns (depth: nat)
    requires Holds(p, lo, q) && p.db.Some? && lo + |q| + |ops| < UINT64
    requires forall op :: op in ops ==> !op.Reopen?
    ensures var s := Run(AfterReopen(p), ops); s.highSent + s.lowStaged + |q| == s.processed + |s.high| + depth
    ensures exists lo', q' :: Holds(Run(AfterReopen(p), ops), lo', q') && |q'| == depth
  {
    var lo1, q1 := Fifo(AfterReopen(p), lo, q, ops);
    depth := |q1|;
  }

  // ----- the summary of a drain -----

  function HashCounts(events: seq<Event>): map<string, nat> {
    if events == [] then map[]
    else
      var m, h := HashCounts(events[..|events| - 1]), events[|events| - 1].hash;
      m[h := (if h in m then m[h] else 0) + 1]
  }

  function SummaryOf(events: seq<Event>): Option<Summary> {
    if events == [] then None
    else Some(Summary(|events|, events[0].timestamp, events[|events| - 1].timestamp, HashCounts(events)))
  }

  ghost function Total(m: map<string, nat>): nat {
    if m == map[] then 0 else var h :| h in m; m[h] + Total(m - {h})
  }

  lemma {:induction false} TotalMinus(m: map<string, nat>, h: string)
    requires h in m
    ensures Total(m) == m[h] + Total(m - {h})
    decreases |m|
  {
    var g :| g in m && Total(m) == m[g] + Total(m - {g});
    if g != h {
      TotalMinus(m - {g}, h);
      TotalMinus(m - {h}, g);
      assert m - {g} - {h} == m - {h} - {g};
    }
  }

  /** The hash counts of a summary add up to its event count. */
  lemma {:induction false} CountsAddUp(events: seq<Event>)
    ensures Total(HashCounts(events)) == |events|
    decreases |events|
  {
    if events != [] {
      var init, h := events[..|events| - 1], events[|events| - 1].hash;
      CountsAddUp(init);
      var m, after := HashCounts(init), HashCounts(events);
      TotalMinus(after, h);
      assert after - {h} == m - {h};
      if h in m { TotalMinus(m, h); } else { assert m - {h} == m; }
    }
  }

  function Hashes(events: seq<Event>): multiset<string> {
    if events == [] then multiset{} else Hashes(events[..|events| - 1]) + multiset{events[|events| - 1].hash}
  }

  /** Each hash is counted as often as it occurs, and only hashes that occur are counted. */
  lemma {:induction false} CountsAreOccurrences(events: seq<Event>, h: string)
    ensures (if h in HashCounts(events) then HashCounts(events)[h] else 0) == Hashes(events)[h]
    ensures h in HashCounts(events) <==> h in Hashes(events)
    decreases |events|
  {
    if events != [] { CountsAreOccurrences(events[..|events| - 1], h); }
  }

  // ----- the pipeline object -----

  class Pebble {
    var data: DB
  }

  class PriorityPipeline {
    var highPriority: seq<Event>
    var lowPriority: seq<Event>
    const lowDB: Pebble?
    var lowSeq: nat
    var processed: nat
    var highSent: nat
    var lowStaged: nat
    var maxDrain: int

    ghost function State(): Pipe
      reads this, lowDB
    {
      Pipe(highPriority, lowPriority,
          if lowDB == null then None else Some(lowDB.data), lowSeq, processed, highSent, lowStaged, maxDrain)
    }

    /** `NewPriorityPipeline` with no database, `NewPersistentPriorityPipeline` with one. */
    constructor (db: Pebble?)
      ensures State() == AfterReopen(Pipe([], [], if db == null then None else Some(db.data), 0, 0, 0, 0, 10000))
    {
      highPriority, lowPriority, lowDB, processed, highSent, lowStaged, maxDrain := [], [], db, 0, 0, 0, 10000;
      lowSeq := if db == null then 0 else LoadSeq(db.data);
    }

    method Ingest(evt: Event)
      modifies this, lowDB
      ensures State() == AfterIngest(old(State()), evt)
    {
      if IsHigh(evt) {
        highPriority := highPriority + [evt];
        highSent := highSent + 1;
      } else {
        if lowDB != null {
          lowSeq := (lowSeq + 1) % UINT64;
          lowDB.data := lowDB.data[EventKey(lowSeq) := EventValue(Stored(evt))][SEQ_KEY := SeqValue(lowSeq)];
        } else {
          lowPriority := lowPriority + [evt];
        }
        lowStaged := lowStaged + 1;
      }
    }

    method TakeHigh() returns (out: seq<Event>)
      modifies this
      ensures State() == AfterDrainHigh(old(State())) && out == old(highPriority)
    {
      out := highPriority;
      highPriority := [];
      processed := processed + |out|;
    }

    method DrainLowSummary() returns (summary: Option<Summary>)
      modifies this, lowDB
      ensures State() == AfterDrainLow(old(State())) && summary == SummaryOf(DrainedLow(old(State())))
    {
      var events;
      if lowDB != null {
        events := DrainLowFromPebble();
      } else {
        events := lowPriority;
      }
      if |events| == 0 {
        return None;
      }
      summary := Summarize(events);
      lowPriority := [];
      processed := processed + |events|;
    }

    method DrainLowFromPebble() returns (events: seq<Event>)
      requires lowDB != null
      modifies lowDB
      ensures events == EventsAt(old(lowDB.data), DrainKeys(old(lowDB.data), maxDrain))
      ensures lowDB.data == old(lowDB.data) - SetOf(DrainKeys(old(lowDB.data), maxDrain))
    {
      var db := lowDB.data;
      var ks := Scan(InRange(db));
      var keys;
      keys, events := TakeKeys(db, ks, maxDrain);
      lowDB.data := db - SetOf(keys);
    }

    method LowQueueDepth() returns (n: nat)
      ensures n == if lowDB == null then |lowPriority| else CountEvents(Ascending(InRange(lowDB.data)))
    {
      if lowDB == null {
        return |lowPriority|;
      }
      var ks := Scan(InRange(lowDB.data));
      n := CountKeys(ks);
    }
  }

  /** The reading loop of a drain over the keys the iterator yields. */
  method TakeKeys(db: DB, ks: seq<string>, maxDrain: int) returns (keys: seq<string>, events: seq<Event>)
    ensures keys == Take(db, ks, [], maxDrain) && events == EventsAt(db, keys)
  {
    keys, events := [], [];
    for i := 0 to |ks|
      invariant Take(db, ks[i..], keys, maxDrain) == Take(db, ks, [], maxDrain)
      invariant forall j :: 0 <= j < |keys| ==> IsQueued(db, keys[j])
      invariant events == EventsAt(db, keys)
      invariant keys == [] || |keys| < maxDrain
    {
      assert ks[i..][0] == ks[i] && ks[i..][1..] == ks[i + 1..];
      if IsQueued(db, ks[i]) {
        EventsAppend(db, keys, ks[i]);
        events := events + [db[ks[i]].evt];
        keys := keys + [ks[i]];
        if |events| >= maxDrain {
          break;
        }
      }
    }
  }

  method CountKeys(ks: seq<string>) returns (n: nat)
    ensures n == CountEvents(ks)
  {
    n := 0;
    for i := 0 to |ks|
      invariant n == CountEvents(ks[..i])
    {
      assert ks[..i + 1][..i] == ks[..i];
      if ks[i] != SEQ_KEY {
        n := n + 1;
      }
    }
    assert ks[..|ks|] == ks;
  }

  function CountEvents(ks: seq<string>): nat {
    if ks == [] then 0 else CountEvents(ks[..|ks| - 1]) + if ks[|ks| - 1] == SEQ_KEY then 0 else 1
  }

  method Summarize(events: seq<Event>) returns (summary: Option<Summary>)
    requires events != []
    ensures summary == SummaryOf(events)
  {
    var counts := CountHashes(events);
    summary := Some(Summary(|events|, events[0].timestamp, events[|events| - 1].timestamp, counts));
  }

  method CountHashes(events: seq<Event>) returns (counts: map<string, nat>)
    ensures counts == HashCounts(events)
  {
    counts := map[];
    for i := 0 to |events|
      invariant counts == HashCounts(events[..i])
    {
      assert events[..i + 1][..i] == events[..i];
      var h := events[i].hash;
      counts := counts[h := (if h in counts then counts[h] else 0) + 1];
    }
    assert events[..|events|] == events;
  }

  lemma {:induction false} CountAll(ks: seq<string>)
    requires SEQ_KEY !in ks
    ensures CountEvents(ks) == |ks| && CountEvents(ks + [SEQ_KEY]) == |ks|
    decreases |ks|
  {
    assert (ks + [SEQ_KEY])[..|ks|] == ks;
    if ks != [] { CountAll(ks[..|ks| - 1]); }
  }

  /** The reported depth is the length of the pending queue. */
  lemma {:induction false} DepthIsQueueLength(db: DB, lo: nat, q: seq<Event>)
    requires LowDB(db, lo, q)
    ensures CountEvents(Ascending(InRange(db))) == |q|
  {
    ScanOrder(db, lo, q);
    KeysSorted(lo, |q|);
    CountAll(Keys(lo, |q|));
    if SEQ_KEY !in db { assert Keys(lo, |q|) + [] == Keys(lo, |q|); }
  }
}
