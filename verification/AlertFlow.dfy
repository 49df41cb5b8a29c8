/**
 The alert workflow manager of pkg/alertflow/manager.go: deduplication, eviction, silencing and the
 notification interval. Times are nanosecond counts and 0 is the zero time.
 */
module AlertFlow {
  import opened Common

  datatype Status = Open | Assigned | Suppressed | Closed

  datatype Alert = Alert(
    id: string, dedupKey: string, severity: string, pattern: string, headline: string, reason: string, source: string,
    status: Status, assignee: string, count: nat, firstSeen: int, lastSeen: int, lastNotifiedAt: int,
    silenceUntil: int, note: string, details: map<string, string>)

  datatype Input = Input(
    id: string, timestamp: int, severity: string, pattern: string, headline: string, reason: string, source: string,
    details: map<string, string>)

  /** The library's string functions: upper-case and trim, lower-case, and decimal printing. */
  datatype Text = Text(key: string -> string, trim: string -> string, lower: string -> string, itoa: int -> string)

  datatype Flow = Flow(
    alerts: map<string, Alert>, byDedupKey: map<string, string>, order: seq<string>, dedupWindow: int, maxAlerts: nat)

  function DedupKey(t: Text, x: Input): string {
    t.key(x.severity) + "|" + t.key(x.pattern) + "|" + t.key(x.source) + "|" + t.key(x.headline)
  }

  function StableID(t: Text, x: Input, now: int): string {
    if t.trim(x.id) != "" then t.trim(x.id)
    else t.lower(if t.trim(x.pattern) == "" then "alert" else t.trim(x.pattern)) + "-" + t.itoa(now)
  }

  function StatusFor(assignee: string, silenceUntil: int, now: int): Status {
    if silenceUntil != 0 && silenceUntil > now then Suppressed
    else if assignee != "" then Assigned
    else Open
  }

  function Refreshed(a: Alert, now: int): Alert {
    if a.status == Closed then a else a.(status := StatusFor(a.assignee, a.silenceUntil, now))
  }

  // ----- the steps -----

  function NowOf(x: Input, clock: int): int {
    if x.timestamp == 0 then clock else x.timestamp
  }

  /** The alert that an input repeats. */
  function Existing(f: Flow, key: string): Option<string> {
    if key in f.byDedupKey && f.byDedupKey[key] in f.alerts then Some(f.byDedupKey[key]) else None
  }

  /** The stored alert after a repeat, before the notification decision. */
  function Bumped(t: Text, a: Alert, x: Input, now: int): Alert {
    var b := a.(count := a.count + 1, lastSeen := now,
                status := if a.status == Closed then StatusFor(a.assignee, a.silenceUntil, now) else a.status,
                reason := if x.reason != "" then x.reason else a.reason,
                details := a.details["dedup_count" := t.itoa(a.count + 1)]);
    Refreshed(b, now)
  }

  predicate Due(a: Alert, now: int, window: int) {
    a.status != Suppressed && (a.lastNotifiedAt == 0 || now - a.lastNotifiedAt >= window)
  }

  function NewAlert(t: Text, x: Input, now: int): Alert {
    Alert(StableID(t, x, now), DedupKey(t, x), x.severity, x.pattern, x.headline, x.reason, x.source, Open, "", 1,
          now, now, now, 0, "", x.details["dedup_count" := "1"])
  }

  function DropOldest(f: Flow): Flow
    requires f.order != []
  {
    var oldest := f.order[0];
    f.(order := f.order[1..],
       byDedupKey := if oldest in f.alerts then f.byDedupKey - {f.alerts[oldest].dedupKey} else f.byDedupKey,
       alerts := f.alerts - {oldest})
  }

  /** `trimLocked`. */
  function Trim(f: Flow): Flow
    decreases |f.order|
  {
    if |f.order| > f.maxAlerts then Trim(DropOldest(f)) else f
  }

  function Insert(f: Flow, a: Alert): Flow {
    f.(alerts := f.alerts[a.id := a], byDedupKey := f.byDedupKey[a.dedupKey := a.id], order := f.order + [a.id])
  }

  /** The alert that an ingest concerns: the one it repeats, or the one it creates. */
  function Target(f: Flow, t: Text, x: Input, now: int): string {
    match Existing(f, DedupKey(t, x)) case Some(id) => id case None => StableID(t, x, now)
  }

  /** Whether `Ingest` says to deliver the alert. */
  predicate Notifies(f: Flow, t: Text, x: Input, now: int) {
    match Existing(f, DedupKey(t, x))
    case Some(id) => Due(Bumped(t, f.alerts[id], x, now), now, f.dedupWindow)
    case None => true
  }

  /** `Ingest`. */
  function AfterIngest(f: Flow, t: Text, x: Input, clock: int): Flow {
    var now := NowOf(x, clock);
    match Existing(f, DedupKey(t, x))
    case Some(id) =>
      var b := Bumped(t, f.alerts[id], x, now);
      f.(alerts := f.alerts[id := if Notifies(f, t, x, now) then b.(lastNotifiedAt := now) else b])
    case None => Trim(Insert(f, NewAlert(t, x, now)))
  }

  const DEFAULT_SILENCE := 30 * 60 * 1_000_000_000

  /** The duration field of a silence request: empty, a parsed duration, or unparseable. */
  datatype Duration = Unset | Parsed(d: int) | Malformed

  datatype Action =
    | Assign(assignee: string)
    | Silence(duration: Duration)
    | Unsilence
    | Close
    | Reopen
    | Annotate(classification: Option<string>, stamp: string)
    | Unsupported

  function Silenced(a: Alert, until: int, note: string): Alert {
    a.(silenceUntil := until, note := note, status := Suppressed)
  }

  /** `Update` on one alert; None when the request is refused. */
  function Updated(a: Alert, action: Action, note: string, now: int): Option<Alert> {
    match action
    case Assign(assignee) =>
      Some(a.(assignee := assignee, note := note, status := StatusFor(assignee, a.silenceUntil, now)))
    case Silence(Malformed) => None
    case Silence(Unset) => Some(Silenced(a, now + DEFAULT_SILENCE, note))
    case Silence(Parsed(d)) => Some(Silenced(a, now + d, note))
    case Unsilence => Some(a.(silenceUntil := 0, note := note, status := StatusFor(a.assignee, 0, now)))
    case Close => Some(a.(note := note, status := Closed))
    case Reopen => Some(a.(note := note, status := StatusFor(a.assignee, a.silenceUntil, now)))
    case Annotate(None, _) => None
    case Annotate(Some(c), stamp) =>
      Some(a.(note := note, details := a.details["classification" := c]["classification_updated_at" := stamp]))
    case Unsupported => None
  }

  function AfterUpdate(f: Flow, id: string, action: Action, note: string, now: int): Flow {
    if id !in f.alerts then f
    else match Updated(f.alerts[id], action, note, now)
         case None => f
         case Some(a) => f.(alerts := f.alerts[id := a])
  }

  /** Refreshes the listed alerts, last one first; IDs without an alert are skipped. */
  function RefreshAll(alerts: map<string, Alert>, ids: seq<string>, now: int): map<string, Alert> {
    if ids == [] then alerts
    else
      var m := RefreshAll(alerts, ids[1..], now);
      if ids[0] in m then m[ids[0] := Refreshed(m[ids[0]], now)] else m
  }

  /** `Snapshot`. */
  function AfterSnapshot(f: Flow, now: int): Flow {
    f.(alerts := RefreshAll(f.alerts, f.order, now))
  }

  /** A refresh changes statuses only, and brings the listed ones up to date. */
  lemma {:induction false} RefreshOnlyStatus(alerts: map<string, Alert>, ids: seq<string>, now: int)
    ensures var m := RefreshAll(alerts, ids, now);
            && m.Keys == alerts.Keys
            && (forall id :: id in alerts ==> m[id] == if id in ids then Refreshed(alerts[id], now) else alerts[id])
    decreases |ids|
  {
    if ids != [] {
      RefreshOnlyStatus(alerts, ids[1..], now);
      assert ids == [ids[0]] + ids[1..];
    }
  }

  function AfterSetWindow(f: Flow, w: int): Flow {
    if w <= 0 then f else f.(dedupWindow := w)
  }

  // ----- the three structures stay consistent -----

  ghost predicate Distinct(s: seq<string>) {
    forall i, j :: 0 <= i < j < |s| ==> s[i] != s[j]
  }

  /** `order` lists the alerts once each, and `byDedupKey` and `alerts` point at each other. */
  ghost predicate Linked(f: Flow) {
    && Distinct(f.order)
    && (forall id :: id in f.order <==> id in f.alerts)
    && (forall id :: id in f.alerts ==>
          f.alerts[id].id == id && f.alerts[id].dedupKey in f.byDedupKey && f.byDedupKey[f.alerts[id].dedupKey] == id)
    && (forall k :: k in f.byDedupKey ==> f.byDedupKey[k] in f.alerts && f.alerts[f.byDedupKey[k]].dedupKey == k)
  }

  /** The reachable states: linked, within the cap, and every alert notified at least once. */
  ghost predicate Valid(f: Flow) {
    && Linked(f) && f.maxAlerts >= 1 && |f.order| <= f.maxAlerts
    && forall id :: id in f.alerts ==> f.alerts[id].lastNotifiedAt != 0
  }

  lemma {:induction false} InsertFreshLinks(f: Flow, a: Alert)
    requires Linked(f) && a.id !in f.alerts && a.dedupKey !in f.byDedupKey
    ensures Linked(Insert(f, a))
  {
    var g := Insert(f, a);
    assert forall id :: id in g.order <==> id in f.order || id == a.id;
  }

  lemma {:induction false} DropOldestLinks(f: Flow)
    requires Linked(f) && f.order != []
    ensures Linked(DropOldest(f))
  {
    var g, oldest := DropOldest(f), f.order[0];
    assert oldest in f.order;
    TailOfDistinct(f.order);
    forall k | k in g.byDedupKey ensures g.byDedupKey[k] in g.alerts && g.alerts[g.byDedupKey[k]].dedupKey == k {
      assert f.byDedupKey[k] != oldest;
    }
    forall id | id in g.alerts
      ensures g.alerts[id].id == id && g.alerts[id].dedupKey in g.byDedupKey
          && g.byDedupKey[g.alerts[id].dedupKey] == id
    {
      assert f.byDedupKey[f.alerts[id].dedupKey] == id != oldest;
    }
  }

  lemma {:induction false} TailOfDistinct(s: seq<string>)
    requires s != [] && Distinct(s)
    ensures Distinct(s[1..]) && forall x :: x in s[1..] <==> x in s && x != s[0]
  {
    var r := s[1..];
    forall i | 0 <= i < |r| ensures r[i] != s[0] && r[i] in s { assert r[i] == s[i + 1]; }
    forall x | x in s && x != s[0] ensures x in r { var i :| 0 <= i < |s| && s[i] == x; assert r[i - 1] == x; }
  }

  lemma {:induction false} FreshKey(f: Flow, key: string)
    requires Linked(f) && Existing(f, key).None?
    ensures key !in f.byDedupKey
  {
  }

  /** g is f with a appended, after evicting the oldest alert when the cap demands it. */
  ghost predicate Appended(f: Flow, a: Alert, g: Flow)
    requires f.maxAlerts >= 1
  {
    && Valid(g) && a.id in g.alerts && g.alerts[a.id] == a && g.dedupWindow == f.dedupWindow
    && g.order == (if |f.order| < f.maxAlerts then f.order + [a.id] else f.order[1..] + [a.id])
    && forall k :: k in g.alerts && k != a.id ==> k in f.alerts && g.alerts[k] == f.alerts[k]
  }

  lemma {:induction false} InsertAndEvict(f: Flow, a: Alert)
    requires Valid(f) && |f.order| == f.maxAlerts && Linked(Insert(f, a)) && a.id !in f.alerts && a.lastNotifiedAt != 0
    ensures Appended(f, a, DropOldest(Insert(f, a)))
  {
    var h := Insert(f, a);
    DropOldestLinks(h);
    assert h.order[1..] == f.order[1..] + [a.id];
    assert h.order[0] == f.order[0] && f.order[0] in f.order;
  }

  lemma {:induction false} InsertAndTrim(f: Flow, a: Alert)
    requires Valid(f) && a.id !in f.alerts && a.dedupKey !in f.byDedupKey && a.lastNotifiedAt != 0
    ensures Appended(f, a, Trim(Insert(f, a)))
  {
    var h := Insert(f, a);
    InsertFreshLinks(f, a);
    if |f.order| == f.maxAlerts {
      InsertAndEvict(f, a);
      assert Trim(h) == DropOldest(h);
    } else {
      assert Trim(h) == h;
    }
  }

  /** With a fresh ID, a first ingest appends the alert and evicts the oldest one when the cap is passed. */
  lemma {:induction false} FirstIngest(f: Flow, t: Text, x: Input, clock: int)
    requires Valid(f) && clock != 0 && Existing(f, DedupKey(t, x)).None?
    requires StableID(t, x, NowOf(x, clock)) !in f.alerts
    ensures Notifies(f, t, x, NowOf(x, clock))
        && Appended(f, NewAlert(t, x, NowOf(x, clock)), AfterIngest(f, t, x, clock))
  {
    FreshKey(f, DedupKey(t, x));
    InsertAndTrim(f, NewAlert(t, x, NowOf(x, clock)));
  }

  lemma {:induction false} ReplaceKeepsValid(f: Flow, id: string, a: Alert)
    requires Valid(f) && id in f.alerts
    requires a.id == id && a.dedupKey == f.alerts[id].dedupKey && a.lastNotifiedAt != 0
    ensures Valid(f.(alerts := f.alerts[id := a]))
  {
  }

  ghost predicate SilenceInForce(a: Alert, now: int) {
    a.silenceUntil != 0 && a.silenceUntil > now
  }

  lemma {:induction false} BumpedIsDue(t: Text, a: Alert, x: Input, now: int, window: int)
    requires a.lastNotifiedAt != 0
    ensures var b := Bumped(t, a, x, now);
            && (Due(b, now, window) <==> !SilenceInForce(a, now) && now - a.lastNotifiedAt >= window)
            && b.id == a.id && b.dedupKey == a.dedupKey && b.lastNotifiedAt == a.lastNotifiedAt
                && b.count == a.count + 1
  {
  }

  /** A repeat is delivered exactly when no silence is in force and the window has passed since the last delivery. */
  lemma {:induction false} RepeatIngest(f: Flow, t: Text, x: Input, clock: int)
    requires Valid(f) && clock != 0 && Existing(f, DedupKey(t, x)).Some?
    ensures var g, id, now := AfterIngest(f, t, x, clock), f.byDedupKey[DedupKey(t, x)], NowOf(x, clock);
            var deliver := Notifies(f, t, x, now);
            && Valid(g) && g.order == f.order && g.byDedupKey == f.byDedupKey && g.dedupWindow == f.dedupWindow
            && id in f.alerts && g.alerts.Keys == f.alerts.Keys
            && (deliver <==> !SilenceInForce(f.alerts[id], now) && now - f.alerts[id].lastNotifiedAt >= f.dedupWindow)
            && g.alerts[id].lastNotifiedAt == (if deliver then now else f.alerts[id].lastNotifiedAt)
            && g.alerts[id].count == f.alerts[id].count + 1
            && forall k :: k in f.alerts && k != id ==> g.alerts[k] == f.alerts[k]
  {
    var id, now := f.byDedupKey[DedupKey(t, x)], NowOf(x, clock);
    BumpedIsDue(t, f.alerts[id], x, now, f.dedupWindow);
    var g := AfterIngest(f, t, x, clock);
    ReplaceKeepsValid(f, id, g.alerts[id]);
    assert g == f.(alerts := f.alerts[id := g.alerts[id]]);
  }

  lemma {:induction false} DuplicateInOrder(s: seq<string>, i: nat, x: string)
    requires i < |s| && s[i] == x
    ensures !Distinct(s + [x])
  {
    assert (s + [x])[i] == (s + [x])[|s|];
  }

  /** Inserting under an ID that is already in use breaks the links, whatever is evicted. */
  lemma {:induction false} ReusedIdUnlinks(f: Flow, a: Alert)
    requires Valid(f) && a.id in f.alerts && a.dedupKey !in f.byDedupKey
    ensures !Linked(Trim(Insert(f, a)))
  {
    var g := Insert(f, a);
    var i :| 0 <= i < |f.order| && f.order[i] == a.id;
    assert g.order[i] == a.id == g.order[|f.order|];
    if |g.order| <= g.maxAlerts {
      DuplicateInOrder(f.order, i, a.id);
    } else {
      var h := DropOldest(g);
      assert |h.order| == f.maxAlerts && Trim(g) == h;
      if i == 0 {
        assert h.order[|f.order| - 1] == a.id && a.id !in h.alerts;
      } else {
        assert h.order[i - 1] == h.order[|f.order| - 1];
      }
    }
  }

  /** `Ingest` keeps the manager valid exactly when the input is a repeat or its ID is not in use. */
  lemma {:induction false} IngestKeepsValidIff(f: Flow, t: Text, x: Input, clock: int)
    requires Valid(f) && clock != 0
    ensures Valid(AfterIngest(f, t, x, clock)) <==>
              Existing(f, DedupKey(t, x)).Some? || StableID(t, x, NowOf(x, clock)) !in f.alerts
  {
    if Existing(f, DedupKey(t, x)).Some? {
      RepeatIngest(f, t, x, clock);
    } else {
      FreshKey(f, DedupKey(t, x));
      if StableID(t, x, NowOf(x, clock)) !in f.alerts {
        FirstIngest(f, t, x, clock);
      } else {
        ReusedIdUnlinks(f, NewAlert(t, x, NowOf(x, clock)));
      }
    }
  }

  // ----- runs -----

  datatype Op =
    | Ingest(x: Input, clock: int)
    | Update(id: string, action: Action, note: string, now: int)
    | Snapshot(at: int)
    | SetWindow(w: int)

  function Step(f: Flow, t: Text, op: Op): Flow {
    match op
    case Ingest(x, clock) => AfterIngest(f, t, x, clock)
    case Update(id, action, note, now) => AfterUpdate(f, id, action, note, now)
    case Snapshot(at) => AfterSnapshot(f, at)
    case SetWindow(w) => AfterSetWindow(f, w)
  }

  /** The state after the first k operations of a run. */
  function At(f: Flow, t: Text, ops: seq<Op>, k: nat): Flow
    requires k <= |ops|
  {
    if k == 0 then f else Step(At(f, t, ops, k - 1), t, ops[k - 1])
  }

  /** An ingest that does not repeat a stored alert comes with an ID not in use. */
  predicate Fresh(f: Flow, t: Text, op: Op) {
    op.Ingest? ==>
        op.clock != 0 && (Existing(f, DedupKey(t, op.x)).Some? || StableID(t, op.x, NowOf(op.x, op.clock)) !in f.alerts)
  }

  /** The run starts from a valid manager and its first k operations are fresh. */
  ghost predicate FreshRun(f: Flow, t: Text, ops: seq<Op>, k: nat)
    requires k <= |ops|
  {
    if k == 0 then Valid(f) else FreshRun(f, t, ops, k - 1) && Fresh(At(f, t, ops, k - 1), t, ops[k - 1])
  }

  lemma {:induction false} StepKeepsValid(f: Flow, t: Text, op: Op)
    requires Valid(f) && Fresh(f, t, op)
    ensures Valid(Step(f, t, op))
  {
    match op
    case Ingest(x, clock) => IngestKeepsValidIff(f, t, x, clock);
    case Update(id, action, note, now) => UpdateKeepsValid(f, id, action, note, now);
    case Snapshot(at) => SnapshotKeepsValid(f, at);
    case SetWindow(w) =>
  }

  lemma {:induction false} UpdateKeepsValid(f: Flow, id: string, action: Action, note: string, now: int)
    requires Valid(f)
    ensures Valid(AfterUpdate(f, id, action, note, now))
  {
    if id in f.alerts && Updated(f.alerts[id], action, note, now).Some? {
      ReplaceKeepsValid(f, id, Updated(f.alerts[id], action, note, now).value);
    }
  }

  lemma {:induction false} SnapshotKeepsValid(f: Flow, at: int)
    requires Valid(f)
    ensures Valid(AfterSnapshot(f, at))
  {
    RefreshOnlyStatus(f.alerts, f.order, at);
    var g := AfterSnapshot(f, at);
    forall id | id in g.alerts
      ensures g.alerts[id].id == id && g.alerts[id].dedupKey == f.alerts[id].dedupKey
          && g.alerts[id].lastNotifiedAt != 0
    {
    }
  }

  /** Over every run with fresh IDs, the three structures stay consistent and within the cap. */
  lemma {:induction false} AlwaysValid(f: Flow, t: Text, ops: seq<Op>, k: nat)
    requires k <= |ops| && FreshRun(f, t, ops, k)
    ensures Valid(At(f, t, ops, k))
  {
    if k > 0 {
      AlwaysValid(f, t, ops, k - 1);
      StepKeepsValid(At(f, t, ops, k - 1), t, ops[k - 1]);
    }
  }

  /** The operation delivers the alert with this ID. */
  predicate Delivers(f: Flow, t: Text, op: Op, id: string) {
    && op.Ingest? && Notifies(f, t, op.x, NowOf(op.x, op.clock)) && id == Target(f, t, op.x, NowOf(op.x, op.clock))
  }

  /** Without a delivery, an alert's last notification time does not change, and no alert appears. */
  lemma {:induction false} NotNotified(f: Flow, t: Text, op: Op, id: string)
    requires Valid(f) && Fresh(f, t, op) && id in Step(f, t, op).alerts && !Delivers(f, t, op, id)
    ensures id in f.alerts && Step(f, t, op).alerts[id].lastNotifiedAt == f.alerts[id].lastNotifiedAt
  {
    if op.Ingest? {
      IngestNotNotified(f, t, op, id);
    } else if op.Snapshot? {
      RefreshOnlyStatus(f.alerts, f.order, op.at);
    }
  }

  lemma {:induction false} IngestNotNotified(f: Flow, t: Text, op: Op, id: string)
    requires op.Ingest? && Valid(f) && Fresh(f, t, op) && id in Step(f, t, op).alerts && !Delivers(f, t, op, id)
    ensures id in f.alerts && Step(f, t, op).alerts[id].lastNotifiedAt == f.alerts[id].lastNotifiedAt
  {
    if Existing(f, DedupKey(t, op.x)).Some? {
      RepeatIngest(f, t, op.x, op.clock);
    } else {
      FirstIngest(f, t, op.x, op.clock);
    }
  }

  lemma {:induction false} DeliveredNow(f: Flow, t: Text, op: Op, id: string)
    requires Valid(f) && Fresh(f, t, op) && Delivers(f, t, op, id)
    ensures id in Step(f, t, op).alerts && Step(f, t, op).alerts[id].lastNotifiedAt == NowOf(op.x, op.clock)
  {
    if Existing(f, DedupKey(t, op.x)).Some? {
      RepeatIngest(f, t, op.x, op.clock);
    } else {
      FirstIngest(f, t, op.x, op.clock);
    }
  }

  /** When alert id was last notified, if it is stored. */
  function LastNotified(f: Flow, id: string): Option<int> {
    if id in f.alerts then Some(f.alerts[id].lastNotifiedAt) else None
  }

  lemma {:induction false} StepDelivers(f: Flow, t: Text, ops: seq<Op>, k: nat, id: string)
    requires k < |ops| && FreshRun(f, t, ops, k + 1) && Delivers(At(f, t, ops, k), t, ops[k], id)
    ensures LastNotified(At(f, t, ops, k + 1), id) == Some(NowOf(ops[k].x, ops[k].clock))
  {
    AlwaysValid(f, t, ops, k);
    DeliveredNow(At(f, t, ops, k), t, ops[k], id);
  }

  lemma {:induction false} StepQuiet(f: Flow, t: Text, ops: seq<Op>, k: nat, id: string)
    requires k < |ops| && FreshRun(f, t, ops, k + 1) && !Delivers(At(f, t, ops, k), t, ops[k], id)
    ensures var after := LastNotified(At(f, t, ops, k + 1), id);
            after.Some? ==> after == LastNotified(At(f, t, ops, k), id)
  {
    AlwaysValid(f, t, ops, k);
    if id in At(f, t, ops, k + 1).alerts { NotNotified(At(f, t, ops, k), t, ops[k], id); }
  }

  /** When the run last delivered alert id before operation k. */
  function LastDelivery(f: Flow, t: Text, ops: seq<Op>, k: nat, id: string): Option<int>
    requires k <= |ops|
  {
    if k == 0 then None
    else if Delivers(At(f, t, ops, k - 1), t, ops[k - 1], id) then Some(NowOf(ops[k - 1].x, ops[k - 1].clock))
    else LastDelivery(f, t, ops, k - 1, id)
  }

  /** The stored notification time of an alert is the time of its last delivery. */
  lemma {:induction false} RemembersDelivery(f: Flow, t: Text, ops: seq<Op>, k: nat, id: string)
    requires f.alerts == map[] && k <= |ops| && FreshRun(f, t, ops, k)
    ensures LastNotified(At(f, t, ops, k), id).Some? ==>
        LastNotified(At(f, t, ops, k), id) == LastDelivery(f, t, ops, k, id)
  {
    if k > 0 {
      RemembersDelivery(f, t, ops, k - 1, id);
      if Delivers(At(f, t, ops, k - 1), t, ops[k - 1], id) {
        StepDelivers(f, t, ops, k - 1, id);
      } else {
        StepQuiet(f, t, ops, k - 1, id);
      }
    }
  }

  /** In a run from an empty manager, a repeat is notified at least the window after the alert's last notification. */
  lemma {:induction false} NotificationsSpaced(f: Flow, t: Text, ops: seq<Op>, k: nat, id: string)
    requires f.alerts == map[] && k < |ops| && FreshRun(f, t, ops, k + 1)
    requires Delivers(At(f, t, ops, k), t, ops[k], id) && Existing(At(f, t, ops, k), DedupKey(t, ops[k].x)) == Some(id)
    ensures LastDelivery(f, t, ops, k, id).Some?
    ensures NowOf(ops[k].x, ops[k].clock) - LastDelivery(f, t, ops, k, id).value >= At(f, t, ops, k).dedupWindow
  {
    AlwaysValid(f, t, ops, k);
    RemembersDelivery(f, t, ops, k, id);
    RepeatIngest(At(f, t, ops, k), t, ops[k].x, ops[k].clock);
  }

  // ----- silencing over runs -----

  /** When a silence that starts at the given time ends. */
  function SilenceEnd(duration: Duration, now: int): int {
    now + if duration.Parsed? then duration.d else 1_800_000_000_000 // half an hour
  }

  /** The operation sets or lifts the silence of the alert. */
  predicate SetsSilence(op: Op, id: string) {
    op.Update? && op.id == id && (op.action.Unsilence? || (op.action.Silence? && !op.action.duration.Malformed?))
  }

  lemma {:induction false} SilenceStarts(f: Flow, t: Text, op: Op, id: string)
    requires id in f.alerts && SetsSilence(op, id) && op.action.Silence?
    ensures var g := Step(f, t, op);
            id in g.alerts && g.alerts[id].silenceUntil == SilenceEnd(op.action.duration, op.now)
  {
  }

  lemma {:induction false} StepKeepsSilence(f: Flow, t: Text, op: Op, id: string)
    requires Valid(f) && Fresh(f, t, op) && id in f.alerts && id in Step(f, t, op).alerts && !SetsSilence(op, id)
    ensures Step(f, t, op).alerts[id].silenceUntil == f.alerts[id].silenceUntil
  {
    match op
    case Ingest(x, clock) => IngestKeepsSilence(f, t, x, clock, id);
    case Update(_, _, _, _) =>
    case Snapshot(at) => RefreshOnlyStatus(f.alerts, f.order, at);
    case SetWindow(_) =>
  }

  lemma {:induction false} IngestKeepsSilence(f: Flow, t: Text, x: Input, clock: int, id: string)
    requires Valid(f) && Fresh(f, t, Ingest(x, clock)) && id in f.alerts && id in AfterIngest(f, t, x, clock).alerts
    ensures AfterIngest(f, t, x, clock).alerts[id].silenceUntil == f.alerts[id].silenceUntil
  {
    if Existing(f, DedupKey(t, x)).None? { FirstIngest(f, t, x, clock); }
  }

  /** Between operation i and operation k the alert is neither evicted nor silenced anew nor unsilenced. */
  ghost predicate Undisturbed(f: Flow, t: Text, ops: seq<Op>, i: nat, k: nat, id: string)
    requires i <= k <= |ops|
    decreases k
  {
    i == k || (Undisturbed(f, t, ops, i, k - 1, id) && id in At(f, t, ops, k).alerts && !SetsSilence(ops[k - 1], id))
  }

  lemma {:induction false} PrefixFresh(f: Flow, t: Text, ops: seq<Op>, k: nat)
    requires k < |ops| && FreshRun(f, t, ops, k + 1)
    ensures FreshRun(f, t, ops, k) && Fresh(At(f, t, ops, k), t, ops[k])
  {
  }

  ghost predicate SilentUntil(f: Flow, id: string, u: int) {
    id in f.alerts && f.alerts[id].silenceUntil == u
  }

  lemma {:induction false} RunKeepsSilence(f: Flow, t: Text, ops: seq<Op>, k: nat, id: string, u: int)
    requires k < |ops| && FreshRun(f, t, ops, k + 1) && !SetsSilence(ops[k], id)
    requires SilentUntil(At(f, t, ops, k), id, u) && id in At(f, t, ops, k + 1).alerts
    ensures SilentUntil(At(f, t, ops, k + 1), id, u)
  {
    AlwaysValid(f, t, ops, k);
    StepKeepsSilence(At(f, t, ops, k), t, ops[k], id);
  }

  /**
   Over every run with fresh IDs: after a silence of an alert, no occurrence of it before the end of the silence is
   delivered, as long as the alert is undisturbed. The end is a real time, not the zero time.
   */
  lemma {:induction false} SilenceHolds(f: Flow, t: Text, ops: seq<Op>, i: nat, k: nat, id: string)
    requires i < k < |ops| && FreshRun(f, t, ops, k + 1) && id in At(f, t, ops, i).alerts
    requires SetsSilence(ops[i], id) && ops[i].action.Silence? && Undisturbed(f, t, ops, i + 1, k, id)
    requires SilenceEnd(ops[i].action.duration, ops[i].now) != 0
    requires Delivers(At(f, t, ops, k), t, ops[k], id)
    ensures NowOf(ops[k].x, ops[k].clock) >= SilenceEnd(ops[i].action.duration, ops[i].now)
  {
    var u := SilenceEnd(ops[i].action.duration, ops[i].now);
    PrefixFresh(f, t, ops, k);
    assert SilentUntil(At(f, t, ops, k), id, u) by {
      SilenceBegins(f, t, ops, i, id);
      SilencedSince(f, t, ops, i, k, id, u);
    }
    DeliveredInRun(f, t, ops, k, id, u);
  }

  lemma {:induction false} SilencedSince(f: Flow, t: Text, ops: seq<Op>, i: nat, k: nat, id: string, u: int)
    requires i < k <= |ops| && FreshRun(f, t, ops, k) && Undisturbed(f, t, ops, i + 1, k, id)
    requires SilentUntil(At(f, t, ops, i + 1), id, u)
    ensures SilentUntil(At(f, t, ops, k), id, u)
    decreases k
  {
    if i + 1 < k {
      PrefixFresh(f, t, ops, k - 1);
      SilencedSince(f, t, ops, i, k - 1, id, u);
      RunKeepsSilence(f, t, ops, k - 1, id, u);
    }
  }

  lemma {:induction false} DeliveredInRun(f: Flow, t: Text, ops: seq<Op>, k: nat, id: string, u: int)
    requires k < |ops| && FreshRun(f, t, ops, k) && Fresh(At(f, t, ops, k), t, ops[k])
    requires SilentUntil(At(f, t, ops, k), id, u) && u != 0 && Delivers(At(f, t, ops, k), t, ops[k], id)
    ensures NowOf(ops[k].x, ops[k].clock) >= u
  {
    AlwaysValid(f, t, ops, k);
    DeliveredAfterSilence(At(f, t, ops, k), t, ops[k], id);
  }

  lemma {:induction false} SilenceBegins(f: Flow, t: Text, ops: seq<Op>, i: nat, id: string)
    requires i < |ops| && id in At(f, t, ops, i).alerts && SetsSilence(ops[i], id) && ops[i].action.Silence?
    ensures SilentUntil(At(f, t, ops, i + 1), id, SilenceEnd(ops[i].action.duration, ops[i].now))
  {
    SilenceStarts(At(f, t, ops, i), t, ops[i], id);
  }

  lemma {:induction false} DeliveredAfterSilence(f: Flow, t: Text, op: Op, id: string)
    requires Valid(f) && Fresh(f, t, op) && id in f.alerts && f.alerts[id].silenceUntil != 0 && Delivers(f, t, op, id)
    ensures NowOf(op.x, op.clock) >= f.alerts[id].silenceUntil
  {
    RepeatIngest(f, t, op.x, op.clock);
  }

  /**
   Eviction loses a silence: when a first ingest evicts the oldest alert, the next occurrence of that alert is
   delivered at once, however long it was silenced.
   */
  lemma {:induction false} EvictionForgetsSilence(f: Flow, t: Text, x: Input, clock: int, y: Input, now: int)
    requires Valid(f) && |f.order| == f.maxAlerts && f.order[0] in f.alerts && clock != 0
    requires Existing(f, DedupKey(t, x)).None? && StableID(t, x, NowOf(x, clock)) !in f.alerts
    requires DedupKey(t, y) == f.alerts[f.order[0]].dedupKey
    ensures Existing(f, DedupKey(t, y)) == Some(f.order[0])
    ensures Notifies(AfterIngest(f, t, x, clock), t, y, now)
  {
    FirstIngest(f, t, x, clock);
    EvictedKeyIsFree(f, NewAlert(t, x, NowOf(x, clock)), AfterIngest(f, t, x, clock), DedupKey(t, y));
  }

  lemma {:induction false} EvictedKeyIsFree(f: Flow, a: Alert, g: Flow, key: string)
    requires Valid(f) && |f.order| == f.maxAlerts && f.order[0] in f.alerts && Appended(f, a, g)
    requires a.id !in f.alerts && a.dedupKey != key && key == f.alerts[f.order[0]].dedupKey
    ensures Existing(g, key).None?
  {
    var oldest := f.order[0];
    assert oldest !in g.order by { TailOfDistinct(f.order); }
  }

  // ----- the manager object -----

  /** What an accepted request does to an alert; everything not named here stays. */
  ghost predicate Applied(a: Alert, action: Action, note: string, now: int, b: Alert) {
    && b == a.(note := note, assignee := b.assignee, silenceUntil := b.silenceUntil, status := b.status,
        details := b.details)
    && b.assignee == (if action.Assign? then action.assignee else a.assignee)
    && b.silenceUntil
        == (if action.Silence? then SilenceEnd(action.duration, now)
        else if action.Unsilence? then 0 else a.silenceUntil)
    && (action.Close? ==> b.status == Closed)
    && (action.Silence? ==> b.status == Suppressed)
    && (action.Annotate? ==> b.status == a.status)
    && (action.Assign? || action.Unsilence? || action.Reopen? ==>
          && (b.status == Suppressed <==> SilenceInForce(b, now))
          && (b.status == Assigned <==> !SilenceInForce(b, now) && b.assignee != "")
          && (b.status == Open <==> !SilenceInForce(b, now) && b.assignee == ""))
    && (!action.Annotate? ==> b.details == a.details)
    && (action.Annotate? ==>
          && "classification" in b.details && action.classification == Some(b.details["classification"])
          && "classification_updated_at" in b.details && b.details["classification_updated_at"] == action.stamp
          && forall k :: k !in {"classification", "classification_updated_at"} ==>
               (k in b.details <==> k in a.details) && (k in a.details ==> b.details[k] == a.details[k]))
  }

  lemma {:induction false} UpdatedApplies(a: Alert, action: Action, note: string, now: int)
    ensures Updated(a, action, note, now).Some? ==> Applied(a, action, note, now, Updated(a, action, note, now).value)
  {
  }

  datatype Summary = Summary(total: nat, opens: nat, assigns: nat, suppresses: nat, closes: nat)

  /** What `Snapshot` counts. */
  function SummaryOf(alerts: map<string, Alert>, ids: seq<string>, now: int): Summary {
    if ids == [] then Summary(0, 0, 0, 0, 0)
    else
      var m, s := RefreshAll(alerts, ids, now), SummaryOf(alerts, ids[1..], now);
      if ids[0] in m then Tally(s, m[ids[0]].status) else s
  }

  function Tally(s: Summary, st: Status): Summary {
    match st
    case Open => s.(total := s.total + 1, opens := s.opens + 1)
    case Assigned => s.(total := s.total + 1, assigns := s.assigns + 1)
    case Suppressed => s.(total := s.total + 1, suppresses := s.suppresses + 1)
    case Closed => s.(total := s.total + 1, closes := s.closes + 1)
  }

  /** A valid manager counts every alert once, under exactly one status. */
  lemma {:induction false} SummaryAddsUp(alerts: map<string, Alert>, ids: seq<string>, now: int)
    requires forall id :: id in ids ==> id in alerts
    ensures var s := SummaryOf(alerts, ids, now);
            s.total == |ids| && s.opens + s.assigns + s.suppresses + s.closes == s.total
    decreases |ids|
  {
    if ids != [] {
      assert ids[0] in ids;
      RefreshOnlyStatus(alerts, ids, now);
      SummaryAddsUp(alerts, ids[1..], now);
    }
  }

  class Manager {
    const text: Text
    var alerts: map<string, Alert>
    var byDedupKey: map<string, string>
    var order: seq<string>
    var dedupWindow: int
    var maxAlerts: nat

    ghost function State(): Flow
      reads this
    {
      Flow(alerts, byDedupKey, order, dedupWindow, maxAlerts)
    }

    constructor (text: Text)
      ensures this.text == text && Valid(State()) && alerts == map[] && maxAlerts == 500
          && dedupWindow == 600_000_000_000
    {
      this.text := text;
      alerts, byDedupKey, order, dedupWindow, maxAlerts := map[], map[], [], 600_000_000_000, 500;
    }

    method SetDedupWindow(window: int)
      modifies this
      ensures State() == AfterSetWindow(old(State()), window)
      ensures dedupWindow == if window > 0 then window else old(dedupWindow)
    {
      if window > 0 {
        dedupWindow := window;
      }
    }

    method IngestAlert(x: Input, clock: int) returns (deliver: bool)
      modifies this
      ensures State() == AfterIngest(old(State()), text, x, clock)
      ensures deliver == Notifies(old(State()), text, x, NowOf(x, clock))
    {
      var now := if x.timestamp == 0 then clock else x.timestamp;
      var key := DedupKey(text, x);
      if key in byDedupKey && byDedupKey[key] in alerts {
        var id := byDedupKey[key];
        var existing := Bumped(text, alerts[id], x, now);
        deliver := Due(existing, now, dedupWindow);
        if deliver {
          existing := existing.(lastNotifiedAt := now);
        }
        alerts := alerts[id := existing];
        return;
      }
      var record := NewAlert(text, x, now);
      alerts := alerts[record.id := record];
      byDedupKey := byDedupKey[key := record.id];
      order := order + [record.id];
      TrimLocked();
      deliver := true;
    }

    method TrimLocked()
      modifies this
      ensures State() == Trim(old(State()))
    {
      while |order| > maxAlerts
        invariant Trim(State()) == Trim(old(State()))
        decreases |order|
      {
        var oldest := order[0];
        order := order[1..];
        if oldest in alerts {
          byDedupKey := byDedupKey - {alerts[oldest].dedupKey};
        }
        alerts := alerts - {oldest};
      }
    }

    method UpdateAlert(id: string, action: Action, note: string, now: int) returns (r: Result<Alert, string>)
      modifies this
      ensures r.Err? <==>
                || id !in old(alerts) || action == Silence(Malformed) || action.Unsupported?
                || (action.Annotate? && action.classification.None?)
      ensures order == old(order) && byDedupKey == old(byDedupKey)
      ensures dedupWindow == old(dedupWindow) && maxAlerts == old(maxAlerts)
      ensures alerts.Keys == old(alerts).Keys && forall k :: k in alerts && k != id ==> alerts[k] == old(alerts)[k]
      ensures r.Err? ==> alerts == old(alerts)
      ensures r.Ok? ==> r.value == alerts[id] && Applied(old(alerts)[id], action, note, now, alerts[id])
      ensures State() == AfterUpdate(old(State()), id, action, note, now)
    {
      if id !in alerts {
        return Err("alert not found");
      }
      UpdatedApplies(alerts[id], action, note, now);
      var item := alerts[id];
      match action {
        case Assign(assignee) =>
          item := item.(assignee := assignee, note := note);
          item := item.(status := StatusFor(item.assignee, item.silenceUntil, now));
        case Silence(duration) =>
          var length := DEFAULT_SILENCE;
          if duration != Unset {
            if duration == Malformed {
              return Err("invalid duration");
            }
            length := duration.d;
          }
          item := item.(silenceUntil := now + length, note := note, status := Suppressed);
        case Unsilence =>
          item := item.(silenceUntil := 0, note := note);
          item := item.(status := StatusFor(item.assignee, item.silenceUntil, now));
        case Close =>
          item := item.(note := note, status := Closed);
        case Reopen =>
          item := item.(note := note, status := StatusFor(item.assignee, item.silenceUntil, now));
        case Annotate(classification, stamp) =>
          if classification.None? {
            return Err("unknown classification");
          }
          var details := item.details["classification" := classification.value];
          item := item.(details := details["classification_updated_at" := stamp],
                        note := note);
        case Unsupported =>
          return Err("unsupported action");
      }
      alerts := alerts[id := item];
      return Ok(item);
    }

    /** The counting loop of `Snapshot`, newest alert first. */
    method TakeSnapshot(now: int) returns (summary: Summary)
      modifies this
      ensures State() == AfterSnapshot(old(State()), now)
      ensures summary == SummaryOf(old(alerts), order, now)
    {
      summary := Summary(0, 0, 0, 0, 0);
      var i := |order|;
      while i > 0
        invariant 0 <= i <= |order|
        invariant State() == old(State()).(alerts := RefreshAll(old(alerts), order[i..], now))
        invariant summary == SummaryOf(old(alerts), order[i..], now)
      {
        i := i - 1;
        var id := order[i];
        assert order[i..][0] == id && order[i..][1..] == order[i + 1..];
        if id in alerts {
          alerts := alerts[id := Refreshed(alerts[id], now)];
          summary := Tally(summary, alerts[id].status);
        }
      }
      assert order[0..] == order;
    }
  }
}
