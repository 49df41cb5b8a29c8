/**
 Which alerts pkg/alertflow/manager.go takes for the same, and what it remembers of each: the deduplication key by its
 four fields, the count and times of an alert over a run, closing, and the counts of a snapshot.
 */
module AlertIdentity {
  import opened Common
  import opened AlertFlow

  // ----- the deduplication key -----

  /** The four normalized fields that tell alerts apart. */
  datatype Labels = Labels(severity: string, pattern: string, source: string, headline: string)

  function LabelsOf(t: Text, x: Input): Labels {
    Labels(t.key(x.severity), t.key(x.pattern), t.key(x.source), t.key(x.headline))
  }

  function StoredLabels(t: Text, a: Alert): Labels {
    Labels(t.key(a.severity), t.key(a.pattern), t.key(a.source), t.key(a.headline))
  }

  predicate NoBar(l: Labels) {
    '|' !in l.severity && '|' !in l.pattern && '|' !in l.source && '|' !in l.headline
  }

  lemma {:induction false} CutAtBar(a: string, b: string, c: string, d: string)
    requires '|' !in a && '|' !in c && a + "|" + b == c + "|" + d
    ensures a == c && b == d
  {
    var s := a + "|" + b;
    assert s == c + "|" + d && s[|a|] == '|' && s[|c|] == '|';
    assert forall i :: 0 <= i < |a| ==> s[i] == a[i];
    assert forall i :: 0 <= i < |c| ==> s[i] == c[i];
    assert |a| == |c|;
    assert s[..|a|] == a && s[..|c|] == c && s[|a| + 1..] == b && s[|c| + 1..] == d;
  }

  /** Inputs with the same four fields have the same key; without bars in the fields, only those have. */
  lemma {:induction false} KeysTellApart(t: Text, x: Input, y: Input)
    ensures LabelsOf(t, x) == LabelsOf(t, y) ==> DedupKey(t, x) == DedupKey(t, y)
    ensures NoBar(LabelsOf(t, x)) && NoBar(LabelsOf(t, y)) && DedupKey(t, x) == DedupKey(t, y) ==>
              LabelsOf(t, x) == LabelsOf(t, y)
  {
    var l, m := LabelsOf(t, x), LabelsOf(t, y);
    if NoBar(l) && NoBar(m) && DedupKey(t, x) == DedupKey(t, y) {
      var p, q := l.source + "|" + l.headline, m.source + "|" + m.headline;
      assert DedupKey(t, x) == l.severity + "|" + (l.pattern + "|" + p);
      assert DedupKey(t, y) == m.severity + "|" + (m.pattern + "|" + q);
      CutAtBar(l.severity, l.pattern + "|" + p, m.severity, m.pattern + "|" + q);
      CutAtBar(l.pattern, p, m.pattern, q);
      CutAtBar(l.source, l.headline, m.source, m.headline);
    }
  }

  /** With a bar in a field, two different alerts can share their key. */
  lemma {:induction false} BarsCollide(t: Text, x: Input, y: Input)
    requires t.key(x.severity) == "a|b" && t.key(x.pattern) == "c" && t.key(y.severity) == "a"
        && t.key(y.pattern) == "b|c"
    requires x.source == y.source && x.headline == y.headline
    ensures DedupKey(t, x) == DedupKey(t, y) && LabelsOf(t, x) != LabelsOf(t, y)
  {
    assert "a|b" + "|" + "c" == "a" + "|" + "b|c";
  }

  /** An input that carries the fields of a stored alert. */
  function InputLike(a: Alert): Input {
    Input(a.id, a.firstSeen, a.severity, a.pattern, a.headline, a.reason, a.source, a.details)
  }

  ghost predicate OwnKey(f: Flow, t: Text, id: string) {
    id in f.alerts ==> f.alerts[id].dedupKey == DedupKey(t, InputLike(f.alerts[id]))
  }

  /** Every stored alert lies under the key of its own fields. */
  ghost predicate OwnKeys(f: Flow, t: Text) {
    forall id {:trigger OwnKey(f, t, id)} :: OwnKey(f, t, id)
  }

  lemma {:induction false} StepOwnsKey(f: Flow, t: Text, op: Op, id: string)
    requires Valid(f) && Fresh(f, t, op) && OwnKey(f, t, id)
    ensures OwnKey(Step(f, t, op), t, id)
  {
    match op
    case Ingest(x, clock) => IngestOwnsKey(f, t, x, clock, id);
    case Update(_, _, _, _) =>
    case Snapshot(at) => RefreshOnlyStatus(f.alerts, f.order, at);
    case SetWindow(_) =>
  }

  lemma {:induction false} IngestOwnsKey(f: Flow, t: Text, x: Input, clock: int, id: string)
    requires Valid(f) && Fresh(f, t, Ingest(x, clock)) && OwnKey(f, t, id)
    ensures OwnKey(AfterIngest(f, t, x, clock), t, id)
  {
    if Existing(f, DedupKey(t, x)).None? { FirstIngest(f, t, x, clock); }
  }

  lemma {:induction false} StepOwnsKeys(f: Flow, t: Text, op: Op)
    requires Valid(f) && Fresh(f, t, op) && OwnKeys(f, t)
    ensures OwnKeys(Step(f, t, op), t)
  {
    forall id ensures OwnKey(Step(f, t, op), t, id) {
      assert OwnKey(f, t, id);
      StepOwnsKey(f, t, op, id);
    }
  }

  lemma {:induction false} RunOwnsKeys(f: Flow, t: Text, ops: seq<Op>, k: nat)
    requires k <= |ops| && FreshRun(f, t, ops, k) && OwnKeys(f, t)
    ensures OwnKeys(At(f, t, ops, k), t) && Valid(At(f, t, ops, k))
  {
    AlwaysValid(f, t, ops, k);
    if k > 0 {
      RunOwnsKeys(f, t, ops, k - 1);
      StepOwnsKeys(At(f, t, ops, k - 1), t, ops[k - 1]);
    }
  }

  /** Alert id carries the labels. */
  ghost predicate Carries(f: Flow, t: Text, id: string, l: Labels) {
    id in f.alerts && StoredLabels(t, f.alerts[id]) == l
  }

  ghost predicate NoStoredBar(f: Flow, t: Text) {
    forall id :: id in f.alerts ==> NoBar(StoredLabels(t, f.alerts[id]))
  }

  /** An occurrence of a stored alert, by its four fields, is a repeat of that alert. */
  lemma {:induction false} SameLabelsRepeat(f: Flow, t: Text, x: Input, id: string)
    requires Valid(f) && OwnKeys(f, t) && Carries(f, t, id, LabelsOf(t, x))
    ensures Existing(f, DedupKey(t, x)) == Some(id)
  {
    assert OwnKey(f, t, id);
    KeysTellApart(t, x, InputLike(f.alerts[id]));
  }

  /** Without bars in the fields, only such an occurrence is a repeat. */
  lemma {:induction false} RepeatsIff(f: Flow, t: Text, x: Input)
    requires Valid(f) && OwnKeys(f, t) && NoBar(LabelsOf(t, x)) && NoStoredBar(f, t)
    ensures Existing(f, DedupKey(t, x)).Some? <==> exists id :: Carries(f, t, id, LabelsOf(t, x))
  {
    if Existing(f, DedupKey(t, x)).Some? {
      var id := Existing(f, DedupKey(t, x)).value;
      assert OwnKey(f, t, id);
      KeysTellApart(t, x, InputLike(f.alerts[id]));
      assert Carries(f, t, id, LabelsOf(t, x));
    }
    if id :| Carries(f, t, id, LabelsOf(t, x)) { SameLabelsRepeat(f, t, x, id); }
  }

  /** a is the first record of the input. */
  ghost predicate RecordsFirst(a: Alert, x: Input, now: int) {
    && a.severity == x.severity && a.pattern == x.pattern && a.source == x.source && a.headline == x.headline
    && a.reason == x.reason && a.status == Open && a.assignee == "" && a.note == "" && a.silenceUntil == 0
    && a.count == 1 && a.firstSeen == now && a.lastSeen == now && a.lastNotifiedAt == now
    && a.details == x.details["dedup_count" := "1"]
  }

  /** A first occurrence by the four fields, with an unused ID, is stored and delivered, whatever else is stored. */
  lemma {:induction false} FirstOccurrenceDelivered(f: Flow, t: Text, x: Input, clock: int)
    requires Valid(f) && OwnKeys(f, t) && NoBar(LabelsOf(t, x)) && NoStoredBar(f, t) && clock != 0
    requires forall id :: !Carries(f, t, id, LabelsOf(t, x))
    requires StableID(t, x, NowOf(x, clock)) !in f.alerts
    ensures var g, id, now := AfterIngest(f, t, x, clock), StableID(t, x, NowOf(x, clock)), NowOf(x, clock);
            Notifies(f, t, x, now) && id in g.alerts && g.alerts[id].id == id && RecordsFirst(g.alerts[id], x, now)
  {
    RepeatsIff(f, t, x);
    FirstIngest(f, t, x, clock);
  }

  /** ... over every run with fresh IDs from an empty manager. */
  lemma {:induction false} FirstOccurrenceOfRun(f: Flow, t: Text, ops: seq<Op>, k: nat)
    requires k < |ops| && f.alerts == map[] && FreshRun(f, t, ops, k + 1) && ops[k].Ingest?
    requires NoBar(LabelsOf(t, ops[k].x)) && NoStoredBar(At(f, t, ops, k), t)
    requires forall id :: !Carries(At(f, t, ops, k), t, id, LabelsOf(t, ops[k].x))
    ensures Notifies(At(f, t, ops, k), t, ops[k].x, NowOf(ops[k].x, ops[k].clock))
  {
    PrefixFresh(f, t, ops, k);
    forall id ensures OwnKey(f, t, id) { }
    RunOwnsKeys(f, t, ops, k);
    RepeatsIff(At(f, t, ops, k), t, ops[k].x);
  }

  /** A given ID is kept, trimmed; without one, alerts of one pattern at different times get different IDs. */
  lemma {:induction false} IDsOfAlerts(t: Text, x: Input, y: Input, now: int, later: int)
    ensures t.trim(x.id) != "" ==> StableID(t, x, now) == t.trim(x.id)
    ensures
      (t.trim(x.id) == "" && t.trim(y.id) == "" && t.trim(x.pattern) == t.trim(y.pattern)
       && t.itoa(now) != t.itoa(later)) ==> StableID(t, x, now) != StableID(t, y, later)
    ensures t.trim(x.id) == "" && t.trim(x.pattern) == "" ==>
              StableID(t, x, now) == t.lower("alert") + "-" + t.itoa(now)
    ensures t.trim(x.id) == "" && t.trim(x.pattern) != "" ==>
              StableID(t, x, now) == t.lower(t.trim(x.pattern)) + "-" + t.itoa(now)
  {
    if t.trim(x.id) == "" && t.trim(y.id) == "" && t.trim(x.pattern) == t.trim(y.pattern) {
      var p := t.lower(if t.trim(x.pattern) == "" then "alert" else t.trim(x.pattern)) + "-";
      assert StableID(t, x, now) == p + t.itoa(now) && StableID(t, y, later) == p + t.itoa(later);
      assert (p + t.itoa(now))[|p|..] == t.itoa(now) && (p + t.itoa(later))[|p|..] == t.itoa(later);
    }
  }

  // ----- what a repeat changes -----

  /** The status that assignee and silence give an alert that is not closed. */
  ghost predicate StatusFits(a: Alert, now: int) {
    && (a.status == Suppressed <==> SilenceInForce(a, now))
    && (a.status == Assigned <==> !SilenceInForce(a, now) && a.assignee != "")
    && (a.status == Open <==> !SilenceInForce(a, now) && a.assignee == "")
  }

  /**
   A repeat reopens a closed alert, takes over a given reason, and leaves fields, assignee, silence and note alone.
   */
  lemma {:induction false} RepeatUpdates(f: Flow, t: Text, x: Input, clock: int)
    requires Valid(f) && clock != 0 && Existing(f, DedupKey(t, x)).Some?
    ensures var id, now := Existing(f, DedupKey(t, x)).value, NowOf(x, clock);
            var a, b := f.alerts[id], AfterIngest(f, t, x, clock).alerts[id];
            && StatusFits(b, now) && b.status != Closed
            && b.count == a.count + 1 && b.lastSeen == now && b.firstSeen == a.firstSeen
            && b.reason == (if x.reason == "" then a.reason else x.reason)
            && b.severity == a.severity && b.pattern == a.pattern && b.source == a.source && b.headline == a.headline
            && b.id == a.id && b.assignee == a.assignee && b.silenceUntil == a.silenceUntil && b.note == a.note
            && b.details == a.details["dedup_count" := t.itoa(a.count + 1)]
  {
  }

  // ----- the story of an alert over a run -----

  datatype Story = Story(count: nat, first: int, last: int)

  /** When an input occurred: at the time it carries, or when it arrived. */
  function OccurredAt(x: Input, clock: int): int {
    if x.timestamp != 0 then x.timestamp else clock
  }

  /** How often alert id has occurred since it was stored, first and last when. */
  function StoryOf(f: Flow, t: Text, ops: seq<Op>, k: nat, id: string): Story
    requires k <= |ops|
  {
    if k == 0 then Story(0, 0, 0)
    else
      var before, g := StoryOf(f, t, ops, k - 1, id), At(f, t, ops, k - 1);
      match ops[k - 1]
      case Ingest(x, clock) =>
        if Target(g, t, x, NowOf(x, clock)) != id then before
        else if Existing(g, DedupKey(t, x)).None? then Story(1, OccurredAt(x, clock), OccurredAt(x, clock))
        else Story(before.count + 1, before.first, OccurredAt(x, clock))
      case _ => before
  }

  ghost predicate Tells(f: Flow, id: string, s: Story) {
    id in f.alerts ==>
        f.alerts[id].count == s.count && f.alerts[id].firstSeen == s.first && f.alerts[id].lastSeen == s.last
  }

  lemma {:induction false} IngestTells(f: Flow, t: Text, x: Input, clock: int, id: string, s: Story)
    requires Valid(f) && Fresh(f, t, Ingest(x, clock)) && Tells(f, id, s)
    ensures var now := NowOf(x, clock);
            Tells(AfterIngest(f, t, x, clock), id,
              if Target(f, t, x, now) != id then s
              else if Existing(f, DedupKey(t, x)).None? then Story(1, now, now) else Story(s.count + 1, s.first, now))
  {
    if Existing(f, DedupKey(t, x)).None? { FirstIngest(f, t, x, clock); } else { RepeatUpdates(f, t, x, clock); }
  }

  lemma {:induction false} OtherTells(f: Flow, t: Text, op: Op, id: string, s: Story)
    requires Tells(f, id, s) && !op.Ingest?
    ensures Tells(Step(f, t, op), id, s)
  {
    if op.Snapshot? { RefreshOnlyStatus(f.alerts, f.order, op.at); }
  }

  /** Over every run with fresh IDs, count, first and last time of an alert are those of its occurrences. */
  lemma {:induction false} StoryIsKept(f: Flow, t: Text, ops: seq<Op>, k: nat, id: string)
    requires f.alerts == map[] && k <= |ops| && FreshRun(f, t, ops, k)
    ensures Tells(At(f, t, ops, k), id, StoryOf(f, t, ops, k, id))
  {
    if k > 0 {
      var g, s, op := At(f, t, ops, k - 1), StoryOf(f, t, ops, k - 1, id), ops[k - 1];
      assert Tells(g, id, s) by { StoryIsKept(f, t, ops, k - 1, id); }
      assert Valid(g) by { AlwaysValid(f, t, ops, k - 1); }
      if op.Ingest? { IngestTells(g, t, op.x, op.clock, id, s); } else { OtherTells(g, t, op, id, s); }
    }
  }

  // ----- closing -----

  /** The operation takes the alert out of the closed state: another occurrence, or a request that sets a status. */
  predicate Reopens(f: Flow, t: Text, op: Op, id: string) {
    || (op.Ingest? && Existing(f, DedupKey(t, op.x)) == Some(id))
    || (op.Update? && op.id == id &&
        (op.action.Assign? || op.action.Unsilence? || op.action.Reopen?
            || (op.action.Silence? && op.action.duration != Malformed)))
  }

  /** A closed alert stays closed until an operation reopens it. */
  lemma {:induction false} ClosedUntilReopened(f: Flow, t: Text, op: Op, id: string)
    requires Valid(f) && Fresh(f, t, op) && id in f.alerts && f.alerts[id].status == Closed
        && id in Step(f, t, op).alerts
    ensures Step(f, t, op).alerts[id].status == Closed <==> !Reopens(f, t, op, id)
  {
    match op
    case Ingest(x, clock) => OccurrenceReopens(f, t, x, clock, id);
    case Update(_, _, _, _) => UpdateReopens(f, t, op, id);
    case Snapshot(at) => RefreshOnlyStatus(f.alerts, f.order, at);
    case SetWindow(_) =>
  }

  lemma {:induction false} UpdateReopens(f: Flow, t: Text, op: Op, id: string)
    requires op.Update? && id in f.alerts && f.alerts[id].status == Closed
    ensures id in Step(f, t, op).alerts && (Step(f, t, op).alerts[id].status == Closed <==> !Reopens(f, t, op, id))
  {
  }

  lemma {:induction false} OccurrenceReopens(f: Flow, t: Text, x: Input, clock: int, id: string)
    requires Valid(f) && Fresh(f, t, Ingest(x, clock)) && id in f.alerts && f.alerts[id].status == Closed
    requires id in AfterIngest(f, t, x, clock).alerts
    ensures AfterIngest(f, t, x, clock).alerts[id].status == Closed <==> Existing(f, DedupKey(t, x)) != Some(id)
  {
    if Existing(f, DedupKey(t, x)).None? { FirstIngest(f, t, x, clock); } else { RepeatUpdates(f, t, x, clock); }
  }

  // ----- the counts of a snapshot -----

  /** The alert is in the given state at the given time. */
  ghost predicate IsIn(a: Alert, st: Status, now: int) {
    if a.status == Closed then st == Closed
    else if SilenceInForce(a, now) then st == Suppressed
    else if a.assignee != "" then st == Assigned
    else st == Open
  }

  ghost function InState(alerts: map<string, Alert>, ids: seq<string>, st: Status, now: int): set<string> {
    Chosen(ids, id => id in alerts && IsIn(alerts[id], st, now))
  }

  ghost function Chosen(ids: seq<string>, p: string -> bool): set<string> {
    set id | id in ids && p(id)
  }

  function CountOf(s: Summary, st: Status): nat {
    match st case Open => s.opens case Assigned => s.assigns case Suppressed => s.suppresses case Closed => s.closes
  }

  /** Each count of a snapshot is the number of listed alerts in that state. */
  lemma {:induction false} CountsByState(alerts: map<string, Alert>, ids: seq<string>, st: Status, now: int)
    requires Distinct(ids) && forall id :: id in ids ==> id in alerts
    ensures CountOf(SummaryOf(alerts, ids, now), st) == |InState(alerts, ids, st, now)|
    decreases |ids|
  {
    if ids != [] {
      var id, rest := ids[0], ids[1..];
      TailOfDistinct(ids);
      assert id in ids;
      CountsByState(alerts, rest, st, now);
      RefreshOnlyStatus(alerts, ids, now);
      TallyCounts(SummaryOf(alerts, rest, now), alerts[id], st, now);
      OneMore(ids, id => id in alerts && IsIn(alerts[id], st, now));
    }
  }

  lemma {:induction false} TallyCounts(s: Summary, a: Alert, st: Status, now: int)
    ensures CountOf(Tally(s, Refreshed(a, now).status), st) == CountOf(s, st) + if IsIn(a, st, now) then 1 else 0
  {
  }

  lemma {:induction false} OneMore(ids: seq<string>, p: string -> bool)
    requires ids != [] && Distinct(ids)
    ensures |Chosen(ids, p)| == |Chosen(ids[1..], p)| + if p(ids[0]) then 1 else 0
  {
    var id := ids[0];
    TailOfDistinct(ids);
    assert ids == [id] + ids[1..];
    assert Chosen(ids, p) == Chosen(ids[1..], p) + if p(id) then {id} else {};
  }

  /** After a snapshot every listed alert shows the state it is in. */
  lemma {:induction false} SnapshotShows(f: Flow, now: int, id: string)
    requires Valid(f) && id in f.alerts
    ensures var g := AfterSnapshot(f, now);
            && id in g.alerts && IsIn(f.alerts[id], g.alerts[id].status, now)
            && g.alerts[id] == f.alerts[id].(status := g.alerts[id].status)
  {
    RefreshOnlyStatus(f.alerts, f.order, now);
    assert id in f.order;
  }
}
