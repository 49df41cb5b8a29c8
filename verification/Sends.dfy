/**
 What a whole `Send` of pkg/notify/notify.go records, notifier by notifier, where its dead letters go and come back to,
 and which sends the throttle lets through.
 */
module Sends {
  import opened Common
  import opened Delivery

  // ----- the records of one notifier -----

  /** The record of one attempt, field by field. */
  ghost predicate Describes(r: Record, w: Wire, a: Alert, notifier: string, attempt: int, max: int) {
    && r.notifier == notifier && r.alertID == a.id && r.pattern == a.pattern && r.severity == a.severity
    && r.attempt == attempt && r.maxAttempts == max && r.id == w.id(attempt) && r.lastAttemptAt == w.at(attempt)
    && (r.status == Delivered <==> w.error(attempt) == None)
    && (r.status == Retrying <==> w.error(attempt).Some? && attempt < max)
    && (r.status == DeadLetter <==> w.error(attempt).Some? && attempt >= max)
    && (w.error(attempt).Some? ==> r.error == w.error(attempt).value) && (w.error(attempt) == None ==> r.error == "")
    && r.ticket == None
  }

  /** Record i of a send to one notifier is that of attempt i + 1, under the notifier's own name. */
  lemma {:induction false} TraceFields(w: Wire, a: Alert, notifier: string, max: int, i: nat)
    requires 1 <= max && i < |Trace(w, a, notifier, 1, max)|
    ensures Describes(Trace(w, a, notifier, 1, max)[i], w, a, notifier, i + 1, max)
  {
    TraceNumbers(w, a, notifier, 1, max, i);
  }

  // ----- the records of all notifiers -----

  /** The records of a send to the first k notifiers, in order. */
  function TraceAll(a: Alert, names: seq<string>, ws: seq<Wire>, max: int, k: nat): seq<Record>
    requires k <= |names| == |ws|
  {
    if k == 0 then [] else TraceAll(a, names, ws, max, k - 1) + Trace(ws[k - 1], a, names[k - 1], 1, max)
  }

  lemma {:induction false} AfterTraceConcat(b: Book, s: seq<Record>, t: seq<Record>, a: Alert)
    ensures AfterTrace(b, s + t, a) == AfterTrace(AfterTrace(b, s, a), t, a)
    decreases |t|
  {
    if t == [] {
      assert s + t == s;
    } else {
      AfterTraceConcat(b, s, t[..|t| - 1], a);
      assert (s + t)[..|s + t| - 1] == s + t[..|t| - 1];
    }
  }

  lemma {:induction false} SendAllIsTrace(b: Book, a: Alert, names: seq<string>, ws: seq<Wire>, max: int, k: nat)
    requires k <= |names| == |ws|
    ensures AfterSendAll(b, a, names, ws, max, k) == AfterTrace(b, TraceAll(a, names, ws, max, k), a)
  {
    if k > 0 {
      SendAllIsTrace(b, a, names, ws, max, k - 1);
      AfterTraceConcat(b, TraceAll(a, names, ws, max, k - 1), Trace(ws[k - 1], a, names[k - 1], 1, max), a);
    }
  }

  /** Where the records of notifier i start. */
  function Offset(a: Alert, names: seq<string>, ws: seq<Wire>, max: int, i: nat): nat
    requires i <= |names| == |ws|
  {
    |TraceAll(a, names, ws, max, i)|
  }

  lemma {:induction false} BlockOf(a: Alert, names: seq<string>, ws: seq<Wire>, max: int, k: nat, i: nat)
    requires i < k <= |names| == |ws|
    ensures var all, t, o := TraceAll(a, names, ws, max, k), Trace(ws[i], a, names[i], 1, max),
        Offset(a, names, ws, max, i);
            o + |t| <= |all| && all[o..o + |t|] == t
    decreases k
  {
    if i < k - 1 {
      BlockOf(a, names, ws, max, k - 1, i);
      var o, t := Offset(a, names, ws, max, i), Trace(ws[i], a, names[i], 1, max);
      assert TraceAll(a, names, ws, max, k)[o..o + |t|] == TraceAll(a, names, ws, max, k - 1)[o..o + |t|];
    }
  }

  /** The history after a send is the newest records first, those of all notifiers before what was there. */
  lemma {:induction false} HistoryOfSend(b: Book, a: Alert, names: seq<string>, ws: seq<Wire>, max: int)
    requires |names| == |ws| && |b.history| <= b.maxHistory
    ensures AfterSendAll(b, a, names, ws, max, |ws|).history
         == Capped(Reverse(TraceAll(a, names, ws, max, |ws|)) + b.history, b.maxHistory)
  {
    SendAllIsTrace(b, a, names, ws, max, |ws|);
    HistoryOfTrace(b, TraceAll(a, names, ws, max, |ws|), a);
  }

  /** Each notifier's records stand together, and record j of notifier i is its attempt j + 1, under its own name. */
  lemma {:induction false} RecordsOfNotifier(a: Alert, names: seq<string>, ws: seq<Wire>, max: int, i: nat, j: nat)
    requires i < |names| == |ws| && 1 <= max && j < |Trace(ws[i], a, names[i], 1, max)|
    ensures var p := Offset(a, names, ws, max, i) + j; var all := TraceAll(a, names, ws, max, |ws|);
            p < |all| && Describes(all[p], ws[i], a, names[i], j + 1, max)
  {
    var o, t, all := Offset(a, names, ws, max, i), Trace(ws[i], a, names[i], 1, max), TraceAll(a, names, ws, max, |ws|);
    BlockOf(a, names, ws, max, |ws|, i);
    assert all[o + j] == all[o..o + |t|][j];
    TraceFields(ws[i], a, names[i], max, j);
  }

  /** A send to all notifiers is a run of sends to one, so what holds over runs holds for it. */
  function SendOps(a: Alert, names: seq<string>, ws: seq<Wire>, max: int): seq<Op>
    requires |names| == |ws|
  {
    seq(|ws|, i requires 0 <= i < |ws| => Op.Send(a, names[i], ws[i], max))
  }

  lemma {:induction false} SendAllIsRun(b: Book, a: Alert, names: seq<string>, ws: seq<Wire>, max: int, k: nat)
    requires k <= |names| == |ws|
    ensures At(b, SendOps(a, names, ws, max), k) == AfterSendAll(b, a, names, ws, max, k)
  {
    if k > 0 {
      SendAllIsRun(b, a, names, ws, max, k - 1);
      SendIsTrace(AfterSendAll(b, a, names, ws, max, k - 1), a, names[k - 1], ws[k - 1], max);
    }
  }

  lemma {:induction false} SendIsTrace(b: Book, a: Alert, name: string, w: Wire, max: int)
    ensures Delivery.Step(b, Op.Send(a, name, w, max)) == AfterTrace(b, Trace(w, a, name, 1, max), a)
  {
  }

  // ----- the dead letters of a send -----

  ghost function Failing(ws: seq<Wire>, max: int, k: nat): nat
    requires k <= |ws|
  {
    if k == 0 then 0 else Failing(ws, max, k - 1) + if AllFail(ws[k - 1], 1, max) then 1 else 0
  }

  /** The delivery IDs of the new dead letters are neither in use nor given twice. */
  ghost predicate FreshIDs(b: Book, ws: seq<Wire>, max: int) {
    && (forall i :: 0 <= i < |ws| && AllFail(ws[i], 1, max) ==> ws[i].id(max) !in b.items)
    && (forall i, j :: 0 <= i < j < |ws| && AllFail(ws[i], 1, max) && AllFail(ws[j], 1, max) ==>
        ws[i].id(max) != ws[j].id(max))
  }

  /** r is the dead letter of notifier i. */
  ghost predicate DeadOf(r: Record, a: Alert, names: seq<string>, ws: seq<Wire>, max: int, i: int) {
    0 <= i < |names| == |ws| && AllFail(ws[i], 1, max) && Describes(r, ws[i], a, names[i], max, max)
  }

  /** The outcome of a send to the first k notifiers. */
  ghost predicate Outcome(b: Book, c: Book, a: Alert, names: seq<string>, ws: seq<Wire>, max: int, k: nat)
    requires k <= |names| == |ws|
  {
    && c.maxHistory == b.maxHistory && |c.dead| == |b.dead| + Failing(ws, max, k)
    && (forall r :: r in c.dead ==> r in b.dead || exists i :: 0 <= i < k && DeadOf(r, a, names, ws, max, i))
    && (forall r :: r in b.dead ==> r in c.dead)
    && (forall i {:trigger NewItem(c, a, names, ws, max, i)} :: 0 <= i < k && AllFail(ws[i], 1, max) ==>
          NewItem(c, a, names, ws, max, i))
    && (forall id :: id in b.items && (forall i :: 0 <= i < k && AllFail(ws[i], 1, max) ==> ws[i].id(max) != id) ==>
          id in c.items && c.items[id] == b.items[id])
    && (forall id :: id in c.items ==>
        id in b.items || exists i :: 0 <= i < k && AllFail(ws[i], 1, max) && ws[i].id(max) == id)
  }

  /** Notifier i's dead letter is listed and in the map, to be replayed to that notifier. */
  ghost predicate NewItem(c: Book, a: Alert, names: seq<string>, ws: seq<Wire>, max: int, i: int) {
    && 0 <= i < |names| == |ws| && ws[i].id(max) in c.items
    && c.items[ws[i].id(max)].notifier == names[i] && c.items[ws[i].id(max)].alert == a
    && c.items[ws[i].id(max)].record in c.dead && DeadOf(c.items[ws[i].id(max)].record, a, names, ws, max, i)
  }

  lemma {:induction false} RecordDescribes(w: Wire, a: Alert, notifier: string, attempt: int, max: int)
    ensures Describes(RecordOf(w, a, notifier, attempt, max), w, a, notifier, attempt, max)
  {
  }

  lemma {:induction false} NextOutcome(b: Book, c: Book, d: Book, a: Alert, names: seq<string>, ws: seq<Wire>, max: int,
        k: nat)
    requires max >= 1 && k < |names| == |ws| && FreshIDs(b, ws, max) && Outcome(b, c, a, names, ws, max, k)
    requires |c.dead| < c.maxHistory && AllFail(ws[k], 1, max)
    requires AddsDeadLetter(c, d, RecordOf(ws[k], a, names[k], max, max), a)
    ensures Outcome(b, d, a, names, ws, max, k + 1)
  {
    var r := RecordOf(ws[k], a, names[k], max, max);
    RecordDescribes(ws[k], a, names[k], max, max);
    assert DeadOf(r, a, names, ws, max, k);
    assert d.dead == [r] + c.dead && d.dead[0] == r;
    forall x | x in d.dead ensures x in b.dead || exists i :: 0 <= i < k + 1 && DeadOf(x, a, names, ws, max, i) {
      if x != r { assert x in c.dead; }
    }
    forall i | 0 <= i < k + 1 && AllFail(ws[i], 1, max) ensures NewItem(d, a, names, ws, max, i) {
      if i < k { assert NewItem(c, a, names, ws, max, i); }
    }
  }

  /**
   With fresh IDs and room in the list, a send leaves exactly one new dead letter for each notifier all of whose
   attempts fail, under that notifier's name, and changes no other.
   */
  lemma {:induction false} DeadLettersOfSend(b: Book, a: Alert, names: seq<string>, ws: seq<Wire>, max: int, k: nat)
    requires max >= 1 && k <= |names| == |ws| && FreshIDs(b, ws, max)
    requires |b.dead| + Failing(ws, max, k) <= b.maxHistory
    ensures Outcome(b, AfterSendAll(b, a, names, ws, max, k), a, names, ws, max, k)
  {
    if k > 0 {
      var c, d := AfterSendAll(b, a, names, ws, max, k - 1), AfterSendAll(b, a, names, ws, max, k);
      DeadLettersOfSend(b, a, names, ws, max, k - 1);
      TraceRecorded(c, ws[k - 1], a, names[k - 1], max);
      if AllFail(ws[k - 1], 1, max) {
        NextOutcome(b, c, d, a, names, ws, max, k - 1);
      } else {
        SameOutcome(b, c, d, a, names, ws, max, k - 1);
      }
    }
  }

  lemma {:induction false} SameOutcome(b: Book, c: Book, d: Book, a: Alert, names: seq<string>, ws: seq<Wire>, max: int,
        k: nat)
    requires k < |names| == |ws| && Outcome(b, c, a, names, ws, max, k) && !AllFail(ws[k], 1, max)
    requires d.dead == c.dead && d.items == c.items && d.maxHistory == c.maxHistory
    ensures Outcome(b, d, a, names, ws, max, k + 1)
  {
    forall r | r in d.dead ensures r in b.dead || exists i :: 0 <= i < k + 1 && DeadOf(r, a, names, ws, max, i)
    { assert r in c.dead; }
    forall i | 0 <= i < k + 1 && AllFail(ws[i], 1, max) ensures NewItem(d, a, names, ws, max, i) {
      assert NewItem(c, a, names, ws, max, i);
    }
  }

  // ----- replays go back where the dead letter came from -----

  ghost predicate OwnItem(b: Book, id: string) {
    id in b.items ==>
      var item := b.items[id];
      && item.record.id == id && item.notifier == item.record.notifier
      && item.alert.id == item.record.alertID && item.alert.pattern == item.record.pattern
      && item.alert.severity == item.record.severity
  }

  /** Every map entry lies under its record's ID and names the notifier and the alert of its record. */
  ghost predicate OwnItems(b: Book) {
    forall id {:trigger OwnItem(b, id)} :: OwnItem(b, id)
  }

  lemma {:induction false} TraceOwns(b: Book, w: Wire, a: Alert, notifier: string, max: int, id: string)
    requires OwnItem(b, id)
    ensures OwnItem(AfterTrace(b, Trace(w, a, notifier, 1, max), a), id)
  {
    if max >= 1 { TraceRecorded(b, w, a, notifier, max); }
  }

  lemma {:induction false} StepOwns(b: Book, op: Op, id: string)
    requires OwnItems(b)
    ensures OwnItem(Step(b, op), id)
  {
    assert OwnItem(b, id);
    match op
    case Send(a, notifier, w, max) => TraceOwns(b, w, a, notifier, max, id);
    case Replay(x, w, max) =>
      if x in b.items { TraceOwns(b, w, b.items[x].alert, b.items[x].notifier, max, id); }
    case SetTicket(_, _) =>
  }

  /** Over every run, whatever the IDs, the map entries stay their own. */
  lemma {:induction false} AlwaysOwnItems(b: Book, ops: seq<Op>, k: nat)
    requires OwnItems(b) && k <= |ops|
    ensures OwnItems(At(b, ops, k))
  {
    if k > 0 {
      AlwaysOwnItems(b, ops, k - 1);
      forall id ensures OwnItem(At(b, ops, k), id) { StepOwns(At(b, ops, k - 1), ops[k - 1], id); }
    }
  }

  /** A replay puts into the history its own attempts: to the notifier of the dead letter, with its alert, from 1 on. */
  lemma {:induction false} ReplayGoesBack(b: Book, id: string, w: Wire, max: int) returns (t: seq<Record>)
    requires OwnItems(b) && id in b.items && 1 <= max && |b.history| <= b.maxHistory
    ensures AfterReplay(b, id, w, max).history == Capped(Reverse(t) + b.history, b.maxHistory) && 1 <= |t| <= max
    ensures forall i :: 0 <= i < |t| ==> GoesBack(t[i], b.items[id].record, i + 1)
    ensures id !in AfterReplay(b, id, w, max).items ==> t[|t| - 1].status == Delivered
  {
    var item := b.items[id];
    t := Trace(w, item.alert, item.notifier, 1, max);
    HistoryOfTrace(b, t, item.alert);
    TraceShape(w, item.alert, item.notifier, 1, max);
    assert OwnItem(b, id);
    forall i | 0 <= i < |t| ensures GoesBack(t[i], item.record, i + 1) {
      TraceFields(w, item.alert, item.notifier, max, i);
    }
    if !Succeeds(t) { TraceKeepsItem(b, t, item.alert, id); }
  }

  ghost predicate GoesBack(r: Record, dead: Record, attempt: int) {
    && r.notifier == dead.notifier && r.alertID == dead.alertID && r.pattern == dead.pattern
    && r.severity == dead.severity && r.attempt == attempt
  }

  lemma {:induction false} TraceKeepsItem(b: Book, t: seq<Record>, a: Alert, id: string)
    requires id in b.items
    ensures id in AfterTrace(b, t, a).items
    decreases |t|
  {
    if t != [] { TraceKeepsItem(b, t[..|t| - 1], a, id); }
  }

  // ----- tickets -----

  /** r is s with the ticket at the first record of the ID. */
  ghost predicate TicketAtFirst(s: seq<Record>, r: seq<Record>, id: string, ticket: string) {
    && |r| == |s|
    && forall i :: 0 <= i < |s| ==>
         r[i] == if s[i].id == id && id !in Ids(s[..i]) then s[i].(ticket := Some(ticket)) else s[i]
  }

  /**
   A ticket reaches the stored item, the list and the history, and changes nothing else; unknown IDs change nothing.
   */
  lemma {:induction false} TicketReachesAll(b: Book, id: string, ticket: string)
    ensures var c := AfterTicket(b, id, ticket);
            && c.items.Keys == b.items.Keys && c.maxHistory == b.maxHistory && (id !in b.items ==> c == b)
            && (forall x :: x in b.items && x != id ==> c.items[x] == b.items[x])
            && (id in b.items ==>
                  && c.items[id] == b.items[id].(record := b.items[id].record.(ticket := Some(ticket)))
                  && TicketAtFirst(b.dead, c.dead, id, ticket) && TicketAtFirst(b.history, c.history, id, ticket))
  {
    TicketedAtFirst(b.dead, id, ticket);
    TicketedAtFirst(b.history, id, ticket);
  }

  lemma {:induction false} TicketedAtFirst(s: seq<Record>, id: string, ticket: string)
    ensures TicketAtFirst(s, Ticketed(s, id, ticket), id, ticket)
  {
    if k :| 0 <= k < |s| && s[k].id == id && id !in Ids(s[..k]) {
      forall j | 0 <= j < k ensures s[j].id != id { assert Ids(s[..k])[j] == s[j].id; }
      TicketedFirst(s, id, ticket, k);
      forall i | k < i < |s| ensures id in Ids(s[..i]) { assert Ids(s[..i])[k] == id; }
    } else {
      NoFirstNone(s, id, |s|);
      forall j | 0 <= j < |s| ensures s[j].id != id { assert Ids(s[..|s|])[j] == s[j].id; }
      TicketedFirst(s, id, ticket, |s|);
    }
  }

  lemma {:induction false} NoFirstNone(s: seq<Record>, id: string, n: nat)
    requires n <= |s| && forall k :: 0 <= k < |s| && s[k].id == id ==> id in Ids(s[..k])
    ensures id !in Ids(s[..n])
    decreases n
  {
    if id in Ids(s[..n]) {
      var j :| 0 <= j < n && Ids(s[..n])[j] == id;
      assert s[j].id == id;
      NoFirstNone(s, id, j);
    }
  }

  // ----- throttling -----

  datatype Ask = Ask(a: Alert, now: int)

  function Gate(th: Throttle, asks: seq<Ask>, k: nat): Throttle
    requires k <= |asks|
  {
    if k == 0 then th else AfterAsking(Gate(th, asks, k - 1), asks[k - 1].a, asks[k - 1].now)
  }

  /** Ask k is let through. */
  predicate Passes(th: Throttle, asks: seq<Ask>, k: nat)
    requires k < |asks|
  {
    !Skips(Gate(th, asks, k), asks[k].a, asks[k].now)
  }

  predicate SameKind(a: Alert, b: Alert) {
    a.pattern + ":" + a.severity == b.pattern + ":" + b.severity
  }

  /** Severities without a colon keep the kinds apart; one with a colon can be taken for another pattern. */
  lemma {:induction false} KindsTellApart(a: Alert, b: Alert)
    ensures ':' !in a.severity && ':' !in b.severity ==>
              (SameKind(a, b) <==> a.pattern == b.pattern && a.severity == b.severity)
    ensures SameKind(a.(pattern := "a", severity := "b:c"), b.(pattern := "a:b", severity := "c"))
  {
    var s, t := a.pattern + ":" + a.severity, b.pattern + ":" + b.severity;
    if s == t {
      assert s[|a.pattern|] == ':' && t[|b.pattern|] == ':';
      assert a.severity == s[|a.pattern| + 1..] && b.severity == t[|b.pattern| + 1..];
      if |a.pattern| < |b.pattern| {
        assert a.severity[|b.pattern| - |a.pattern| - 1] == ':';
      } else if |b.pattern| < |a.pattern| {
        assert b.severity[|a.pattern| - |b.pattern| - 1] == ':';
      } else {
        assert a.pattern == s[..|a.pattern|] && b.pattern == t[..|b.pattern|];
      }
    }
    assert ("a" + ":") + "b:c" == ("a:b" + ":") + "c";
  }

  ghost predicate Ordered(asks: seq<Ask>) {
    forall i, j :: 0 <= i < j < |asks| ==> asks[i].now <= asks[j].now
  }

  lemma {:induction false} IntervalStays(th: Throttle, asks: seq<Ask>, k: nat)
    requires k <= |asks|
    ensures Gate(th, asks, k).minInterval == th.minInterval
  {
    if k > 0 { IntervalStays(th, asks, k - 1); }
  }

  /** The remembered time of a kind is that of the last ask of it that was let through. */
  lemma {:induction false} Remembered(th: Throttle, asks: seq<Ask>, k: nat, a: Alert) returns (i: nat)
    requires th.lastSent == map[] && th.minInterval > 0 && k <= |asks| && ThrottleKey(a) in Gate(th, asks, k).lastSent
    ensures i < k && SameKind(asks[i].a, a) && Passes(th, asks, i)
    ensures Gate(th, asks, k).lastSent[ThrottleKey(a)] == asks[i].now
    ensures forall j :: i < j < k && SameKind(asks[j].a, a) ==> !Passes(th, asks, j)
    decreases k
  {
    IntervalStays(th, asks, k - 1);
    i := k - 1;
    if !SameKind(asks[i].a, a) || !Passes(th, asks, i) { i := Remembered(th, asks, k - 1, a); }
  }

  lemma {:induction false} PassIsRemembered(th: Throttle, asks: seq<Ask>, i: nat, k: nat)
    requires th.minInterval > 0 && Ordered(asks) && i < k <= |asks| && Passes(th, asks, i)
    ensures var key := ThrottleKey(asks[i].a);
        key in Gate(th, asks, k).lastSent && Gate(th, asks, k).lastSent[key] >= asks[i].now
    decreases k
  {
    IntervalStays(th, asks, k - 1);
    if i < k - 1 { PassIsRemembered(th, asks, i, k - 1); }
  }

  /** Send i was let through, is of the kind of send k, and less than the interval before it. */
  ghost predicate Blocks(th: Throttle, asks: seq<Ask>, i: int, k: nat)
    requires k < |asks|
  {
    && 0 <= i < k && Passes(th, asks, i) && SameKind(asks[i].a, asks[k].a)
    && asks[k].now - asks[i].now < th.minInterval
  }

  ghost predicate Blocked(th: Throttle, asks: seq<Ask>, k: nat)
    requires k < |asks|
  {
    exists i :: Blocks(th, asks, i, k)
  }

  /**
   With an interval set and times in order, a send is skipped exactly when one of the same kind was let
   through less than the interval before.
   */
  lemma {:induction false} SkippedIff(th: Throttle, asks: seq<Ask>, k: nat)
    requires th.lastSent == map[] && th.minInterval > 0 && Ordered(asks) && k < |asks|
    ensures !Passes(th, asks, k) <==> Blocked(th, asks, k)
  {
    IntervalStays(th, asks, k);
    if !Passes(th, asks, k) {
      var i := Remembered(th, asks, k, asks[k].a);
      assert Blocks(th, asks, i, k);
    }
    if Blocked(th, asks, k) {
      var i :| Blocks(th, asks, i, k);
      PassIsRemembered(th, asks, i, k);
    }
  }

  /** Without an interval nothing is skipped. */
  lemma {:induction false} NoIntervalNoSkip(th: Throttle, asks: seq<Ask>, k: nat)
    requires th.minInterval <= 0 && k < |asks|
    ensures Passes(th, asks, k)
  {
    IntervalStays(th, asks, k);
  }
}
