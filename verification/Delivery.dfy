/**
 Notification delivery of pkg/notify/notify.go and pkg/notify/delivery.go: retries, the delivery history,
 and the dead-letter list that a map shadows.

 A `Wire` is what one sequence of send attempts meets: the error of each attempt, if any, and the delivery ID
 and clock reading that its record gets.
 */
module Delivery {
  import opened Common

  datatype DeliveryStatus = Delivered | Retrying | DeadLetter

  datatype Alert = Alert(id: string, pattern: string, severity: string, body: string)

  datatype Record = Record(
    id: string, notifier: string, alertID: string, pattern: string, severity: string, status: DeliveryStatus,
    attempt: int, maxAttempts: int, lastAttemptAt: int, error: string, ticket: Option<string>)

  datatype Item = Item(record: Record, alert: Alert, notifier: string)

  datatype Wire = Wire(error: int -> Option<string>, id: int -> string, at: int -> int)

  datatype Book = Book(history: seq<Record>, dead: seq<Record>, items: map<string, Item>, maxHistory: nat)

  // ----- the retry loop -----

  predicate Fails(w: Wire, attempt: int) {
    w.error(attempt).Some?
  }

  function RecordOf(w: Wire, a: Alert, notifier: string, attempt: int, max: int): Record {
    Record(w.id(attempt), notifier, a.id, a.pattern, a.severity,
           if !Fails(w, attempt) then Delivered else if attempt < max then Retrying else DeadLetter,
           attempt, max, w.at(attempt), match w.error(attempt) case None => "" case Some(e) => e, None)
  }

  /** The records of the attempts from the given one on: up to the first success, or up to max. */
  function Trace(w: Wire, a: Alert, notifier: string, attempt: int, max: int): seq<Record>
    decreases max - attempt
  {
    if attempt > max then []
    else
      var rest := if Fails(w, attempt) then Trace(w, a, notifier, attempt + 1, max) else [];
      [RecordOf(w, a, notifier, attempt, max)] + rest
  }

  /** Attempts first .. max all fail. */
  ghost predicate AllFail(w: Wire, first: int, max: int) {
    forall n :: first <= n <= max ==> Fails(w, n)
  }

  /** A trace numbers its attempts consecutively and stops at the first that does not fail. */
  lemma {:induction false} TraceNumbers(w: Wire, a: Alert, notifier: string, first: int, max: int, i: nat)
    requires first <= max && i < |Trace(w, a, notifier, first, max)|
    ensures var t := Trace(w, a, notifier, first, max);
            && |t| <= max - first + 1 && t[i] == RecordOf(w, a, notifier, first + i, max)
            && (i < |t| - 1 ==> Fails(w, first + i))
            && (i == |t| - 1 && Fails(w, first + i) ==> first + i == max)
    decreases max - first
  {
    if first < max && Fails(w, first) {
      if i > 0 {
        TraceNumbers(w, a, notifier, first + 1, max, i - 1);
      } else {
        TraceNumbers(w, a, notifier, first + 1, max, 0);
      }
    } else if first == max {
      assert Trace(w, a, notifier, first + 1, max) == [];
    }
  }

  /**
   All records of a trace but the last are retries, and the last is a delivery, or a dead letter exactly when
   every attempt up to the maximum failed.
   */
  lemma {:induction false} TraceShape(w: Wire, a: Alert, notifier: string, first: int, max: int)
    requires first <= max
    ensures var t := Trace(w, a, notifier, first, max);
            && 1 <= |t| <= max - first + 1
            && (forall i :: 0 <= i < |t| ==> t[i] == RecordOf(w, a, notifier, first + i, max))
            && (forall i :: 0 <= i < |t| - 1 ==> t[i].status == Retrying)
            && (t[|t| - 1].status == DeadLetter <==> AllFail(w, first, max))
            && (t[|t| - 1].status == DeadLetter ==> |t| == max - first + 1)
            && (t[|t| - 1].status == Delivered <==> !AllFail(w, first, max))
  {
    var t := Trace(w, a, notifier, first, max);
    forall i | 0 <= i < |t|
      ensures t[i] == RecordOf(w, a, notifier, first + i, max)
          && (i < |t| - 1 ==> t[i].status == Retrying && Fails(w, first + i))
    {
      TraceNumbers(w, a, notifier, first, max, i);
      TraceNumbers(w, a, notifier, first, max, |t| - 1);
    }
    TraceNumbers(w, a, notifier, first, max, |t| - 1);
    if Fails(w, first + |t| - 1) {
      forall n | first <= n <= max ensures Fails(w, n)
      { assert n == first + (n - first) && (n - first < |t| - 1 ==> t[n - first].status == Retrying); }
    }
  }

  // ----- recording -----

  function Capped(s: seq<Record>, n: nat): seq<Record> {
    if |s| > n then s[..n] else s
  }

  /** `recordDelivery`. */
  function AfterRecord(b: Book, r: Record, a: Alert): Book {
    var noted := b.(history := Capped([r] + b.history, b.maxHistory));
    if r.status != DeadLetter then noted
    else noted.(dead := Capped([r] + b.dead, b.maxHistory), items := b.items[r.id := Item(r, a, r.notifier)])
  }

  function AfterTrace(b: Book, t: seq<Record>, a: Alert): Book {
    if t == [] then b else AfterRecord(AfterTrace(b, t[..|t| - 1], a), t[|t| - 1], a)
  }

  function Without(s: seq<Record>, id: string): seq<Record> {
    if s == [] then []
    else if s[0].id == id then Without(s[1..], id)
    else [s[0]] + Without(s[1..], id)
  }

  lemma {:induction false} WithoutMembers(s: seq<Record>, id: string)
    ensures forall r :: r in Without(s, id) <==> r in s && r.id != id
    decreases |s|
  {
    if s != [] {
      WithoutMembers(s[1..], id);
      assert s == [s[0]] + s[1..];
    }
  }

  /** `clearDeadLetter`. */
  function AfterClear(b: Book, id: string): Book {
    b.(items := b.items - {id}, dead := Without(b.dead, id))
  }

  /** The first record with the ID gets the ticket. */
  function Ticketed(s: seq<Record>, id: string, ticket: string): seq<Record> {
    if s == [] then []
    else if s[0].id == id then [s[0].(ticket := Some(ticket))] + s[1..]
    else [s[0]] + Ticketed(s[1..], id, ticket)
  }

  /** `SetTicketReference`. */
  function AfterTicket(b: Book, id: string, ticket: string): Book {
    if id !in b.items then b
    else
      var item := b.items[id];
      b.(items := b.items[id := item.(record := item.record.(ticket := Some(ticket)))],
         dead := Ticketed(b.dead, id, ticket), history := Ticketed(b.history, id, ticket))
  }

  /** `ReplayDeadLetter` once the notifier is found. */
  function AfterReplay(b: Book, id: string, w: Wire, max: int): Book
    requires id in b.items
  {
    var item := b.items[id];
    var t := Trace(w, item.alert, item.notifier, 1, max);
    var after := AfterTrace(b, t, item.alert);
    if Succeeds(t) then AfterClear(after, id) else after
  }

  predicate Succeeds(t: seq<Record>) {
    t != [] && t[|t| - 1].status == Delivered
  }

  // ----- list and map stay in step -----

  /** The listed dead letters have distinct IDs, and each equals its map entry, ticket included. */
  ghost predicate InStep(b: Book) {
    && (forall i, j :: 0 <= i < j < |b.dead| ==> b.dead[i].id != b.dead[j].id)
    && (forall i :: 0 <= i < |b.dead| ==> b.dead[i].id in b.items && b.items[b.dead[i].id].record == b.dead[i])
    && |b.dead| <= b.maxHistory
  }

  /** The ID is used by a dead letter that will still be listed after one more is added. */
  ghost predicate StillListed(b: Book, id: string) {
    exists i :: 0 <= i < |b.dead| && i < b.maxHistory - 1 && b.dead[i].id == id
  }

  /** Recording keeps list and map in step exactly when a new dead letter's ID is not one still listed. */
  lemma {:induction false} RecordInStepIff(b: Book, r: Record, a: Alert)
    requires InStep(b)
    ensures InStep(AfterRecord(b, r, a)) <==> r.status != DeadLetter || !StillListed(b, r.id)
  {
    var c := AfterRecord(b, r, a);
    if r.status == DeadLetter {
      forall i | 0 < i < |c.dead| ensures c.dead[i] == b.dead[i - 1] {}
      if StillListed(b, r.id) {
        var i :| 0 <= i < |b.dead| && i < b.maxHistory - 1 && b.dead[i].id == r.id;
        assert c.dead[0].id == c.dead[i + 1].id;
      } else {
        forall i | 0 < i < |c.dead| ensures c.dead[i].id != r.id { assert b.dead[i - 1].id != r.id; }
      }
    }
  }

  lemma {:induction false} ClearRemovesExactly(b: Book, id: string)
    requires InStep(b)
    ensures var c := AfterClear(b, id);
            && InStep(c) && c.items == b.items - {id}
            && forall r :: r in c.dead <==> r in b.dead && r.id != id
  {
    WithoutKeepsOrder(b.dead, id);
    WithoutMembers(b.dead, id);
    var c := AfterClear(b, id);
    forall i | 0 <= i < |c.dead| ensures c.dead[i].id in c.items && c.items[c.dead[i].id].record == c.dead[i] {
      assert c.dead[i] in c.dead;
    }
  }

  lemma {:induction false} WithoutKeepsOrder(s: seq<Record>, id: string)
    requires forall i, j :: 0 <= i < j < |s| ==> s[i].id != s[j].id
    ensures var r := Without(s, id);
            |r| <= |s| && forall i, j :: 0 <= i < j < |r| ==> r[i].id != r[j].id
    decreases |s|
  {
    if s != [] {
      WithoutKeepsOrder(s[1..], id);
      WithoutMembers(s[1..], id);
      var r := Without(s[1..], id);
      forall i | 0 <= i < |r| ensures r[i].id != s[0].id { assert r[i] in s[1..]; }
    }
  }

  lemma {:induction false} TicketedAt(s: seq<Record>, id: string, ticket: string)
    requires forall i, j :: 0 <= i < j < |s| ==> s[i].id != s[j].id
    ensures var r := Ticketed(s, id, ticket);
            |r| == |s| && forall i :: 0 <= i < |s| ==>
                r[i] == if s[i].id == id then s[i].(ticket := Some(ticket)) else s[i]
    decreases |s|
  {
    if s != [] { TicketedAt(s[1..], id, ticket); }
  }

  lemma {:induction false} TicketKeepsInStep(b: Book, id: string, ticket: string)
    requires InStep(b)
    ensures InStep(AfterTicket(b, id, ticket))
  {
    TicketedAt(b.dead, id, ticket);
  }

  // ----- when the map holds nothing but the listed dead letters -----

  ghost predicate ListsID(b: Book, id: string) {
    exists i :: 0 <= i < |b.dead| && b.dead[i].id == id
  }

  /** List and map hold the same dead letters. */
  ghost predicate FullyListed(b: Book) {
    InStep(b) && forall id {:trigger ListsID(b, id)} :: id in b.items ==> ListsID(b, id)
  }

  lemma {:induction false} ListedAfterRecord(b: Book, r: Record, a: Alert, id: string)
    requires r.status == DeadLetter && ListsID(b, id) && (|b.dead| < b.maxHistory || StillListed(b, id))
    ensures ListsID(AfterRecord(b, r, a), id)
  {
    var c := AfterRecord(b, r, a);
    if |b.dead| < b.maxHistory {
      var i :| 0 <= i < |b.dead| && b.dead[i].id == id;
      assert c.dead[i + 1].id == id;
    } else {
      var i :| 0 <= i < |b.dead| && i < b.maxHistory - 1 && b.dead[i].id == id;
      assert c.dead[i + 1].id == id;
    }
  }

  /** `recordDelivery` trims the list and never the map: a new dead letter pushes the last one out of a full list. */
  lemma {:induction false} OverflowStrands(b: Book, r: Record, a: Alert)
    requires InStep(b) && |b.dead| == b.maxHistory > 0 && r.status == DeadLetter && r.id !in b.items
    ensures var c, id := AfterRecord(b, r, a), b.dead[|b.dead| - 1].id; id in c.items && !ListsID(c, id)
  {
    var c, id := AfterRecord(b, r, a), b.dead[|b.dead| - 1].id;
    forall i | 0 <= i < |c.dead| ensures c.dead[i].id != id {
      if i > 0 { assert c.dead[i] == b.dead[i - 1]; }
    }
  }

  /**
   Recording keeps list and map equal exactly when a new dead letter finds room in the list, or reuses the ID of the
   one it pushes out.
   */
  lemma {:induction false} RecordListsIff(b: Book, r: Record, a: Alert)
    requires FullyListed(b)
    ensures FullyListed(AfterRecord(b, r, a)) <==>
              r.status != DeadLetter || (if r.id in b.items then !StillListed(b, r.id) else |b.dead| < b.maxHistory)
  {
    var c := AfterRecord(b, r, a);
    RecordInStepIff(b, r, a);
    if r.status != DeadLetter {
      forall id | id in c.items ensures ListsID(c, id) { assert ListsID(b, id); }
    } else if r.id in b.items {
      assert ListsID(b, r.id);
      if !StillListed(b, r.id) { ReplacingLast(b, r, a); }
    } else if |b.dead| < b.maxHistory {
      RoomForOne(b, r, a);
    } else if b.maxHistory > 0 {
      OverflowStrands(b, r, a);
    } else {
      assert !ListsID(c, r.id);
    }
  }

  lemma {:induction false} RoomForOne(b: Book, r: Record, a: Alert)
    requires FullyListed(b) && r.status == DeadLetter && r.id !in b.items && |b.dead| < b.maxHistory
    ensures FullyListed(AfterRecord(b, r, a))
  {
    var c := AfterRecord(b, r, a);
    assert !StillListed(b, r.id);
    RecordInStepIff(b, r, a);
    forall id | id in c.items ensures ListsID(c, id) {
      if id == r.id { assert c.dead[0].id == id; } else { assert ListsID(b, id); ListedAfterRecord(b, r, a, id); }
    }
  }

  lemma {:induction false} ReplacingLast(b: Book, r: Record, a: Alert)
    requires FullyListed(b) && r.status == DeadLetter && ListsID(b, r.id) && !StillListed(b, r.id)
    ensures FullyListed(AfterRecord(b, r, a))
  {
    var c := AfterRecord(b, r, a);
    RecordInStepIff(b, r, a);
    var n :| 0 <= n < |b.dead| && b.dead[n].id == r.id;
    assert n == b.maxHistory - 1;
    forall id | id in c.items ensures ListsID(c, id) {
      if id == r.id {
        assert c.dead[0].id == id;
      } else {
        assert ListsID(b, id);
        var i :| 0 <= i < |b.dead| && b.dead[i].id == id;
        assert StillListed(b, id);
        ListedAfterRecord(b, r, a, id);
      }
    }
  }

  lemma {:induction false} ClearKeepsFullyListed(b: Book, id: string)
    requires FullyListed(b)
    ensures FullyListed(AfterClear(b, id))
  {
    var c := AfterClear(b, id);
    ClearRemovesExactly(b, id);
    forall x | x in c.items ensures ListsID(c, x) {
      assert ListsID(b, x);
      var i :| 0 <= i < |b.dead| && b.dead[i].id == x;
      assert b.dead[i] in c.dead;
      var j :| 0 <= j < |c.dead| && c.dead[j] == b.dead[i];
    }
  }

  lemma {:induction false} TicketKeepsFullyListed(b: Book, id: string, ticket: string)
    requires FullyListed(b)
    ensures FullyListed(AfterTicket(b, id, ticket))
  {
    var c := AfterTicket(b, id, ticket);
    TicketKeepsInStep(b, id, ticket);
    TicketedAt(b.dead, id, ticket);
    forall x | x in c.items ensures ListsID(c, x) {
      assert ListsID(b, x);
      var i :| 0 <= i < |b.dead| && b.dead[i].id == x;
      assert c.dead[i].id == x || id !in b.items;
    }
  }

  // ----- what a whole send or replay records -----

  lemma {:induction false} RetriesOnlyNoted(b: Book, t: seq<Record>, a: Alert)
    requires forall i :: 0 <= i < |t| ==> t[i].status != DeadLetter
    ensures var c := AfterTrace(b, t, a); c.dead == b.dead && c.items == b.items && c.maxHistory == b.maxHistory
    decreases |t|
  {
    if t != [] { RetriesOnlyNoted(b, t[..|t| - 1], a); }
  }

  /** A send that is delivered leaves the dead letters alone; one that is not adds exactly its last record. */
  lemma {:induction false} TraceRecorded(b: Book, w: Wire, a: Alert, notifier: string, max: int)
    requires max >= 1
    ensures var t := Trace(w, a, notifier, 1, max); var c := AfterTrace(b, t, a);
            if AllFail(w, 1, max)
            then !Succeeds(t) && AddsDeadLetter(b, c, RecordOf(w, a, notifier, max, max), a)
            else Succeeds(t) && c.dead == b.dead && c.items == b.items && c.maxHistory == b.maxHistory
  {
    var t := Trace(w, a, notifier, 1, max);
    TraceShape(w, a, notifier, 1, max);
    if AllFail(w, 1, max) {
      LastIsDead(b, t, a);
    } else {
      RetriesOnlyNoted(b, t, a);
    }
  }

  lemma {:induction false} LastIsDead(b: Book, t: seq<Record>, a: Alert)
    requires t != [] && t[|t| - 1].status == DeadLetter && forall i :: 0 <= i < |t| - 1 ==> t[i].status != DeadLetter
    ensures AddsDeadLetter(b, AfterTrace(b, t, a), t[|t| - 1], a)
  {
    RetriesOnlyNoted(b, t[..|t| - 1], a);
  }

  ghost predicate AddsDeadLetter(b: Book, c: Book, r: Record, a: Alert) {
    && c.dead == Capped([r] + b.dead, b.maxHistory) && c.items == b.items[r.id := Item(r, a, r.notifier)]
    && c.maxHistory == b.maxHistory
  }

  lemma {:induction false} AddingKeepsInStep(b: Book, c: Book, r: Record, a: Alert)
    requires InStep(b) && AddsDeadLetter(b, c, r, a) && r.id !in b.items && r.status == DeadLetter
    ensures InStep(c)
  {
    assert !StillListed(b, r.id);
    RecordInStepIff(b, r, a);
  }

  /** The history is the newest records first, up to the cap. */
  lemma {:induction false} HistoryOfTrace(b: Book, t: seq<Record>, a: Alert)
    requires |b.history| <= b.maxHistory
    ensures AfterTrace(b, t, a).history == Capped(Reverse(t) + b.history, b.maxHistory)
    ensures AfterTrace(b, t, a).maxHistory == b.maxHistory
    decreases |t|
  {
    if t == [] {
      assert Reverse(t) + b.history == b.history;
    } else {
      var init, r := t[..|t| - 1], t[|t| - 1];
      HistoryOfTrace(b, init, a);
      assert [r] + (Reverse(init) + b.history) == Reverse(t) + b.history;
    }
  }

  function Reverse(t: seq<Record>): seq<Record> {
    if t == [] then [] else [t[|t| - 1]] + Reverse(t[..|t| - 1])
  }

  /** A successful replay removes exactly its own ID; a failed one keeps it and adds a new dead letter. */
  lemma {:induction false} ReplayOutcome(b: Book, id: string, w: Wire, max: int)
    requires InStep(b) && id in b.items && max >= 1
    requires AllFail(w, 1, max) ==> w.id(max) !in b.items
    ensures var c := AfterReplay(b, id, w, max);
            && InStep(c)
            && (AllFail(w, 1, max) ==> c.items.Keys == b.items.Keys + {w.id(max)})
            && (!AllFail(w, 1, max) ==>
                c.items == b.items - {id} && forall r :: r in c.dead <==> r in b.dead && r.id != id)
  {
    var item := b.items[id];
    TraceRecorded(b, w, item.alert, item.notifier, max);
    var t := Trace(w, item.alert, item.notifier, 1, max);
    var c := AfterTrace(b, t, item.alert);
    if AllFail(w, 1, max) {
      AddingKeepsInStep(b, c, RecordOf(w, item.alert, item.notifier, max, max), item.alert);
    } else {
      ClearRemovesExactly(c, id);
    }
  }

  // ----- runs -----

  datatype Op =
    | Send(a: Alert, notifier: string, w: Wire, max: int)
    | Replay(id: string, w: Wire, max: int)
    | SetTicket(id: string, ticket: string)

  function Step(b: Book, op: Op): Book {
    match op
    case Send(a, notifier, w, max) => AfterTrace(b, Trace(w, a, notifier, 1, max), a)
    case Replay(id, w, max) => if id in b.items then AfterReplay(b, id, w, max) else b
    case SetTicket(id, ticket) => AfterTicket(b, id, ticket)
  }

  function At(b: Book, ops: seq<Op>, k: nat): Book
    requires k <= |ops|
  {
    if k == 0 then b else Step(At(b, ops, k - 1), ops[k - 1])
  }

  /** At least one attempt is made, and a dead letter gets an ID not in use. */
  predicate Fresh(b: Book, op: Op) {
    match op
    case Send(_, _, w, max) => max >= 1 && w.id(max) !in b.items
    case Replay(_, w, max) => max >= 1 && w.id(max) !in b.items
    case SetTicket(_, _) => true
  }

  ghost predicate FreshRun(b: Book, ops: seq<Op>, k: nat)
    requires k <= |ops|
  {
    if k == 0 then InStep(b) else FreshRun(b, ops, k - 1) && Fresh(At(b, ops, k - 1), ops[k - 1])
  }

  lemma {:induction false} SendKeepsInStep(b: Book, a: Alert, notifier: string, w: Wire, max: int)
    requires InStep(b) && max >= 1 && w.id(max) !in b.items
    ensures InStep(AfterTrace(b, Trace(w, a, notifier, 1, max), a))
  {
    TraceRecorded(b, w, a, notifier, max);
    if AllFail(w, 1, max) {
      AddingKeepsInStep(b, AfterTrace(b, Trace(w, a, notifier, 1, max), a), RecordOf(w, a, notifier, max, max), a);
    }
  }

  /** Over every run with fresh delivery IDs, list and map stay in step. */
  lemma {:induction false} AlwaysInStep(b: Book, ops: seq<Op>, k: nat)
    requires k <= |ops| && FreshRun(b, ops, k)
    ensures InStep(At(b, ops, k))
  {
    if k > 0 {
      AlwaysInStep(b, ops, k - 1);
      var c := At(b, ops, k - 1);
      match ops[k - 1]
      case Send(a, notifier, w, max) => SendKeepsInStep(c, a, notifier, w, max);
      case Replay(id, w, max) => if id in c.items { ReplayOutcome(c, id, w, max); }
      case SetTicket(id, ticket) => TicketKeepsInStep(c, id, ticket);
    }
  }

  /** A fresh run from a fully listed book in which every operation finds room in the list. */
  ghost predicate RoomyRun(b: Book, ops: seq<Op>, k: nat)
    requires k <= |ops|
  {
    if k == 0 then FullyListed(b)
    else
      var c := At(b, ops, k - 1);
      RoomyRun(b, ops, k - 1) && Fresh(c, ops[k - 1]) && |c.dead| < c.maxHistory
  }

  lemma {:induction false} SameLists(b: Book, c: Book)
    requires FullyListed(b) && c.dead == b.dead && c.items == b.items && c.maxHistory == b.maxHistory
    ensures FullyListed(c)
  {
    forall id | id in c.items ensures ListsID(c, id) { assert ListsID(b, id); }
  }

  lemma {:induction false} TraceKeepsFullyListed(b: Book, w: Wire, a: Alert, notifier: string, max: int)
    requires FullyListed(b) && max >= 1 && w.id(max) !in b.items && |b.dead| < b.maxHistory
    ensures FullyListed(AfterTrace(b, Trace(w, a, notifier, 1, max), a))
  {
    var c := AfterTrace(b, Trace(w, a, notifier, 1, max), a);
    TraceRecorded(b, w, a, notifier, max);
    if AllFail(w, 1, max) {
      var r := RecordOf(w, a, notifier, max, max);
      RoomForOne(b, r, a);
      SameLists(AfterRecord(b, r, a), c);
    } else {
      SameLists(b, c);
    }
  }

  /** While the list has room, it holds every dead letter that the map holds. */
  lemma {:induction false} AlwaysFullyListed(b: Book, ops: seq<Op>, k: nat)
    requires k <= |ops| && RoomyRun(b, ops, k)
    ensures FullyListed(At(b, ops, k))
  {
    if k > 0 {
      AlwaysFullyListed(b, ops, k - 1);
      var c := At(b, ops, k - 1);
      match ops[k - 1]
      case Send(a, notifier, w, max) => TraceKeepsFullyListed(c, w, a, notifier, max);
      case Replay(id, w, max) => ReplayKeepsFullyListed(c, id, w, max);
      case SetTicket(id, ticket) => TicketKeepsFullyListed(c, id, ticket);
    }
  }

  lemma {:induction false} ReplayKeepsFullyListed(b: Book, id: string, w: Wire, max: int)
    requires FullyListed(b) && max >= 1 && w.id(max) !in b.items && |b.dead| < b.maxHistory
    ensures FullyListed(Step(b, Replay(id, w, max)))
  {
    if id in b.items {
      var item := b.items[id];
      TraceKeepsFullyListed(b, w, item.alert, item.notifier, max);
      ClearKeepsFullyListed(AfterTrace(b, Trace(w, item.alert, item.notifier, 1, max), item.alert), id);
    }
  }

  // ----- replaying every listed dead letter -----

  /** `ReplayDeadLetter` finds its item and a notifier of that name. */
  predicate CanReplay(b: Book, names: seq<string>, id: string) {
    id in b.items && b.items[id].notifier in names
  }

  function ReplayStep(b: Book, names: seq<string>, id: string, w: Wire, max: int): Book {
    if CanReplay(b, names, id) then AfterReplay(b, id, w, max) else b
  }

  /** The book after the first k replays of a batch. */
  function BatchAt(b: Book, names: seq<string>, ids: seq<string>, ws: seq<Wire>, max: int, k: nat): Book
    requires k <= |ids| == |ws|
  {
    if k == 0 then b else ReplayStep(BatchAt(b, names, ids, ws, max, k - 1), names, ids[k - 1], ws[k - 1], max)
  }

  predicate ReplaySucceeds(b: Book, names: seq<string>, id: string, w: Wire, max: int) {
    CanReplay(b, names, id) && Succeeds(Trace(w, b.items[id].alert, b.items[id].notifier, 1, max))
  }

  /** How many of the first k replays of a batch succeed. */
  function Successes(b: Book, names: seq<string>, ids: seq<string>, ws: seq<Wire>, max: int, k: nat): nat
    requires k <= |ids| == |ws|
  {
    if k == 0 then 0
    else
      var ok := ReplaySucceeds(BatchAt(b, names, ids, ws, max, k - 1), names, ids[k - 1], ws[k - 1], max);
      Successes(b, names, ids, ws, max, k - 1) + if ok then 1 else 0
  }

  /** The record that a replay reports: that of its last attempt, if it makes any. */
  function ReplayedRecord(b: Book, names: seq<string>, id: string, w: Wire, max: int): Option<Record> {
    if CanReplay(b, names, id) then LastOf(Trace(w, b.items[id].alert, b.items[id].notifier, 1, max), None) else None
  }

  /** The first k replays of a batch report their last records, in order. */
  ghost predicate Reported(b: Book, names: seq<string>, ids: seq<string>, ws: seq<Wire>, max: int, k: nat,
        records: seq<Option<Record>>)
    requires k <= |ids| == |ws|
  {
    if k == 0 then records == []
    else
      && |records| == k
          && records[k - 1] == ReplayedRecord(BatchAt(b, names, ids, ws, max, k - 1), names, ids[k - 1], ws[k - 1], max)
      && Reported(b, names, ids, ws, max, k - 1, records[..k - 1])
  }

  datatype BatchResult = BatchResult(processed: nat, succeeded: nat, failed: nat, records: seq<Option<Record>>)

  /** The book and the result after the first k replays of a batch. */
  ghost predicate BatchSoFar(b: Book, names: seq<string>, ids: seq<string>, ws: seq<Wire>, max: int, k: nat, now: Book,
        result: BatchResult)
    requires k <= |ids| == |ws|
  {
    && now == BatchAt(b, names, ids, ws, max, k) && result.processed == |ids|
    && result.succeeded == Successes(b, names, ids, ws, max, k)
        && result.succeeded + result.failed == |result.records| == k
    && Reported(b, names, ids, ws, max, k, result.records)
  }

  lemma {:induction false} BatchNext(b: Book, names: seq<string>, ids: seq<string>, ws: seq<Wire>, max: int, k: nat,
        now: Book, result: BatchResult)
    requires k < |ids| == |ws| && BatchSoFar(b, names, ids, ws, max, k, now, result)
    ensures var ok := ReplaySucceeds(now, names, ids[k], ws[k], max);
            BatchSoFar(b, names, ids, ws, max, k + 1, ReplayStep(now, names, ids[k], ws[k], max),
              BatchResult(result.processed, result.succeeded + (if ok then 1 else 0),
                  result.failed + (if ok then 0 else 1),
                          result.records + [ReplayedRecord(now, names, ids[k], ws[k], max)]))
  {
    assert (result.records + [ReplayedRecord(now, names, ids[k], ws[k], max)])[..k] == result.records;
  }

  /** New dead letters get IDs that are neither stored nor in the batch. */
  ghost predicate FreshBatch(b: Book, names: seq<string>, ids: seq<string>, ws: seq<Wire>, max: int, k: nat)
    requires k <= |ids| == |ws|
  {
    if k == 0 then InStep(b)
    else
      && FreshBatch(b, names, ids, ws, max, k - 1)
      && ws[k - 1].id(max) !in BatchAt(b, names, ids, ws, max, k - 1).items && ws[k - 1].id(max) !in ids
  }

  lemma {:induction false} ReplayStepItems(b: Book, names: seq<string>, id: string, w: Wire, max: int, x: string)
    requires InStep(b) && max >= 1 && w.id(max) !in b.items && x != w.id(max)
    ensures InStep(ReplayStep(b, names, id, w, max))
    ensures x in ReplayStep(b, names, id, w, max).items <==>
        x in b.items && !(x == id && ReplaySucceeds(b, names, id, w, max))
  {
    if CanReplay(b, names, id) {
      ReplayOutcome(b, id, w, max);
      TraceRecorded(b, w, b.items[id].alert, b.items[id].notifier, max);
    }
  }

  /** After k replays of distinct stored IDs, exactly those whose replay succeeded are gone. */
  lemma {:induction false} BatchClearsExactly(b: Book, names: seq<string>, ids: seq<string>, ws: seq<Wire>, max: int,
        k: nat, i: nat)
    requires max >= 1 && k <= |ids| == |ws| && i < |ids| && FreshBatch(b, names, ids, ws, max, k)
    requires (forall m, n :: 0 <= m < n < |ids| ==> ids[m] != ids[n]) && ids[i] in b.items
    ensures InStep(BatchAt(b, names, ids, ws, max, k))
    ensures ids[i] in BatchAt(b, names, ids, ws, max, k).items
       <==> i >= k || !ReplaySucceeds(BatchAt(b, names, ids, ws, max, i), names, ids[i], ws[i], max)
  {
    if k > 0 {
      BatchClearsExactly(b, names, ids, ws, max, k - 1, i);
      assert ids[i] in ids;
      ReplayStepItems(BatchAt(b, names, ids, ws, max, k - 1), names, ids[k - 1], ws[k - 1], max, ids[i]);
    }
  }

  function LastOf(t: seq<Record>, before: Option<Record>): Option<Record> {
    if t == [] then before else Some(t[|t| - 1])
  }

  /** The attempt loop from the given attempt on: the book it leaves, and the last record made. */
  function AttemptFrom(b: Book, w: Wire, a: Alert, notifier: string, attempt: int, max: int, last: Option<Record>)
    : (Book, Option<Record>)
    decreases max - attempt
  {
    if attempt > max then (b, last)
    else
      var r := RecordOf(w, a, notifier, attempt, max);
      if Fails(w, attempt) then AttemptFrom(AfterRecord(b, r, a), w, a, notifier, attempt + 1, max, Some(r))
      else (AfterRecord(b, r, a), Some(r))
  }

  lemma {:induction false} RecordFirst(b: Book, r: Record, t: seq<Record>, a: Alert)
    ensures AfterTrace(b, [r] + t, a) == AfterTrace(AfterRecord(b, r, a), t, a)
    decreases |t|
  {
    var all := [r] + t;
    if t == [] {
      assert all[..0] == [];
    } else {
      RecordFirst(b, r, t[..|t| - 1], a);
      assert all[..|all| - 1] == [r] + t[..|t| - 1];
    }
  }

  lemma {:induction false} AttemptsAreTrace(b: Book, w: Wire, a: Alert, notifier: string, attempt: int, max: int,
        last: Option<Record>)
    ensures var t := Trace(w, a, notifier, attempt, max);
            AttemptFrom(b, w, a, notifier, attempt, max, last) == (AfterTrace(b, t, a), LastOf(t, last))
    decreases max - attempt
  {
    if attempt <= max {
      var r := RecordOf(w, a, notifier, attempt, max);
      var rest := if Fails(w, attempt) then Trace(w, a, notifier, attempt + 1, max) else [];
      assert Trace(w, a, notifier, attempt, max) == [r] + rest;
      assert AfterTrace(b, [r] + rest, a)
          == AfterTrace(AfterRecord(b, r, a), rest, a) by { RecordFirst(b, r, rest, a); }
      assert LastOf([r] + rest, last) == LastOf(rest, Some(r));
      if Fails(w, attempt) { AttemptsAreTrace(AfterRecord(b, r, a), w, a, notifier, attempt + 1, max, Some(r)); }
    }
  }

  // ----- the manager object -----

  class Manager {
    var notifiers: seq<string>
    var maxAttempts: int
    var deliveryHistory: seq<Record>
    var deadLetters: seq<Record>
    var deadLetterItems: map<string, Item>
    var minInterval: int
    var lastSent: map<string, int>
    const maxHistory: nat

    ghost function State(): Book
      reads this
    {
      Book(deliveryHistory, deadLetters, deadLetterItems, maxHistory)
    }

    constructor ()
      ensures State() == Book([], [], map[], 200) && notifiers == [] && maxAttempts == 3
      ensures Gate() == Throttle(0, map[])
    {
      notifiers, maxAttempts, deliveryHistory, deadLetters, deadLetterItems, maxHistory := [], 3, [], [], map[], 200;
      minInterval, lastSent := 0, map[];
    }

    ghost function Gate(): Throttle
      reads this
    {
      Throttle(minInterval, lastSent)
    }

    method SetMinInterval(d: int)
      modifies this`minInterval
      ensures Gate() == Throttle(d, old(lastSent))
    {
      minInterval := d;
    }

    method ShouldThrottle(a: Alert, now: int) returns (skip: bool)
      modifies this`lastSent
      ensures skip == Skips(old(Gate()), a, now) && Gate() == AfterAsking(old(Gate()), a, now)
    {
      if minInterval <= 0 {
        return false;
      }
      var key := a.pattern + ":" + a.severity;
      if key in lastSent && now - lastSent[key] < minInterval {
        return true;
      }
      lastSent := lastSent[key := now];
      return false;
    }

    /** `Send`: nothing when the alert is throttled, otherwise the retry loop for every notifier. */
    method Send(a: Alert, ws: seq<Wire>, now: int)
      requires |ws| == |notifiers|
      modifies this`deliveryHistory, this`deadLetters, this`deadLetterItems, this`lastSent
      ensures Gate() == AfterAsking(old(Gate()), a, now)
      ensures State() == if Skips(old(Gate()), a, now) then old(State())
                         else AfterSendAll(old(State()), a, notifiers, ws, maxAttempts, |ws|)
    {
      var skip := ShouldThrottle(a, now);
      if !skip {
        SendAll(a, ws);
      }
    }

    method SetRetryPolicy(max: int)
      modifies this`maxAttempts
      ensures maxAttempts == if max < 1 then 1 else max
    {
      maxAttempts := if max < 1 then 1 else max;
    }

    method RecordDelivery(r: Record, a: Alert)
      modifies this`deliveryHistory, this`deadLetters, this`deadLetterItems
      ensures State() == AfterRecord(old(State()), r, a)
    {
      deliveryHistory := [r] + deliveryHistory;
      if |deliveryHistory| > maxHistory {
        deliveryHistory := deliveryHistory[..maxHistory];
      }
      if r.status == DeadLetter {
        deadLetters := [r] + deadLetters;
        deadLetterItems := deadLetterItems[r.id := Item(r, a, r.notifier)];
        if |deadLetters| > maxHistory {
          deadLetters := deadLetters[..maxHistory];
        }
      }
    }

    /** The attempt loop that `Send` runs for one notifier and `ReplayDeadLetter` runs for one item. */
    method Attempt(a: Alert, notifier: string, w: Wire) returns (last: Option<Record>)
      modifies this`deliveryHistory, this`deadLetters, this`deadLetterItems
      ensures var t := Trace(w, a, notifier, 1, maxAttempts);
              State() == AfterTrace(old(State()), t, a) && last == LastOf(t, None)
    {
      var attempt := 1;
      last := None;
      while attempt <= maxAttempts
        invariant AttemptFrom(State(), w, a, notifier, attempt, maxAttempts, last)
               == AttemptFrom(old(State()), w, a, notifier, 1, maxAttempts, None)
        decreases maxAttempts - attempt
      {
        var err := w.error(attempt);
        var status := if err.None? then Delivered else if attempt < maxAttempts then Retrying else DeadLetter;
        var r := Record(w.id(attempt), notifier, a.id, a.pattern, a.severity, status, attempt, maxAttempts,
            w.at(attempt),
                        if err.None? then "" else err.value, None);
        assert r == RecordOf(w, a, notifier, attempt, maxAttempts);
        RecordDelivery(r, a);
        last := Some(r);
        if err.None? {
          break;
        }
        attempt := attempt + 1;
      }
      AttemptsAreTrace(old(State()), w, a, notifier, 1, maxAttempts, None);
    }

    /** `Send` to every registered notifier; ws holds what each of them meets. */
    method SendAll(a: Alert, ws: seq<Wire>)
      requires |ws| == |notifiers|
      modifies this`deliveryHistory, this`deadLetters, this`deadLetterItems
      ensures State() == AfterSendAll(old(State()), a, notifiers, ws, maxAttempts, |ws|)
    {
      for i := 0 to |notifiers|
        invariant State() == AfterSendAll(old(State()), a, notifiers, ws, maxAttempts, i)
      {
        ghost var before := State();
        var _ := Attempt(a, notifiers[i], ws[i]);
        assert State() == AfterTrace(before, Trace(ws[i], a, notifiers[i], 1, maxAttempts), a);
      }
    }

    method ReplayDeadLetter(id: string, w: Wire) returns (r: Result<Record, Option<Record>>)
      modifies this`deliveryHistory, this`deadLetters, this`deadLetterItems
      ensures State() == ReplayStep(old(State()), notifiers, id, w, maxAttempts)
      ensures r.Ok? <==> ReplaySucceeds(old(State()), notifiers, id, w, maxAttempts)
      ensures (if r.Ok? then Some(r.value) else r.error) == ReplayedRecord(old(State()), notifiers, id, w, maxAttempts)
    {
      if id !in deadLetterItems {
        return Err(None);
      }
      var item := deadLetterItems[id];
      if item.notifier !in notifiers {
        return Err(None);
      }
      var last := Attempt(item.alert, item.notifier, w);
      if last.Some? && last.value.status == Delivered {
        ClearDeadLetter(id);
        return Ok(last.value);
      }
      return Err(last);
    }

    method ClearDeadLetter(id: string)
      modifies this`deadLetters, this`deadLetterItems
      ensures State() == AfterClear(old(State()), id)
    {
      deadLetterItems := deadLetterItems - {id};
      var filtered := [];
      for i := 0 to |deadLetters|
        invariant filtered + Without(deadLetters[i..], id) == Without(deadLetters, id)
      {
        assert deadLetters[i..][1..] == deadLetters[i + 1..];
        if deadLetters[i].id != id {
          filtered := filtered + [deadLetters[i]];
        }
      }
      deadLetters := filtered;
    }

    /** Replays every listed dead letter; each is counted as succeeded or failed and reports its last record. */
    method ReplayAllDeadLetters(ws: seq<Wire>) returns (result: BatchResult)
      requires |ws| == |deadLetters|
      modifies this`deliveryHistory, this`deadLetters, this`deadLetterItems
      ensures State() == BatchAt(old(State()), notifiers, Ids(old(deadLetters)), ws, maxAttempts, |ws|)
      ensures result.processed == result.succeeded + result.failed == |result.records| == |old(deadLetters)|
      ensures result.succeeded == Successes(old(State()), notifiers, Ids(old(deadLetters)), ws, maxAttempts, |ws|)
      ensures Reported(old(State()), notifiers, Ids(old(deadLetters)), ws, maxAttempts, |ws|, result.records)
    {
      var records := deadLetters;
      result := BatchResult(|records|, 0, 0, []);
      for i := 0 to |records|
        invariant BatchSoFar(old(State()), notifiers, Ids(records), ws, maxAttempts, i, State(), result)
      {
        ghost var before := State();
        var r := ReplayDeadLetter(records[i].id, ws[i]);
        BatchNext(old(State()), notifiers, Ids(records), ws, maxAttempts, i, before, result);
        if r.Ok? {
          result := result.(succeeded := result.succeeded + 1, records := result.records + [Some(r.value)]);
        } else {
          result := result.(failed := result.failed + 1, records := result.records + [r.error]);
        }
      }
    }

    method SetTicketReference(id: string, ticket: string) returns (ok: bool)
      modifies this`deliveryHistory, this`deadLetters, this`deadLetterItems
      ensures State() == AfterTicket(old(State()), id, ticket) && ok == (id in old(deadLetterItems))
    {
      if id !in deadLetterItems {
        return false;
      }
      var item := deadLetterItems[id];
      deadLetterItems := deadLetterItems[id := item.(record := item.record.(ticket := Some(ticket)))];
      deadLetters := AttachTicket(deadLetters, id, ticket);
      deliveryHistory := AttachTicket(deliveryHistory, id, ticket);
      return true;
    }
  }

  function Ids(s: seq<Record>): seq<string> {
    seq(|s|, i requires 0 <= i < |s| => s[i].id)
  }

  // ----- throttling -----

  datatype Throttle = Throttle(minInterval: int, lastSent: map<string, int>)

  function ThrottleKey(a: Alert): string {
    a.pattern + ":" + a.severity
  }

  predicate Skips(th: Throttle, a: Alert, now: int) {
    th.minInterval > 0 && ThrottleKey(a) in th.lastSent && now - th.lastSent[ThrottleKey(a)] < th.minInterval
  }

  /** `shouldThrottle`; its answer is `Skips`. */
  function AfterAsking(th: Throttle, a: Alert, now: int): Throttle {
    if th.minInterval <= 0 || Skips(th, a, now) then th else th.(lastSent := th.lastSent[ThrottleKey(a) := now])
  }

  function AfterSendAll(b: Book, a: Alert, names: seq<string>, ws: seq<Wire>, max: int, k: nat): Book
    requires k <= |names| == |ws|
  {
    if k == 0 then b
        else AfterTrace(AfterSendAll(b, a, names, ws, max, k - 1), Trace(ws[k - 1], a, names[k - 1], 1, max), a)
  }

  lemma {:induction false} TicketedFirst(s: seq<Record>, id: string, ticket: string, i: nat)
    requires i <= |s| && (forall k :: 0 <= k < i ==> s[k].id != id) && (i < |s| ==> s[i].id == id)
    ensures Ticketed(s, id, ticket) == if i < |s| then s[i := s[i].(ticket := Some(ticket))] else s
    decreases |s|
  {
    if i > 0 {
      TicketedFirst(s[1..], id, ticket, i - 1);
      assert s == [s[0]] + s[1..];
    }
  }

  /** The search loop of `SetTicketReference` over one list. */
  method AttachTicket(s: seq<Record>, id: string, ticket: string) returns (r: seq<Record>)
    ensures r == Ticketed(s, id, ticket)
  {
    for i := 0 to |s|
      invariant forall k :: 0 <= k < i ==> s[k].id != id
    {
      if s[i].id == id {
        TicketedFirst(s, id, ticket, i);
        return s[i := s[i].(ticket := Some(ticket))];
      }
    }
    TicketedFirst(s, id, ticket, |s|);
    return s;
  }
}
