/**
 Which events of pkg/transport/priority.go go to which queue, what survives in the stored one, and what a summary says,
 over runs of the pipeline.
 */
module PipelineRuns {
  import opened Common
  import opened Priority

  // ----- routing -----

  /** What the source calls urgent: high or critical priority, tainted, or matched by a rule. */
  predicate Urgent(e: Event) {
    e.priority >= 2 || e.tainted || e.ruleMatch
  }

  /** An urgent event joins the high queue and touches nothing else; any other joins the low queue only. */
  lemma {:induction false} RoutedBy(p: Pipe, e: Event)
    ensures var r := AfterIngest(p, e);
            && r.processed == p.processed && r.maxDrain == p.maxDrain
            && (Urgent(e) ==> r == p.(high := p.high + [e], highSent := p.highSent + 1))
            && (!Urgent(e) ==> r.high == p.high && r.highSent == p.highSent && r.lowStaged == p.lowStaged + 1)
            && (!Urgent(e) && p.db.None? ==> r.low == p.low + [e] && r.db.None?)
  {
  }

  function Pick(ops: seq<Op>, urgent: bool): seq<Event> {
    if ops == [] then []
    else
      var op := ops[|ops| - 1];
      Pick(ops[..|ops| - 1], urgent) + if op.Ingest? && Urgent(op.e) == urgent then [op.e] else []
  }

  /** What the low queue keeps of an event: everything but, when it is persisted, the payload. */
  ghost predicate KeptAs(e: Event, kept: Event, persistent: bool) {
    && kept.hash == e.hash && kept.priority == e.priority && kept.tainted == e.tainted
    && kept.ruleMatch == e.ruleMatch && kept.timestamp == e.timestamp
    && kept.data == if persistent then None else e.data
  }

  /** The queued events are the events that are not urgent, in order; persisted ones have lost their payload. */
  lemma {:induction false} QueuedAre(persistent: bool, ops: seq<Op>)
    ensures |Queued(persistent, ops)| == |Pick(ops, false)|
    ensures forall i :: 0 <= i < |Pick(ops, false)| ==>
        KeptAs(Pick(ops, false)[i], Queued(persistent, ops)[i], persistent)
    decreases |ops|
  {
    if ops != [] { QueuedAre(persistent, ops[..|ops| - 1]); }
  }

  // ----- the high queue -----

  function HighBy(p: Pipe, op: Op): seq<Event> {
    if op.DrainHigh? then p.high else []
  }

  ghost function HighDrained(p: Pipe, ops: seq<Op>): seq<Event> {
    if ops == [] then []
    else HighDrained(p, ops[..|ops| - 1]) + HighBy(Run(p, ops[..|ops| - 1]), ops[|ops| - 1])
  }

  lemma {:induction false} StepHigh(p: Pipe, op: Op)
    requires !op.Reopen?
    ensures var r := Step(p, op);
            && HighBy(p, op) + r.high == p.high + Pick([op], true)
            && r.highSent == p.highSent + |Pick([op], true)| && r.lowStaged == p.lowStaged + |Pick([op], false)|
            && r.processed == p.processed + |HighBy(p, op)| + |DrainedBy(p, op)|
  {
    assert [op][..0] == [];
    if op.DrainLow? { DrainLowKeepsHigh(p); DrainCountsEvents(p); }
  }

  lemma {:induction false} DrainCountsEvents(p: Pipe)
    ensures AfterDrainLow(p).processed == p.processed + |DrainedLow(p)|
    ensures AfterDrainLow(p).highSent == p.highSent && AfterDrainLow(p).lowStaged == p.lowStaged
  {
  }

  lemma {:induction false} PickSnoc(ops: seq<Op>, urgent: bool)
    requires ops != []
    ensures Pick(ops, urgent) == Pick(ops[..|ops| - 1], urgent) + Pick([ops[|ops| - 1]], urgent)
  {
    assert [ops[|ops| - 1]][..0] == [];
  }

  /**
   Within a session the high queue is first in, first out, and each counter counts what it says: urgent events, the
   others, and events drained from either queue.
   */
  lemma {:induction false} HighFifo(p: Pipe, ops: seq<Op>)
    requires forall op :: op in ops ==> !op.Reopen?
    ensures HighDrained(p, ops) + Run(p, ops).high == p.high + Pick(ops, true)
    ensures Run(p, ops).highSent == p.highSent + |Pick(ops, true)|
    ensures Run(p, ops).lowStaged == p.lowStaged + |Pick(ops, false)|
    ensures Run(p, ops).processed == p.processed + |HighDrained(p, ops)| + |Drained(p, ops)|
    decreases |ops|
  {
    if ops != [] {
      var init, op := ops[..|ops| - 1], ops[|ops| - 1];
      assert op in ops;
      HighFifo(p, init);
      StepHigh(Run(p, init), op);
      PickSnoc(ops, true);
      PickSnoc(ops, false);
      Requeue(p.high, Pick(init, true), Pick([op], true), HighDrained(p, init), Run(p, init).high,
          HighBy(Run(p, init), op), Run(p, ops).high);
    }
  }

  // ----- summaries -----

  /** How many of n pending events one drain takes. */
  function Taken(p: Pipe, n: nat): nat {
    if p.db.None? || n <= p.maxDrain then n else if p.maxDrain < 1 then (if n == 0 then 0 else 1) else p.maxDrain
  }

  /** A summary counts the drained events and gives the times of the oldest and of the newest of them. */
  lemma {:induction false} SummarySpans(p: Pipe, lo: nat, q: seq<Event>)
    requires Holds(p, lo, q)
    ensures q == [] <==> SummaryOf(DrainedLow(p)).None?
    ensures q != [] ==>
              var n, s := Taken(p, |q|), SummaryOf(DrainedLow(p)).value;
              && 1 <= n <= |q| && s.count == n && s.firstSeen == q[0].timestamp && s.lastSeen == q[n - 1].timestamp
              && forall h :: (if h in s.hashCount then s.hashCount[h] else 0) == Hashes(q[..n])[h]
  {
    DrainCounts(p, lo, q);
    var n := Taken(p, |q|);
    forall h ensures (if h in HashCounts(q[..n]) then HashCounts(q[..n])[h] else 0) == Hashes(q[..n])[h] {
      CountsAreOccurrences(q[..n], h);
    }
  }
}
