/**
 The transport manager of pkg/transport/manager.go: deduplicate through the hash cache, classify through the
 priority pipeline, send high-priority events at once.

 Content hashing and compression are a `Codec`; sending is recorded in the order of the calls.
 */
module Transport {
  import opened Common
  import P = Priority
  import C = HashCache

  /** `zip` yields None when compression fails. */
  datatype Codec = Codec(hash: string -> string, zip: string -> Option<string>)

  datatype Input = Input(data: string, priority: int, tainted: bool, ruleMatch: bool, now: int)

  datatype Manager = Manager(
    cache: C.Cache, pipe: P.Pipe, heartbeats: nat, bytesSaved: nat, client: bool, sent: seq<Option<string>>)

  /** The payload of a new subgraph; a heartbeat has none. */
  function Payload(k: Codec, data: string): string {
    match k.zip(data) case None => data case Some(z) => z
  }

  function EventOf(k: Codec, isNew: bool, x: Input): P.Event {
    P.Event(if isNew then Some(Payload(k, x.data)) else None, k.hash(x.data), x.priority, x.tainted, x.ruleMatch, x.now)
  }

  function DataOf(events: seq<P.Event>): seq<Option<string>> {
    seq(|events|, i requires 0 <= i < |events| => events[i].data)
  }

  /** `flushHigh`: without a client the drained events are discarded. */
  function AfterFlushHigh(m: Manager): Manager {
    m.(pipe := P.AfterDrainHigh(m.pipe), sent := if m.client then m.sent + DataOf(m.pipe.high) else m.sent)
  }

  /** Queues the event; a repeat counts as a heartbeat, a new high-priority event is flushed at once. */
  function AfterRoute(m: Manager, e: P.Event, isNew: bool): Manager {
    var queued := m.(pipe := P.AfterIngest(m.pipe, e));
    if !isNew then queued.(heartbeats := m.heartbeats + 1, bytesSaved := m.bytesSaved + 1024)
    else if P.IsHigh(e) then AfterFlushHigh(queued)
    else queued
  }

  function AfterIngest(m: Manager, k: Codec, x: Input): Manager {
    var isNew := C.IsNew(m.cache, k.hash(x.data));
    AfterRoute(m.(cache := C.AfterCheck(m.cache, k.hash(x.data), x.now)), EventOf(k, isNew, x), isNew)
  }

  // ----- runs -----

  datatype Op = Ingest(x: Input) | Clean(maxAge: int, at: int) | Flush | DrainLow | Restart

  ghost function Step(m: Manager, k: Codec, op: Op): Manager {
    match op
    case Ingest(x) => AfterIngest(m, k, x)
    case Clean(maxAge, at) => m.(cache := C.AfterClean(m.cache, maxAge, at))
    case Flush => m.(cache := C.AfterFlush(m.cache))
    case DrainLow => m.(pipe := P.AfterDrainLow(m.pipe))
    case Restart => m.(cache := C.AfterRestart(m.cache), pipe := P.AfterReopen(m.pipe), heartbeats := 0,
        bytesSaved := 0)
  }

  ghost function Run(m: Manager, k: Codec, ops: seq<Op>): Manager {
    if ops == [] then m else Step(Run(m, k, ops[..|ops| - 1]), k, ops[|ops| - 1])
  }

  /** What an operation asks of the hash cache. */
  function CacheOp(k: Codec, op: Op): C.Op {
    match op
    case Ingest(x) => C.Check(k.hash(x.data), x.now)
    case Clean(maxAge, at) => C.Clean(maxAge, at)
    case Flush => C.Flush
    case DrainLow => C.Peek
    case Restart => C.Restart
  }

  function CacheOps(k: Codec, ops: seq<Op>): seq<C.Op> {
    seq(|ops|, i requires 0 <= i < |ops| => CacheOp(k, ops[i]))
  }

  lemma {:induction false} CacheRuns(m: Manager, k: Codec, ops: seq<Op>)
    ensures Run(m, k, ops).cache == C.Run(m.cache, CacheOps(k, ops))
    decreases |ops|
  {
    if ops != [] {
      var init := ops[..|ops| - 1];
      CacheRuns(m, k, init);
      CacheStep(Run(m, k, init), k, ops[|ops| - 1]);
      assert CacheOps(k, ops)[..|ops| - 1] == CacheOps(k, init);
    }
  }

  lemma {:induction false} CacheStep(m: Manager, k: Codec, op: Op)
    ensures Step(m, k, op).cache == C.Step(m.cache, CacheOp(k, op))
  {
  }

  /** Operation i queues an event with a full payload for the given content hash. */
  ghost predicate QueuesPayload(m: Manager, k: Codec, ops: seq<Op>, i: nat, h: string)
    requires i < |ops|
  {
    && ops[i].Ingest? && k.hash(ops[i].x.data) == h
    && EventOf(k, C.IsNew(Run(m, k, ops[..i]).cache, h), ops[i].x).data.Some?
  }

  /** Operation i is a cleaning that forgets the hash. */
  ghost predicate Forgets(m: Manager, k: Codec, ops: seq<Op>, i: nat, h: string)
    requires i < |ops|
  {
    ops[i].Clean? && h in Run(m, k, ops[..i]).cache.hashes && h !in Run(m, k, ops[..i + 1]).cache.hashes
  }

  lemma {:induction false} PrefixCacheRuns(m: Manager, k: Codec, ops: seq<Op>, i: nat)
    requires i <= |ops|
    ensures Run(m, k, ops[..i]).cache == C.Run(m.cache, CacheOps(k, ops)[..i])
  {
    CacheRuns(m, k, ops[..i]);
    assert CacheOps(k, ops[..i]) == CacheOps(k, ops)[..i];
  }

  lemma {:induction false} KeepsCacheMemory(m: Manager, k: Codec, ops: seq<Op>)
    requires m.cache.disk.Some? || forall op :: op in ops ==> !op.Restart?
    ensures C.KeepsMemory(m.cache, CacheOps(k, ops))
  {
    forall n | 0 <= n < |ops| ensures CacheOps(k, ops)[n].Restart? ==> ops[n].Restart? && ops[n] in ops {}
  }

  /** Between two full payloads for one content hash, a cleaning forgot the hash, even across restarts. */
  lemma {:induction false} OnePayloadPerEpoch(m: Manager, k: Codec, ops: seq<Op>, i: nat, j: nat, h: string)
    returns (c: nat)
    requires C.InSync(m.cache) && (m.cache.disk.Some? || forall op :: op in ops ==> !op.Restart?)
    requires i < j < |ops| && QueuesPayload(m, k, ops, i, h) && QueuesPayload(m, k, ops, j, h)
    ensures i < c < j && Forgets(m, k, ops, c, h)
  {
    var cops := CacheOps(k, ops);
    PayloadTransmits(m, k, ops, i, h);
    PayloadTransmits(m, k, ops, j, h);
    KeepsCacheMemory(m, k, ops);
    c := C.RetransmitNeedsCleaning(m.cache, cops, i, j, h);
    CleaningForgets(m, k, ops, c, h);
  }

  lemma {:induction false} PayloadTransmits(m: Manager, k: Codec, ops: seq<Op>, i: nat, h: string)
    requires i < |ops| && QueuesPayload(m, k, ops, i, h)
    ensures C.Transmits(m.cache, CacheOps(k, ops), i, h)
  {
    PrefixCacheRuns(m, k, ops, i);
  }

  lemma {:induction false} CleaningForgets(m: Manager, k: Codec, ops: seq<Op>, c: nat, h: string)
    requires c < |ops| && CacheOps(k, ops)[c].Clean?
    requires h in C.Run(m.cache, CacheOps(k, ops)[..c]).hashes && h !in C.Run(m.cache, CacheOps(k, ops)[..c + 1]).hashes
    ensures Forgets(m, k, ops, c, h)
  {
    PrefixCacheRuns(m, k, ops, c);
    PrefixCacheRuns(m, k, ops, c + 1);
  }

  /** The manager's heartbeat counter and the cache's hit counter never differ. */
  lemma {:induction false} HeartbeatsAreHits(m: Manager, k: Codec, ops: seq<Op>)
    requires m.heartbeats == m.cache.hits && m.bytesSaved == m.cache.savings
    ensures var r := Run(m, k, ops); r.heartbeats == r.cache.hits && r.bytesSaved == r.cache.savings
    decreases |ops|
  {
    if ops != [] {
      HeartbeatsAreHits(m, k, ops[..|ops| - 1]);
      StepCountsHits(Run(m, k, ops[..|ops| - 1]), k, ops[|ops| - 1]);
    }
  }

  lemma {:induction false} StepCountsHits(m: Manager, k: Codec, op: Op)
    requires m.heartbeats == m.cache.hits && m.bytesSaved == m.cache.savings
    ensures var r := Step(m, k, op); r.heartbeats == r.cache.hits && r.bytesSaved == r.cache.savings
  {
  }

  ghost predicate OnlyHeartbeats(events: seq<P.Event>) {
    forall i :: 0 <= i < |events| ==> events[i].data == None
  }

  /** No full high-priority payload is ever left waiting: what is pending is heartbeats. */
  lemma {:induction false} PendingAreHeartbeats(m: Manager, k: Codec, ops: seq<Op>)
    requires OnlyHeartbeats(m.pipe.high)
    ensures OnlyHeartbeats(Run(m, k, ops).pipe.high)
    decreases |ops|
  {
    if ops != [] {
      PendingAreHeartbeats(m, k, ops[..|ops| - 1]);
      StepKeepsPending(Run(m, k, ops[..|ops| - 1]), k, ops[|ops| - 1]);
    }
  }

  lemma {:induction false} StepKeepsPending(m: Manager, k: Codec, op: Op)
    requires OnlyHeartbeats(m.pipe.high)
    ensures OnlyHeartbeats(Step(m, k, op).pipe.high)
  {
    if op.DrainLow? { P.DrainLowKeepsHigh(m.pipe); }
  }

  /** The payloads of the high-priority events that a run queues, in order. */
  ghost function HighData(m: Manager, k: Codec, ops: seq<Op>): seq<Option<string>> {
    if ops == [] then []
    else
      var init, op := ops[..|ops| - 1], ops[|ops| - 1];
      HighData(m, k, init) + HighBy(Run(m, k, init), k, op)
  }

  function HighBy(m: Manager, k: Codec, op: Op): seq<Option<string>> {
    if !op.Ingest? then []
    else
      var e := EventOf(k, C.IsNew(m.cache, k.hash(op.x.data)), op.x);
      if P.IsHigh(e) then [e.data] else []
  }

  lemma {:induction false} StepKeepsHigh(m: Manager, k: Codec, op: Op)
    requires m.client && !op.Restart?
    ensures var r := Step(m, k, op);
            r.client && r.sent + DataOf(r.pipe.high) == m.sent + DataOf(m.pipe.high) + HighBy(m, k, op)
  {
    if op.Ingest? {
      var e := EventOf(k, C.IsNew(m.cache, k.hash(op.x.data)), op.x);
      assert DataOf(m.pipe.high + [e]) == DataOf(m.pipe.high) + [e.data];
      assert DataOf([]) == [];
    }
  }

  /** With a client attached, every high-priority event is sent in order or is still pending. */
  lemma {:induction false} HighSentInOrder(m: Manager, k: Codec, ops: seq<Op>)
    requires m.client && forall op :: op in ops ==> !op.Restart?
    ensures var r := Run(m, k, ops);
            r.client && r.sent + DataOf(r.pipe.high) == m.sent + DataOf(m.pipe.high) + HighData(m, k, ops)
    decreases |ops|
  {
    if ops != [] {
      var init, op := ops[..|ops| - 1], ops[|ops| - 1];
      assert op in ops;
      HighSentInOrder(m, k, init);
      StepKeepsHigh(Run(m, k, init), k, op);
    }
  }

  /** The event that an input becomes: a full payload for an unknown hash, a data-less heartbeat for a known one. */
  ghost predicate Becomes(m: Manager, k: Codec, x: Input, e: P.Event) {
    && e.hash == k.hash(x.data) && e.priority == x.priority && e.tainted == x.tainted && e.ruleMatch == x.ruleMatch
    && e.timestamp == x.now
    && (k.hash(x.data) in m.cache.hashes ==> e.data == None)
    && (k.hash(x.data) !in m.cache.hashes && k.zip(x.data).Some? ==> e.data == k.zip(x.data))
    && (k.hash(x.data) !in m.cache.hashes && k.zip(x.data).None? ==> e.data == Some(x.data))
  }

  /**
   Where an input goes. One that is urgent by priority, taint or rule match joins the high queue, and a new one takes
   the whole queue out with it; any other joins the low queue; a known hash costs a heartbeat.
   */
  lemma {:induction false} WhereInputsGo(m: Manager, k: Codec, x: Input) returns (e: P.Event)
    ensures Becomes(m, k, x, e)
    ensures var r, known := AfterIngest(m, k, x), k.hash(x.data) in m.cache.hashes;
            var urgent := x.priority >= 2 || x.tainted || x.ruleMatch;
            && (urgent && known ==> r.pipe.high == m.pipe.high + [e] && r.sent == m.sent)
            && (urgent && !known ==> r.pipe.high == [])
            && (urgent && !known && m.client ==> r.sent == m.sent + DataOf(m.pipe.high + [e]))
            && (urgent && !known && !m.client ==> r.sent == m.sent)
            && (!urgent ==> r.pipe == P.AfterIngest(m.pipe, e) && r.pipe.high == m.pipe.high && r.sent == m.sent)
            && r.heartbeats == m.heartbeats + (if known then 1 else 0) && r.client == m.client
            && r.cache == C.AfterCheck(m.cache, k.hash(x.data), x.now)
  {
    e := EventOf(k, C.IsNew(m.cache, k.hash(x.data)), x);
  }

  // ----- the manager object -----

  class TransportManager {
    const codec: Codec
    const hashCache: C.SubgraphCache
    const pipeline: P.PriorityPipeline
    var client: bool
    var heartbeats: nat
    var bytesSaved: nat
    var sent: seq<Option<string>>

    ghost function State(): Manager
      reads this, hashCache, hashCache.db, pipeline, pipeline.lowDB
    {
      Manager(hashCache.State(), pipeline.State(), heartbeats, bytesSaved, client, sent)
    }

    constructor (codec: Codec, hashCache: C.SubgraphCache, pipeline: P.PriorityPipeline)
      ensures this.codec == codec && this.hashCache == hashCache && this.pipeline == pipeline
      ensures heartbeats == bytesSaved == 0 && !client && sent == []
    {
      this.codec, this.hashCache, this.pipeline := codec, hashCache, pipeline;
      heartbeats, bytesSaved, client, sent := 0, 0, false, [];
    }

    method IngestEvent(x: Input)
      modifies this, hashCache, hashCache.db, pipeline, pipeline.lowDB
      ensures State() == AfterIngest(old(State()), codec, x)
    {
      var hash := codec.hash(x.data);
      var shouldTransmit := hashCache.ShouldTransmit(hash, x.now);
      assert State() == old(State()).(cache := C.AfterCheck(old(hashCache.State()), hash, x.now));
      var evt := P.Event(None, hash, x.priority, x.tainted, x.ruleMatch, x.now);
      if shouldTransmit {
        var compressed := codec.zip(x.data);
        evt := evt.(data := if compressed.None? then Some(x.data) else compressed);
      }
      ghost var checked := State();
      assert evt == EventOf(codec, shouldTransmit, x);
      Route(evt, shouldTransmit);
      assert State() == AfterRoute(checked, EventOf(codec, shouldTransmit, x), shouldTransmit);
    }

    method Route(evt: P.Event, isNew: bool)
      modifies this, pipeline, pipeline.lowDB
      ensures State() == AfterRoute(old(State()), evt, isNew)
    {
      pipeline.Ingest(evt);
      assert State() == old(State()).(pipe := P.AfterIngest(old(pipeline.State()), evt));
      if !isNew {
        RecordHeartbeat();
      } else if P.IsHigh(evt) {
        FlushHigh();
      }
    }

    method RecordHeartbeat()
      modifies this`heartbeats, this`bytesSaved
      ensures heartbeats == old(heartbeats) + 1 && bytesSaved == old(bytesSaved) + 1024
    {
      heartbeats := heartbeats + 1;
      bytesSaved := bytesSaved + 1024;
    }

    method FlushHigh()
      modifies this`sent, pipeline
      ensures State() == AfterFlushHigh(old(State()))
    {
      var high := pipeline.TakeHigh();
      if |high| == 0 || !client {
        assert DataOf([]) == [];
        return;
      }
      for i := 0 to |high|
        invariant sent == old(sent) + DataOf(high[..i])
        modifies this`sent
      {
        assert DataOf(high[..i + 1]) == DataOf(high[..i]) + [high[i].data];
        sent := sent + [high[i].data];
      }
      assert high[..|high|] == high;
    }
  }
}
