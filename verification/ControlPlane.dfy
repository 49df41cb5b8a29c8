/**
 The control-plane election of pkg/controlplaneha/coordinator.go and the write gate of pkg/api/api.go.

 Coordinators share one persisted state and run `Tick` as an atomic read-modify-write of it.
 `Reconcile` says what one tick does; `After` and `StatusAt` run any sequence of ticks.
 Times are nanosecond counts, and configuration strings are taken as already trimmed.
 */
module ControlPlane {
  import opened Lex

  const LEADER := "leader"
  const FOLLOWER := "follower"
  const ACTIVE_PASSIVE := "active-passive"

  datatype PersistedNode = PersistedNode(
    nodeID: string, role: string, address: string, healthy: bool, lastSeen: int, version: string)

  datatype PersistedState = PersistedState(
    version: int, updatedAt: int, leaderID: string, nodes: map<string, PersistedNode>)

  datatype Backend = Local | Unsupported | Postgres

  datatype Config = Config(
    mode: string, nodeID: string, configuredRole: string, configuredLeader: string, peers: seq<string>,
    backend: Backend, address: string, version: string, electionTimeout: int)

  /** `activeNodes` is the count printed in the source's status message. */
  datatype Status = Status(
    updatedAt: int, mode: string, nodeID: string, role: string, leaderID: string, healthy: bool,
    peerCount: nat, failoverReady: bool, activeNodes: nat)

  // ----- one reconciliation -----

  function Self(cfg: Config): (id: string)
    ensures id != ""
  {
    if cfg.nodeID != "" then cfg.nodeID else "control-plane"
  }

  function Entry(cfg: Config, now: int, healthy: bool): PersistedNode {
    PersistedNode(Self(cfg), cfg.configuredRole, cfg.address, healthy, now, cfg.version)
  }

  predicate Active(node: PersistedNode, now: int, timeout: int) {
    node.nodeID != "" && now - node.lastSeen <= timeout
  }

  function ActiveKeys(nodes: map<string, PersistedNode>, now: int, timeout: int): set<string> {
    set id | id in nodes && Active(nodes[id], now, timeout)
  }

  /** The IDs of the nodes that are active and healthy. */
  function Electable(nodes: map<string, PersistedNode>, now: int, timeout: int): set<string> {
    set id | id in nodes && Active(nodes[id], now, timeout) && nodes[id].healthy :: nodes[id].nodeID
  }

  /** The configured leader when it can be elected, otherwise the least ID, or "" when nobody can. */
  ghost function Elected(configuredLeader: string, electable: set<string>): string {
    if configuredLeader != "" && configuredLeader in electable then configuredLeader
    else if electable == {} then ""
    else Least(electable)
  }

  function Fresh(nodes: map<string, PersistedNode>, now: int, timeout: int): map<string, PersistedNode> {
    map id | id in nodes && now - nodes[id].lastSeen <= timeout * 3 :: nodes[id]
  }

  function StatusOf(cfg: Config, now: int, healthy: bool, leaderID: string, active: nat): Status {
    Status(now, cfg.mode, Self(cfg), if Self(cfg) == leaderID then LEADER else FOLLOWER, leaderID, healthy,
           |cfg.peers|, cfg.mode == ACTIVE_PASSIVE && healthy && active > 1, active)
  }

  /** `reconcileState`; with `gc` false, the variant that never deletes an old entry. */
  ghost function Reconcile(cfg: Config, s: PersistedState, now: int, healthy: bool, gc: bool)
    : (PersistedState, Status)
  {
    var nodes := s.nodes[Self(cfg) := Entry(cfg, now, healthy)];
    var chosen := Elected(cfg.configuredLeader, Electable(nodes, now, cfg.electionTimeout));
    var leaderID := if chosen == "" then Self(cfg) else chosen;
    (PersistedState(1, now, leaderID, if gc then Fresh(nodes, now, cfg.electionTimeout) else nodes),
     StatusOf(cfg, now, healthy, leaderID, |ActiveKeys(nodes, now, cfg.electionTimeout)|))
  }

  function Standalone(cfg: Config, now: int, healthy: bool): Status {
    var role := if cfg.configuredRole == "" || cfg.configuredRole == "observer" then LEADER else cfg.configuredRole;
    var leaderID := if cfg.configuredLeader == "" && role == LEADER then Self(cfg) else cfg.configuredLeader;
    Status(now, cfg.mode, Self(cfg), role, leaderID, healthy, |cfg.peers|, false, 0)
  }

  function Degraded(cfg: Config, now: int, healthy: bool): Status {
    var s := Standalone(cfg, now, healthy);
    s.(role := if cfg.configuredRole == LEADER then LEADER else FOLLOWER)
  }

  /** The tick takes part in the shared election: the mode needs it and the transaction commits. */
  predicate Reconciles(cfg: Config, commits: bool) {
    cfg.mode == ACTIVE_PASSIVE && cfg.backend == Postgres && commits
  }

  ghost function TickResult(cfg: Config, s: PersistedState, now: int, healthy: bool, commits: bool, gc: bool)
    : (PersistedState, Status)
  {
    if Reconciles(cfg, commits) then Reconcile(cfg, s, now, healthy, gc)
    else if cfg.mode == ACTIVE_PASSIVE then (s, Degraded(cfg, now, healthy))
    else (s, Standalone(cfg, now, healthy))
  }

  // ----- the source's loops -----

  method ActiveNodes(nodes: map<string, PersistedNode>, now: int, timeout: int) returns (out: seq<PersistedNode>)
    ensures |out| == |ActiveKeys(nodes, now, timeout)|
    ensures (set n | n in out && n.healthy :: n.nodeID) == Electable(nodes, now, timeout)
  {
    out := [];
    var rest := nodes.Keys;
    ghost var seen: set<string> := {};
    while rest != {}
      invariant rest <= nodes.Keys && |out| == |seen|
      invariant forall id :: id in seen <==> id in nodes && id !in rest && Active(nodes[id], now, timeout)
      invariant forall n :: n in out ==> exists id :: id in seen && n == nodes[id]
      invariant forall id :: id in seen ==> nodes[id] in out
      decreases rest
    {
      var id :| id in rest;
      var node := nodes[id];
      if !(node.nodeID == "" || now - node.lastSeen > timeout) {
        out, seen := out + [node], seen + {id};
      }
      rest := rest - {id};
    }
    assert seen == ActiveKeys(nodes, now, timeout);
    CollectedAreElectable(nodes, now, timeout, out);
  }

  lemma {:induction false} CollectedAreElectable(nodes: map<string, PersistedNode>, now: int, timeout: int,
        out: seq<PersistedNode>)
    requires forall n :: n in out ==> exists id :: id in nodes && Active(nodes[id], now, timeout) && n == nodes[id]
    requires forall id :: id in nodes && Active(nodes[id], now, timeout) ==> nodes[id] in out
    ensures (set n | n in out && n.healthy :: n.nodeID) == Electable(nodes, now, timeout)
  {
    forall x | x in Electable(nodes, now, timeout) ensures x in (set n | n in out && n.healthy :: n.nodeID) {
      var id :| id in nodes && Active(nodes[id], now, timeout) && nodes[id].healthy && nodes[id].nodeID == x;
      assert nodes[id] in out;
    }
  }

  ghost predicate SortedByID(s: seq<PersistedNode>) {
    forall i, j :: 0 <= i < j < |s| ==> Leq(s[i].nodeID, s[j].nodeID)
  }

  lemma {:induction false} InsertKeepsSorted(r: seq<PersistedNode>, i: nat, x: PersistedNode)
    requires SortedByID(r) && i <= |r|
    requires forall m :: 0 <= m < i ==> Less(r[m].nodeID, x.nodeID)
    requires i < |r| ==> !Less(r[i].nodeID, x.nodeID)
    ensures SortedByID(r[..i] + [x] + r[i..])
    ensures forall n :: n in r[..i] + [x] + r[i..] <==> n in r || n == x
  {
    forall m | i <= m < |r| ensures Leq(x.nodeID, r[m].nodeID) {
      Total(r[i].nodeID, x.nodeID);
      if m > i {
        LeqTransitive();
        assert Leq(x.nodeID, r[i].nodeID) && Leq(r[i].nodeID, r[m].nodeID);
      }
    }
    assert r == r[..i] + r[i..];
  }

  /** `sort.Slice` by node ID. */
  method SortByID(s: seq<PersistedNode>) returns (r: seq<PersistedNode>)
    ensures SortedByID(r) && forall n :: n in r <==> n in s
  {
    r := [];
    for k := 0 to |s|
      invariant SortedByID(r) && forall n :: n in r <==> n in s[..k]
    {
      var i := 0;
      while i < |r| && Less(r[i].nodeID, s[k].nodeID)
        invariant 0 <= i <= |r|
        invariant forall m :: 0 <= m < i ==> Less(r[m].nodeID, s[k].nodeID)
      {
        i := i + 1;
      }
      InsertKeepsSorted(r, i, s[k]);
      assert s[..k + 1] == s[..k] + [s[k]];
      r := r[..i] + [s[k]] + r[i..];
    }
    assert s[..|s|] == s;
  }

  method ElectLeader(cfg: Config, nodes: seq<PersistedNode>) returns (id: string)
    ensures id == Elected(cfg.configuredLeader, set n | n in nodes && n.healthy :: n.nodeID)
  {
    ghost var electable := set n | n in nodes && n.healthy :: n.nodeID;
    if cfg.configuredLeader != "" {
      for k := 0 to |nodes|
        invariant forall m :: 0 <= m < k ==> !(nodes[m].nodeID == cfg.configuredLeader && nodes[m].healthy)
      {
        if nodes[k].nodeID == cfg.configuredLeader && nodes[k].healthy {
          return nodes[k].nodeID;
        }
      }
    }
    var sorted := SortByID(nodes);
    for k := 0 to |sorted|
      invariant forall m :: 0 <= m < k ==> !sorted[m].healthy
    {
      if sorted[k].healthy {
        assert sorted[k] in nodes;
        forall x | x in electable ensures Leq(sorted[k].nodeID, x) {
          var n :| n in nodes && n.healthy && n.nodeID == x;
          assert n in sorted;
        }
        LeastIsUnique(electable, sorted[k].nodeID);
        return sorted[k].nodeID;
      }
    }
    forall n | n in nodes ensures !n.healthy { assert n in sorted; }
    return "";
  }

  lemma {:induction false} LeastIsUnique(S: set<string>, x: string)
    requires x in S && forall y :: y in S ==> Leq(x, y)
    ensures x == Least(S)
  {
    if Less(x, Least(S)) { Asymmetric(x, Least(S)); }
  }

  method DropStale(nodes: map<string, PersistedNode>, now: int, timeout: int) returns (kept: map<string, PersistedNode>)
    ensures kept == Fresh(nodes, now, timeout)
  {
    kept := nodes;
    var rest := nodes.Keys;
    while rest != {}
      invariant rest <= nodes.Keys
      invariant forall id :: id in kept <==> id in nodes && (id in rest || now - nodes[id].lastSeen <= timeout * 3)
      invariant forall id :: id in kept ==> kept[id] == nodes[id]
      decreases rest
    {
      var id :| id in rest;
      if now - nodes[id].lastSeen > timeout * 3 {
        kept := kept - {id};
      }
      rest := rest - {id};
    }
  }

  method ReconcileState(cfg: Config, state: PersistedState, now: int, healthy: bool)
    returns (next: PersistedState, status: Status)
    ensures (next, status) == Reconcile(cfg, state, now, healthy, true)
  {
    var nodeID := Self(cfg);
    var nodes := state.nodes[nodeID := Entry(cfg, now, healthy)];
    var active := ActiveNodes(nodes, now, cfg.electionTimeout);
    var leaderID := ElectLeader(cfg, active);
    if leaderID == "" {
      leaderID := nodeID;
    }
    var kept := DropStale(nodes, now, cfg.electionTimeout);
    next := PersistedState(1, now, leaderID, kept);
    status := StatusOf(cfg, now, healthy, leaderID, |active|);
  }

  /** The row that all coordinators update under one transaction lock. */
  class SharedRow {
    var state: PersistedState

    constructor ()
      ensures state == PersistedState(1, 0, "", map[])
    {
      state := PersistedState(1, 0, "", map[]);
    }
  }

  class Coordinator {
    const cfg: Config
    var status: Status

    constructor (cfg: Config, now: int, healthy: bool)
      ensures this.cfg == cfg && status == Standalone(cfg, now, healthy)
    {
      this.cfg := cfg;
      status := Standalone(cfg, now, healthy);
    }

    /** `Tick`; `commits` tells whether the database transaction succeeds. */
    method Tick(row: SharedRow, now: int, healthy: bool, commits: bool)
      modifies this, row
      ensures (row.state, status) == TickResult(cfg, old(row.state), now, healthy, commits, true)
    {
      if cfg.mode != ACTIVE_PASSIVE {
        status := Standalone(cfg, now, healthy);
      } else if cfg.backend != Postgres || !commits {
        status := Degraded(cfg, now, healthy);
      } else {
        var next, s := ReconcileState(cfg, row.state, now, healthy);
        row.state := next;
        status := s;
      }
    }
  }

  // ----- runs -----

  datatype Tick = Tick(cfg: Config, now: int, healthy: bool, commits: bool) {
    function Node(): string { Self(cfg) }
    predicate Writes() { Reconciles(cfg, commits) }
  }

  ghost function Step(s: PersistedState, t: Tick, gc: bool): (PersistedState, Status) {
    TickResult(t.cfg, s, t.now, t.healthy, t.commits, gc)
  }

  /** The shared state after the first k ticks. */
  ghost function After(s: PersistedState, ticks: seq<Tick>, k: nat, gc: bool): PersistedState
    requires k <= |ticks|
  {
    if k == 0 then s else Step(After(s, ticks, k - 1, gc), ticks[k - 1], gc).0
  }

  /** What tick k of the run leaves in its node's cached status. */
  ghost function StatusAt(s: PersistedState, ticks: seq<Tick>, k: nat, gc: bool): Status
    requires k < |ticks|
  {
    Step(After(s, ticks, k, gc), ticks[k], gc).1
  }

  /** One timeout and one configured leader for the whole cluster, and time that does not go back. */
  ghost predicate Cluster(timeout: int, configuredLeader: string, ticks: seq<Tick>) {
    && timeout > 0
    && (forall k {:trigger Configured(timeout, configuredLeader, ticks, k)} :: 0 <= k < |ticks| ==>
        Configured(timeout, configuredLeader, ticks, k))
    && (forall i, j {:trigger InOrder(ticks, i, j)} :: 0 <= i < j < |ticks| ==> InOrder(ticks, i, j))
  }

  ghost predicate Configured(timeout: int, configuredLeader: string, ticks: seq<Tick>, k: int) {
    0 <= k < |ticks| && ticks[k].cfg.electionTimeout == timeout && ticks[k].cfg.configuredLeader == configuredLeader
  }

  ghost predicate InOrder(ticks: seq<Tick>, i: int, j: int) {
    0 <= i <= j < |ticks| && ticks[i].now <= ticks[j].now
  }

  // ----- lease safety -----

  /** Node a reconciled at tick i and did not reconcile again before tick j. */
  ghost predicate SilentBetween(ticks: seq<Tick>, a: string, i: nat, j: nat)
    requires i < j <= |ticks|
  {
    && ticks[i].Writes() && ticks[i].Node() == a
    && forall k :: i < k < j && ticks[k].Writes() ==> ticks[k].Node() != a
  }

  /** An entry survives, unchanged, as long as it is at most one timeout old. */
  lemma {:induction false} EntrySurvives(s: PersistedState, ticks: seq<Tick>, timeout: int, leader: string, i: nat,
        j: nat)
    requires Cluster(timeout, leader, ticks)
    requires i < j <= |ticks| && SilentBetween(ticks, ticks[i].Node(), i, j)
    requires ticks[j - 1].now - ticks[i].now <= timeout
    ensures var nodes := After(s, ticks, j, true).nodes; var a := ticks[i].Node();
            a in nodes && nodes[a] == Entry(ticks[i].cfg, ticks[i].now, ticks[i].healthy)
    decreases j
  {
    var before, t, a := After(s, ticks, j - 1, true), ticks[j - 1], ticks[i].Node();
    assert Configured(timeout, leader, ticks, j - 1);
    if i < j - 1 {
      assert InOrder(ticks, j - 2, j - 1);
      EntrySurvives(s, ticks, timeout, leader, i, j - 1);
      StepKeepsEntry(before, t, a);
    } else {
      StepWritesEntry(before, t);
    }
  }

  lemma {:induction false} StepWritesEntry(s: PersistedState, t: Tick)
    requires t.Writes() && t.cfg.electionTimeout > 0
    ensures var nodes := Step(s, t, true).0.nodes;
        t.Node() in nodes && nodes[t.Node()] == Entry(t.cfg, t.now, t.healthy)
  {
  }

  lemma {:induction false} StepKeepsEntry(s: PersistedState, t: Tick, a: string)
    requires a in s.nodes && t.now - s.nodes[a].lastSeen <= t.cfg.electionTimeout && t.cfg.electionTimeout > 0
    requires t.Writes() ==> t.Node() != a
    ensures var nodes := Step(s, t, true).0.nodes; a in nodes && nodes[a] == s.nodes[a]
  {
  }

  ghost predicate HealthyLeader(st: Status) {
    st.role == LEADER && st.healthy
  }

  /**
   If A became healthy leader at tick i and B became healthy leader at the later tick j while A did
   not reconcile in between, then A's lease had run out, or B outranks A: B is the configured leader,
   or A is not and B has the smaller ID.
   */
  lemma {:induction false} LeaseSafety(s: PersistedState, ticks: seq<Tick>, timeout: int, leader: string, i: nat,
        j: nat)
    requires Cluster(timeout, leader, ticks)
    requires i < j < |ticks| && ticks[j].Writes() && SilentBetween(ticks, ticks[i].Node(), i, j)
    requires ticks[i].Node() != ticks[j].Node()
    requires HealthyLeader(StatusAt(s, ticks, i, true)) && HealthyLeader(StatusAt(s, ticks, j, true))
    ensures var a, b := ticks[i].Node(), ticks[j].Node();
            ticks[j].now - ticks[i].now > timeout || b == leader || (a != leader && Less(b, a))
  {
    var a, t := ticks[i].Node(), ticks[j];
    assert Configured(timeout, leader, ticks, j) && InOrder(ticks, j - 1, j);
    if t.now - ticks[i].now <= timeout {
      EntrySurvives(s, ticks, timeout, leader, i, j);
      var nodes := After(s, ticks, j, true).nodes[t.Node() := Entry(t.cfg, t.now, t.healthy)];
      var electable := Electable(nodes, t.now, timeout);
      assert a in nodes && nodes[a].nodeID == a && a in electable;
      assert t.Node() in nodes && t.Node() in electable;
    }
  }

  /** A leader that was outranked steps down: at its next tick within the lease it is not leader. */
  lemma {:induction false} OutrankedStepsDown(s: PersistedState, ticks: seq<Tick>, timeout: int, leader: string,
        j: nat, k: nat)
    requires Cluster(timeout, leader, ticks)
    requires j < k < |ticks| && ticks[k].Writes() && SilentBetween(ticks, ticks[j].Node(), j, k)
    requires HealthyLeader(StatusAt(s, ticks, j, true))
    requires var a, b := ticks[k].Node(), ticks[j].Node();
             a != b && (b == leader || (a != leader && Less(b, a)))
    requires ticks[k].now - ticks[j].now <= timeout
    ensures !HealthyLeader(StatusAt(s, ticks, k, true))
  {
    if HealthyLeader(StatusAt(s, ticks, k, true)) {
      LeaseSafety(s, ticks, timeout, leader, j, k);
      Asymmetric(ticks[j].Node(), ticks[k].Node());
    }
  }

  // ----- deleting old entries is invisible -----

  /** The run that deletes (d) and the run that never deletes (n) differ only in entries long stale. */
  ghost predicate SameButStale(d: PersistedState, n: PersistedState, now: int, timeout: int) {
    && d.(nodes := map[]) == n.(nodes := map[])
    && (forall id :: id in d.nodes ==> id in n.nodes && d.nodes[id] == n.nodes[id])
    && (forall id :: id in n.nodes && id !in d.nodes ==> now - n.nodes[id].lastSeen > timeout * 3)
  }

  lemma {:induction false} StepKeepsSameButStale(d: PersistedState, n: PersistedState, before: int, t: Tick)
    requires SameButStale(d, n, before, t.cfg.electionTimeout)
    requires before <= t.now && t.cfg.electionTimeout > 0
    ensures SameButStale(Step(d, t, true).0, Step(n, t, false).0, t.now, t.cfg.electionTimeout)
    ensures Step(d, t, true).1 == Step(n, t, false).1
  {
    if t.Writes() {
      var e := Entry(t.cfg, t.now, t.healthy);
      var dn, nn := d.nodes[t.Node() := e], n.nodes[t.Node() := e];
      assert ActiveKeys(dn, t.now, t.cfg.electionTimeout) == ActiveKeys(nn, t.now, t.cfg.electionTimeout);
      SameElectable(dn, nn, t.now, t.cfg.electionTimeout);
    }
  }

  lemma {:induction false} SameElectable(dn: map<string, PersistedNode>, nn: map<string, PersistedNode>, now: int,
        timeout: int)
    requires timeout > 0
    requires forall id :: id in dn ==> id in nn && dn[id] == nn[id]
    requires forall id :: id in nn && id !in dn ==> now - nn[id].lastSeen > timeout * 3
    ensures Electable(dn, now, timeout) == Electable(nn, now, timeout)
  {
    forall x ensures x in Electable(dn, now, timeout) <==> x in Electable(nn, now, timeout) {
      if x in Electable(nn, now, timeout) {
        var id :| id in nn && Active(nn[id], now, timeout) && nn[id].healthy && nn[id].nodeID == x;
        assert id in dn;
      }
    }
  }

  lemma {:induction false} RunsSameButStale(s: PersistedState, ticks: seq<Tick>, timeout: int, leader: string, k: nat,
        now: int)
    requires Cluster(timeout, leader, ticks) && k <= |ticks| && (k > 0 ==> ticks[k - 1].now <= now)
    ensures SameButStale(After(s, ticks, k, true), After(s, ticks, k, false), now, timeout)
  {
    if k > 0 {
      assert Configured(timeout, leader, ticks, k - 1) && (k > 1 ==> InOrder(ticks, k - 2, k - 1));
      RunsSameButStale(s, ticks, timeout, leader, k - 1, ticks[k - 1].now);
      StepKeepsSameButStale(After(s, ticks, k - 1, true), After(s, ticks, k - 1, false), ticks[k - 1].now,
          ticks[k - 1]);
    }
  }

  /** Every tick of every run reports the same status, and stores the same leader, with or without the deletion. */
  lemma {:induction false} DeletionIsInvisible(s: PersistedState, ticks: seq<Tick>, timeout: int, leader: string,
        k: nat)
    requires Cluster(timeout, leader, ticks) && k < |ticks|
    ensures StatusAt(s, ticks, k, true) == StatusAt(s, ticks, k, false)
    ensures After(s, ticks, k + 1, true).leaderID == After(s, ticks, k + 1, false).leaderID
  {
    assert Configured(timeout, leader, ticks, k) && (k > 0 ==> InOrder(ticks, k - 1, k));
    RunsSameButStale(s, ticks, timeout, leader, k, ticks[k].now);
    StepKeepsSameButStale(After(s, ticks, k, true), After(s, ticks, k, false), ticks[k].now, ticks[k]);
  }

  // ----- the write gate -----

  /** `requireLeaderForControlWrite` on a coordinator's cached status. */
  predicate WriteGate(st: Status) {
    st.mode == "" || st.mode == "standalone" || (st.role == LEADER && st.healthy)
  }

  /** Exactly when an active-passive node may write after a tick. */
  lemma {:induction false} WriteGateIff(s: PersistedState, t: Tick, gc: bool)
    requires t.cfg.mode == ACTIVE_PASSIVE && t.cfg.electionTimeout > 0
    ensures var nodes := s.nodes[t.Node() := Entry(t.cfg, t.now, t.healthy)];
            var elected := Elected(t.cfg.configuredLeader, Electable(nodes, t.now, t.cfg.electionTimeout));
            WriteGate(Step(s, t, gc).1) <==>
              t.healthy && if t.Writes() then t.Node() == elected else t.cfg.configuredRole == LEADER
  {
    if t.Writes() && t.healthy {
      var nodes := s.nodes[t.Node() := Entry(t.cfg, t.now, t.healthy)];
      assert t.Node() in nodes && t.Node() in Electable(nodes, t.now, t.cfg.electionTimeout);
    }
  }

  // ----- convergence -----

  /** When node n last wrote its entry before tick k: its latest tick, or the entry in the starting state. */
  ghost function LastSeen(s: PersistedState, ticks: seq<Tick>, k: nat, n: string): int
    requires n in s.nodes && k <= |ticks|
  {
    if k == 0 then s.nodes[n].lastSeen
    else if ticks[k - 1].Node() == n then ticks[k - 1].now
    else LastSeen(s, ticks, k - 1, n)
  }

  ghost predicate Recent(s: PersistedState, ticks: seq<Tick>, timeout: int, k: int, n: string) {
    0 <= k < |ticks| && n in s.nodes && ticks[k].now - LastSeen(s, ticks, k, n) <= timeout
  }

  /** Only live nodes tick, their health is steady, and every tick finds them all within the timeout. */
  ghost predicate Steady(s: PersistedState, ticks: seq<Tick>, timeout: int, health: map<string, bool>) {
    && (forall n :: n in health ==>
        n != "" && n in s.nodes && s.nodes[n].nodeID == n && s.nodes[n].healthy == health[n])
    && (forall k :: 0 <= k < |ticks| ==>
          ticks[k].Writes() && ticks[k].Node() in health && ticks[k].healthy == health[ticks[k].Node()])
    && (forall k, n {:trigger Recent(s, ticks, timeout, k, n)} :: 0 <= k < |ticks| && n in health ==>
        Recent(s, ticks, timeout, k, n))
    && (forall n :: n in s.nodes && n !in health ==> |ticks| > 0 ==> !Active(s.nodes[n], ticks[0].now, timeout))
  }

  ghost function Fit(health: map<string, bool>): set<string> {
    set n | n in health && health[n]
  }

  /** Live entries carry their last tick and their steady health; other entries are those of the start. */
  ghost predicate Tracks(s: PersistedState, ticks: seq<Tick>, k: nat, health: map<string, bool>,
        nodes: map<string, PersistedNode>)
    requires k <= |ticks|
  {
    && (forall n {:trigger LiveEntry(s, ticks, k, health, nodes, n)} :: n in health ==>
        LiveEntry(s, ticks, k, health, nodes, n))
    && (forall n {:trigger OldEntry(s, health, nodes, n)} :: n in nodes && n !in health ==>
        OldEntry(s, health, nodes, n))
  }

  ghost predicate LiveEntry(s: PersistedState, ticks: seq<Tick>, k: nat, health: map<string, bool>,
        nodes: map<string, PersistedNode>, n: string)
    requires k <= |ticks|
  {
    && n in health && n in s.nodes && n in nodes
    && nodes[n].nodeID == n && nodes[n].healthy == health[n] && nodes[n].lastSeen == LastSeen(s, ticks, k, n)
  }

  ghost predicate OldEntry(s: PersistedState, health: map<string, bool>, nodes: map<string, PersistedNode>, n: string) {
    n in nodes && n !in health && n in s.nodes && nodes[n] == s.nodes[n]
  }

  lemma {:induction false} TrackStep(s: PersistedState, ticks: seq<Tick>, k: nat, timeout: int,
        health: map<string, bool>, nodes: map<string, PersistedNode>)
    requires k < |ticks| && Tracks(s, ticks, k, health, nodes) && timeout > 0
    requires ticks[k].Node() in health && ticks[k].healthy == health[ticks[k].Node()]
    requires forall n {:trigger Recent(s, ticks, timeout, k, n)} :: n in health ==> Recent(s, ticks, timeout, k, n)
    ensures var t := ticks[k];
            Tracks(s, ticks, k + 1, health, Fresh(nodes[t.Node() := Entry(t.cfg, t.now, t.healthy)], t.now, timeout))
  {
    var t := ticks[k];
    var now := Fresh(nodes[t.Node() := Entry(t.cfg, t.now, t.healthy)], t.now, timeout);
    forall n | n in health ensures LiveEntry(s, ticks, k + 1, health, now, n) {
      assert LiveEntry(s, ticks, k, health, nodes, n) && Recent(s, ticks, timeout, k, n);
    }
    forall n | n in now && n !in health ensures OldEntry(s, health, now, n) { assert OldEntry(s, health, nodes, n); }
  }

  lemma {:induction false} RunTracks(s: PersistedState, ticks: seq<Tick>, timeout: int, leader: string,
        health: map<string, bool>, k: nat)
    requires Cluster(timeout, leader, ticks) && Steady(s, ticks, timeout, health) && k <= |ticks|
    ensures Tracks(s, ticks, k, health, After(s, ticks, k, true).nodes)
    decreases k
  {
    if k > 0 {
      var before, t := After(s, ticks, k - 1, true), ticks[k - 1];
      RunTracks(s, ticks, timeout, leader, health, k - 1);
      assert After(s, ticks, k, true).nodes
          == Fresh(before.nodes[t.Node() := Entry(t.cfg, t.now, t.healthy)], t.now, timeout) by {
        assert Configured(timeout, leader, ticks, k - 1);
        StepStoresFresh(before, t);
      }
      TrackStep(s, ticks, k - 1, timeout, health, before.nodes);
    } else {
      forall n | n in health ensures LiveEntry(s, ticks, 0, health, s.nodes, n) { }
      forall n | n in s.nodes && n !in health ensures OldEntry(s, health, s.nodes, n) { }
    }
  }

  lemma {:induction false} StepStoresFresh(s: PersistedState, t: Tick)
    requires t.Writes()
    ensures Step(s, t, true).0.nodes
        == Fresh(s.nodes[t.Node() := Entry(t.cfg, t.now, t.healthy)], t.now, t.cfg.electionTimeout)
  {
  }

  lemma {:induction false} SteadyElectable(s: PersistedState, ticks: seq<Tick>, timeout: int, leader: string,
        health: map<string, bool>, k: nat)
    requires Cluster(timeout, leader, ticks) && Steady(s, ticks, timeout, health) && k < |ticks|
    ensures var t := ticks[k]; var nodes := After(s, ticks, k, true).nodes[t.Node() := Entry(t.cfg, t.now, t.healthy)];
            ActiveKeys(nodes, t.now, timeout) == health.Keys && Electable(nodes, t.now, timeout) == Fit(health)
  {
    RunTracks(s, ticks, timeout, leader, health, k);
    var t := ticks[k];
    assert Configured(timeout, leader, ticks, k) && (k > 0 ==> InOrder(ticks, 0, k));
    var nodes := After(s, ticks, k, true).nodes[t.Node() := Entry(t.cfg, t.now, t.healthy)];
    forall n | n in health
      ensures n in nodes && Active(nodes[n], t.now, timeout) && nodes[n].healthy == health[n] && nodes[n].nodeID == n
    {
      assert Recent(s, ticks, timeout, k, n) && LiveEntry(s, ticks, k, health, After(s, ticks, k, true).nodes, n);
    }
    forall n | n in nodes && n !in health ensures !Active(nodes[n], t.now, timeout) {
      assert OldEntry(s, health, After(s, ticks, k, true).nodes, n);
      assert !Active(s.nodes[n], ticks[0].now, timeout) && ticks[0].now <= t.now;
    }
    forall x | x in Fit(health) ensures x in Electable(nodes, t.now, timeout) { assert x in nodes; }
  }

  /** In a steady cluster with a healthy node, every tick elects the same leader, which alone reports the role. */
  lemma {:induction false} Convergence(s: PersistedState, ticks: seq<Tick>, timeout: int, leader: string,
        health: map<string, bool>, k: nat)
    requires Cluster(timeout, leader, ticks) && Steady(s, ticks, timeout, health) && k < |ticks|
    requires Fit(health) != {}
    ensures var l := Elected(leader, Fit(health)); var st := StatusAt(s, ticks, k, true);
            && l in Fit(health)
            && st.leaderID == l == After(s, ticks, k + 1, true).leaderID
            && (st.role == LEADER <==> ticks[k].Node() == l)
            && (WriteGate(st) <==> ticks[k].Node() == l)
            && st.activeNodes == |health|
  {
    SteadyElectable(s, ticks, timeout, leader, health, k);
    assert Configured(timeout, leader, ticks, k);
  }

  /** Once each live node has ticked, exactly one of their cached statuses passes the write gate. */
  lemma {:induction false} ExactlyOneWriter(s: PersistedState, ticks: seq<Tick>, timeout: int, leader: string,
        health: map<string, bool>, last: map<string, nat>)
    requires Cluster(timeout, leader, ticks) && Steady(s, ticks, timeout, health) && Fit(health) != {}
    requires forall n :: n in health ==> n in last && last[n] < |ticks| && ticks[last[n]].Node() == n
    ensures (set n | n in health && WriteGate(StatusAt(s, ticks, last[n], true))) == {Elected(leader, Fit(health))}
  {
    forall n | n in health ensures WriteGate(StatusAt(s, ticks, last[n], true)) <==> n == Elected(leader, Fit(health)) {
      Convergence(s, ticks, timeout, leader, health, last[n]);
    }
  }
}
