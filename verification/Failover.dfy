/**
 Failover in the control-plane election of pkg/controlplaneha/coordinator.go, told from the ticks alone: who counts as
 alive, who leads and what is stored after any run, in terms of when each node last reconciled.
 */
module Failover {
  import opened Lex
  import opened ControlPlane

  /** What the cluster last heard from a node. */
  datatype Word = Silent | Heard(at: int, healthy: bool, role: string, address: string, version: string)

  ghost function WordOf(t: Tick): Word {
    Heard(t.now, t.healthy, t.cfg.configuredRole, t.cfg.address, t.cfg.version)
  }

  ghost function StoredWord(e: PersistedNode): Word {
    Heard(e.lastSeen, e.healthy, e.role, e.address, e.version)
  }

  /** The last word of node n before tick k: its latest reconcile, or its entry in the starting state. */
  ghost function LastWord(s: PersistedState, ticks: seq<Tick>, k: nat, n: string): Word
    requires k <= |ticks|
  {
    if k == 0 then (if n in s.nodes then StoredWord(s.nodes[n]) else Silent)
    else if ticks[k - 1].Writes() && ticks[k - 1].Node() == n then WordOf(ticks[k - 1])
    else LastWord(s, ticks, k - 1, n)
  }

  /** Every stored entry lies under its own, non-empty ID. */
  ghost predicate OwnIDs(s: PersistedState) {
    "" !in s.nodes && forall id :: id in s.nodes ==> s.nodes[id].nodeID == id
  }

  /** The nodes that were ever heard of before tick k. */
  ghost function Known(s: PersistedState, ticks: seq<Tick>, k: nat): set<string>
    requires k <= |ticks|
  {
    if k == 0 then s.nodes.Keys
    else Known(s, ticks, k - 1) + if ticks[k - 1].Writes() then {ticks[k - 1].Node()} else {}
  }

  lemma {:induction false} KnownIffHeard(s: PersistedState, ticks: seq<Tick>, k: nat, n: string)
    requires k <= |ticks|
    ensures n in Known(s, ticks, k) <==> LastWord(s, ticks, k, n).Heard?
  {
    if k > 0 { KnownIffHeard(s, ticks, k - 1, n); }
  }

  /** The nodes heard of within the given time before now. */
  ghost function Within(s: PersistedState, ticks: seq<Tick>, k: nat, now: int, age: int): set<string>
    requires k <= |ticks|
  {
    set n | n in Known(s, ticks, k) && LastWord(s, ticks, k, n).Heard? && now - LastWord(s, ticks, k, n).at <= age
  }

  /** ... that were healthy when last heard of. */
  ghost function Fit(s: PersistedState, ticks: seq<Tick>, k: nat, now: int, age: int): set<string>
    requires k <= |ticks|
  {
    set n | n in Within(s, ticks, k, now, age) && LastWord(s, ticks, k, n).healthy
  }

  // ----- the entries repeat the last words -----

  ghost predicate Repeats(nodes: map<string, PersistedNode>, n: string, w: Word) {
    && (n in nodes <==> w.Heard?)
    && (n in nodes ==> nodes[n].nodeID == n && n != "" && StoredWord(nodes[n]) == w)
  }

  /** Without deletion, the stored entries are the last words. */
  lemma {:induction false} EntriesRepeat(s: PersistedState, ticks: seq<Tick>, k: nat, n: string)
    requires OwnIDs(s) && k <= |ticks|
    ensures Repeats(After(s, ticks, k, false).nodes, n, LastWord(s, ticks, k, n))
  {
    if k > 0 { EntriesRepeat(s, ticks, k - 1, n); }
  }

  /** The entries that the election of tick k sees, without deletion. */
  ghost function Ballot(s: PersistedState, ticks: seq<Tick>, k: nat): map<string, PersistedNode>
    requires k < |ticks|
  {
    After(s, ticks, k, false).nodes[ticks[k].Node() := Entry(ticks[k].cfg, ticks[k].now, ticks[k].healthy)]
  }

  lemma {:induction false} BallotRepeats(s: PersistedState, ticks: seq<Tick>, k: nat, n: string)
    requires OwnIDs(s) && k < |ticks| && ticks[k].Writes()
    ensures Repeats(Ballot(s, ticks, k), n, LastWord(s, ticks, k + 1, n))
  {
    EntriesRepeat(s, ticks, k, n);
  }

  lemma {:induction false} BallotCounts(s: PersistedState, ticks: seq<Tick>, k: nat, timeout: int)
    requires OwnIDs(s) && k < |ticks| && ticks[k].Writes()
    ensures ActiveKeys(Ballot(s, ticks, k), ticks[k].now, timeout) == Within(s, ticks, k + 1, ticks[k].now, timeout)
    ensures Electable(Ballot(s, ticks, k), ticks[k].now, timeout) == Fit(s, ticks, k + 1, ticks[k].now, timeout)
  {
    var nodes, now, m := Ballot(s, ticks, k), ticks[k].now, k + 1;
    forall n ensures Repeats(nodes, n, LastWord(s, ticks, m, n)) { BallotRepeats(s, ticks, k, n); }
    forall n ensures n in Known(s, ticks, m) <==> LastWord(s, ticks, m, n).Heard? { KnownIffHeard(s, ticks, m, n); }
    forall x ensures x in Electable(nodes, now, timeout) <==> x in Fit(s, ticks, m, now, timeout) {
      assert Repeats(nodes, x, LastWord(s, ticks, m, x));
      if x in Electable(nodes, now, timeout) {
        var id :| id in nodes && Active(nodes[id], now, timeout) && nodes[id].healthy && nodes[id].nodeID == x;
        assert Repeats(nodes, id, LastWord(s, ticks, m, id));
      }
    }
    forall x ensures x in ActiveKeys(nodes, now, timeout) <==> x in Within(s, ticks, m, now, timeout) {
      assert Repeats(nodes, x, LastWord(s, ticks, m, x));
    }
  }

  // ----- who leads -----

  /** The configured leader when it is fit, otherwise the fit node with the least ID, otherwise the ticking node. */
  ghost predicate Leads(id: string, fit: set<string>, configured: string, self: string) {
    if fit == {} then id == self
    else id in fit && if configured in fit then id == configured else forall n :: n in fit ==> Leq(id, n)
  }

  /**
   After every reconciling tick of every run: a node is counted exactly when it was last heard of at most one timeout
   ago, the leader is chosen among those that were healthy then, and role, stored leader and failover flag follow.
   */
  lemma {:induction false} LeaderIsAlive(s: PersistedState, ticks: seq<Tick>, timeout: int, leader: string, k: nat)
    requires Cluster(timeout, leader, ticks) && OwnIDs(s) && k < |ticks| && ticks[k].Writes()
    ensures var t, st := ticks[k], StatusAt(s, ticks, k, true);
            && st.activeNodes == |Within(s, ticks, k + 1, t.now, timeout)|
            && Leads(st.leaderID, Fit(s, ticks, k + 1, t.now, timeout), leader, t.Node())
            && After(s, ticks, k + 1, true).leaderID == st.leaderID && st.nodeID == t.Node() && st.healthy == t.healthy
            && (st.role == LEADER <==> st.leaderID == t.Node()) && (st.role != LEADER ==> st.role == FOLLOWER)
            && (st.failoverReady <==> t.healthy && |Within(s, ticks, k + 1, t.now, timeout)| > 1)
  {
    var t := ticks[k];
    assert Configured(timeout, leader, ticks, k);
    DeletionIsInvisible(s, ticks, timeout, leader, k);
    BallotCounts(s, ticks, k, timeout);
    NoEmptyName(s, ticks, k + 1);
    ElectedLeads(leader, Fit(s, ticks, k + 1, t.now, timeout), t.Node());
  }

  lemma {:induction false} NoEmptyName(s: PersistedState, ticks: seq<Tick>, k: nat)
    requires OwnIDs(s) && k <= |ticks|
    ensures "" !in Known(s, ticks, k)
  {
    if k > 0 { NoEmptyName(s, ticks, k - 1); }
  }

  lemma {:induction false} ElectedLeads(configured: string, fit: set<string>, self: string)
    requires "" !in fit
    ensures var chosen := Elected(configured, fit); Leads(if chosen == "" then self else chosen, fit, configured, self)
  {
  }

  // ----- failover -----

  lemma {:induction false} WordStands(s: PersistedState, ticks: seq<Tick>, i: nat, j: nat)
    requires i < j <= |ticks| && SilentBetween(ticks, ticks[i].Node(), i, j)
    ensures LastWord(s, ticks, j, ticks[i].Node()) == WordOf(ticks[i])
    decreases j
  {
    if i < j - 1 { WordStands(s, ticks, i, j - 1); }
  }

  /**
   A node that has not reconciled for more than the timeout neither leads nor counts at the next reconcile of any
   other node; one that has, and was healthy, counts.
   */
  lemma {:induction false} SilentNodeIsReplaced(s: PersistedState, ticks: seq<Tick>, timeout: int, leader: string,
        i: nat, j: nat)
    requires Cluster(timeout, leader, ticks) && OwnIDs(s) && i < j < |ticks|
    requires SilentBetween(ticks, ticks[i].Node(), i, j) && ticks[j].Writes() && ticks[j].Node() != ticks[i].Node()
    ensures var a, st := ticks[i].Node(), StatusAt(s, ticks, j, true);
            var alive := Within(s, ticks, j + 1, ticks[j].now, timeout);
            && st.activeNodes == |alive| && (a in alive <==> ticks[j].now - ticks[i].now <= timeout)
            && (ticks[j].now - ticks[i].now > timeout ==> st.leaderID != a)
  {
    LeaderIsAlive(s, ticks, timeout, leader, j);
    WordStands(s, ticks, i, j);
    KnownIffHeard(s, ticks, j + 1, ticks[i].Node());
  }

  /** The new leader is alive: it reconciled within the timeout, and was healthy, or no node did and was. */
  lemma {:induction false} NoDeadLeader(s: PersistedState, ticks: seq<Tick>, timeout: int, leader: string, k: nat)
    requires Cluster(timeout, leader, ticks) && OwnIDs(s) && k < |ticks| && ticks[k].Writes()
    ensures var st := StatusAt(s, ticks, k, true); var w := LastWord(s, ticks, k + 1, st.leaderID);
            w.Heard? && ticks[k].now - w.at <= timeout && (w.healthy || st.leaderID == ticks[k].Node())
  {
    LeaderIsAlive(s, ticks, timeout, leader, k);
  }

  // ----- what is stored -----

  /**
   After a reconcile the shared state holds exactly the nodes heard of in the last three timeouts, each with what was
   last heard from it.
   */
  lemma {:induction false} StoredExactly(s: PersistedState, ticks: seq<Tick>, timeout: int, leader: string, k: nat,
        n: string)
    requires Cluster(timeout, leader, ticks) && OwnIDs(s) && k < |ticks| && ticks[k].Writes()
    ensures n in After(s, ticks, k + 1, true).nodes <==> n in Within(s, ticks, k + 1, ticks[k].now, timeout * 3)
    ensures var stored := After(s, ticks, k + 1, true).nodes;
            n in stored ==> stored[n].nodeID == n && StoredWord(stored[n]) == LastWord(s, ticks, k + 1, n)
  {
    assert Configured(timeout, leader, ticks, k) && (k > 0 ==> InOrder(ticks, k - 1, k));
    RunsSameButStale(s, ticks, timeout, leader, k + 1, ticks[k].now);
    EntriesRepeat(s, ticks, k + 1, n);
    KnownIffHeard(s, ticks, k + 1, n);
    StepStoresFresh(After(s, ticks, k, true), ticks[k]);
  }

  // ----- modes without election -----

  /** A tick that does not reconcile leaves the shared state alone; standalone nodes lead unless they are followers. */
  lemma {:induction false} WithoutElection(s: PersistedState, t: Tick)
    requires !t.Writes()
    ensures var (next, st) := Step(s, t, true);
            && next == s && st.nodeID == t.Node() && st.healthy == t.healthy && !st.failoverReady
            && (t.cfg.mode == ACTIVE_PASSIVE ==> (st.role == LEADER <==> t.cfg.configuredRole == LEADER))
            && (t.cfg.mode != ACTIVE_PASSIVE ==>
                (st.role == LEADER <==> t.cfg.configuredRole in {"", "observer", LEADER}))
            && (t.cfg.configuredLeader != "" ==> st.leaderID == t.cfg.configuredLeader)
            && (t.cfg.configuredLeader == "" && t.cfg.configuredRole in {"", "observer", LEADER} ==>
                  st.leaderID == t.Node())
  {
  }
}
