/**
 The subgraph dedup cache of pkg/transport/hashcache.go and its disk copy.

 `Cache` is the in-memory map with the disk it writes through to; the `After...` functions say what each
 locked method does. Disk operations are taken to succeed.
 */
module HashCache {
  import opened Common
  import opened Lex

  datatype Entry = Entry(hash: string, sentAt: int, count: nat, isActive: bool)

  type Disk = map<string, Entry>

  datatype Cache = Cache(hashes: map<string, Entry>, disk: Option<Disk>, hits: nat, savings: nat)

  function DiskKey(h: string): string {
    "hc:" + h
  }

  // ----- the steps -----

  function Persist(disk: Option<Disk>, e: Entry): Option<Disk> {
    match disk case None => None case Some(d) => Some(d[DiskKey(e.hash) := e])
  }

  predicate IsNew(c: Cache, h: string) {
    h !in c.hashes
  }

  /** `ShouldTransmit`; its answer is `IsNew`. */
  function AfterCheck(c: Cache, h: string, now: int): Cache {
    if IsNew(c, h) then
      var e := Entry(h, now, 1, true);
      c.(hashes := c.hashes[h := e], disk := Persist(c.disk, e))
    else
      var e := c.hashes[h].(count := c.hashes[h].count + 1, sentAt := now, isActive := true);
      c.(hashes := c.hashes[h := e], disk := Persist(c.disk, e), hits := c.hits + 1, savings := c.savings + 1024)
  }

  function Stale(hashes: map<string, Entry>, cutoff: int): set<string> {
    set h | h in hashes && hashes[h].sentAt < cutoff
  }

  function DiskKeys(hs: set<string>): set<string> {
    set h | h in hs :: DiskKey(h)
  }

  function Without(disk: Option<Disk>, hs: set<string>): Option<Disk> {
    match disk case None => None case Some(d) => Some(d - DiskKeys(hs))
  }

  function Forget(c: Cache, hs: set<string>): Cache {
    c.(hashes := c.hashes - hs, disk := Without(c.disk, hs))
  }

  /** `CleanStale`. */
  function AfterClean(c: Cache, maxAge: int, now: int): Cache {
    Forget(c, Stale(c.hashes, now - maxAge))
  }

  lemma {:induction false} ForgetNothing(c: Cache)
    ensures Forget(c, {}) == c
  {
    assert c.hashes - {} == c.hashes && DiskKeys({}) == {};
    if c.disk.Some? { assert c.disk.value - {} == c.disk.value; }
  }

  lemma {:induction false} ForgetOneMore(c: Cache, hs: set<string>, h: string)
    ensures Forget(Forget(c, hs), {h}) == Forget(c, hs + {h})
  {
    assert DiskKeys(hs + {h}) == DiskKeys(hs) + DiskKeys({h});
    assert c.hashes - hs - {h} == c.hashes - (hs + {h});
    if c.disk.Some? {
      var d := c.disk.value;
      assert d - DiskKeys(hs) - DiskKeys({h}) == d - DiskKeys(hs + {h});
    }
  }

  /** The disk image of an in-memory map. */
  function Image(hashes: map<string, Entry>): Disk {
    map k | k in DiskKeys(hashes.Keys) :: hashes[k[3..]]
  }

  /** `FlushToDisk`. */
  function AfterFlush(c: Cache): Cache {
    if c.disk.None? || c.hashes == map[] then c else c.(disk := Some(c.disk.value + Image(c.hashes)))
  }

  /** The keys that the iterator of `loadFromDisk` visits. */
  function Scanned(disk: Disk): set<string> {
    set k | k in disk && Leq("hc:", k) && Less(k, "hd:")
  }

  /** Every entry goes under the hash it carries; of two with one hash, the later stays. */
  function LoadAll(disk: Disk, ks: seq<string>): map<string, Entry>
    requires forall i :: 0 <= i < |ks| ==> ks[i] in disk
  {
    if ks == [] then map[] else LoadAll(disk, ks[..|ks| - 1])[disk[ks[|ks| - 1]].hash := disk[ks[|ks| - 1]]]
  }

  ghost function Loaded(disk: Disk): map<string, Entry> {
    var ks := Ascending(Scanned(disk));
    assert forall i :: 0 <= i < |ks| ==> ks[i] in ks;
    LoadAll(disk, ks)
  }

  /** A new process opens the disk that the previous one left; only the disk survives. */
  ghost function AfterRestart(c: Cache): Cache {
    Cache(if c.disk.Some? then Loaded(c.disk.value) else map[], c.disk, 0, 0)
  }

  // ----- memory and disk agree -----

  ghost predicate InSync(c: Cache) {
    && (forall h :: h in c.hashes ==> c.hashes[h].hash == h)
    && (c.disk.Some? ==> c.disk.value == Image(c.hashes))
  }

  lemma {:induction false} KeyOfHash(h: string)
    ensures DiskKey(h)[3..] == h
  {
  }

  lemma {:induction false} DiskKeysInjective(hs: set<string>, h: string)
    ensures DiskKey(h) in DiskKeys(hs) <==> h in hs
  {
    if DiskKey(h) in DiskKeys(hs) {
      var g :| g in hs && DiskKey(g) == DiskKey(h);
      KeyOfHash(g);
      KeyOfHash(h);
    }
  }

  lemma {:induction false} ImageUpdate(hashes: map<string, Entry>, h: string, e: Entry)
    ensures Image(hashes[h := e]) == Image(hashes)[DiskKey(h) := e]
  {
    var after, direct := Image(hashes[h := e]), Image(hashes)[DiskKey(h) := e];
    KeyOfHash(h);
    assert hashes[h := e].Keys == hashes.Keys + {h};
    forall k ensures (k in after <==> k in direct) && (k in after ==> after[k] == direct[k]) {
      if k in after { var g :| g in hashes[h := e] && k == DiskKey(g); KeyOfHash(g); }
      if k in direct && k != DiskKey(h) { var g :| g in hashes && k == DiskKey(g); KeyOfHash(g); }
    }
  }

  lemma {:induction false} ImageWithout(hashes: map<string, Entry>, hs: set<string>)
    ensures Image(hashes - hs) == Image(hashes) - DiskKeys(hs)
  {
    var after, direct := Image(hashes - hs), Image(hashes) - DiskKeys(hs);
    forall k ensures (k in after <==> k in direct) && (k in after ==> after[k] == direct[k]) {
      if k in after { var g :| g in hashes - hs && k == DiskKey(g); KeyOfHash(g); DiskKeysInjective(hs, g); }
      if k in direct { var g :| g in hashes && k == DiskKey(g); KeyOfHash(g); DiskKeysInjective(hs, g); }
    }
  }

  /** A flush writes every cached entry under its key, keeps the other disk keys, and changes nothing in memory. */
  lemma {:induction false} FlushWrites(c: Cache, k: string)
    requires c.disk.Some?
    ensures var d, e := c.disk.value, AfterFlush(c);
            && e.disk.Some? && e == c.(disk := e.disk)
            && (k in c.hashes ==> DiskKey(k) in e.disk.value && e.disk.value[DiskKey(k)] == c.hashes[k])
            && (k !in DiskKeys(c.hashes.Keys) ==>
                  (k in d <==> k in e.disk.value) && (k in d ==> e.disk.value[k] == d[k]))
    ensures InSync(c) ==> AfterFlush(c) == c
  {
    KeyOfHash(k);
    DiskKeysInjective(c.hashes.Keys, k);
    var d, image := c.disk.value, Image(c.hashes);
    assert k in c.hashes ==> DiskKey(k) in image && image[DiskKey(k)] == c.hashes[k];
    if InSync(c) { assert d + image == d; }
  }

  lemma {:induction false} LoadImage(hashes: map<string, Entry>)
    requires forall h :: h in hashes ==> hashes[h].hash == h
    ensures Loaded(Image(hashes)) == hashes
  {
    var image, back := Image(hashes), Loaded(Image(hashes));
    forall k | k in image ensures k in Scanned(image) && k == DiskKey(image[k].hash) {
      var g :| g in hashes && k == DiskKey(g);
      KeyOfHash(g);
      KeyScanned(g);
    }
    LoadedMatches(image);
    forall h ensures (h in back <==> h in hashes) && (h in hashes ==> h in back && back[h] == hashes[h]) {
      KeyOfHash(h);
      DiskKeysInjective(hashes.Keys, h);
    }
  }

  lemma {:induction false} KeyScanned(h: string)
    ensures Leq("hc:", DiskKey(h)) && Less(DiskKey(h), "hd:")
  {
    CommonPrefix("hc:", "", h);
    assert "hc:" + "" == "hc:" && "hd:" + "" == "hd:";
    HeadDecides("hc:", "hd:", h, "");
    CommonPrefix("h", "c:", "d:");
    assert "h" + "c:" == "hc:" && "h" + "d:" == "hd:";
    if h == "" { assert DiskKey(h) == "hc:"; }
  }

  /** Entries that lie under their own keys are loaded as they are. */
  lemma {:induction false} LoadedMatches(disk: Disk)
    requires forall k :: k in disk ==> k in Scanned(disk) && k == DiskKey(disk[k].hash)
    ensures forall h :: h in Loaded(disk) <==> DiskKey(h) in disk
    ensures forall h :: h in Loaded(disk) ==> Loaded(disk)[h] == disk[DiskKey(h)]
  {
    var ks := Ascending(Scanned(disk));
    assert forall i :: 0 <= i < |ks| ==> ks[i] in ks;
    forall h ensures (h in Loaded(disk) <==> DiskKey(h) in disk)
        && (h in Loaded(disk) ==> Loaded(disk)[h] == disk[DiskKey(h)]) {
      LoadAllMatches(disk, ks, h);
    }
  }

  lemma {:induction false} LoadAllMatches(disk: Disk, ks: seq<string>, h: string)
    requires forall i :: 0 <= i < |ks| ==> ks[i] in disk && ks[i] == DiskKey(disk[ks[i]].hash)
    ensures h in LoadAll(disk, ks) <==> DiskKey(h) in ks
    ensures h in LoadAll(disk, ks) ==> DiskKey(h) in disk && LoadAll(disk, ks)[h] == disk[DiskKey(h)]
    decreases |ks|
  {
    if ks != [] {
      var init, k := ks[..|ks| - 1], ks[|ks| - 1];
      LoadAllMatches(disk, init, h);
      assert ks == init + [k];
      KeyOfHash(h);
      KeyOfHash(disk[k].hash);
    }
  }

  lemma {:induction false} LastStays(disk: Disk, ks: seq<string>, i: nat)
    requires i < |ks| && forall j :: 0 <= j < |ks| ==> ks[j] in disk
    requires forall j :: i < j < |ks| ==> disk[ks[j]].hash != disk[ks[i]].hash
    ensures disk[ks[i]].hash in LoadAll(disk, ks) && LoadAll(disk, ks)[disk[ks[i]].hash] == disk[ks[i]]
    decreases |ks|
  {
    if i < |ks| - 1 { LastStays(disk, ks[..|ks| - 1], i); }
  }

  /** On any disk, the loaded entry for a hash is the one under the greatest scanned key that carries it. */
  lemma {:induction false} GreatestKeyWins(disk: Disk, k: string)
    requires k in Scanned(disk)
    requires forall j :: j in Scanned(disk) && disk[j].hash == disk[k].hash ==> Leq(j, k)
    ensures disk[k].hash in Loaded(disk) && Loaded(disk)[disk[k].hash] == disk[k]
  {
    var ks := Ascending(Scanned(disk));
    assert k in ks;
    var i :| 0 <= i < |ks| && ks[i] == k;
    forall j | 0 <= j < |ks| ensures ks[j] in disk { assert ks[j] in ks; }
    forall j | i < j < |ks| ensures disk[ks[j]].hash != disk[k].hash {
      assert ks[j] in ks && Less(ks[i], ks[j]);
      Asymmetric(k, ks[j]);
    }
    LastStays(disk, ks, i);
  }

  // ----- runs -----

  /** `Peek` is `NewHeartbeat`, which reads an entry and changes nothing. */
  datatype Op = Check(h: string, now: int) | Clean(maxAge: int, at: int) | Flush | Restart | Peek

  ghost function Step(c: Cache, op: Op): Cache {
    match op
    case Check(h, now) => AfterCheck(c, h, now)
    case Clean(maxAge, at) => AfterClean(c, maxAge, at)
    case Flush => AfterFlush(c)
    case Restart => AfterRestart(c)
    case Peek => c
  }

  ghost function Run(c: Cache, ops: seq<Op>): Cache {
    if ops == [] then c else Step(Run(c, ops[..|ops| - 1]), ops[|ops| - 1])
  }

  lemma {:induction false} StepKeepsSync(c: Cache, op: Op)
    requires InSync(c)
    ensures InSync(Step(c, op))
  {
    match op
    case Check(h, now) =>
      ImageUpdate(c.hashes, h, Step(c, op).hashes[h]);
    case Clean(maxAge, at) =>
      ImageWithout(c.hashes, Stale(c.hashes, at - maxAge));
    case Flush =>
      if c.disk.Some? { assert c.disk.value + Image(c.hashes) == Image(c.hashes); }
    case Restart =>
      if c.disk.Some? { LoadImage(c.hashes); } else { assert Image(map[]) == map[]; }
    case Peek =>
  }

  /** Whatever the mix of checks, cleanings, flushes and restarts, memory and disk hold the same entries. */
  lemma {:induction false} AlwaysInSync(c: Cache, ops: seq<Op>)
    requires InSync(c)
    ensures InSync(Run(c, ops)) && Run(c, ops).disk.Some? == c.disk.Some?
    decreases |ops|
  {
    if ops != [] {
      AlwaysInSync(c, ops[..|ops| - 1]);
      StepKeepsSync(Run(c, ops[..|ops| - 1]), ops[|ops| - 1]);
    }
  }

  /** A persistent cache, or a run in which the process is never replaced. */
  predicate KeepsMemory(c: Cache, ops: seq<Op>) {
    c.disk.Some? || forall op :: op in ops ==> !op.Restart?
  }

  /** Operation k asks for h and is told to transmit. */
  ghost predicate Transmits(c: Cache, ops: seq<Op>, k: nat, h: string)
    requires k < |ops|
  {
    ops[k].Check? && ops[k].h == h && IsNew(Run(c, ops[..k]), h)
  }

  /** Operation k is a cleaning that removes h. */
  ghost predicate Removes(c: Cache, ops: seq<Op>, k: nat, h: string)
    requires k < |ops|
  {
    ops[k].Clean? && h in Run(c, ops[..k]).hashes && h !in Run(c, ops[..k + 1]).hashes
  }

  lemma {:induction false} RunSnoc(c: Cache, ops: seq<Op>, k: nat)
    requires k < |ops|
    ensures Run(c, ops[..k + 1]) == Step(Run(c, ops[..k]), ops[k])
  {
    assert ops[..k + 1][..k] == ops[..k];
  }

  /** Only a cleaning makes a hash disappear. */
  lemma {:induction false} LostOnlyByCleaning(c: Cache, ops: seq<Op>, i: nat, j: nat, h: string) returns (k: nat)
    requires InSync(c) && KeepsMemory(c, ops) && i < j <= |ops|
    requires h in Run(c, ops[..i]).hashes && h !in Run(c, ops[..j]).hashes
    ensures i <= k < j && Removes(c, ops, k, h)
    decreases j - i
  {
    if h !in Run(c, ops[..i + 1]).hashes {
      k := i;
      RunSnoc(c, ops, i);
      AlwaysInSync(c, ops[..i]);
      var mid := Run(c, ops[..i]);
      if ops[i].Restart? { assert ops[i] in ops; LoadImage(mid.hashes); }
    } else {
      k := LostOnlyByCleaning(c, ops, i + 1, j, h);
    }
  }

  /** Two full transmissions of one hash are separated by a cleaning that removed it. */
  lemma {:induction false} RetransmitNeedsCleaning(c: Cache, ops: seq<Op>, i: nat, j: nat, h: string) returns (k: nat)
    requires InSync(c) && KeepsMemory(c, ops) && i < j < |ops|
    requires Transmits(c, ops, i, h) && Transmits(c, ops, j, h)
    ensures i < k < j && Removes(c, ops, k, h)
  {
    RunSnoc(c, ops, i);
    k := LostOnlyByCleaning(c, ops, i + 1, j, h);
  }

  function NumChecks(ops: seq<Op>, h: string): nat {
    if ops == [] then 0
    else NumChecks(ops[..|ops| - 1], h) + if ops[|ops| - 1].Check? && ops[|ops| - 1].h == h then 1 else 0
  }

  predicate Asks(op: Op, h: string) {
    op.Check? && op.h == h
  }

  lemma {:induction false} StepCount(c: Cache, op: Op, h: string)
    requires InSync(c) && h in Step(c, op).hashes && (op.Restart? ==> c.disk.Some?)
    ensures h !in c.hashes ==> Asks(op, h)
    ensures Step(c, op).hashes[h].count
        == (if h in c.hashes then c.hashes[h].count else 0) + (if Asks(op, h) then 1 else 0)
  {
    if op.Restart? { LoadImage(c.hashes); }
  }

  lemma {:induction false} NumChecksTail(ops: seq<Op>, i: nat, h: string)
    requires i < |ops|
    ensures var n := |ops| - 1;
            NumChecks(ops[i..], h) == NumChecks(ops[..n][i..], h) + if Asks(ops[n], h) then 1 else 0
  {
    var n := |ops| - 1;
    assert ops[i..][..n - i] == ops[..n][i..] && ops[i..][n - i] == ops[n];
  }

  lemma {:induction false} TransmitsPrefix(c: Cache, ops: seq<Op>, n: nat, k: nat, h: string)
    requires k < n <= |ops|
    ensures Transmits(c, ops[..n], k, h) <==> Transmits(c, ops, k, h)
  {
    assert ops[..n][..k] == ops[..k];
  }

  /** The stored count of a hash is the number of checks since, and including, the one that inserted it. */
  lemma {:induction false} CountIsChecksSinceInsertion(c: Cache, ops: seq<Op>, h: string) returns (i: nat)
    requires c.hashes == map[] && InSync(c) && KeepsMemory(c, ops)
    requires h in Run(c, ops).hashes
    ensures i < |ops| && Transmits(c, ops, i, h)
    ensures Run(c, ops).hashes[h].count == NumChecks(ops[i..], h)
    ensures forall k :: i < k < |ops| ==> !Transmits(c, ops, k, h)
    decreases |ops|
  {
    var n := |ops| - 1;
    var init, op := ops[..n], ops[n];
    var mid := Run(c, init);
    assert op in ops;
    AlwaysInSync(c, init);
    StepCount(mid, op, h);
    if h !in mid.hashes {
      i := n;
      NumChecksTail(ops, n, h);
      assert init[n..] == [];
    } else {
      i := CountIsChecksSinceInsertion(c, init, h);
      NumChecksTail(ops, i, h);
      TransmitsPrefix(c, ops, n, i, h);
      forall k | i < k < |ops| ensures !Transmits(c, ops, k, h) {
        if k < n { TransmitsPrefix(c, ops, n, k, h); }
      }
    }
  }

  // ----- what a cleaning removes -----

  /** When h was last checked: by the last check of the run, or as its entry in the starting state says. */
  function LastCheck(c: Cache, ops: seq<Op>, h: string): Option<int> {
    if ops == [] then (if h in c.hashes then Some(c.hashes[h].sentAt) else None)
    else if Asks(ops[|ops| - 1], h) then Some(ops[|ops| - 1].now)
    else LastCheck(c, ops[..|ops| - 1], h)
  }

  lemma {:induction false} StepSentAt(c: Cache, op: Op, h: string)
    requires InSync(c) && h in Step(c, op).hashes && (op.Restart? ==> c.disk.Some?)
    ensures Asks(op, h) ==> Step(c, op).hashes[h].sentAt == op.now && Step(c, op).hashes[h].isActive
    ensures !Asks(op, h) ==> h in c.hashes && Step(c, op).hashes[h] == c.hashes[h]
  {
    if op.Restart? { LoadImage(c.hashes); }
  }

  /** The stored time of a hash is that of its last check, across restarts. */
  lemma {:induction false} SentAtIsLastCheck(c: Cache, ops: seq<Op>, h: string)
    requires InSync(c) && KeepsMemory(c, ops) && h in Run(c, ops).hashes
    ensures LastCheck(c, ops, h) == Some(Run(c, ops).hashes[h].sentAt)
    decreases |ops|
  {
    if ops != [] {
      var init, op := ops[..|ops| - 1], ops[|ops| - 1];
      assert op in ops && forall o :: o in init ==> o in ops;
      AlwaysInSync(c, init);
      StepSentAt(Run(c, init), op, h);
      if !Asks(op, h) { SentAtIsLastCheck(c, init, h); }
    }
  }

  /** A cleaning forgets a known hash exactly when its last check was longer ago than the given age. */
  lemma {:induction false} CleaningForgetsExactly(c: Cache, ops: seq<Op>, k: nat, h: string)
    requires InSync(c) && KeepsMemory(c, ops) && k < |ops| && ops[k].Clean? && h in Run(c, ops[..k]).hashes
    ensures LastCheck(c, ops[..k], h).Some?
    ensures h in Run(c, ops[..k + 1]).hashes <==> ops[k].at - LastCheck(c, ops[..k], h).value <= ops[k].maxAge
  {
    assert forall o :: o in ops[..k] ==> o in ops;
    SentAtIsLastCheck(c, ops[..k], h);
    RunSnoc(c, ops, k);
  }

  /** Two full transmissions of one hash are separated by a cleaning that found it unchecked for too long. */
  lemma {:induction false} RetransmitNeedsPause(c: Cache, ops: seq<Op>, i: nat, j: nat, h: string) returns (k: nat)
    requires InSync(c) && KeepsMemory(c, ops) && i < j < |ops|
    requires Transmits(c, ops, i, h) && Transmits(c, ops, j, h)
    ensures i < k < j && ops[k].Clean? && LastCheck(c, ops[..k], h).Some?
    ensures ops[k].at - LastCheck(c, ops[..k], h).value > ops[k].maxAge
  {
    k := RetransmitNeedsCleaning(c, ops, i, j, h);
    CleaningForgetsExactly(c, ops, k, h);
  }

  /** Within one process, the hit counter is the number of checks answered with a heartbeat. */
  lemma {:induction false} HitsAreRepeats(c: Cache, ops: seq<Op>)
    requires forall op :: op in ops ==> !op.Restart?
    ensures Run(c, ops).hits == c.hits + Repeats(c, ops)
    ensures Run(c, ops).savings == c.savings + 1024 * Repeats(c, ops)
    decreases |ops|
  {
    if ops != [] {
      assert ops[|ops| - 1] in ops;
      HitsAreRepeats(c, ops[..|ops| - 1]);
    }
  }

  ghost function Repeats(c: Cache, ops: seq<Op>): nat {
    if ops == [] then 0
    else
      var init, op := ops[..|ops| - 1], ops[|ops| - 1];
      Repeats(c, init) + if op.Check? && !IsNew(Run(c, init), op.h) then 1 else 0
  }

  // ----- the cache object -----

  class Pebble {
    var data: Disk
  }

  class SubgraphCache {
    var hashes: map<string, Entry>
    const db: Pebble?
    var hits: nat
    var savings: nat

    ghost function State(): Cache
      reads this, db
    {
      Cache(hashes, if db == null then None else Some(db.data), hits, savings)
    }

    /** `NewHashCache` with no database, `NewPersistentHashCache` with one. */
    constructor (db: Pebble?)
      ensures this.db == db
      ensures State() == AfterRestart(Cache(map[], if db == null then None else Some(db.data), 0, 0))
    {
      this.db, hits, savings := db, 0, 0;
      hashes := map[];
      new;
      if db != null {
        hashes := LoadFromDisk(db.data);
      }
    }

    method ShouldTransmit(contentHash: string, now: int) returns (transmit: bool)
      modifies this, db
      ensures State() == AfterCheck(old(State()), contentHash, now) && transmit == IsNew(old(State()), contentHash)
    {
      if contentHash !in hashes {
        var entry := Entry(contentHash, now, 1, true);
        hashes := hashes[contentHash := entry];
        PersistEntry(entry);
        return true;
      }
      var existing := hashes[contentHash];
      existing := existing.(count := existing.count + 1, sentAt := now, isActive := true);
      hashes := hashes[contentHash := existing];
      PersistEntry(existing);
      hits := hits + 1;
      savings := savings + 1024;
      return false;
    }

    method PersistEntry(entry: Entry)
      modifies db
      ensures db != null ==> db.data == old(db.data)[DiskKey(entry.hash) := entry]
    {
      if db != null {
        db.data := db.data[DiskKey(entry.hash) := entry];
      }
    }

    method CleanStale(maxAge: int, now: int) returns (removed: nat)
      modifies this, db
      ensures State() == AfterClean(old(State()), maxAge, now)
      ensures removed == |Stale(old(hashes), now - maxAge)|
    {
      var cutoff := now - maxAge;
      var rest := hashes.Keys;
      removed := 0;
      ghost var gone: set<string> := {};
      ForgetNothing(State());
      ghost var start := State();
      while rest != {}
        invariant rest <= start.hashes.Keys && rest !! gone && removed == |gone|
        invariant forall g :: g in gone <==> g in start.hashes && g !in rest && start.hashes[g].sentAt < cutoff
        invariant State() == Forget(start, gone)
        decreases rest
      {
        var h :| h in rest;
        assert hashes == start.hashes - gone && h in hashes;
        if hashes[h].sentAt < cutoff {
          assert Forget(State(), {h}) == Forget(start, gone + {h}) by { ForgetOneMore(start, gone, h); }
          Delete(h);
          removed, gone := removed + 1, gone + {h};
        }
        rest := rest - {h};
      }
      assert gone == Stale(start.hashes, cutoff);
    }

    method Delete(h: string)
      modifies this, db
      ensures State() == Forget(old(State()), {h})
    {
      hashes := hashes - {h};
      if db != null {
        assert DiskKeys({h}) == {DiskKey(h)};
        db.data := db.data - {DiskKey(h)};
      }
    }

    method FlushToDisk()
      modifies db
      ensures State() == AfterFlush(old(State()))
    {
      if db == null || |hashes| == 0 {
        return;
      }
      var batch := Batch(hashes);
      db.data := db.data + batch;
    }
  }

  method Batch(hashes: map<string, Entry>) returns (batch: Disk)
    ensures batch == Image(hashes)
  {
    batch := map[];
    var rest := hashes.Keys;
    ghost var done: map<string, Entry> := map[];
    assert Image(done) == map[];
    while rest != {}
      invariant rest <= hashes.Keys && done.Keys == hashes.Keys - rest
      invariant forall h :: h in done ==> done[h] == hashes[h]
      invariant batch == Image(done)
      decreases rest
    {
      var h :| h in rest;
      ImageUpdate(done, h, hashes[h]);
      batch := batch[DiskKey(h) := hashes[h]];
      done := done[h := hashes[h]];
      rest := rest - {h};
    }
    assert done == hashes;
  }

  /** `loadFromDisk`: the entries in key order, each under the hash it carries. */
  method LoadFromDisk(disk: Disk) returns (hashes: map<string, Entry>)
    ensures hashes == Loaded(disk)
  {
    var ks := Scan(Scanned(disk));
    assert forall i :: 0 <= i < |ks| ==> ks[i] in ks;
    hashes := LoadKeys(disk, ks);
  }

  method LoadKeys(disk: Disk, ks: seq<string>) returns (hashes: map<string, Entry>)
    requires forall i :: 0 <= i < |ks| ==> ks[i] in disk
    ensures hashes == LoadAll(disk, ks)
  {
    hashes := map[];
    for i := 0 to |ks|
      invariant hashes == LoadAll(disk, ks[..i])
    {
      assert ks[..i + 1][..i] == ks[..i];
      hashes := hashes[disk[ks[i]].hash := disk[ks[i]]];
    }
    assert ks[..|ks|] == ks;
  }
}
