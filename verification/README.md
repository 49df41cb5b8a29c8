# ProvidAPT: a verified model

ProvidAPT collects provenance events on hosts, keeps them in a graph store and raises alerts. This project models the
parts of it that are step systems or algorithms, and proves what they keep over every input or every run.

| module | models |
|---|---|
| `Merkle` | the append-only Merkle tree: building by levels with promotion, proofs, verification |
| `ControlPlane`, `Failover` | leader election among coordinators that share one locked database row, the write gate, and who leads and counts told from the ticks alone |
| `Numerals`, `EdgeKeys`, `StoreCheck`, `IssueCounts`, `RepairRound` | fixed-width numbers, the edge-key codecs, the consistency check, what it reports and how often, its repair and when one round of it is enough |
| `Purge`, `PurgedNodes` | the time purge that relies on the byte order of edge keys, and which node and reverse keys it deletes |
| `Priority`, `PipelineRuns`, `HashCache`, `Transport` | the two-priority pipeline with its crash-safe queue, the deduplication cache with its disk copy, and the manager that drives both |
| `AlertFlow`, `AlertIdentity` | alert deduplication, eviction, silencing and the notification interval; which alerts count as the same and what is remembered of each |
| `Delivery`, `Sends` | retries, delivery history, dead letters, tickets and the throttle; what a whole send records |
| `RateLimit` | the token bucket |
| `FocusedGraph`, `TreeOrder`, `ForestTour`, `DrawOrder`, `Clustering`, `Columns`, `TreeLayout` | the drawing of a provenance graph: bounded search, breadth-first forest, drawing order, folding, column layout |
| `Lex`, `Common` | Go's string order, sorting and key-ordered scans; optional values and errors |

How the model is built:

- A value that a component keeps becomes a datatype, and each locked method becomes a function from state to state
  (`After...`, `Step`, `Turn`). Classes with mutable fields carry the methods and loops of the source; each is proved to
  do what its function says. The theorems range over all runs of those functions.
- Clocks, health checks, send results, delivery IDs, hashing and compression are parameters. Pebble is a map that is
  scanned in byte order, and its operations succeed.
- Integers are unbounded except where the width matters: timestamps and the queue counter are 64-bit.
- Floating-point tokens and times are reals.

Where code and documentation differ, the model follows the code:

- A Merkle proof skips promoted levels while verification consumes one index bit per proof element, so a leaf with a
  promoted ancestor is refused under its own index. `OwnIndexVerifiesIff` says exactly when it is accepted.
- `splitNodePair` skips the separator position without looking at the byte there. One round of repair therefore need
  not be enough on stores with foreign keys; `RepairRound.RepairConvergesIff` says exactly when it is.
- The payload of a low-priority event is not part of its stored form, so it is gone once the event is persisted.
- A dry purge looks for references in the untouched store, so it never reports a node; `DryRunReportsNoNodes` shows it.
- A purge is documented to remove orphaned nodes and reverse entries. It cuts an edge key at its first three colons,
  while node IDs hold a colon, and it builds the reverse key from the cutoff. On well-formed stores it therefore
  deletes no node, and the reverse keys of purged edges stay; `PurgedNodes.NodeGoneIff` and
  `PurgedNodes.ReverseGoneIff` say exactly what it deletes.
- Dedup keys and throttle keys join fields with a separator and do not escape it. `AlertIdentity.RepeatsIff` and
  `Sends.KindsTellApart` say when the keys tell apart what they should.
- Ingesting an alert whose ID is stored under another dedup key breaks the links between the three structures;
  `IngestKeepsValidIff` says exactly when they are kept.

## Model

| member | source | states |
|---|---|---|
| Merkle.RootIsTreeHash | pkg/secure/merkle.go:82-112 | For every non-empty list of leaves, the root built level by level with promotion of an odd last node is the recursive tree hash that splits at the largest power of two below n (section 2.1 of RFC 6962, without its prefix bytes) |
| Merkle.TreeHashUp | pkg/secure/merkle.go:92-106 | One level of pairing and promoting does not change the recursive tree hash |
| Merkle.SplitPointIsPowerOfTwo | pkg/secure/merkle.go:82-112 | The split point of the reference tree is a power of two |
| Merkle.LevelCount | pkg/secure/merkle.go:82-112 | The number of levels is ceil(log2 n) + 1, and the top level is the root alone |
| Merkle.CompactIndexVerifies | pkg/secure/merkle.go:116-165 | The proof of leaf i folds to the root under the index from which the bits of the promoted levels are removed, for every tree and every leaf |
| Merkle.AcceptsExactly | pkg/secure/merkle.go:148-165 | For every tree, repeated leaves included: unless two different pairs hashed on the way collide, the proof of leaf i is accepted for a value x and an index u if and only if x is leaf i and u turns like the compacted index wherever the two siblings differ |
| Merkle.DistinctLeavesFixIndex | pkg/secure/merkle.go:148-165 | If moreover the leaves are pairwise distinct and none is the hash of a hashed pair, the condition on u is that it agrees with the compacted index on the bits that are read |
| Merkle.TwinLeavesSwap | pkg/secure/merkle.go:148-165 | With two equal leaves, the proof of the first is also accepted at the index of the second |
| Merkle.CompactKeepsIndexIff | pkg/secure/merkle.go:116-165 | The compacted index agrees with i on the bits read if and only if no ancestor of leaf i is promoted |
| Merkle.OwnIndexVerifies | pkg/secure/merkle.go:116-165 | A leaf without promoted ancestors verifies under its own index |
| Merkle.OwnIndexVerifiesIff | pkg/secure/merkle.go:116-165 | Unless hashed pairs collide or a leaf is the hash of one, a leaf verifies under its own index exactly when none of its ancestors is promoted; leaves may repeat |
| Merkle.HashLeafPasses | pkg/secure/merkle.go:116-165 | A promoted leaf that is the hash of its neighbours passes under its own index, so the second exception is needed |
| Merkle.RootBindsLeaves | pkg/secure/merkle.go:66-112 | Two trees of one size with the same root have the same leaves, unless two of the hashed pairs collide |
| Merkle.SizesShareRoots | pkg/secure/merkle.go:92-106 | Across sizes the root does not bind: without prefix bytes, one leaf can have the root of two |
| Merkle.PowerOfTwoNeverPromotes | pkg/secure/merkle.go:116-165 | In a tree of 2^e leaves no node is promoted, so every leaf verifies under its own index |
| Merkle.ThirdOfThreeIsRefused | pkg/secure/merkle.go:116-165 | Counterexample to unconditional completeness: with three leaves, index 2 is refused and index 1 is accepted for the third leaf |
| Merkle.VerifyProof | pkg/secure/merkle.go:148-165 | The verification loop accepts exactly when folding the proof gives the expected root |
| Merkle.CollectSiblings | pkg/secure/merkle.go:123-142 | The proof loop collects the sibling of each level that has one, from the stored levels |
| Merkle.MerkleTree.AddLeaf | pkg/secure/merkle.go:57-63 | Appends the leaf, keeps levels and root those of the leaves, and the root is the recursive tree hash |
| Merkle.MerkleTree.NextLevel | pkg/secure/merkle.go:92-106 | The pairing loop computes the next level |
| Merkle.MerkleTree.Rebuild | pkg/secure/merkle.go:82-112 | Re-establishes levels and root for any leaves |
| Merkle.MerkleTree.Root | pkg/secure/merkle.go:66-70 | The recursive tree hash of the leaves, or nothing for an empty tree |
| Merkle.MerkleTree.Proof | pkg/secure/merkle.go:116-144 | Fails exactly for an index out of range; otherwise the proof folds to the stored root under the compacted index |
| Merkle.MerkleTree.LeafCount | pkg/secure/merkle.go:168-172 | The number of leaves added |
| ControlPlane.LeaseSafety | pkg/controlplaneha/coordinator.go:173-219 | Over every serial run: if A becomes healthy leader and later B does, with no tick of A in between, then more than the election timeout has passed, or B is the configured leader, or A is not and B has the smaller ID |
| ControlPlane.OutrankedStepsDown | pkg/controlplaneha/coordinator.go:173-219 | A node outranked by a healthy leader within the lease is not healthy leader after its next tick |
| ControlPlane.EntrySurvives | pkg/controlplaneha/coordinator.go:173-198 | An entry stays in the shared state, unchanged, while it is at most one timeout old |
| ControlPlane.DeletionIsInvisible | pkg/controlplaneha/coordinator.go:186-203 | Deleting entries older than three timeouts changes no reported status (leader, role, active count, failover flag) and no stored leader, at any tick of any run |
| ControlPlane.StepKeepsSameButStale | pkg/controlplaneha/coordinator.go:173-219 | One tick keeps the deleting and the never-deleting state equal up to long stale entries, and reports the same status from both |
| ControlPlane.Convergence | pkg/controlplaneha/coordinator.go:173-219 | With a fixed live set, steady health and a healthy node, every tick stores the same leader, only that node reports the role and passes the write gate, and the active count is the size of the live set |
| ControlPlane.ExactlyOneWriter | pkg/api/api.go:1475-1510 | Once every live node has ticked, exactly one cached status passes the write gate: that of the elected node |
| ControlPlane.WriteGateIff | pkg/api/api.go:1475-1510 | After a tick an active-passive node passes the gate if and only if it is healthy and was the one elected, or, without a reconcile, is configured as leader |
| Failover.LeaderIsAlive | pkg/controlplaneha/coordinator.go:173-219 | After every reconciling tick of every run, told from the ticks alone: a node is counted exactly when it last reconciled at most one timeout ago, and the leader is the configured one if it is among those that were healthy then, otherwise the least ID among them, otherwise the ticking node; role, stored leader and failover flag follow |
| Failover.SilentNodeIsReplaced | pkg/controlplaneha/coordinator.go:173-219 | A node that has not reconciled for more than the timeout neither leads nor counts at the next reconcile of any other node; one heard of within the timeout counts |
| Failover.NoDeadLeader | pkg/controlplaneha/coordinator.go:266-283 | The leader of every reconciling tick was itself heard of within the timeout, and was healthy then unless it is the ticking node |
| Failover.StoredExactly | pkg/controlplaneha/coordinator.go:173-198 | After a reconcile the shared state holds exactly the nodes heard of in the last three timeouts, each with the time, health, role, address and version last heard from it |
| Failover.WithoutElection | pkg/controlplaneha/coordinator.go:137-257 | A tick that does not reconcile leaves the shared state alone; its role follows the configured role, and its leader is the configured one or itself |
| ControlPlane.SteadyElectable | pkg/controlplaneha/coordinator.go:397-406 | In a steady run the active entries are the live nodes and the electable ones are the healthy live nodes |
| ControlPlane.ActiveNodes | pkg/controlplaneha/coordinator.go:397-406 | As many entries as there are active ones, and its healthy entries carry exactly the electable IDs |
| ControlPlane.SortByID | pkg/controlplaneha/coordinator.go:274-276 | A sorted list with the same entries |
| ControlPlane.ElectLeader | pkg/controlplaneha/coordinator.go:266-283 | The configured leader when it is healthy and active, otherwise the least healthy active ID, or none |
| ControlPlane.DropStale | pkg/controlplaneha/coordinator.go:194-198 | Keeps exactly the entries at most three timeouts old |
| ControlPlane.ReconcileState | pkg/controlplaneha/coordinator.go:173-219 | The next shared state and the status, as the transition function of the run theorems says |
| ControlPlane.Coordinator.constructor | pkg/controlplaneha/coordinator.go:76-98 | A new coordinator starts with the standalone status |
| ControlPlane.Coordinator.Tick | pkg/controlplaneha/coordinator.go:118-171 | The shared row and the cached status after a tick, including modes without election and failed transactions |
| EdgeKeys.EdgeRoundTripIff | pkg/verify/verify.go:255-280 | For every 64-bit timestamp, parsing a printed edge key returns its parts if and only if the source has the form [pf]:digits(:digits)* (the first group may be empty) and the target is non-empty and does not start with a digit |
| EdgeKeys.ReverseRoundTripIff | pkg/verify/verify.go:322-363 | For every 64-bit timestamp, parsing a printed reverse key returns its parts if and only if source and target are non-empty and no colon-led group of the target is twenty digits long and ends there |
| EdgeKeys.SplitJoined | pkg/verify/verify.go:284-318 | Splitting a joined pair finds the true separator if and only if the source is a node ID and the target does not start with a digit |
| EdgeKeys.FindsOwnStampIff | pkg/verify/verify.go:322-363 | The timestamp scan stops at the true separator if and only if the target contains no earlier timestamp group |
| EdgeKeys.StampValue | pkg/verify/verify.go:365-371 | A 64-bit number prints as twenty decimal digits whose value is that number |
| EdgeKeys.SplitNodePair | pkg/verify/verify.go:284-318 | The scanning loops compute the greedy split, in bounds for every input |
| EdgeKeys.ParseEdgeKeyV1 | pkg/verify/verify.go:255-280 | Prefix, length, separator and 64-bit range checks, then the split, for every input |
| EdgeKeys.ParseReverseKeyV1 | pkg/verify/verify.go:322-363 | The search loop finds the first twenty-digit group in bounds and checks the parts, for every input |
| StoreCheck.CleanIff | pkg/verify/verify.go:68-151 | No edge-consistency issue is reported if and only if every e:/r: key parses and its mirror is stored |
| StoreCheck.RepairsAreMissingMirrors | pkg/verify/verify.go:222-248 | What a repair writes is exactly the set of mirrors that are missing |
| StoreCheck.RepairIsLeast | pkg/verify/verify.go:222-248 | The repaired keys lie in every superset closed under mirroring, and no other kind of key is added |
| StoreCheck.RepairConverges | pkg/verify/verify.go:68-248 | On a store whose e:/r: keys are printed from well-formed IDs, one round yields the least closed superset and a second check reports no edge-consistency issue |
| StoreCheck.RepairNeedsAnotherRound | pkg/verify/verify.go:284-318 | Counterexample on other stores, for every timestamp: the pair split does not look at the separator byte, so the mirror of a key with another byte there mirrors to a third key |
| IssueCounts.MissingNodeTimes | pkg/verify/verify.go:153-208 | For every store, key and ID: a missing node is reported once for the source and once for the target of each stored e: and r: key that parses and names it, and not at all when the node is stored |
| IssueCounts.MissingNodeIff | pkg/verify/verify.go:153-208 | A missing node is reported for a key if and only if the key is a stored e: or r: key that parses, the ID is its source or target, and the node is not stored |
| IssueCounts.MirrorTimes | pkg/verify/verify.go:105-151 | A key whose mirror is missing is reported once, as fixable with that mirror; one that does not parse once, as not fixable; no other key is |
| IssueCounts.NoOtherIssues | pkg/verify/verify.go:68-216 | Every reported issue is a missing node or an edge inconsistency of the forms counted above |
| IssueCounts.ReferencesCleanIff | pkg/verify/verify.go:153-208 | No reference issue is reported if and only if both nodes of every stored edge that parses are stored |
| RepairRound.RepairConvergesIff | pkg/verify/verify.go:68-363 | For every store, one round of check and repair leaves no edge-consistency issue if and only if each key finds at its guard what it asks for: an e: key the colon at the byte that splitNodePair skips, or a stored key that spells the key with the colon; an e: key with a twenty-digit group in its target the key read from the cut at that group; an r: key a source at which the greedy scan ends, or a stored key for the cut at which it does end |
| RepairRound.SeparatorDecides | pkg/verify/verify.go:68-318 | On stores whose parts can be told apart, one round is enough if and only if each e: key has its colon, or its key with the colon or its r: key is stored |
| RepairRound.LoneKeyConvergesIff | pkg/verify/verify.go:284-318 | For a lone e: key without a twenty-digit group in its target, the skipped byte alone decides |
| RepairRound.DigitTargetBorrows | pkg/verify/verify.go:284-318 | For every timestamp, a store that converges although an e: key lacks its colon and neither of its own keys is stored: the r: key of another edge spells the same pair |
| RepairRound.MirroredEdgeIff | pkg/verify/verify.go:133-151 | An e: key is the counterpart of a stored key exactly when a stored r: key has the source and target that spell it |
| RepairRound.MirroredReverseIff | pkg/verify/verify.go:107-130 | An r: key with a node-ID source is the counterpart of a stored key exactly when a stored e: key has its parts, whatever byte stands between them |
| EdgeKeys.ParsedEdge | pkg/verify/verify.go:255-318 | Every key that parses is the printed key of its edge up to the byte between source and target, its source is a node ID and that byte ends it |
| EdgeKeys.KeyWithParses | pkg/verify/verify.go:255-318 | Conversely, any byte that ends the source lets the key parse to the same edge |
| EdgeKeys.ParsedReverse | pkg/verify/verify.go:322-363 | Every reverse key that parses is the printed key of its edge, and its target holds no twenty-digit group |
| StoreCheck.ScanPrefix | pkg/verify/verify.go:376-391 | The keys with the prefix, in ascending order |
| StoreCheck.RunPass | pkg/verify/verify.go:108-208 | One pass over a key list reports, in order, the issues of each key |
| StoreCheck.RunChecks | pkg/verify/verify.go:68-216 | All four passes in order, the counts per prefix, and the number of issues and of fixable ones |
| StoreCheck.Repair | pkg/verify/verify.go:222-248 | Adds the expected keys of the fixable issues with empty values and leaves every other key as it was |
| Purge.CutoffSeparates | pkg/purge/purge.go:126-150 | An edge key sorts before the cutoff key if and only if its timestamp is before the cutoff |
| Purge.LeavesExactlyNewEdges | pkg/purge/purge.go:126-201 | After a real purge a printed edge key is present if and only if it was and its timestamp is at or after the cutoff |
| Purge.NamedNodesSurvive | pkg/purge/purge.go:183-198 | A node that a remaining edge key names is not deleted |
| PurgedNodes.NodeGoneIff | pkg/purge/purge.go:152-198 | A stored node is deleted if and only if it is one of the two parts of some edge key below the cutoff and no key that is left mentions it |
| PurgedNodes.BothPartsGo | pkg/purge/purge.go:152-198 | Both parts of an edge key below the cutoff lose their node keys when nothing that is left mentions them |
| PurgedNodes.NodeIDsStay | pkg/purge/purge.go:152-198 | On a store whose edge keys are printed from node IDs, no node with a well-formed ID is ever deleted, because the key is cut at a colon inside the source |
| PurgedNodes.OrphanStays | pkg/purge/purge.go:152-198 | For every timestamp before the cutoff, a store whose only edge is purged and whose orphaned node stays |
| PurgedNodes.ReverseGoneIff | pkg/purge/purge.go:172-180 | A stored r: key is deleted if and only if it carries the cutoff and the parts of an edge key below it |
| PurgedNodes.TrueReverseStays | pkg/purge/purge.go:172-180 | The reverse key that belongs to a purged edge stays, because the deleted key is built from the cutoff |
| Purge.DryRunReportsNoNodes | pkg/purge/purge.go:183-198 | In a dry run every candidate is still referenced, so no node is ever reported as deleted |
| Purge.NoneDoomedFrom | pkg/purge/purge.go:142-150 | Stopping at the first key past the cutoff or the prefix misses no doomed key |
| Purge.OnlyNodeKeysGone | pkg/purge/purge.go:183-198 | Deleting nodes does not change which nodes are referenced, so the order of the node loop does not matter |
| Purge.HasRemainingEdges | pkg/purge/purge.go:306-332 | True if and only if some e: key contains the colon-led ID or some key starts with r: and the ID |
| Purge.PurgeEdges | pkg/purge/purge.go:139-181 | Deletes the doomed keys and the reverse keys built from the cutoff, counts them, and collects the named IDs; a dry run only counts |
| Purge.PurgeOrphans | pkg/purge/purge.go:183-198 | Deletes exactly the candidates that nothing references |
| Purge.PurgeByTime | pkg/purge/purge.go:126-201 | The store afterwards and every counter of the report, for real and dry runs |
| Priority.Fifo | pkg/transport/priority.go:84-253 | Across any mix of ingests, capped drains and reopenings: what was drained followed by what is queued is what was queued at the start followed by every low-priority event ingested, in order |
| Priority.Conservation | pkg/transport/priority.go:105-200 | Within a session, highSent + lowStaged + depth at open = processed + pending high + queue depth |
| Priority.IngestKeepsShape | pkg/transport/priority.go:125-150 | Writing the next event overwrites nothing and appends it to the stored queue |
| Priority.DrainTakesOldest | pkg/transport/priority.go:204-253 | A drain takes the oldest events up to the cap, in order |
| Priority.ScanOrder | pkg/transport/priority.go:209-226 | The key-ordered iterator visits the events in the order of their numbers and then the counter |
| Priority.KeySpace | pkg/transport/priority.go:98-102 | The sixteen-digit hexadecimal keys sort as their numbers do and are distinct |
| Priority.CountsAddUp | pkg/transport/priority.go:190-192 | The hash counts of a summary add up to its event count |
| Priority.CountsAreOccurrences | pkg/transport/priority.go:190-192 | Each hash count is the number of drained events with that hash |
| Priority.DepthIsQueueLength | pkg/transport/priority.go:256-277 | The counted depth is the number of stored events |
| PipelineRuns.RoutedBy | pkg/transport/priority.go:105-121 | An event of high priority, tainted or matched by a rule joins the high queue and touches nothing else; any other joins the low queue only |
| PipelineRuns.QueuedAre | pkg/transport/priority.go:105-150 | The queued events of a run are the others in order; persisted ones keep everything but their payload |
| PipelineRuns.HighFifo | pkg/transport/priority.go:105-164 | Within a session the high queue is first in, first out, and the counters are the numbers of urgent events, of the others and of events drained from either queue |
| PipelineRuns.SummarySpans | pkg/transport/priority.go:166-202 | A summary counts the drained events, gives the times of the oldest and newest of them, and counts each hash as often as it was drained |
| Priority.PriorityPipeline.constructor | pkg/transport/priority.go:54-96 | Opening loads the stored counter and starts all other counters at zero |
| Priority.PriorityPipeline.Ingest | pkg/transport/priority.go:105-150 | Classification, persistence of low-priority events under the next number, and the counters |
| Priority.PriorityPipeline.TakeHigh | pkg/transport/priority.go:153-160 | Returns and empties the high-priority queue and counts it as processed |
| Priority.PriorityPipeline.DrainLowSummary | pkg/transport/priority.go:166-200 | The summary of the drained events and the state without them; nothing for an empty drain |
| Priority.PriorityPipeline.DrainLowFromPebble | pkg/transport/priority.go:204-253 | The drained events and the database without their keys |
| Priority.PriorityPipeline.LowQueueDepth | pkg/transport/priority.go:256-281 | Counts the event keys in the scanned range, or the in-memory queue |
| HashCache.AlwaysInSync | pkg/transport/hashcache.go:86-212 | Over every run, with restarts, memory and disk hold the same entries |
| HashCache.RetransmitNeedsCleaning | pkg/transport/hashcache.go:86-161 | Two true answers for one hash are separated by a cleaning that removed it, even across restarts |
| HashCache.LostOnlyByCleaning | pkg/transport/hashcache.go:86-212 | A known hash becomes unknown only through a cleaning |
| HashCache.CountIsChecksSinceInsertion | pkg/transport/hashcache.go:86-110 | The stored count is the number of checks since the hash was last inserted |
| HashCache.HitsAreRepeats | pkg/transport/hashcache.go:105-109 | Hits count the repeats and savings are 1024 bytes each |
| HashCache.SentAtIsLastCheck | pkg/transport/hashcache.go:86-110 | Over every run, restarts included, the stored time of a hash is that of its last check |
| HashCache.CleaningForgetsExactly | pkg/transport/hashcache.go:143-161 | A cleaning forgets a known hash if and only if its last check was longer ago than the given age |
| HashCache.RetransmitNeedsPause | pkg/transport/hashcache.go:86-161 | Between two full transmissions of one hash lies a cleaning that found it unchecked for longer than its age |
| HashCache.FlushWrites | pkg/transport/hashcache.go:164-187 | A flush writes every cached entry under its key, keeps all other disk keys and the memory, and changes nothing when memory and disk agree |
| HashCache.LoadImage | pkg/transport/hashcache.go:189-212 | Loading what a flush of the map writes gives the map back |
| HashCache.GreatestKeyWins | pkg/transport/hashcache.go:189-212 | On any disk, the loaded entry for a hash is the one under the greatest scanned key that carries it |
| HashCache.SubgraphCache.constructor | pkg/transport/hashcache.go:40-76 | A cache starts with what loading its disk yields, or empty without a disk |
| HashCache.SubgraphCache.ShouldTransmit | pkg/transport/hashcache.go:86-110 | True exactly for an unknown hash; memory, disk and counters afterwards |
| HashCache.SubgraphCache.PersistEntry | pkg/transport/hashcache.go:261-273 | Writes the entry under its key, if there is a disk |
| HashCache.SubgraphCache.CleanStale | pkg/transport/hashcache.go:143-161 | Removes exactly the stale entries from memory and disk and counts them |
| HashCache.SubgraphCache.FlushToDisk | pkg/transport/hashcache.go:164-186 | The disk overwritten with every entry in memory |
| HashCache.LoadFromDisk | pkg/transport/hashcache.go:189-212 | The loading loop goes through the scanned keys in order and puts each entry under the hash it carries |
| Transport.OnePayloadPerEpoch | pkg/transport/manager.go:195-230 | Between two full payloads for one content hash a cleaning forgot the hash, over every run of the manager |
| Transport.HeartbeatsAreHits | pkg/transport/manager.go:195-230 | The heartbeat and saved-byte counters of the manager always equal the hits and savings of the cache |
| Transport.PendingAreHeartbeats | pkg/transport/manager.go:226-244 | No full high-priority payload is left waiting: what is pending has no data |
| Transport.HighSentInOrder | pkg/transport/manager.go:226-244 | With a client attached, what was sent followed by what is pending is every high-priority event in order |
| Transport.WhereInputsGo | pkg/transport/manager.go:195-244 | An input that is urgent joins the high queue, and a new one takes the whole queue out with it, in order; any other joins the low queue; a known hash carries no payload and costs a heartbeat |
| Transport.TransportManager.IngestEvent | pkg/transport/manager.go:195-230 | Cache check, heartbeat or compressed payload (the plain data when compression fails), routing and immediate flush |
| Transport.TransportManager.FlushHigh | pkg/transport/manager.go:233-244 | Sends the drained events in order, or discards them without a client |
| Transport.TransportManager.RecordHeartbeat | pkg/transport/manager.go:323-328 | Adds one heartbeat and 1024 saved bytes |
| AlertFlow.IngestKeepsValidIff | pkg/alertflow/manager.go:109-164 | An ingest keeps order (duplicate-free), alerts and dedup map consistent and bounded if and only if it is a repeat or its ID is not in use |
| AlertFlow.ReusedIdUnlinks | pkg/alertflow/manager.go:140-161 | Reusing a stored ID under another dedup key breaks the consistency |
| AlertIdentity.KeysTellApart | pkg/alertflow/manager.go:312-320 | Alerts with the same normalized severity, pattern, source and headline share their key, and without bars in the fields only those do |
| AlertIdentity.BarsCollide | pkg/alertflow/manager.go:312-320 | With a bar in a field, two alerts that differ in two fields share their key |
| AlertIdentity.SameLabelsRepeat | pkg/alertflow/manager.go:117-137 | An occurrence of a stored alert, by the four fields, is a repeat of that alert |
| AlertIdentity.RepeatsIff | pkg/alertflow/manager.go:117-137 | Without bars, an input is a repeat if and only if some stored alert carries its four fields |
| AlertIdentity.FirstOccurrenceDelivered | pkg/alertflow/manager.go:140-163 | A first occurrence by the four fields, with an unused ID, is stored with its own fields and delivered, whatever else is stored |
| AlertIdentity.FirstOccurrenceOfRun | pkg/alertflow/manager.go:109-163 | The same at every point of every run with fresh IDs from an empty manager |
| AlertIdentity.IDsOfAlerts | pkg/alertflow/manager.go:322-331 | A given ID is kept, trimmed; without one, alerts of one pattern at times that print differently get different IDs |
| AlertIdentity.RepeatUpdates | pkg/alertflow/manager.go:117-137 | A repeat counts one more, moves the last time, takes over a given reason, reopens a closed alert, shows the right status, and leaves fields, assignee, silence and note alone |
| AlertIdentity.StoryIsKept | pkg/alertflow/manager.go:109-164 | Over every run with fresh IDs, the count and the first and last time of a stored alert are those of its occurrences since it was stored |
| AlertIdentity.ClosedUntilReopened | pkg/alertflow/manager.go:109-310 | A closed alert leaves the closed state if and only if the operation is another occurrence of it or a request that sets its status |
| AlertIdentity.CountsByState | pkg/alertflow/manager.go:174-191 | Each count of a snapshot is the number of listed alerts in that state |
| AlertIdentity.SnapshotShows | pkg/alertflow/manager.go:174-191 | After a snapshot every stored alert shows the state it is in, and nothing else has changed |
| AlertFlow.AlwaysValid | pkg/alertflow/manager.go:109-164 | Over every run with fresh IDs the three structures stay consistent and within maxAlerts |
| AlertFlow.FirstIngest | pkg/alertflow/manager.go:140-163 | A new alert is notified and appended, and only the oldest alert is evicted, when the bound is exceeded |
| AlertFlow.RepeatIngest | pkg/alertflow/manager.go:118-137 | A repeat notifies if and only if no silence is in force and the window has passed since the last notification; only that alert changes |
| AlertFlow.RemembersDelivery | pkg/alertflow/manager.go:132-136 | The stored notification time is the time of the last delivery of the run |
| AlertFlow.NotificationsSpaced | pkg/alertflow/manager.go:284-293 | Every notification of a repeat is at least the window after the last notification of that alert |
| AlertFlow.RefreshOnlyStatus | pkg/alertflow/manager.go:295-300 | Refreshing changes only the status of the listed alerts |
| AlertFlow.SummaryAddsUp | pkg/alertflow/manager.go:174-191 | The four state counts add up to the total, which is the number of alerts listed |
| AlertFlow.Manager.constructor | pkg/alertflow/manager.go:89-96 | Starts empty and consistent, with a bound of 500 and a window of ten minutes |
| AlertFlow.Manager.IngestAlert | pkg/alertflow/manager.go:109-164 | The state and the notification decision, for new, repeated and closed alerts |
| AlertFlow.Manager.TrimLocked | pkg/alertflow/manager.go:333-342 | The eviction loop drops the oldest entries down to the bound |
| AlertFlow.Manager.UpdateAlert | pkg/alertflow/manager.go:211-262 | Fails exactly for an unknown alert, a malformed duration, an unknown classification or an unsupported action, and then changes nothing; otherwise only that alert changes, and in it only note, assignee, silence, status and classification, as the action says |
| AlertFlow.SilenceHolds | pkg/alertflow/manager.go:225-236 | Over every run with fresh IDs: after a silence, no occurrence of the alert before its end is delivered, as long as the alert is neither evicted nor silenced again nor unsilenced |
| AlertFlow.EvictionForgetsSilence | pkg/alertflow/manager.go:333-342 | Eviction loses a silence: the next occurrence of an evicted alert is delivered at once |
| AlertFlow.Manager.TakeSnapshot | pkg/alertflow/manager.go:167-191 | Refreshes every listed alert and counts them by state |
| AlertFlow.Manager.SetDedupWindow | pkg/alertflow/manager.go:99-106 | Ignores a window that is not positive |
| RateLimit.WindowBound | pkg/api/middleware.go:323-346 | For any address and any non-decreasing call times, the calls allowed in a window number at most the burst plus the rate times the length of the window |
| RateLimit.Paid | pkg/api/middleware.go:323-346 | Allowed calls plus the tokens left never exceed the tokens at the start of the window plus what accrued in it |
| RateLimit.NoDebt | pkg/api/middleware.go:323-346 | No bucket ever holds less than zero tokens |
| RateLimit.SpacedIsAllowed | pkg/api/middleware.go:323-346 | With a burst of at least one and a positive rate, a call that comes at least 1/rate after every earlier call of its address is never refused |
| RateLimit.AllowedIff | pkg/api/middleware.go:322-346 | A call is allowed if and only if allowing it keeps the bound in every window that ends with it |
| RateLimit.FirstBurstAllowed | pkg/api/middleware.go:322-346 | The first calls of an address are allowed, up to the burst, however close together they come |
| RateLimit.PauseEarns | pkg/api/middleware.go:322-346 | A pause of n / rate earns the next n calls, up to the burst |
| RateLimit.Isolation | pkg/api/middleware.go:327-332 | The bucket of an address depends only on the calls from that address |
| RateLimit.CallTakes | pkg/api/middleware.go:341-345 | A call takes one token from its own address when allowed, and none otherwise |
| RateLimit.RateLimiter.Allow | pkg/api/middleware.go:323-346 | The decision and the buckets afterwards: refill, cap, check, take |
| Delivery.TraceShape | pkg/notify/notify.go:132-165 | Attempts are numbered 1..k; all but the last are retrying, and the last is delivered, or dead_letter exactly when every attempt up to the maximum failed |
| Delivery.TraceRecorded | pkg/notify/notify.go:118-195 | A delivered send leaves the dead letters alone; one that is not adds exactly its last record to list and map |
| Delivery.HistoryOfTrace | pkg/notify/notify.go:180-183 | The history is the newest records first, up to its bound |
| Sends.TraceFields | pkg/notify/notify.go:128-166 | Record i of a retry loop names its notifier and alert, has number i + 1, the ID, time and error of that attempt, and the status that its failure and number give |
| Sends.HistoryOfSend | pkg/notify/notify.go:118-195 | After a send the history is the records of all notifiers in order, newest first, before what was there, up to the bound |
| Sends.RecordsOfNotifier | pkg/notify/notify.go:118-168 | The records of each notifier stand together, and record j of notifier i is its attempt j + 1, under its own name |
| Sends.DeadLettersOfSend | pkg/notify/notify.go:118-195 | With fresh IDs and room, a send leaves exactly one new dead letter for each notifier all of whose attempts fail, under that name with that alert, and changes no other |
| Sends.SendAllIsRun | pkg/notify/notify.go:118-168 | A send to all notifiers is a run of sends to one, so the run theorems hold for it |
| Sends.AlwaysOwnItems | pkg/notify/notify.go:176-195 | Over every run, every stored dead letter lies under its own ID with its own notifier and alert |
| Sends.ReplayGoesBack | pkg/notify/delivery.go:140-207 | A replay adds to the history exactly its own attempts, numbered from 1, to the notifier of the dead letter and with its alert |
| Sends.TicketReachesAll | pkg/notify/delivery.go:229-253 | A ticket reaches the stored item and the first record of its ID in list and history, and changes nothing else; an unknown ID changes nothing |
| Sends.SkippedIff | pkg/notify/notify.go:199-215 | With an interval set and times in order, a send is skipped if and only if one of the same kind was let through less than the interval before |
| Sends.KindsTellApart | pkg/notify/notify.go:199-215 | Sends are of one kind exactly when pattern and severity agree, if no severity holds a colon; with a colon two patterns can share a kind |
| Sends.NoIntervalNoSkip | pkg/notify/notify.go:199-215 | Without an interval nothing is skipped |
| Delivery.RecordInStepIff | pkg/notify/notify.go:176-195 | Recording keeps dead-letter list and map in step if and only if the record is no dead letter or its ID is not still listed |
| Delivery.AlwaysInStep | pkg/notify/notify.go:118-195 | Over every run with fresh delivery IDs, each listed dead letter equals its map entry, ticket included, and IDs are distinct |
| Delivery.RecordListsIff | pkg/notify/notify.go:184-194 | Recording keeps the map equal to the listed dead letters if and only if the record is no dead letter, finds room in the list, or reuses the ID of the one it pushes out |
| Delivery.OverflowStrands | pkg/notify/notify.go:184-194 | When the list is full, a new dead letter leaves the last listed one in the map and no longer in the list |
| Delivery.AlwaysFullyListed | pkg/notify/notify.go:118-195 | Over every run with fresh IDs in which the list has room, list and map hold the same dead letters |
| Delivery.ClearRemovesExactly | pkg/notify/delivery.go:255-268 | Clearing removes exactly its own ID from list and map |
| Delivery.TicketKeepsInStep | pkg/notify/delivery.go:229-253 | Attaching a ticket keeps list and map equal |
| Delivery.ReplayOutcome | pkg/notify/delivery.go:140-207 | A successful replay removes exactly its own ID; a failed one adds exactly one dead letter |
| Delivery.BatchClearsExactly | pkg/notify/delivery.go:209-227 | After any number of replays of a batch, exactly the IDs whose replay succeeded are gone |
| Delivery.Manager.RecordDelivery | pkg/notify/notify.go:176-195 | Prepends to the bounded history and, for a dead letter, to the bounded list and the map |
| Delivery.Manager.Attempt | pkg/notify/notify.go:131-165 | The retry loop records exactly its trace and returns the last record |
| Delivery.Manager.SendAll | pkg/notify/notify.go:118-168 | Runs the retry loop for every notifier in order |
| Delivery.Manager.Send | pkg/notify/notify.go:118-168 | Does nothing when the alert is throttled, and otherwise runs the retry loop for every notifier |
| Delivery.Manager.ShouldThrottle | pkg/notify/notify.go:199-215 | The decision and the remembered times of the throttle |
| Delivery.Manager.SetMinInterval | pkg/notify/notify.go:95-99 | Sets the interval and keeps the remembered times |
| Delivery.Manager.ReplayDeadLetter | pkg/notify/delivery.go:140-207 | Fails for an unknown ID or notifier without any change; otherwise records the trace, clears on success and reports the last record |
| Delivery.Manager.ClearDeadLetter | pkg/notify/delivery.go:255-268 | The in-place filter removes the records with the ID |
| Delivery.Manager.ReplayAllDeadLetters | pkg/notify/delivery.go:209-227 | Processed = succeeded + failed, succeeded counts the replays that succeed, and the records are those of the last attempts |
| Delivery.Manager.SetTicketReference | pkg/notify/delivery.go:229-253 | Sets the ticket in the map, on the first matching dead letter and on the first matching history record; false for an unknown ID |
| Delivery.Manager.SetRetryPolicy | pkg/notify/delivery.go:67-78 | At least one attempt |
| TreeOrder.WithinIffPath | pkg/api/svg.go:714-732 | The reference distance: a node is within n steps if and only if a directed path of at most n edges leads to it from a root |
| TreeOrder.ExpandKeepsSearching | pkg/api/svg.go:720-732 | One turn of the loop keeps the search invariant: shortest distances, a queue spanning at most two levels, and a forest of real edges |
| TreeOrder.BreadthFirst | pkg/api/svg.go:714-732 | Finds exactly the reachable nodes, each at its shortest directed distance, with tree edges that are real and go one level down |
| ForestTour.WholeTour | pkg/api/svg.go:742-773 | The preorder of a forest lists every node once, parents first, and every subtree as one contiguous block |
| ForestTour.SizeIsOrderFree | pkg/api/svg.go:776-788 | The size of a subtree does not depend on the order of children |
| DrawOrder.SuccIffEdge | pkg/api/svg.go:700-709 | The adjacency lists hold exactly the edges between known nodes |
| DrawOrder.BuildAdj | pkg/api/svg.go:700-709 | The sorted successor lists, built edge by edge |
| DrawOrder.FindRoots | pkg/api/svg.go:673-689 | The nodes no edge points at, or the first node when there are none, sorted and without repetition |
| DrawOrder.SubtreeWeight | pkg/api/svg.go:776-788 | On an unseen subtree, the recursion counts its nodes and marks exactly those |
| DrawOrder.RankIsRanked | pkg/api/svg.go:752-759 | The child sort puts heavier subtrees first and breaks ties by ID |
| DrawOrder.SortChildren | pkg/api/svg.go:751-759 | The stable child sort, with weights computed by the recursion |
| DrawOrder.Walk | pkg/api/svg.go:745-765 | On an unvisited subtree, the recursion appends its preorder; on a visited node it does nothing |
| DrawOrder.HeavierSiblingFirst | pkg/api/svg.go:742-773 | Of two siblings, the whole subtree of the one with more nodes is drawn first; among equals the smaller ID goes first |
| DrawOrder.TreeLayoutOrder | pkg/api/svg.go:691-773 | Reachable nodes get their shortest directed distance, unreached ones level 0 and no parent; tree edges are real and go one level down; the order lists each node once, parents before children, subtrees as blocks, from the sorted level-0 nodes |
| FocusedGraph.Explore | pkg/api/svg.go:223-264 | Whatever the caps, only nodes in the ball and links at its inner nodes are kept; without truncation, all of them |
| FocusedGraph.BuildIncident | pkg/api/svg.go:225-232 | The links at each node in insertion order, a self-loop once |
| FocusedGraph.TurnIsExpand | pkg/api/svg.go:240-264 | Without truncation, one turn of the loop is one turn of a plain breadth-first search on the undirected graph |
| FocusedGraph.CutCovers | pkg/api/svg.go:240-246 | A search that stops expanding at depth d has found every node within d steps |
| FocusedGraph.CutExpands | pkg/api/svg.go:240-246 | A search that stops expanding at depth d has expanded exactly the nodes within d - 1 steps |
| FocusedGraph.ReachedCap | pkg/api/svg.go:248-260 | Truncation is reported only when the ball reaches the node cap or the links met reach the edge cap |
| FocusedGraph.ByTime | pkg/api/svg.go:279-279 | The kept links in order of time, each once |
| FocusedGraph.FocusOn | pkg/api/svg.go:223-281 | The kept nodes by ID and links by time for a known start, each once: within the caps, both ends kept, exact when no truncation is reported |
| FocusedGraph.CapGraph | pkg/api/svg.go:283-303 | The first nodes, the first links between them, and exactly when truncation is reported |
| FocusedGraph.FocusedGraph | pkg/api/svg.go:213-281 | Caps and closed links on every path; the ball of the given radius around a known start, or the whole graph otherwise, exactly, when no truncation is reported |
| Clustering.ClusterNodes | pkg/api/svg.go:619-671 | One cluster for each level and type with at least five nodes and none else, in level and type order; the others in their order; the counts add up |
| Clustering.DrawnOrFolded | pkg/api/svg.go:619-671 | A node is hidden if and only if it is a member of a cluster, and then of exactly one |
| Clustering.SmallestStay | pkg/api/svg.go:641-651 | A folded group keeps exactly three nodes, and each has a smaller ID than every folded one |
| Clustering.HiddenIff | pkg/api/svg.go:619-651 | A node is hidden if and only if at least five nodes share its level and type and at least three of them have smaller IDs |
| Clustering.SomeoneStays | pkg/api/svg.go:619-671 | Folding never hides every node |
| Columns.Draw | pkg/api/svg.go:338-384 | All node and cluster boxes: same column stacked at least 42 apart in order, lower levels at least 120 to the left, all inside the page, at the exact positions and in the exact page size that the column sums give |
| Columns.NoOverlap | pkg/api/svg.go:338-384 | No two boxes of a layout overlap |
| Columns.BoxesArranged | pkg/api/svg.go:345-377 | Boxes at the column sums are arranged as required, for every list of items |
| Columns.BoxInside | pkg/api/svg.go:338-384 | Boxes at the column sums lie inside the computed width and graph height |
| Columns.Stack | pkg/api/svg.go:360-377 | The stacking loop puts each box below what its column holds so far |
| TreeLayout.MarkTreeEdges | pkg/api/svg.go:385-410 | Edges between visible nodes in order, each marked as tree edge if and only if it joins a node to its tree parent and its pair of ends was not marked before |
| TreeLayout.TreeEdgeIff | pkg/api/svg.go:385-410 | A visible node never has two tree edges; if its tree parent is visible it has one, from that parent, if and only if no earlier tree edge between other nodes has the same marking key |
| TreeLayout.OneTreeEdgePerChild | pkg/api/svg.go:385-410 | When no visible ID contains NUL, every visible node whose tree parent is visible has its tree edge |
| TreeLayout.NulShadows | pkg/api/svg.go:385-410 | With NUL in an ID two tree edges can share their marking key, and the later one is not marked |
| TreeLayout.NodesByLevel | pkg/api/svg.go:345-383 | In a layout, deeper nodes stand at least 120 to the right; nodes of one level share their left edge, later ones at least 42 lower; each box has room for the lines of its node and, up to 520, for its longest line |
| TreeLayout.ClustersBelow | pkg/api/svg.go:345-383 | A cluster box stands in the column of its level, at least 42 below every node and every earlier cluster of that level |
| TreeLayout.LayoutGraph | pkg/api/svg.go:305-411 | From nodes and edges to the drawing: correct levels and tree, a drawing order that lists every node once in preorder, exactly the clusters of the large groups, visible nodes and cluster members partition the nodes, collapsedNodes is the sum of the cluster counts, boxes disjoint and inside, tree edges marked |

## Left out

- Priority.Fifo: assumes fewer than 2^64 numbered events, because the counter and the keys wrap around beyond that.
- Priority.Conservation: assumes the same bound on the counter.
- FocusedGraph.FocusedGraph: the order of links with equal times is open, as the sort of the source leaves it.
- FocusedGraph.CapGraph: one link is kept even under a cap of 0, as in the code.
- DrawOrder.TreeLayoutOrder: node IDs are distinct, as the keys of the graph's node map are, and none is empty, because the code takes a missing tree parent for the node with the empty ID.
- TreeLayout.OneTreeEdgePerChild: the case of IDs without NUL; TreeLayout.TreeEdgeIff treats all IDs.
- TreeLayout.LayoutGraph: text measuring and wrapping are parameters; edge texts and the event table height are not modelled; column slices are sequences, so aliasing of slices is not captured.
- AlertFlow.Manager.TakeSnapshot: counts only; filtering by status or assignee and the sort by last occurrence are not modelled.
- AlertFlow.NotificationsSpaced: ranges over runs with fresh IDs, because a reused ID replaces the stored alert.
- AlertFlow.SilenceHolds: the same, and the end of the silence is not the zero time, which stands for no silence.
- Delivery.AlwaysInStep: ranges over runs with fresh delivery IDs, because an ID in use replaces the map entry of a listed record.
- Delivery.Manager.Send: back-off sleeps, logging and the closing of notifiers are not modelled.
- Sends.DeadLettersOfSend: assumes fresh delivery IDs and room in the list; Delivery.RecordInStepIff and Delivery.OverflowStrands treat the other cases.
- AlertIdentity.FirstOccurrenceDelivered: assumes an unused ID and fields without bars; AlertFlow.ReusedIdUnlinks and AlertIdentity.BarsCollide treat the other cases.
- AlertIdentity.StoryIsKept: ranges over runs with fresh IDs, because a reused ID replaces the stored alert.
- Failover.LeaderIsAlive: the same cluster assumptions as ControlPlane.LeaseSafety, from any starting state whose entries lie under their own IDs.
- RateLimit.AllowedIff: over reals and for a positive rate, at non-decreasing times.
- Purge.NamedNodesSurvive: speaks of e: keys only; PurgedNodes.ReverseGoneIff treats the r: keys.
- StoreCheck.RunChecks: message texts, disk size and duration are not modelled.
- ControlPlane.LeaseSafety: one election timeout, one configured leader and non-decreasing time for the whole cluster; the file backend is not modelled, because its read and write are not one atomic step.
- RateLimit.WindowBound: over reals and for a positive rate; the middleware switches limiting off for other rates.
- Merkle.AcceptsExactly: hashing is an arbitrary function, and freedom from collisions is assumed only on the pairs that are hashed; slices of leaves are values.
- Merkle.DistinctLeavesFixIndex: the case of pairwise distinct leaves; Merkle.AcceptsExactly treats repeated ones.
- Goroutines, tickers and mutexes: each locked method is one atomic step.
- Anchoring of Merkle roots, key files and encryption.
- Capacity and compliance purges.
- The compact, timeline and grouped drawings, and all text, SVG and HTML output.
- HTTP handlers, gRPC, notifier and ticketing clients, configuration, diagnostics and release tooling.
