# Verification of the observability platform's core

A Dafny model of the parts of the platform where mistakes would be silent, with proofs about
every run, every schedule and every input. `dafny verify dfyconfig.toml` checks all of it.

**topo-engine** (`Clock`, `TraceStore`, `Aggregates`, `EdgePass`, `ServicePass`, `ReplacingTable`,
`EngineRuns`, `TenantIsolation`, `Schedule`, `EngineObject`, `Coverage`, `GapFreedom`). The two SQL passes
are functions on the span sequence: row policy, left self-join, classification, grouping.
`EdgeTheorems`, `RowMeaning`, `Conservation` and `Retries` say what their rows count, in terms of stored
spans. A ReplacingMergeTree read with FINAL is an insert log in which the last row of a key wins. `EngineRuns`
is the machine of atomic statements of all workers, ticks, catch-ups and ingesters; the class
`Engine` is the Go object, whose methods keep "FINAL is the aggregate of the units done" whatever
fails. `GapFreedom` is one tenant's life across restarts, one pass at a time.

**Topology** (`TopologyGraph`, `TopologyTheorems`, `TopologyMeaning`, `TopologyLoad`, `GraphCounts`,
`Sorting`). The five phases as methods with their maps and loops, proved against a declarative response;
map iteration and the unstable sort are nondeterministic, and the response is proved not to depend on
them. `GraphCounts` counts the numbers of the response on the stored spans, through both passes and the
FINAL read.

**Annotations**. Insert is two statements with anything in between. The machine of all clients, the
pruner and the clock keeps the idempotency window; the class is the repository object.

**Ingest** (`Otlp`, `NestedBatch`, `SpanIngest`, `LogIngest`, `Chquery`, `Consumers`, `Metering`,
`IngestAccounting`, `IngestedEdges`). The nested loops are proved against positions in the request;
storing is all or nothing; the metering queue conserves events; `IngestAccounting` accounts for every
stored row through the shutdown.

**Smaller cores**: `Paging`, `Migrations`, `CommandPalette`.

A p95 is kept symbolic, as the bags of durations it would be computed from, so equal results mean
equal p95s under any quantile. Times are integers (nanoseconds for spans, minute numbers in
`Coverage`). The result of an I/O operation is a nondeterministic choice.

## What the proofs assume

- A parent stored after its child was aggregated counts as a change of the child's unit, because the
  join's parent side has no time filter (`Settled`, `Touches`). Theorems about one tenant ask this of
  that tenant's spans only (`SettledFor`).
- Where edges are compared with stats, every span feeds at most one row (`OneRowPerSpan`); unique span
  ids within a trace suffice.
- Gap-freedom: no pass fails, no tick is skipped, a boot reads its marker before the first tick
  writes, and the replay window does not reach the epoch (an empty table's marker). No process
  crashes while a minute it still has to replay lies at or below one with an edge row, nor while its
  ticker is between the two passes of a unit that wrote edges. `Setup.Careful` lists these, beside what
  is merely possible in `Setup.Possible`. The code enforces none of them. The crash condition is exact
  (`CrashSoundIff`); `ReplayCompletes`, `HoleBehindMarkerStays` and `HalfUnitReplayedIff` say what a replay
  repairs where the others fail.
- Shutdown: the receiver's wait for requests in flight does not time out.

## Where the code differs from what it says

- A parent that arrives late leaves a stale external edge in FINAL: a rerun adds the service edge
  but nothing ever replaces the old key (`LateParentLeavesStaleEdge`). A rerun is clean exactly when the
  late spans together take no key's support (`RerunCleanIff`).
- A batch a client sends twice counts each of its spans twice in the stats, but in the edges a call
  counts twice if one of its two spans is in the batch and four times if both are
  (`ResentBatchEdges`, `ResentBatchStats`, whatever else is stored). `ResentCrossTableIff` gives the exact
  condition for each bound between the tables to survive; a batch none of whose spans feeds another
  span is harmless (`RetryKeepsOneRowIff`, `HarmlessRetry`).
- The edges pass alone moves the marker. A crash between the two passes of a unit leaves it without
  stats, and the next boot comes back to it only if the marker is out of reach by then (`HalfUnitReplayedIff`,
  `HalfUnitLeavesGap`).
- The ticker starts beside the boot catch-up, not after it as the log line says. One tick that
  writes first can make the replay empty (`TickBeforeMarkerSkipsReplay`).
- The design has '' for a root span's parent id (docs/specs/2026-05-25-slice-1-trace-design.md, line
  135). Ingest writes sixteen zeros, so the pass's guard against root spans never fires and a root
  Client span with a peer gives an external edge, unless all its stored parents, spans with the all-zero
  id, are of other services (`RootClientSpanCallsOutIff`).
- The topology comments say external nodes are always kept. An external edge is dropped exactly
  if its caller is cut or some row makes its callee a service (`ExternalSurvivesIff`), and an external that
  no surviving edge reaches is not emitted.
- Logs and traces are ordered by columns that need not separate rows. Paging is lossless exactly when
  no tie between different rows straddles a page boundary (`CompleteIffNoMixedTie`).
- The migration runner's comment calls apply-and-record atomic. The statements of one request run one
  after the other, and the proofs let a crash fall between any two. Replay is safe because every
  statement creates only what is absent. A failed read of the tracking table is taken for an empty
  one and records versions twice (`BlindRunDuplicates`).
- The ingester drains even when the receiver's shutdown timed out. That is safe exactly if no request
  is in flight any more (`ClosingIsSafeIff`).
- A log record without any timestamp is stored with an observed time but without an event time.

## Model

| member | source | states |
|---|---|---|
| Clock.ClosedBucketAt | backend/internal/topoengine/bucket.go:11-13 | the bucket it returns is aligned, is over at the given instant, and is the latest such bucket |
| Aggregates.GroupBy | backend/internal/topoengine/edges.go:78-89 | every group has at least one call, as many durations as calls and no more errors than calls |
| Aggregates.GroupCalls | backend/internal/topoengine/edges.go:78-89 | a group counts exactly the rows that carry its key, and exists exactly if there is one |
| Aggregates.GroupTotal | backend/internal/topoengine/edges.go:78-89 | grouping loses and repeats nothing: the calls summed over any choice of groups are the rows with those keys |
| Aggregates.GroupMeaning | backend/internal/topoengine/edges.go:78-89 | a group holds, for its key, the number of rows, of errors and of each duration |
| RowMeaning.PeerIsFirstFilled | backend/internal/topoengine/edges.go:57-63 | an outgoing span is named after the first of peer.service, db.system, messaging.system and http.host that is neither missing nor empty, and unknown-external if all are |
| EdgePass.PolicyIsRedundant | backend/internal/topoengine/edges.go:70-76 | the row policy and the tenant filter are each sufficient: the pass writes the same without the policy |
| ServicePass.StatsUnderPolicy | backend/internal/topoengine/services.go:40-43 | the same for the stats pass |
| EdgeTheorems.CallsCountSpans | backend/internal/topoengine/edges.go:48-89 | the calls of an edge row equal the stored (child, parent) pairs that justify it plus the outgoing Client spans without a parent; its errors and each duration count those whose child is an error or lasted so long; a row exists exactly if something justifies it |
| RowMeaning.EdgeRowsCountSpans | backend/internal/topoengine/edges.go:48-89 | the same on the fields of the spans, naming no helper of the pass: calls, errors (status Error) and each duration of an edge row count the pairs with a child in that minute that differ in service, or that call out within a service, and the single spans that call out; a row exists exactly if there is one |
| RowMeaning.ExternalCalleeMeaning | backend/internal/topoengine/edges.go:54-87 | every external edge comes from a stored Client span of its caller in that minute that carries one of the four peer attributes, and its callee is the first of them, in order, that is not empty |
| RowMeaning.StatRowsCountSpans | backend/internal/topoengine/services.go:32-43 | calls, errors (status Error) and each duration of a stats row count the stored spans of that tenant, minute, service and kind; a row exists exactly if there is one |
| EdgeTheorems.RowIffSupported | backend/internal/topoengine/edges.go:71-89 | a key has a row exactly if a stored pair or a stored span without a parent supports it |
| EdgeTheorems.RowsStayInTheirUnit | backend/internal/topoengine/edges.go:48-90 | every inserted row carries the tenant and exactly the aligned bucket requested |
| EdgeTheorems.EdgeSound | backend/internal/topoengine/edges.go:45-90 | callers are services of stored spans of the tenant, service edges join two different services, external callees are named and called by a Client span of the caller |
| Conservation.OneSampleIffFedOnce | backend/internal/topoengine/edges.go:70-89 | a span feeds at most one edge row if and only if no two stored rows are its parent in another service, or its parent at all when it calls out |
| Conservation.UniqueIdsFeedOnce | backend/internal/topoengine/edges.go:70-76 | unique span ids suffice for every span |
| Conservation.AtMostOneSample | backend/internal/topoengine/edges.go:70-89 | a span fed once counts at most once among any choice of edge keys, and only under a key of its own |
| Conservation.EdgesWithinStats | backend/internal/topoengine/edges.go:48-89 | where every span feeds at most one row, edge calls never exceed stats calls, for any matching choice of edge keys and stats keys |
| Conservation.StatsCountEverySpan | backend/internal/topoengine/services.go:32-43 | the stats of a unit count each of its spans exactly once |
| Conservation.CrossTable | backend/internal/topoengine/services.go:32-43 | where every span feeds at most one row: external calls out of a service are among its Client calls, calls into it among all its calls, both together too, and edges in total never exceed spans |
| Retries.SamplesWhere | backend/internal/topoengine/edges.go:70-89 | the rows that reach the GROUP BY, for any property of rows: one for each yielding pair of a child of the unit and a stored parent, one for each yielding span without a parent |
| Retries.ResentBatchEdges | backend/internal/topoengine/edges.go:70-89 | any batch stored twice, whatever is stored before, between and besides: an edge row counts once what the rest yields alone, twice what needs one span of the batch, four times what needs two, and twice the batch's spans without a parent, in calls, errors and every duration |
| Retries.YieldsIsLink | backend/internal/topoengine/edges.go:48-89 | the pairs counted for one key are those that justify it |
| Retries.ResentAloneEdges | backend/internal/topoengine/edges.go:70-89 | with nothing else stored: four times the justifying pairs and twice the spans without a parent |
| Retries.ResentBatchStats | backend/internal/topoengine/services.go:36-43 | the stats after the retry are those of everything else plus twice those of the batch, in calls, errors and every duration |
| Retries.ResentConservationIff | backend/internal/topoengine/edges.go:48-89 | any bound of edge calls by stats calls holds after the retry if and only if what the retry adds to the edges fits into the room left before it and the batch's own stats |
| Retries.ResentCrossTableIff | backend/internal/topoengine/services.go:32-43 | all four bounds between the tables after a retry, each with that condition |
| Retries.RetryKeepsOneRowIff | backend/internal/topoengine/edges.go:70-89 | every span still feeds at most one row after the retry if and only if it did before and no span of the batch feeds a span of the unit |
| Retries.HarmlessRetry | backend/internal/topoengine/edges.go:70-89 | the retry of such a batch, say of children whose parents came in another one, keeps all four bounds |
| Retries.ResentBatchInflatesEdges | backend/internal/topoengine/edges.go:70-76 | a batch after whose retry calls into a service exceed its stats |
| Retries.ResentBatchInflatesExternals | backend/internal/topoengine/edges.go:70-76 | a batch after whose retry external calls exceed the Client stats, without any service edge |
| ReplacingTable.FinalAfterInsert | backend/ch-migrations/20260527120000_create_topology_edges_v1.sql:15-17 | reading with FINAL after an insert: its groups replace the rows with their keys and leave all others |
| ReplacingTable.FinalFilter | backend/ch-migrations/20260527120000_create_topology_edges_v1.sql:15-17 | FINAL and a filter on key columns commute |
| ReplacingTable.Enumerate | backend/ch-migrations/20260527120000_create_topology_edges_v1.sql:15-17 | an INSERT ... SELECT yields each group once |
| EngineRuns.LastWriterWins | backend/internal/topoengine/engine.go:56-82 | over any interleaving with ingest, FINAL of either table is the override of its passes' aggregates in run order |
| EngineRuns.KeysNeverLeave | backend/ch-migrations/20260527120000_create_topology_edges_v1.sql:15-17 | no run makes an edge key disappear from FINAL |
| EngineRuns.EdgesStable | backend/internal/topoengine/edges.go:70-89 | a stored span changes what Pass A yields for a unit only if it lies in it or is the parent of a span in it |
| EngineRuns.StatsStable | backend/internal/topoengine/services.go:40-43 | a stored span leaves the stats of a unit alone if and only if it lies outside it |
| EngineRuns.FinalIsAggregate | backend/internal/topoengine/engine.go:56-82 | whatever the schedule and however often a unit ran, FINAL holds the aggregates of the stored spans over exactly the units that ran |
| EngineRuns.Confluence | backend/internal/topoengine/engine.go:56-82 | two schedules that store the same spans and run the same units, in any order and number, leave the same FINAL tables |
| EngineRuns.VanishesIff | backend/internal/topoengine/edges.go:71-89 | storing a span removes a key from what Pass A yields if and only if it is the parent of all spans that justified the key, those had none, and it justifies the key neither with another span nor alone |
| EngineRuns.RerunCleanIff | backend/ch-migrations/20260527120000_create_topology_edges_v1.sql:2-5 | rerunning an aggregated unit after any late spans leaves FINAL with exactly the aggregate of the stored spans if and only if the late spans together took the support of no key of the unit |
| EngineRuns.RerunCleanAfterOne | backend/ch-migrations/20260527120000_create_topology_edges_v1.sql:2-5 | for one late span: if and only if it takes no key's last support |
| EngineRuns.LateParentLeavesStaleEdge | backend/internal/topoengine/edges.go:71-89 | a key that lost its support stays in FINAL whatever runs afterwards, though no stored span justifies it |
| EngineRuns.LateParentHappens | backend/internal/topoengine/edges.go:71-89 | such a store, parent and key exist |
| TenantIsolation.SliceOfStep | backend/internal/chquery/conn.go:53-68 | a step acts on its own tenant's slice of the three tables and leaves every other slice as it was |
| TenantIsolation.Noninterference | backend/internal/topoengine/engine.go:56-82 | one tenant's slice of any run is the run of its own steps alone on its own data |
| TenantIsolation.SameStepsSameView | backend/internal/topoengine/engine.go:56-82 | stores that agree on a tenant and histories with the same steps of it look the same to it |
| TenantIsolation.SeenIsAggregate | backend/internal/topoengine/engine.go:56-82 | what a tenant sees with FINAL is the aggregate of its own spans over exactly its own units that ran, if its own late spans spare them; nothing is asked of other tenants |
| TenantIsolation.SameUnitsSameView | backend/internal/topoengine/engine.go:56-82 | with the tenant's own spans settled it is enough to agree on them and on which of its units ran, whatever other tenants stored, late or not, or ran |
| Schedule.GreatestIsMax | backend/internal/topoengine/state.go:16-30 | the marker is the greatest bucket among the tenant's edge rows |
| Schedule.MarkerIgnoresOthers | backend/internal/topoengine/state.go:16-30 | removing another tenant's rows does not move a marker |
| Schedule.BucketsExactly | backend/internal/topoengine/engine.go:135-141 | the loop visits a bucket exactly if it is aligned and between start and end |
| Schedule.CatchupWindow | backend/internal/topoengine/engine.go:117-141 | the replayed buckets are increasing, distinct, closed at the call, at most ceil(CatchupMax / 1 minute) + 1, and none when the marker is at or past the end |
| Schedule.ReplayCompletes | backend/internal/topoengine/engine.go:121-141 | after the replay the window is complete if and only if every bucket skipped below a marker within reach had been aggregated before |
| Schedule.TickBeforeMarkerSkipsReplay | backend/cmd/topo-engine/main.go:117-140 | a tick that writes an edge before the marker is read leaves nothing to replay, however old the marker was |
| EngineObject.Engine.constructor | backend/internal/topoengine/engine.go:115-119 | a new process starts on the tables an earlier one left |
| EngineObject.Engine.RunPassEdges | backend/internal/topoengine/edges.go:112-128 | one atomic insert of the unit's groups, or an error and no change; other tenants' rows stay |
| EngineObject.Engine.RunPassServices | backend/internal/topoengine/services.go:48-64 | the same for the stats table |
| EngineObject.Engine.RunOnce | backend/internal/topoengine/engine.go:24-36 | both passes run whatever happens to the other; exactly those not reported as failed took effect |
| EngineObject.Engine.RunBucket | backend/internal/topoengine/engine.go:56-82 | every listed tenant is attempted, a failure stops nobody else, counters split the attempts; without a list nothing is attempted |
| EngineObject.Engine.LastCompletedBucket | backend/internal/topoengine/state.go:16-30 | the marker of the tenant, or none when the read fails |
| EngineObject.Engine.ReplayBucket | backend/internal/topoengine/engine.go:135-140 | a failed bucket is counted and the replay goes on |
| EngineObject.Engine.CatchupTenant | backend/internal/topoengine/engine.go:115-143 | attempts exactly the buckets from the marker to the last closed minute, in order, whatever fails; FINAL stays the aggregate of the units done; other tenants' rows stay |
| EngineObject.Engine.Catchup | backend/internal/topoengine/engine.go:94-105 | replays tenant after tenant, each from the marker the boot state gave it |
| EngineObject.CleanUnitsDone | backend/internal/topoengine/engine.go:68-76 | a unit whose attempt reports no error had both passes done |
| EngineObject.SucceededMeaning | backend/internal/topoengine/engine.go:24-36 | a pass counts a unit as done if and only if some attempt at the unit does not report that pass as failed |
| EngineObject.FailuresMeaning | backend/internal/topoengine/engine.go:64-81 | the failure counter counts the attempts in which either pass failed |
| Coverage.CrashSoundIff | backend/cmd/topo-engine/main.go:115-140 | a crash leaves no hole behind a marker if and only if no undone minute still owed lies behind one and the ticker is not between the passes of an undone unit that wrote edges |
| GapFreedom.Setup.QuietCrashSpares | backend/cmd/topo-engine/main.go:115-140 | a process whose ticks wrote no edge, or whose replay is complete, may crash if and only if neither goroutine is between the passes of an undone unit that wrote edges |
| GapFreedom.Setup.MarkerIsDone | backend/internal/topoengine/state.go:16-30 | a marker names a minute whose edges were aggregated |
| GapFreedom.Setup.PromptSpanSpares | backend/internal/topoengine/bucket.go:5-13 | a span stamped no earlier than the clock that is nobody's late parent changes no aggregated unit |
| GapFreedom.Setup.MoveKeeps | backend/cmd/topo-engine/main.go:115-140 | every move of a failure-free run (boot, each pass of the replay and of the ticker on its own, crash, waiting, other tenants, ingest) keeps the invariant |
| GapFreedom.Setup.RunKeeps | backend/cmd/topo-engine/main.go:115-140 | so does every run, over any number of restarts and idle stretches |
| GapFreedom.Setup.ReplayFinishes | backend/internal/topoengine/engine.go:135-141 | from any state of a running process exactly the passes still owed, each possible, complete the window |
| GapFreedom.Setup.NoGap | backend/internal/topoengine/engine.go:115-143 | once a replay is complete, every minute from the start of its window on that it replayed or that ticks were due for, however long the process has run, has been aggregated by both passes and FINAL holds exactly the aggregates of the stored spans |
| GapFreedom.Setup.NoGapEver | backend/internal/topoengine/engine.go:115-143 | what any caught-up process covered stays so through every later crash, idle stretch and boot |
| GapFreedom.Setup.HalfUnitReplayedIff | backend/internal/topoengine/engine.go:24-36 | after a crash between the passes of a unit that wrote edges, the next boot replays its minute if and only if the marker is out of reach by then and the minute still in the window |
| GapFreedom.Setup.HalfUnitLeavesGap | backend/internal/topoengine/engine.go:24-36 | if the next boot does not replay the minute its stats stay unwritten however the new process goes on, unless a tick comes back to it |
| GapFreedom.HalfUnitHappens | backend/internal/topoengine/engine.go:24-36 | a failure-free run can stand between the passes of such a unit |
| GapFreedom.HoleBehindMarkerStays | backend/internal/topoengine/engine.go:121-133 | a hole at or below the marker is replayed if and only if the marker has fallen out of reach and the hole is in the window |
| TopologyGraph.ServiceMeaning | backend/internal/query/topology_repo.go:73-115 | a name is a service exactly if it calls something, is a service-kind callee, or has stats and appears in no edge; every other callee is external |
| TopologyGraph.RankingUnique | backend/internal/query/topology_repo.go:141-146 | there is one ranking by calls descending, then name |
| TopologyGraph.SortedIsRanking | backend/internal/query/topology_repo.go:127-146 | whatever order the map is iterated in and whatever permutation the sort picks, the names come out in that ranking |
| TopologyGraph.ClassifyNames | backend/internal/query/topology_repo.go:75-115 | the maps after the two loading loops are the specified classification |
| TopologyGraph.Candidates | backend/internal/query/topology_repo.go:127-140 | the map loop yields each service once with its stats and sets the externals apart |
| TopologyGraph.KeepTop | backend/internal/query/topology_repo.go:147-160 | the first nodeLimit candidates become the kept set and the service nodes, in order |
| TopologyGraph.FilterEdges | backend/internal/query/topology_repo.go:162-189 | the edges are the loaded rows that survive, in order; an edge is among them if and only if its caller is kept, its callee is kept or an external, and some loaded row has its ends, calls, errors and p95 |
| TopologyGraph.KeptEdgesMeaning | backend/internal/query/topology_repo.go:162-189 | the same of the specified edges, field by field |
| TopologyGraph.EmitExternals | backend/internal/query/topology_repo.go:191-206 | one external node per external callee of a surviving edge, in order of first appearance |
| TopologyGraph.Topology | backend/internal/query/topology_repo.go:63-208 | all five phases produce the specified response |
| Sorting.SortSlice | backend/internal/query/topology_repo.go:141-146 | some ordered permutation |
| Sorting.StrLessMeaning | backend/internal/query/topology_repo.go:145 | a name is smaller if and only if, where the two first differ, it ends or has the smaller character |
| TopologyTheorems.Deterministic | backend/internal/query/topology_repo.go:73-208 | loaded rows and limit leave only one response |
| TopologyTheorems.KeptAreTheTop | backend/internal/query/topology_repo.go:141-150 | the kept services are the best min(limit, all): nobody left out ranks before anybody kept |
| TopologyTheorems.RowOrderIrrelevant | backend/internal/query/topology_repo.go:19-33 | the order of the rows changes neither the service nodes nor their order, the edges only in order, the externals not as a set |
| TopologyTheorems.ExternalSurvivesIff | backend/internal/query/topology_repo.go:164-189 | an external row survives if and only if its caller is kept and no row makes its callee a service |
| TopologyTheorems.ExternalDropped | backend/internal/query/topology_repo.go:173-178 | an external edge with a kept caller that is dropped |
| TopologyTheorems.ResponseIsClosed | backend/internal/query/topology_repo.go:150-206 | node names are distinct across kinds, both ends of every edge are emitted nodes of the right kind, every external node is reached by an edge |
| TopologyTheorems.LimitMonotone | backend/internal/query/topology_repo.go:147-206 | a larger limit extends the service list, keeps every edge in order and every external; edges are always a subsequence of the loaded rows |
| TopologyMeaning.NodesMeaning | backend/internal/query/topology_repo.go:120-206 | each service node has the calls, errors and p95 of the last stats row of its name, or zeros without one; external nodes have zeros and come last |
| TopologyMeaning.CutByCalls | backend/internal/query/topology_repo.go:141-160 | of two service nodes the first has more calls, or as many and a smaller name, and so has each against any service that got no node |
| TopologyMeaning.EdgesMeaning | backend/internal/query/topology_repo.go:162-189 | an edge is in the response if and only if some loaded row has its caller, callee, kind, calls, errors and p95, its caller is a service node, and its callee is one too or, if external, acts as a service in no row |
| TopologyMeaning.NamesMeaning | backend/internal/query/topology_repo.go:73-206 | only names that act as a service, or have stats and appear in no edge row, get a service node, and all of them do if the limit allows; an external node exists exactly for the external callees of the edges |
| TopologyLoad.RowsAlwaysSound | backend/internal/topoengine/edges.go:45-90 | in any run every edge row ever inserted has known kinds, no self-call, a named external and a caller with a stored span |
| TopologyLoad.GraphDependsOnTenantOnly | backend/internal/query/topology_repo.go:21-47 | two deployments that agree on a tenant's spans and units give it the same graph, whatever others stored, late or not, or ran and however maps, sorts and rows were ordered |
| GraphCounts.EdgesCountSpans | backend/internal/query/topology_repo.go:21-33 | end to end, whatever ran and in whatever order: the calls and errors of an edge a tenant sees are the numbers of calls and of failed calls between its ends, counted on the stored spans of the aggregated minutes of the window |
| GraphCounts.LoadedIffCalled | backend/internal/query/topology_repo.go:21-33 | the edge query has a row between two ends if and only if there is such a call |
| GraphCounts.NodesCountSpans | backend/internal/query/topology_repo.go:37-47 | the calls and errors of a service node are the numbers of its Server spans and failed Server spans in those minutes |
| GraphCounts.EdgeDurations | backend/internal/query/topology_repo.go:27 | the p95 of an edge is the maximum over one bag for each such minute with calls, holding exactly the durations of its calls |
| GraphCounts.NodeDurations | backend/internal/query/topology_repo.go:41 | the same for a service node and its Server spans |
| Annotations.Find | backend/migrations/20260529120000_create_annotations.sql:15-16 | finds a live row of the tenant and key exactly if there is one |
| Annotations.StepKeeps | backend/internal/query/annotations_repo.go:48-96 | each statement of any client, and each prune, keeps the invariant |
| Annotations.EveryRun | backend/internal/query/annotations_repo.go:48-96 | over every interleaving two rows ever created for one tenant and key are more than the retention apart, live keys are unique, and no row's id or content changes or disappears |
| Annotations.RetryFindsOriginal | backend/internal/query/annotations_repo.go:72-77 | a client between its two statements gets the very row it conflicted on until that row has expired, and no row only after |
| Annotations.NoPruneNoMiss | backend/internal/query/annotations_repo.go:72-77 | without a prune in between it always gets that row |
| Annotations.AnnotationsRepo.InsertStatement | backend/internal/query/annotations_repo.go:49-61 | inserts a fresh row, or nothing exactly if the key is taken; an empty key never conflicts |
| Annotations.AnnotationsRepo.Insert | backend/internal/query/annotations_repo.go:48-78 | created means one fresh row, existing means a row that held the key when read, no rows means expiry in between, and the invariant-violation guard is unreachable |
| Annotations.StepEvolves | backend/internal/query/annotations_pruner.go:21-46 | no statement, a prune at any moment included, loses, reorders or changes a row, except that it may clear an expired key |
| Annotations.PruneMeaning | backend/internal/query/annotations_repo.go:85-90 | after a prune a key is gone if and only if it was before or the row was created before now minus the retention; everything else is as it was |
| Annotations.AnnotationsRepo.PruneIdempotencyKeys | backend/internal/query/annotations_repo.go:85-96 | the same of the table, in place, with the number of keys it freed |
| Metering.StepConserves | backend/internal/ingestshared/metering.go:47-82 | every step of producers, worker and shutdown keeps the conservation invariant |
| Metering.EveryState | backend/internal/ingestshared/metering.go:47-82 | offered = written + failed + dropped + in flight + queued, the queue never exceeds 1024, handled is a prefix of accepted, and when the worker has exited everything accepted was written or failed |
| Metering.OfferMeaning | backend/internal/ingestshared/metering.go:39-55 | a producer's event is dropped if and only if 1024 events are queued, and otherwise joins the end of the queue |
| Metering.Meterer.Enqueue | backend/internal/ingestshared/metering.go:39-55 | never blocks: the event is queued, or, with 1024 queued, counted as dropped |
| Metering.Meterer.TakeNext | backend/internal/ingestshared/metering.go:59 | the worker receives the oldest event |
| Metering.Meterer.FinishWrite | backend/internal/ingestshared/metering.go:60-69 | it writes the event it holds, or counts the failure |
| Metering.Meterer.HandleNext | backend/internal/ingestshared/metering.go:57-70 | one round: the oldest event is taken and written, or counted as failed |
| Metering.Meterer.Drain | backend/internal/ingestshared/metering.go:74-82 | wherever the worker stands: it finishes exactly if its patience covers the rounds left; then written plus failed equals accepted; otherwise handled, in flight and queued still make up accepted |
| Otlp.HexInjective | backend/internal/ingest/spans.go:34-40 | ids are equal as text exactly if they are equal as bytes |
| Otlp.MapAttrs | backend/internal/ingest/spans.go:56-62 | each key maps to its last value in the list |
| Otlp.HexDigits | backend/internal/ingest/spans.go:34-40 | each byte becomes its two lower-case hexadecimal digits, the high half first |
| Otlp.FirstMeaning | backend/internal/ingest/spans.go:65-71 | a lookup finds the value of the first entry with the key, and nothing exactly if there is none |
| Otlp.LatestMeaning | backend/internal/ingest/spans.go:56-62 | filling a map leaves the value of the last entry with the key |
| Otlp.LatestMember | backend/internal/ingest/spans.go:56-62 | a key is in the map exactly if some entry carries it |
| NestedBatch.ItemInOrder | backend/internal/ingest/spans.go:13-54 | the row at an item's position is built from that item |
| NestedBatch.ItemAt | backend/internal/ingest/spans.go:13-54 | every row is some item's |
| NestedBatch.PositionsAreLexicographic | backend/internal/ingest/spans.go:13-54 | rows keep request order: resource, then scope, then item |
| SpanIngest.SpansToRows | backend/internal/ingest/spans.go:13-54 | one row per nested span, each at its span's position and showing it field by field |
| SpanIngest.RowsShowSpans | backend/internal/ingest/spans.go:17-48 | the row at a span's position has the first service.name of its resource as service, the span's name, status, kind, signed start and wrapping duration, its ids in hexadecimal, its attributes with the last value of each key, replaced by the scope's name and version where those are set, and the resource's attributes without the declared tenant |
| SpanIngest.DeclaredTenantDropped | backend/internal/ingest/spans.go:10-19 | a tenant declared as a resource attribute is not stored as one |
| SpanIngest.DurationIsDifference | backend/internal/ingest/spans.go:44 | the stored duration is the difference of the stamps if and only if the span does not end before it starts; otherwise it wraps |
| SpanIngest.LinksPreserved | backend/internal/ingest/spans.go:34-40 | two rows match the join's id conditions exactly if their spans do |
| IngestedEdges.StoredParents | backend/internal/ingest/spans.go:34-40 | the join finds one stored span to be the parent of another exactly if the sent spans say so under one tenant |
| IngestedEdges.StoredFields | backend/internal/ingest/spans.go:17-48 | tenant, service, time, duration, status, kind and attributes of a stored span are those sent |
| IngestedEdges.RootIsNotEmpty | backend/internal/ingest/spans.go:40 | a root span's parent id is stored as sixteen zeros |
| IngestedEdges.RootTestNeverFails | backend/internal/topoengine/edges.go:80 | so the pass's non-root test holds for every ingested span |
| IngestedEdges.RootClientSpanCallsOut | backend/internal/topoengine/edges.go:77-88 | and a root Client span with a peer attribute yields one external edge sample, as long as no stored span has the all-zero id |
| IngestedEdges.RootClientSpanCallsOutIff | backend/internal/topoengine/edges.go:77-88 | whatever is stored, it yields its external edge if and only if it has no stored parent or some stored parent is of its own service |
| LogIngest.HexIfNonZero | backend/internal/logingest/logs.go:72-79 | an id is written exactly if some byte is set |
| LogIngest.RecordToRow | backend/internal/logingest/logs.go:32-63 | one record's row |
| LogIngest.LogsToRows | backend/internal/logingest/logs.go:18-67 | one row per nested record, each at its record's position |
| LogIngest.RowsShowRecords | backend/internal/logingest/logs.go:23-62 | the row at a record's position has the last service.name of its resource as service, the record's severity, body, flags and attributes, the low byte of severity number and flags, its ids in hexadecimal or empty if all zero, and the resource's other attributes |
| LogIngest.PromotedKeysDropped | backend/internal/logingest/logs.go:23-26 | neither the declared tenant nor the service name stays among the resource attributes |
| LogIngest.TimesMeaning | backend/internal/logingest/logs.go:35-47 | observed time is always set; event time falls back to the sent observed time, and stays unset exactly if neither was sent |
| LogIngest.IdsMeaning | backend/internal/logingest/logs.go:69-79 | a stored id is empty exactly if absent and otherwise determines its bytes |
| Chquery.Batch.Append | backend/internal/chquery/batch.go:45-55 | rejects exactly the rows of another tenant; otherwise appends, or fails and changes nothing |
| Chquery.Batch.Send | backend/internal/chquery/batch.go:57 | stores all pending rows or none |
| Chquery.StoreAll | backend/internal/ingest/consume.go:64-86 | all rows in order or none, and never the wrong-tenant error |
| Consumers.TraceConsumer.ConsumeTraces | backend/internal/ingest/consume.go:41-99 | a request is stored whole under the resolved tenant and reported once, or changes neither table nor queue; each failure sets its own counter |
| Consumers.TraceConsumer.StoreRows | backend/internal/ingest/consume.go:64-95 | from the flattened rows on: stored, counted under the first row's service and reported, or rejected |
| Consumers.LogConsumer.ConsumeLogs | backend/internal/logingest/consume.go:49-93 | the same for logs |
| Consumers.StoredAndReported | backend/internal/ingest/consume.go:69-95 | storing a batch and reporting its size keeps rows and reported units equal, tenant by tenant |
| IngestAccounting.MoveKeepsAccounts | backend/internal/ingest/consume.go:82-95 | between the store of a batch and its report, other requests, the worker and the shutdown change no tenant's balance |
| IngestAccounting.OfferedUnits | backend/internal/ingestshared/metering.go:47-72 | the units offered to the queue are those written, failed, dropped, in flight and queued |
| IngestAccounting.EndToEnd | backend/internal/ingest/consume.go:82-95 | in every reachable state a tenant's stored rows equal its units written, lost and pending |
| IngestAccounting.OrderlyShutdown | backend/cmd/ingester/main.go:105-115 | unless the receiver's shutdown times out nothing is sent on the closed queue, and once the worker has finished each tenant's rows are exactly its units written, failed and dropped |
| IngestAccounting.ClosingIsSafeIff | backend/cmd/ingester/main.go:105-115 | no continuation of a close can panic if and only if no request is in flight and none can arrive |
| IngestAccounting.TimedOutShutdownPanics | backend/cmd/ingester/main.go:105-115 | a shutdown that times out with a request in flight can panic |
| Paging.Page | backend/internal/query/logs_repo.go:103-122 | the limit+1 scan returns the page and has_more exactly if a row lies beyond it |
| Paging.ListLogs | backend/internal/query/logs_repo.go:78-123 | rejects exactly limits outside [1,500] |
| Paging.ListTraces | backend/internal/query/traces_repo.go:62-100 | rejects exactly unlisted sort or order names; ts orders by start_ts, duration by approx_duration_ns, in the direction asked for |
| Paging.WalkLength | backend/internal/query/logs_repo.go:118-122 | a walk takes ceil(rows / limit) requests, one if there are none |
| Paging.WalkFrom | backend/internal/query/logs_repo.go:118-122 | every walk ends |
| Paging.FixedOrder | backend/internal/query/logs_repo.go:118-122 | over one fixed order the pages put together are the rows |
| Paging.TieLosesRow | backend/internal/query/logs_repo.go:72-73 | if rows with one key straddle a page boundary, some walk never shows one of them |
| Paging.CompleteIffNoMixedTie | backend/internal/query/logs_repo.go:72-73 | every walk shows each row exactly as often as it is stored, however ties are ordered at each request, if and only if no tie between different rows straddles a page boundary |
| Paging.MixedTieIncomplete | backend/internal/query/logs_repo.go:72-73 | a walk over such a tie that does not |
| Paging.CompleteIffNoTieAcross | backend/internal/query/logs_repo.go:72-73 | where all rows differ: if and only if no tie straddles a boundary |
| Migrations.Cluster.Multiquery | deploy/ch-migrate.sh:105 | the statements of a request run in order up to the crash |
| Migrations.Cluster.ApplyFiles | deploy/ch-migrate.sh:77-107 | the loop skips what is applied and sends the rest, cut off anywhere |
| Migrations.Cluster.Migrate | deploy/ch-migrate.sh:67-112 | files are taken in the order of their names and the counters split them |
| Migrations.SkipsMeaning | deploy/ch-migrate.sh:70-84 | a run skips exactly the files whose version it found recorded |
| Migrations.OneOrder | deploy/ch-migrate.sh:77 | however the directory is listed, every run takes the files in the same order |
| Migrations.Absorb | deploy/ch-migrate.sh:86-105 | sending again what was already sent changes no object |
| Migrations.ScriptAfter | deploy/ch-migrate.sh:80-84 | a run that can read the tracking table starts at the first file whose version is missing |
| Migrations.RunAdvances | deploy/ch-migrate.sh:77-107 | every run moves the reached point forward or leaves it |
| Migrations.Replay | deploy/ch-migrate.sh:67-107 | any crashed runs and a complete one leave a clean run's schema; if all could read the table, also its rows, each version once and in file order |
| Migrations.LaterRunsChangeNothing | deploy/ch-migrate.sh:67-107 | every later run is a no-op on the schema, and sends nothing if it can read the table |
| Migrations.BlindRunDuplicates | deploy/ch-migrate.sh:67 | a run whose read fails records every version anew, whatever is recorded: each once if and only if none was before |
| CommandPalette.Contains | frontend/src/composables/useCommandPalette.ts:43 | substring search |
| CommandPalette.ScoreValues | frontend/src/composables/useCommandPalette.ts:44-47 | scores are 0, 50, 70 or 110, and what each one means |
| CommandPalette.WholeQueryMatches | frontend/src/composables/useCommandPalette.ts:39-45 | text that holds the whole query holds every token, so it is never filtered out |
| CommandPalette.CaseFolded | frontend/src/composables/useCommandPalette.ts:38 | two texts fold to the same one if and only if they agree up to the case of ASCII letters |
| CommandPalette.TokensAreWords | frontend/src/composables/useCommandPalette.ts:39 | the tokens of a query are its maximal runs of non-blanks, all of them and nothing else |
| CommandPalette.MatchesMeaning | frontend/src/composables/useCommandPalette.ts:39-43 | an item matches if and only if each word of the query occurs in its folded label and keywords |
| CommandPalette.FuzzyFilter | frontend/src/composables/useCommandPalette.ts:36-52 | the first fifty of the ranking; the empty query returns the first fifty items |
| CommandPalette.RankingMeaning | frontend/src/composables/useCommandPalette.ts:41-51 | the ranking lists each matching item once by score and then original position; nothing cut off outranks anything shown |
| CommandPalette.RankingUnique | frontend/src/composables/useCommandPalette.ts:50 | items and query determine the ranking |
| CommandPalette.NothingToFind | frontend/src/composables/useCommandPalette.ts:38-50 | with no tokens every item matches at the top score and the order stays |
| CommandPalette.BlankQuery | frontend/src/composables/useCommandPalette.ts:37-39 | a blank query returns what the empty query returns |

## Left out

- HTTP routing, JSON, query strings, OTLP receiver wiring, authentication and bearer lookup: the
  consumers take the lookup as a function.
- Quantile arithmetic, float conversion of rates and milliseconds: p95 stays symbolic.
- UInt64 wrap-around of summed calls and errors, and saturation of Go durations near 292 years.
- The tenant-shape checks of the query wrapper and the driver below it: the tenant filter is modelled,
  its enforcement on other queries is not.
- Real time in timeouts: a timeout of the queue drain is a number of worker rounds, of a write a failure.
- Deletion of a tenant's rows, partial ClickHouse inserts, background merges (FINAL hides them).
- Annotation listing, window parsing, handler validation, single trace detail: straight-line code.
- Rendering of OTLP attribute values and log bodies as text: both arrive rendered.
- Concurrent migration runners, the readiness wait, the database name check, a locale in which `sort` is
  not by character code, and version names that a regular expression would not match literally.
- Case folding and blanks outside ASCII in the command palette; building its items.
- EngineObject.Engine.RunBucket: attempts the tenants one after the other; that their order and
  interleaving do not matter is EngineRuns.Confluence, not a statement about this method.
- Metering.Meterer.Drain: the worker's rounds run inside the call, as many as the patience allows;
  interleavings with other callers are Metering.EveryState.
- Annotations.AnnotationsRepo.OtherSessions: stands for whatever other sessions may do, bounded by what
  Annotations.EveryRun proves of them.
- GapFreedom.Setup.NoGap: one process per deployment; two engines running at once are covered by
  EngineRuns.Confluence only.
