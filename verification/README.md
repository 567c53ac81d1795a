# SentinelFS: a verified model

SentinelFS keeps files as replicated chunks on data nodes.  A metadata server places the chunks, watches the health of
the nodes, predicts failures and moves chunks off nodes it considers critical.  This project models that system in Dafny
and proves what it guarantees, what it does not, and which conditions make the difference.

| file | what it holds |
|---|---|
| `Common.dfy` | constants, statuses, chunk identifiers |
| `Cluster.dfy` | the metadata (nodes, replica lists) as a value, every operation on it as a function |
| `ChunkManager.dfy`, `Migrator.dfy` | the chunk manager and the migration engine as the mutable objects they are |
| `Protocol.dfy` | the cluster as a labelled transition system: uploads, health changes and any number of migrations interleave step by step, with the disks of the nodes |
| `ProtocolInvariant.dfy`, `ProtocolTheorems.dfy`, `ProtocolTargets.dfy`, `ProtocolWitnesses.dfy` | the inductive invariant, what holds in every run and the exact steps at which it stops holding, which nodes are ever given a chunk, and concrete runs that show both sides |
| `MigrationRun.dfy` | an undisturbed `MigrateNode` is a run of that transition system |
| `Placement.dfy` | load balance and replica counts of whole allocations |
| `Windows.dfy`, `Monitor.dfy` | sliding windows and health reports |
| `Regression.dfy`, `Predictor.dfy`, `RiskTheorems.dfy`, `PredictionTheorems.dfy` | least squares, volatility, risk score, status, the theorems about them, and what a prediction says in terms of the reports |
| `Paths.dfy`, `Namespace.dfy`, `NamespaceTree.dfy` | path strings, the namespace as a flat map, and the heap tree that refines it |
| `FileSystem.dfy`, `FileTheorems.dfy`, `FileLives.dfy` | put and delete as joint steps over namespace and cluster, referential integrity, survival of files, and when the steps may be split |
| `Transfer.dfy`, `RoundTrip.dfy`, `RoundTripWitness.dfy` | the client's chunking and reassembly, the end-to-end round trip, and a complete run, with a migration, that meets its hypotheses |
| `ChunkStore.dfy` | a data node's chunk store over an abstract disk, and the transfer between two stores |
| `Handlers.dfy`, `Server.dfy` | what the metadata server's handlers may do and answer, the handlers themselves, and the prediction tick |

## How the source is read

- Each call that takes one lock is one atomic step.  In a migration, reading the replica list, choosing the target, the
  transfer, `AddChunkToNode` and `RemoveChunkFromNode` are separate steps; anything may happen in between.
- The list that `GetChunkMeta` returns is taken as a copy.  In the source it shares its backing array with the manager.
- Put and delete handlers are one step each in `FileSystem.dfy`.  In the source they are two locked calls;
  `FileTheorems.SplitDeleteIff`, `PutInDeleteIff` and `DeleteInPutIff` say exactly when the gap between the two calls
  is harmless.
- A chunk identifier is a function of path and index, so deleting a file and putting it again gives its chunks the same
  identifiers.  The theorems therefore speak of the lives of a chunk: a life begins with an allocation while no
  migration has the chunk and no node outside the new targets lists it, and ends with the next allocation or drop
  (`ProtocolTheorems.CleanIff`).  A chunk that is put, deleted at rest and put again
  lives again (`ProtocolTheorems.OrderlyIsClean`).
- Times are integer milliseconds and floating-point numbers are exact reals.  Sizes and counters are unbounded integers.
- The truncated SHA-256 behind chunk identifiers is a function parameter, assumed free of collisions only where a
  theorem says so (`CollisionFree`); checksums likewise (`Distinguishes`).  The square root is a parameter with its
  defining property (`IsSqrt`).  The network's answers, the clock, read sizes, the order of map iteration and the
  completion order of parallel fetches are arbitrary inputs or choices.
- Every lemma carries `{:induction false}`: its proof is its body.

## Where the documentation and the code differ

- "Replication factor is maintained even after migration" (docs/architecture.md:100) fails when two concurrent
  migrations of a chunk pick the same target: `ProtocolWitnesses.SharedTargetLosesReplica` ends with two replicas of
  three.  `ProtocolTheorems.ReplicationKeptIffNothingAbsorbed` gives the exact condition,
  `ProtocolTheorems.DistinctTargetsKeepReplication` one that a scheduler can enforce.
- An hour of reports five seconds apart is 721 points, not 720 (docs/design-decisions.md:44): both ends of the
  window are kept (`Windows.HourOfReports`).
- A file can be created under a path that a lookup of the same path does not find.  `Paths.KeysAgreeIff` says exactly
  for which paths the two agree.
- A larger current value can lower a risk score; `RiskTheorems.ScoreDropsIff` says exactly when.  A node with five
  metrics at their worst is never critical as long as nothing changes (`RiskTheorems.SteadyBoundIsReached`).
- A chunk store counts the bytes of a chunk again when it is stored over, and deleting it later does not mend that:
  `ChunkStores.UsageIsTrueIff` gives the exact condition, `ChunkStores.StoreTwice` a case.
- Recorded chunk sizes are the true ones exactly when every read filled the buffer (`Transfers.RecordedSizesAreTrueIff`); their
  sum is the file size under a weaker condition (`Transfers.RecordedSumIsTrueIff`).
- The two directions of the chunk index disagree only after a late Add for a chunk that is gone, or an allocation that
  passes over a node which still lists the chunk (`ProtocolTheorems.IndexBreaksIff`).

## Model

| member | source | states |
|---|---|---|
| Common.RiskToStatus | internal/common/config.go:45-56 | the cut-offs of the four statuses at 0.25, 0.45 and 0.55, in both directions |
| Common.ChunkKeyInjective | internal/common/utils.go:11-15 | the text hashed into a chunk identifier determines path and index, even for paths that contain the separator |
| Common.ChunkIDInjective | internal/common/utils.go:11-15 | without collisions, equal chunk identifiers mean equal path and equal index |
| Cluster.RegisteredNameIsOwnerOrFresh | internal/metaserver/chunk_manager.go:52-77 | a registration answers with the node that already has the address, or with a name no node has |
| Cluster.RegisterEffect | internal/metaserver/chunk_manager.go:52-77 | a known address has its heartbeat refreshed and nothing else; a new one gets a healthy entry without risk or chunks |
| Cluster.RegisterKeepsRegistry | internal/metaserver/chunk_manager.go:57-73 | registration keeps the names exactly node-1 .. node-n with pairwise distinct addresses |
| Cluster.LocationsComplete | internal/metaserver/chunk_manager.go:203-237 | locating a file succeeds iff every chunk exists and has a replica that is not DEAD; answers come in request order |
| Cluster.LocationsFailEarly | internal/metaserver/chunk_manager.go:203-237 | the first chunk that cannot be located decides the error |
| Cluster.PlaceKeepsValid | internal/metaserver/chunk_manager.go:134-168 | placing a chunk keeps the registry and the replica lists duplicate-free, registered and indexed |
| Cluster.DropKeepsValid | internal/metaserver/chunk_manager.go:248-273 | so does removing a chunk |
| Cluster.AddKeepsValid | internal/metaserver/chunk_manager.go:375-391 | so does adding a replica on a registered node |
| Cluster.RemoveKeepsValid | internal/metaserver/chunk_manager.go:394-409 | so does removing a replica |
| ChunkManagers.ChunkManager.constructor | internal/metaserver/chunk_manager.go:44-49 | a new manager is valid and empty |
| ChunkManagers.ChunkManager.RegisterNode | internal/metaserver/chunk_manager.go:52-77 | re-registration of an address refreshes its node, a new address gets the next free name; registry kept |
| ChunkManagers.ChunkManager.UpdateHeartbeat | internal/metaserver/chunk_manager.go:80-100 | a known node shows the new heartbeat and usage, and if it was DEAD is HEALTHY without risk; an unknown one is reported; nothing else changes |
| ChunkManagers.ChunkManager.UpdateNodeHealth | internal/metaserver/chunk_manager.go:103-113 | status and risk of a known node become the given ones, nothing else changes |
| ChunkManagers.ChunkManager.CheckDeadNodes | internal/metaserver/chunk_manager.go:342-355 | exactly the nodes not DEAD and silent for more than 15 seconds are reported and become DEAD, all else stays |
| ChunkManagers.ChunkManager.GetHealthyNodes | internal/metaserver/chunk_manager.go:329-339 | exactly the HEALTHY or WARNING nodes heard of less than 15 seconds ago, each once |
| ChunkManagers.ChunkManager.SortCandidates | internal/metaserver/chunk_manager.go:187-193 | a reordering of the candidates in which no later one is preferable to an earlier one |
| ChunkManagers.ChunkManager.SelectNodes | internal/metaserver/chunk_manager.go:184-200 | min(count, candidates) distinct nodes; none is riskier than a candidate left out, nor fuller at the same risk |
| ChunkManagers.ChunkManager.AllocateChunks | internal/metaserver/chunk_manager.go:116-172 | fails iff no node is HEALTHY or WARNING and recent, and then changes nothing; else chunk i gets its identifier and a best pick at its moment: three distinct such nodes, or all of them if there are fewer, with their addresses |
| ChunkManagers.ChunkManager.GetChunkLocations | internal/metaserver/chunk_manager.go:203-237 | succeeds iff every chunk has a listed node that is not DEAD, and answers in order with exactly those nodes and their addresses; else the error of the first chunk without one |
| ChunkManagers.ChunkManager.GetChunkMeta | internal/metaserver/chunk_manager.go:286-292 | the record of an existing chunk, nothing for a missing one |
| ChunkManagers.ChunkManager.GetChunksOnNode | internal/metaserver/chunk_manager.go:358-372 | the chunks of the node, each once; none for an unknown node |
| ChunkManagers.ChunkManager.GetHealthyNodeAddresses | internal/metaserver/locator_adapter.go:30-51 | exactly the HEALTHY or WARNING nodes outside the exclusion list, each with its own address |
| ChunkManagers.ChunkManager.GetNodeAddress | internal/metaserver/locator_adapter.go:61-66 | the address of a known node |
| ChunkManagers.ChunkManager.AddChunkToNode | internal/metaserver/chunk_manager.go:375-391 | both directions of the index are updated and no replica is listed twice |
| ChunkManagers.ChunkManager.RemoveChunkFromNode | internal/metaserver/chunk_manager.go:394-409 | the node leaves the replica list and the chunk leaves the node |
| ChunkManagers.ChunkManager.RemoveChunks | internal/metaserver/chunk_manager.go:248-273 | every listed chunk leaves the map and all nodes that held it; unknown ones are skipped |
| ChunkManagers.WithoutFirst | internal/metaserver/chunk_manager.go:402-407 | the list without the first occurrence of a node |
| Placement.AllocationBalances | internal/metaserver/chunk_manager.go:120-153 | over equally risky nodes, any number of fresh chunks keeps the spread of chunk counts within max(previous, 1) |
| Placement.AllocationReplicates | internal/metaserver/chunk_manager.go:120-153 | every chunk gets distinct candidates: all of them if there are at most three, exactly three otherwise |
| Migrators.Migrator.MigrateChunk | internal/health/migrator.go:167-234 | an event is a success iff there was metadata, a target and a transfer; a target was HEALTHY or WARNING and unlisted; none is found iff every unlisted node is AT_RISK, CRITICAL or DEAD; metadata changes only on success |
| Migrators.Migrator.MigrateNode | internal/health/migrator.go:79-164 | refused iff the node is being migrated; else one explained event per chunk, with targets as the metadata before the run say, migrated + failed = total, failed = the chunks whose event failed, risk and status of the prediction, guard released, history extended; an address is always found |
| Migrators.Migrator.MigrateAll | internal/health/migrator.go:137-146 | one event per chunk in order; the counters add up to the number of events |
| Migrators.RunTargets | internal/health/migrator.go:183-192 | in a run of its own every event names a HEALTHY or WARNING unlisted target, or reports that there is none, as the metadata before the run say |
| Migrators.DrainLeavesFailedChunks | internal/health/migrator.go:137-146 | with no other change, the source ends with exactly the chunks whose migration failed |
| Migrators.SuccessReplacesSource | internal/health/migrator.go:219-221 | with no other change, a success replaces the source by the target in the replica list |
| MigrationRuns.MigrateNodeIsRun | internal/health/migrator.go:79-234 | an undisturbed MigrateNode is a feasible run of the protocol with the same final metadata, and it can finish |
| ProtocolInvariant.StepKeeps | internal/health/migrator.go:111-221 | every step of every process keeps the invariant: of the migrations that added, the latest reader's target is listed and is no source still to be removed |
| ProtocolInvariant.RunInv | internal/health/migrator.go:80-93 | so the invariant holds in every reachable state |
| ProtocolTheorems.CleanIff | internal/metaserver/chunk_manager.go:155-161 | read off the run: a chunk is in a clean life iff its latest allocation began one and no drop followed |
| ProtocolTheorems.OrderlyIsClean | internal/metaserver/server.go:98-202 | a chunk that is only allocated while it does not exist and only dropped while no migration has it is clean whenever it exists, in every life |
| ProtocolTheorems.ReplicasNeverEmpty | internal/health/migrator.go:175-221 | no interleaving of migrations ever empties the replica list of a chunk in any of its lives |
| ProtocolTheorems.EmptiedIff | internal/metaserver/chunk_manager.go:394-409 | the only step that empties a replica list is a source leaving that is listed alone |
| ProtocolTheorems.ListedNodesHoldFile | internal/datanode/server.go:244-279 | once its upload is complete, every node listed for a chunk has a file of it, in any of its lives |
| ProtocolTheorems.ListedNodesHoldContent | internal/datanode/server.go:244-279 | and the file holds the uploaded bytes if no other bytes existed for the chunk when it was allocated |
| ProtocolTheorems.LocationsStayGood | internal/metaserver/chunk_manager.go:203-237 | a node listed at a lookup still holds those bytes later, deletions included, unless the chunk is allocated again |
| ProtocolTheorems.ReplicaListsIndexed | internal/metaserver/chunk_manager.go:375-409 | in every run every replica list is duplicate-free, names registered nodes, and each of them lists the chunk |
| ProtocolTheorems.IndexAgrees | internal/metaserver/chunk_manager.go:375-409 | for a chunk in any of its lives the two directions of the index agree |
| ProtocolTheorems.IndexBreaksIff | internal/metaserver/chunk_manager.go:155-161 | a step makes them disagree iff it is a late Add for a chunk that is gone or an allocation that passes over a node which lists the chunk |
| ProtocolTheorems.IndexAgreesUnlessBroken | internal/metaserver/chunk_manager.go:375-409 | so without such a step they agree, for every chunk, clean or not |
| ProtocolTheorems.ReplicaConservation | internal/health/migrator.go:183-221 | in any life of a chunk, replicas = initial + migrations between add and remove - adds that found their target listed |
| ProtocolTheorems.ReplicationKeptIffNothingAbsorbed | docs/architecture.md:100 | at rest the replication factor is kept iff no add found its target already listed |
| ProtocolTheorems.DistinctTargetsKeepReplication | internal/health/migrator.go:183-194 | it is kept when no migration of the chunk picks a target another migration of the same chunk is heading for; other chunks do not matter |
| ProtocolTheorems.AllocatedOnceIsClean | internal/metaserver/server.go:101 | a chunk allocated once and never dropped is in a clean life, with the bytes of that allocation and no others |
| ProtocolTargets.OnlyGoodNodesAreGiven | internal/metaserver/chunk_manager.go:329-339 | no allocation or choice of target in any run gives a chunk to a node that is AT_RISK, CRITICAL or DEAD at that step |
| ProtocolTargets.ListedWasGood | internal/metaserver/locator_adapter.go:30-51 | in every run, whoever is on a replica list was chosen for it by an allocation or a migration, and was HEALTHY or WARNING then |
| ProtocolTargets.UploadWaits | internal/client/transfer.go:74-98 | a replica stays outstanding until a store of it is acknowledged |
| ProtocolWitnesses.SharedTargetLosesReplica | internal/health/migrator.go:183-194 | a reachable state in which two migrations with one target have turned three replicas into two for good |
| ProtocolWitnesses.DropDuringMigrationDanglesIndex | internal/metaserver/chunk_manager.go:375-391 | a reachable state in which a node lists a chunk that was deleted during its migration |
| ProtocolWitnesses.SecondLifeIsClean | internal/metaserver/chunk_manager.go:155-161 | a reachable state in which a chunk that was put, deleted at rest and put again exists in a clean life |
| ProtocolWitnesses.PutAgainCanEmptyReplicas | internal/metaserver/chunk_manager.go:155-161 | a reachable state in which a path put again during migrations has a chunk without replicas |
| Windows.SlidingWindow.Add | internal/health/metrics.go:52-58 | the window is the function of its history that the theorems below describe |
| Windows.SlidingWindow.EvictBefore | internal/health/metrics.go:117-126 | exactly the leading points older than the cutoff go |
| Windows.SlidingWindow.Values | internal/health/metrics.go:71-80 | the values of the points, in order |
| Windows.SlidingWindow.Latest | internal/health/metrics.go:90-98 | the value of the last point ever added, 0 if there was none, whatever was evicted and in whatever order timestamps came |
| Windows.SlidingWindow.Mean | internal/health/metrics.go:101-114 | the number that times the count gives the sum; 0 if empty |
| Windows.NewestIsKept | internal/health/metrics.go:52-58 | whatever the order of timestamps, the point just added is in the window |
| Windows.WindowsNest | internal/health/metrics.go:161-173 | whatever the order of timestamps, a shorter window is a suffix of a longer one |
| Windows.WindowIsRecentHistory | internal/health/metrics.go:117-126 | with timestamps that never fall, the window is exactly the history of the last duration |
| Windows.WindowSizeBound | docs/design-decisions.md:44 | with reports at least d apart a window holds at most duration / d + 1 points |
| Windows.WindowSizeIsExact | docs/design-decisions.md:44 | with reports evenly d apart it holds exactly min(reports, duration / d + 1) points |
| Windows.HourOfReports | docs/design-decisions.md:44 | an hour of reports five seconds apart is 721 points |
| Windows.WindowTimes | internal/health/metrics.go:161-173 | the timestamps in a window do not depend on the values |
| Monitors.NodeMetrics.Record | internal/health/metrics.go:161-173 | one metric's history grows by one point in all three windows, the others stay |
| Monitors.Monitor.constructor | internal/health/monitor.go:29-34 | a new monitor knows no node |
| Monitors.Monitor.IngestReport | internal/health/monitor.go:42-76 | the report joins those of its node; the windows of every node stay those of the series of its own reports |
| Monitors.Monitor.GetOrCreate | internal/health/metrics.go:211-221 | an existing node's metrics or new, empty ones |
| Monitors.WindowsInLockstep | internal/health/monitor.go:42-65 | all six metric windows of one duration hold the same timestamps |
| Monitors.ErrorsTelescope | internal/health/monitor.go:55-65 | the error samples add up to last minus first iff the counter never fell, and to more otherwise |
| Regression.LinearRegressionSlope | internal/health/predictor.go:198-225 | the computed slope is the least-squares slope for every choice of the time origin |
| Regression.NumeratorIsPairSum | internal/health/predictor.go:217-223 | the numerator is the sum over pairs of time difference times value difference |
| Regression.DenominatorIsPairSum | internal/health/predictor.go:217-218 | the denominator is the sum over pairs of squared time differences |
| Regression.GuardFiresIffTimesCoincide | internal/health/predictor.go:219-221 | with millisecond timestamps the guard fires exactly when all timestamps coincide |
| Regression.LeastSquares | internal/health/predictor.go:196-225 | otherwise no line has a smaller squared error than the slope with its intercept |
| Regression.SlopeSign | internal/health/predictor.go:165-175 | a metric that never falls has no negative slope, one that never rises no positive one |
| Regression.SlopeOfLine | internal/health/predictor.go:198-225 | data on a line give back the slope of the line |
| Regression.SlopeIgnoresDisplacement | internal/health/predictor.go:204-210 | neither the origin of time nor a constant added to all values changes the slope |
| Predictor.ComputeVolatility | internal/health/predictor.go:228-248 | the sample standard deviation: its square times n (n - 1) is the sum over pairs of squared differences; 0 below two values |
| Predictor.VolatilityIsPairSum | internal/health/predictor.go:228-248 | the same for the function that the theorems speak of |
| Predictor.VolatilitySign | internal/health/predictor.go:228-248 | it is never negative, and zero exactly when all values are equal |
| Predictor.AnalyzeMetric | internal/health/predictor.go:132-194 | the analysis of a metric is a function of the contents of its short and medium windows |
| Predictor.CombineRisks | internal/health/predictor.go:147-191 | the capped and weighted combination of value, trend and volatility risk |
| Predictor.PredictNode | internal/health/predictor.go:79-129 | the prediction is a function of the reports the node has sent, with the status of its overall risk; none without reports |
| RiskTheorems.ScoreUnclamped | internal/health/predictor.go:149-191 | for a current value that is not negative the clamp of the metric score does not fire |
| RiskTheorems.OverallIsWeightedMean | internal/health/predictor.go:110-117 | the weights add up to one and the overall clamp never fires |
| RiskTheorems.ScoreMonotone | internal/health/predictor.go:165-191 | a steeper trend or larger volatility never lowers a score |
| RiskTheorems.SwitchGainsIff | internal/health/predictor.go:185-191 | the weights above the 0.7 mark give the higher score iff 4 value >= 3 trend + volatility |
| RiskTheorems.ScoreDropsIff | internal/health/predictor.go:185-191 | a larger value lowers the score exactly across the 0.7 mark and when 12 new - 8 old value risk < 3 trend + volatility risk |
| RiskTheorems.ScoreDrop | internal/health/predictor.go:185-191 | and then by less than 0.06 |
| RiskTheorems.DropIsSharp | internal/health/predictor.go:185-191 | falls arbitrarily close to 0.06 do occur |
| RiskTheorems.NeverRisingHasNoTrend | internal/health/predictor.go:165-175 | a metric that never rises over its trend window is scored as if it had no trend |
| RiskTheorems.CriticalNeedsThreeMetrics | internal/health/predictor.go:13-20 | a critical node has at least three metrics at risk |
| RiskTheorems.SteadyNodeIsNeverCritical | internal/health/predictor.go:79-129 | a node whose reports stay the same has risk at most 0.45, however bad they are |
| RiskTheorems.LatelySteadyNodeIsNotCritical | internal/health/predictor.go:79-129 | it is enough that the reports have stayed the same since before the 15-minute window |
| RiskTheorems.SteadyBoundIsReached | internal/health/predictor.go:79-129 | and exactly 0.45 when its five metrics are at or beyond their thresholds |
| PredictionTheorems.WindowsUsed | internal/health/predictor.go:136-171 | a metric is judged iff the two latest reports are within 5 minutes; its slope is that of the last 15 minutes iff they hold three reports, else of the last 5 |
| PredictionTheorems.MeanOfRecent | internal/health/predictor.go:143-145 | the mean value is that of the last 5 minutes |
| PredictionTheorems.MeanTimesCount | internal/health/metrics.go:101-114 | and a mean times the number of values is their sum |
| PredictionTheorems.CurrentValues | internal/health/monitor.go:42-76 | the current value of each metric is its field of the latest report; for errors, the rise of the counter, 0 if it fell |
| PredictionTheorems.ComponentsInNumbers | internal/health/predictor.go:149-183 | value, slope times 60 and twice the volatility, as shares of the threshold capped at 1; no trend risk without a rise |
| PredictionTheorems.FlatIsReasonIff | internal/health/predictor.go:105-108 | a metric flat over 15 minutes is a reason exactly from its threshold up |
| PredictionTheorems.SteadyReasons | internal/health/predictor.go:24-31 | for a steady node the limits are 50, 0.90, 30, 0.90 and 0.90, and errors are never a reason |
| PredictionTheorems.SteadyErrors | internal/health/predictor.go:24-31 | errors that keep coming are a reason exactly from five per report up |
| Paths.SplitOfJoin | internal/metaserver/namespace.go:243-245 | joining and splitting components are inverse, for components without slashes |
| Paths.CreateKeyParts | internal/metaserver/namespace.go:211-247 | where creation puts a path, in terms of its components |
| Paths.GetKeyParts | internal/metaserver/namespace.go:250-257 | where lookup looks for a path, in terms of its components |
| Paths.KeysAgreeIff | internal/metaserver/namespace.go:181-257 | creation and lookup agree on a path exactly under a condition on its last components |
| Paths.LeadingSlashIsIgnored | internal/metaserver/namespace.go:238 | paths that differ in a leading slash share a position |
| Namespaces.FilesAreLeaves | internal/metaserver/namespace.go:219-232 | no file is a proper prefix of any other entry |
| Namespaces.CreateAddsOneFile | internal/metaserver/namespace.go:47-74 | a successful create changes the map of files in one position and keeps the tree well formed |
| Namespaces.CreateAddsDirs | internal/metaserver/namespace.go:211-234 | besides the file a create adds exactly the missing directories on its path and changes no other entry |
| Namespaces.CreateFailsIff | internal/metaserver/namespace.go:47-74 | a create fails exactly for the empty path, below a file, and onto a directory, each with its own error |
| Namespaces.StoppedBeforeCreating | internal/metaserver/namespace.go:219-232 | when the walk meets a file, nothing has been created yet |
| Namespaces.ReachedDir | internal/metaserver/namespace.go:56-66 | nor has it when the walk ends at a directory of that name |
| Namespaces.GetFindsIff | internal/metaserver/namespace.go:77-89 | a lookup finds exactly the files, and tells directories from missing entries |
| Namespaces.CreateThenGet | internal/metaserver/namespace.go:47-89 | a lookup after a create finds the file exactly when the path's components are agreeable |
| Namespaces.CreateThenDelete | internal/metaserver/namespace.go:47-117 | a delete after a create always gives the meta data back |
| Namespaces.DeleteSucceedsIff | internal/metaserver/namespace.go:92-117 | a delete succeeds exactly where there is a file; which of the five errors it fails with otherwise |
| Namespaces.DeleteRemovesOneFile | internal/metaserver/namespace.go:92-117 | it takes that file away and nothing else |
| Namespaces.CreateElsewhere | internal/metaserver/namespace.go:47-89 | lookups of other positions are unaffected, except that a missing entry may have become a directory |
| NamespaceTrees.Namespace.constructor | internal/metaserver/namespace.go:36-44 | the tree starts with an empty root |
| NamespaceTrees.Namespace.CreateFile | internal/metaserver/namespace.go:47-74 | refines the create of the flat map, all errors included; a failing create leaves the whole tree unchanged |
| NamespaceTrees.Namespace.GetFile | internal/metaserver/namespace.go:77-89 | refines its lookup |
| NamespaceTrees.Namespace.DeleteFile | internal/metaserver/namespace.go:92-117 | refines its delete |
| NamespaceTrees.Namespace.Resolve | internal/metaserver/namespace.go:181-193 | finds the entry at a position iff there is one |
| NamespaceTrees.Namespace.ResolveDir | internal/metaserver/namespace.go:196-208 | finds directories only |
| NamespaceTrees.Namespace.MkdirAll | internal/metaserver/namespace.go:211-234 | all directories exist afterwards, or a file blocks the way and nothing changed |
| FileSystems.ReferentialIntegrity | internal/metaserver/server.go:98-202 | in every reachable state every file has all its chunks in the chunk manager and sits where its path says |
| FileSystems.PutKeepsIntact | internal/metaserver/server.go:98-141 | a put keeps that, overwriting and refused puts included |
| FileSystems.DeleteKeepsIntact | internal/metaserver/server.go:190-202 | a delete keeps that: no other file shares a chunk |
| FileSystems.ChunksApart | internal/common/utils.go:11-15 | files in different positions share no chunk |
| FileSystems.RunsAreClusterRuns | internal/metaserver/server.go:98-202 | a run of requests is a run of the cluster, so the protocol's theorems apply |
| FileTheorems.FileSurvives | internal/health/migrator.go:175-221 | a file put once and not deleted keeps a replica of every chunk, and its listed replicas hold the bytes of the put |
| FileTheorems.AllocationIsRun | internal/metaserver/chunk_manager.go:116-172 | the allocation of a whole file is a run of allocation steps |
| FileTheorems.PutThenGet | internal/metaserver/server.go:98-188 | an accepted put is seen by a get of an agreeable path, with every chunk on exactly the nodes chosen |
| FileLives.FilesKeepReplicas | internal/metaserver/server.go:98-202 | however often its path is deleted and put again: if each put found the chunk gone and each delete found it at rest, a chunk of a file has a replica and its index agrees |
| FileTheorems.LateDropsIff | internal/metaserver/server.go:197 | in any state, removing the chunks of a path late harms exactly the files of that path that have chunks |
| FileTheorems.SplitDeleteIff | internal/metaserver/server.go:190-198 | with any requests between the two halves of a delete, integrity survives iff no file of that path has chunks by then |
| FileTheorems.PutInDeleteIff | internal/metaserver/server.go:190-198 | with one put in between, iff the paths differ or one of the two files has no chunks |
| FileTheorems.DeleteInPutIff | internal/metaserver/server.go:101-123 | with a delete between the two halves of a put, iff it is refused, or the paths differ, or one of the two files has no chunks |
| FileTheorems.SplitDeleteDangles | internal/metaserver/server.go:190-198 | otherwise the new file is left without its chunks |
| Servers.Server.PutFile | internal/metaserver/server.go:98-141 | allocation, then creation; a refused put leaves its chunks allocated and the namespace alone |
| Servers.Server.GetFile | internal/metaserver/server.go:143-188 | success iff the lookup finds a file and every chunk has a listed node that is not DEAD; then the meta data, the record of every chunk, and for every chunk in order exactly those nodes; else the first error |
| Servers.Server.DeleteFile | internal/metaserver/server.go:190-202 | the file leaves the namespace and its chunks leave the chunk manager, or nothing changes |
| Servers.PutMeans | internal/metaserver/server.go:98-141 | after an accepted put the file is in its position with what the request said, and every chunk has its identifier, size and nodes |
| Servers.DeleteMeans | internal/metaserver/server.go:190-202 | an accepted delete takes away one file and exactly its chunks; a refused one changes nothing |
| Servers.PutIsStep | internal/metaserver/server.go:98-141 | whatever the put handler does and answers (its contract, `PutHandled`) is the put step of the file system, or no change without healthy nodes |
| Servers.DeleteIsStep | internal/metaserver/server.go:190-202 | whatever the delete handler does and answers (its contract, `DeleteHandled`) is the delete step, refused deletes included |
| Servers.PredictAll | internal/health/predictor.go:65-76 | one prediction for each monitored node |
| Servers.PredictionTick | internal/metaserver/server.go:417-445 | every known node with a prediction shows its status and risk, all else stays; migrations start for exactly the critical ones |
| Servers.SteadyNodeIsNotTriggered | internal/metaserver/server.go:424 | no tick starts a migration of a node whose reports stay the same, or have since before the 15-minute window |
| Transfers.ReadAndChunkFile | internal/client/transfer.go:40-60 | however the reads are cut, the chunks are non-empty, fit the buffer, and concatenate to the file |
| Transfers.RecordedSizesAreTrueIff | internal/metaserver/chunk_manager.go:134-140 | the recorded chunk sizes are the true ones exactly when all reads but the last filled the buffer |
| Transfers.RecordedSumIsTrueIff | internal/metaserver/chunk_manager.go:134-140 | their sum is the file size exactly when no chunk is recorded as starting behind the end of the file, full reads included, and less otherwise |
| Transfers.UploadChunk | internal/client/transfer.go:74-88 | replicas are sent in order up to the first failure |
| Transfers.UploadChunks | internal/client/transfer.go:64-98 | success iff every replica of every chunk was acknowledged |
| Transfers.FetchChunkFromNodes | internal/client/transfer.go:181-194 | the answer of the first node that answers; nothing iff none does |
| Transfers.AnyAnswerWillDo | internal/client/transfer.go:181-194 | if all answers agree, any pattern of failures but a total one gives that answer |
| Transfers.SortByIndex | internal/client/transfer.go:169-171 | a reordering sorted by index |
| Transfers.SortedIsUnique | internal/client/transfer.go:169-171 | with distinct indices the sorted list is determined by its elements |
| Transfers.DownloadChunks | internal/client/transfer.go:133-178 | fails iff a chunk cannot be fetched; else the chunks in index order, for every completion order |
| RoundTrips.ListedNodeKeepsBytes | internal/datanode/server.go:219-232 | a node listed at the lookup can serve the bytes of the put at any later time |
| RoundTrips.RoundTrip | internal/client/transfer.go:133-178 | the download returns the original bytes exactly when every chunk has a listed node that answers, through any migrations |
| RoundTrips.FoundByPath | internal/metaserver/namespace.go:47-89 | a file alone in its position is found under its path at any later time |
| RoundTrips.EndToEnd | internal/client/transfer.go:20-194 | put, upload, migrations, get by path, download: the get handler succeeds iff every chunk has a listed node that is not DEAD, and from the locations of its answer the original bytes come back iff each chunk has a node that answers |
| RoundTripWitness.RoundTripHappens | internal/client/transfer.go:20-194 | for every agreeable path and all bytes of one chunk there is a run that meets these hypotheses and moves the chunk to a node it was not put on |
| RoundTrips.Download | internal/client/transfer.go:133-178 | the client's download of such a file returns the original bytes or fails |
| ChunkStores.ChunkStore.constructor | internal/datanode/store.go:31-48 | a restart knows exactly the readable chunk files, with true accounting |
| ChunkStores.ChunkStore.LoadExisting | internal/datanode/store.go:169-201 | the records are rebuilt from the directory |
| ChunkStores.ChunkStore.StoreChunk | internal/datanode/store.go:51-79 | succeeds iff checksum and write are good; failures leave the records alone, a mismatch the disk too; a true usage counter stays true iff no bytes were stored over |
| ChunkStores.ChunkStore.GetChunk | internal/datanode/store.go:82-108 | returns what was stored or an error, whatever has become of the disk |
| ChunkStores.ChunkStore.DeleteChunk | internal/datanode/store.go:111-129 | record and file go together; a file already gone is no obstacle |
| ChunkStores.DriftOfChange | internal/datanode/store.go:68-75 | what one store or delete adds to the error of the usage counter: the bytes stored over |
| ChunkStores.UsageIsTrueIff | internal/datanode/store.go:68-75 | over any history from a true counter it never reports too little, and is true iff no store met bytes of the same chunk |
| ChunkStores.StoreTwice | internal/datanode/store.go:68-75 | a chunk delivered twice is counted twice |
| ChunkStores.ChunkStore.SoundAfterStore | internal/datanode/store.go:51-79 | a store keeps the files of all other chunks intact |
| ChunkStores.TransferChunk | internal/datanode/server.go:244-279 | a transfer succeeds iff read, connection, write and answer do; then the target has the source's bytes |

## Left out

- gRPC, protobuf, dialling, timeouts, HTTP admin servers, the command line, dashboards, logging and reason strings: plumbing and user interface.  A prediction keeps the list of metrics that would get a reason.
- `internal/datanode/health.go`: reports are arbitrary inputs.
- Recovery: `GetUnderReplicatedChunks` is never called to repair anything, so there is no re-replication to prove.
- ListDir, FileExists, GetAllFiles, ListFiles, GetFileInfo, cluster statistics and migration history queries: read-only, and easy beside the lookups that are modelled.
- UpdateChunkChecksum: nothing calls it; the checksum and creation time of chunk and file records are not modelled beyond the checksum a put passes in.
- ChunkMeta and DataNodeInfo: records in maps updated as values; the source shares pointers to them, and the sharing of the slice that `GetChunkMeta` returns is not modelled.
- ChunkManagers.ChunkManager.AllocateChunks: a negative chunk count, which makes the source panic, is not modelled; the count is a natural number.
- ChunkManagers.ChunkManager.RemoveChunks: the list of addresses it returns is not modelled; the only caller ignores it.
- ChunkManagers.ChunkManager.SortCandidates: stands for the library's sort, as an insertion sort.
- Transfers.SortByIndex: stands for the library's sort, as an insertion sort on a value rather than in place.
- Transfers.UploadChunks: the chunks are sent one after the other; uploads that overlap are steps of `Protocol.dfy`.
- Transfers.ReadAndChunkFile: a read error, which ends the command with no request sent, is not modelled.
- Migrators.Migrator.MigrateNode: the class runs undisturbed; interleaved runs are those of `Protocol.dfy`.
- NodeMetrics.GetWindow: window names are replaced by the three fields.
- Paths: strings are sequences of characters; the byte encoding of paths is not modelled.
- ChunkStores.ChunkStore.StoreChunk: chunk identifiers are taken as file names as they are; `filepath.Join` would fold separators in them, which hexadecimal identifiers do not have.
- Servers.Server.GetFile: the lookup runs undisturbed; in the source a delete between its GetChunkLocations and GetChunkMeta calls (internal/metaserver/server.go:156-163) leaves `cm` nil and the handler panics.
- Servers.PredictionTick: a migration is started by naming its node; that it then runs concurrently is `Protocol.dfy`'s `Begin` step.
