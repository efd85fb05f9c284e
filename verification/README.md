# The build pool and its cache, verified

This project models the core of the `worker` package and proves what its comments, tests and callers rely on. It covers four
components and the plain checks they have to agree with.

**The build pool.** One coordinator schedules derivations on itself and on up to three helpers (`schedule`), talks to each helper
through mailboxes that may lose entries or return old ones (`poolBus.read`), and follows a task until its result is verified
(`remoteTask`); a helper is the loop `servePoolBuilder`. `Names`, `Graph`, `Planner` and `Scheduling` hold the graph algorithms
behind the schedule. `Schedule` is the scheduler as a step relation over the loop's variables, and `Scheduler` the loop itself as
a class whose methods are proved to make exactly those steps. `ScheduleTurns` says in terms of the loop's variables alone what one
turn decides, and `ScheduleHistory` what the tables of the loop say about the steps so far. `Mailbox`, `Builder` and `Remote` are the other parties, again as
classes proved against functions; `Protocol` puts one helper slot together: coordinator, any number of helper incarnations, lossy
mailboxes, clocks. `Envelopes` justifies the mailboxes: an authenticated read of any store is such a read. `BuilderRuns` says when a
helper leaves, over whole runs, and `ProtocolProgress` that a task comes back as an accepted result. `Pool` runs the scheduler and all slots together, so that the order the scheduler keeps is a statement about
what helpers really execute.

**The catalog.** `Catalog` defines nodes, the validator's checks and the path semantics; `Partition` the split by hash digits;
`CatalogPublish` the upload from the leaves up; `CatalogOpen`, `CatalogRecords`, `CatalogWalk` and `CatalogViews` opening a
manifest and reading its trees, lazily or as a whole. `CatalogOrder` says which sequences of visits succeed, and
`CatalogSchedules` which loads and lookups do, over every order in which workers may read a level. `CatalogTheorems` is about any
store, `CatalogRoundTrip` about what this code publishes, and `SnapshotPublish` goes from a snapshot to its manifest and back.
`SnapshotLayers` says which files still reach their blobs in the layers of that manifest, and `ReplacedLayers` is a publication
that does not load.

**Closed snapshots.** `Snapshots` holds the simple specifications (`ValidateRecords`, `RequireClosed`, `Contains`, `Merge`,
`CacheUnion`). `IndexLoops`, `IndexSafety`, `SnapshotIndex` and `IndexTheorems` show that the incremental index agrees with them;
`Pruning` is the last loop of `PublishStore`.

**Byte ranges.** `Blobs` says what it means that a file names a record inside a blob. `Packer` (`narPacker`) writes such files,
`DownloadState` and `Downloads` (`packDownloads`) serve them, and `PackRoundTrip` goes from one to the other. `CanonicalHash` is the base-32 spelling of hashes.

## Reading the model

- A run is any sequence of steps; labels of a step carry what the environment decides: which mailbox entry a read returns, whether
  a write is stored and whether its caller learns of it, clock values, results of builds. Theorems quantify over all runs.
- Methods of the classes are the sections of code between two points where another goroutine can act: under a lock, or between two
  receives. Any interleaving is a sequence of method calls, and every method keeps the class invariant.
- Map iteration order is an arbitrary choice (`:|`); results that must not depend on it are stated without it.
- SHA-256, JSON and encryption are parameters: a digest function on bytes, a hash of names with 64 hexadecimal digits, a size of
  encoded texts, and a content function from digests to decoded texts. Where content identity matters, the theorem asks that no
  two of the texts involved collide (`Apart`), and names those texts. A node is given by what its JSON decodes to, so an upstream
  record with an absent reference list is one without the field.
- An empty catalog node fits every limit (`EmptyFits`), and the size of a node grows with its records (`Monotone`, used for the
  exact failure condition of the split only).
- `EncryptedStream` always yields at least the header of the age format, hence the non-empty ciphertexts of `Packer`. Readers of
  the catalog allow a blob to exceed its text's limit by 1 MiB; that the blobs of a publication stay within that is a condition of
  the round trip (`WithinSlack`, or `AllSnug` for all blobs on offer or uploaded), not of publishing.
- An upload's answer depends on the text and on how many uploads came before it. Which uploads are refused is up to the store; a
  publication fails exactly on a request that it made (`Refused`, in terms of the texts it sent). As blobs are encrypted with fresh
  randomness, the digest of an upload is new (`Fresh`); only the statement that says beforehand which files will be reached asks
  for it.
- Integers are unbounded. The source's widths matter only in `CanonicalHash`, where `Uint64` keeps the low 64 bits and is modelled
  so.

## Model

| member | source | states |
|---|---|---|
| Graph.DependencySearch.Visit | worker/scheduler.go:21-34 | the recursive search stays within what is reachable through unscheduled derivations, sees all of it, and collects each scheduled one once |
| Graph.PoolDependencies | worker/scheduler.go:18-37 | returns exactly the scheduled derivations met through unscheduled ones, without duplicates |
| Graph.DependenciesPreserveReach | worker/scheduler.go:89-92 | the closure of the computed dependencies is reachability in the whole graph, restricted to scheduled derivations |
| Graph.DependenciesRanked | worker/scheduler.go:89-93 | dependencies of an acyclic plan are acyclic, so the priority recursion ends |
| Planner.CountInputs | worker/planner.go:214-230 | fails exactly on a missing dependency; otherwise counts inputs, inverts them and collects the derivations that wait for nothing |
| Planner.VisitNext | worker/planner.go:235-248 | visits the least derivation whose inputs are all visited, and keeps counts and the ready list exact |
| Planner.VisitAll | worker/planner.go:232-249 | visits each derivation once, the least available one each time, until none is available; what is selected comes in that order, at a strictly increasing sequence of places that are exactly the selected ones |
| Planner.Cut | worker/planner.go:255-260 | all batches but the last have exactly the limit, and every element of the order is in its place: element `limit * b + j` is the `j`-th of batch `b` |
| Planner.StuckCyclic | worker/planner.go:251-253 | if no derivation is available while some are left, the graph has a cycle |
| Planner.TopologicalRanks | worker/planner.go:232-249 | a complete build order shows that the graph has no cycle |
| Planner.VisitsDecide | worker/planner.go:251-253 | the number of visited derivations decides exactly whether there is a cycle |
| Planner.LeastFirstIsLeast | worker/planner.go:234-237 | the visited order precedes every other topological order, lexicographically |
| Planner.LeastFirstUnique | worker/planner.go:217-237 | that order does not depend on map iteration |
| Planner.Batches | worker/planner.go:204-263 | reports a bad limit, a missing dependency or a cycle exactly when there is one; otherwise the batches hold, by position, the last spec given for each asked derivation of the least build order, in that order and no other spec |
| Planner.SelectedLast | worker/planner.go:209-212 | a derivation is selected exactly if the part before the first `^` of some spec names it, with the last such spec |
| Planner.NeedsListedFirst | worker/planner.go:232-260 | what a derivation needs, directly or not, is never listed after it |
| Scheduling.Prioritizer.Visit | worker/scheduling.go:15-24 | the memoised recursion returns the longest consumer chain, and everything it memoises is final |
| Scheduling.PoolPriorities | worker/scheduling.go:7-29 | on acyclic dependencies the table ends as the lengths of the longest consumer chains |
| Scheduling.LongestGrows | worker/scheduling.go:5-24 | a dependency has a strictly higher priority than what needs it |
| Scheduling.StableSortOrdered | worker/scheduling.go:33 | the stable sort keeps every element, orders by priority, and leaves equals in their order |
| Scheduling.PoolOrder | worker/scheduling.go:31-35 | every scheduled derivation once, by descending priority, names breaking ties |
| Scheduling.DependenciesFirst | worker/scheduling.go:31-35 | the order lists every dependency before its dependents |
| Scheduler.PropagateFailures | worker/scheduler.go:118-134 | the repeated loop marks exactly the unassigned derivations that lead to a failed one through unassigned ones |
| Scheduler.Select | worker/scheduler.go:197-220 | whatever the loads of helper statuses return, for each derivation anew, the single pass picks the maximum of (local-only, priority, locality) among eligible derivations, the earliest on ties |
| Scheduler.Prepare | worker/scheduler.go:82-94 | rejects exactly plans with missing inputs or cycles; otherwise sets up exactly the derivations that some missing spec names, with the given system, cores, lease and deadline, and the job meets what the theorems need exactly when no missing derivation has an empty name |
| Scheduler.Dependencies | worker/scheduler.go:89-92 | the loop relates each scheduled derivation to exactly the scheduled ones it meets through unscheduled ones |
| Scheduler.Loop.constructor | worker/scheduler.go:95-113 | the loop starts in the initial state of the step relation |
| Scheduler.Loop.Propagate | worker/scheduler.go:118-134 | makes the propagation step |
| Scheduler.Loop.Admission | worker/scheduler.go:163-196 | skips, retires or admits a runner under exactly the stated conditions, recording the instance |
| Scheduler.Loop.SelectHere | worker/scheduler.go:197-220 | the choice is the best eligible one in the loop's own state, for the statuses loaded while choosing |
| Scheduler.Loop.Begin | worker/scheduler.go:224-243 | the start bookkeeping, with the execution under its new sequence number |
| Scheduler.Loop.AssignRunner | worker/scheduler.go:163-244 | one turn of the assignment loop is one assignment step, whose choice is the best one for the statuses loaded while choosing |
| Scheduler.Loop.CloseRound | worker/scheduler.go:245-258 | publishes the finish vector when nothing is unassigned, and returns exactly when nothing is left |
| Scheduler.Loop.Pass | worker/scheduler.go:118-258 | a whole pass keeps the invariant; it returns only with everything settled, and otherwise waits with something in flight |
| Scheduler.Loop.OnRelease | worker/scheduler.go:263-269 | a release event frees the runner only if it is of the newest sequence |
| Scheduler.Loop.Strike | worker/scheduler.go:264-278 | a helper failure retires the helper and restores the derivation for the coordinator |
| Scheduler.Loop.Settle | worker/scheduler.go:279-292 | a result makes the derivation done or finally failed |
| Scheduler.Loop.OnComplete | worker/scheduler.go:263-292 | a completion event is a completion step; a lost publication is returned |
| ScheduleTurns.UsableExactly | worker/scheduler.go:177 | a status is usable exactly if it is fresh, less than a minute ahead, names an instance and a sensible number of cores, and has valid features |
| ScheduleTurns.TurnRetires | worker/scheduler.go:166-196 | in its turn a helper is retired exactly if it is free, may still be given work, and has either no usable status beyond the deadline or one of another instance than recorded; its instance is recorded exactly when it is free and attends |
| ScheduleTurns.TurnStarts | worker/scheduler.go:224-228 | a start marks the derivation and the runner, counts the execution and numbers it, and nothing else changes |
| ScheduleTurns.ReadyExactly | worker/scheduler.go:135-145 | a derivation can start exactly when it waits and every scheduled derivation that it reaches in the whole graph is done |
| ScheduleTurns.CompatibleExactly | worker/scheduler.go:39-67 | a derivation suits a helper exactly if it is neither dynamic nor to be built locally, its attributes decode, its system is the pool's, its outputs have paths, and all required features are offered |
| ScheduleTurns.CoordinatorStarts | worker/scheduler.go:163-243 | a free coordinator starts a derivation exactly when one can start |
| ScheduleTurns.HelperStarts | worker/scheduler.go:163-243 | a free helper with a usable status of its own instance in state ready, done or failed starts a derivation, while the finish vector is unset, exactly when one can start, was not taken back and suits it |
| ScheduleTurns.HelperTakesPreferred | worker/scheduler.go:197-220 | a helper takes the derivation with the longest consumer chain, then the warmest store, then the least name |
| ScheduleTurns.CoordinatorTakesPreferred | worker/scheduler.go:213-220 | the coordinator takes what no live helper could take, if there is any, and is otherwise as choosy |
| ScheduleHistory.RetiredExactly | worker/scheduler.go:166-187 | in every run a helper was given up exactly if an execution of it failed, it stayed away beyond the deadline, or it came back as another instance |
| ScheduleHistory.PatientToDeadline | worker/scheduler.go:176-181 | up to the deadline only a failed task or another instance makes the scheduler give up a helper |
| ScheduleHistory.InstanceExactly | worker/scheduler.go:183-196 | once a helper has registered, the recorded instance is the one it registered with, for the rest of the run |
| ScheduleHistory.TablesExactly | worker/scheduler.go:274-290 | at every moment of a run: what was taken back are the failed tasks of helpers, the local failures those of the coordinator, and each runner is warm for exactly what it built and the inputs of that |
| ScheduleHistory.DoneExactly | worker/scheduler.go:279-288 | a derivation is done exactly if an execution of it succeeded |
| ScheduleHistory.CloseExactly | worker/scheduler.go:245-258 | a round ends with the finish vector if nothing waits to be assigned, and with the return if nothing runs either |
| ScheduleHistory.FinishExactly | worker/scheduler.go:245-254 | helpers are dismissed exactly after a round that left nothing to assign, by the numbers of that round |
| ScheduleRuns.InvNext | worker/scheduler.go:114-294 | every step of the loop keeps the invariant |
| ScheduleRuns.InvRun | worker/scheduler.go:114-294 | the invariant holds in every state of every run |
| ScheduleRuns.CoordinatorTakesWork | worker/scheduler.go:163-223 | if nothing is running and something is unassigned, the coordinator's turn starts something |
| ScheduleTheorems.StartedAfterInputs | worker/scheduler.go:135-145 | a started derivation has everything scheduled that it reaches in the whole graph done |
| ScheduleTheorems.SettledForever | worker/scheduler.go:279-291 | done and failed are permanent |
| ScheduleTheorems.OneAttemptEach | worker/scheduler.go:146-149 | in a run a derivation starts at most once on a helper and at most once on the coordinator |
| ScheduleTheorems.TwoInFlight | worker/scheduler.go:163-168 | a runner has at most two executions in flight, counted exactly by `pending`, at most one of them unreleased |
| ScheduleTheorems.OlderEventKeepsRunner | worker/scheduler.go:264-266 | an event of an older execution never frees the current build |
| ScheduleTheorems.StartsBounded | worker/scheduler.go:224-243 | at most as many executions as derivations plus two for each helper |
| ScheduleTheorems.NeverStuck | worker/scheduler.go:255-263 | whenever the loop waits there is an execution whose completion it can take |
| ScheduleTheorems.BudgetFalls | worker/scheduler.go:163-293 | every assignment and every event lowers a bounded measure, no other step changes it |
| ScheduleTheorems.WorkBounded | worker/scheduler.go:114-294 | no run, returned or not, makes more than a fixed number of assignments and takes more than a fixed number of events |
| ScheduleTheorems.FinalAnswer | worker/scheduler.go:255-292 | on return everything is done or failed, the failed set is the coordinator's failures and all that depends on them, and the result is success iff all is done |
| ScheduleTheorems.FinishFreezesHelpers | worker/scheduler.go:170-175 | after the finish vector is stored no helper's sequence advances again, whatever fails |
| Mailbox.Record.Read | worker/pool.go:169-214 | keeps the most recent record read and answers with it |
| Mailbox.ReadsMoveForward | worker/pool.go:203-207 | under any loss and replay, what is read was written and never goes back in time |
| Mailbox.KeepsLatest | worker/pool.go:203-207 | after any reads the kept record is one of those read, and none of them was sent later |
| Mailbox.AnswersLatest | worker/pool.go:203-214 | when writes are sent in order, a read answers with the last write among all that were read so far |
| Envelopes.SealedRecord.Read | worker/pool.go:169-214 | an answer of the store is accepted exactly if its key is known or of this mailbox, and then its code is valid for that key and it holds a message; without forged codes, whatever the store does is as if it had answered with some write of this mailbox, or had failed |
| Envelopes.PrefixesDiffer | worker/pool.go:112-125 | different roles and runners have different mailboxes, unless two of their tags collide |
| Envelopes.SealedIsValid | worker/pool.go:139-166 | what is written is accepted by a reader of its mailbox |
| Envelopes.SealedElsewhere | worker/pool.go:181-198 | and by no reader of another mailbox, nor under another key |
| Builder.Server.constructor | worker/builder.go:29-44 | a helper boots without session, task or lease |
| Builder.Server.Poll | worker/builder.go:46-54 | reads the lease when idle, due or expired, and keeps the last one on error |
| Builder.Server.Check | worker/builder.go:55-78 | adopts or checks the session, notices a dismissal, and fails under the conditions of `BuilderRuns.LeavesExactly` |
| Builder.Server.Lease | worker/builder.go:46-78 | the two parts together |
| Builder.Server.Publish | worker/builder.go:80-88 | publishes a due status, and leaves exactly when dismissed, idle and published |
| Builder.Server.Take | worker/builder.go:89-104 | takes only a newer assignment of its own session and instance, and rejects a malformed one |
| Builder.Server.Finished | worker/builder.go:109-115 | the result becomes the status that is published next |
| BuilderRuns.LeaseRead | worker/builder.go:48-54 | a pass goes by the lease just read, if one was due and the read did not fail, and by the last one otherwise |
| BuilderRuns.LeavesExactly | worker/builder.go:55-78 | a pass ends in an error exactly if a fresh lease is of another session, or there is no session though the startup time is over, or there is one without a fresh lease for a lease time |
| BuilderRuns.StopsExactly | worker/builder.go:62-64 | a helper stops exactly on a fresh lease of its session with the stop signal or with a finish vector that it has caught up with |
| BuilderRuns.PublishesExactly | worker/builder.go:80-88 | a status is written exactly when it changed or a heartbeat has passed, and the helper leaves in good order exactly when stopping, idle and published |
| BuilderRuns.TakesExactly | worker/builder.go:89-104 | an idle helper starts exactly a later task of its own session and instance, and fails exactly on such a record without a task |
| BuilderRuns.MeasuresFrom | worker/builder.go:66-78 | in every run a helper measures from its boot until it has a session, and from when its last fresh lease was sent afterwards |
| BuilderRuns.LeavesInTime | worker/builder.go:55-78 | in every run, when exactly a pass ends in an error, in terms of what was read and when it was sent |
| BuilderRuns.HoldsItsLease | worker/builder.go:66-78 | a helper that checked a fresh lease of its session does not leave in error before the lease time is over, whatever older records are replayed |
| BuilderRuns.StoppingExactly | worker/builder.go:55-65 | a helper is stopping exactly if some earlier pass was dismissed |
| BuilderRuns.StartsNewest | worker/builder.go:89-104 | an idle helper that reads the newest assignment starts it, however stale its earlier reads were |
| Remote.StatusReader.Turn | worker/pool.go:276-298 | a status is stored only if it is of this pool and more recent |
| Remote.ObservesLatest | worker/pool.go:276-298 | the stored status is the latest one of this pool that was ever heard |
| Remote.Verify | worker/scheduler.go:325-344 | a result is accepted exactly when its digest is one, its snapshot loads and is closed, has archives only and every output |
| Remote.AcceptableExactly | worker/scheduler.go:325-344 | that is: the digest is 64 hexadecimal digits, the snapshot is closed, its files are archives by name, and every output of the task has a record |
| Remote.RemoteTask.Write | worker/scheduler.go:301-306 | the task is sent or fails, and the time of sending is what the acknowledgement is measured from |
| Remote.RemoteTask.Poll | worker/scheduler.go:309-351 | one poll of a task decides between failure, a verified result and waiting on |
| Remote.VerdictExactly | worker/scheduler.go:309-351 | a task fails exactly when its helper is silent, replaced or ahead, reports a failure or an unacceptable result, or has not acknowledged the task for a lease; it succeeds exactly on an acceptable result |
| ProtocolSafety.InvNext | worker/builder.go:45-117 | every step of coordinator, helpers and mailboxes keeps the protocol invariant |
| ProtocolTheorems.ExecutesOnce | worker/builder.go:89-116 | an instance executes each number at most once, one at a time, in order, and only what was issued under it; its sequence never exceeds the coordinator's |
| ProtocolTheorems.AcceptedWasBuilt | worker/scheduler.go:309-346 | a result accepted for a number came from executing exactly the task written under it |
| ProtocolTheorems.CaughtUp | worker/builder.go:62-64 | an idle helper that is as far as the coordinator has executed every assignment written to it |
| ProtocolTheorems.LeavingIsComplete | worker/builder.go:80-88 | a helper that leaves because of the finish vector has executed all that is or will be written to it, and its last status is published |
| ProtocolProgress.TaskCompletes | worker/scheduler.go:297-347 | from every state in which an attentive helper is handed a task, seven steps lead to its accepted result: written, taken, built, lease checked, reported, read, verified |
| ProtocolProgress.DismissalArrives | worker/builder.go:55-88 | a helper that has nothing left to do leaves in good order with the next heartbeat that it reads |
| Pool.PoolInvRun | worker/scheduler.go:224-243 | scheduler, slots, helpers and mailboxes agree in every reachable state of the whole pool |
| Pool.IssueEnabled | worker/scheduler.go:224-243 | a helper that the scheduler starts is always free to take the task |
| Pool.FinishEnabled | worker/scheduler.go:250-254 | the finish vector is at each slot's own sequence when it is stored |
| Pool.PoolNeverStuck | worker/scheduler.go:245-263 | whenever the scheduler of the pool waits, some execution in flight can report its end after at most two steps of its own slot: as failed always, and as built on a helper exactly when its result was accepted |
| Pool.HelpersRunAfterInputs | worker/builder.go:95-102 | whatever a helper executes, all scheduled inputs of its task in the whole graph are done |
| Pool.DoneWasBuilt | worker/scheduler.go:279-287 | a derivation that the coordinator never built is done only because a helper executed a task for it and that result was accepted |
| Pool.DismissedHelpersAreDone | worker/builder.go:80-88 | until the scheduler returns, helpers that left in good order have done all that was written to them |
| Catalog.NarinfoKeyIsConsumer | worker/catalog.go:74-76 | the key of every narinfo is a consumer name |
| Catalog.NarinfoKeyParts | worker/snapshot.go:34-36 | a narinfo is stored under the hash of its store path |
| Catalog.StorePathIsNotConsumer | worker/catalog.go:74-76 | an upstream path never is |
| Catalog.NarinfoNameExactly | worker/cache.go:273 | a narinfo is named by 32 base-32 digits and `.narinfo` |
| Catalog.ConsumerFileExactly | worker/cache.go:273 | the consumer tree holds the cache's own description, narinfos and archives, and nothing else |
| Catalog.NarNameExactly | worker/cache.go:273 | an archive is named by a nonempty stem, `.nar` and at most one more suffix |
| Catalog.TreeShape | worker/catalog.go:399-409 | the places of an accepted tree are paths of at most 64 hexadecimal digits, and each node has either records or at least one child |
| Catalog.RecordExactly | worker/catalog.go:410-452 | accepted records of the consumer tree have a narinfo with its archive or a file, those of the writer tree a reference list or a file, under a name of their kind that hashes to the node's path |
| Catalog.NameOnce | worker/catalog.go:399-412 | on any tree that the validator accepts a name is stored in at most one leaf |
| Catalog.LookupAgrees | worker/catalog.go:491-513 | on any accepted tree, following a name's hash finds a record iff a full traversal meets it, and it is the same record |
| CatalogRecords.SameLocationIsEqual | worker/catalog.go:464-470 | for files that the manifest reaches, the fields compared on a conflict determine the whole file |
| CatalogRecords.AddFiles | worker/catalog.go:472-483 | a record's own file and its archive are both placed, and it fails exactly when one of them conflicts |
| CatalogRecords.AddRecords | worker/catalog.go:463-489 | succeeds exactly when no two files under a name differ; then nothing moves and exactly the offered files, narinfos and references are added |
| CatalogWalk.GatheredRecordsOk | worker/catalog.go:554-556 | records of accepted nodes always pass `ValidateRecords` |
| CatalogViews.CatalogView.constructor | worker/catalog.go:301-343 | a new view remembers nothing but its root |
| CatalogViews.CatalogView.Visit | worker/catalog.go:361-461 | a node is returned exactly when it is reachable, readable or known, valid at its path, and not bound to another path |
| CatalogViews.CatalogView.Lookup | worker/catalog.go:491-513 | succeeds exactly when each place on the name's path answers, given what the view remembers, and its leaf's files agree; visits that path alone, at most 65 places, and answers with the records the hash leads to |
| CatalogViews.CatalogView.ReadLeaf | worker/catalog.go:501-506 | a leaf answers exactly when its files agree, with exactly its records |
| CatalogViews.CatalogView.VisitLevel | worker/catalog.go:525-532 | reads a level in any order; succeeds exactly when every place answered in that order, and remembers exactly those that did |
| CatalogViews.CatalogView.ChildSlots | worker/catalog.go:538-540 | lists each child of a node once, at its own path |
| CatalogViews.CatalogView.Expand | worker/catalog.go:533-541 | adds the records of a level and lists exactly the next one |
| CatalogViews.CatalogView.LoadAll | worker/catalog.go:515-560 | succeeds exactly when every visit answered, files agree and the metadata reads; then it went level by level through every place of both trees once, gathering exactly their records |
| CatalogViews.VisitsBounded | worker/catalog.go:378-383 | since a digest is bound to one path, a traversal is at most twice as long as the manifest |
| CatalogTheorems.LoadedTree | worker/catalog.go:524-543 | a load that succeeds has checked both trees completely |
| CatalogTheorems.LoadedNarinfos | worker/catalog.go:463-489 | the loaded narinfos are exactly those of the records met in the consumer tree |
| CatalogTheorems.LookupAgreesWithLoad | worker/catalog.go:491-543 | the snapshot of a lookup has the narinfo under the name iff the full load has it, the same one, and nothing the load has not |
| CatalogTheorems.LoadThenLookup | worker/catalog.go:491-560 | the load succeeds exactly when everything it visits answers and files agree; on a view whose load succeeded every lookup succeeds, and agrees with the load |
| CatalogOrder.OrderExact | worker/catalog.go:377-398 | a sequence of visits succeeds exactly when every place stands, no digest is met at two paths, and each new digest is readable in the tree where it is met first |
| CatalogSchedules.EveryOrderLoads | worker/catalog.go:524-532 | a load succeeds in every order exactly when the trees are valid and every node is readable in its own tree |
| CatalogSchedules.SomeOrderLoads | worker/catalog.go:524-532 | a load succeeds in some order exactly when the trees are valid and every digest is readable in one of the trees that have it |
| CatalogSchedules.LoadOrderMatters | worker/catalog.go:377-398 | an input where the two differ: one blob for both roots, too long for a consumer node, loads with the writer root first and not with the index root first, and no lookup on a fresh view succeeds |
| CatalogSchedules.LookupAfterLoad | worker/catalog.go:491-532 | after a load that met every place, whatever was read since, all places on any path answer |
| CatalogSchedules.FreshLookup | worker/catalog.go:491-513 | on a fresh view a lookup reaches its leaf exactly when every consumer node on its path is valid and readable by itself and no digest stands there twice |
| CatalogSchedules.FreshLookups | worker/catalog.go:491-513 | on a fresh view of valid trees every name can be looked up exactly when every consumer node on some path is readable as one |
| CatalogOpen.OpenCatalog | worker/catalog.go:300-344 | succeeds exactly when the layers are well described and do not conflict, exactly one is the catalog, and it reads as a root whose three blobs are layers |
| CatalogOpen.OneEntryOpens | worker/catalog.go:300-344 | a manifest with two layers marked as the catalog, or with none, is not opened |
| Partition.SubIsSplit | worker/catalog.go:235-251 | the subtree at a path is the split of exactly the records under that path |
| Partition.LeafHolds | worker/catalog.go:229-231 | a leaf holds exactly the records whose hash starts with its path, within the limit |
| Partition.BranchHolds | worker/catalog.go:235-250 | a node has children only where its records do not fit together, for exactly the digits that occur, at depth below 64 |
| Partition.RecordPlaced | worker/catalog.go:224-252 | every record has a leaf |
| Partition.PlacedOnce | worker/catalog.go:224-252 | and only one |
| Partition.SplitFails | worker/catalog.go:232-234 | with distinct hashes a split fails exactly when some record does not fit by itself |
| CatalogPublish.FileRecords | worker/catalog.go:135-141 | files are divided by whether their name is a consumer name |
| CatalogPublish.AddNarinfos | worker/catalog.go:142-151 | each narinfo joins the record of its name together with its archive |
| CatalogPublish.AddUpstream | worker/catalog.go:152-156 | each reference list joins the record of its path |
| CatalogPublish.BuildRecords | worker/catalog.go:133-156 | the two record maps as functions of the snapshot |
| CatalogPublish.Publisher.Upload | worker/catalog.go:90-132 | an answer is a layer whose blob holds a text with the same hash, hence the text itself unless two of the texts collide; a text is not sent again when such a blob is known, and otherwise its blob is the store's answer to it; it fails exactly on a text beyond the limit or when this very request is refused |
| CatalogPublish.Publisher.PublishTrees | worker/catalog.go:172-204 | children are uploaded before their parents; on success every node of both plans has the descriptor of its text; it fails exactly when one of the node texts that were sent was refused or a node whose children are all placed is too large |
| CatalogPublish.Publisher.PublishRoot | worker/catalog.go:205-209 | the metadata and the root that names it and both trees are uploaded within their limits; it fails exactly when one of the two is too large or was sent and refused |
| CatalogPublish.Publisher.PublishCatalog | worker/catalog.go:133-215 | unless two of exactly the offered and uploaded texts collide, success means that both trees are splits of the snapshot's records, stored completely, and that the root names them and the metadata; it fails exactly when the records cannot be split, a node, the metadata or the root is too large, or a request that was made was refused, and only these texts are ever sent |
| CatalogPublish.FileLayers | worker/snapshot.go:345-355 | succeeds exactly when all files are valid and agree on their blobs; then the layers are exactly the blobs of the files |
| CatalogRoundTrip.PlanAccepted | worker/catalog.go:399-452 | every produced node whose files reach their blobs passes the validator at its path |
| CatalogRoundTrip.PublishedOnePath | worker/catalog.go:378-383 | the same blob is never published for two paths, in either tree |
| CatalogRoundTrip.PublishedLoads | worker/catalog.go:515-543 | stored trees of a valid snapshot load in every order exactly when each file reaches its blob in the layers and no blob exceeds what its readers allow |
| CatalogRoundTrip.LoadedIsPublished | worker/catalog.go:133-204 | whatever loads has the same files, narinfos and upstream coverage |
| SnapshotPublish.ManifestLayers | worker/snapshot.go:371-374 | the manifest lists each layer once, with the catalog marked |
| SnapshotPublish.Publish | worker/snapshot.go:335-374 | a snapshot is published exactly unless its metadata is missing, its records or files are invalid or disagree, or the catalog fails as above; the manifest then has the files' blobs, replaced where the catalog uses the same digest, and the catalog |
| SnapshotPublish.EntryOpens | worker/catalog.go:300-344 | the published entry is the one that is opened, exactly when it is within its limit and the metadata is still a layer |
| SnapshotPublish.PublishThenLoad | worker/snapshot.go:335-374 | publishing, opening and loading: it is published exactly under the conditions of `Publish`; whatever comes back is the snapshot with its metadata, and with blobs within the readers' slack it comes back exactly when the final layers describe every file's blob as the file does. This is known before publishing: when uploads get new digests it comes back exactly when no blob that the publication is bound to reuse has the digest of a file's blob with another description; without new digests that is still necessary |
| SnapshotLayers.FileStillReached | worker/snapshot.go:345-363 | a file reaches its blob in the final layers exactly when every catalog blob of that digest has the file's description |
| SnapshotLayers.BoundGiven | worker/catalog.go:99-130 | where the blob of a subtree follows from the blobs on offer alone, every publication gives it exactly that blob |
| SnapshotLayers.GivenBound | worker/catalog.go:99-130 | the converse: when uploads get new digests, a place whose text is on offer was bound to be given the blob it has |
| SnapshotLayers.FilesFound | worker/snapshot.go:345-363 | all files reach their blobs only if no blob that is bound to be reused contests one of them, and exactly then when uploads get new digests: a condition on the snapshot and the blobs on offer alone |
| ReplacedLayers.PublishOverBlob | worker/snapshot.go:345-363 | a family of inputs that are published but never load: a file names the reused blob of an empty tree with another size; they are published exactly unless the catalog fails, so always when their texts fit and are not refused |
| ReplacedLayers.PublishedAndLost | worker/snapshot.go:345-363 | one such input with its store, without further conditions: it is published, and it does not load |
| Snapshots.ValidateRecords | worker/snapshot.go:177-202 | true exactly on snapshots with valid records |
| Snapshots.RequireClosed | worker/snapshot.go:204-237 | true exactly when records are valid and every reference is covered |
| Snapshots.ContainsIsCovers | worker/snapshot.go:239-246 | on valid records the lookup by key finds a path iff any record covers it |
| Snapshots.MergeUpstream | worker/snapshot.go:281-287 | fails exactly on different references for a path; otherwise joins |
| Snapshots.MergeNarinfos | worker/snapshot.go:289-298 | fails exactly on narinfos that do not match; existing ones stay |
| Snapshots.MergeFiles | worker/snapshot.go:300-306 | takes cache files that are new, and plan files always |
| Snapshots.Merge | worker/snapshot.go:279-309 | succeeds exactly on compatible snapshots, with the joined maps |
| Snapshots.MergedByCase | worker/snapshot.go:279-309 | plan files come from the other snapshot, other cache files only if new, narinfos that are there stay, and each path has the reference list of either side |
| Snapshots.SameFieldsExactly | worker/snapshot.go:311-334 | two narinfos match exactly if all that is read from them agrees |
| Snapshots.FieldsSplit | worker/snapshot_index.go:89-92 | blanks separate the references of a narinfo, in order |
| Snapshots.StorePathExactly | worker/snapshot.go:38-43 | a store path is valid exactly if it is the store directory, a hash of 32 base-32 digits and a nonempty name of allowed characters |
| Snapshots.WholeExactly | worker/snapshot.go:148-159 | a valid file that covers its blob is the blob itself |
| Snapshots.CacheUnion | worker/runner.go:112-127 | succeeds exactly when the merge is possible and its result closed |
| IndexLoops.TakeFiles | worker/snapshot_index.go:40-47 | new files are validated and added, existing ones stay |
| IndexLoops.TakeUpstream | worker/snapshot_index.go:48-68 | upstream records are taken exactly when valid and consistent with the index |
| IndexLoops.TakeNarinfos | worker/snapshot_index.go:69-102 | narinfos are taken exactly when valid, reachable and consistent |
| IndexLoops.ChangedClosed | worker/snapshot_index.go:103-109 | true exactly when the references of all changed paths are indexed |
| IndexSafety.ChangedIsEnough | worker/snapshot_index.go:103-109 | checking changed records only is as good as checking the whole view |
| SnapshotIndex.Index.Empty | worker/snapshot_index.go:23-25 | an empty index is valid |
| SnapshotIndex.Index.Extend | worker/snapshot_index.go:32-112 | succeeds exactly when the delta is extendable, the view is then closed and is the union; a failure changes nothing |
| SnapshotIndex.Index.SelectPaths | worker/snapshot_index.go:116-142 | ends, and selects exactly the records of indexed paths reachable from available roots |
| IndexTheorems.SelectedClosed | worker/snapshot_index.go:114-116 | the selection is closed by itself |
| IndexTheorems.SelectedLeast | worker/snapshot_index.go:114-116 | every closed part of the snapshot that covers the available roots covers every path that the selection covers |
| IndexTheorems.SelectedSmallest | worker/snapshot_index.go:114-142 | the selection is the least closed part of the view that covers the available roots, records and archives included, exactly when none of its own paths has both a narinfo and an upstream record |
| IndexTheorems.WithoutUpstream | worker/snapshot_index.go:128-140 | where a selected path has both, the selection without its upstream record is closed and covers the roots, and is smaller |
| IndexTheorems.SelectsTwice | worker/snapshot_index.go:52-54 | such inputs exist: a new index takes a path from both sides with the same references, and what it then selects is not the least |
| IndexTheorems.AllExtendClosed | worker/snapshot_index.go:32-112 | after any sequence of successful updates the view is closed |
| IndexTheorems.GrowingIsLast | worker/snapshot_index.go:32-112 | with growing deltas the view is the base with the last delta |
| IndexTheorems.GrowingAgreesWithUnion | worker/snapshot_index.go:32-112 | with growing deltas the view contains what `CacheUnion` from scratch contains |
| Pruning.Enter | worker/publication.go:433-438 | a reference is entered for its consumer, is covered, or condemns its referrer |
| Pruning.Collect | worker/publication.go:430-440 | after the first loop every reference is accounted for, and only hopeless paths are queued |
| Pruning.Prune | worker/publication.go:423-448 | the worklist ends with the greatest set of uploaded paths whose references are all kept or covered |
| Pruning.CyclesKept | worker/publication.go:423-448 | groups that only refer to each other and to covered paths are kept |
| Pruning.PruningKeepsClosed | worker/publication.go:450-452 | adding the kept narinfos keeps the coverage closed exactly when nothing left refers to a path whose narinfo was overwritten |
| Blobs.ReadsBack | worker/download.go:142-147 | reading a file's range from any blob with its digest gives the record, unless that blob is another text with the same digest |
| Blobs.RangeValid | worker/snapshot.go:148-159 | a file that names a record inside a blob passes `validate` |
| Packer.Tiles | worker/publication.go:164-165 | every byte of a pack belongs to exactly one record |
| Packer.LayoutKeepsAll | worker/publication.go:164-165 | with distinct names each record keeps its own range |
| Packer.PlacedLocates | worker/publication.go:200-203 | once the pack is stored, each of its files names exactly its record |
| Packer.NarPacker.constructor | worker/publication.go:123-125 | a new packer holds nothing |
| Packer.NarPacker.Advertise | worker/publication.go:200-203 | the files of a pack are advertised in its blob |
| Packer.NarPacker.Land | worker/publication.go:196-210 | an upload advertises its files only when it succeeded |
| Packer.NarPacker.WaitUpload | worker/publication.go:178-184 | receives the result of the awaited upload, once it has ended, and keeps a failure |
| Packer.NarPacker.Flush | worker/publication.go:186-212 | fails without touching the buffer, or turns it into the only upload under way |
| Packer.NarPacker.Add | worker/publication.go:127-167 | large records are uploaded alone, small ones join a pack within the limit, and none is packed after a failure |
| Packer.NarPacker.BeginFinish | worker/publication.go:169-174 | `finish` flushes, and keeps the lock exactly when that succeeded |
| Packer.NarPacker.EndFinish | worker/publication.go:169-184 | `finish` succeeds exactly if every upload did, and otherwise returns the error of one of them; success means that every accepted record is advertised, at its own place when names are distinct |
| Downloads.Oldest | worker/download.go:65-70 | finds the least recently read key, which is never the one just noted |
| Downloads.PackDownloads.constructor | worker/download.go:33-35 | an empty cache is valid |
| Downloads.PackDownloads.Remember | worker/download.go:62-72 | the history keeps its bound by forgetting the oldest key |
| Downloads.PackDownloads.LeastUsed | worker/download.go:80-85 | finds the least recently used pack without readers |
| Downloads.PackDownloads.MakeRoom | worker/download.go:79-92 | succeeds exactly when the packs with readers leave room, evicts only packs without readers, least recently used first, and none without need |
| Downloads.PackDownloads.Join | worker/download.go:98-99 | a resident pack is pinned once more |
| Downloads.PackDownloads.Reserve | worker/download.go:93-99 | a new pack is reserved, pinned and about to be downloaded |
| Downloads.PackDownloads.UseCache | worker/download.go:61-99 | joins, fetches directly or downloads, under exactly the stated conditions |
| DownloadState.KeyIdentifies | worker/download.go:48 | two reads share a pack exactly when they name the same repository and digest |
| Downloads.PinnedExactly | worker/download.go:54-99 | a read is served from the cache exactly if it is sparse, of a pack within both limits, and the pack is there, or was wanted before and has room beside the packs in use |
| Downloads.PackDownloads.BeginRead | worker/download.go:44-105 | rejects invalid files and conflicting descriptors exactly, lets large and whole reads pass by, and keeps bytes, history and pins exact |
| Downloads.PackDownloads.Finish | worker/download.go:106-134 | a complete body with the right digest becomes readable; anything else gives the reservation back |
| Downloads.PackDownloads.Close | worker/download.go:101-105 | releases a pin once |
| Downloads.PackDownloads.Serve | worker/download.go:138-147 | a settled read fails or reads its range within bounds, and answers exactly when those bytes have the named digest |
| Downloads.OneDownloadPerKey | worker/download.go:73-78 | at any time a key is downloaded by at most one read |
| Downloads.WaitsForDownload | worker/download.go:22-23 | a waiting read waits for a download under way, and eviction never takes a pack with readers |
| Downloads.ServedExactly | worker/download.go:138-147 | a record that was published at its place is served as it was published, unless the pack is another text with the same digest |
| PackRoundTrip.AdvertisedServed | worker/download.go:138-147 | an advertised record is a valid file, and any ready pack of its blob answers with its bytes |
| PackRoundTrip.ReadThrough | worker/download.go:44-148 | a read is answered by the cache exactly unless it is refused, bypasses the cache, is the first for its pack, waits for another read's download or has no room beside the packs in use; the answer is that of the pack that was there, or of its own download |
| PackRoundTrip.FinishThenServe | worker/publication.go:169-176 | `finish` returns the result of the last upload; when it succeeded, a read of an accepted record is answered exactly when the cache answers such a read, with the record as it was added, unless the pack has to be downloaded and does not come intact |
| CanonicalHash.ReverseInPlace | worker/upstream.go:32-34 | the swapping loop reverses the bytes |
| CanonicalHash.Encode | worker/upstream.go:37-43 | the shifting loop yields the 52 base-32 digits |
| CanonicalHash.Canonicalize | worker/upstream.go:26-49 | accepts exactly the two spellings; a base-32 text stays as it is, and the `k`-th digit from the end for a hexadecimal one is the letter for bits `5 * k` to `5 * k + 4` of its bytes |
| CanonicalHash.FiveBitsOf | worker/upstream.go:36-46 | the digits of the big number are the five-bit groups of the bytes, each in at most two neighbouring bytes |
| CanonicalHash.DigitPair | worker/upstream.go:31 | each byte is what its two hexadecimal digits denote, in either case |
| CanonicalHash.AcceptedChars | worker/upstream.go:23-24 | the digits of the two alphabets are all that is accepted |
| CanonicalHash.ReversedNumber | worker/upstream.go:31-36 | reversed bytes read big-endian are the little-endian number |
| CanonicalHash.SameNumber | worker/upstream.go:26-46 | the text has 52 digits, starts with 0 or 1, and denotes the same 256-bit number |
| CanonicalHash.Idempotent | worker/upstream.go:26-29 | a canonical text stays as it is |
| CanonicalHash.SameTextIffSameBytes | worker/upstream.go:26-46 | two hexadecimal hashes get the same text iff they spell the same bytes |
| CanonicalHash.SameTextIffSameDigits | worker/upstream.go:23-49 | two hexadecimal hashes get the same text exactly if they differ in letter case only |
| CanonicalHash.EveryTextIsReached | worker/upstream.go:23-24 | every accepted base-32 text is the form of some hash |

## Left out

- Scheduler.Prepare: a job with an empty derivation name is prepared but outside the theorems (`ValidJob`), because `schedule` uses the empty string for "nothing selected".
- Scheduler.Loop.OnComplete: `schedule` returns at once when a publication is lost and drops later events; the run ends there.
- Protocol.Init: a pool starts with the finish vector unset, as `build` is called once per pool; each mailbox has one writer, and no two incarnations share a nonce.
- Envelopes.SealedRecord.Read: encryption and JSON are one partial function from what is stored to an envelope, and from its data to a message; that codes cannot be forged is an assumption.
- CatalogViews.CatalogView.VisitLevel: any order of a level is possible, while the source's eight workers take the places in their order, so that a visit can only be overtaken by as many as the workers manage meanwhile.
- CatalogViews.CatalogView.Visit: called for places of the two trees only, as `lookup` and `loadAll` do.
- CatalogPublish.Publisher.Upload: `reuseCatalogs` and recipient fingerprints decide outside the model whether blobs are offered; an offered blob is taken to hold the text it is listed for and to be described as the store describes it.
- CatalogPublish.Publisher.PublishTrees: uploads of a level are made one after another, in any order.
- SnapshotPublish.Publish: the tag, the configuration blob, the size of the manifest body and its upload are not modelled.
- CatalogOpen.OpenCatalog: format, version and recipient fingerprint are part of what it means that a text is a root.
- Downloads.PackDownloads.BeginRead: packs are values in a sequence that only grows, with the index as the pointer; direct fetches and their digest check are not modelled.
- Packer.NarPacker.Add: progress counters are not modelled. A small record that has to wait with the lock is one step, taken when the awaited upload has ended; what others do meanwhile comes before it.
- PackRoundTrip.FinishThenServe: reads that bypass the cache are not modelled; stored blobs are below the 10 GiB that an upload allows.
- The text of narinfos: a narinfo is a parsed record with a flag for the checks of `NarinfoFields`; `filepath.Base` is not modelled on paths that end in a slash.
- Storage size limits, retries and transport: an upload or a read succeeds or fails.
- `Plan.Resolve`, `TargetPaths`, `Static`, `Complete`, snapshot readers, live publication, retry back-off, disk reclamation and credentials: timers, plumbing or short loops that would add only easy members.
