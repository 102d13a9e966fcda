# Kilolock: a verified model of parallel apply and scope closure

Kilolock lets many `kl apply` runs write one shared Terraform state at the same time, and
plans against a slice of that state. This project models, in Dafny, the parts of the
repository that carry those two promises, and proves what they guarantee, for every input,
every interleaving and every map iteration order.

**Parallel apply.** `ApplyProtocol` is the protocol of `internal/apply/orchestrator.go` as a
step system over any number of runs: reservations with leases and a clock, the staleness
guard, the slice, Terraform as an arbitrary function of the slice, heartbeat renewals, aborts,
and the optimistic commit loop. `Serializability` proves that every history is the history of
running the committed applies one at a time in commit order, that each commit lands on the
read set it was planned against, that no update is lost, and that giving up costs eight
commits by eight other runs. Two hypotheses carry the first two results:

- *timely*: a write lands while the writer's leases are unexpired and unreleased. The
  heartbeat stops before the commit loop, so this bounds the commit loop's duration.
  `Heartbeat` proves how much lease is left when it starts, and `LeaseTiming` that writes
  within that time are timely. `ProtocolLimits` shows that a late commit breaks serializability
  for any reservations, guarded plans included.
- *shielded*: when one run writes a resource group another one relies on, their reservations
  conflict. `ProtocolLimits` proves that this is exact: a set of plans is serializable in every
  timely run, or committed on the read set it was planned against in every timely run, if and
  only if it is shielded in the corresponding sense, over documents that list each row under its
  own address, and the staleness guard makes no difference. The orchestrator reserves addresses but merges whole groups, so plans for two
  instances of one group are not shielded. `PlannedReservations` proves that plans over
  addresses without an index are, and that two plans over one graph conflict exactly when a
  dependency path joins their write sets.

`Merge`, `Staleness` and `TrunkState` model the row overlay and the guard as loops and prove
their algebra. `Orchestrator` models `Run` itself, with its backoff loop (`ReservationWait`) and
its commit loop (`CommitRetry`), against a mutable store that other runs use between any two
calls (`ApplyStore`): the outcomes of its calls determine which calls follow, what is written and
what is returned. `RunRefinement` closes the gap between the two: any number of such runs on one
trunk, in whatever order the store serves their calls, form one run of the protocol on the rows,
so its theorems hold of the documents those runs leave.

**Scope.** `ScopeExpand` is the backend's worklist walk over realized and config graphs,
`ConfigScope` and `OpenTofuGraph` are the client's closure and graph loading, and
`ScopeEndToEnd` proves what remains uncertain when the two are put together. `DepGraph` is the
reservation closure, `GraphCache`, `CacheKey` and `ModuleIndex` the cache in front of the
realized graph.

**Diffing.** `Glob` is the address matcher, with the proof that leaving without backtracking
once the address is used up loses no match. `JsonDelta` is the recursive leaf diff.
`StateEngineDelta` is the native delta commit.

Operations are specified by functions, and each of these is in turn described without itself, on
the inputs as they are given: `Json` says what value a document stands for and which documents
decode alike, `ResourceAddress` that different resources have different addresses, `ScopeOnInput`
and `ScopeEndToEnd` read the scope off recorded dependency lists and targets, `DiffOnDocuments`
reads the rows of a diff off the two documents, and the trace of a run is given by its events.

Loops and in-place updates of the source are methods with invariants; a map walked in an
unspecified order is a set from which an arbitrary element is taken. The store is assumed to
do what the orchestrator relies on: versions are append-only, a write of the merge path lands
exactly when its base serial is current, one of the native path lands on whatever is newest, reservations
on one address conflict unless both are reads and are granted all or nothing, and a renewal
extends only a lease that has not lapsed.

Where the code departs from what its documentation promises, the model follows the code:

- `internal/slice/slice.go:145-151` says bracket pairs in the middle of an address survive
  index stripping. A `for_each` key that itself holds an opening bracket is cut inside the key
  (`TrunkState.StripIndexOfInstance`), and the merge then keeps the trunk's row
  (`Merge.InstanceWriteReachesItsGroup`).
- `internal/apply/state_engine_delta.go:86-94` compares the delete set with write groups, so
  deleting a single instance is always refused (`StateEngineDelta.DeletesPassIffWholeGroups`).
- The intent check of the native path compares groups as index stripping gives them, so the
  delta of an accepted intent can carry a group the plan did not mean to write: exactly when a
  group is selected only under keys holding an opening bracket
  (`StateEngineDelta.AcceptedDeltaIsConfined`, `StateEngineDelta.BracketedKeyEscapesThePlan`).
- `internal/apply/merge.go:22-25` says the applied addresses are those that differ; they are
  all write groups present on either side (`Merge.BuildMergedState`).
- `internal/apply/orchestrator.go:262` surfaces any renewal failure before the commit, and a
  renewal cut short by stopping the heartbeat is one: such a run finishes as aborted although
  Terraform applied everything, while a run that notices an operator's abort asks to be finished as
  failed (`Orchestrator.LostLeaseNeverWrites`); the store leaves the aborted row as it is
  (`pkg/store/apply_runs.go:198-200`).
- `internal/apply/orchestrator.go:27-39` describes commits that lose a race to be retried. The
  native path hands its delta to a store call that ignores the base serial and numbers the version
  itself (`pkg/store/state.go:490-529`), while the run records the serial after the one it read
  (`internal/apply/orchestrator.go:360`). A merge-path run takes no coarse lock, so it can commit in
  between, and the native run then succeeds with that other run's version as its own
  (`Orchestrator.NativeRunRecordsAnothers`); it records its own exactly when nothing landed in
  between (`Orchestrator.RecordedVersionIsOwnIff`).
- `cmd/kl/jsondelta.go:22-25` says a change of sensitivity is reported as a changed leaf; no row is
  made for it (`JsonDelta.DeltaOfSelf` holds whatever is sensitive).
- The guard's "unchanged" is equality after decoding, so it is also blind to number spellings
  that decode to one float64 (`Staleness.RowChanged`, `Json.JsonRawEqual`).

## Model

| member | source | states |
|---|---|---|
| `Serializability.Serializable` | internal/apply/orchestrator.go:164-413 | in every timely run of shielded specs, each version's rows are those of executing its predecessors' committers one at a time in commit order, each on the trunk just before its own commit |
| `Serializability.CommitIsSerial` | internal/apply/orchestrator.go:336-402 | a timely commit writes exactly what the run would have written executed alone on the version it lands on, although its slice is older |
| `Serializability.PlanToCommitStability` | internal/apply/orchestrator.go:195-221 | whatever Terraform does, every read group of a guarded run has, at the version committed on, the row of the source serial, literally or up to JSON decoding |
| `Serializability.NoLostUpdate` | internal/apply/orchestrator.go:336-413 | in every run, lapsed leases included, a row differs between two serials only if a commit in between by a run writing that group replaced it; a run is the author of a version exactly when its own record says so, hence of one at most |
| `Serializability.ExhaustedMeansEightOthers` | internal/apply/orchestrator.go:325-413 | a run that exhausted its retries saw at least eight versions land since it entered the loop, by pairwise different other runs |
| `Serializability.FewCommitsNeverExhaust` | internal/apply/orchestrator.go:325-413 | with fewer than eight commits since the loop began, the next write lands or the loop goes round |
| `Serializability.StoppedRunsNeverCommit` | internal/apply/orchestrator.go:268-289 | a run that sees its abort before the commit loop, or whose Terraform left rows outside the footprint, is the author of no version in any run of the system |
| `ApplyProtocol.FrozenStep` | internal/apply/orchestrator.go:291-299 | every step keeps: while a sliced run's leases live, the rows it relies on stay as in its slice |
| `ApplyProtocol.ExclusiveStep` | internal/apply/runtf.go:34-41 | every step keeps: two runs with live leases have no conflicting reservations |
| `ApplyProtocol.GroupReservationsShield` | internal/apply/merge.go:119-125 | reserving every write group for writing and every read group at all shields all runs from one another |
| `ApplyProtocol.BuiltReservationsConflictIff` | internal/plan/spec.go:128-136 | the reservations of two plans conflict exactly over a common address that one of them writes |
| `ProtocolLimits.SerializableIffShielded` | internal/apply/merge.go:119-153 | exactly which reservations make every timely run of a set of plans serializable, guarded or not, over documents that list each row under its own address: those that conflict whenever one plan writes a group another relies on |
| `ProtocolLimits.OnPlanIffShielded` | internal/apply/orchestrator.go:195-221 | exactly which reservations make every guarded plan commit, over such documents, on the read set it was made for |
| `ProtocolLimits.UnshieldedRunsAreNotSerializable` | internal/apply/merge.go:119-153 | for any two plans whose reservations miss such a conflict, a timely schedule over such documents with a non-serial outcome; the guard passes in it |
| `ProtocolLimits.UnshieldedPlansGoStale` | internal/apply/staleness.go:11-51 | for any two plans whose reservations miss a write to a guarded read set, a timely schedule over such documents that commits on a changed read set |
| `ProtocolLimits.InstanceReservationsDoNotShield` | internal/plan/spec.go:128-136 | reservations for two instances of any group never conflict, although each merge replaces the group whenever its key holds no opening bracket |
| `ProtocolLimits.InstancePlansAreNotSerializable` | internal/plan/spec.go:128-136 | plans for two instances of one group are not always serializable |
| `ProtocolLimits.LateCommitIsNotSerializable` | internal/apply/orchestrator.go:262-266 | for any two plans, guarded or not and whatever their reservations, of which one writes a group the other relies on, a commit over such documents after the leases lapsed has a non-serial outcome |
| `ProtocolLimits.LateCommitMatchesNoOrder` | internal/apply/orchestrator.go:262-266 | when both write one group, the late commit matches neither serial order |
| `LeaseTiming.PromptCommitsAreSerializable` | internal/apply/orchestrator.go:183-193 | writes that land within lease minus interval of entering the commit loop, at most an interval after the last full renewal, make the run timely, and so serializable and on plan |
| `RunRefinement.InnerRunsFormOneRun` | internal/apply/orchestrator.go:164-413 | any number of `runInner`s of the merge path on one trunk, with their heartbeats, aborts and the clock, in whatever order the store serves their calls, are one run of the protocol: the same clock, rows, authors and reservations at every step, the same races lost, and for each run the verdict it returned |
| `RunRefinement.OneCall` | internal/apply/orchestrator.go:164-413 | each call of such a run is a step of the protocol that leads to where the run then stands |
| `RunRefinement.InnerRunsAreSerializable` | internal/apply/orchestrator.go:291-299 | if every write that lands finds its leases unexpired and the specs are shielded, the rows of every document such runs leave are those of executing the committed plans one at a time, and every plan still held when it committed |
| `RunRefinement.LoneRunIsServed` | internal/apply/orchestrator.go:164-413 | what is assumed of runs together can be met: every unguarded merge-path run that has the trunk to itself and meets no failure is served from grant to commit |
| `PlannedReservations.PlansConflictIffConnected` | internal/plan/spec.go:66-79 | the reservations of two plans over one graph conflict exactly when an undirected dependency path joins their write sets |
| `PlannedReservations.PlannedSpecsAreShielded` | internal/plan/spec.go:128-136 | plans over addresses without instance index are shielded |
| `Merge.BuildMergedState` | internal/apply/merge.go:78-196 | error cases exactly; otherwise the document listing, sorted and without duplicates, post-apply rows on the write groups and trunk rows elsewhere, at the next serial, with the applied groups |
| `Merge.OverlayLoop` | internal/apply/merge.go:129-153 | the update and delete loop computes the overlay for any iteration order |
| `Merge.ValidatePostApplyHasNoSurprises` | internal/apply/merge.go:226-242 | the addresses outside the footprint, sorted, each as often as it has rows; empty exactly when there is none |
| `Merge.OneSurprisePerRow` | internal/apply/merge.go:226-242 | an address outside the footprint is listed as often as it has rows |
| `Merge.MergedRows` | internal/apply/merge.go:155-183 | parsing the merged document back gives the overlay of the two documents' rows |
| `Merge.MergeOnDocuments` | internal/apply/merge.go:119-183 | between documents with one row per resource: a row is in the merged document exactly when it is a trunk row that no write names or a post-apply row that one does, and the merged document has one row per resource again |
| `Merge.AppliedOnDocuments` | internal/apply/merge.go:22-25 | the applied addresses are those a write names that have a row in either document |
| `Merge.RemergeIsIdempotent` | internal/apply/orchestrator.go:291-299 | merging the same post-apply document again changes no resource |
| `Merge.OverlaysCommuteIff` | internal/apply/merge.go:129-153 | two merges commute on rows exactly when the post-apply documents agree on the groups both write |
| `Merge.DisjointMergesCommute` | internal/apply/merge.go:119-183 | commits with disjoint write groups give the same resource list and serial in either order |
| `Merge.InstanceWriteReachesItsGroup` | internal/apply/merge.go:119-130 | a write of one instance is merged exactly when its rendered index holds no opening bracket |
| `TrunkState.IndexOfSlice` | internal/slice/slice.go:99-123 | slicing a document keeps exactly the rows in the footprint, duplicates included |
| `TrunkState.SliceHoldsFootprint` | internal/slice/slice.go:99-123 | a slice holds the rows whose address is in the footprint, each as often as the document does and in its order |
| `TrunkState.StripIndexOfInstance` | internal/slice/slice.go:152-166 | stripping an instance address gives its group exactly when the index holds no opening bracket |
| `TrunkState.StripIndexDropsLastIndex` | internal/slice/slice.go:152-166 | for every address: stripping drops a last bracket segment whose text holds no opening bracket, and nothing else |
| `TrunkState.IndexOfListing` | internal/apply/merge.go:198-209 | indexing a sorted listing of rows recovers the rows |
| `TrunkState.IndexFindsLast` | internal/apply/merge.go:198-209 | of several rows with one address the last is found, and nothing is found that is not in the document |
| `ResourceAddress.AddressIsInjective` | internal/slice/slice.go:74-83 | two resources as Terraform writes them have one address if and only if module path, mode, type and name agree; module keys may hold anything |
| `Staleness.ChangedReadSetAddresses` | internal/apply/staleness.go:11-51 | the sorted read groups whose rows differ; parse errors matter only for a non-empty read set |
| `Staleness.RowChanged` | internal/apply/staleness.go:29-46 | one comparison: presence, header fields, decoded instances; undecodable counts as changed |
| `Staleness.SameRowIff` | internal/apply/staleness.go:29-46 | two rows are the same to the guard exactly when six header fields agree and the instances documents are alike, every number in range, or absent on both sides |
| `Staleness.UnchangedOnDocuments` | internal/apply/staleness.go:11-51 | no group is reported exactly when, at the group of every address of the read set, both documents have such rows or neither has one |
| `Staleness.ReorderedRowIsSame` | internal/apply/staleness.go:29-46 | rows whose instances documents differ only in member order, at any depth, are the same to the guard exactly when the document decodes |
| `Json.MemberOrderIsForgotten` | internal/apply/merge.go:244-284 | documents that differ only in the order of object members, at any depth, decode alike (section 4 of RFC 8259) |
| `Json.DecodesToItsMeaning` | internal/apply/merge.go:256-265 | decoding fails exactly for a number out of range, and otherwise yields the value the document stands for, the last of several members with one key counting |
| `Json.DecodeAlikeIff` | internal/apply/merge.go:256-284 | two documents decode to one value exactly when their numbers are in range and they differ at most in member order, members that do not count, and lexemes of one float64 |
| `Orchestrator.Run` | internal/apply/orchestrator.go:40-114 | the whole call trace; a run whose row was created is finished exactly once, as committed with its serial and count of applied addresses if and only if it succeeded, else with nothing committed, as aborted or failed by whether the error carries a cancellation; then the reservations are released and, if and only if it was taken, the coarse lock, and nothing follows |
| `Orchestrator.RunInner` | internal/apply/orchestrator.go:154-443 | which calls a run makes and what it returns, exactly: each phase begins if and only if the one before went well (grant, guard, slice, Terraform, heartbeat, abort check, no surprises, commit, lookup); what lands is one version on the newest, which on the merge path is the merge with it under the recorded serial |
| `Orchestrator.ErrorIsTheLastCalls` | internal/apply/orchestrator.go:640-675 | the error of a run carries a cancellation if and only if its last call did |
| `CommitRetry.CommitLoop` | internal/apply/orchestrator.go:325-413 | between one and eight rounds, a next one exactly after a lost race; every lost race is paid for by a version another run landed meanwhile, so losing the eighth takes eight of them; the recorded serial is the one after the last trunk read |
| `CommitRetry.TryCommit` | internal/apply/orchestrator.go:336-402 | one round: a write is tried exactly when the trunk was read and, on the native path, the intent was trusted and the delta built; on the merge path what lands is the merge over the version read, which is the newest, with its applied addresses; on the native path it lands on whatever is newest; a conflict means another version landed since the read |
| `CommitRetry.RecordedSerialIsOwnIff` | internal/apply/orchestrator.go:360-371 | the recorded serial is that of the run's own version if and only if no version landed between the trunk read and the write; always so on the merge path; otherwise it is that of another run's version |
| `Orchestrator.RecordedVersionIsOwnIff` | internal/apply/orchestrator.go:360-423 | the same of every committed run |
| `Orchestrator.NativeRunRecordsAnothers` | internal/apply/orchestrator.go:358-371 | for every unguarded native plan and everything Terraform may leave within its footprint, a run that commits, succeeds and records a version another run wrote |
| `ReservationWait.AcquireWithWait` | internal/apply/orchestrator.go:545-617 | requested sleeps, as the store sees them, never exceed the budget in sum and follow the backoff schedule; one attempt per completed sleep; success and refusal report the last attempt; it gives up on a conflict only with the budget spent |
| `ReservationWait.BackoffDoubles` | internal/apply/orchestrator.go:566-580 | one second, then twice the last, up to ten seconds |
| `Orchestrator.WritesAreProtected` | internal/apply/orchestrator.go:168-272 | before every write in a trace: a granted acquisition and the trunk read behind it, then in one stretch the directory, Terraform, a clean heartbeat stop, a status read without an abort, and the document |
| `Orchestrator.WriteFollowsItsRead` | internal/apply/orchestrator.go:336-385 | directly before a write stands the trunk read or, on the native path, the built delta |
| `Orchestrator.LostLeaseNeverWrites` | internal/apply/orchestrator.go:183-272 | one short or failed renewal, or an abort seen by the heartbeat or after Terraform, rules out every write, whether or not Terraform was interrupted; if it was not, the run asks to be finished as failed, or as aborted when the renewal itself was cancelled |
| `Orchestrator.AtMostOneLanding` | internal/apply/orchestrator.go:380-423 | at most one write lands, and only the lookup of its version comes between it and the finish |
| `Orchestrator.UnhinderedRunCommits` | internal/apply/orchestrator.go:168-443 | with reservations granted, the guard holding, Terraform clean, no surprises, no failing store call and fewer than eight commits by others, the run commits |
| `Orchestrator.CheckGuard` | internal/apply/orchestrator.go:202-221 | the plan passes exactly when the trunk is at its source serial, or past it with no read group changed since; a failed read of that version refuses it |
| `Orchestrator.GuardOnDocuments` | internal/apply/orchestrator.go:202-221 | on documents: a plan stands at a version exactly when it names no source serial, or that of this version, or that of an earlier one that agrees with it at the group of every read-set address |
| `Heartbeat.IntervalFitsLease` | internal/apply/orchestrator.go:478-486 | one second for leases below three, a third of the lease up to ninety, thirty seconds above; below the lease exactly for leases above one second |
| `Heartbeat.LeasesOutliveTerraform` | internal/apply/orchestrator.go:183-193 | with prompt ticks and every beat renewing everything, no lease lapses before the stop, and at least lease minus interval remains then |
| `Heartbeat.FailedBeatsExtendNothing` | internal/apply/orchestrator.go:497-512 | however many beats come, ones that saw an abort or renewed less than everything leave the lease where the acquisition put it |
| `Heartbeat.RenewReservationLeases` | internal/apply/orchestrator.go:474-514 | the loop ends well exactly when every beat renewed everything and saw no abort; otherwise at the first bad beat |
| `Glob.GlobMatch` | cmd/kl/cmd_diff.go:204-272 | true exactly on the declarative language of the pattern, with a measure over the star stack that ends the search on every input |
| `Glob.CharMatches` | cmd/kl/cmd_diff.go:211-272 | `?` matches one character that is no dot, any other character itself |
| `Glob.StarMatchesRuns` | cmd/kl/cmd_diff.go:211-272 | `*` matches exactly what has no dot, `**` anything |
| `Glob.ConcatMatches` | cmd/kl/cmd_diff.go:211-272 | two patterns in a row match exactly what splits into a match of each, unless the seam would join two stars |
| `Glob.LongerRunsFail` | cmd/kl/cmd_diff.go:211-272 | the exchange argument: once the address is used up in vain, no longer run of any star on the stack matches |
| `Glob.ExitIsFinal` | cmd/kl/cmd_diff.go:266-272 | leaving without backtracking loses no match |
| `DepGraph.CloseReadSet` | internal/plan/depgraph.go:223-261 | the sorted duplicate-free list of everything reachable from the write set over edges in either direction |
| `DepGraph.DisjointIffUnconnected` | internal/plan/depgraph.go:209-222 | two closures are disjoint exactly when no undirected path joins the write sets |
| `DepGraph.CloseIsIdempotent` | internal/plan/depgraph.go:209-222 | closing a closure adds nothing |
| `ScopeExpand.ExpandScope` | internal/backend/state_engine.go:255-505 | every list of the contract: the write, read, fetch, config-required, missing, undeployed and unknown sets of the walk, sorted, with the verdict and the reservation candidates |
| `ScopeOnInput.ScopeIsWhatTrailsReach` | internal/backend/state_engine.go:336-405 | on the request as sent: fetched are the realized addresses that chains of recorded dependencies reach from what was asked for, config-required those only the configuration knows; to write are the realized resources that selectors or write candidates name |
| `ScopeOnInput.DependenciesAreAccountedFor` | internal/backend/state_engine.go:373-474 | every recorded dependency of a fetched or config-required address, state or config, is fetched, config-required, listed as undeployed or listed as unknown, the last never under a safe verdict |
| `ScopeOnInput.MissingIsAnnouncedOrUnknown` | internal/backend/state_engine.go:414-474 | on the request as sent: which addresses are missing, removed, undeployed and unknown, and when the verdict is safe |
| `ScopeExpand.WalkScope` | internal/backend/state_engine.go:338-405 | the worklist visits exactly what is reachable from the seeds and collects every dependency neither graph knows |
| `ScopeExpand.Classify` | internal/backend/state_engine.go:456-474 | removed wins over undeployed for missing addresses and is ignored for unresolved dependencies; safe exactly when nothing is unknown |
| `ScopeExpand.SafeScopeIsClosed` | internal/backend/state_engine.go:338-474 | when the verdict is safe, every dependency of a fetched or config-required address is fetched, config-required or listed undeployed |
| `ScopeExpand.SafeExactlyWhenClassified` | internal/backend/state_engine.go:414-474 | the verdict is safe exactly when missing addresses were announced as removed or undeployed and unresolved dependencies as undeployed |
| `ScopeExpand.ReservationsPartitionFetch` | internal/backend/state_engine.go:476-505 | write and read addresses partition the fetch set, one candidate each; everything fetched is realized and reachable from the seeds |
| `ConfigScope.ExpandTargets` | internal/configscope/opentofu_engine.go:67-102 | the least set holding the targets and closed under graph edges and module heads, sorted |
| `ConfigScope.ExpandedIsWhatChainsReach` | internal/configscope/opentofu_engine.go:67-102 | on the graph as loaded: an address is in the closure exactly when a chain of declared references and module calls leads to it from a target |
| `ConfigScope.BuildIntent` | internal/configscope/discovery.go:163-220 | selectors in order of first occurrence, candidates and removed addresses sorted, config nodes in address order with sorted dependencies; which addresses each holds |
| `ScopeEndToEnd.RequestFromTargets` | internal/configscope/discovery.go:163-220 | every list of the request that goes out, on targets, closure and graph |
| `ConfigScope.HeadOfHead` | internal/configscope/opentofu_engine.go:274-283 | the module head of a module head is itself |
| `ConfigScope.ModuleHeadIs` | internal/configscope/opentofu_engine.go:274-283 | the head of an address is `module.` and its next name, up to a dot or the end; addresses outside modules have none |
| `ScopeEndToEnd.OnlyStateEdgesMakeScopeUnsafe` | internal/configscope/opentofu_engine.go:45-65 | for an intent built from targets, the unknown set is exactly the state-edge dependencies of visited realized resources that are neither realized nor in the config closure |
| `OpenTofuGraph.LoadGraph` | internal/configscope/opentofu_engine.go:104-167 | per key, the block's references and, if it uses a local, the references of all locals, normalized |
| `OpenTofuGraph.EdgesAreReferences` | internal/configscope/opentofu_engine.go:104-167 | on the blocks: an address is an edge of a key exactly when a block under the key refers to it, or one uses a local and some `locals` block refers to it |
| `OpenTofuGraph.LocalsAreFollowed` | internal/configscope/opentofu_engine.go:140-167 | an address reached from a block through any chain of locals is among the block's edges |
| `OpenTofuGraph.GraphIgnoresBlockOrder` | internal/configscope/opentofu_engine.go:112-167 | the graph is the same for any order of files and blocks |
| `GraphCacheFreshness.AnswersAreFresh` | internal/backend/state_engine_graph_cache.go:112-155 | however commits interleave with requests, an answer is a graph of the requested state no older than the serial the request resolved |
| `GraphCache.Cache.Get` | internal/backend/state_engine_graph_cache.go:43-62 | hits exactly the unexpired entry, drops an expired one, touches nothing else |
| `GraphCache.Cache.Put` | internal/backend/state_engine_graph_cache.go:64-82 | the exact new state: expired entries gone, at capacity one live entry that expires first gone too, the new entry stored, nothing else changed, and the bound kept |
| `GraphCache.PutKeepsTheLive` | internal/backend/state_engine_graph_cache.go:64-106 | after storing: the new entry, and else only live entries as they were; all of them if there was room, otherwise all but one that no other live entry expires before |
| `GraphCache.Cache.EvictOne` | internal/backend/state_engine_graph_cache.go:92-106 | removes exactly one entry, one that expires first |
| `CacheKey.KeyInjective` | internal/backend/state_engine_graph_cache.go:108-110 | the key determines state id and serial, whatever bars the id contains |
| `ModuleIndex.BuildModuleMembers` | internal/backend/state_engine_graph_cache.go:165-226 | looking a module up gives what a full scan of the resources gives |
| `ModuleIndex.MembersLiveInside` | internal/backend/state_engine_graph_cache.go:165-226 | a module lists exactly the resources whose module path, read off the address if there is none, is the module or lies inside it |
| `ModuleIndex.SnapshotIsWellFormed` | internal/backend/state_engine_graph_cache.go:140-145 | a snapshot built this way meets what the scope walk relies on |
| `JsonDelta.DiffJson` | cmd/kl/jsondelta.go:84-157 | a parse error exactly when a document does not decode; otherwise exactly the rows of the recursive definition, each once, by rendered path, each marked sensitive exactly when that path is |
| `DiffOnDocuments.RowsTellTheDocuments` | cmd/kl/jsondelta.go:102-201 | every row shows what the two documents hold at its path, null where they hold nothing; added and removed mean that on the way there one document has nothing where the other has something, changed that both hold something, and not the same |
| `DiffOnDocuments.RowsAreApart` | cmd/kl/jsondelta.go:102-201 | each place is reported once: no row twice, none above another |
| `JsonDelta.DeltaIsAPatch` | cmd/kl/jsondelta.go:102-201 | applying the rows, in any order, to the non-null scalar leaves of the old document gives exactly those of the new one |
| `JsonDelta.DiffIsAPatch` | cmd/kl/jsondelta.go:84-101 | so does applying the sorted rows that `diffJSON` returns |
| `JsonDelta.DeltaOfSelf` | cmd/kl/jsondelta.go:108-157 | a document has no delta with itself |
| `JsonDelta.DeltaMirrors` | cmd/kl/jsondelta.go:108-201 | swapping the documents swaps added with removed and before with after, row by row |
| `StateEngineDelta.SelectSliceResources` | internal/apply/state_engine_delta.go:360-399 | the selected groups and instances; an error exactly when an index that must be derived is malformed |
| `StateEngineDelta.DeltaIsExact` | internal/apply/state_engine_delta.go:360-399 | an instance is in the delta exactly when the exact write set has its group address or that with its index in brackets; named groups come whole, and nothing else is carried |
| `StateEngineDelta.DeltaKeepsOrder` | internal/apply/state_engine_delta.go:360-399 | the delta keeps the order of the groups |
| `StateEngineDelta.ValidateTrustedIntent` | internal/apply/state_engine_delta.go:55-95 | each verdict exactly, with the sorted missing and extra groups |
| `StateEngineDelta.AcceptedDeltaIsConfined` | internal/apply/state_engine_delta.go:55-95 | after an accepted intent, every group in the delta is one the spec planned to write if and only if no group is selected under bracketed keys alone |
| `StateEngineDelta.BracketedKeyEscapesThePlan` | internal/apply/state_engine_delta.go:67-76 | for every group and every key holding an opening bracket, an accepted intent whose delta carries an unplanned group |
| `StateEngineDelta.GroupIffNamed` | internal/slice/slice.go:125-166 | a group is in the write groups exactly when the writes name it or one of its instances by a key without an opening bracket |
| `StateEngineDelta.DeletesPassIffWholeGroups` | internal/apply/state_engine_delta.go:86-94 | deletes taken from the write set pass exactly when none names an instance |
| `StateEngineDelta.DetectOutputDelta` | internal/apply/state_engine_delta.go:258-291 | writes are exactly the outputs that are new or encode differently; deletes the sorted vanished names |
| `StateEngineDelta.OutputDeltaIsExact` | internal/apply/state_engine_delta.go:258-291 | applying the output delta to the trunk outputs gives the post-apply outputs up to canonical encoding |
| `Ordering.DedupeSortedStrings` | internal/configscope/discovery.go:309-337 | the ascending list of the non-empty elements, by the written-out exchange sort |
| `Ordering.LessAtFirstDifference` | internal/configscope/discovery.go:326-334 | the order of strings is decided where they first differ |

## Left out

- Serializability.Serializable: speaks of resource rows; outputs and check results are taken wholesale from the last committer and are neither serializable nor commutative.
- Serializability.Serializable: Terraform's written rows are a function of the rows the run reads or writes, which is what the dependency closure is for; provider side effects are not modelled.
- ProtocolLimits.SerializableIffShielded: the groups the plans touch are taken to hold a dot, as every resource address does; a group without one can hold no row.
- ProtocolLimits.OnPlanIffShielded: likewise.
- ResourceAddress.AddressIsInjective: types and resource names are taken to hold no dot, and module names no dot and no closing bracket, as Terraform has them.
- Heartbeat.LeasesOutliveTerraform: ticks are assumed prompt and renewals served at the tick; scheduling delays of the Go runtime are not modelled.
- CommitRetry.TryCommit: on the native path the store builds the new document from the delta, so of that document only its serial and its author are known here; what the delta holds is `StateEngineDelta`.
- Orchestrator.Run: the text of errors, the planned and failed counters and logging are not modelled; store calls may fail at will.
- Orchestrator.RunInner: which error is returned when Terraform fails while the heartbeat also failed is left open, as it depends on which of the two is noticed first.
- RunRefinement.InnerRunsFormOneRun: runs of the native path, whose documents the store builds, are not among the runs of the protocol; an abort that comes after a run's last step, but before its row is finished, counts as its release.
- Glob.GlobMatch: a character stands for one byte, so `?` matches one byte of a multi-byte character, as in the code.
- JsonDelta.ScalarEqual: a number is its canonical float64 spelling, so negative zero is told apart from zero, which the float comparison of the code does not do.
- JsonDelta.DiffJson: rendering of values, redaction and the parsing of the sensitive paths are not modelled; their set and the rendering of paths are parameters, and paths are segment lists because keys may contain dots and brackets.
- ScopeExpand.ExpandScope: notes, diagnostics and trimming of whitespace are not modelled; addresses are taken as trimmed.
- ModuleIndex.BuildModuleMembers: paths and addresses are taken as trimmed.
- StateEngineDelta.SelectSliceResources: instances are taken as decoded; a decoding error of the instances document is not modelled.
- GraphCache.Cache.constructor: a disabled cache (no capacity or no lifetime) is a missing cache in the code and has no object here.
- OpenTofuGraph.LoadGraph: parsing of HCL and extraction of references from expressions are not modelled; blocks come as reference lists and malformed blocks are skipped beforehand.
- The assembly of the slice footprint from several lists (`effectiveSliceFootprint`); the footprint is a parameter.
- The heuristic discovery engine, engine selection and fallback: plain branching.
- `DepGraph.Edges`, the reading of plan expressions and reference normalization: flattening and string splitting with no deeper property.
- HTTP handlers, authentication, JSON envelopes, the command line and its rendering.
- The store itself, beyond how its writes number their versions, including the plain Terraform backend's optimistic merge and how a delta is put on a document; its contract is assumed.
- Running Terraform, temporary directories and file copying: Terraform is an arbitrary function or outcome.
- `detectAppliedWriteSet` and `plan.Introspect`: side paths the orchestrator does not use.
