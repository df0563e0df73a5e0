# Shinmon, modelled

Shinmon is an API gateway. A control plane edits PostgreSQL tables and publishes
immutable configuration snapshots, replicated gateways load them, authenticate
API keys and route requests, and Redis holds shared counters and circuit state.
This project models the code between those parts and proves what it is relied on
for. `dafny verify dfyconfig.toml` checks all of it.

| file | subject |
|---|---|
| `Prelude`, `Arithmetic`, `Tables` | text order, ordered listing, products and quotients; the rows of the schema |
| `ControlPlane` | every admin operation as a function of the tables its transaction saw |
| `Store`, `StoreEffects`, `Answers` | the same operations statement by statement: the statements of a transaction write the tables in place, an error takes them all back; what each operation means to whoever looks at the tables afterwards, and exactly which requests succeed |
| `Frames`, `PortLifecycle`, `ConfigurationLifecycle`, `TableRules`, `KeyChains`, `OptimisticLocking`, `UnchangedListeners` | what every request keeps, and what therefore holds in every state a run can reach from a freshly migrated schema |
| `LastWrites`, `AccessOverRuns`, `Authorship` | every row of a reachable state is what the last request on it said; what that means for keys, switched-off consumers, authors and approvers |
| `Allocation`, `PermissionRace` | listener allocation one SQL statement at a time, beside other transactions; and a run and a schedule that leave a listener without its permission |
| `SnapshotCompiler`, `SnapshotMeaning` | `buildSnapshot` with its loops, and what a built snapshot is, said without them |
| `Loading`, `Publication`, `Authentication`, `Generations` | what a replica reads; when a published configuration loads; who authenticates; why a skipped refresh misses nothing |
| `FreshInstallation`, `LateCommit` | a freshly migrated schema, and a run from it on which a skipped refresh does miss something |
| `Replica` | one replica's event loop against a growing history of commits |
| `WeightedSelection`, `HealthCarry`, `CompiledHealth`, `LimitedBody` | weighted round robin, upstream health across swaps and on the compiled pools, the request body limit |
| `Redis`, `CircuitBreaker`, `RequestLimiter` | the two Lua scripts over keys that expire, against the history of calls |
| `PortRemap`, `RemappedRuns` | the six statements of migration 006, alone and after any run |

A run (`ControlPlane.IsRun`) is any sequence of admin requests, in any
environments, with any outcome, starting from the schema after the migrations.
Times are natural numbers on one clock. Library functions (MAC, patterns, regular
expressions, address parsing, letter case) are arbitrary deterministic functions in
`Settings` and `Platform`; `TableRules.Sane` asks only that a printed address parses
to itself and that a MAC has 32 bytes. `Authentication.NoCollision` asks that the MAC
tells the presented string from the keys handed out, and nothing about other strings.

## What came out differently than the code or its comments say

- Validation (`internal/controlplane/store.go:698`) looks at permissions and enabled
  upstreams of the live tables and ignores whether services and versions are enabled.
  `Publication.ValidatedDraftsLoadIffServiceable` gives the exact condition under which a
  validated draft loads, `Publication.SwitchingOffAServicePassesValidation` a validated
  draft no gateway can load.
- The refresh test compares timestamps taken when a transaction begins
  (`internal/dataplane/runtime.go:180`). Skipping is sound when every commit since the load
  is stamped above the loaded generation. For each credential request `Generations` gives the
  exact condition under which the comparison notices it, and `LateCommit.ARevocationIsSkipped`
  a run on which the creation of a second consumer overtakes a revocation: it is skipped, and
  the revoked key goes on being accepted.
- Allocation reads the required permission without a lock, and `required_permission` has no
  foreign key (`internal/controlplane/store.go:337`). A permission deleted at that moment leaves a
  listener whose permission does not exist: `PermissionRace.APermissionVanishes` is such a run and
  schedule, and `ConcurrentAllocation.PermissionsSurviveIff` says of every schedule exactly when it
  does not happen.
- Activation changes listener statuses without raising their row versions
  (`internal/controlplane/store.go:743`), so an update prepared before it still succeeds after it
  (`OptimisticLocking.ActivationKeepsRowVersions`). `UnchangedListeners.UnchangedVersionMeans` gives
  exactly what an unchanged row version guarantees over a run.
- Every snapshot swap makes new listeners, whose round-robin cursors start at zero
  (`internal/dataplane/snapshot.go:250`). An upstream is never chosen if and only if no snapshot
  lives to serve more requests than the weight that sorts before it
  (`WeightedSelection.SwapsRestartTheRound`).
- The circuit counter's window starts at its first failure
  (`internal/coordination/redis.go:113`). Threshold failures within one duration need not
  open the circuit; `CircuitBreaker.LongBurstsTrip` and `ShorterBurstsMayNotTrip` give the
  exact number that always does.
- Migration 006 says that custom pools are left untouched
  (`internal/database/migrations/006_remap_default_ports.sql:1`), but its DELETE looks only at
  `port_min`: a custom range that begins at the old default loses its inventory, or the
  migration fails if a listener stands there. The model follows the code
  (`PortRemap.CustomRangeIsKeptIff`, `PortRemap.AHalfRangeLosesItsPorts`).

## Model

| member | source | states |
|---|---|---|
| StoreMethods.Store.UpdatePortStatus | internal/controlplane/store.go:240-293 | succeeds exactly when the port may become what is asked (blocking always; releasing only with a disabled listener or none; cooling down only unassigned), and then nothing but the port and the listener on it changes: a released port is free and its listener gone, a blocked or cooling one carries at most a disabled listener |
| StoreMethods.Store.AllocateListener | internal/controlplane/store.go:310-362 | succeeds exactly when the request is well formed in every field, service, version and permission are there and an acceptable port is free; it takes the lowest one, the row says what was asked (methods sorted, defaults filled in), and a refusal names the first thing that is wrong |
| StoreMethods.Store.UpdateListener | internal/controlplane/store.go:364-383 | succeeds exactly when it names the listener's current row version; exactly that listener and the one port that is its own change, to the status that belongs to it, and every second update expecting the same version fails |
| StoreMethods.Store.DeletePermission | internal/controlplane/store.go:470-488 | in an existing environment it succeeds exactly for a permission no grant and no listener uses; its name is gone, every other name stays, and every consumer is granted what it was |
| StoreMethods.Store.AssignPermissions | internal/controlplane/store.go:892-909 | the insert loop grants exactly the named permissions, or stops with Invalid at a name that is malformed, unknown or for a missing consumer, leaving what it had granted for the transaction to undo |
| StoreMethods.Store.CreateConsumer | internal/controlplane/store.go:490-508 | succeeds exactly when name and permissions are acceptable; the enabled consumer appears with exactly the named grants and every other consumer keeps its own, or nothing changes, not even when a later grant fails after the row was written |
| StoreMethods.Store.UpdateConsumer | internal/controlplane/store.go:527-550 | succeeds exactly on the expected row version with assignable permissions; the row says enabled or not as asked, grants are replaced, not merged, and a grant rejected after the row and the old grants were overwritten restores both |
| StoreMethods.Store.DeleteConsumer | internal/controlplane/store.go:552-571 | succeeds exactly for a consumer of the environment without keys; nothing is granted to it any more and no replica, at any moment, reads anything else than before |
| StoreMethods.Store.IssueKey | internal/controlplane/store.go:573-597 | succeeds exactly for an enabled consumer of the environment with assignable permissions and a time still to come; the row is the consumer's, with the expiry asked for and no predecessor; the consumer is granted exactly the named permissions more; the raw key handed out is the one a gateway finds |
| StoreMethods.Store.RotateKey | internal/controlplane/store.go:618-654 | succeeds exactly on an unrevoked key of the environment; the new row names the old key as its predecessor and has its consumer, its expiry and its name with " rotation", the old row gains the revocation time alone, no other row changes, and the raw form handed out is the one a gateway finds |
| StoreMethods.Store.RevokeKey | internal/controlplane/store.go:656-671 | succeeds exactly on an unrevoked key of the environment, whose row gains the revocation time alone; afterwards it is in force at no moment and every other key is exactly when it was before |
| StoreMethods.Store.CreateConfiguration | internal/controlplane/store.go:673-692 | a new draft whose author is the actor of the request, with exactly the listeners that are not disabled; no replica of any environment loads anything else than before |
| StoreMethods.Store.ValidateConfiguration | internal/controlplane/store.go:694-711 | succeeds exactly on a draft while the permission and an enabled upstream of every live listener of the environment exist: it looks at the live tables, not at the stored snapshot; no replica notices |
| StoreMethods.Store.ApproveConfiguration | internal/controlplane/store.go:757-771 | succeeds exactly for an actor of 1 to 128 characters who neither wrote nor approved the validated version; it gains that one approver, no other version's approvals change, and no replica notices |
| StoreMethods.Store.ActivateConfiguration | internal/controlplane/store.go:713-755 | succeeds exactly on a validated version with the required approvals while the expected version, if one is named, is the active one; afterwards it is the active one of its environment, every other environment keeps its own, and none of its approvers wrote it; a failure after superseding restores the superseded row |
| StoreMethods.Store.RollbackConfiguration | internal/controlplane/store.go:773-793 | succeeds exactly for a version of the environment that is or was active; the new version is the active one, carries the source's snapshot and the actor as its author, and every other environment keeps its own; a failure after superseding restores the superseded row |
| StoreMethods.Store.Fail | internal/controlplane/store.go:854-864 | an error ends the transaction with the tables it began with, whatever its statements had written |
| StoreMethods.Store.Serve | internal/controlplane/store.go:854-864 | any request keeps the invariant of the store, succeeds exactly when it is acceptable, leaves the next state of a run, and leaves every row of every table as it was or as the request says |
| StoreMethods.ServeAll | internal/controlplane/store.go:854-864 | requests served one after the other by one store on a fresh schema go through the states of a run, so that all that is proved of runs holds of the store |
| Answers.SucceedsIffAcceptable | internal/controlplane/store.go:58-793 | for each of the 23 operations, on the tables of any run: it succeeds exactly when its fields are in range and what it names is there, free, current or in the right state, written out column by column |
| LastWrites.EveryStepMeans | internal/controlplane/store.go:58-793 | a row is there after a request exactly when the request writes it or it was there and is not erased, and says what the request says or what it said |
| LastWrites.EverythingIsAsLastWritten | internal/controlplane/store.go:58-793 | over every run: a row is there exactly when some request wrote it and none erased it since, or it was there from the start, and it says what the last request that wrote it said: the columns of services, versions, upstreams, consumers, grants, keys, revocations, listeners, policies, statuses, stamps, configurations, stages and approvals |
| AccessOverRuns.DisabledConsumersStayOut | internal/dataplane/runtime.go:92-92 | after a successful update that switches a consumer off, no replica accepts a key of that consumer, whichever later state it has loaded, until a later request switches the consumer on |
| AccessOverRuns.RotationExtendsTheChain | internal/controlplane/store.go:618-654 | in every state after a rotation the new key's history is the old key's with the new key in front; both have one origin, one consumer and one expiry |
| AccessOverRuns.IssueStartsAChain | internal/controlplane/store.go:573-597 | in every state after an issue the key is a chain of its own, of the consumer and with the expiry of the request |
| Authorship.AuthorsNeverApprove | internal/controlplane/store.go:757-771 | in every state after a request drafted a version, its author is the actor of that request, who is never among its approvers |
| Authorship.ApproversAreWhoApproved | internal/controlplane/store.go:757-771 | the approvers of a version are exactly the actors of the approval requests that succeeded |
| Authorship.SnapshotsWereReviewedByOthers | internal/controlplane/store.go:713-793 | over every run: the version at the end of the chain of whatever was ever active is a bootstrap one, or a request of the run drafted it and enough actors other than that request's approved it by requests of their own |
| PortLifecycle.EveryRequestKeeps | internal/controlplane/store.go:240-382 | every admin request keeps ports and listeners in bijection with agreeing statuses and leaves the set of ports alone |
| PortLifecycle.AlwaysConsistent | internal/controlplane/store.go:240-382 | the same in every state reachable from a fresh schema |
| PortLifecycle.ConsistentTablesMeetTheSchema | internal/database/migrations/002_listener_port_reuse.sql:3-5 | consistent tables satisfy the partial unique index and both foreign keys, and two listeners never share a port, not even disabled ones |
| PortLifecycle.DatabaseNeverObjects | internal/controlplane/store.go:275-284 | with consistent tables neither the unique index nor a foreign key ever rejects an allocation, a listener change or a release |
| PortLifecycle.AllocationTakesLowest | internal/controlplane/store.go:341-358 | run alone a well-formed allocation succeeds exactly when an acceptable port is free and takes the lowest one |
| PortLifecycle.ReleaseUndoesAllocation | internal/controlplane/store.go:270-285 | allocate, disable, release: the tables are the original ones again |
| ConcurrentAllocation.SchedulesStayGood | internal/controlplane/store.go:327-361 | in every interleaving of allocation statements, commits, aborts and other requests each allocation in flight fits the committed tables, and these meet the constraints of the schema |
| ConcurrentAllocation.NoPortIsGivenTwice | internal/controlplane/store.go:341-358 | two allocations that are in flight, or committed and still present, never hold the same port |
| ConcurrentAllocation.TheIndexNeverObjects | internal/database/migrations/002_listener_port_reuse.sql:3-5 | the insert never waits for the partial unique index and never fails on it |
| ConcurrentAllocation.CommitIsOneAllocation | internal/controlplane/store.go:354-358 | committing is, at that moment, one atomic allocation of the locked port |
| ConcurrentAllocation.AbortReturnsThePort | internal/controlplane/store.go:854-864 | an abort changes no committed table and leaves its port free and unlocked |
| ConcurrentAllocation.APermissionCanVanish | internal/controlplane/store.go:470-488 | whenever an allocation is about to commit and no committed row uses its permission, deleting the permission succeeds and the commit after it leaves a listener whose permission does not exist |
| ConcurrentAllocation.CommitKeepsPermissionsIff | internal/controlplane/store.go:337-358 | a commit keeps every listener's permission existing if and only if its own still exists at that moment |
| ConcurrentAllocation.PermissionsSurviveIfSpared | internal/controlplane/store.go:327-361 | over every schedule in which no deletion hits a permission that an allocation in flight requires, every committed listener's permission exists |
| ConcurrentAllocation.PermissionsSurviveIff | internal/controlplane/store.go:327-361 | over every schedule: every committed listener's permission exists in every state if and only if every commit finds its allocation's permission still there |
| PermissionRace.ADeletionOvertakes | internal/controlplane/store.go:470-488 | from any tables on which an allocation can succeed and nothing committed uses its permission, a schedule in which allocation and deletion both succeed and the listener is left without its permission |
| PermissionRace.APermissionVanishes | internal/controlplane/store.go:327-361 | a concrete run from a fresh schema and such a schedule after it |
| ConcurrentAllocation.AloneItIsAllocateListener | internal/controlplane/store.go:327-361 | with nothing else in flight the statements amount to the atomic allocation, success or failure |
| ConfigurationLifecycle.EveryRequestKeeps | internal/controlplane/store.go:673-793 | every request keeps one active version per environment and the provenance of active versions, and only moves statuses forward |
| ConfigurationLifecycle.ExactlyOneActiveVersion | internal/database/migrations/001_control_plane.sql:86-87 | in every reachable state each environment has exactly one active version, and MAX(id) over the active ones is it |
| ConfigurationLifecycle.AlwaysForward | internal/controlplane/store.go:673-793 | between any two states of a run no version is lost or rewritten and no status goes back |
| ConfigurationLifecycle.ActiveAtMostOnce | internal/controlplane/store.go:713-755 | an id is active over one unbroken stretch of a run, with one and the same row |
| ConfigurationLifecycle.CompareAndSwapSucceedsOnce | internal/controlplane/store.go:720-725 | of all activations of a run expecting the same active version at most one succeeds; later ones get a conflict |
| ConfigurationLifecycle.ChainEndsInAReviewedRoot | internal/controlplane/store.go:773-793 | along source ids, which strictly fall, every version was itself active in the same environment and carries the same snapshot, and the last is a bootstrap version or was approved by enough people other than its author |
| ConfigurationLifecycle.SnapshotsAreReviewed | internal/controlplane/store.go:713-793 | over every run: the last version of the chain of whatever was ever active was itself active, is no newer, has the same environment and snapshot, and is a bootstrap version or has enough approvers other than its recorded author; Authorship.SnapshotsWereReviewedByOthers says it of the requests |
| TableRules.EveryRequestKeepsRows | internal/controlplane/store.go:58-671 | references resolve, names and prefixes are unique, stored values are ones the data plane accepts: kept by every request |
| TableRules.AlwaysRowsSound | internal/controlplane/store.go:58-671 | the same in every reachable state |
| TableRules.PermissionsOutliveListeners | internal/controlplane/store.go:470-488 | no access request removes a permission that a listener requires |
| TableRules.NormalizedMethodsExist | internal/controlplane/store.go:949-968 | the stored method list is never empty |
| OptimisticLocking.NoUpdateIsLost | internal/controlplane/store.go:150-221 | over every run: once an update of a service version or upstream has succeeded, every later one that expects the version it replaced fails |
| OptimisticLocking.NoServiceUpdateIsLost | internal/controlplane/store.go:96-110 | over every run: the same for services, which are matched by name: names are unique and never change |
| OptimisticLocking.NoConsumerUpdateIsLost | internal/controlplane/store.go:527-550 | over every run: the same for consumers, unless the consumer was deleted in between |
| OptimisticLocking.NoListenerUpdateIsLost | internal/controlplane/store.go:364-408 | over every run: once a status or policy update of a listener has succeeded, every later one that expects the version it replaced fails, unless the listener was deleted in between |
| OptimisticLocking.ActivationKeepsRowVersions | internal/controlplane/store.go:743-743 | the case in which an unchanged version means a changed listener: activation turns a reserved listener active without raising its row version, and an update prepared before it still succeeds; UnchangedListeners.UnchangedVersionMeans shows that there is no other |
| OptimisticLocking.StaleListenerUpdatesFail | internal/controlplane/store.go:364-408 | of two listener updates, of status or of policy, expecting the same row version whichever comes first makes the other fail with nothing in between |
| UnchangedListeners.EqualVersionsStep | internal/controlplane/store.go:240-408 | a request that leaves a listener its row version leaves the whole row, unless it activates a version of its environment, which changes status and stamp alone |
| UnchangedListeners.StatusChangesIff | internal/controlplane/store.go:743-743 | at an unchanged row version the status changes if and only if the request activates a version of the listener's environment and meets it reserved |
| UnchangedListeners.AlwaysStampedWithActive | internal/controlplane/store.go:713-755 | in every reachable state the version a listener is stamped with is or was active |
| UnchangedListeners.UnchangedVersionMeans | internal/controlplane/store.go:364-408 | over any part of a run in which a listener stays and keeps its row version: its status differs if and only if an activation of its environment met it reserved in between, the whole row is the same if and only if no version of its environment was activated in between, and nothing but status and stamp differs |
| SnapshotCompiler.BuildSnapshot | internal/dataplane/snapshot.go:152-264 | the loops that fill the maps and sort the pools compute the specification function, errors included, which SnapshotMeaning.BuildMeaning describes field by field |
| SnapshotCompiler.AllowedAddress | internal/dataplane/snapshot.go:266-273 | true exactly when some prefix contains the address |
| SnapshotCompiler.SortPool | internal/dataplane/snapshot.go:246-246 | an ordered permutation of the pool |
| SnapshotMeaning.BuildMeaning | internal/dataplane/snapshot.go:152-264 | a snapshot loads exactly when it is Loadable, and then holds one listener per live row, field by field (its own permission, methods, types, expression and policy, its version's limits, the four default types when it names none), with the id-sorted pool of its version, and one credential per record, nothing else |
| SnapshotMeaning.DescriptionIsUnique | internal/dataplane/snapshot.go:152-264 | that description determines the snapshot |
| SnapshotMeaning.OrderDoesNotMatter | internal/dataplane/snapshot.go:152-264 | neither success nor result depends on the order of the JSON arrays or of the key rows |
| Loading.LoadReads | internal/dataplane/runtime.go:92-113 | Load reads one record for each key whose consumer is enabled and of the environment, that was never revoked and has no expiry or one to come, and nothing else; the record says what the row says and names exactly what is granted |
| Loading.GrantedNamesMean | internal/dataplane/runtime.go:92-92 | the aggregated names are those granted to the consumer |
| Loading.CaptureSays | internal/controlplane/store.go:677-683 | a draft holds exactly the services, versions and upstreams of the environment and its listeners that are not disabled, each column by column as its row says |
| Loading.CaptureHasUniqueRows | internal/controlplane/store.go:677-683 | ids are unique in every array of a captured draft |
| Loading.BootstrapLoads | internal/database/migrations/004_bootstrap_active_configuration.sql:1-28 | on a freshly migrated schema every gateway can load, and serves nothing |
| Publication.CaptureLoadsIffServiceable | internal/controlplane/store.go:673-711 | when the tables pass validation a capture of them loads if and only if each reserved or active listener's version and service are enabled, and then serves exactly their ports |
| Publication.CaptureLoadsIffReady | internal/controlplane/store.go:673-692 | without validation: a capture of any sound tables loads if and only if each reserved or active listener's version and service are enabled and its version has an enabled upstream, and then serves exactly their ports |
| Publication.EverySnapshotWasCaptured | internal/controlplane/store.go:673-793 | every stored snapshot of a run is the empty one of a bootstrap version or was captured from an earlier state of the run in the same environment |
| Publication.ActiveConfigurationLoadsIff | internal/dataplane/runtime.go:70-129 | in every reachable state the active configuration loads if and only if it is a bootstrap one, which serves nothing, or the tables it was captured from were ready, and then serves exactly the ports routed there, whatever has happened to the tables since |
| Publication.StoredSnapshotsAreSound | internal/controlplane/store.go:673-683 | in every reachable state the ids within each stored snapshot are unique and its ports are in the inventory |
| Publication.ValidatedDraftsLoadIffServiceable | internal/controlplane/store.go:673-711 | the same for a draft created and validated back to back anywhere in a run, with the credentials of any state |
| Publication.SwitchingOffAServicePassesValidation | internal/controlplane/store.go:698-704 | switching off the service of a routed listener keeps validation passing and makes the next capture unloadable |
| KeyChains.LedgerAlwaysSound | internal/controlplane/store.go:573-671 | in every reachable state the stored keys are exactly those handed out, each with the prefix and MAC of its raw form, and every predecessor is older, revoked and of the same consumer and expiry |
| KeyChains.KeysAreKept | internal/controlplane/store.go:618-671 | over any part of a run no key is removed or rewritten and a revocation is final |
| KeyChains.ChainsShareOwnerAndExpiry | internal/controlplane/store.go:618-654 | along a chain, which rotations make (AccessOverRuns.RotationExtendsTheChain), consumer and expiry never change and all but the newest key are revoked |
| KeyChains.OneLiveKeyPerChain | internal/controlplane/store.go:618-671 | rotation chains are disjoint paths and at most one key of each is unrevoked, however often it was rotated |
| KeyChains.AtMostOneLiveKeyEver | internal/controlplane/store.go:618-671 | the same in every reachable state |
| KeyChains.RotationKeepsTheNumberOfLiveKeys | internal/controlplane/store.go:618-654 | rotation trades one unrevoked key for another |
| Authentication.PrefixRoundTrip | internal/controlplane/store.go:910-921 | the prefix stored by generateKey is the one keyPrefix reads back |
| Authentication.KeyPrefixMeans | internal/dataplane/handler.go:307-321 | exactly the strings of shn_, twelve characters, a dot and 52 more, all of them dots, digits or a to f, have a prefix, and it is those twelve |
| Authentication.RawKeyIsInjective | internal/controlplane/store.go:910-921 | the raw form determines the secret |
| Authentication.AuthenticatesIffIssuedAndLive | internal/dataplane/handler.go:286-321 | a string authenticates exactly when it is the raw form of an issued key whose consumer is enabled and of the environment, which has no revocation time, and whose expiry, if any, is still to come; the credential says what the row says and carries exactly the granted names |
| Authentication.IssueToAuthenticate | internal/dataplane/handler.go:286-321 | the same over every run for a replica loaded from any of its states: a string is accepted if and only if it was handed out for a key in force |
| Authentication.RevokedKeysStayOut | internal/controlplane/store.go:656-671 | no replica that has loaded the state of a revocation, or any later one, accepts the key again |
| Generations.EqualGenerationsMeanEqualRecords | internal/dataplane/runtime.go:180-184 | when what was committed between two states is stamped above the generation of the first, equal credential generations mean equal credential records, even if keyless consumers were deleted in between |
| Generations.EqualGenerationsMeanEqualSnapshots | internal/dataplane/runtime.go:186-205 | with an equal active id too, both states give every replica the same snapshot: skipping the refresh is sound |
| Generations.IncreasingStampsExceed | internal/dataplane/runtime.go:180-184 | stamps that increase in commit order give that hypothesis from any state on |
| Generations.GenerationIsTheGreatestStamp | internal/dataplane/runtime.go:180-184 | the compared number is the greatest time at which a consumer of the environment was changed or a key of one issued or revoked, and zero when there is none |
| Generations.LoadTimeDoesNotMatter | internal/dataplane/handler.go:295-297 | two loads of the same tables at different times decide alike, because expiry is rechecked per request |
| Generations.RevocationIsNoticedIffStampedLate | internal/dataplane/runtime.go:180-184 | a revocation changes the generation if and only if its stamp exceeds every earlier one |
| Generations.IssueIsNoticedIffStampedLate | internal/dataplane/runtime.go:180-184 | so does issuing a key |
| Generations.RotationIsNoticedIffStampedLate | internal/dataplane/runtime.go:180-184 | and rotating one |
| Generations.ConsumerUpdateIsNoticedIff | internal/dataplane/runtime.go:180-184 | an update of a consumer, which replaces its stamp, changes the generation if and only if its stamp exceeds every earlier one, or is below the greatest and that was this consumer's own alone |
| Generations.ConsumerCreationIsNoticedIffStampedLate | internal/dataplane/runtime.go:180-184 | a new consumer is noticed if and only if its stamp exceeds every earlier one |
| Generations.ConsumerDeletionIsNoticedIff | internal/dataplane/runtime.go:180-184 | deleting a consumer changes the generation if and only if the greatest stamp was its own alone |
| Generations.LateCommitIsMissed | internal/dataplane/runtime.go:180-184 | a revocation stamped no later than the generation leaves both compared numbers as they were while the key is gone from the records |
| LateCommit.ARevocationIsSkipped | internal/dataplane/runtime.go:180-205 | a concrete run from a fresh schema: consumer created at 10, key issued at 11, revocation of the key begun at 12 and overtaken by another consumer created at 13; a replica that loaded before the revocation committed skips its poll and goes on accepting the revoked key |
| ReplicaRefresh.Runtime.Load | internal/dataplane/runtime.go:70-129 | a load replaces the three fields together, or none of them when it fails |
| ReplicaRefresh.Runtime.RefreshIfChanged | internal/dataplane/runtime.go:186-205 | skips exactly when both numbers are the recorded ones, reloads when they are not and the load succeeds, fails otherwise without a change |
| ReplicaRefresh.EveryStepKeeps | internal/dataplane/runtime.go:131-178 | each step of the event loop beside the admin API keeps the cache equal to one load; only a finished load changes it |
| ReplicaRefresh.SnapshotIsAlwaysOfOneState | internal/dataplane/runtime.go:131-178 | over every interleaving of polls, delivered and dropped notifications, failures and commits the snapshot is that of one committed state, whose index never goes back |
| ReplicaRefresh.SkippedPollsMissNothing | internal/dataplane/runtime.go:186-205 | a poll that skips misses nothing, also when a commit falls between its two queries |
| ReplicaRefresh.IncreasingStampsSuffice | internal/dataplane/runtime.go:180-205 | stamps that increase in commit order are enough for the hypothesis of the two polling results, in every world of a trace |
| ReplicaRefresh.SkipsInATraceMissNothing | internal/dataplane/runtime.go:131-205 | over every trace whose commits are stamped in order no poll that skips misses anything |
| ReplicaRefresh.ANotificationReloads | internal/dataplane/runtime.go:131-178 | a notification that gets through makes the latest state current also where a poll would skip, unless that state does not build; then nothing changes |
| ReplicaRefresh.OnePollConverges | internal/dataplane/runtime.go:145-157 | once commits stop one poll whose load succeeds makes the latest state current; a failing one changes nothing and is tried again |
| ReplicaRefresh.AFailureIsRetried | internal/dataplane/runtime.go:131-178 | a failing query ends the attempt without a trace in the replica, and the next poll makes the latest state current if it builds |
| WeightedSelection.Balancer.TakeTicket | internal/dataplane/snapshot.go:84-84 | the ticket is the cursor before the atomic addition, also when the 64-bit counter wraps |
| WeightedSelection.Balancer.SelectUpstreamWhere | internal/dataplane/snapshot.go:74-95 | picks the owner of slot ticket mod total, and nil exactly when the first pass found no weight or the slot lies past what the second pass sees |
| WeightedSelection.NeverNilWhileThereIsWeight | internal/dataplane/snapshot.go:74-95 | with one eligible set and positive weight the choice exists and is eligible |
| WeightedSelection.ExactlyTheWeightPerRound | internal/dataplane/snapshot.go:84-93 | any W consecutive tickets, wherever they start, choose an upstream exactly as often as its weight |
| WeightedSelection.HitsBounds | internal/dataplane/snapshot.go:84-93 | among q * W + r tickets between q * w + max(0, r + w - W) and q * w + min(w, r) |
| WeightedSelection.TicketsAreContiguous | internal/dataplane/snapshot.go:84-84 | in every interleaving racing callers hold distinct contiguous tickets |
| WeightedSelection.FairShare | internal/dataplane/snapshot.go:74-95 | the bounds hold for what racing callers are actually given |
| WeightedSelection.NewListenersShare | internal/dataplane/snapshot.go:74-95 | of the first n requests of a new listener, in every interleaving, an upstream gets exactly (n / W) * w and what of the remainder falls to its slots |
| WeightedSelection.SwapsRestartTheRound | internal/dataplane/snapshot.go:250-250 | over any sequence of swaps an upstream gets the sum of these shares, and none at all if and only if no snapshot serves more requests than the weight before it |
| RedisStore.Redis.Incr | internal/coordination/redis.go:80-81 | INCR keeps a live key's expiry and starts an expired one afresh |
| CircuitBreaker.RecordUpstream | internal/coordination/redis.go:121-126 | the store equals the state defined by the history of reports, before and after, and no other key is touched |
| CircuitBreaker.RunFailureScript | internal/coordination/redis.go:111-119 | the store after the script, for a live, expired or absent counter, below and at the threshold |
| CircuitBreaker.CircuitOpen | internal/coordination/redis.go:103-109 | open exactly when some report tripped the circuit less than the duration ago |
| CircuitBreaker.Replay | internal/coordination/redis.go:103-134 | any reports and questions about any upstreams, interleaved with any delays, on a new Redis: every answer is the one the history of its upstream defines, and a yes means threshold failures in a row within the last two durations |
| CircuitBreaker.WindowStaysBelowThreshold | internal/coordination/redis.go:111-119 | after each step the counter is below the threshold and counts failures in a row within one duration |
| CircuitBreaker.OpenMeansRecentFailures | internal/coordination/redis.go:103-119 | an open circuit had threshold failures in a row, no success among them, within the last two durations |
| CircuitBreaker.LongBurstsTrip | internal/coordination/redis.go:111-119 | 2 * threshold - 2 failures in a row within one duration (one, for threshold 1) always leave the circuit open |
| CircuitBreaker.ShorterBurstsMayNotTrip | internal/coordination/redis.go:111-119 | that is the best bound: one failure fewer, all within a millisecond, can leave it closed |
| CircuitBreaker.OtherKeysDoNotMatter | internal/coordination/redis.go:128-134 | circuits of different upstreams are independent |
| RequestLimiter.AllowRequest | internal/coordination/redis.go:75-101 | the decision is the one due: of each second the first rate + burst calls pass, only they are metered, of each minute the first quota of them are allowed |
| RequestLimiter.Replay | internal/coordination/redis.go:75-101 | any calls of any subjects, interleaved with any delays, on a new Redis: the decision returned for each is the one due, a limit of zero refuses nobody, and over every interval the calls really admitted stay within both bounds |
| RequestLimiter.CountCall | internal/coordination/redis.go:80-82 | a counter counts its window and cannot expire inside it |
| RequestLimiter.PassedPerSecond | internal/coordination/redis.go:79-83 | the calls that pass in a second number min(calls, rate + burst) |
| RequestLimiter.AllowedPerMinute | internal/coordination/redis.go:84-88 | the calls allowed in a minute number min(metered calls, quota) |
| RequestLimiter.RateBoundOverIntervals | internal/coordination/redis.go:79-83 | any L milliseconds admit at most (L / 1000 + 2) * (rate + burst) requests |
| RequestLimiter.QuotaBoundOverIntervals | internal/coordination/redis.go:84-88 | and at most (L / 60000 + 2) * quota |
| RequestLimiter.OtherSubjectsDoNotMatter | internal/coordination/redis.go:92-95 | calls of other listeners and consumers do not count |
| RequestBody.LimitedBody.Read | internal/dataplane/handler.go:354-378 | delivered bytes are a prefix of the stream within the limit; the stream is too large exactly when it yields a byte past the limit, and then for good; every other read returns the bytes and the error that the source returned for that call |
| RequestBody.ReadMany | internal/dataplane/handler.go:354-378 | the same for every reader and every sequence of reads; from a reader that always makes progress and reports its end, more reads than the stream has bytes deliver all of it and its end, and more than the limit get the excess reported |
| HealthCarry.BuildPools | internal/dataplane/snapshot.go:170-212 | one healthy object per routed upstream row; each port's pool holds exactly the objects of its version's rows, the ports are exactly the routed ones, and ports of one version share their pool |
| HealthCarry.StatesOf | internal/dataplane/runtime.go:290-296 | the first loop of copyHealth collects the health of every upstream |
| HealthCarry.SetStates | internal/dataplane/runtime.go:297-303 | the second loop sets exactly the upstreams it has a state for |
| HealthCarry.Fleet.Load | internal/dataplane/runtime.go:116-120 | a swap carries health over by id and starts new upstreams healthy; the new pools hold exactly the rows of their versions |
| HealthCarry.Fleet.Probe | internal/dataplane/runtime.go:215-257 | a probe sets the outcome on the shared objects |
| HealthCarry.Replay | internal/dataplane/runtime.go:215-304 | any loads and probe rounds from an empty runtime on: every upstream of the current snapshot shows the outcome of its last probe since it most recently entered, or healthy without one |
| HealthCarry.HealthIsTheLastWord | internal/dataplane/runtime.go:215-304 | over any interleaving of loads and probes an upstream shows the outcome of its last probe since it most recently entered, or healthy without one |
| HealthCarry.LastWordIsOne | internal/dataplane/runtime.go:215-304 | that outcome is unambiguous |
| CompiledHealth.RowsDescribeThePools | internal/dataplane/snapshot.go:170-251 | whatever buildSnapshot accepts yields distinct rows and ports, and the compiled pool of each port has exactly the ids of its version's rows |
| CompiledHealth.LoadCompiled | internal/dataplane/runtime.go:116-120 | loading a configuration that compiles puts the objects on exactly the compiled ports, with exactly the compiled upstreams on each, and carries health over to exactly those |
| PortRemap.Migration.InsertTargets | internal/database/migrations/006_remap_default_ports.sql:4-15 | only missing target rows are added, all free |
| PortRemap.Migration.CopyAssignments | internal/database/migrations/006_remap_default_ports.sql:17-24 | each target takes status and listener of its source; the foreign keys stay true |
| PortRemap.Migration.MoveListeners | internal/database/migrations/006_remap_default_ports.sql:26-33 | succeeds exactly when every listener of a moved environment stands in the old window, and then moves each by the shift; foreign key and unique index hold after every single row |
| PortRemap.Migration.DeleteSources | internal/database/migrations/006_remap_default_ports.sql:48-52 | fails exactly when a listener still stands on a row it takes |
| PortRemap.Migration.Run | internal/database/migrations/006_remap_default_ports.sql:1-56 | commits exactly when every listener can move with its window or stands on no row that the DELETE takes, and then leaves the tables isomorphic to the old ones under the shift, also over target rows that were there before; otherwise they are as they were |
| PortRemap.RemapKeepsConsistency | internal/database/migrations/006_remap_default_ports.sql:17-33 | the assignment of listeners to ports survives the move |
| PortRemap.SecondRunChangesNothing | internal/database/migrations/006_remap_default_ports.sql:1-56 | after a run that committed, its requirements hold again and nothing is in the way, so that a second run commits, and the only outcome is the tables as they are |
| PortRemap.StoredConfigurationsServeTheSame | internal/database/migrations/006_remap_default_ports.sql:35-46 | a stored configuration with distinct rows and ports in its window loads if and only if it did before, with the same routes on the shifted ports |
| PortRemap.CustomRangeIsKeptIff | internal/database/migrations/006_remap_default_ports.sql:48-52 | a custom range keeps its inventory if and only if it does not begin where the default one began |
| PortRemap.TheRangesMove | internal/database/migrations/006_remap_default_ports.sql:12-56 | in numbers: 18000-18099 becomes 4100-4199, 19000-19099 becomes 4200-4299, 20000-20099 becomes 4300-4399, and every other range stays |
| PortRemap.AHalfRangeLosesItsPorts | internal/database/migrations/006_remap_default_ports.sql:48-52 | a concrete installation of three environments, one with a custom range of fifty ports: the migration commits and leaves it without a port while the others keep theirs |
| RemappedRuns.EveryRunCanBeRemapped | internal/database/migrations/006_remap_default_ports.sql:1-56 | after any run on the inventory as it was seeded the migration's requirements hold, and unless a custom range begins where a default one did it commits |
| RemappedRuns.RunsServeTheSameAfterTheMigration | internal/database/migrations/006_remap_default_ports.sql:35-46 | after any run every stored configuration of a moved environment loads after the migration if and only if it did before, with the credentials of any state of the run, on the shifted ports |

## Left out

- Catalog creation and updates, permission creation and listener policy changes are functions of the tables in `ControlPlane`; `StoreMethods.Store.SingleStatement` commits them, because each is a single statement. Answers and LastWrites say when they succeed and what they write.
- Listing, UpdatePermission, display names, owners, descriptions, timestamps other than the credential stamps, and the audit log: no other operation reads them. An audit insert fails only for an unknown environment, which is modelled where it is the only check.
- Transactions are atomic steps in runs, a failed one is a request without effect (sequence values it drew are `SkipVersionIds`), and a commit does not fail; statement-level interleaving is modelled for listener allocation only, and there its three opening reads are one step. Deadlock detection and isolation failures are not part of this model.
- ConcurrentAllocation.SchedulesStayGood: identifiers of new listeners are taken to be fresh, as 'newID' draws them at random.
- Trimming and letter case of request fields, media-type parsing and content-type lists: inputs are taken already normalized, a rejected list as an absent one.
- Strings are sequences of bytes; their order is the byte order of a "C" collation and of Go.
- Generations.EqualGenerationsMeanEqualSnapshots: that commits since the loaded state are stamped above its generation is a hypothesis, because PostgreSQL stamps the beginning of a transaction; the run without it is LateCommit.ARevocationIsSkipped.
- Authentication.IssueToAuthenticate: one clock for PostgreSQL and the gateways, and no MAC collision between the presented string and a key handed out.
- OptimisticLocking.NoListenerUpdateIsLost: up to the deletion of the listener, whose id could be inserted again; likewise for consumers.
- WeightedSelection.FairShare: within one snapshot, as each swap starts a new cursor (SwapsRestartTheRound sums over swaps); a fixed eligible set and no wrap of the 64-bit cursor during the calls. What changing health does to one selection is in SelectUpstreamWhere. Overflow of the total weight is not modelled, as weights are at most 10000.
- CircuitBreaker.RecordUpstream: one threshold and duration per upstream and a positive duration, as the admin API stores it; listeners sharing an upstream with different policies are not modelled. A threshold of zero never reaches the script.
- RequestLimiter.AllowRequest: gateways and Redis share one clock, and one subject's limits do not change. Redis key text is a constructor per key family, so that the colon-separated names are taken to be distinct.
- HealthCarry.Fleet.Load: takes the upstream and listener rows in use; CompiledHealth.LoadCompiled passes it those of a snapshot that compiles. The order within a pool plays no part in health. Probes of one round are one step, as the loop waits for them.
- ReplicaRefresh.EveryStepKeeps: timers, jitter, heartbeats, metrics and the reported readiness are left out; the bounded notification channel appears as notifications that arrive or are dropped.
- PortRemap.Migration.Run: the inventory of an environment with a default range is the range it was seeded with and any rows of the range it moves to; rows outside both, which no operation inserts, are excluded. Equal ports in one snapshot are ordered by position.
- The order of upstreams with equal ids is unspecified in the source; ids are a primary key.
- HTTP routing, JSON decoding, header rules, public routes, the Allow header's sorting, reverse proxying, TLS, start and shutdown, configuration parsing, the dashboard and deployment files.
