# Verified models of the wallet SDK's core

Dafny models of the parts of the SDK whose correctness is decided by its own code rather than
by the libraries it calls, with proofs about all inputs, all interleavings and all sequences of
failures. `dafny verify dfyconfig.toml` checks everything.

The runtime is single-threaded, so the code between two `await`s is one atomic step. Protocols
are state machines over such steps; what the environment decides (the node's answer, a storage
failure, the clock, a generated id) is a parameter of the step. Objects whose methods update
their fields are classes, and each method is proved against the machine that the theorems are
about: in the reservation adapter, the lifecycle guard and the poller it makes exactly one step of
the machine, and the migration runner makes one of its starts; in the other protocol classes it
computes one of the functions that the machine's steps are composed of. Mutable maps, sets and the
guard's, poller's and timer's flags are fields of those classes. The storage of the migration runner
keeps a log of its calls and how each ended, and the runner's contracts speak of that log.

## What is modelled

**Reservations** (`OperationGuard`, `ReservationsManager`, `ReservedFunds`, `ReservationProtocol`,
`ReservationInvariant`, `ReservationSteps`, `ReservationTheorems`, `ReservationAdmission`,
`ReservationOutcomes`, `ReservationCompletion`, `ReservationAdapter`). The
concurrent operation guard with its shared and exclusive scopes; the manager of held
reservations with their status watchers, expiration timers and exclusive sections; and add,
update, remove, transfer, deploy, network cleanup, confirmation, failure of a watcher, expiry,
close, network switch and storage failures of one open wallet, interleaved at every `await`. One
inductive invariant carries the results: funds are never over-reserved, the balance admits exactly
what it covers and a refused action leaves nothing behind, nothing is sent unrecorded, no record
goes without a reason, timers are right. Beside it stand what must happen: a sent deploy stays
accounted for, what is held stays held and watched until there is a reason, an erased record stays
gone, and each action that nothing is in the way of ends with exactly what it was asked for.

**Networks** (`ApiClientManager`, `NetworkReconfiguration`, `NetworkReconfigurationOutcomes`). Busy
counters, the selected network, serialized writes that reach storage first and memory second, and the exclusive scope an update
or removal holds, interleaved with operations and reservation actions.

**Lifecycle** (`LifecycleGuard`). Generations, tracked operations, exclusive actions with their
drains, and the wallets in memory.

**Storage migrations** (`StorageMigration`, `StorageMigrationRunner`, `StorageMigrationTheorems`,
`StorageMigrationHistories`). The runner over a storage whose every operation may work, throw, or be
the last one before the process is cut; then any sequence of starts of any builds, and the exact
conditions on the migrations and the first tables under which every such history ends well.

**History pages** (`StableSorting`, `CollectionQuery`, `TransactionsHistory`). The merge loop, and
the page computed from a shifted, widened window.

**Codecs** (`Decimal`, `JsonTextScanner`, `JsonText`, `HttpResponseParser`, `Utf8`, `BinaryWriter`,
`DeploySerialization`, `AtomicAmount`, `AmountSyntax`, `Bip44Path`). The JSON number scanner against
the grammar of RFC 8259, the deploy message against a protobuf reader, decimal amounts and
derivation paths.

**Secrets and polling** (`SigningSession`, `DeployStatusPoller`). Key bytes are arrays zeroed in
place; the poller is its closures' shared flags.

## Results that are false of the code, and when they hold

- The balance check of `add` and `update` reads the network that is selected, not the one the
  payload names: an add for another network passes on a balance that is already reserved there.
  The check protects a network exactly when it is the selected one
  (`ReservationTheorems.CheckProtectsIffSelected`). This takes a direct call of the exported
  `ReservationAdapter`: the client builds the payload with the selected network just before the
  call, and then no action ever reserves more than the balance it read, without any condition
  (`ReservationAdmission.ClientNeverOverReserves`).
- A migration step cut in the middle is resumed on the tables it left, and backs those up. If the
  resumed step fails, its rollback "succeeds", clears the pending mark, and unmarked storage holds
  a half-done migration, so that a previous build reads tables it did not write (point 4 of section
  2a of SECURITY_INVARIANTS.md). Over all histories of starts, unmarked storage always holds exactly
  the tables of its version if and only if, from the tables of the version before, every migration
  that may resume changes nothing and finds every backed-up table empty, and every one that may not
  resume leaves the old tables outside the backup alone
  (`StorageMigrationHistories.UnmarkedIsAlwaysExactIff`). So it does whenever no migration may
  resume and all keep to backed-up and new tables (`WithoutResuming`).
- A rollback cut between clearing a table and inserting its backup loses the rows, and the next
  start may succeed without them, even if the migration gives one result from any partial state
  (`StorageMigrationHistories.RollbackCutLosesRows`); the same holds when the rollback's failure
  cannot be recorded, against point 5 of the same section. Over all histories of starts of builds
  that are not downgraded, every success has exactly the tables of an uninterrupted start if and only
  if every migration finishes exactly from each of the tables its unfinished steps may leave: the
  least set that holds those of the version before and is closed under stopping, rolling back, and
  rolling back in part (`EverySuccessIsExactIff`, `SuccessEqualsUninterrupted`). When older builds
  may start again, the condition becomes that of the previous point (`SuccessUnderDowngradesIff`).
- A pending transaction executed outside the fetched window is shown as pending and moves the page.
  With distinct ids a page differs from the slice it should be if and only if it is not empty and
  such a transaction is merged before its end (`TransactionsHistory.PageDiffersIff`;
  `UnseenPendingIsShown` is one page).
- A deploy can be read back from its bytes exactly when none of its numbers is negative
  (`DeploySerialization.ReadsBackIff`). The reader here takes varints as unsigned and without the
  64-bit cut of the wire format, so the negative half is as much about it as about the writer. The
  block number it is valid after is the latest one minus one, so -1 right after genesis, and then the message cannot be read at all
  (`GenesisDeployIsUnreadable`).
- An amount survives formatting and parsing exactly when 8 decimals are asked for or it has no
  whole part, because parsing scales the whole part by 10^8 whatever the decimals
  (`AtomicAmount.RoundTripsIff`).
- Commas and spaces in an amount are ignored wherever they stand, except a comma before everything
  else, in front of the minus sign or of nothing: that is malformed
  (`AmountSyntax.SeparatorsAreIgnored`).
- A rollback is exact exactly when the migration left old tables outside the backup alone
  (`RollbackIsExactIff`).
- A reservation on a network that is not configured is held without a timer: creating its watcher
  throws first (`ReservationsManager.TrackKeepsWellFormed`).

## Model

| member | source | states |
|---|---|---|
| OperationGuard.AcquireKeepsConsistent | src/services/ConcurrentOperationGuard/index.ts:104-126 | admitting a call that is not refused keeps the guard's three maps equal to what the running calls hold, and the calls disjoint |
| OperationGuard.ReleaseKeepsConsistent | src/services/ConcurrentOperationGuard/index.ts:84-102 | settling a call removes what it held and nothing of the others |
| OperationGuard.EveryHistoryIsConsistent | src/services/ConcurrentOperationGuard/index.ts:104-139 | after every history of calls and settlements each reserved key has exactly one owner, an exclusive scope no companion, and the maps hold nothing else |
| OperationGuard.ExclusiveScopeIsHeldAlone | src/services/ConcurrentOperationGuard/index.ts:46-65 | a scope in the exclusive map has one holder and none in the shared map |
| OperationGuard.RefusesExactlyConflicts | src/services/ConcurrentOperationGuard/index.ts:110-116 | a call is refused exactly when it shares a key with a running call, or a scope that one of the two wants exclusively |
| OperationGuard.SettledGuardIsIdle | src/services/ConcurrentOperationGuard/index.ts:128-139 | when all calls have settled every map is empty |
| OperationGuard.ConcurrentOperationGuard.Begin | src/services/ConcurrentOperationGuard/index.ts:104-126 | refuses exactly on a key or scope conflict and then changes nothing; otherwise holds exactly what was asked |
| OperationGuard.ConcurrentOperationGuard.Settle | src/services/ConcurrentOperationGuard/index.ts:128-139 | the finally block gives back exactly what the call held, every key still being there |
| OperationGuard.ConcurrentOperationGuard.FindConflictOwner | src/services/ConcurrentOperationGuard/index.ts:21-33 | none exactly when no key is reserved, else the owner of a reserved one |
| OperationGuard.ConcurrentOperationGuard.FindScopeConflictOwner | src/services/ConcurrentOperationGuard/index.ts:46-65 | some exactly when the scope is refused, and then one of its holders |
| ReservationsManager.HeldReservationsAreCovered | src/services/TransactionReservationsManager/index.ts:218-304 | every held reservation of a known network is in an exclusive section or has exactly one armed timer, for its own expiration time; every timer and watcher belongs to a held reservation outside the sections; a closed manager has none |
| ReservationsManager.TrackKeepsWellFormed | src/services/TransactionReservationsManager/index.ts:233-304 | a fresh reservation stays held unless already expired, with its timer exactly when its network is known |
| ReservationsManager.EndExclusiveKeepsWellFormed | src/services/TransactionReservationsManager/index.ts:305-315 | leaving a section leaves every held reservation covered, the rearmed one included |
| ReservationsManager.EndExclusiveReleasesExpired | src/services/TransactionReservationsManager/index.ts:288-315 | leaving a section releases the reservation exactly if it expired meanwhile, and touches no other |
| ReservationsManager.CloseKeepsWellFormed | src/services/TransactionReservationsManager/index.ts:218-231 | closing disarms every timer and watcher and forgets every reservation |
| ReservationsManager.ExpiredKeepsWellFormed | src/services/TransactionReservationsManager/index.ts:295-303 | a fired timer drops its reservation with its watcher, and nothing else |
| ReservationsManager.ConfirmedKeepsWellFormed | src/services/TransactionReservationsManager/index.ts:337-343 | a confirmation drops the reservation with its timer, and nothing else |
| ReservationsManager.TransactionReservationsManager.Restore | src/services/TransactionReservationsManager/index.ts:61-83 | the constructor's loop holds and watches every restored reservation that has not expired, with its timer, releases every other, and holds nothing else; or it throws on an unknown network |
| ReservationsManager.TrackHolds | src/services/TransactionReservationsManager/index.ts:233-304 | what tracking holds, watches or releases at once, on a known network and on another |
| ReservationsManager.TransactionReservationsManager.Add | src/services/TransactionReservationsManager/index.ts:86-91 | tracks on an active manager, does nothing on a closed one |
| ReservationsManager.TransactionReservationsManager.BeginExclusive | src/services/TransactionReservationsManager/index.ts:118-128 | suspends the timer and watcher of a known reservation; throws on an unknown one |
| ReservationsManager.TransactionReservationsManager.EndExclusive | src/services/TransactionReservationsManager/index.ts:130-134 | leaves the section and rearms what is still held |
| ReservationsManager.TransactionReservationsManager.Replace | src/services/TransactionReservationsManager/index.ts:105-112 | replaces only inside the section and only what is still held |
| ReservationsManager.TransactionReservationsManager.RemoveByNetworkId | src/services/TransactionReservationsManager/index.ts:160-165 | removes exactly the network's reservations with their timers and watchers |
| ReservationsManager.TransactionReservationsManager.OnConfirmed | src/services/TransactionReservationsManager/index.ts:256-262 | the watcher's confirmation releases its own reservation |
| ReservationsManager.TransactionReservationsManager.OnTimer | src/services/TransactionReservationsManager/index.ts:297-303 | the fired timer releases its own reservation |
| ReservationsManager.TransactionReservationsManager.Close | src/services/TransactionReservationsManager/index.ts:217-231 | the two loops leave no watcher and no timer |
| ReservedFunds.GetReservedAmount | src/domains/ReservationAdapter/index.ts:345-354 | the fold is the sum over the account's reservations on the network, in any order |
| ReservedFunds.ReservedSums | src/domains/ReservationAdapter/index.ts:345-354 | the sum, one reservation at a time: its amount if it is the account's on the network, else nothing |
| ReservedFunds.RemovalOnlyFrees | src/domains/ReservationAdapter/index.ts:345-354 | removing reservations never raises a reserved sum |
| ReservationInvariant.SameAccountSameAction | src/services/ReservationOperationGuard/index.ts:61-83 | two running actions on one account and network are the same action |
| ReservationInvariant.CleanupRunsAlone | src/services/ReservationOperationGuard/index.ts:120-133 | no other action runs on a network during its cleanup |
| ReservationSteps.StepKeepsInv | src/domains/ReservationAdapter/index.ts:127-643 | every step of every action, callback, timer and storage outcome keeps the invariant of the protocol |
| ReservationTheorems.EveryReachableStateHasInv | src/domains/ReservationAdapter/index.ts:66-643 | the invariant holds in every reachable state of every run |
| ReservationTheorems.SelectedIsConfigured | src/domains/ApiClientManager/index.ts:89-102 | in every run the selected network is a configured one, through switches and removals |
| ReservationTheorems.NeverOverReserved | src/domains/ReservationAdapter/index.ts:113-125 | in every run, when an action makes a reservation held or replaces one, the sum reserved for its account and network is at most the balance it read: always for transfers and deploys, for adds and updates on the selected network |
| ReservationAdmission.AdmittedIffCovered | src/domains/ReservationAdapter/index.ts:113-125 | in every run the balance admits an action exactly when it covers what was reserved for the account as the action started, on the selected network, plus the amount added (for an update, the difference); and then it still covers what is reserved when it arrives |
| ReservationAdmission.RefusedChangesNothing | src/domains/ReservationAdapter/index.ts:100-111 | in every run each step of an action that is refused, from its start to its end, leaves the held reservations, the records and what was sent as they were, but for a reservation that expired inside its section |
| ReservationAdmission.ClientNeverOverReserves | src/domains/Client/index.ts:895-955 | in runs whose adds and updates name the selected network, as the client's do, no action reserves more than the balance it read |
| ReservationOutcomes.AddAwaitsItsBalance | src/domains/ReservationAdapter/index.ts:127-150 | an add enters unless a running action conflicts with it, and awaits its balance unless a held reservation has its deploy on its network |
| ReservationOutcomes.UpdateAwaitsItsBalance | src/domains/ReservationAdapter/index.ts:182-222 | an update awaits its balance exactly if it names a held reservation with its account and network and no other held one has its deploy; it then has its section and adds the difference |
| ReservationOutcomes.SubmissionAwaitsItsBalance | src/domains/ReservationAdapter/index.ts:527-553 | a submission enters unless a running action conflicts with it, and awaits its balance |
| ReservationOutcomes.RemovalAwaitsItsRecord | src/domains/ReservationAdapter/index.ts:246-262 | a removal of a held reservation enters its section unless a running action conflicts with it |
| ReservationOutcomes.CleanupAwaitsItsNetwork | src/services/ReservationOperationGuard/index.ts:120-133 | a cleanup enters unless an action runs on its network |
| ReservationOutcomes.OthersAreLeftAlone | src/domains/ReservationAdapter/index.ts:127-643 | a step leaves every action alone that it does not belong to |
| ReservationOutcomes.ContinuationHolds | src/domains/ReservationAdapter/index.ts:159-171 | an add after its write, and a submission accepted or undecided, hold exactly their reservation, or release it at once if it has expired |
| ReservationOutcomes.UpdateReplaces | src/services/TransactionReservationsManager/index.ts:105-112 | an update after its write replaces the reservation it holds, and nothing else |
| ReservationOutcomes.SentIsAccountedFor | src/domains/ReservationAdapter/index.ts:470-518 | in every run, from its send on and while the manager is active, a deploy's reservation is carried by its action or held, as sent unless an update replaced it, or it was confirmed, expired, removed, cleaned or refused |
| ReservationOutcomes.HeldUntilAReason | src/services/TransactionReservationsManager/index.ts:105-165 | in every run a held reservation stays held, unchanged but for updates, until one of those reasons |
| ReservationOutcomes.FailureChangesNothing | src/domains/ReservationAdapter/index.ts:436-468 | a failed write, deletion or signature changes nothing and ends its action |
| ReservationOutcomes.UnsentIsReleased | src/domains/ReservationAdapter/index.ts:493-505 | a submission that finds its manager closed is not sent, and its record is to be deleted |
| ReservationOutcomes.ErasedStaysGone | src/domains/ReservationAdapter/index.ts:246-262 | in every run a deleted record is gone from then on |
| ReservationOutcomes.RuntimeReleases | src/services/TransactionReservationsManager/index.ts:256-343 | a confirmation and a fired timer release exactly their own reservation with its watch and timer; a failed watch ends alone |
| ReservationOutcomes.WatchedUnlessFailed | src/services/TransactionReservationsManager/index.ts:233-284 | in every run, outside the sections every held reservation on a configured network is watched, unless its watch failed |
| ReservationCompletion.AddCompletes | src/domains/ReservationAdapter/index.ts:127-171 | an add that nothing conflicts with and the balance covers ends with exactly the asked reservation held and stored for five minutes |
| ReservationCompletion.SubmissionIsSent | src/domains/ReservationAdapter/index.ts:487-553 | such a submission is sent with its record stored, under its signature as deploy id |
| ReservationCompletion.SubmissionCompletes | src/domains/ReservationAdapter/index.ts:470-518 | accepted or undecided it ends held and stored; rejected it leaves neither |
| ReservationCompletion.UpdateCompletes | src/domains/ReservationAdapter/index.ts:173-244 | such an update ends with its reservation replaced in memory and in storage, out of its section, and no other touched |
| ReservationCompletion.RemovalCompletes | src/domains/ReservationAdapter/index.ts:246-290 | a removal ends with its reservation gone from memory and storage, and no other touched |
| ReservationCompletion.CleanupCompletes | src/domains/ReservationAdapter/index.ts:400-411 | a cleanup leaves no reservation of its network, held or stored, and touches no other |
| ReservationTheorems.CheckProtectsIffSelected | src/domains/ReservationAdapter/index.ts:117-124 | over all runs, the check protects reservations on a network exactly when that network is the one selected at the check |
| ReservationTheorems.NothingIsSentUnrecorded | src/domains/ReservationAdapter/index.ts:493-518 | a deploy is sent only while its own record is stored, and the record is still stored whenever the outcome is open |
| ReservationTheorems.EverySendIsRecorded | src/domains/ReservationAdapter/index.ts:493-518 | whatever a run sends is a submission's own deploy, whose record is stored before and after the send |
| ReservationTheorems.LostRecordsHaveAReason | src/domains/ReservationAdapter/index.ts:470-485 | a stored record disappears only when its reservation was confirmed, expired, removed, cleaned with its network, rejected by the node, or never sent |
| ReservationTheorems.ReachableRecordsAgree | src/domains/ReservationAdapter/index.ts:156-171 | every held reservation outside the sections has its own record; a sent deploy keeps its record but for those reasons; every section belongs to exactly one action |
| ReservationTheorems.ReachableTimersAreRight | src/services/TransactionReservationsManager/index.ts:118-134 | in every reachable state of the protocol the timer statement holds |
| ReservationTheorems.ClosedStaysEmpty | src/services/TransactionReservationsManager/index.ts:217-231 | once closed the manager stays closed, empty and without timers or watchers, whatever actions are still in flight |
| ReservationTheorems.ReachableActionsExclude | src/services/ReservationOperationGuard/index.ts:61-133 | no two running actions share an account and network, a deploy, or a reservation; a cleanup runs alone on its network |
| ReservationAdapter.ReservationAdapterService.Add | src/domains/ReservationAdapter/index.ts:127-155 | add, up to its balance request, is that step of the protocol |
| ReservationAdapter.ReservationAdapterService.Update | src/domains/ReservationAdapter/index.ts:173-222 | update, up to its balance request: section first, then the checks |
| ReservationAdapter.ReservationAdapterService.Remove | src/domains/ReservationAdapter/index.ts:246-262 | remove, up to the record's deletion |
| ReservationAdapter.ReservationAdapterService.Submit | src/domains/ReservationAdapter/index.ts:527-553 | transfer and deploy, up to the balance request |
| ReservationAdapter.ReservationAdapterService.OnBalance | src/domains/ReservationAdapter/index.ts:117-125 | the balance decides: refuse, or go on to write, rewrite or sign |
| ReservationAdapter.ReservationAdapterService.AfterWrite | src/domains/ReservationAdapter/index.ts:159-171 | after the record: hold, replace, or send unless the manager has closed |
| ReservationAdapter.ReservationAdapterService.OnNodeAnswer | src/domains/ReservationAdapter/index.ts:507-514 | accepted, rejected, or undecided |
| ReservationAdapter.ReservationAdapterService.AfterAnswer | src/domains/ReservationAdapter/index.ts:470-485 | an accepted or undecided submission is held |
| ReservationAdapter.ReservationAdapterService.LeaveExclusive | src/services/TransactionReservationsManager/index.ts:130-134 | the section's finally block |
| ReservationAdapter.ReservationAdapterService.RemoveNetworkReservations | src/domains/ReservationAdapter/index.ts:400-411 | removes the network's reservations from memory before deleting their records |
| ReservationAdapter.ReservationAdapterService.Finish | src/services/ConcurrentOperationGuard/index.ts:128-139 | the guard's finally block ends the action |
| ReservationAdapter.ReservationAdapterService.Dispose | src/domains/ReservationAdapter/index.ts:413-415 | closes the manager while actions may be in flight |
| NetworkBusyRegistry.AcquireCounts | src/domains/NetworkBusyRegistry/index.ts:6-8 | each counter is the number of pending operations, also after one more |
| NetworkBusyRegistry.ReleaseCounts | src/domains/NetworkBusyRegistry/index.ts:10-20 | and after one less |
| NetworkBusyRegistry.NetworkBusyRegistryService.ReleaseNetwork | src/domains/NetworkBusyRegistry/index.ts:10-20 | decrements, or deletes the counter at zero |
| ApiClientManager.ApiClientManagerService.SwitchNetwork | src/domains/ApiClientManager/index.ts:89-102 | throws while the selected network is busy or the target unknown, and then changes nothing |
| ApiClientManager.ApiClientManagerService.ApplyNetwork | src/domains/ApiClientManager/index.ts:208-215 | sets the record, then recreates the clients of the selected network |
| ApiClientManager.ApiClientManagerService.RemoveNetwork | src/domains/ApiClientManager/index.ts:235-246 | throws while the network is busy; removing the selected network selects another |
| ApiClientManager.ApiClientManagerService.BeginOperation | src/domains/ApiClientManager/index.ts:158-172 | counts an operation on its target |
| NetworkReconfiguration.StepKeepsInv | src/services/NetworkManager/index.ts:57-83 | every step keeps the invariant of network reconfiguration |
| NetworkReconfiguration.ApplySucceeds | src/domains/ApiClientManager/index.ts:208-246 | the in-memory half of a write fails only on removing a network that is not the user's own, never as busy, and gives memory what storage holds |
| NetworkReconfiguration.NoOperationWhileReconfiguring | src/domains/Client/index.ts:1238-1279 | from its idle check until an update or removal ends, its network's counter is 0 in every run |
| NetworkReconfiguration.ReachableApplySucceeds | src/utils/decorators/networkManager/index.ts:17-31 | so in every run the apply after the storage write succeeds, and memory equals storage after it |
| NetworkReconfiguration.OperationKeepsItsNetwork | src/utils/decorators/apiClientManager/index.ts:58-118 | an operation started on the selected network sees it selected until it releases |
| NetworkReconfiguration.StorageAndMemoryAgree | src/utils/decorators/networkManager/index.ts:6-15 | writes never overlap: outside the one write between its two halves, storage and memory agree, and a record is applied against the networks it was checked against |
| NetworkReconfigurationOutcomes.IsQueuedIff | src/utils/decorators/networkManager/index.ts:17-31 | in every run an update or removal is taken up exactly if no running call conflicts, and queued exactly if its network is there and no operation runs on it |
| NetworkReconfigurationOutcomes.WriteIsMadeUnless | src/services/NetworkManager/index.ts:57-72 | a queued change ends without a write exactly if its record is invalid or an update's network is no longer the user's own |
| NetworkReconfigurationOutcomes.WriteTakesEffect | src/services/NetworkManager/index.ts:66-74 | in every run, once a write works and is applied, storage and memory hold the networks it was made from with its own change, every other network as it was |
| NetworkReconfigurationOutcomes.ReconfigurationCompletes | src/services/NetworkManager/index.ts:55-83 | with nothing in its way an update or removal changes its network in storage and memory, and nothing else |
| NetworkReconfigurationOutcomes.AdditionCompletes | src/services/NetworkManager/index.ts:36-53 | an addition adds its network to storage and memory |
| NetworkReconfigurationOutcomes.OperationStartsIff | src/domains/ApiClientManager/index.ts:158-172 | an operation starts exactly if no update or removal holds its network |
| NetworkReconfigurationOutcomes.SwitchesIff | src/domains/ApiClientManager/index.ts:89-102 | another network is selected exactly if it is known and no operation runs on the selected one |
| LifecycleGuard.WalletsAreCurrent | src/domains/Client/index.ts:269-361 | in every run a wallet in memory was published by an operation still unsettled or of the current generation |
| LifecycleGuard.SettledLeavesNoStaleWallet | src/services/ClientLifecycleGuard/index.ts:18-48 | with no operation unsettled no wallet of an older generation is left |
| LifecycleGuard.NothingPendingAfterDrain | src/domains/LifecycleGuard/index.ts:23-74 | once an exclusive action's drain ends without timing out, nothing is pending until that action ends |
| LifecycleGuard.WalletsLeaveForAReason | src/domains/Client/index.ts:269-450 | in every run a wallet leaves memory only by its own close or removal, a reset, a failed setup, or the return of a call that a reset overran; and comes only by being published |
| LifecycleGuard.ReturnedStaysIff | src/domains/LifecycleGuard/index.ts:76-89 | in every run what a call returns stays exactly if no reset came since the call started |
| LifecycleGuard.OverrunLeavesNothing | src/domains/LifecycleGuard/index.ts:76-89 | a wallet published by a call that a reset overran is gone once that call is over |
| LifecycleGuard.PublishingCallCompletes | src/domains/LifecycleGuard/index.ts:63-89 | an undisturbed call leaves its wallet in memory, and nothing pending |
| LifecycleGuard.ExclusiveSuspends | src/domains/LifecycleGuard/index.ts:23-74 | an exclusive action starts unless another runs, detaches its wallets, and until it ends no operation starts |
| LifecycleGuard.ClientLifecycleGuard.BeginRun | src/domains/LifecycleGuard/index.ts:63-82 | tracks the operation with its generation unless suspended, as that step of the machine |
| LifecycleGuard.ClientLifecycleGuard.EndRun | src/domains/LifecycleGuard/index.ts:84-89 | undoes the publication of an operation whose generation has passed and leaves that of any other, as that step of the machine |
| LifecycleGuard.ClientLifecycleGuard.ResetRuntimeState | src/domains/Client/index.ts:269-275 | a new generation without wallets |
| LifecycleGuard.ClientLifecycleGuard.BeginRemoveWallet | src/domains/Client/index.ts:438-450 | detaches the wallet and waits for the operations pending now |
| StorageMigrationRunner.StorageMigrationRunner.CreateBackup | src/services/StorageMigrationRunner/runner.ts:86-97 | the loop copies exactly the backed-up tables that exist |
| StorageMigrationRunner.StorageMigrationRunner.DropTablesCreatedByMigration | src/services/StorageMigrationRunner/runner.ts:99-129 | drops only tables the backup did not see; all of them when it reports no failure |
| StorageMigrationRunner.StorageMigrationRunner.RestoreTable | src/services/StorageMigrationRunner/runner.ts:131-142 | leaves the table as it was, empty, or restored; restored when it works |
| StorageMigrationRunner.StorageMigrationRunner.RestoreBackup | src/services/StorageMigrationRunner/runner.ts:144-159 | tries every table unless it is cut: what is not restored or dropped had a storage call of its own that threw; leaves of each table exactly what the ends of its calls leave; without a failure exactly the restored tables |
| StorageMigrationRunner.RemnantsAreLeft | src/services/StorageMigrationRunner/runner.ts:99-181 | the listed remnants are exactly the tables that some ends of the rollback's storage calls leave: each remnant has its calls, with throws alone and the closing write failing |
| StorageMigrationRunner.StorageMigrationRunner.RevertMigration | src/services/StorageMigrationRunner/runner.ts:161-181 | the rollback's logged calls decide: all work, the mark is cleared; the closing write works after a throw, the failures are recorded; it does not, the mark stays |
| StorageMigrationRunner.StorageMigrationRunner.RunMigrationStep | src/services/StorageMigrationRunner/runner.ts:183-199 | the log of storage calls decides the end: applied iff all work; untouched iff the first failure comes before the mark; stopped iff it is a cut behind it; else everything is rolled back, fully iff all later calls work |
| StorageMigrationRunner.StorageMigrationRunner.GetMissing | src/services/StorageMigrationRunner/runner.ts:293-319 | the loop finds exactly the undeclared versions up to the current one |
| StorageMigrationRunner.StorageMigrationRunner.AssertCompatible | src/services/StorageMigrationRunner/runner.ts:321-336 | passes only compatible storage and refuses with the first reason in order, writing nothing |
| StorageMigrationRunner.StorageMigrationRunner.Run | src/services/StorageMigrationRunner/runner.ts:338-350 | a start is one of the runs the theorems speak of; it succeeds iff the storage is compatible and every storage call works, refuses iff it is not and they do, and is cut iff its last call is |
| StorageMigrationTheorems.RefusesUnlessMayStart | src/services/StorageMigrationRunner/runner.ts:218-336 | a start is refused iff the stored version is newer, versions repeat, are out of range or missing, or a mark cannot be resumed |
| StorageMigrationTheorems.StepRecords | src/domains/StorageMetadataStorageRepository/index.ts:45-110 | what the schema record says after each end of a step |
| StorageMigrationTheorems.FailedRollbackBlocks | src/services/StorageMigrationRunner/runner.ts:161-181 | in every history, after a start whose rollback failed every later start leaves storage as it is and does not succeed |
| StorageMigrationTheorems.PendingAreTheMissingVersions | src/services/StorageMigrationRunner/runner.ts:67-77 | for any declared list in any order that passes the checks, the migrations applied are stored version + 1 to the current version, once each, in order |
| StorageMigrationTheorems.RollbackIsExactIff | src/services/StorageMigrationRunner/runner.ts:99-159 | a full rollback restores every backed-up table and removes every created one, whatever the migration did; all is as before iff it left other old tables alone |
| StorageMigrationTheorems.MarksStayOk | src/domains/StorageMetadataStorageRepository/index.ts:70-92 | over any starts of any builds a pending mark is the stored version + 1, and a recorded failure comes with one |
| StorageMigrationTheorems.RollbackFailureIsFinal | src/services/StorageMigrationRunner/runner.ts:218-237 | once a rollback failure is recorded every later start refuses and writes nothing |
| StorageMigrationTheorems.UninterruptedReachesIdeal | src/services/StorageMigrationRunner/runner.ts:338-350 | a start without a fault ends with the tables of the current version |
| StorageMigrationHistories.EverySuccessIsExactIff | src/services/StorageMigrationRunner/runner.ts:183-258 | over all histories of starts without downgrades, every success has exactly the tables of its version iff every migration finishes exactly from whatever its unfinished steps may leave, a condition on the migrations and the first tables alone |
| StorageMigrationHistories.SuccessEqualsUninterrupted | src/services/StorageMigrationRunner/runner.ts:338-350 | under that condition any successful start, after any cuts and failures, equals the uninterrupted one |
| StorageMigrationHistories.SuccessUnderDowngradesIff | src/services/StorageMigrationRunner/runner.ts:321-350 | with older builds starting in between, every success is exact iff every migration leaves unmarked storage exact |
| StorageMigrationHistories.UnmarkedIsAlwaysExactIff | src/services/StorageMigrationRunner/runner.ts:161-199 | over all histories, downgrades included, unmarked storage has exactly the tables of its version iff, from the tables before it, each resumable migration changes nothing and has only empty tables backed up, and each other one leaves the old tables outside the backup alone |
| StorageMigrationHistories.WithoutResuming | src/services/StorageMigrationRunner/runner.ts:251-257 | with no resumable migration, each keeping to backed-up and new tables, unmarked storage and every success are exact over all histories |
| StorageMigrationHistories.RollbackCutLosesRows | src/services/StorageMigrationRunner/runner.ts:131-142 | a migration with one result from any partial state, and a history in which a rollback cut between clear and insert loses rows for good |
| StableSorting.SortSorts | src/services/CollectionQuery/index.ts:9-29 | a sort orders by the key and keeps every element |
| StableSorting.SortIsStable | src/services/CollectionQuery/index.ts:9-14 | and keeps the order of elements with equal keys |
| CollectionQuery.MergeSorted | src/services/CollectionQuery/index.ts:31-66 | the two-index loop is the merge in which the primary item wins a tie |
| CollectionQuery.MergeKeepsAll | src/services/CollectionQuery/index.ts:31-66 | a merge holds every item of both lists once |
| CollectionQuery.MergePrefix | src/services/CollectionQuery/index.ts:31-66 | the first k merged items depend only on the first k primary ones |
| CollectionQuery.MergeSplits | src/services/CollectionQuery/index.ts:31-66 | a merge splits wherever both lists do |
| CollectionQuery.SliceHolds | src/services/CollectionQuery/index.ts:68-78 | a slice holds the items from its offset on, up to its limit |
| TransactionsHistory.PageOfWindow | src/services/TransactionsHistoryAggregator/index.ts:76-128 | for any offset and limit the page is exactly the slice of the merge of all executed with the pending not seen in the window |
| TransactionsHistory.PageIsSlice | src/services/TransactionsHistoryAggregator/index.ts:47-128 | so the page is the slice of the full history when no pending id is executed outside the window |
| TransactionsHistory.PageDiffersIff | src/services/TransactionsHistoryAggregator/index.ts:76-128 | with distinct ids the page differs from that slice iff it is not empty and a pending transaction executed outside the window is merged before its end |
| TransactionsHistory.PendingPageIsHistoryPage | src/services/TransactionsHistoryAggregator/index.ts:36-45 | the pending page is the history page when nothing is executed |
| TransactionsHistory.PagesAreTheHistory | src/services/TransactionsHistoryAggregator/index.ts:21-128 | pages at 0, limit, 2 limit, ... concatenated are the whole history: every transaction once, newest first |
| JsonTextScanner.FindStringEnd | src/services/JsonTextScanner/index.ts:7-27 | the index just past the string's closing quote, or the end of the text |
| JsonTextScanner.ReplaceNumbersOutsideStrings | src/services/JsonTextScanner/index.ts:29-69 | the loop rewrites every number outside strings and copies all else, on any text |
| JsonTextScanner.ScanKeepsTheRest | src/services/JsonTextScanner/index.ts:29-69 | any text, well formed or not, is copied but for the numbers replaced |
| JsonText.NumberRun | src/services/JsonTextScanner/index.ts:1-2 | on a number of section 6 of RFC 8259 the pattern matches the whole literal |
| JsonText.ScanString | src/services/JsonTextScanner/index.ts:7-27 | a string of section 7 of RFC 8259 is copied whole, whatever it escapes |
| HttpResponseParser.ScanJson | src/services/HttpResponseParser/index.ts:6-28 | scanning any well-formed JSON text is printing the same value with exactly its unsafe integers as strings |
| HttpResponseParser.QuotesTheUnsafe | src/services/HttpResponseParser/index.ts:6-12 | quoted exactly when an integer literal exceeds 2^53-1 in magnitude |
| HttpResponseParser.RoundingKeepsSafety | src/services/HttpResponseParser/index.ts:11 | testing the rounded double decides the same |
| HttpResponseParser.QuotedIsSafe | src/services/HttpResponseParser/index.ts:6-12 | the result is well-formed JSON without unsafe integers, unchanged iff there were none |
| HttpResponseParser.QuoteBigIntegers | src/services/HttpResponseParser/index.ts:14-28 | the text given to the JSON parser, for every well-formed response |
| Utf8.EncodeRoundTrips | src/domains/BinaryWriter/index.ts:22-26 | decoding the encoder's bytes gives the string with lone surrogates replaced, the string itself iff it has none |
| Bits.ContinuationByte | src/domains/BinaryWriter/index.ts:41-47 | masking with 0x7f and setting 0x80 is the remainder by 128 plus 128, also above 2^32 |
| BinaryWriter.BinaryWriterService.WriteInteger | src/domains/BinaryWriter/index.ts:40-50 | appends the base 128 digits of the value, with the shift's reduction modulo 2^32 |
| BinaryWriter.BinaryWriterService.WriteInteger64 | src/domains/BinaryWriter/index.ts:52-62 | appends the base 128 digits of any natural value; a negative one as it is |
| BinaryWriter.BinaryWriterService.WriteString | src/domains/BinaryWriter/index.ts:12-27 | key, length and UTF-8 bytes; nothing for an empty string |
| BinaryWriter.BinaryWriterService.WriteInt64 | src/domains/BinaryWriter/index.ts:29-38 | key and value; nothing for zero |
| DeploySerialization.VarintDecodes | src/domains/BinaryWriter/index.ts:52-62 | a reader gets the value back |
| DeploySerialization.Integer32Decodes | src/domains/BinaryWriter/index.ts:40-50 | a reader gets the value modulo 2^32 back |
| DeploySerialization.DeployDataProtobufSerialize | src/services/Signer/index.ts:19-41 | the writes give the message's bytes |
| DeploySerialization.ReadsBackIff | src/services/Signer/index.ts:19-41 | a protobuf reader gets the deploy back iff no number in it is negative |
| DeploySerialization.SerializingIsInjective | src/services/Signer/index.ts:19-41 | equal bytes mean equal deploys, but for no shard and an empty one |
| DeploySerialization.GenesisDeployIsUnreadable | src/services/TransactionService/index.ts:116 | with -1 as the block number a deploy for the root shard, or without one, cannot be read |
| Decimal.NumeralRoundTrips | src/utils/functions/index.ts:94-99 | a numeral reads as its number and is canonical |
| Decimal.CanonicalIsNumeral | src/utils/constants/index.ts:32-34 | a canonical string is the numeral of its value |
| AtomicAmount.ToAtomicAmount | src/utils/functions/index.ts:23-76 | trims, takes the sign, drops separators, cuts or pads the fraction, or fails |
| AmountSyntax.AcceptsExactlyTheWritten | src/utils/functions/index.ts:40-54 | a text is accepted iff it is spaces, a minus sign or none, and digits with at most one point and digits behind it, with commas and spaces put in anywhere among these; spaces alone are empty |
| AmountSyntax.ReadsWritten | src/utils/functions/index.ts:40-76 | and is read as the number those digits write |
| AmountSyntax.SeparatorsAreIgnored | src/utils/functions/index.ts:18-50 | a comma or space put in at any place changes nothing, except a comma before everything else in front of the minus sign or of nothing, which is malformed |
| AtomicAmount.FormatIsShortest | src/utils/functions/index.ts:78-104 | a formatted amount has a canonical whole part and no trailing zero or bare point |
| AtomicAmount.ParsesFormatted | src/utils/functions/index.ts:23-104 | what parsing a formatted amount gives, for every integer and all decimals |
| AtomicAmount.RoundTripsIff | src/utils/functions/index.ts:70-104 | an amount survives iff decimals is 8 or it has no whole part |
| AtomicAmount.EightDecimalsRoundTrip | src/utils/functions/index.ts:23-104 | with 8 decimals every integer survives |
| AtomicAmount.EveryAmountRoundTripsIff | src/utils/functions/index.ts:73 | all amounts survive iff decimals is 8 |
| AtomicAmount.TruncatesTowardZero | src/utils/functions/index.ts:62-76 | more fraction digits than 8 truncate toward zero |
| Bip44Path.PrintedParses | src/domains/Bip44Path/index.ts:70-142 | parsing a printed valid path gives it back |
| Bip44Path.ParsedPrints | src/domains/Bip44Path/index.ts:70-142 | an accepted string is printed again identically |
| Bip44Path.AcceptsExactlyThePrinted | src/domains/Bip44Path/index.ts:126-134 | the accepted strings are exactly the printed valid paths |
| Bip44Path.AcceptsExactlyTheSpelled | src/domains/Bip44Path/index.ts:70-142 | they are the numerals without leading zeros in that form, below 2^31, the change 0 or 1 |
| Bip44Path.Bip44PathObject.SetIndex | src/domains/Bip44Path/index.ts:189-197 | a setter accepts what the constructor would, changes only its field, and keeps the path valid |
| AutoTimer.AutoTimerService.Start | src/domains/AutoTimer/index.ts:20-32 | at most one timeout is armed, the previous one cleared |
| AutoTimer.AutoTimerService.Clear | src/domains/AutoTimer/index.ts:34-39 | disarms its own timeout only |
| SigningSession.SigningSessionService.Release | src/domains/SigningSession/index.ts:51-63 | a new generation; timer cleared, key zeroed in place; every key ever given is then zeroed |
| SigningSession.SigningSessionService.Hold | src/domains/SigningSession/index.ts:65-102 | each distinct key ever given is the one held or zeroed; an active session has exactly its own timeout armed; a stale generation is refused |
| SigningSession.SigningSessionService.Elapse | src/domains/SigningSession/index.ts:90-97 | the timeout releases the session |
| SigningSession.ActiveLocksInTime | src/domains/SigningSession/index.ts:88-102 | in every run an active session holds the secret of the hold that activated it, with one timeout due exactly that hold's autoLockMs after it (after one millisecond when it is 2^31 or more) |
| SigningSession.ActiveIff | src/domains/SigningSession/index.ts:51-102 | in every run a session is active after exactly the current holds with a positive autoLockMs and the steps that do not end it, and holds what the hold gave it |
| SigningSession.StaleHoldIsRefused | src/domains/SigningSession/index.ts:65-74 | a hold whose generation was read before a release never activates |
| DeployStatusPoller.WatchService.Answer | src/services/DeployStatusPoller/index.ts:90-132 | an answer is reported, then ends the watch if final or late, unless the caller cancels or throws |
| DeployStatusPoller.WatchService.Stop | src/services/DeployStatusPoller/index.ts:57-64 | stops once and clears the interval |
| DeployStatusPoller.AnswerEndsIff | src/services/DeployStatusPoller/index.ts:97-116 | an answer ends the watch exactly when it is final, late, or the caller cancels or throws, and confirms exactly when it is final and the caller lets it |
| DeployStatusPoller.AnswerReports | src/services/DeployStatusPoller/index.ts:90-132 | everything an answer reports, in order, and how the promise settles |
| DeployStatusPoller.FailureIsReported | src/services/DeployStatusPoller/index.ts:117-131 | a failed request ends an unfinished watch with its error |
| DeployStatusPoller.AsksUntilFinished | src/services/DeployStatusPoller/index.ts:90-141 | until it finishes a watch asks at every tick that finds no request under way, and every request is answered for |
| DeployStatusPoller.AtMostOneTerminal | src/services/DeployStatusPoller/index.ts:66-88 | in every run at most one confirmation or error is reported, a confirmation only after a final status |
| DeployStatusPoller.SilentOnceFinished | src/services/DeployStatusPoller/index.ts:57-141 | after a cancel or an end no callback is made and the promise does not change |

## Left out

- ReservationTheorems.NeverOverReserved: for adds and updates it needs the network named to be the selected one, because the code does (see CheckProtectsIffSelected).
- ReservationsManager.HeldReservationsAreCovered: speaks of reservations whose network is configured, because the code arms no timer for others.
- StorageMigrationHistories.EverySuccessIsExactIff: speaks of builds that are not downgraded (SuccessUnderDowngradesIff of all); the metadata table is outside the migrations' reach.
- ReservationsManager.TransactionReservationsManager.OnConfirmed: always releases; a subscriber that throws would skip the release, and the reservation would stay until its timer.
- NetworkReconfiguration.StorageAndMemoryAgree: starts from a registry equal to storage, though restoring custom networks skips stored records with an unknown node profile.
- DeploySerialization.ReadsBackIff: assumes strings encode to fewer than 2^32 bytes, the runtime's own limit being lower.
- AtomicAmount.ToAtomicAmount: takes strings; a JavaScript number is formatted by the runtime first.
- LifecycleGuard.NothingPendingAfterDrain: a drain that times out promises nothing; the guard's exclusive scope is one flag here because only one key is used.
- How a submission's pending amount follows from its details, and the payload checks before an action starts.
- The wallet's own account guard around an action; the busy counter around a submission is part of NetworkReconfiguration, not of the reservation protocol.
- Reservation actions that add a network, other wallets' adapters on the same guard, and two adapters of one wallet.
- Restoring an adapter: reading, decrypting and filtering its records, and waiting for earlier submissions.
- Uniqueness of deploy ids between an add and a submission: a submission's id is its signature.
- Subscribers, event bus, `onAdded` and similar notifications, and the pollers' requests inside the reservation protocol (a poller is only pending, confirmed or failed there).
- Which of several conflicting owners a refusal names: maps have no insertion order here.
- Encryption, key derivation, signatures and the node: opaque values and outcomes.
- Storage below the table operations: each write is atomic, though the file-backed one reads, changes and writes a file.
- `updatedAt` and `createdAt` stamps, and the text of error messages and warnings.
- Creating missing tables between the compatibility check and the migrations at startup.
- Migrations that write the schema record, or throw the runner's own error types.
- `ApiClientManager.close` with operations in flight, and reinitialization.
- Negative or fractional pagination, and invalid dates.
- Date, number and error formatting of the history, and the server-side merge of transfers and deployments.
- `JSON.parse` itself and texts that are not well-formed JSON, beyond what ReplaceNumbersOutsideStrings states for every text.
- Protobuf varints past 64 bits: the writer's value is a safe integer in practice, the proof is for any natural number.
- Rholang templates, keyfiles, CSV export, validators, address checks, and the playground.
