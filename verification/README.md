# dbs-monitor: verified models of its core

dbs-monitor watches database instances: a central scheduler collects metrics, an evaluator turns them
into alerts, and an HTTP API lists instances and alerts. This project models the parts where most of
the branching and shared state is, and proves what they promise over every input, every history and
every run.

| module | what it models | main results |
|---|---|---|
| AlertState | the alert state machine and its stored counters | `HistoryTellsTheSlot`, `FiresExactlyAfterTriggerCount`, `TriggerCountBreachesFire`, `RecoversExactlyAfterRecoveryCount`, `EntersNoDataAfterTwoGaps`, `NoDataIsADetour` |
| AlertStore, AlertTable, AlertLifecycle, AlertFreeze | alert rows and their event log under the evaluator, instance removal, retention, pausing, dispositions and notifications | `RunKeepsInv`, `EveryRowTellsItsStory`, `ResolvedRowsNeverChange`, `StoreFollowsHistory`, `EventsFollowHistory`, `EveryEventFits`, `PausedAlertsAreFrozen` |
| Hysteresis | threshold comparison and the validation of recovery ranges | `AcceptedRulesSeparateByForm`, `OrderingRulesNeedADeadBand`, `OrderingRulesFixTheRun`, `RecoversOnlyOnQuietValues` |
| TriggerSnapshot | choosing the sessions kept with a fired alert | `RelatedPids`, `GroupsEqualOrDisjoint`, `PackKeepsWholeGroups`, `GreedyIsUnique`, `SelectTriggerSessions` |
| DueTimes, Dispatcher, Scheduler, DueCoverage, DispatchLaws, CentralScheduler | the collection scheduler's event loop | `DueRunsAreConserved`, `NoDueIsMissed`, `StillPendingIsBlocked`, `StartedInOrder`, `ReservationHolds`, `WorkersNeverBlock` |
| ConnectionCache, ConnectionUse, ConnectionReuse | the query connection cache under interleaving goroutines | `ProtocolHolds`, `CachedUntilEmptied`, `TakenFromUnderItsHolder`, `ServesItsRequest` |
| StatDatabase, RateLaws | rates of `pg_stat_database` counters and the weighted cache hit ratio | `GainsAreMovements`, `RatesTelescope`, `WeightedRatioIsTotalRatio` |
| Backoff, GatedDispatch | failure backoff, the two gates it sets, and dispatch behind them | `TablesFollowHistory`, `GateWithinAMinuteOfAFailure`, `NoDispatchBeforeItsGate` |
| Acceptance | the acceptance verdict | `FinalGoMeansAccepted`, `CodesMean`, `OtherProfilesNeedLess`, `AcceptedMatricesPassed` |
| InstanceList, FleetOverview | filtering, ordering and paging instances, and the overview's numbers | `ListingIgnoresReadOrder`, `PagesOfSeparateReads`, `SummarizeFleet`, `AttentionIsTopTen` |

Pure code is modelled by functions. Code that updates state step by step is a class or a method with
loops, and its postcondition equates the new state with a function of the old one; the theorems are
about those functions. Times are integers in nanoseconds, measured values are real numbers, tables are
maps, and a committed transaction is one step. Ordering and Basics hold what the other modules share, sorting above all.

Check everything with `dafny verify dfyconfig.toml`.

## Where the code and its promises differ

- A rule with `=` or `!=` can be accepted although one value both triggers and recovers
  (`EqualityRuleCanOverlap`); `AcceptedRulesSeparateByForm` gives the exact test.
- Trigger count consecutive breaches do not always fire: the one that ends a NO_DATA stretch only
  restores the earlier state (`TriggerCountAloneIsNotEnough`). `TriggerCountBreachesFire` says exactly
  from which states they do, and one breach more always suffices (`BreachesFirePromptly`).
- A backpressure skip clears the task's own backoff gate, while a backoff deferral keeps it
  (`SkipLiftsTaskGate`, `DeferralMovesNoGate`).
- A connection in use can be closed under its holder: a goroutine whose dialling failed gives the use
  lock back before it invalidates (`LateInvalidation`). `TakenFromUnderItsHolder` says exactly when.
- The page offset is a 64-bit product. A page number whose offset wraps round is not answered with the
  empty page (`HugePageNumberWraps`); `PageIsRightUnlessWrapped` gives the exact condition.

## Model

| member | source | states |
|---|---|---|
| AlertState.Step | internal/alerting/state.go:45-106 | the branch-by-branch step is the transition table, for every snapshot, evaluation and pair of counts |
| AlertState.ResolvedRests | internal/alerting/state.go:52-55 | a resolved snapshot stays resolved on everything but a breach and is not touched by a gap, so the evaluator may skip such evaluations |
| AlertState.ToldObserved | internal/alerting/state.go:45-106 | one more observation moves the slot that the observations tell exactly as the machine moves its own |
| AlertState.HistoryTellsTheSlot | internal/alerting/state.go:45-106 | for every history, the stored row, its state, the state to return to, its version and all its counters are those told by the observations alone, in every state |
| AlertState.PendingExactlyAfterABreach | internal/alerting/state.go:71-97 | an unresolved alert that does not fire is PENDING, or in NO_DATA with PENDING to return to, if and only if its latest data point that did not end a NO_DATA stretch is a breach, and OK otherwise |
| AlertState.LeavesNoDataOnData | internal/alerting/state.go:64-70 | NO_DATA is left if and only if a data point comes |
| AlertState.AfterSound | internal/alerting/state.go:45-106 | every reachable stored snapshot is well formed: counters not negative and below their thresholds, a state to return to exactly in NO_DATA |
| AlertState.HistoryCounted | internal/evaluator/service.go:384-398 | for every history, the stored breach and recovery counters, and all counts under other versions, are those of the history |
| AlertState.CountersAreHistoryCounts | internal/evaluator/service.go:384-398 | loaded under any version, the breach counter is the number of trailing breaches under that version, and in FIRING the recovery counter is the number of trailing recoveries |
| AlertState.FiresExactlyAfterTriggerCount | internal/alerting/state.go:81-93 | outside FIRING and NO_DATA, an observation leads to FIRING if and only if the trailing breaches under its version are then exactly the trigger count |
| AlertState.RecoversExactlyAfterRecoveryCount | internal/alerting/state.go:95-106 | an observation resolves the alert if and only if it was firing and the trailing recoveries under its version are then exactly the recovery count |
| AlertState.BreachesAdvance | internal/alerting/state.go:64-93 | m breaches leave the alert firing or counted up to at least m; from a NO_DATA stretch that returns to a state that does not fire, counted up to exactly m-1 |
| AlertState.TriggerCountBreachesFire | internal/alerting/state.go:64-93 | after any history, trigger count consecutive breaches under one version leave the alert firing if and only if it was not in NO_DATA with a state to return to that does not fire |
| AlertState.BreachesFirePromptly | internal/alerting/state.go:64-93 | after any history, trigger count plus one consecutive breaches leave the alert firing |
| AlertState.TriggerCountAloneIsNotEnough | internal/alerting/state.go:64-71 | a history of the other kind: two gaps, then one breach at trigger count one |
| AlertState.GapsAreCounted | internal/alerting/state.go:52-66 | for every history, the stored gap counter is the number of trailing gaps under its version seen while not resolved, below two outside NO_DATA |
| AlertState.EntersNoDataAfterTwoGaps | internal/alerting/state.go:52-63 | an observation enters NO_DATA if and only if the trailing gaps under its version are then exactly two |
| AlertState.ReturnStateKeptOnlyInNoData | internal/alerting/state.go:52-71 | the state to return to is kept exactly while in NO_DATA and is OK, PENDING or FIRING |
| AlertState.GapsRememberState | internal/alerting/state.go:46-63 | through any stretch of gaps the alert keeps its state, or is in NO_DATA and remembers it |
| AlertState.NoDataIsADetour | internal/alerting/state.go:52-71 | a stretch of gaps that reached NO_DATA, then one data point of any kind, restores the earlier state with every counter zero |
| AlertStore.StepMovesPhase | internal/alerting/evaluation.go:99-121 | the event a step writes moves the event grammar exactly as the step moves the snapshot, and is FIRED exactly when a firing life cycle starts |
| AlertStore.EvaluationWrites | internal/evaluator/service.go:168-321 | an evaluation never hits the failing update and writes at most one row, the key's unresolved one or a new one, with the events of its step |
| AlertStore.EvaluationKeepsInv | internal/evaluator/service.go:168-321 | one evaluation of any key keeps the row and log invariant |
| AlertStore.RemovalKeepsInv | internal/alerting/queries.sql.go:29-56 | removing an instance closes its unresolved rows with one event each and keeps the invariant |
| AlertStore.PurgeKeepsInv | internal/alerting/queries.sql.go:416-420 | retention keeps the invariant |
| AlertStore.RetentionDeletesExactly | internal/alerting/queries.sql.go:416-420 | a row is deleted, with its log, if and only if it was resolved at or before the cutoff; every other row and log is as it was |
| AlertStore.NotesKeepInv | internal/httpapi/queries.sql.go:155-167 | notes of pausing, dispositions and notifications keep the invariant |
| AlertStore.RunKeepsInv | internal/evaluator/service.go:124-375 | in every reachable store, with all fourteen event kinds written, each rule, instance and dimension has at most one unresolved row, and each row's life-cycle columns agree with its log |
| AlertStore.ResolvedRowsNeverChange | internal/notify/queries.sql.go:1462-1562 | once resolved, no life-cycle column of a row changes again and its log gains only notes of notifications and maintenance; it can only be deleted, and its id never comes back |
| AlertStore.NotesDoNotMatter | internal/alerting/evaluation.go:86-97 | leaving the notes out of a log does not change where the grammar ends |
| AlertStore.AcceptedFiresOnce | internal/alerting/evaluation.go:99-121 | an accepted event word has at most one FIRED and nothing pending after it |
| AlertStore.AcceptedClosesLast | internal/alerting/evaluation.go:99-121 | among life-cycle events RECOVERED and the removal can only be last, RECOVERED only after FIRED |
| AlertStore.AcceptedGapsPaired | internal/alerting/evaluation.go:99-121 | among life-cycle events only leaving NO_DATA, or the removal, follows entering it |
| AlertStore.EveryRowTellsItsStory | internal/evaluator/service.go:198-321 | for every row of every reachable store, the log without its notes is grammatical and its last event decides whether the row is resolved, with `recovered_at`, or in NO_DATA; the first-triggered time and version are those of its one FIRED, and the resolution time that of its last event |
| AlertTable.Table.FindCandidate | internal/alerting/queries.sql.go:717-731 | reads an unresolved row when there is one, else a most recently updated one, none only if there is no row |
| AlertTable.Table.SaveAlertSnapshot | internal/alerting/queries.sql.go:1342-1373 | the upsert writes the one unresolved row, keeping its first-triggered columns, or a new row |
| AlertTable.Table.RecoverAlertSnapshot | internal/alerting/queries.sql.go:1184-1204 | finds and resolves exactly an unresolved row, and otherwise changes nothing |
| AlertTable.Table.ResetIgnoredMissingAlert | internal/alerting/queries.sql.go:1241-1254 | rewrites version and counters of an unresolved row and nothing else; changes nothing for an absent or resolved one |
| AlertTable.Table.CreateAlertEvents | internal/evaluator/service.go:297-321 | appends the kinds in order, leaving out UPDATED when there is no value |
| AlertTable.Table.WriteStep | internal/evaluator/service.go:198-321 | row and events together are the specified store change |
| AlertTable.Table.EvaluateRule | internal/evaluator/service.go:124-321 | the statement-by-statement transaction is the specified evaluation, keeps the invariant, and fails exactly for a removed instance, changing nothing |
| AlertTable.Table.SetCollectionPause | internal/httpapi/collection_pause.go:40-81 | an unchanged flag writes nothing; a changed one leaves FROZEN or UNFROZEN on exactly the instance's unresolved rows |
| AlertTable.Table.UpdateDisposition | internal/httpapi/alert_dispositions.go:61-104 | an absent alert is not found, a resolved one is a conflict, and any other gains the disposition's event |
| AlertTable.Table.RecordDelivery | internal/notify/queries.sql.go:1462-1562 | a notification's outcome is appended to the alert's log whatever its state |
| AlertTable.GroupByInstance | internal/evaluator/service.go:82-99 | the target list is cut into maximal runs of one instance that concatenate back to it; when it is sorted, one group per instance |
| AlertLifecycle.EvaluationSimulates | internal/evaluator/service.go:168-267 | an evaluation over the tables does to its key what the single-key machine does, and nothing to other keys |
| AlertLifecycle.ChangeAdvances | internal/evaluator/service.go:168-267 | what an evaluation writes for a key is what the single-key machine stores, and it writes nothing exactly when that machine does not move |
| AlertLifecycle.StoreFollowsHistory | internal/evaluator/service.go:124-375 | on every run, the stored state of every key not removed is the single-key machine run on that key's history |
| AlertLifecycle.GainedIsTransition | internal/alerting/evaluation.go:99-121 | each of the six kinds is written exactly on the change of the stored state that calls for it, UPDATED only with a value: one event, on a row of the key, with the version, states and time of the evaluation, and no log loses anything |
| AlertLifecycle.EventsFollowHistory | internal/evaluator/service.go:198-321 | on every run, an evaluation writes an event of each of the six kinds if and only if the key's observations make it due: FIRED and RECOVERED when the trailing breaches or recoveries have just reached their count, UPDATED on any other data point of a firing alert, NO_DATA_ENTERED on the second gap, NO_DATA_EXITED on the data point that ends the stretch, PENDING_STARTED on a breach that neither fires nor follows one |
| AlertLifecycle.CallsAreDue | internal/alerting/evaluation.go:99-121 | which change of state calls for an event, told by the observations before and after |
| AlertLifecycle.EvaluationStamps | internal/evaluator/service.go:198-321 | a row an evaluation leaves unresolved was updated at its time, and a row it resolves was updated and resolved at its time |
| AlertLifecycle.NoteIsLogged | internal/httpapi/alert_dispositions.go:61-104 | a disposition or notification outcome leaves exactly one event of its kind, on its row, with the row's version and state |
| AlertLifecycle.RemovalIsLogged | internal/alerting/queries.sql.go:29-56 | removing an instance leaves exactly one event on exactly its unresolved alerts, from the state each was in |
| AlertLifecycle.PauseIsLogged | internal/httpapi/collection_pause.go:40-81 | pausing or resuming leaves FROZEN or UNFROZEN on exactly the instance's unresolved alerts, and nothing if nothing changes |
| AlertLifecycle.EveryEventFits | internal/alerting/evaluation.go:99-121 | on every run, the two states in every event of every log are a change that calls for its kind |
| AlertFreeze.PausedAlertsAreFrozen | internal/evaluator/service.go:101-122 | in every reachable store the FROZEN and UNFROZEN notes of a log take turns, no life-cycle event but the removal lies between them, and an unresolved alert is frozen if and only if its instance is paused |
| Hysteresis.AcceptedRulesSeparateByForm | internal/httpapi/alert_rules.go:662-676 | an accepted rule has no value that both triggers and recovers if and only if it passes a test on the rule alone; ordering operators always do |
| Hysteresis.EqualityRuleCanOverlap | internal/httpapi/alert_rules.go:662-676 | an accepted equality rule with a value that both triggers and recovers |
| Hysteresis.OrderingRulesNeedADeadBand | internal/httpapi/alert_rules.go:662-676 | an ordering rule is accepted if and only if its recovery range reaches away from its trigger range with a stretch of values between them that does neither, or it is `>` with recovery at exactly the threshold |
| Hysteresis.EqualityRulesNeedADifference | internal/httpapi/alert_rules.go:662-676 | an equality rule is accepted if and only if its two tests differ on some value, an unknown operator never |
| Hysteresis.ComparisonsMean | internal/alerting/evaluation.go:51-68 | which of the six comparisons hold, by whether the value lies above, below or at the threshold |
| Hysteresis.OrderOfTestsMattersOnlyOnOverlap | internal/alerting/evaluation.go:70-84 | testing recovery before the trigger gives the same result on every value if and only if the ranges are separate |
| Hysteresis.ValidCategoricalRecovery | internal/httpapi/alert_rules.go:507-520 | the loop accepts exactly when some encoding triggers, some recovers and none does both |
| Hysteresis.TrailingMeansLatest | internal/alerting/state.go:45-106 | for every history, a trailing count speaks of consecutive latest observations under one version, purges aside |
| Hysteresis.RecoversOnlyOnQuietValues | internal/alerting/evaluation.go:51-84 | on every run of readings an alert is resolved only after recovery count consecutive values under one version that recover and do not trigger |
| Hysteresis.SwappedTestsChangeOnlyOverlaps | internal/alerting/evaluation.go:70-84 | over any run of readings, swapping the two tests leaves the history alone if and only if no reading both triggers and recovers |
| Hysteresis.OrderingRulesFixTheRun | internal/httpapi/alert_rules.go:662-676 | with accepted ordering rules every run reaches the same stored state whichever test comes first |
| TriggerSnapshot.ClosureIsLeast | internal/alerting/trigger_snapshot.go:123-154 | what is reachable from a session is contained in every closed set around it |
| TriggerSnapshot.ComponentsEqualOrDisjoint | internal/alerting/trigger_snapshot.go:123-154 | in a symmetric graph any two closures are equal or disjoint |
| TriggerSnapshot.GroupsEqualOrDisjoint | internal/alerting/trigger_snapshot.go:75-90 | outside lock scope, where waiters are followed too, any two groups are equal or disjoint |
| TriggerSnapshot.LockGroupLeavesWaitersOut | internal/alerting/trigger_snapshot.go:142-145 | in the lock scope a root without blockers in the list is alone in its group, whoever waits for it |
| TriggerSnapshot.WaitersJoinTheGroup | internal/alerting/trigger_snapshot.go:143-145 | in the other scopes every session that waits for a member belongs to the group |
| TriggerSnapshot.BlockersJoinTheGroup | internal/alerting/trigger_snapshot.go:142 | in every scope the blockers of a member in the list belong to the group |
| TriggerSnapshot.SearchRelated | internal/alerting/trigger_snapshot.go:123-148 | the queue search visits exactly the existing sessions reachable from the root |
| TriggerSnapshot.RelatedPids | internal/alerting/trigger_snapshot.go:123-154 | the result lists exactly the reachable PIDs, ascending |
| TriggerSnapshot.BuildIndexes | internal/alerting/trigger_snapshot.go:66-73 | the two indexes hold every session by PID and every waiter of every blocker |
| TriggerSnapshot.IndexesPresentTheGraph | internal/alerting/trigger_snapshot.go:66-73 | searching the indexes is searching the blocking graph |
| TriggerSnapshot.PackWithinLimit | internal/alerting/trigger_snapshot.go:98-112 | the packed PIDs never exceed the limit |
| TriggerSnapshot.PackIsUnionOfGroups | internal/alerting/trigger_snapshot.go:98-112 | everything packed belongs to a wholly packed group |
| TriggerSnapshot.PackIsMaximal | internal/alerting/trigger_snapshot.go:98-112 | a group left out would not fit even beside the final selection |
| TriggerSnapshot.PackTakesAllThatFits | internal/alerting/trigger_snapshot.go:98-112 | if everything fits, everything is packed |
| TriggerSnapshot.FirstFittingGroupIsPacked | internal/alerting/trigger_snapshot.go:98-112 | the first group that fits by itself is packed whole |
| TriggerSnapshot.CountAdditional | internal/alerting/trigger_snapshot.go:100-106 | the inner loop counts exactly the PIDs a group would add |
| TriggerSnapshot.PackGroups | internal/alerting/trigger_snapshot.go:98-112 | the packing loop computes the greedy packing |
| TriggerSnapshot.CollectGroups | internal/alerting/trigger_snapshot.go:75-90 | one ascending group per direct match, and the union of all of them |
| TriggerSnapshot.PackKeepsWholeGroups | internal/alerting/trigger_snapshot.go:91-112 | packing in rank order stays in the limit, keeps whole groups, is closed under blocking, leaves out nothing that would fit, keeps everything when it fits, keeps the best-ranked fitting group, and keeps a group if and only if it fits beside the kept groups that rank before it |
| TriggerSnapshot.PackTurn | internal/alerting/trigger_snapshot.go:99-112 | a group is packed if and only if it fits beside what was packed before its turn |
| TriggerSnapshot.GreedyIsUnique | internal/alerting/trigger_snapshot.go:91-112 | only one choice is a union of groups in which a group is kept if and only if it fits beside the kept ones that rank before it |
| TriggerSnapshot.KeepInOrder | internal/alerting/trigger_snapshot.go:114-119 | the selection holds exactly the sessions whose PID was chosen, any two in the order they had in the list |
| TriggerSnapshot.SelectTriggerSessions | internal/alerting/trigger_snapshot.go:51-121 | all three branches: for distinct PIDs and a positive limit the kept sessions are such a packing, any two of them in the order they had in the list and exactly those whose PID was chosen, the total counts every relevant session, and truncation is reported if and only if one was dropped |
| DueTimes.NextDueAfterIsNext | internal/collect/scheduler.go:507-513 | the result is the earliest point of the phase and interval lattice that is after now and not before the phase |
| DueTimes.CatchUpNumbers | internal/collect/scheduler.go:295-330 | catching up from one due time equals taking it and catching up from the next |
| Dispatcher.AdmitKeepsValid | internal/collect/scheduler.go:132-156 | admitting starts work not yet in flight, and counters and marks stay those of exactly the work in flight, within the limits |
| Dispatcher.FinishKeepsValid | internal/collect/scheduler.go:158-173 | finishing work in flight keeps them so |
| Dispatcher.FlightWithinCapacity | internal/collect/scheduler.go:123-173 | work in flight is the two active counts, at most the two limits together |
| Dispatcher.RefusalPersists | internal/collect/scheduler.go:132-156 | while slots only fill up and the waiting flag does not drop, what was refused stays refused |
| Dispatcher.Gatekeeper.Admit | internal/collect/scheduler.go:132-156 | admits exactly when the limits, the reservation and the per-instance marks allow; a refusal changes nothing |
| Dispatcher.Gatekeeper.Finish | internal/collect/scheduler.go:158-173 | releases exactly the finished work; nothing happens when its instance has nothing of that sort marked |
| Scheduler.RefreshKeepsInv | internal/collect/scheduler.go:252-293 | refreshing, complete or cut short by a failure, keeps every invariant of the books |
| DueCoverage.RefreshKeepsDueTimes | internal/collect/scheduler.go:252-293 | a refresh schedules every template; a task already scheduled with its interval, or a capability snapshot, keeps its next due, any other gets now or the earliest point of its lattice after now; a complete refresh leaves nothing else scheduled or pending, a broken-off one leaves everything else alone |
| DueCoverage.AccrueAllProgresses | internal/collect/scheduler.go:295-323 | accruing any list of keys moves each task on by some number of due times, accrues exactly those, and leaves an accrued task's next due after now |
| DueCoverage.NoDueIsMissed | internal/collect/scheduler.go:252-323 | over any run in which a task stays a target with its interval, its due times are accrued one after another without a hole and no others; after accruing, none up to the tick is left |
| DueCoverage.OverdueIsAccrued | internal/collect/scheduler.go:252-323 | a task due by the tick that is still a target has that due time accrued by it |
| Scheduler.AccrueCatchesUp | internal/collect/scheduler.go:295-330 | the catch-up loop in closed form: the latest due not after now is pending, the next due is the first after it, and exactly the ones in between and an earlier pending run are replaced |
| Scheduler.CatchUpStraddlesNow | internal/collect/scheduler.go:295-330 | now lies between the pending due and the next one, which are one interval apart |
| Scheduler.AccrueAllPointwise | internal/collect/scheduler.go:295-330 | accruing every entry leaves each key as if it had been accrued alone |
| Scheduler.AccrueAllKeepsInv | internal/collect/scheduler.go:295-330 | accruing keeps every invariant |
| Scheduler.PassKeepsInv | internal/collect/scheduler.go:332-372 | a dispatch pass, at every point of it, keeps every invariant, whatever the backoff lookups answer |
| Scheduler.PassKeepsFlag | internal/collect/scheduler.go:332-372 | the flag for a waiting capability snapshot is accurate after every offer |
| Scheduler.ReservationHolds | internal/collect/scheduler.go:132-156 | a collection query dispatched while a capability snapshot stays pending leaves the reserved slots free of collection queries |
| Scheduler.DispatchIsWorkConserving | internal/collect/scheduler.go:332-372 | after a pass no run still pending with an answered lookup is deferrable or would be admitted |
| DispatchLaws.AdmittedUnlessBlocked | internal/collect/scheduler.go:132-156 | a run is admitted if and only if the work in flight leaves room: its class below its limit, its instance not busy with that class, and the reserved slots free of collection queries while a capability snapshot waits |
| DispatchLaws.StillPendingIsBlocked | internal/collect/scheduler.go:332-372 | on every run, what is still pending after a pass with its lookup answered is past its gate and blocked by the work in flight |
| DispatchLaws.StartedInOrder | internal/collect/scheduler.go:84-101 | of two runs a pass dispatches, the first is a capability snapshot before any other, then the longer overdue, then the smaller instance and task |
| Scheduler.StepKeepsInv | internal/collect/service.go:760-790 | every step of the event loop and of a worker keeps every invariant |
| Scheduler.RunKeepsInv | internal/collect/service.go:760-790 | so does every run |
| Scheduler.DueRunsAreConserved | internal/collect/scheduler.go:252-397 | after any run from an empty scheduler, every accrued due run is in exactly one of pending, replaced, deferred, dropped and dispatched; each key's dispatched dues increase; every accrued due of a collection task, wherever it went, and every next due lie on their lattice |
| Scheduler.WorkersNeverBlock | internal/collect/scheduler.go:240-250 | after any run, counters match the work in flight within the limits, and an executing worker finds room in the results channel |
| Scheduler.LimitsAreFixed | internal/collect/scheduler.go:123-130 | no run changes the limits |
| Scheduler.RunOnLattice | internal/collect/scheduler.go:507-520 | on every run each accrued due of a collection task lies on the lattice of the phase and interval it was accrued with |
| CentralScheduler.KeyLessLinear | internal/collect/scheduler.go:500-505 | the key order is a strict total order |
| CentralScheduler.RunLessLinear | internal/collect/scheduler.go:84-101 | the dispatch order is a strict total order on runs with distinct keys |
| CentralScheduler.PendingRuns.Put | internal/collect/scheduler.go:68-72 | one pending run per key; the replaced one is returned |
| CentralScheduler.PendingRuns.Take | internal/collect/scheduler.go:74-80 | removes and returns the key's run |
| CentralScheduler.PendingRuns.Ordered | internal/collect/scheduler.go:84-101 | lists every pending run once, ascending in the dispatch order |
| CentralScheduler.PendingRuns.HasCapabilitySnapshot | internal/collect/scheduler.go:103-110 | answers whether a capability snapshot is pending |
| CentralScheduler.Central.DoRefresh | internal/collect/scheduler.go:252-293 | the loop over targets and the removal of absent keys are the specified refresh |
| CentralScheduler.Central.UpdateEntries | internal/collect/scheduler.go:259-285 | the loop over targets keeps an entry's next due exactly for capability snapshots and unchanged intervals |
| CentralScheduler.Central.AccrueEntry | internal/collect/scheduler.go:304-328 | the inner loop is the specified catch-up of one entry |
| CentralScheduler.Central.DoAccrue | internal/collect/scheduler.go:295-330 | the loop over the sorted keys is the specified accrual of every entry |
| CentralScheduler.Central.DoDispatch | internal/collect/scheduler.go:332-372 | the loop is the specified pass over the pending runs in dispatch order, and leaves nothing pending that an answered lookup and the dispatcher would let through |
| CentralScheduler.Central.OfferAll | internal/collect/scheduler.go:334-371 | the loop over the ordered runs is the specified pass |
| CentralScheduler.Central.OfferRun | internal/collect/scheduler.go:335-370 | one iteration is the specified offer |
| CentralScheduler.Central.DoComplete | internal/collect/scheduler.go:374-397 | a received result frees its slot |
| ConnectionCache.ActionKeepsInv | internal/collect/service.go:512-631 | every atomic action of every goroutine keeps the protocol invariant |
| ConnectionCache.RunKeepsInv | internal/collect/service.go:512-631 | so does every interleaving |
| ConnectionCache.OneHolder | internal/collect/service.go:543-563 | two goroutines never hold the same instance's use lock |
| ConnectionCache.ProtocolHolds | internal/collect/service.go:512-631 | under every interleaving: one holder per instance; every dialled connection is in exactly one of its dialler's hands, the cache, a closer's hands, or closed; a holder's connection was dialled for its instance and credential version; installs equal cached plus rebuilt plus drained |
| ConnectionCache.NothingLostOrClosedTwice | internal/collect/service.go:512-541 | installing never overwrites a cached connection and no connection is closed twice |
| ConnectionUse.OnlyTheseTake | internal/collect/service.go:594-631 | while a goroutine goes on using a connection, exactly another's invalidation of the key after a failed dial, or the shutdown, takes it out of the cache, and nothing puts it back |
| ConnectionUse.TakenFromUnderItsHolder | internal/collect/service.go:543-631 | under every interleaving a connection in use is out of the cache if and only if such an action happened while it was being used |
| ConnectionUse.LateInvalidation | internal/collect/service.go:298-302 | a run on which that happens |
| ConnectionReuse.LookupReuses | internal/collect/service.go:512-528 | a lookup goes on to use a connection if and only if the key is cached under the requested version and not reported closed; then it is that very connection and nothing else changes, otherwise the place is emptied, counted and closed |
| ConnectionReuse.PlaceEmptiesExactly | internal/collect/service.go:512-608 | a cached connection leaves its place if and only if a lookup finds another version or a closed connection, a use ends in failure, a failed dial is invalidated, or the service shuts down |
| ConnectionReuse.RetiredForGood | internal/collect/service.go:512-631 | a connection taken out of the cache never comes back |
| ConnectionReuse.CachedUntilEmptied | internal/collect/service.go:512-631 | under every interleaving, a cached connection is still cached later if and only if no such action came in between |
| ConnectionReuse.ServesItsRequest | internal/collect/service.go:543-564 | under every interleaving, the connection a goroutine uses was dialled for the instance and credential version of its own latest request |
| StatDatabase.ListingAscends | internal/collect/stat_database.go:77-83 | databases are reported in name order |
| StatDatabase.RatesOf | internal/collect/stat_database.go:87-121 | the counter loop reports exactly when no counter went down, and then the database's samples |
| StatDatabase.RateIsPerSecond | internal/metric/rate.go:17-28 | a rate is what the counter moved divided by the whole seconds elapsed, a reset when it went down, invalid without elapsed time |
| StatDatabase.CollectNamed | internal/collect/stat_database.go:86-122 | the database loop is void exactly when some counter of some common database went down |
| StatDatabase.RateState.Observe | internal/collect/stat_database.go:59-123 | a first reading is a baseline, a reading not later changes nothing, a reset is flagged exactly for a later reading with a decrease, voids the whole batch and still moves the baseline, otherwise all common databases report |
| RateLaws.JoinInBatch | internal/alerting/queries.sql.go:1654-1675 | a ratio row of a batch joins exactly its own database's weight |
| RateLaws.BatchAdds | internal/alerting/queries.sql.go:1654-1675 | the two sums of the weighted average are a hundred times the hit rates and the access rates of all databases, those without a ratio included |
| RateLaws.WeightedRatioIsTotalRatio | internal/alerting/queries.sql.go:1654-1675 | the weighted instance point equals the hit ratio of the summed counters, and is absent exactly when nothing was accessed |
| RateLaws.ObservedRatioIsTotalRatio | internal/collect/stat_database.go:59-123 | the same through the rate state, for any two readings without a decrease |
| RateLaws.PickFromBatch | internal/collect/stat_database.go:86-122 | a batch reports each rate metric of each database once |
| RateLaws.BatchIsInNameOrder | internal/collect/stat_database.go:76-121 | the samples of a batch are grouped by database in ascending order of the names |
| RateLaws.OneReading | internal/metric/rate.go:17-28 | for any baseline and reading, the emitted rate times its elapsed time is what the counters moved if the reading reports the database, and nothing otherwise |
| RateLaws.BaselineIsLatest | internal/collect/stat_database.go:63-73 | after any run the baseline is the latest reading so far, the earliest of those |
| RateLaws.GainsAreMovements | internal/collect/stat_database.go:59-123 | over every run, with resets, stale readings and absences, each rate times its elapsed time is what the counters moved since the baseline on exactly the readings that are later, show no decrease and have the database in both |
| RateLaws.RatesTelescope | internal/collect/stat_database.go:59-123 | over any run without a reset the rates times their elapsed times add up to exactly what the counters moved, stale readings included |
| Backoff.FailureBackoff | internal/collect/scheduler.go:186-198 | the doubling loop is interval times a power of two, at most a minute, and zero for probes |
| Backoff.WaitDoubles | internal/collect/scheduler.go:186-198 | the first failure waits one interval, each further one twice the last, never more than a minute; probes never wait |
| Backoff.TablesFollowHistory | internal/collect/state.go:50-403 | for every history of records, failure counts and gates of both tables are read off the history |
| Backoff.GateWithinAMinuteOfAFailure | internal/collect/state.go:381-403 | the effective gate is at most a minute after the instance's latest recorded failure, and absent without one |
| Backoff.DeferralMovesNoGate | internal/collect/state.go:87-118 | recording a deferral moves no gate of any task |
| Backoff.SkipLiftsTaskGate | internal/collect/state.go:87-118 | recording a skip leaves only the connection's gate |
| Backoff.FailureSetsGate | internal/collect/state.go:185-254 | after a query failure the task waits the backoff of its consecutive failures, unless the connection's gate is later |
| GatedDispatch.DeferredExactlyBeforeGates | internal/collect/scheduler.go:335-348 | an answered lookup puts a gated run off if and only if its task has a row and the run is due before its task's or its connection's recorded gate |
| GatedDispatch.OnlyGatedRunsHaveGates | internal/collect/scheduler.go:335-348 | a run may be given a gate if and only if it is neither a probe nor a capability snapshot |
| GatedDispatch.OfferedIsKnown | internal/collect/scheduler.go:252-292 | every gated run on offer is of a task that an earlier refresh scheduled after making its row, so its lookup finds the row |
| GatedDispatch.NoDispatchBeforeItsGate | internal/collect/scheduler.go:332-372 | in every run of the scheduler whose refreshes make the rows of the tasks they schedule and whose lookups answer from the records, no gated run is dispatched for a due time before either gate |
| GatedDispatch.FailureHoldsBack | internal/collect/state.go:185-254 | past the gates after a query failure means at least the backoff of its consecutive failures later |
| Backoff.CollectionState.EnsureTaskState | internal/collect/state.go:50-58 | adds a row only when there is none |
| Backoff.CollectionState.RecordFailure | internal/collect/state.go:185-254 | writes task and, for a connection failure, connection row; nothing while paused |
| Backoff.CollectionState.RecordSuccess | internal/collect/state.go:256-320 | clears the task's failures, and the connection's for a probe; nothing while paused |
| Backoff.CollectionState.RecordUnmet | internal/collect/state.go:87-118 | a deferral keeps the gate, a skip overwrites it |
| Backoff.CollectionState.ReadNextEligible | internal/collect/state.go:381-403 | the later of the two gates, none for probes and capability snapshots |
| Acceptance.ReasonSet.HasFailure | internal/acceptancereport/evaluate.go:331-338 | some reason other than running under GitHub Actions |
| Acceptance.ReasonSet.List | internal/acceptancereport/evaluate.go:340-359 | exactly the collected reasons, each once, in the canonical order |
| Acceptance.MatrixIsComplete | internal/acceptancereport/evaluate.go:258-277 | true exactly for 104 entries with distinct, non-empty ids of which 101 are baseline |
| Acceptance.EvaluateFinalRounds | internal/acceptancereport/evaluate.go:172-187 | adds the reason exactly unless there are two rounds, numbered 1 and 2, with environment and positive duration, the second not before the first finished |
| Acceptance.CheckRequired | internal/acceptancereport/evaluate.go:189-202 | reports a missing required block and a block of another commit |
| Acceptance.CheckGate | internal/acceptancereport/evaluate.go:205-225 | reports a block unless its result and its required entries pass, or are excused in the matrix |
| Acceptance.EvaluateMatrix | internal/acceptancereport/evaluate.go:233-256 | reports an incomplete matrix, exceptions, and pending or n-a entries not on the allow lists |
| Acceptance.EvaluateEvidence | internal/acceptancereport/evaluate.go:189-231 | adds exactly the evidence reasons |
| Acceptance.EvaluateManualReview | internal/acceptancereport/evaluate.go:297-311 | an incomplete review is missing, a complete one that does not pass is a failed gate |
| Acceptance.Evaluate | internal/acceptancereport/evaluate.go:138-170 | codes are exactly the reasons in canonical order; NO-GO exactly with a reason other than GitHub Actions; GO exactly when not provisional and without reasons; under the final profile GO exactly when outside GitHub Actions and both rounds are accepted, and then every round's matrix has 104 distinct entries and at least 96 passed baseline entries |
| Acceptance.GitHubActionsOnlyFromInput | internal/acceptancereport/evaluate.go:159-161 | the provisional reason comes from the input flag and from nothing else |
| Acceptance.CodesMean | internal/acceptancereport/evaluate.go:138-323 | each reason code is reported if and only if the input shows it, told by the blocks, entries, words, times and review fields themselves |
| Acceptance.FinalGoMeansAccepted | internal/acceptancereport/evaluate.go:138-311 | a final report has no reason if and only if it ran outside GitHub Actions, both rounds are valid and sequential on the candidate commit, all six blocks are present on that commit, every gate, the matrix and the review pass |
| Acceptance.OtherProfilesNeedLess | internal/acceptancereport/evaluate.go:189-203 | under the CI profile, and any other but final, there is no reason if and only if outside GitHub Actions there is at least one round and every round shows three blocks that suffice |
| Acceptance.BaselinePasses | internal/acceptancereport/evaluate.go:119-135 | a complete matrix that passes its gate has at least 96 baseline entries that passed |
| Acceptance.AcceptedMatricesPassed | internal/acceptancereport/evaluate.go:204-277 | in an accepted input every round's matrix has 104 entries with distinct ids and at least 96 baseline entries that passed |
| Acceptance.FinalIsStricter | internal/acceptancereport/evaluate.go:189-193 | every reason of a CI report is a reason of the same report under the final profile |
| InstanceList.PageOf | internal/httpapi/instance_list.go:41-75 | a positive page is taken as it is and otherwise 1; a positive page size is taken up to 500 and otherwise 50 |
| InstanceList.InstanceMatches | internal/httpapi/instance_list.go:103-131 | groups are combined by and, members of a group by or, flags by and |
| InstanceList.FlagsNarrow | internal/httpapi/instance_list.go:113-117 | each further flag keeps exactly the matches that have it; a query without groups keeps everything |
| InstanceList.GroupsWiden | internal/httpapi/instance_list.go:103-131 | a further engine, status or severity adds exactly the instances that match it and the rest of the query, the first of a group narrows to those, and a search keeps its hits |
| InstanceList.ContainsMeans | internal/httpapi/instance_list.go:135-139 | a search text is found if and only if it occurs somewhere in the name or address |
| InstanceList.StaleMeans | internal/httpapi/instance_list.go:164-178 | stale is never collected or older than 600 seconds, never a paused instance |
| InstanceList.OrderMeans | internal/httpapi/instance_list.go:213-260 | what each order puts first: critical, warning, unknown, healthy, paused; the longest without data; names up or down; then name and id |
| Ordering.StringLessMeans | internal/httpapi/instance_list.go:245-250 | a string is less when it is a proper prefix or smaller at the first difference |
| InstanceList.FilterRearranged | internal/httpapi/instance_list.go:81-87 | filtering a rearranged list rearranges the result |
| InstanceList.OrdersAreTotal | internal/httpapi/instance_list.go:213-250 | with distinct ids each of the sort orders is a strict total order |
| InstanceList.ListingIsOrdered | internal/httpapi/instance_list.go:81-88 | any two listed instances are in the order asked for, and the listing holds exactly the matching instances |
| InstanceList.ListingIgnoresReadOrder | internal/httpapi/instance_list.go:211-250 | two reads of the same instances in any order are listed alike |
| InstanceList.PageIsRightUnlessWrapped | internal/httpapi/instance_list.go:90-100 | the page cut at the 64-bit offset is the right page if and only if the offset fits, or wraps to beyond the list |
| InstanceList.HugePageNumberWraps | internal/httpapi/instance_list.go:90-100 | a page number whose offset wraps to a negative one |
| InstanceList.PagesCoverTheList | internal/httpapi/instance_list.go:90-100 | enough pages in turn give back the whole list, without loss or repeat |
| InstanceList.PagesOfSeparateReads | internal/httpapi/instance_list.go:211-250 | pages taken from separate reads of the same instances add up to the pages of one list |
| InstanceList.SelectInstances | internal/httpapi/instance_list.go:81-101 | the total counts the matching instances and the page is that page of the listing, empty past the end |
| FleetOverview.HealthCountsPartition | internal/httpapi/fleet_overview.go:70-82 | the five health counts and the total the list reports for any other status add up to the fleet |
| FleetOverview.HealthIsListed | internal/httpapi/fleet_overview.go:70-82 | each health count equals the total the instance list reports for that status |
| FleetOverview.CollectionIsListed | internal/httpapi/fleet_overview.go:83-93 | the stale, offline and paused counts equal the totals of the list filters they link to |
| FleetOverview.CountFleet | internal/httpapi/fleet_overview.go:70-94 | the loop computes those counts |
| FleetOverview.AttentionIsTotal | internal/httpapi/fleet_overview.go:129-146 | the attention order is a strict total order for distinct ids |
| FleetOverview.AttentionIsForTheUrgent | internal/httpapi/fleet_overview.go:116-125 | an instance needs attention if and only if its status is more urgent than healthy |
| FleetOverview.AttentionMeans | internal/httpapi/fleet_overview.go:129-146 | the more urgent status first, then more critical, warning and info alerts, then name and id |
| FleetOverview.AttentionIsTopTen | internal/httpapi/fleet_overview.go:102-114 | the list is ranked, holds only instances that need attention, leaves one out only when it holds ten, and all it leaves out rank behind all it holds |
| FleetOverview.AttentionIgnoresReadOrder | internal/httpapi/fleet_overview.go:127-146 | the list does not depend on read order |
| FleetOverview.InstancesNeedingAttention | internal/httpapi/fleet_overview.go:102-114 | the loop, sort and cut compute that list |
| FleetOverview.SummarizeFleet | internal/httpapi/fleet_overview.go:61-96 | every number, the stale, offline and paused ones included, equals the total the instance list reports for the filter it links to |

## Left out

- Severities, current values, rule snapshots, disposition and maintenance columns of alert rows: only their events are modelled, as notes; an alert row is its life-cycle columns.
- When notifications are sent, suppressed or retried: any outcome may be recorded on any existing row at any time, so results hold for every delivery policy; a note the evaluator writes in its own transaction follows it as the next step.
- Disabled rules, structurally inapplicable metrics, `StepCollection` and `AggregateWindow`: easy members around the modelled step.
- SQL isolation and lock waits: a transaction is one step, serialised per instance as the row lock does.
- AlertStore.RunKeepsInv: does not model two evaluator processes at once; transactions of one instance are ordered by the instance row lock.
- TriggerSnapshot.SelectTriggerSessions: the packing clause speaks of distinct PIDs only, which is what `pg_stat_activity` delivers; `markDirectTriggerSessions` is not modelled.
- Scheduler.DueRunsAreConserved: ticks are taken at strictly increasing times; with a repeated tick time a removed and re-added capability task would be due twice at one instant.
- Scheduler.RefreshKeepsInv: a changed interval moves an overdue entry to its next lattice point without accruing the overdue one; the ledger therefore starts at accrual.
- The phase hash (FNV) is an arbitrary function of key and interval, so results hold for every phase; cancellation at shutdown, run counts, log summaries and platform health are not modelled.
- Time arithmetic is on unbounded integers: Go's saturating `Duration` and the 32-bit casts of counters in SQL parameters are not modelled.
- Values are real numbers: rounding, NaN and infinities of `float64` are not modelled.
- The connection cache is a state machine over atomic actions rather than a class, because goroutines interleave inside its functions; dialling probe connections, which are never cached, is not modelled.
- Backoff.TablesFollowHistory: speaks of failure counts and gates, not of the last-result and timestamp columns.
- The report command accepts only the profiles `ci` and `final` (cmd/acceptance-report/main.go:85-87); `Evaluate` is modelled for any.
- The evidence blocks of a round are separate values: one block pointed to from two places is not modelled; how raw JSON parses is an input.
- InstanceList.InstanceMatches: lower-casing of names and addresses is an input, since the language has no Unicode case folding.
- Storage usage, top SQL and the health roll-up that produces an instance's status are not modelled.
