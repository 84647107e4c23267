# Nightingale alert engine: a verified model

The alert engine evaluates rules on datasources. An evaluation turns query results into anomaly points, points into
events, and events into notifications, while three in-memory maps (`fires`, `pendings`, `pendingsUseByRecover`) remember
what is going on; a table of active events lets a restarted engine pick up where it stopped. This project models that
engine in Dafny and proves what its operations keep over whole runs.

| files | what they model |
|---|---|
| `AlertMachine.dfy` | the state machine of one rule on one datasource, as functions on values; the order in which Go visits a map is an explicit argument |
| `AlertProcess.dfy` | the processor as a class over shared, mutable event objects, proved to compute the machine's functions |
| `AlertTrace.dfy`, `AlertRecovery.dfy`, `AlertHistory.dfy`, `AlertConfluence.dfy`, `AlertEffects.dfy`, `AlertTiming.dfy` | what every run keeps: the notification automaton, recovery, for-durations, independence of map orders, exactly what is pushed, and exactly when alerts fire and recover |
| `ActiveTable.dfy`, `EventStore.dfy`, `ReloadExample.dfy`, `AlertRestart.dfy` | the active-event table, its consumer, failures while persisting, and what a restart gives back and forgets |
| `Joins.dfy` | hash joins over query results against nested loops |
| `VarFilling.dfy` | variables in PromQL: the fast and the slow filling strategy |
| `PromqlText.dfy`, `PromqlScan.dfy`, `PromqlExtract.dfy` | the text functions, matcher stripping (removeVal) and variable extraction (ExtractVarMapping) |
| `Nodata.dfy` | the no-data memory |
| `NotifyChannels.dfy`, `Scheduler.dfy`, `DatasourceFilter.dfy` | reconciliation of notify channels and rule workers, selection of datasources |
| `Common.dfy` | options, lookups, enumerations of sets |

How the model stands to the source:

- A hash is identified with the text it digests (event hash, tag hash, join key); digests are taken to be free of
  collisions. A label set is its canonical text.
- Times are integers; the clock readings of an evaluation, the answers of mute rules, event pipelines, the hash ring,
  the query engine, the HTTP client factory and the name matcher are arguments.
- Go's `range` over a map becomes a loop that picks any remaining key. Where the order can be seen, the method returns
  it as a ghost sequence and the theorems hold for every such sequence.
- A rule may change between evaluations; `Evaluation.cached` is the rule found in the cache, or none.

Results where the code does not do what one might expect, each with its exact condition and an input:

- A record whose first trigger time is 0 comes back from the table with its trigger time instead, because 0 is read as
  unset (models/alert_cur_event.go:539-542): `ActiveTable.MemoryAgreesWithTable`, `ReloadExample.ZeroFirstTrigger`.
- A restart forgets the recover duration and the recover condition, because the table keeps neither the last evaluation
  time nor the judge type (models/alert_cur_event.go:66-77): `AlertRestart.FirstEvaluation`,
  `AlertRestart.RestartEndsAlert`.
- ExtractVarMapping panics on texts with a stray closing brace before an opening one: `PromqlExtract.ExtractPanics`,
  `PromqlExtract.ExtractPanicsAt`.
- removeVal is not idempotent on texts that end in an unclosed block: `PromqlScan.RemoveValTwice`,
  `PromqlScan.RemoveValTwiceFails`.
- Parameter values that contain "@@", or end in "@" before the last position, are torn apart differently from how they
  were joined: `VarFilling.SplitAfterJoin`, `VarFilling.SplitTearsApart`.
- Of datasources of one category with the same name, all but one are invisible to name queries:
  `DatasourceFilter.DatasourceCache.NameHasOneHolder`, `DatasourceFilter.DatasourceCache.SharedName`.
- A notify channel keeps its HTTP client when it stops being an http channel, and when no new client can be built for
  its new configuration (memsto/notify_channel_cache.go:150-165 and 206-220): `NotifyChannels.ClientIsOwn`,
  `NotifyChannels.StaleClientsHappen`.
- Join keys of different label values can agree where values contain "/" (pkg/hash/hash.go:58-67): `Joins.KeyIsValues`
  (they cannot if one side has none), `Joins.KeysCollide`.
- With resolve-after on, a series without a dated value is never resolved and never raised: `Nodata.UndatedIsKept`,
  `Nodata.UndatedExample`.

## Model

| member | source | states |
|---|---|---|
| `AlertMachine.GatherAllIsGroupwise` | alert/process/process.go:413-458 | the loop of handleEvent, which judges each event as it arrives and keeps a running highest severity, yields the observed machine, the eligible events and their top severity of the whole group |
| `AlertMachine.SplitIsGrouped` | alert/process/process.go:187-193 | splitting the surviving events by label set, visited in any order without repetition, gives groups of one label set each, no two groups sharing one |
| `AlertMachine.BuiltEventsExactly` | alert/process/process.go:144-189 | the built events are, in point order, exactly one for each point whose event survived pipeline and mutes, with the hash of rule, labels, datasource, severity and query and with the contents the pipeline left; nothing else |
| `AlertMachine.AlertingKeysExactly` | alert/process/process.go:148-153 | the alerting hashes are exactly those of the points, muted and dropped ones included |
| `AlertMachine.WithLabelsInOrder` | alert/process/process.go:187-193 | a group holds exactly the events with its label set, each as often and in the order as they were built |
| `AlertTrace.EvalKeeps` | alert/eval/eval.go:149-236 | one evaluation keeps the invariant: legal push trace, `fires` equal to what the trace says, keys of `fires` and `pendings` contained in those of `pendingsUseByRecover` |
| `AlertTrace.RunKeeps` | alert/process/process.go:358-533 | push-trace automaton and inclusion over every run of any evaluations, any rule changes and any map orders: numbers 1, previous+1, …; a recovery only for an open episode and with its record; one first trigger time per episode |
| `AlertTrace.NoMissingPendingEvent` | alert/process/process.go:370-376 | in no reachable state does a firing or pending hash lack an entry in `pendingsUseByRecover`, so that exit of RecoverSingle is dead |
| `AlertTrace.EpisodeNumbers` | alert/process/process.go:482-520 | within an episode, under any rules, the notification number is the number it started from plus its fire pushes |
| `AlertTrace.EpisodeBound` | alert/process/process.go:482-520 | under one positive maximum no push of an episode is numbered above it |
| `AlertTrace.RepeatStepZero` | alert/process/process.go:482-520 | a zero repeat step gives exactly one fire push for an episode begun in memory and at most one for any |
| `AlertTrace.FiresAreSpaced` | alert/process/process.go:482-520 | consecutive fire pushes of one episode are at least NotifyRepeatStep * 60 seconds apart |
| `AlertTrace.NotificationBounds` | alert/process/process.go:482-533 | numbering without gaps, the maximum, the spacing and the single push of step 0 together, for every run under one rule, also when it starts from a reload at some number |
| `AlertRecovery.RecoverAllEffect` | alert/process/process.go:358-411 | a batch of RecoverSingle calls removes from all three maps exactly the recoverable hashes it names, whatever the order and repetitions |
| `AlertRecovery.MergeByTags` | alert/process/process.go:331-351 | the first loop of inhibited recovery keeps, for each tags value, a hash of least severity and drops only strictly less severe ones |
| `AlertRecovery.InhibitedCalls` | alert/process/process.go:318-356 | inhibited recovery for every iteration order: one call per tags value, on a hash of minimum severity; a dropped hash has a strictly more severe recovering one with the same tags |
| `AlertRecovery.UninhibitedRecovery` | alert/process/process.go:298-327 | with inhibition off a hash stays in `fires` if and only if it is alerting, within the recover duration of its last handled evaluation, or its judge type is not Origin |
| `AlertRecovery.PointRecovery` | alert/process/process.go:358-411 | called for recover points, RecoverSingle leaves a hash in `fires` if and only if no point names it or it is within the recover duration of its last handled evaluation, whatever its judge type |
| `AlertRecovery.AlertingSurvives` | alert/process/process.go:298-356 | HandleRecover leaves alerting hashes alone in `fires` and `pendings`, adds nothing to any map, and leaves no pending hash that is not alerting |
| `AlertHistory.EligibleExactly` | alert/process/process.go:413-458 | an event is eligible when it is observed if and only if it is eligible after its whole group has been observed |
| `AlertHistory.PendingContinuity` | alert/process/process.go:298-304 | over every run a pending hash has been in `alertingKeys` at every completed Handle since its stored first evaluation time, and is in the latest one |
| `AlertHistory.FiresAfterForDuration` | alert/process/process.go:413-458 | an event that reaches fireEvent under a nonzero for-duration is pending, was alerting at every completed Handle since the stored first evaluation time, and that time lies at least the for-duration, less one interval, back |
| `AlertHistory.RecoversIsLastHandled` | alert/process/process.go:422-426 | over every run an entry of `pendingsUseByRecover` is the time its hash was last handled, and a hash handled in the latest evaluation has one |
| `AlertHistory.HandleKeepsAlerting` | alert/process/process.go:127-198 | Handle never removes an alerting hash from `fires`; one that is muted or dropped by the pipeline keeps its record unchanged |
| `AlertHistory.RecoveryIsExact` | alert/process/process.go:195-197 | with inhibition off, after a completed Handle of any run, a hash that is not alerting is still firing if and only if it was before the recovery phase and is within the recover duration of its last handled time or has a judge type other than Origin |
| `AlertHistory.QuietProgress` | alert/process/process.go:318-356 | with inhibition on, no alerting keys, recover duration 0 and judge type Origin, one evaluation strictly shrinks a nonempty `fires`, whatever its recover points |
| `AlertHistory.QuietRunDrains` | alert/process/process.go:318-356 | n such evaluations leave at most |fires| - n hashes, so `fires` empties |
| `ActiveTable.TableFollowsTrace` | models/alert_his_event.go:313-364 | persisting a trace in order leaves in the table exactly the records of the open episodes the trace describes |
| `ActiveTable.MemoryAgreesWithTable` | alert/process/process.go:535-580 | after every run from a reload, inhibited or not, `fires` and the table rows of the rule and datasource have the same hashes and numbers; reloading a row gives the record back if and only if its first trigger time is not the zero that DB2Mem reads as unset; other rules' rows are untouched |
| `ActiveTable.RestartRebuilds` | models/alert_cur_event.go:518-543 | if events have nonzero trigger times and each own row had a first trigger time or a trigger time, a restart at any point of any run rebuilds the whole view, up to the fields the table does not hold |
| `ActiveTable.RowFirstTrigger` | models/alert_cur_event.go:539-542 | a row shows the first trigger time that memory has if and only if its hash was pushed since the reload, or the row was not a zero that DB2Mem replaced |
| `ReloadExample.ZeroFirstTrigger` | models/alert_cur_event.go:539-542 | a run of two evaluations after which memory has first trigger time 0 and the reloaded record has 60 |
| `AlertRestart.FirstEvaluation` | alert/process/process.go:535-580 | in the first evaluation after a reload, with inhibition off, a loaded hash that is not alerting stays if and only if the clock is short of the recover duration (and no recover point ends it first), whenever it was last handled and whatever its judge type was |
| `AlertRestart.RestartForgetsWait` | alert/process/process.go:535-580 | the same for every hash firing at the end of any run before the restart |
| `AlertRestart.RestartEndsAlert` | models/alert_cur_event.go:66-77 | an alert with a recover condition, last handled ten seconds ago under a recover duration of 300, survives a silent evaluation but not a restart followed by it |
| `ActiveTable.InterleavingOutcome` | alert/process/process.go:522-533 | however the consumer interleaves with the processor's direct deletions, the table together with the queued pushes stands for all effects in program order, provided deletions of a hash precede its pushes |
| `ActiveTable.DrainedOutcome` | alert/process/process.go:522-533 | once the queue is drained the table is that of persisting in program order |
| `ActiveTable.EvalIsOrderly` | alert/eval/eval.go:201-236 | one evaluation deletes a hash from the active table only before it pushes that hash, for every map order |
| `ActiveTable.DrainedRunOutcome` | alert/process/process.go:522-533 | over every run whose queue is drained between evaluations the table is the one of persisting the trace in order |
| `AlertConfluence.OnlyOwnGroup` | alert/process/process.go:147-193 | in the fire phase a hash is affected only by its own label group |
| `AlertConfluence.GroupOrderIsIrrelevant` | alert/process/process.go:187-193 | fire-phase confluence: any two orders of eventsMap leave the same entry in each map and the same effects for every hash |
| `AlertConfluence.TopSeverityIsLeast` | alert/process/process.go:415-455 | the running severity is the least severity present, or SeverityLowest |
| `AlertConfluence.FireListExactly` | alert/process/process.go:413-468 | under inhibition exactly the minimum-severity eligible events of a group, with severity at most SeverityLowest, reach fireEvent; without it exactly the eligible ones |
| `AlertConfluence.FireListInOrder` | alert/process/process.go:413-468 | the events that reach fireEvent do so in the order of their group, each as often as it occurs there |
| `AlertEffects.FireAllExactly` | alert/process/process.go:470-533 | firing a list of events pushes about a hash exactly the notifications due for its own events, each with the event's contents and its number in the episode, and leaves the last as its record |
| `AlertEffects.FirePhaseNotifies` | alert/process/process.go:191-193 | the same for the whole fire phase: due means not firing yet, or repeat step nonzero, over, and the maximum not reached |
| `AlertEffects.RecoverAllPushes` | alert/process/process.go:358-411 | a batch of RecoverSingle calls pushes about a hash one recovery, of its record with the value of the first point naming it, if and only if it is named and recoverable |
| `AlertEffects.InhibitedRecoveryPushes` | alert/process/process.go:318-356 | inhibited recovery: one table deletion for a dropped hash, one recovery push for a kept and recoverable one, nothing for any other |
| `AlertEffects.InhibitedPoints` | alert/eval/eval.go:201-223 | recover points under inhibition, for every order: one RecoverSingle call for each label set, on a point of minimum severity the merge left alone; exactly the hashes that lead their label set at some point and are beaten by a later point leave the maps, each with one table deletion |
| `AlertEffects.EvalPushes` | alert/eval/eval.go:149-236 | all that one evaluation does about a hash, inhibited or not, in order: deletion and recovery by recover points, notifications due, deletion and recovery by the recovery phase; and its record afterwards |
| `AlertEffects.FirstAlertIsNotified` | alert/process/process.go:513-519 | a hash that is not firing and has an event reaching fireEvent gets pushes that begin with number 1, all with the first event's trigger time as first trigger time, and its last one is the record after the evaluation |
| `AlertTiming.PointsAreExact` | alert/eval/eval.go:201-233 | recover points in both modes, for every order: a hash is recovered, with one push of its record showing the asking point's value, if and only if it is firing, asked for (under inhibition: named by the first point of least severity value of its labels) and past its recover duration; it is dropped, with one table deletion, if and only if it leads its label set and is beaten later |
| `AlertTiming.PointsOverRuns` | alert/eval/eval.go:201-233 | over every run: recover points leave a firing hash if and only if they do not ask for it or it was last handled less than the recover duration of the rule in force ago, and do not drop it |
| `AlertTiming.EligibleByTime` | alert/process/process.go:428-455 | an event of a group evaluated at `now` is eligible if and only if there is no for-duration or the time since its hash became pending, plus one interval, reaches it |
| `AlertTiming.FireListByTime` | alert/process/process.go:413-468 | an event reaches fireEvent if and only if it has lasted so long and, under inhibition, its severity is at most 4 and no more severe event of its group has lasted so long |
| `AlertTiming.PendingIsSince` | alert/process/process.go:298-304 | over every run the stored first evaluation time of a hash is that of the evaluation that first handled it under a for-duration with no completed evaluation without it, and no recover point taking it out, since |
| `AlertTiming.FiresExactly` | alert/process/process.go:413-468 | over every run: an event of the latest evaluation reaches fireEvent if and only if it has lasted the for-duration since that time and, under inhibition, no more severe event of its group has |
| `AlertTiming.FiresOnTime` | alert/process/process.go:437-455 | a hash that was not pending and is alerting without a gap since evaluation i reaches fireEvent at an evaluation that handles it if and only if now - then + interval reaches the for-duration: never earlier, and never later |
| `AlertTiming.ReachingMembers` | alert/process/process.go:460-468 | the events FirstAlertIsNotified and EvalPushes speak of are exactly those that reach fireEvent in some group |
| `AlertProcess.Processor.DeleteProcessEvent` | alert/process/process.go:652-656 | the hash leaves all three maps |
| `AlertProcess.Processor.RecoverSingle` | alert/process/process.go:358-411 | the shared event objects change as the machine's RecoverSingle says, for a hash in any state |
| `AlertProcess.Processor.PushEventToQueue` | alert/process/process.go:522-533 | the pushed event becomes the record of its hash in `fires`, and the push is appended to the trace |
| `AlertProcess.Processor.FireEvent` | alert/process/process.go:470-520 | first fire, repeat, repeat step and maximum number, on the event object, as the machine's Fire |
| `AlertProcess.Processor.InhibitEvent` | alert/process/process.go:460-468 | fires the admitted events in order; holds no event it did not hold or was not given |
| `AlertProcess.Processor.RememberEvent` | alert/process/process.go:422-426 | updates the remembered event in place or stores this one |
| `AlertProcess.Processor.PendEvent` | alert/process/process.go:437-446 | updates or creates the pending event and its first evaluation time |
| `AlertProcess.Processor.HandleEvent` | alert/process/process.go:413-458 | the group step of the machine, with aliasing between the event lists and the three maps |
| `AlertProcess.Processor.ClearPendings` | alert/process/process.go:299-304 | drops the pending hashes that are not alerting |
| `AlertProcess.Processor.HandleRecoverEvent` | alert/process/process.go:318-356 | selection by tags under inhibition, in the order the list is given |
| `AlertProcess.Processor.HandleRecover` | alert/process/process.go:298-316 | the recovery phase of the machine for some enumerations of `fires` and of the kept tags |
| `AlertProcess.Processor.BuildEvents` | alert/process/process.go:144-189 | alerting keys collected before muting and the pipeline; events grouped by label set |
| `AlertProcess.Processor.Handle` | alert/process/process.go:127-198 | the fire and recovery phases of the machine for some map orders |
| `AlertProcess.Processor.RecoverByRecoverPoints` | alert/eval/eval.go:201-233 | the recover step of Eval: by point, or under inhibition merged by label set with active-table deletions |
| `AlertProcess.Processor.Eval` | alert/eval/eval.go:149-236 | a whole evaluation on shared event objects refines the machine: the new view is the machine's Eval for an evaluation that is possible in the old view |
| `AlertProcess.Processor.RecoverAlertCurEventFromDb` | alert/process/process.go:535-580 | the maps after a reload are exactly the reloaded machine of the rows that are not skipped; of none if the table could not be read or the rule is not cached |
| `EventStore.EventStore.UniqueHash` | models/alert_his_event.go:313-364 | in every valid store at most one active row has a given hash |
| `EventStore.EventStore.AlertCurEventExists` | models/alert_cur_event.go:754-756 | true if and only if an active row has the hash |
| `EventStore.EventStore.AlertCurEventDelByHash` | models/alert_cur_event.go:745-752 | removes all rows of the hash and no other |
| `EventStore.EventStore.EventPersist` | models/alert_his_event.go:313-364 | keeps uniqueness whichever database step fails; which error is reported; a success leaves one row under the new history id when firing and none when recovered |
| `EventStore.PersistQueue` | alert/dispatch/consume.go:63-146 | persisting a queue in order without failures does to the table what the pushes' trace says |
| `Joins.RegroupBag` | alert/eval/eval.go:999-1017 | rehashing loses no row that has a key and invents none |
| `Joins.KeyIsValues` | pkg/hash/hash.go:58-67 | two series, one of them without "/" in its label values, have the same join key if and only if they agree on every label joined on, a missing one counting as empty |
| `Joins.KeysCollide` | pkg/hash/hash.go:58-67 | with "/" in label values, series that differ on a label joined on can have the same key |
| `Joins.OuterIsInnerPlusExclude` | alert/eval/eval.go:1138-1157 | as bags, left_join = inner_join + left_exclude |
| `Joins.HashJoinIsReference` | alert/eval/eval.go:1138-1157 | one hash join of any of the five kinds is, as a bag, the nested loops over the same rows, right-hand kinds being the operand-swapped mirrors |
| `Joins.HashChainIsReference` | alert/eval/eval.go:1102-1163 | a chain of hash joins of any kinds sharing one On is, as a bag, the chain of nested loops |
| `Joins.InnerChainIsChoices` | alert/eval/eval.go:1138-1141 | a chain of inner joins yields, in order, one row for each choice of a position in every query whose keys agree: the concatenation of the rows there |
| `Joins.ChooseAt` | alert/eval/eval.go:964-982 | there is one choice for each tuple of positions |
| `Joins.ChoicesAreChosen` | alert/eval/eval.go:964-982 | a choice has one row of each query |
| `Joins.ChosenIsChoice` | alert/eval/eval.go:964-982 | every tuple of one row from each query is among the choices |
| `Joins.ChainPermutes` | alert/eval/eval.go:1102-1163 | the result does not depend on how the rows of each query are listed |
| `Joins.RehashSet` | alert/eval/eval.go:999-1017 | groups the rows of an index by join key, for any visiting order; no row with a key is lost |
| `Joins.OnJoinGroups` | alert/eval/eval.go:964-982 | combines groups of equal key; keeps unmatched left groups unless the join is inner |
| `Joins.ExcludeGroups` | alert/eval/eval.go:1070-1078 | keeps exactly the groups whose key the other side lacks |
| `Joins.Flatten` | alert/eval/eval.go:942-952 | lists exactly the rows of the groups, each under its own slot |
| `Joins.ProcessJoins` | alert/eval/eval.go:1102-1163 | nothing for too few queries; otherwise the output rows are, as a bag, those of the nested loops over the queries' rows |
| `VarFilling.SplitAfterJoin` | alert/eval/eval.go:1283-1291 | splitting a joined combination gives it back if and only if no value holds the mark "@@" and none but the last ends in "@" |
| `VarFilling.SplitTearsApart` | alert/eval/eval.go:1283-1291 | "a@" and "b" do not come back |
| `VarFilling.WithoutAtIsClean` | alert/eval/eval.go:1283-1291 | values without "@" always split back |
| `VarFilling.JoinIsInjective` | alert/eval/eval.go:622-631 | clean combinations have distinct keys |
| `VarFilling.ProductMembers` | alert/eval/eval.go:732-758 | the specification of the combinations is exactly the cartesian product |
| `VarFilling.Combine` | alert/eval/eval.go:740-758 | the recursive fill of one shared array lists the combinations in order |
| `VarFilling.MapPermutation` | alert/eval/eval.go:732-737 | all combinations of the parameter values |
| `VarFilling.ParamPermutation` | alert/eval/eval.go:569-631 | the set of keys of all combinations |
| `VarFilling.FilterLayer` | alert/eval/eval.go:391-490 | a key covered by the layer ends with the layer's first sample or with nothing; any other keeps what it had |
| `VarFilling.VarFillingAfterQuery` | alert/eval/eval.go:391-490 | query once, filter: each key ends with the first sample of the last layer covering it, if there is one; for clean values, in terms of the values: the first sample carrying them in the last layer offering them |
| `VarFilling.FillLayer` | alert/eval/eval.go:1263-1334 | one layer of fill-then-query, in any order of combinations |
| `VarFilling.VarFillingBeforeQuery` | alert/eval/eval.go:1233-1345 | fill, query each combination: each key ends with the last sample of the last layer covering it, if there is one; in terms of the values: the last sample carrying them in the last layer offering them |
| `VarFilling.ExpectedIsPresent` | alert/eval/eval.go:391-490 | a key has an anomaly if and only if some layer covers it and the last one to do so has a sample with its values |
| `VarFilling.KeyMeansValues` | alert/eval/eval.go:455-465 | a sample has the key of a clean combination if and only if it carries its values, label by label, a missing label counting as empty |
| `VarFilling.ExpectedByValues` | alert/eval/eval.go:391-490 | for every combination of clean values: the anomaly is the first (fast) or last (slow) sample carrying these values in the last layer whose parameter lists contain them position by position, and nothing if that layer has no such sample or no layer offers them |
| `VarFilling.StrategiesAgree` | alert/eval/eval.go:1233-1345 | the two strategies end with the same keys for every layer chain, and with the same anomalies where a layer has at most one sample for a key |
| `PromqlScan.RemoveValLoop` | alert/eval/eval.go:529-566 | the index loop computes the scanner function, and never indexes outside the text |
| `PromqlScan.RemoveValText` | alert/eval/eval.go:529-566 | every text: without an opening brace it stays |
| `PromqlScan.RemoveValBlock` | alert/eval/eval.go:529-566 | every text with a closed first block: the text before stays, of the block the matchers without `$` stay, the text after is treated alike |
| `PromqlScan.RemoveValOpen` | alert/eval/eval.go:529-566 | every text with an unclosed first block: of the block the matchers without `$` stay, but for the last |
| `PromqlScan.RemoveValTwice` | alert/eval/eval.go:529-566 | stripping twice strips nothing more if and only if the text does not end in an unclosed block of which some matcher was kept |
| `PromqlScan.RemoveValTwiceFails` | alert/eval/eval.go:529-566 | on `{a,b` it does strip more |
| `PromqlScan.RemoveValDropsVariables` | alert/eval/eval.go:529-566 | on printed well-formed queries removeVal is: drop the matchers that contain `$`, print |
| `PromqlExtract.ExtractVarMapping` | alert/eval/eval.go:1379-1430 | the loop computes the extraction function and terminates; it panics if and only if some closing brace has no opening brace since the previous closing one and an opening brace after it |
| `PromqlExtract.ExtractPanics` | alert/eval/eval.go:1384-1395 | the same of the extraction function, from any mapping found so far |
| `PromqlExtract.ExtractPanicsAt` | alert/eval/eval.go:1384-1395 | it panics on `}{` |
| `PromqlExtract.ExtractAfterRemoveVal` | alert/eval/eval.go:1379-1430 | every text: from the stripped text nothing is extracted, and the extraction panics if and only if it would on the text itself |
| `PromqlExtract.ExtractPieces` | alert/eval/eval.go:1379-1430 | on a printed well-formed query the scan sees exactly its blocks and their matchers, in order |
| `PromqlExtract.ReadsMatcher` | alert/eval/eval.go:1398-1422 | a matcher with any of the four operators, single, double or no quotes and any spacing maps its variable to its label; one with a literal maps nothing |
| `PromqlExtract.ReadsMatchers` | alert/eval/eval.go:1398-1422 | a block of matchers yields exactly its variables, each with the label of its last matcher |
| `PromqlExtract.ExtractMapsVariables` | alert/eval/eval.go:1379-1430 | a whole query yields exactly the variables of its selectors, each with the label of the last matcher comparing with it |
| `PromqlText.SpaceIsWhite` | alert/eval/eval.go:1414-1415 | what is trimmed around labels and values is exactly the white space of Unicode |
| `Nodata.AlertRuleWorker.CheckNodata` | alert/eval/eval.go:1665-1713 | one evaluation: the points are exactly those of the missing series, each once, in the visiting order; the memory drops the expired and takes the returned series |
| `Nodata.MemoryIsLatest` | alert/eval/eval.go:1665-1713 | over every run the memory holds a series if and only if it was returned and has not expired at any evaluation since, and holds the most recently returned one |
| `Nodata.RaisedExactly` | alert/eval/eval.go:1670-1707 | a point is raised if and only if the series is not returned now, was before, and has been inside the window at every evaluation since, this one included |
| `Nodata.RaisedWithinWindow` | alert/eval/eval.go:1670-1707 | with a clock that does not run backwards: if and only if its last timestamp is within resolve-after of now |
| `Nodata.WindowMeans` | alert/eval/eval.go:1670-1687 | within the window: resolve-after is off, or the last value has a timestamp and that is no older than resolve-after |
| `Nodata.SilentUntilReturned` | alert/eval/eval.go:1681-1685 | an expired absent series raises nothing until it is returned again |
| `Nodata.UndatedIsKept` | alert/eval/eval.go:1675-1679 | a series without a dated value is never forgotten and, with resolve-after on, never raised |
| `Nodata.UndatedExample` | alert/eval/eval.go:1675-1679 | two evaluations: a series without values, missing for longer than the window, is remembered and not raised |
| `NotifyChannels.SyncedAllIsCurrent` | memsto/notify_channel_cache.go:88-101 | after any series of Set calls the stored ids are those of the last one, with its update times, and every stored configuration was delivered by some call |
| `NotifyChannels.SyncedAllIsLast` | memsto/notify_channel_cache.go:192-203 | if an update time never stands for two configurations, the cache equals what the last call delivered |
| `NotifyChannels.ClientIsOwn` | memsto/notify_channel_cache.go:150-165 | after any series of Set calls, each with its own client factory, a channel's HTTP client is that of its stored configuration if and only if one was built since the channel was last deleted and the last call to build one delivered the stored configuration |
| `NotifyChannels.StoredClient` | memsto/notify_channel_cache.go:150-165 | the client is the one built by that call |
| `NotifyChannels.StaleClientsHappen` | memsto/notify_channel_cache.go:206-220 | an http channel turned into an smtp channel, or updated while no client can be built, keeps its old client |
| `NotifyChannels.NotifyChannelCache.StopChannelResources` | memsto/notify_channel_cache.go:206-220 | closes the channel's open quit channels once and removes its queue, mailbox and quit entries |
| `NotifyChannels.NotifyChannelCache.RemoveChannel` | memsto/notify_channel_cache.go:104-132 | a deleted channel leaves nothing behind |
| `NotifyChannels.NotifyChannelCache.StartHttpChannel` | memsto/notify_channel_cache.go:223-244 | an http channel with http configuration gets an empty new queue, a new quit channel and exactly its concurrency in consumers; without one, nothing |
| `NotifyChannels.NotifyChannelCache.StartResources` | memsto/notify_channel_cache.go:150-188 | the switch on the request type: an HTTP client for http, flashduty and pagerduty channels with http configuration for which one can be built; a queue for http, a mailbox for smtp |
| `NotifyChannels.NotifyChannelCache.RemoveDeletedChannels` | memsto/notify_channel_cache.go:104-132 | exactly the channels absent from the new set are emptied |
| `NotifyChannels.NotifyChannelCache.AddOrUpdateChannels` | memsto/notify_channel_cache.go:135-189 | exactly the new and changed channels are renewed, all others keep every object they had |
| `NotifyChannels.NotifyChannelCache.Set` | memsto/notify_channel_cache.go:88-101 | keeps: queue and queue-quit maps are the http channels with http configuration, the smtp maps the smtp channels with smtp configuration, every open quit channel is in its map, none is closed twice; channels deleted, kept or renewed exactly as the update times say |
| `NotifyChannels.NotifyChannelCache.SetAll` | memsto/notify_channel_cache.go:88-101 | the same over any series of calls, with the configurations and HTTP clients they leave |
| `Scheduler.HashDeterminesIds` | alert/eval/eval.go:132-139 | the hashed text determines rule id and datasource id whatever cron pattern and configuration contain |
| `Scheduler.HashIsExact` | alert/eval/eval.go:132-139 | two hashed texts agree if and only if rule id and datasource id do and the cron pattern and configuration, joined by "_", do |
| `Scheduler.IntervalIsSeen` | alert/eval/eval.go:96-103 | without a cron pattern, rules agree in what is hashed if and only if their effective intervals and their configurations do |
| `Scheduler.WorkerHashIdentifies` | alert/eval/eval.go:132-139 | worker hashes agree if and only if rule id, datasource id and hashed recipe do |
| `Scheduler.WorkerHashDeterminesIds` | alert/eval/eval.go:132-139 | so does the worker hash, the digest being free of collisions |
| `Scheduler.WhoseHash` | alert/eval/alert_rule.go:85-149 | a desired hash of a worker is the hash of the cached rule with the worker's rule id and datasource |
| `Scheduler.ProductDecides` | alert/eval/alert_rule.go:95-116 | with datasources selected by category, a rule is assigned to an enabled one that the ring gives it if and only if its product is metric, logging or named like its category |
| `Scheduler.AddDatasourceWorkers` | alert/eval/alert_rule.go:96-121 | workers for exactly the selected datasources that the ring assigns, that exist, match the rule type and are enabled |
| `Scheduler.BuildWorkers` | alert/eval/alert_rule.go:85-149 | the desired hashes are exactly those of the assigned (rule, datasource) pairs |
| `Scheduler.Scheduler.StartMissing` | alert/eval/alert_rule.go:151-158 | starts exactly the desired workers that do not run, each once |
| `Scheduler.Scheduler.StopExtra` | alert/eval/alert_rule.go:160-165 | stops exactly the running workers that are not desired, each once |
| `Scheduler.Scheduler.Reconcile` | alert/eval/alert_rule.go:151-165 | afterwards exactly the desired hashes run, each with the worker it had or else the new one |
| `Scheduler.Scheduler.StoppedExactly` | alert/eval/alert_rule.go:151-165 | of the workers that ran before, exactly those whose rule is gone, not assigned any more, or changed in cron pattern or configuration have been stopped |
| `Scheduler.Scheduler.SyncAlertRules` | alert/eval/alert_rule.go:85-165 | running hashes equal desired hashes; a worker that stays is the same object, the others are new; every worker ever started runs or was stopped once; at most one worker per rule and datasource; with the worker hash as digest a running worker is stopped if and only if its rule is gone, not assigned any more or changed in cron pattern or configuration, and all that run have the cached rule's |
| `Scheduler.Scheduler.DesiredIsUnique` | alert/eval/alert_rule.go:85-165 | no two running workers have the same rule id and datasource id |
| `DatasourceFilter.Narrow` | models/alert_rule.go:278-361 | one query leaves exactly the ids that satisfy it, for every match type and operator, unknown ones included |
| `DatasourceFilter.ZeroMeansAll` | models/alert_rule.go:278-325 | an exact `in` query is met by an id if and only if it lists the id, or its only number is 0 |
| `DatasourceFilter.NotInIsComplement` | models/alert_rule.go:306-361 | `not in` selects exactly what `in` does not, unless 0 stands for all; other operators and unknown match types select nothing, match type 2 everything |
| `DatasourceFilter.GetDatasourceIDsByDatasourceQueries` | models/alert_rule.go:265-373 | nothing for no query; otherwise, without duplicates, exactly the ids satisfying every query, early break included |
| `DatasourceFilter.QueryOrderIsIrrelevant` | models/alert_rule.go:265-373 | permuting the queries selects the same ids |
| `DatasourceFilter.DatasourceCache.Set` | memsto/datasource_cache.go:61-83 | the id index of each category holds exactly its datasources; every name is indexed and leads to a datasource of that name |
| `DatasourceFilter.DatasourceCache.GetIDsByDsCateAndQueries` | memsto/datasource_cache.go:47-51 | exactly the cached datasources of the category that meet every query by their own id and name, each once; a datasource whose name the index gives to another meets no name |
| `DatasourceFilter.DatasourceCache.UniqueNamesHold` | memsto/datasource_cache.go:61-83 | a name unique in its category is always found |
| `DatasourceFilter.DatasourceCache.NameHasOneHolder` | memsto/datasource_cache.go:61-83 | of the datasources that share a name in a category exactly one is found by it |
| `DatasourceFilter.DatasourceCache.SharedName` | memsto/datasource_cache.go:61-83 | two datasources of one name: one is found by it, the other is not |

## Left out

- Processors called from outside (`from` other than "inner", alert/router/router_event.go), which run beside the worker: the model is one worker, one call at a time; locks are therefore not modelled.
- The scheduling of the consumer goroutine (alert/dispatch/consume.go): it is taken to persist in push order and to be drained between evaluations; how far it lags within one is arbitrary. A full queue, which drops a push, is not modelled.
- External rule processors of the scheduler (alert/eval/alert_rule.go:130-147 and 167-187): the same reconciliation again, without starting and stopping.
- Senders, templates, HTTP, SMTP and script delivery, the notify dispatcher: input and output.
- The hash ring, heartbeats, mute strategies, event pipelines and the expression parser: arbitrary answers; a pipeline may drop an event or change its contents, not its hash.
- Host rules' own triggers, recording rules, and the other in-memory caches: they add only easy members.
- Fields of events that no decision reads (annotations, notes, values for display), and floating-point sample values.
- AlertProcess.Processor.RecoverAlertCurEventFromDb: which host events belong to another engine is an argument.
- ActiveTable.InterleavingOutcome: the queue holds the events as they were when pushed, where the source queues pointers to event objects that later evaluations may still change.
- ActiveTable.DrainedOutcome: likewise.
- EventStore.PersistQueue: one event after the other, where the source may consume several at a time.
- AlertProcess.Processor.Eval: begins with the anomaly and recover points of a successful query; query errors end the evaluation before any of this.
- Joins.ProcessJoins: a list of hash joins with one On. An empty list, the kinds original, none and cartesian, unsupported kinds and lists that mix different On are not modelled; there the grouping of the intermediate result by the first On decides.
- VarFilling.VarFillingBeforeQuery: requires values that join without ambiguity, and takes filling the variables to select exactly the samples carrying the values; the textual substitution and the query engine are not modelled, nor NaN and matrix results.
- VarFilling.VarFillingAfterQuery: the placement of the parameters' labels in the query is an argument.
- PromqlScan.RemoveValLoop: texts are sequences of characters; the source writes single bytes outside braces, which mangles characters beyond ASCII there.
- PromqlExtract.ReadsMatcher: labels and values without the characters of operators, delimiters and quotes.
- Nodata.AlertRuleWorker.CheckNodata: timestamps are integers, the source truncates a float.
- Scheduler.Scheduler.SyncAlertRules: takes the datasources a rule selects as an argument; `DatasourceFilter` models the selection.
- DatasourceFilter.Narrow: numbers of any Go type are one kind of value; their truncation to integers is not modelled.
