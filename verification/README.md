# Verified models of the game server's core

Dafny models, with proofs, of the parts of the server whose correctness spans many calls: the
write-behind data centers, the dirty tracking of the generated entities, the generator's type
compiler, the march scheduler with its spatial index, the battle engine, alliance summaries, facility
upgrades, city placement and the id generator.

`dafny verify dfyconfig.toml` verifies everything.

## What is modelled

* **Write-behind data center.** `PlayerDC`, `AllianceDC` and `WorldDC` are three copies of one protocol.
  `DataCenter.dfy` has its critical sections, as functions and as methods of a class. `WriteBehind.dfy`
  interleaves them (`WriteBehindRuns.dfy`, `WriteBehindWaits.dfy` and `WriteBehindClose.dfy` have results about
  whole runs): one actor, one writer and any number of waiters, each lock section, channel operation and save
  result being one step. A save may fail and still have replaced the document. One actor thread calls `Tick`, `FlushSync` and `Close`; other threads only wait. Saving writes the whole
  state of a snapshot, as the repositories do (`internal/player/infra/persistence/mongodb/player_repo.go:56-80`);
  a coalesced snapshot's change log is thrown away, so only that reading is sound. The model starts
  after a successful `Load`.
* **Dirty tracking.** `ChangeLog.dfy` has the per-field logs of tracked maps and slices, `Contents.dfy` what the
  operations leave in the collections themselves, `AllianceEntity.dfy` the entity that uses them, `Durability.dfy` entity, data center and repository as
  one system. `PlayerModel.dfy` has the player with its children, which change through pointers handed out
  and whose marks their owner asks for, `PlayerEntity.dfy` the same on the heap, and `PlayerDurability.dfy`
  player, data center and repository as one system; `PlayerContents.dfy` says what the player's operations leave
  in its saved form.
* **Generator.** `TypeExpr.dfy` has the type-expression parser and printer; `Converter.dfy` the code
  emitter, whose output is a small statement language with an interpreter; `ConverterProof.dfy` its
  correctness, and `ConverterNeed.dfy` where converters are generated at all; `TypeForms.dfy` has the text of each
  form of a type. `seq`-numbered names are modelled as text, so freshness is proved, not assumed.
* **World.** `March.dfy` specifies the march table, the cell index, attack, call back and the arrival
  tick, `MarchPlace.dfy` what they leave field by field, `WorldEntity.dfy` has them in place, and
  `MarchRuns.dfy` two runs; `CityPlacement.dfy` has city founding. A cell number is
  `x + 200 * y`, as for the shipped 200 by 200 map.
* **Battle.** `Battle.dfy` has blows, skills, hits, rounds and battles on rows of units, with every random
  choice a parameter; `BattleLaws.dfy` says how large blows are, whom skills are aimed at and how long
  they last, `BattleAnswer.dfy` whom skills reach, `BattleUnits.dfy` has the battle in place,
  `BattleContext.dfy` the rows it starts with, and `GarrisonBattle.dfy` joins march and battle. Where a nil
  unit is dereferenced the model fails too. A battle is called sane when no number of soldiers, force, ratio or
  configured value is negative and every defence is above -100. The damage ratio is a whole percentage, so damage is a quotient of integers cut towards zero.
  Skills are taken to give one value per effect at each level, and the generals of a battle to be
  distinct objects.
* **Smaller state machines.** `Publication.dfy` has the alliance actor's summaries and the manager that
  keeps them, for one incarnation of the actor; `Upgrade.dfy` facility upgrades and their payment;
  `Snowflake.dfy` the id generator with its 64-bit wrap.

Clock readings, random numbers, coordinates drawn, outcomes of saves and the order in which maps are
visited are parameters or nondeterministic steps.

## Results that go against the code or its comments

Each is proved with the exact condition, or with a run that shows it.

* `Close` keeps the newest update in every continuation exactly if, as it sets `closed`, the newest version
  is persisted or its save has already succeeded; a caller sees the first as the inner `FlushSync` having
  reached its version (`WriteBehindClose.CloseKeepsExactly`, `WriteBehindClose.ReachedCloseKeeps`,
  `WriteBehindRuns.CloseCanLoseAnUpdate`).
* A `FlushSync` on a clean entity returns nil without waiting for earlier versions. What the entity saves is
  then in the repository exactly if the newest version is the stored one, as it is once a caller sees
  `persisted` at the version, or an older document happens to be equal (`WriteBehindRuns.CleanFlushSyncMeans`,
  `WriteBehindRuns.CleanFlushSyncExactly`, `WriteBehindRuns.CleanFlushSyncPromisesNothing`).
* The values in a map log miss what `Update` did; the log of a slice with removals is ambiguous; a reader that
  skips a log goes wrong exactly if the next one does not touch what it changed
  (`ChangeLog.UpdateIsNotInTheValues`, `ChangeLog.RemovalLogAmbiguous`, `ChangeLog.SkippedLogIsHarmlessIff`).
* A battle with a garrison fails at the write-back, because its context carries empty rows
  (`BattleContexts.FightAsWritten`). The tick ends there: that army and every later arrival are left running
  without a march (`Marching.TickSettles`, `MarchRuns.GarrisonStrands`). Results about ticks are proved both
  for the code as written and under the assumption that battles run to their end, which is the parameter
  `battlesEnd`.
* A request to attack checks the alliance of the home city, the arrival that of the army; when only the
  second forbids the attack, the army stays running without a march, and neither ticks nor `Back` free it
  (`Marching.AttackCanBeCarriedOut`, `MarchRuns.ClaimedAllianceStrands`, `Marching.StrandedForGood`).
* A second `Back` at one instant, for an army that stands still, breaks the index
  (`Marching.BackKeepsInv`, `Marching.TwoCallsBack`).
* Skills with which a hit unit answers and which are meant for the enemy are aimed at its own side and then
  looked for among the attackers. In a sane battle one kills exactly if an attacker standing then bears an id it
  is aimed at and the blow takes soldiers (`BattleAnswers.CounterKillsExactly`); an input at which it goes off
  and kills nobody, where the same skill read as meant kills, is `BattleAnswers.AnswerGoesAstray`.
* An upgrade records the instant of its request as its end, so it takes no time (`Upgrades.NeverToldToWait`).
* The neighbourhood rule for cities looks across the edge of the map, and never sees a system city
  (`CityPlacement.CanBuildExactly`, `CityPlacement.OnlyPlayersCitiesMatter`,
  `CityPlacement.SystemCityCanBeBuiltOver`).

## Model

| member | source | states |
|---|---|---|
| `DataCenterState.DataCenter.NextVersion` | internal/player/dc/PlayerDC.go:140-159 | a new version is taken unless the data center is closed; under the lock only the version changes |
| `DataCenterState.DataCenter.EnqueueLatest` | internal/player/dc/PlayerDC.go:161-181 | the one-slot mailbox keeps the newer of the two snapshots, and a closed data center takes none |
| `DataCenterState.DataCenter.PopPending` | internal/player/dc/PlayerDC.go:183-189 | hands over the pending snapshot and empties the mailbox |
| `DataCenterState.DataCenter.RequeueOnError` | internal/player/dc/PlayerDC.go:191-215 | a failed snapshot goes back only if the data center is open and the snapshot is still the newest version, and never displaces a newer one |
| `DataCenterState.DataCenter.MarkPersisted` | internal/player/dc/PlayerDC.go:255-269 | persisted only moves up, and then the broadcast channel is replaced and the old one handed out to be closed |
| `WriteBehind.StepInv` | internal/player/dc/PlayerDC.go:85-308 | the invariant of actor, writer and waiters is kept by every step, each lock section, channel operation and save result being a step of its own |
| `WriteBehind.NoLostUpdate` | internal/player/dc/PlayerDC.go:140-221 | while open and behind, the snapshot of exactly the newest version, with the state it was built from, is in the actor's hand, the mailbox or the writer's hand, over all interleavings of failures, skips and requeues |
| `WriteBehind.DiscardsOnlySuperseded` | internal/player/dc/PlayerDC.go:191-308 | a snapshot disappears only by being persisted, by being superseded, or by the requeue of a closed data center |
| `WriteBehind.CleanAndPersistedIsStored` | internal/player/dc/PlayerDC.go:85-115 | clean and persisted up to the newest version means that the repository holds exactly what the entity saves |
| `WriteBehind.PersistedMonotone` | internal/player/dc/PlayerDC.go:255-269 | persisted never falls, never exceeds the version, and moves only to a version that has been saved |
| `WriteBehind.SavesIncrease` | internal/player/dc/PlayerDC.go:286-308 | successful saves happen in strictly increasing version order |
| `WriteBehind.FlushSyncDurable` | internal/player/dc/PlayerDC.go:104-115 | a FlushSync that found the entity dirty and returned nil leaves the repository holding the entity state of that call |
| `WriteBehind.NoLostNotification` | internal/alliance/dc/AllianceDC.go:226-265 | a waiter blocked although its target is persisted holds a channel that is closed already or is closed next |
| `WriteBehind.NoLostNotificationToActor` | internal/player/dc/PlayerDC.go:226-267 | the same for the actor blocked in FlushSync or Close |
| `WriteBehind.NoDoubleClose` | internal/player/dc/PlayerDC.go:255-284 | no broadcast channel is closed twice |
| `WriteBehind.WaiterVerdict` | internal/alliance/dc/AllianceDC.go:115-120 | a waiter told "reached" or "writer done" was told the truth, and it stays true |
| `WriteBehind.ActorVerdict` | internal/player/dc/PlayerDC.go:226-253 | the actor waits for the newest version, and is told the truth about it |
| `WriteBehind.NoLostWakeup` | internal/player/dc/PlayerDC.go:161-181 | a parked writer with a full mailbox has a wake token waiting or a producer about to send one |
| `WriteBehindWaits.PatientIsNotCancelled` | internal/alliance/dc/AllianceDC.go:226-265 | in any run a waiter whose context does not end is never told that it did |
| `WriteBehindWaits.PersistedIsAnswered` | internal/alliance/dc/AllianceDC.go:226-265 | once its target is persisted such a waiter takes at most two steps of its own in any run, after two it has been told that the target is reached, and it is told nothing else |
| `WriteBehindWaits.HeldUpExactly` | internal/alliance/dc/AllianceDC.go:226-265 | a waiter without an answer is held up exactly while its channel is open and the writer is there; with the target persisted the writer is about to close that channel |
| `WriteBehindWaits.PatientFlushIsNotCancelled` | internal/player/dc/PlayerDC.go:226-253 | the same for the actor inside FlushSync or Close |
| `WriteBehindWaits.PersistedFlushReturns` | internal/player/dc/PlayerDC.go:104-115 | once its version is persisted such a FlushSync takes two more steps at most and returns nil |
| `WriteBehindWaits.ActorHeldUpExactly` | internal/player/dc/PlayerDC.go:226-253 | the actor is held up exactly while its channel is open |
| `WriteBehindRuns.TickQueues` | internal/player/dc/PlayerDC.go:85-102 | a Tick on a dirty entity takes the next version, puts its snapshot of the state at the call into the mailbox whatever was there, cleans the entity, wakes the writer and returns the version |
| `WriteBehindRuns.OnlyNewestSaved` | internal/player/dc/PlayerDC.go:286-296 | the writer saves a snapshot exactly if no newer version has been taken |
| `WriteBehindRuns.PutBackExactly` | internal/player/dc/PlayerDC.go:191-215 | a snapshot whose save failed is put back exactly if the data center is open and it is the newest |
| `WriteBehindClose.CloseKeepsExactly` | internal/player/dc/PlayerDC.go:117-138 | Close keeps the newest update in every continuation exactly if, as it sets closed, that version is persisted or its save has already succeeded; otherwise some continuation drops it |
| `WriteBehindClose.ReachedCloseKeeps` | internal/player/dc/PlayerDC.go:117-138 | a Close whose inner FlushSync reached its version keeps the newest update |
| `WriteBehindClose.CloseKeepsASaveUnderWay` | internal/player/dc/PlayerDC.go:117-138 | a reachable Close that finds persisted behind and still loses nothing |
| `WriteBehindClose.CloseKeepsDocumentExactly` | internal/player/dc/PlayerDC.go:117-138 | the repository is sure to end with the newest snapshot exactly if it holds it already as closed is set |
| `WriteBehindClose.CloseDrainsWithoutFailures` | internal/player/dc/PlayerDC.go:117-138 | if no save fails after the first Close sets closed, the writer goes with the newest version persisted exactly if its snapshot was not just coming back from a failed save |
| `WriteBehindRuns.EveryScheduleOfAnOpenCenterDrains` | internal/player/dc/PlayerDC.go:271-308 | in every schedule without new calls, entity changes and failed saves at most Effort steps move snapshots along, never more than 37, and when none can any more the newest version is persisted |
| `WriteBehindRuns.CleanFlushSyncMeans` | internal/player/dc/PlayerDC.go:85-115 | a FlushSync on a clean entity changes nothing and returns nil; the document is the newest snapshot if the newest version is stored, else an older one, and then the newest is in flight while the data center is open |
| `WriteBehindRuns.CleanFlushSyncExactly` | internal/player/dc/PlayerDC.go:104-115 | the repository then holds what the entity saves exactly if the newest version is the stored one, or the older document happens to be equal |
| `WriteBehindRuns.CleanFlushSyncPromisesNothing` | internal/player/dc/PlayerDC.go:104-115 | a FlushSync on a clean entity can return nil while an earlier version is not stored |
| `WriteBehindRuns.CloseCanLoseAnUpdate` | internal/player/dc/PlayerDC.go:117-138 | a whole run in which Close is followed by the loss of the newest version |
| `Decimal.SprintInjective` | internal/alliance/entity/alliance_entity_gen.go:82-95 | the decimal text used as a change-log key determines the map key |
| `Decimal.SprintReads` | internal/alliance/entity/alliance_entity_gen.go:82-95 | the text read as a decimal number is the key |
| `CollectionContents.MapContents` | internal/alliance/entity/alliance_entity_gen.go:680-776 | apart from the log, each of the seven operations leaves in the map what it leaves in a plain map, and returns whether it found something to do |
| `CollectionContents.MapRunContents` | internal/alliance/entity/alliance_entity_gen.go:680-776 | so does any run of operations |
| `CollectionContents.OverlayEntries` | internal/alliance/entity/alliance_entity_gen.go:705-720 | after PutMany every key has the value of the last entry naming it and other keys are as before |
| `CollectionContents.OnlyNamedKeys` | internal/alliance/entity/alliance_entity_gen.go:97-170 | no operation but Replace and Clear writes anything to the log about a key it does not name |
| `CollectionContents.NamedKeyLogged` | internal/alliance/entity/alliance_entity_gen.go:97-170 | Put logs key and value, Update the key alone, Del the deletion |
| `CollectionContents.FullReplaceExactly` | internal/alliance/entity/alliance_entity_gen.go:70-80 | the log gives up exactly at a Replace or Clear that does something |
| `CollectionContents.RunWithoutSwaps` | internal/alliance/entity/alliance_entity_gen.go:70-170 | a run without Replace and Clear always leaves a log that can be replayed |
| `CollectionContents.SliceItems` | internal/alliance/entity/alliance_entity_gen.go:978-1080 | the same for the seven slice operations: contents, result, and when the log gives up |
| `CollectionContents.SliceRunItems` | internal/alliance/entity/alliance_entity_gen.go:978-1080 | so does any run of slice operations |
| `CollectionContents.RemovalsFromCleared` | internal/alliance/entity/alliance_entity_gen.go:1042-1068 | with removals of one sort alone the logged indexes, read in order, lead to the current slice |
| `ChangeLog.MapLogReplays` | internal/alliance/entity/alliance_entity_gen.go:70-206 | after ClearDirty and any run of Put, PutMany, Update, Del, DelMany, Replace and Clear, either the log says full replacement or base minus deletions, overwritten on the child-dirty keys, is the current map; sets and deletions are disjoint |
| `ChangeLog.ApplyKeepsLog` | internal/alliance/entity/alliance_entity_gen.go:680-776 | one map operation keeps that relation |
| `ChangeLog.UpdateIsNotInTheValues` | internal/alliance/entity/alliance_entity_gen.go:722-733 | the values kept in the log replay an Update exactly when the callback left the child as it was logged |
| `ChangeLog.SkippedLogIsHarmlessIff` | internal/alliance/entity/alliance_entity_gen.go:70-206 | a reader that skipped a log and applies the next gets the current map exactly if the next log touches every key the skipped one changed |
| `ChangeLog.SliceLogReplays` | internal/alliance/entity/alliance_entity_gen.go:978-1080 | the same for slices without removals: base plus appends, then the indexed sets, is the current slice |
| `ChangeLog.RemovalLogAmbiguous` | internal/alliance/entity/alliance_entity_gen.go:1042-1068 | with removals two different slices leave the same log |
| `Alliance.DirtyIsComplete` | internal/alliance/entity/alliance_entity_gen.go:385-400 | an operation that changes what Save returns reports a change, marks the entity and its field, and no operation but ClearDirty clears a mark |
| `Alliance.ApplyMeans` | internal/alliance/entity/alliance_entity_gen.go:556-776 | an operation leaves its argument in its field, or the collection as a plain one, and everything else as it was; it returns whether there was anything to do and marks its own field exactly then |
| `Alliance.RunMeans` | internal/alliance/entity/alliance_entity_gen.go:556-776 | over any run the saved form is that of a plain record, and only fields of operations that occurred are marked |
| `Alliance.HydrateSave` | internal/alliance/entity/alliance_entity_gen.go:373-383 | hydrating and saving are inverse, and a hydrated entity is clean |
| `Alliance.AllianceEntity.PutMajors` | internal/alliance/entity/alliance_entity_gen.go:692-703 | the entry is stored, and entity, trace, log and child marks change as the specification says |
| `Alliance.AllianceEntity.PutMajorsMany` | internal/alliance/entity/alliance_entity_gen.go:705-720 | the same, entry by entry in the order the argument map is ranged over |
| `Alliance.AllianceEntity.UpdateMajors` | internal/alliance/entity/alliance_entity_gen.go:722-733 | the same, for a callback on one child |
| `Alliance.AllianceEntity.DelMajors` | internal/alliance/entity/alliance_entity_gen.go:735-746 | the same |
| `Alliance.AllianceEntity.DelMajorsMany` | internal/alliance/entity/alliance_entity_gen.go:748-763 | the same; reports a change exactly if some key was present |
| `Alliance.AllianceEntity.ReplaceMajors` | internal/alliance/entity/alliance_entity_gen.go:680-690 | the same |
| `Alliance.AllianceEntity.ClearMajors` | internal/alliance/entity/alliance_entity_gen.go:765-776 | the same |
| `Alliance.AllianceEntity.AppendApplyList` | internal/alliance/entity/alliance_entity_gen.go:990-1000 | the same, for the tracked slice |
| `Alliance.AllianceEntity.SetApplyListAt` | internal/alliance/entity/alliance_entity_gen.go:1002-1019 | the same, out-of-range indexes refused |
| `Alliance.AllianceEntity.UpdateApplyListAt` | internal/alliance/entity/alliance_entity_gen.go:1021-1040 | the same |
| `Alliance.AllianceEntity.RemoveApplyListAt` | internal/alliance/entity/alliance_entity_gen.go:1042-1052 | the same |
| `Alliance.AllianceEntity.SwapRemoveApplyListAt` | internal/alliance/entity/alliance_entity_gen.go:1054-1068 | the same |
| `Alliance.AllianceEntity.ReplaceApplyList` | internal/alliance/entity/alliance_entity_gen.go:978-988 | the same |
| `Alliance.AllianceEntity.ClearTrace` | internal/alliance/entity/alliance_entity_gen.go:395-400 | after ClearDirty the entity is clean with empty logs and its state unchanged |
| `Alliance.AllianceEntity.SetNameTo` | internal/alliance/entity/alliance_entity_gen.go:596-606 | a scalar setter changes and marks exactly when the value differs |
| `Durability.EndToEnd` | internal/player/dc/PlayerDC.go:85-159 | entity, data center and repository together: clean and persisted up to the newest version means the repository holds what the entity saves, over all entity operations and interleavings |
| `PlayerDurability.EndToEnd` | internal/player/dc/PlayerDC.go:85-159 | player, children, data center and repository together: once neither the player nor any child is dirty and the newest version is persisted, the repository holds what the player saves, over all operations on the entity and on handed-out children |
| `PlayerDurability.CallIsEnabled` | internal/player/entity/player_entity_gen.go:610-649 | nothing that changes what the player saves, in the entity or in a child, leaves it clean |
| `Durability.SnapshotLogsReplay` | internal/alliance/entity/alliance_entity_gen.go:421-494 | the log inside every snapshot leads from the snapshot before it to its own state |
| `Durability.SkippedLogLosesChanges` | internal/player/dc/PlayerDC.go:161-181 | an instance: two Puts to different keys, the first snapshot coalesced away |
| `Durability.CallIsEnabled` | internal/alliance/entity/alliance_entity_gen.go:680-776 | no entity operation changes the saved state without marking it |
| `Manager.ManagerActor.Apply` | internal/alliance/actors/manager_actor.go:94-112 | an accepted summary replaces the stored one, stored versions never fall and other alliances keep theirs |
| `Manager.ManagerActor.ReloadFromDB` | internal/alliance/actors/manager_actor.go:114-136 | afterwards exactly the alliances of this world in the query are stored, each with its last row and version 0 |
| `Manager.RestartedActorIsIgnored` | internal/alliance/actors/manager_actor.go:94-112 | over any messages: while the newest message of a restarted actor is below the stored version the stored entry stays as it was, and from then on it is the newest message |
| `Publication.StoredSummaryIsPersisted` | internal/alliance/actors/alliance_actor.go:83-120 | a stored summary with a positive version is the summary of that snapshot's state, and the version is persisted |
| `Publication.SentSummaryIsPersisted` | internal/alliance/actors/alliance_actor.go:109-119 | the same holds of every summary already when it is sent |
| `Publication.EndTickWaits` | internal/alliance/actors/alliance_actor.go:83-108 | the end of a flush remembers the summary under the version queued and leaves a goroutine waiting for that version |
| `Publication.ReadySendsExactly` | internal/alliance/actors/alliance_actor.go:109-119 | a message that a version is persisted makes the actor send exactly if it is the version remembered, and then that summary, once |
| `Publication.PersistedSummaryArrives` | internal/alliance/actors/alliance_actor.go:83-120 | once that goroutine has its answer three events bring the summary to the manager, which then holds it or a newer one |
| `Publication.StoredVersionsGrow` | internal/alliance/actors/manager_actor.go:94-136 | over every run from the first reload on, a stored alliance stays stored and its version never falls |
| `Publication.VersionsGrowUntilReload` | internal/alliance/actors/manager_actor.go:94-112 | the same over every run without a reload |
| `Publication.LoadedOnce` | internal/alliance/actors/manager_actor.go:114-136 | once loaded, the summaries are never reloaded in any run |
| `TypeExpr.ParseMapType` | internal/scripts/gen_entities.go:2785-2817 | the bracket-counting loop finds the key and value the specification parser finds |
| `TypeExpr.ParseWellFormed` | internal/scripts/gen_entities.go:2552-2573 | every tree the parser returns is well formed |
| `TypeExpr.ParseRender` | internal/scripts/gen_entities.go:2579-2601 | parsing what the printer writes for a well-formed tree gives the tree back |
| `TypeExpr.ParseRenderParse` | internal/scripts/gen_entities.go:2552-2601 | for every string that parses, printing and parsing again gives the same tree |
| `TypeExpr.RoundTripIffWellFormed` | internal/scripts/gen_entities.go:2552-2601 | the trees that survive printing and parsing are exactly the well-formed ones |
| `TypeExpr.RelabelWellFormed` | internal/scripts/gen_entities.go:2579-2601 | renaming leaves to entity types keeps a tree well formed |
| `TypeExpr.TransformOnlyRelabels` | internal/scripts/gen_entities.go:2508-2518 | a state, runtime or document transform, read back, is the same tree with only its leaves renamed |
| `TypeForms.NamesEntityExactly` | internal/scripts/gen_entities.go:2459-2474 | an expression names an entity only if it is the name with pointer marks and white space around it, and the bare name and its pointer do |
| `TypeForms.TransformOfEntity` | internal/scripts/gen_entities.go:2579-2601 | an entity type, by value or by pointer, becomes the state, runtime or document text of its name |
| `TypeForms.TransformOfSlice` | internal/scripts/gen_entities.go:2579-2601 | a slice becomes the slice of what its element becomes |
| `TypeForms.TransformOfMap` | internal/scripts/gen_entities.go:2579-2601 | a map keeps its key type, and its element becomes what it becomes alone |
| `Converter.FreshInjective` | internal/scripts/gen_entities.go:2680-2754 | generated variable names never coincide |
| `ConverterProof.EmitCorrect` | internal/scripts/gen_entities.go:2680-2754 | running the emitted statements stores the intended conversion in the destination and changes no other variable, whatever order maps are visited in, nil and non-nil kept apart at every level |
| `ConverterProof.GeneratedConverterCorrect` | internal/scripts/gen_entities.go:2658-2678 | a generated converter returns the intended conversion of its argument and leaves the argument alone |
| `ConverterNeed.GeneratedExactlyWhereNeeded` | internal/scripts/gen_entities.go:2603-2661 | for a type that parses no converter is generated exactly if copying converts every value of the source type |
| `ConverterNeed.ClonesAlike` | internal/scripts/gen_entities.go:2658-2665 | a clone function is generated where any other converter is |
| `ConverterProof.ConvTyped` | internal/scripts/gen_entities.go:2628-2643 | the conversion takes values of the source type to values of the destination type |
| `ConverterProof.StateRoundTrip` | internal/scripts/gen_entities.go:2658-2754 | runtime to state after state to runtime is the identity |
| `ConverterProof.RuntimeRoundTrip` | internal/scripts/gen_entities.go:2658-2754 | the other way round it is the identity exactly when no child pointer is nil and no child is dirty |
| `Marching.RemoveMarch` | internal/world/actors/world_service.go:1132-1144 | the filter loop returns the items of other armies in order |
| `Marching.WithoutMembers` | internal/world/actors/world_service.go:1132-1144 | exactly the marches of one army go, the rest stay once each |
| `Marching.DispatchKeepsIndex` | internal/world/actors/world_service.go:1075-1109 | sending an army out keeps march table and cell index in agreement exactly if it has no march in flight from another cell |
| `Marching.AttackKeepsInv` | internal/world/actors/world_service.go:204-272 | an accepted attack keeps the invariants exactly if the army is the player's own and may leave the home cell; its march runs from the home city to the target and takes ten seconds |
| `Marching.BackKeepsInv` | internal/world/actors/world_service.go:275-342 | calling an army back keeps them exactly unless it is on its way back already, was sent at this very instant and goes nowhere; otherwise its march is filed under the turning point |
| `Marching.SecondCallBackBreaks` | internal/world/actors/world_service.go:302-333 | an army called back at the instant it set out, and once more at that instant, breaks the index |
| `Marching.TwoCallsBack` | internal/world/actors/world_service.go:302-333 | a world in which that happens |
| `Marching.TurnRoundRepeats` | internal/world/actors/world_service.go:302-324 | the new orders equal the old ones exactly then, whatever the second clock reading |
| `Marching.MarchStaysInside` | internal/world/actors/world_service.go:444-471 | an interpolated position lies in the rectangle of start and goal |
| `MarchPlaces.PlaceOnTheWay` | internal/world/actors/world_service.go:444-471 | on the way each coordinate is the start plus the part of the way that the time passed is of the whole time, cut towards zero, as integer inequalities |
| `MarchPlaces.NeverBackwards` | internal/world/actors/world_service.go:444-471 | as the clock advances the position moves from the start towards the goal and never back |
| `MarchPlaces.BackTurnsRoundInPlace` | internal/world/actors/world_service.go:302-333 | an army called back turns round where it is and goes to where it came from in ten seconds, its march says so and is filed under that cell |
| `MarchPlaces.AttackAcceptedExactly` | internal/world/actors/world_service.go:204-245 | when an attack is accepted, in terms of owner, alliance of the home city and protection; a refused one changes nothing |
| `MarchPlaces.AttackStores` | internal/world/actors/world_service.go:246-272 | the stored army with its new orders and old troops, its march, and nothing else |
| `MarchPlaces.ProtectionHolds` | internal/world/actors/world_service.go:650-656 | a cell is protected for the configured milliseconds and not longer |
| `MarchPlaces.StrikesExactly` | internal/world/actors/world_service.go:396-412 | when an attack that arrives is carried out |
| `MarchPlaces.UndefendedAttack` | internal/world/actors/world_service.go:684-702 | an attack on a cell without garrison takes durability, never below zero, and the army sets out from the cell to where it came from |
| `MarchPlaces.RetreatEnds` | internal/world/actors/world_service.go:415-428 | an army back from its march stands idle where that march set out |
| `Marching.ArriveEffect` | internal/world/actors/world_service.go:394-429 | handling an arrived march whose battle, if any, runs to its end settles its army and leaves the orders and march of every other army alone |
| `Marching.ArrivalsEffect` | internal/world/actors/world_service.go:384-391 | handling such arrivals in turn settles each once, by the world as it was before the first |
| `Marching.TickSettles` | internal/world/actors/world_service.go:345-429 | a tick completes exactly if battles run to their end, which as written they do not, or no due attack meets a garrison; the arrivals before the failing battle are handled once each, that army and all later arrivals are left without a march, the other armies are left alone, and every march afterwards arrives later than now |
| `Marching.TickStrands` | internal/world/actors/world_service.go:345-429 | of the arriving armies exactly those whose attack can no longer be carried out, and those from the failed battle on, are left running without a march; of the others those that were so before |
| `Marching.StrandedForGood` | internal/world/actors/world_service.go:275-429 | neither ticks, failing ones included, nor Back ever release such an army |
| `Marching.AttackReleases` | internal/world/actors/world_service.go:204-272 | another attack does |
| `Marching.AttackCanBeCarriedOut` | internal/world/actors/world_service.go:235-239 | an accepted attack can be carried out later exactly if the alliance the army itself claims allows it, which the request does not check |
| `Marching.VettedRunsStrandNobody` | internal/world/actors/world_service.go:204-429 | in a run of attacks allowed by the armies' own alliances whose ticks complete, no army is ever left running without a march |
| `MarchRuns.ClaimedAllianceStrands` | internal/world/actors/world_service.go:235-239 | a run of one attack and one tick that strands the army, no battle involved |
| `MarchRuns.GarrisonStrands` | internal/world/actors/world_service.go:394-429 | a run of one attack and one tick that ends in a failed battle and strands the army |
| `Marching.RunKeepsInv` | internal/world/actors/world_service.go:204-429 | over every run of attacks, calls back and ticks, a last failing tick included, table and index agree and every march repeats the orders of a running army |
| `WorldEntities.WorldEntity.DispatchArmyMarch` | internal/world/actors/world_service.go:1075-1109 | table and index change in place as the specification says |
| `WorldEntities.WorldEntity.RemoveMarchFromIndex` | internal/world/actors/world_service.go:1111-1125 | the army goes from the list of its cell, and an emptied list goes from the index |
| `WorldEntities.WorldEntity.ReplaceArmyState` | internal/world/actors/world_service.go:1063-1073 | the army is stored, and the result says whether anything changed |
| `WorldEntities.WorldEntity.FindMainCity` | internal/world/actors/world_service.go:218-224 | a main city of the player, if there is one |
| `WorldEntities.WorldEntity.AttackRequest` | internal/world/actors/world_service.go:204-272 | the request does in place what the specification says, on every refusal too |
| `WorldEntities.WorldEntity.BackRequest` | internal/world/actors/world_service.go:275-342 | the same |
| `WorldEntities.WorldEntity.Sweep` | internal/world/actors/world_service.go:345-383 | the table keeps exactly the later marches, rows emptied by the sweep go, the index agrees, and each due march is collected once |
| `WorldEntities.WorldEntity.HandleArrive` | internal/world/actors/world_service.go:394-429 | the handler does in place what the specification says, and fails exactly on a battle that does not end |
| `WorldEntities.WorldEntity.StartBattleAt` | internal/world/actors/world_service.go:673-704 | the same; a failing battle leaves everything as it was |
| `WorldEntities.WorldEntity.Tick` | internal/world/actors/world_service.go:345-392 | a whole tick in place, failing ones included, is a tick of the specification and keeps the invariants |
| `Players.DirtyIsComplete` | internal/player/entity/player_entity_gen.go:610-688 | after ClearDirty and any operations, those on handed-out children included, every field that differs from the cleared state is reported, Dirty says whether anything is, and a clean entity saves to the cleared state |
| `Players.ChangeIsDirty` | internal/player/entity/player_entity_gen.go:610-630 | one operation: what changes Save leaves the entity dirty, and dirt stays |
| `Players.HydrateSave` | internal/player/entity/player_entity_gen.go:590-608 | a hydrated entity is clean and saves to the state it came from |
| `PlayerContents.ApplyMeans` | internal/player/entity/player_entity_gen.go:860-1030 | every operation leaves its argument in its field, a collection as a plain one after the same operation, and everything else as it was |
| `PlayerContents.KidDirtyExactly` | internal/player/entity/player_entity_gen.go:988-1030 | when a child is dirty after an operation: it was and stayed, was given another state, or a dirty one was put in its place |
| `PlayerContents.SameValueMarksNothing` | internal/player/entity/player_entity_gen.go:892-940 | a scalar setter given the value that is there changes nothing |
| `PlayerContents.OnlyTouchedReported` | internal/player/entity/player_entity_gen.go:651-677 | over any run nothing is reported but what was and the fields of operations that occurred |
| `PlayerEntities.PlayerEntity.constructor` | internal/player/entity/player_entity_gen.go:590-608 | hydrating builds the value the specification says, with children of its own |
| `PlayerEntities.PlayerEntity.IsDirty` | internal/player/entity/player_entity_gen.go:610-630 | the owner asks itself and its four children |
| `PlayerEntities.PlayerEntity.ListDirtyFields` | internal/player/entity/player_entity_gen.go:651-677 | the reported fields |
| `PlayerEntities.PlayerEntity.ClearAll` | internal/player/entity/player_entity_gen.go:632-649 | marks and logs of the entity and the marks of its children go, the states stay |
| `PlayerEntities.PlayerEntity.ChangeAllianceId` | internal/player/entity/player_entity_gen.go:892-902 | changes and marks exactly when the value differs |
| `Battle.SkillsHurt` | internal/world/actors/war.go:159-182 | whatever skills are used, the kills entered in them are the soldiers lost, and five times that is the experience gained |
| `Battle.StrikeHurts` | internal/world/actors/war.go:184-201 | one blow: loss, experience and the other units |
| `Battle.BlowHealsExactly` | internal/world/actors/war.go:184-201 | a blow adds soldiers exactly when power and guard have opposite signs and the quotient is not cut to nothing |
| `BattleLaws.BlowSized` | internal/world/actors/war.go:184-201 | in a sane battle a blow takes as many soldiers as the cover goes whole times into the power, or all there are |
| `BattleLaws.SkillBlowSized` | internal/world/actors/war.go:159-182 | a damaging effect does so to every standing unit of its target, with that percentage of the real force, and to nobody else |
| `BattleLaws.KillsByTarget` | internal/world/actors/war.go:159-182 | the kills entered for a target are the soldiers its units lose |
| `BattleLaws.AimMeans` | internal/world/actors/war.go:68-112 | a skill is aimed at its owner, nobody, or as many different standing units of the side it names as it takes in, or all if fewer stand |
| `BattleLaws.FiresByProbability` | internal/world/actors/war.go:116-146 | of a hundred rolls an eligible skill goes off on as many as its probability says |
| `BattleLaws.OnePhase` | internal/world/actors/world_service.go:910-944 | every skill goes off either before or after a hit, the passive and the additional ones after it |
| `BattleLaws.SetOffExactly` | internal/world/actors/war.go:116-146 | the skills set off are those learnt ones that go off, each once, in order, with level, duration and aim |
| `BattleLaws.SkillsLastTheirDuration` | internal/world/actors/war.go:148-253 | after a blow and n ends of rounds exactly the skills with more than n rounds are carried, each with n fewer |
| `BattleLaws.PhaseCarries` | internal/world/actors/war.go:288-300 | the skills set off that have a target are put on their owner, and the other side keeps its own |
| `BattleLaws.CarriedAre` | internal/world/actors/war.go:288-300 | those put on the owner are exactly the ones with a target |
| `Battle.RandomPlaces` | internal/world/actors/war.go:256-286 | up to n different standing units, and all that stand if there are no more |
| `Battle.HitIsFair` | internal/world/actors/world_service.go:906-950 | one hit with all its skills: the log accounts for each soldier lost, experience grows by five for each, nobody gains soldiers in a sane battle, and it ends the battle only by emptying a base |
| `Battle.RoundIsFair` | internal/world/actors/world_service.go:858-904 | the same for a round; between complete rows a round always leaves a log |
| `BattleLaws.HitUsesEverySkill` | internal/world/actors/world_service.go:906-950 | the log of a hit has every skill that goes off, before it and, unless the battle is over, after it on both sides |
| `BattleLaws.InstantSkillsGo` | internal/world/actors/world_service.go:926-935 | after the blow neither of the two carries a skill without duration |
| `BattleLaws.EndAgesEverybody` | internal/world/actors/world_service.go:893-903 | the end of a round takes one round from every skill on both sides and nothing else |
| `BattleLaws.EverybodyFights` | internal/world/actors/world_service.go:858-904 | in a sane round that does not end the battle any two opposite units standing after it have hit each other |
| `Battle.BattleConserves` | internal/world/actors/world_service.go:783-796 | the same for any number of rounds under any random choices, with no condition on force, defence or configured values for the conservation part |
| `Battle.BattleEndsByBase` | internal/world/actors/world_service.go:783-796 | between complete rows only the fall of a base ends a battle before its rounds are up |
| `Battle.VerdictNamesTheFallen` | internal/world/actors/world_service.go:810-819 | the verdict names the side whose base fell, and a draw takes all ten rounds |
| `BattleContexts.InitBattleContext` | internal/world/actors/world_service.go:707-781 | as written the context carries two empty rows whatever the armies |
| `BattleContexts.FightAsWritten` | internal/world/actors/world_service.go:783-819 | whatever armies and dice, a battle in that context fails |
| `BattleContexts.InitFilledContext` | internal/world/actors/world_service.go:745-779 | as intended each general with an id makes a unit in its place, with the city's additions |
| `BattleContexts.UnitStandsFor` | internal/world/actors/world_service.go:745-779 | what a unit has of its general, its place and the city |
| `BattleContexts.FilledRowsFit` | internal/world/actors/world_service.go:745-779 | the intended rows are complete and equally long exactly if the armies have equally many generals and no empty place |
| `BattleContexts.FilledBattleEnds` | internal/world/actors/world_service.go:783-819 | two such armies of three fight to a verdict |
| `GarrisonBattles.ReportedIsLost` | internal/world/actors/world_service.go:783-829 | what a battle writes back: the soldiers missing from the two armies are those the rounds report, a defeat is an empty attacking base, and in a sane battle no place gains soldiers |
| `GarrisonBattles.FullArmiesFight` | internal/world/actors/world_service.go:783-829 | armies without an empty place fight to a verdict with a report of every round |
| `GarrisonBattles.GarrisonBattle` | internal/world/actors/world_service.go:394-410 | with filled rows an attack arriving at a garrison stores both armies as that battle leaves them, sends the attacker home and touches no other army |
| `Battle.EmptyRowsFail` | internal/world/actors/world_service.go:783-806 | empty rows fight empty rounds and then fail at the write-back |
| `BattleAnswers.SkillKillsExactly` | internal/world/actors/war.go:159-182 | in a sane fight a skill kills exactly if one of its damaging effects takes soldiers from a unit that stands when the skill is used and whose general it is aimed at |
| `BattleAnswers.CounterKillsExactly` | internal/world/actors/world_service.go:944-947 | an answering skill meant for enemies is aimed at its own side, and an answering skill kills exactly if it so takes soldiers from an attacker who bears such an id |
| `BattleAnswers.CounterMissesEnemies` | internal/world/actors/world_service.go:944-947 | so it never kills anybody when the two sides share no general |
| `BattleAnswers.HitAims` | internal/world/actors/world_service.go:906-950 | in a whole hit skills meant for enemies are aimed at the side hit, whoever uses them, and those of the answer then kill nobody when the sides share no general |
| `BattleAnswers.AnswerGoesAstray` | internal/world/actors/world_service.go:944-947 | an input: the skill goes off, is aimed at somebody and kills nobody; aimed as meant it kills |
| `BattleUnits.BattleUnit.Kill` | internal/world/actors/war.go:184-201 | soldiers and experience change in place by the loss |
| `BattleUnits.BattleUnit.CalRealBattleAttr` | internal/world/actors/war.go:204-241 | the loops add up all five attributes over the carried skills |
| `BattleUnits.SkillRaises` | internal/world/actors/war.go:204-241 | one more skill with one effect raises the attribute the effect is for by its value and no other |
| `BattleUnits.BareAttr` | internal/world/actors/war.go:204-212 | without skills a unit fights with its own attributes |
| `BattleUnits.BattleUnit.SkillKill` | internal/world/actors/war.go:159-182 | the nested loops do what the specification says to unit and row |
| `BattleUnits.BattleUnit.TriggerSkills` | internal/world/actors/war.go:116-146 | the skills set off, in order, with their targets, and those put on the unit |
| `BattleUnits.BattleUnit.CheckHitSkills` | internal/world/actors/war.go:148-157 | exactly the skills with rounds left remain, in order |
| `BattleUnits.BattleUnit.CheckNextRound` | internal/world/actors/war.go:243-253 | each skill loses a round and the expired ones go |
| `BattleUnits.RandomIds` | internal/world/actors/war.go:256-286 | the ids of the units the random choice picks |
| `BattleUnits.HitUnit` | internal/world/actors/world_service.go:906-950 | one hit in place, both rows and the log |
| `BattleUnits.RoundUnits` | internal/world/actors/world_service.go:858-904 | one round in place, early ends and the failure on a missing unit included |
| `BattleUnits.FightBattle` | internal/world/actors/world_service.go:783-796 | a whole battle in place; five times the soldiers lost are gained as experience |
| `PlayerEntities.PlayerEntity.SetResource` | internal/player/entity/player_entity_gen.go:995-1006 | always replaces the child and marks |
| `PlayerEntities.PlayerEntity.SetResourceEntity` | internal/player/entity/player_entity_gen.go:1008-1018 | compares pointers: the same child changes nothing |
| `PlayerEntities.PlayerEntity.ChangeResource` | internal/player/entity/player_entity_gen.go:988-993 | a setter of a child reached through the getter changes the owner's value and marks the child only |
| `PlayerEntities.PlayerEntity.UpdateResource` | internal/player/entity/player_entity_gen.go:1020-1030 | a missing child is created first, and the field is always marked |
| `PlayerEntities.PlayerEntity.UpdateFacilityAt` | internal/player/entity/player_entity_gen.go:1623-1642 | an index out of range is refused; otherwise it marks exactly when the callback changed the facility |
| `PlayerEntities.ClearWithSharedChild` | internal/player/entity/player_entity_gen.go:1008-1018 | what the pointer setter relies on, that nobody else owns the child: clearing one of two owners keeps the other's reports exactly if that one is marked itself or the child has nothing to report |
| `Upgrades.Consume` | internal/player/actors/player_handler.go:1473-1485 | takes the whole cost or nothing, and marks the child exactly if its state changed |
| `Upgrades.Gain` | internal/player/actors/player_handler.go:1487-1495 | adds every part, through setters that keep the dirty mark right |
| `Upgrades.GainUndoesConsume` | internal/player/actors/player_handler.go:1464-1495 | gaining undoes consuming, and what is affordable leaves nothing negative |
| `Upgrades.HandleUpFacility` | internal/player/actors/player_handler.go:627-726 | the request on the entity does what the specification says, all refusals included, and keeps every difference from any earlier state reported |
| `Upgrades.LetInExactly` | internal/player/actors/player_handler.go:632-648 | a request gets as far as the facilities exactly if the player has a resource child and a world and it names the player's city |
| `Upgrades.GrantedExactly` | internal/player/actors/player_handler.go:659-726 | an upgrade is granted exactly if the facility is there, none of it is under way, it is below the highest level, the next level is configured and there is enough |
| `Upgrades.RefusedSettles` | internal/player/actors/player_handler.go:676-697 | a refused request that gets to the levels leaves the facility at the level paid for |
| `Upgrades.TopLevelSettles` | internal/player/actors/player_handler.go:676-700 | at the highest level a finished upgrade is cleared and the request refused |
| `Upgrades.UpPays` | internal/player/actors/player_handler.go:659-726 | levels paid for and resources taken stay in step exactly if no upgrade was granted, or the clock reads a positive time, or the level is free |
| `Upgrades.RunPays` | internal/player/actors/player_handler.go:659-726 | over any run at positive clock readings, what was spent on a facility is the summed cost of the levels paid for; that number never exceeds the highest level, and no resource becomes negative |
| `Upgrades.NeverToldToWait` | internal/player/actors/player_handler.go:676-721 | as long as the clock does not run backwards no request is refused because an upgrade is under way: the recorded instant is that of the request |
| `CityPlacement.World.CanBuildCity` | internal/world/actors/world_service.go:1492-1524 | the nested loops decide the placement rule |
| `CityPlacement.World.CreateCity` | internal/world/actors/world_service.go:34-88 | nothing changes for a player who has cities; otherwise the city, with the id and name given, is founded at the first coordinates drawn where one may be built, and while none will do nothing changes |
| `CityPlacement.FoundedMeans` | internal/world/actors/world_service.go:71-86 | the city's cell is the player's and whole, and nothing else changes |
| `CityPlacement.CanBuildExactly` | internal/world/actors/world_service.go:1505-1523 | a cell stops a city exactly if it is within five cells, or is so across the left or right edge one row up or down |
| `CityPlacement.BuildingsBlock` | internal/world/actors/world_service.go:1505-1523 | a building of the system or of any player keeps cities five cells off in every direction |
| `CityPlacement.EmptyLandIsFree` | internal/world/actors/world_service.go:1492-1524 | without buildings a city may stand on any configured cell off the border |
| `CityPlacement.OnlyPlayersCitiesMatter` | internal/world/actors/world_actor.go:202-228 | from the initial map on, over every run and whatever the configuration says of system cities, a city may be built exactly on a configured cell off the border that no player's city blocks |
| `CityPlacement.SystemCityCanBeBuiltOver` | internal/world/actors/world_service.go:1505-1523 | a player's city may stand on the cell of a system city, contrary to the comment on the rule |
| `CityPlacement.CitiesKeepApart` | internal/world/actors/world_service.go:34-88 | over any run each player has at most one city, off the border, on a cell the player owns, and any two are more than five cells apart in one direction |
| `CityPlacement.FarApartMeans` | internal/world/actors/world_service.go:1505-1523 | far apart is more than five cells in one direction |
| `SnowflakeIds.Snowflake.NextID` | internal/shared/utils/snowflake.go:41-62 | one call in place, rollback and exhausted milliseconds included |
| `SnowflakeIds.Snowflake.WaitNextMillisecond` | internal/shared/utils/snowflake.go:64-70 | the first reading later than the last time |
| `SnowflakeIds.IdsIncrease` | internal/shared/utils/snowflake.go:41-62 | whatever the clock reads, successive ids grow strictly while the time stays in range |
| `SnowflakeIds.TimeIsAReading` | internal/shared/utils/snowflake.go:41-70 | a later first reading starts its millisecond, otherwise the last time goes on with the next number, and after the last number comes the first later millisecond read |
| `SnowflakeIds.TimesAreRead` | internal/shared/utils/snowflake.go:41-70 | over any run the time in an id is one that was read, or the initial one, and not behind any call's first reading |
| `SnowflakeIds.NewGeneratorIncreases` | internal/shared/utils/snowflake.go:34-62 | a new generator's first id is that of the first reading, and its ids grow from there |
| `SnowflakeIds.Decodes` | internal/shared/utils/snowflake.go:61-61 | every id gives back node and sequence number, and the time while in range |
| `SnowflakeIds.Fits` | internal/shared/utils/snowflake.go:61-61 | an id is a non-negative 63-bit number up to 2^41 ms after the epoch, and no longer at that instant |
| `SnowflakeIds.NodesNeverCollide` | internal/shared/utils/snowflake.go:41-62 | two nodes never produce the same id, whatever their clocks read |

## Left out

- Versions are unbounded numbers; the wrap of a 64-bit version counter is not modelled, nor overflow of
  other integers except in the id generator.
- The phase of a data center before `Load` and the loading itself; a data center without a repository is
  modelled.
- Context timeouts and tick periods: a cancelled wait is a step that may happen at any time.
- The `members` map of the alliance entity: a further instance of the template proved for `majors`. The
  player's buildings, armies, generals, war reports and skills are in its value and its durability theorem;
  their operations in place are those proved for `majors` and `applyList`.
- `SetId`, `SetWorldId` and `SetNotice` of the alliance entity as methods: the template of `SetName`; the
  specification has them.
- Child entities of tracked maps and slices are values: a child pointer kept from before a call is not
  modelled there. The player's single children are modelled as pointers.
- `Clone`, and the copying between states and database documents, which is taken to lose nothing.
- Map keys of the generator's values are integers, and leaves carry abstract contents.
- Sorting of the summaries in an answer, and everything an actor does with other messages.
- Battle.Rounds: experience is gained by the copy of a general in the context; the level a general gets from
  the experience it had is a parameter.
- Battle.Triggers: the duration shown in a report changes with the unit's copy of the skill, through a
  shared pointer; the model keeps the two apart.
- Marching.StartBattle: what a battle leaves of the two armies is a parameter here; module GarrisonBattles
  computes it from the rows. What an army's generals stand for in a battle is a parameter there.
- Marching.RunArrivals: what the actor runtime does after a tick has failed, restarting the actor and loading
  the world again, is not modelled.
- Marching.Attack: conversion of the request's army and the pushing of positions, reports and army states
  to players.
- CityPlacement.World.CreateCity: the retry loop ends with the coordinates it is given; termination for random
  coordinates is not claimed. Alliances and the city's level are not modelled.
- PlayerEntities.PlayerEntity.SetResourceEntity: a child has one owner; nothing in the repository gives a child
  to two.
- SnowflakeIds.Snowflake.NextID: a call returns if the clock eventually passes the last time; two
  generators with one node number are not excluded from colliding.
- Network servers, configuration loading, logging, token handling, message conversion, the actor runtime,
  `ScanBlock`, conscription and disposal requests.
