# Verified model of better-memory

better-memory keeps what a coding assistant learns: observations written during an
episode, reflections synthesised from them, and ratings that say which memories
helped. This project models its state machines, protocols and arithmetic in Dafny and
proves what they keep. `dafny verify dfyconfig.toml` checks everything.

Two layers meet. The specification layer describes each operation as a function from
one database to the next and proves invariants over whole runs. The service layer holds
classes whose methods update the tables in place, with the branches and loops of the
program, and proves that each method does exactly what the specification says.

- `Tables`, `Connection`: the tables as maps and sets, and the open database.
- `Synthesis`, `Curation`, `Rating`, `Retention`, `Episodes`: what each operation does.
- `Forest`, `Evidence`, `Conservation`, `Progress`, `Runs`: the invariants of the store.
- `Linking`, `Aging`: what a decision does to single observations and reflections, and when
  retention takes an observation, counted from what was done to it.
- `Races`, `Stranding`: what a write that comes late can break, and what the sweep of a
  decision protects.
- `Queue`: the synthesis queue and the exact condition under which a decision is refused.
- `SynthesisService`, `RatingService`, `RetentionService`, `EpisodeService`: the classes.
- `Migrations`, `SeenStore`, `Injection`: the two lock-free protocols, any number of
  processes, and the turns at which processes that do not overlap inject a memory.
- `Wilson`, `Sorting`, `Fusion`, `Exploration`, `RankMerge`: ranking and selection.
- `Text`, `ManagedBlock`, `Sections`, `SetUpRuns`, `Settings`: reconciliation of the user's files, by one
  set-up run and by any number of them.
- `Ledger`, `Mirror`, `MigrationService`: the migration ledger, what the remote records hold
  after a run, and the migrate command.
- `Spool`, `SpoolDrain`, `SpoolHarm`, `DrainEffects`, `SpoolService`: the crash-safe drain of
  the hook spool, by any number of servers at once, and what it does to the episodes.

What the model says about the code, beyond the promises in its documentation:

- A synthesis decision is all or nothing. A decision that names the same source twice in
  one new reflection, while that observation is still active, raises on the unique key
  of the evidence links, so the whole decision is rolled back and its episode stays
  pending (`Queue.DecisionRefusedIff`). `apply_decision` does not check that the episode
  is closed; neither does the model.
- The Wilson score is the only rate up to the observed proportion that balances the
  ratings exactly when some rating was not positive; a perfect record is also balanced
  by 1 (`Wilson.UniqueUnlessPerfect`).
- A promotion bound of the rank fusion, 59 on both legs, is tight
  (`Fusion.BoundIsTight`).
- Two things stop every later migration run. One is a claim whose holder dies between
  claim and completion. The other is a script that raises every time, which one that
  failed half way may become; its claim is released, and every start fails again
  (`Migrations.SpoiledIsReachable`). A process started now can still return exactly when
  no claim is orphaned and every version with such a script is complete
  (`Migrations.NewcomerReturnsIff`).
- A decision on an open episode is accepted, and an observation written to the episode
  afterwards is stranded: active, in a closed episode that synthesis will not visit again
  (`Stranding.StrandedRun`). With decisions on closed episodes only, nothing is ever
  stranded (`Stranding.NothingIsStranded`, `Stranding.DecisionIsSafeIff`).
- `confirm` and `retire` check the status in one statement and update by id in another.
  A merge that another process commits in between makes the update thaw a superseded
  row and break the merge forest (`Races.MergedInBetween`); without one it is harmless
  (`Races.LateReviewIff`), but for a late confirm that brings back a row retired
  meanwhile (`Races.RetiredInBetween`). A decision whose check came before another decision on its
  episode keeps the invariants (`Races.LateDecisionKeepsInv`).
- The managed block is read back exactly when no END marker, and without a marker pair
  no BEGIN marker, survives the excision in front of it (`ManagedBlock.RoundTrip`). One
  splice removes one legacy section per span, so a file can need several. Over repeated
  runs a file settles exactly when no END marker outlives the legacy sections in front
  of the block (`SetUpRuns.SettlesIff`). Otherwise it grows with every run that finds no
  legacy section (`SetUpRuns.BuriedGrows`), or stands still with an unreadable block
  that is reported as drift for ever (`SetUpRuns.BuriedFixpoint`). A lone BEGIN marker
  costs the user the text behind it on the second run (`SetUpRuns.LoneBeginSwallows`).
- The docstring of `merge_settings` calls the user's matcher groups untouched. A group
  without hooks is dropped even when it never held a managed hook
  (`Settings.GroupsUntouchedIff`, `Settings.EmptyGroupIsDropped`).
- The docstring of `reconcile_ledger` says that the hash is written empty. That is so for
  a new ledger row; an existing row without a target keeps its hash, and the model
  follows the code. A row whose last update failed keeps its target, is planned as a
  create and gets a second remote record (`Ledger.RunKeepsOnePerRowIff`). Because the old
  hash stays, a row that was never written under it can be bound to a record of another
  payload and be taken for migrated; then no run ever writes its payload
  (`Mirror.StaleBinding`, `Mirror.StaleStays`), and nothing else makes a record differ
  from its source (`Mirror.SourceIsMirroredIff`).
- Servers drain one spool without a lock, and a file can be inserted twice. Four steps
  make that possible: a failed commit that leaves the row in the open transaction, a
  commit while another drain still has the file before it, a crash between the commit
  and the unlinking, and a drain that lists the file in that gap
  (`Spool.HarmsIff`, `SpoolHarm.InsertedTwice`). The second and the fourth need no fault
  at all. Without these steps a drained file has exactly one row, with them at most one
  more for each (`Spool.AtMostOneRowPerHarm`), and after each of them a second row can
  follow without another fault (`SpoolHarm.HarmGivesSecondRow`).

Identifiers, sessions, projects and goals are numbers, timestamps are integers, and
every call reads the clock once. Row ids are fresh as `uuid4` makes them: inserting an
id that exists raises, and only a new semantic memory is assumed never to have been
rated before. A SAVEPOINT is all or nothing. Each store operation of `Runs` is one atomic
step, as when one process uses the database; `Races` and `Stranding.LateInsertIff` treat
the operations whose check and write are apart. The relevance order is any ranking, and
the square root is any number that satisfies its equation. Runs start from an empty
store.

## Model

| member | source | states |
|---|---|---|
| Runs.EveryRunKeepsInv | better_memory/services/reflection.py:738-1261 | in every database that synthesis, curation, ratings, retention and episode operations can reach from the empty store, in any order: the merge pointers form a forest, every counter equals the rated exposures of its tree, evidence is disjoint and counted, and the episode lifecycle is sound |
| Runs.SupersededForever | better_memory/services/reflection.py:1551-1593 | over every run from any database no reflection is lost, and a retired or superseded one never changes its status, pointer, counters or evidence count again |
| Runs.RetiredForever | better_memory/services/memory_rating.py:270-278 | no rating, merge, augment or review of any run reaches a retired reflection |
| Runs.StepKeepsInv | better_memory/services/reflection.py:1179-1261 | each single operation, accepted or refused, keeps the whole invariant |
| Forest.JoinKeepsForest | better_memory/services/reflection.py:998-1088 | pointing one live reflection at another keeps every chain of `superseded_by` ending at a live one, and moves exactly the tree of the source under the target |
| Forest.FollowSettles | better_memory/services/reflection.py:1084-1088 | following the pointers longer than it takes to settle does not leave the root |
| Conservation.MergeKeepsConservation | better_memory/services/reflection.py:1052-1107 | a merge keeps, for each class group and root, the counter equal to the rated exposures whose memory reaches that root |
| Conservation.RateKeepsConservation | better_memory/services/memory_rating.py:243-332 | a rating bumps one counter and stamps one exposure, or does neither, so conservation survives for reflections and semantic memories |
| Conservation.RecordKeepsConservation | better_memory/services/exposure_log.py:42-91 | recording exposures, at most one row per session and memory, changes no rated count |
| Conservation.CreateKeepsConservation | better_memory/services/reflection.py:738-805 | a new reflection starts conserved, with no exposure counted for it |
| Conservation.SemanticKeepsConservation | better_memory/services/semantic.py:64-87 | adding a never-rated semantic memory, or removing one, keeps all other counters conserved |
| Evidence.CreateKeepsEvidence | better_memory/services/reflection.py:763-801 | a new reflection takes active observations only, so links stay pairwise disjoint and its evidence count is its number of links |
| Evidence.AugmentKeepsEvidence | better_memory/services/reflection.py:894-919 | augmenting links active observations only and keeps the count equal to the links |
| Evidence.MergeKeepsEvidence | better_memory/services/reflection.py:1032-1050 | a merge moves all links, the target's count becomes exactly the sum of both, and the source keeps none |
| Evidence.RetentionKeepsEvidence | better_memory/services/retention.py:193-232 | archiving and pruning leave no link to a deleted observation and no active or unconsumed observation linked |
| Evidence.CreateSucceeds | better_memory/services/reflection.py:776-801 | creating raises exactly when the id exists or an active source is named twice |
| Races.LateReviewIff | better_memory/services/reflection.py:1551-1593 | a confirm or retire whose check passed and whose write comes after any run of other operations keeps the invariant exactly when the row was not superseded meanwhile, and thaws nothing exactly when it was neither superseded nor, before a confirm, retired |
| Races.RetiredInBetween | better_memory/services/reflection.py:1551-1571 | a retire between the check and the write of a confirm is undone by it |
| Races.MergedInBetween | better_memory/services/reflection.py:1573-1593 | for every live reflection and every awaiting episode, a merge between the check and the write makes the write break the merge forest |
| Races.LateDecisionKeepsInv | better_memory/services/reflection.py:1209-1245 | a decision whose check passed before another one stamped the episode keeps the whole invariant |
| Races.LateDecisionAdvances | better_memory/services/reflection.py:1209-1245 | and it loses no reflection, thaws none, and touches no observation that was not active |
| Stranding.NothingIsStranded | better_memory/services/reflection.py:1137-1160 | in every run whose accepted decisions are about closed episodes no observation is ever active in a closed, synthesized episode |
| Stranding.DecisionIsSafeIff | better_memory/services/reflection.py:1179-1261 | after an accepted decision no such continuation strands an observation exactly when the episode was closed |
| Stranding.StrandedRun | better_memory/services/reflection.py:1209-1223 | a run from the empty store that decides an open episode and ends with a stranded observation |
| Stranding.LateInsertIff | better_memory/services/observation.py:144-200 | an observation inserted after its episode was looked up is not stranded exactly while nobody has synthesized the episode |
| Progress.DecisionAdvances | better_memory/services/reflection.py:1179-1261 | an accepted decision loses no reflection and no observation, never touches an observation that was not active, and thaws no superseded row |
| Linking.DecisionSettles | better_memory/services/reflection.py:1115-1261 | the fate of every observation under an accepted decision: an active one becomes evidence when a new reflection or a live augment lists it, is consumed otherwise when it is ignored or belongs to the episode, and stays active in all other cases; one that was not active is untouched |
| Linking.AugmentedIsEvidence | better_memory/services/reflection.py:893-919 | no active observation that an augment of a live reflection lists is swept away: it ends as linked evidence |
| Linking.AugmentLinks | better_memory/services/reflection.py:893-919 | a link is new exactly when the first augment with a live target that lists the active observation has that target |
| Linking.AugmentRows | better_memory/services/reflection.py:894-960 | a live target ends with the clamped running sum of its deltas and its links recounted, and no other row is written |
| Linking.CreateLinks | better_memory/services/reflection.py:763-801 | a link of a new reflection exists exactly for the active observations that it lists and no earlier new reflection does |
| Linking.CreateRows | better_memory/services/reflection.py:738-805 | a row is made exactly for the actions that find such an observation, pending review, in the project, with clamped confidence and zero counters |
| Linking.MergedIff | better_memory/services/reflection.py:998-1107 | a merge takes effect exactly between two different live rows, sums each counter, keeps the later time of each, moves the links and writes no other row |
| Queue.CountsPartition | better_memory/services/reflection.py:644-673 | done, pending and cooling-down episodes partition the closed ones, as sets and as counts |
| Queue.NextExistsIffPending | better_memory/services/reflection.py:352-388 | a next context exists exactly when the pending count is positive |
| Queue.DecisionMovesOne | better_memory/services/reflection.py:1179-1261 | an accepted decision moves exactly its episode from pending to done, changes no cooldown and leaves no active observation in the episode |
| Queue.DecisionLeavesNoneActive | better_memory/services/reflection.py:1137-1160 | after an accepted decision the sweep has left no active observation of the episode |
| Queue.OldestIsFirst | better_memory/services/reflection.py:352-388 | the episode handed out ended no later than any other pending one |
| Queue.QueuedIff | better_memory/services/reflection.py:644-673 | pending and cooling-down episodes are exactly the closed ones a decision may be submitted for |
| Queue.FailedComesBack | better_memory/services/reflection.py:352-388 | an episode whose synthesis failed is pending again exactly after five minutes |
| Queue.DecisionRefusedIff | better_memory/services/reflection.py:1209-1261 | with fresh ids a decision is refused exactly when the episode is missing, of another project or synthesized, or a new reflection names twice an observation still active by then |
| Queue.RepeatedSourceIsRefused | better_memory/services/reflection.py:776-801 | a concrete decision that is refused for a repeated source and accepted without the repetition |
| Queue.DrainTakesPendingSteps | better_memory/services/reflection.py:1163-1176 | at a fixed clock every accepted decision shortens the queue by one, so the drain loop ends after exactly the pending number of steps |
| SynthesisService.ReflectionSynthesisService.ApplyNew | better_memory/services/reflection.py:738-805 | the loop creates the reflections of the specification, or raises where it does |
| SynthesisService.ReflectionSynthesisService.ApplyAugment | better_memory/services/reflection.py:849-960 | the loop augments live targets only, and the count it returns is the number of actions with a live target |
| SynthesisService.ReflectionSynthesisService.ApplyMerge | better_memory/services/reflection.py:963-1112 | the loop merges distinct live pairs only, in order, with links moved and counters summed, and counts its merges |
| SynthesisService.ReflectionSynthesisService.FilterExistingObservations | better_memory/services/reflection.py:826-846 | keeps exactly the listed observations that exist and are active, in order |
| Progress.IgnoreIsFinal | better_memory/services/reflection.py:1115-1134 | ignoring touches no observation that was not active, no unlisted one and no other table, leaves none of the listed ones active, and changes nothing the second time |
| SynthesisService.ReflectionSynthesisService.ApplyDecision | better_memory/services/reflection.py:1179-1261 | either the whole decision takes effect or every table is as before |
| SynthesisService.ReflectionSynthesisService.PickOldestPending | better_memory/services/reflection.py:352-388 | returns a pending episode that no other pending one ended before, or none when none is pending |
| SynthesisService.ReflectionSynthesisService.ReadQueueCounts | better_memory/services/reflection.py:644-673 | returns the sizes of the three sets of closed episodes |
| Rating.RatedIff | better_memory/services/memory_rating.py:243-332 | a rating changes a counter exactly when the session has an unrated exposure of a semantic memory that exists or of a reflection that is pending review or confirmed; then it counts once, for that memory alone, and stamps its exposure |
| Rating.ColumnOfVerdict | better_memory/services/memory_rating.py:287-320 | cited and shaped count in one column, every other verdict in its own |
| Rating.RefusedBecause | better_memory/services/memory_rating.py:257-284 | each reason for a skip is given exactly in its case |
| Rating.BatchVerdict | better_memory/services/memory_rating.py:335-420 | a batch is refused exactly without a session, without requests or with a memory named twice, and in a valid one every request is judged by the tables before the batch |
| Rating.RecordedIff | better_memory/services/exposure_log.py:42-91 | after recording, exactly the old and the listed memories are exposed, and no old row changes |
| RatingService.MemoryRatingService.ApplyOne | better_memory/services/memory_rating.py:243-332 | a rating of a live memory with an unrated exposure bumps and stamps; any other is skipped and changes nothing |
| RatingService.MemoryRatingService.ApplySessionRatings | better_memory/services/memory_rating.py:335-420 | a valid batch applies its ratings in order and reports each outcome; an invalid one writes nothing |
| RatingService.MemoryRatingService.RecordExposures | better_memory/services/exposure_log.py:42-91 | adds one exposure for each memory not yet recorded in the session |
| Retention.DryRunPredictsRun | better_memory/services/retention.py:243-369 | for every database, parameters (also a prune age of zero or less) and clock, the dry run reports exactly what the run reports |
| Retention.SecondPassArchivesNothing | better_memory/services/retention.py:86-117 | a second archive pass at the same clock, or with a stricter threshold, archives nothing and changes nothing |
| Retention.RunTouchesObservations | better_memory/services/retention.py:121-232 | a run writes observations only: each stays, becomes archived or is deleted |
| Aging.UnusedIsArchived | better_memory/services/retention.py:156-170 | an observation that was ignored or swept and backs nothing is archived exactly when the retention time has passed since |
| Aging.BackgroundIsArchived | better_memory/services/retention.py:172-191 | the active observations of a background episode are archived exactly when that time has passed since the session ended |
| Aging.CommittedStays | better_memory/services/retention.py:172-191 | those of an episode that ended with a commit are not archived |
| Aging.RetiredIsArchived | better_memory/services/retention.py:121-154 | evidence is archived exactly when that time has passed since the last reflection it backs was retired |
| Aging.EvidenceStays | better_memory/services/retention.py:121-154 | evidence of a reflection that is not retired is not archived, whatever its age |
| Aging.OthersAreKept | better_memory/services/retention.py:193-232 | what the rules left unarchived is never deleted |
| Aging.ArchivedIsPruned | better_memory/services/retention.py:193-232 | an archived observation is deleted exactly when pruning is on, it backs nothing and the prune age has passed since it was archived |
| RetentionService.RetentionService.Run | better_memory/services/retention.py:59-84 | the passes in place give the specified tables and report, and a dry run changes nothing |
| Episodes.ActiveIsUnique | better_memory/services/episode.py:401-414 | a session has at most one active episode |
| Episodes.StartKeepsLifecycle | better_memory/services/episode.py:128-221 | starting, hardening or replacing an episode keeps one open binding per session, and open exactly without an outcome |
| Episodes.CloseByIdKeepsLifecycle | better_memory/services/episode.py:272-326 | closing by id closes the episode and all its bindings |
| Episodes.ObserveKeepsLifecycle | better_memory/services/observation.py:161-172 | an observation opens a background episode only where none is active |
| Episodes.BootstrapKeepsLifecycle | better_memory/services/session_bootstrap.py:219-227 | a session bootstrap leaves the session with exactly one active episode |
| Episodes.CloseActiveLeaves | better_memory/services/episode.py:223-270 | a close writes the given outcome, reason and time to the active episode and its binding, and nothing else |
| Episodes.CloseByIdLeaves | better_memory/services/episode.py:272-326 | a close by id does so for the episode and all its open bindings, and raises exactly for a missing or closed one |
| Episodes.StartOpens | better_memory/services/episode.py:128-221 | a start without an active episode opens one with the goal |
| Episodes.StartResumes | better_memory/services/episode.py:128-221 | a start with the goal of the active episode changes nothing, and one over a background episode gives it the goal |
| Episodes.StartReplaces | better_memory/services/episode.py:128-221 | a start with another goal ends the active episode superseded and opens a new one |
| Episodes.ObserveLeaves | better_memory/services/observation.py:161-200 | an observation is written active to the active episode, or to a new background one |
| Episodes.SessionEndSparesGoals | better_memory/services/spool.py:284-314 | a session end never closes an episode that has a goal; a commit marker leaves no active episode |
| Curation.SemanticIff | better_memory/services/semantic.py:64-87 | what creating, deleting and promoting to a semantic memory write, and when they raise |
| Curation.TouchedIff | better_memory/services/reflection.py:1595-1655 | which rows can be edited, and that an edit moves only the timestamp |
| Curation.ReviewedIff | better_memory/services/reflection.py:1551-1593 | confirming and retiring take exactly the reviewable rows to their state, are no-ops where they are there already, and raise otherwise |
| EpisodeService.EpisodeService.StartForeground | better_memory/services/episode.py:128-221 | the guarded start in place: the active episode is reused, hardened or superseded as specified, and all is rolled back when the insert fails |
| EpisodeService.EpisodeService.CloseActive | better_memory/services/episode.py:223-270 | closes exactly the active episode of the session, or reports that there is none |
| EpisodeService.EpisodeService.CloseById | better_memory/services/episode.py:272-326 | closes an open episode with all its bindings, and refuses a missing or closed one |
| Migrations.MigrationSafety | better_memory/db/schema.py:83-224 | for any number of processes, interleavings, failures and crashes: completed versions are a prefix, at most one unfinished claim exists and sits right after it, no version is returned as applied by two processes, and a process returns only when all are complete |
| Migrations.CompletionIsPermanent | better_memory/db/schema.py:98-115 | a completed version stays completed |
| Migrations.OrphanBlocksForever | better_memory/db/schema.py:118-147 | after the holder of a claim dies the table never changes again and no process ever returns normally |
| Migrations.OrphanIsReachable | better_memory/db/schema.py:150-191 | a crash right after a claim, and a release that fails, both lead from the empty table to an orphaned claim |
| Migrations.NewcomerReturnsIff | better_memory/db/schema.py:118-224 | from every reachable state some continuation lets a process started now return exactly when no claim is orphaned and every version whose script is broken is complete |
| Migrations.BrokenBlocksForever | better_memory/db/schema.py:163-191 | a version whose script is broken before it is complete is never completed, and no process ever returns |
| Migrations.SpoiledIsReachable | better_memory/db/schema.py:24-29 | one script that fails half way leads from the empty table to a released claim and a table from which no process returns |
| Migrations.WaitersWaitOnTheLiving | better_memory/db/schema.py:150-191 | without crashes and failed releases every claim has a live holder |
| Migrations.MigrationRunner.ApplyMigrations | better_memory/db/schema.py:195-224 | one process alone applies, in order, every version from the completed prefix up to the first broken one |
| SeenStore.InjectionIsSpaced | better_memory/services/context_seen.py:50-164 | in every interleaving, with stale snapshots and lost or unreadable saves: no two serves of a memory win the same epoch, without re-injection there is at most one serve, and with it stamped serves lie more than the configured turns apart |
| Injection.InjectedAt | better_memory/services/context_seen.py:88-164 | in a session of processes that do not overlap, a memory offered by all of them is injected at turn 1 and, with re-injection, at every turn that is the configured number plus one after the last, and at no other |
| SeenStore.EveryRunKeepsInv | better_memory/hooks/contextual_inject.py:146-210 | the serves of a memory always form a chain in which each epoch is the stamp of the serve before |
| SeenStore.Store.Claim | better_memory/services/context_seen.py:50-86 | exactly the memories nobody had claimed at their epoch and whose sentinel met no error are won, each once; an unwritable directory or a failing open claims nothing, and a failing close claims without winning |
| SeenStore.Store.MarkSeen | better_memory/services/context_seen.py:147-164 | merges the file just read with the own turn and stamps all marked memories with the later turn |
| SeenStore.Store.FilterUnseen | better_memory/services/context_seen.py:134-145 | keeps, in order, what was never seen or was seen more than the configured turns ago |
| SeenStore.TurnsOfTwo | better_memory/services/context_seen.py:88-132 | a process that loads after another's bump sees a later turn exactly when that bump was saved; two that overlap work at the same turn, and two kept saves then advance the file by one |
| Wilson.ScoreBalances | better_memory/services/scoring.py:22-35 | the score is the smallest rate that balances the ratings, lies between 0 and the observed proportion, is 0 exactly without positive ratings, and the cut-off at 0 never acts |
| Wilson.UniqueUnlessPerfect | better_memory/services/scoring.py:22-35 | it is the only balancing rate up to the observed proportion exactly when some rating was not positive |
| Wilson.MorePositive | better_memory/services/scoring.py:22-35 | one more positive rating strictly raises the score |
| Wilson.MoreIgnored | better_memory/services/scoring.py:22-35 | one more rating that was not positive strictly lowers a score above 0 |
| Wilson.CompareWithScore | better_memory/services/scoring.py:30-35 | up to the observed proportion, the sign of the excess tells on which side of the score a rate lies |
| Wilson.RadicandIsNonNegative | better_memory/services/scoring.py:34 | the square root is never taken of a negative number |
| Fusion.FuseByRelevance | better_memory/services/reflection.py:1264-1328 | the loop and the sort give the fused order, and the early return without matches gives the same |
| Fusion.FuseBucket | better_memory/storage/agentcore.py:582-602 | the remote store's stable sort gives the same order for the same ranks |
| Fusion.FusedIsPermutation | better_memory/services/reflection.py:1318-1328 | fusion loses, adds and repeats no row |
| Fusion.NothingMatched | better_memory/services/reflection.py:1315-1316 | the order is unchanged when no row is matched |
| Fusion.PrecedesIff | better_memory/services/reflection.py:1327 | a row precedes another exactly when it scores higher, or equal with the better popularity rank |
| Fusion.Dominance | better_memory/services/reflection.py:1318-1328 | a row at least as good on both legs and better on one comes first; unmatched rows keep their order |
| Fusion.MatchedAheadOfUnmatched | better_memory/services/reflection.py:1318-1328 | a matched row with both ranks at most 59 precedes every unmatched row |
| Fusion.BoundIsTight | better_memory/services/reflection.py:1318-1328 | with both ranks at 60 it does not precede the most popular row |
| Exploration.Reserve | better_memory/services/reflection.py:1449-1464 | the two-pass fill returns, in ranked order, the best tested and best untested rows with one slot kept for an untested one |
| Exploration.FillBucket | better_memory/storage/agentcore.py:604-639 | without a cap all rows, with a cap below 2 a plain slice, else the rows of the fill and the exploration pick |
| Exploration.FillIsUnique | better_memory/services/reflection.py:1449-1464 | the promise of the fill determines the list |
| Exploration.OneSlotForTheUntested | better_memory/services/reflection.py:1437-1464 | an untested row never starves, costs the tested ones at most one slot, and the slots add up to the cap or the whole group |
| RankMerge.MergeRankMaps | better_memory/storage/agentcore.py:694-742 | the cursor loop ends, returns none exactly when every leg failed, and otherwise the round-robin ranks |
| RankMerge.MergedIsBijection | better_memory/storage/agentcore.py:724-742 | the ranks are a bijection from the ids of all legs to 0 to n - 1 |
| RankMerge.RankFollowsFirstTurn | better_memory/storage/agentcore.py:730-741 | smaller rank means offered earlier, and the id at place j of leg i of m gets at most j * m + i |
| RankMerge.LegOrderKept | better_memory/storage/agentcore.py:726-741 | the order within a leg survives where no other leg offers the later id as early, so always for disjoint legs |
| ManagedBlock.ExciseLegacySection | better_memory/setup/engine.py:201-225 | the search for the next top-level heading and the squeeze of blank lines give the specified text |
| Sections.ExciseIsOutside | better_memory/setup/engine.py:201-225 | of the lines with something on them, exactly those outside the first legacy section stay, in order; any top-level heading ends the section |
| Sections.SectionIsTaken | better_memory/setup/engine.py:201-225 | what stands in front of the heading, and everything from the next top-level heading on, survives |
| Sections.SqueezeShortens | better_memory/setup/engine.py:224-225 | a run of newlines longer than three becomes three, and nothing else changes |
| Sections.UserLinesAfter | better_memory/setup/engine.py:228-253 | after k runs the user still has, on each side of the block, every line outside the first k legacy sections there |
| Sections.UserLinesAfterInstall | better_memory/setup/engine.py:228-253 | the same from a first installation, with the whole text in front of the block |
| ManagedBlock.ExciseDropsOneHeading | better_memory/setup/engine.py:211-225 | excision removes exactly one legacy heading if there is one, and changes nothing exactly when there is none |
| ManagedBlock.RoundTrip | better_memory/setup/engine.py:228-270 | a block without an END marker is read back after a splice exactly when the text is clean |
| ManagedBlock.OrderedMarkersAreClean | better_memory/setup/engine.py:246-253 | a text without markers, or with its first BEGIN in front of its first END, is clean |
| SetUpRuns.SpliceOfUnmarked | better_memory/setup/engine.py:252-253 | the first splice into a text without markers keeps the text in front of the block, and the block is read back |
| SetUpRuns.HeadingsFall | better_memory/setup/engine.py:228-253 | from a first installation or an ordered pair, after k runs each span outside has k legacy headings fewer, down to none |
| SetUpRuns.FrontAfter | better_memory/setup/engine.py:246-251 | from any marker pair, in either order, the text in front of the block after k runs is the old one excised k times |
| SetUpRuns.FixpointIff | better_memory/setup/engine.py:273-288 | whatever the order of its markers, a paired text that stands still holds the block readably exactly when no legacy section is reported outside |
| SetUpRuns.Convergence | better_memory/setup/engine.py:228-253 | also for a first installation, the text stands still exactly from the number of runs that the worse span has legacy headings, and the block is read back throughout |
| SetUpRuns.SettlesIff | better_memory/setup/engine.py:201-270 | for every text with any markers anywhere: some run leaves it standing still with the block readable exactly when no END marker survives in front |
| SetUpRuns.BuriedGrows | better_memory/setup/engine.py:246-251 | with an END marker in front and no legacy section outside, a run makes the text strictly longer |
| SetUpRuns.BuriedFixpointNeedsHeading | better_memory/setup/engine.py:246-251 | only a legacy heading, in the block or behind the END in front, can make a text stand still whose block is buried |
| SetUpRuns.BuriedFixpoint | better_memory/setup/engine.py:246-270 | a text and a block, END in front of BEGIN, that stand still with the block unreadable and a legacy section reported |
| SetUpRuns.OwnMarkersReversed | better_memory/setup/engine.py:246-270 | a text of the program's own markers, END in front of BEGIN, from which no spliced block is read back |
| SetUpRuns.LoneBeginSwallows | better_memory/setup/engine.py:246-253 | after a lone BEGIN marker the second run replaces everything behind it |
| SetUpRuns.LoneEndBuries | better_memory/setup/engine.py:252-270 | behind a lone END marker that survives excision the block is not read back |
| ManagedBlock.MarkersAreValid | better_memory/setup/manifest.py:125-126 | the program's own markers satisfy what the round trip needs of markers |
| Settings.MergeSettings | better_memory/setup/engine.py:122-170 | the remove, add and environment passes give the specified configuration |
| Settings.MergeIsIdempotent | better_memory/setup/engine.py:122-170 | merging twice equals merging once, for every configuration and manifest |
| Settings.HooksAfterMerge | better_memory/setup/engine.py:146-164 | every event has the user's own hooks in their order, followed by exactly the managed hooks of the event |
| Settings.CanonicalHolds | better_memory/setup/engine.py:77-103 | the installed groups hold each managed hook of the event once, and the next merge recognises all of them |
| Settings.HookIsThereIff | better_memory/setup/engine.py:122-170 | after a merge a hook is there exactly when it was the user's and mentions no managed or older module, or it is installed for the event, under the console interpreter exactly when its output is read |
| Settings.InstalledGroups | better_memory/setup/engine.py:77-103 | the hooks of a session start share one plain group, every other hook has one of its own with its own matcher |
| Settings.GroupsUntouchedIff | better_memory/setup/engine.py:146-160 | the user's groups stay as they are exactly when each holds a hook and none a managed one |
| Settings.EmptyGroupIsDropped | better_memory/setup/engine.py:150-158 | a group without hooks, which never held a managed one, is dropped |
| Settings.EnvAfterMerge | better_memory/setup/engine.py:166-168 | managed variables get their value and all others stay |
| Ledger.RunKeepsOnePerRowIff | better_memory/cli/agentcore.py:1386-1531 | a run keeps one remote record per source row exactly when no eligible row is endangered |
| Ledger.LedgerLossIsRepaired | better_memory/cli/agentcore.py:1336-1383 | after the loss of the ledger every eligible row with a record in its namespace is updated, never created |
| Ledger.FailedUpdateIsRecreated | better_memory/storage/agentcore_migrate.py:328-330 | a row whose update failed although it has a record gets a second one |
| Ledger.SecondRunWritesNothing | better_memory/cli/agentcore.py:1080-1120 | a second run over the same rows plans only skips and changes neither ledger nor remote store |
| Ledger.ReconcileKeepsConsistent | better_memory/storage/agentcore_migrate.py:387-443 | reattaching binds rows to records of their own |
| Mirror.SourceIsMirroredIff | better_memory/cli/agentcore.py:1186-1233 | after a run every eligible row has a standing record of its payload, except exactly the rows that reattaching bound, by the very hash they have now, to a record of another payload or a retired one |
| Mirror.RunKeepsAgreementIff | better_memory/cli/agentcore.py:1386-1531 | a run keeps ledger and records in agreement exactly when every row bound that way is dropped or has another payload now |
| Mirror.DroppedIsRetired | better_memory/cli/agentcore.py:1498-1531 | after a run the record of every dropped row is retired |
| Mirror.StaleBinding | better_memory/storage/agentcore_migrate.py:387-443 | a ledger and a record that a run binds that way |
| Mirror.StaleStays | better_memory/cli/agentcore.py:1080-1120 | no later run over the same rows writes the payload of such a row |
| Mirror.FailureKeepsAgreement | better_memory/storage/agentcore_migrate.py:446-478 | recording a failure disturbs no agreement |
| Mirror.NewRecordsAreMade | better_memory/cli/agentcore.py:1405-1445 | every new record was made for an eligible row, with its payload and in its namespace |
| MigrationService.Migration.Migrate | better_memory/cli/agentcore.py:1186-1233 | reattach, decide and the three loops of writes make a run of the specification, and the decisions are those of the reattached ledger |
| MigrationService.Migration.ReconcileLedger | better_memory/storage/agentcore_migrate.py:387-443 | an existing target is never overwritten |
| MigrationService.Migration.ReconcileFromRemote | better_memory/cli/agentcore.py:1336-1383 | every row without a target that a listed record belongs to gets one, no other row changes, and the result counts the rows that got one |
| Ledger.SuccessIsPlanned | better_memory/storage/agentcore_migrate.py:336-384 | a recorded success loses no target and touches no other row; the row is skipped next time exactly while its payload is the one written, and a retired row is retired once |
| Ledger.FailureIsPlanned | better_memory/storage/agentcore_migrate.py:446-478 | a recorded failure keeps the target and touches no other row, yet the row is planned as a create for every payload, so with a record behind it the row is endangered |
| Spool.NothingIsLost | better_memory/services/spool.py:144-217 | at every point of every run, with any number of drains at once, crashes, busy databases and failed commits, each file ever written is in the spool, in quarantine, or has a committed row |
| Spool.HarmsIff | better_memory/services/spool.py:144-217 | the four kinds of harmful step are exactly the steps after which a file can be inserted again while it keeps all its rows |
| Spool.AtMostOneRowPerHarm | better_memory/services/spool.py:144-217 | a file has at most one row more than there were steps that harmed it, and exactly one when it was drained without any |
| SpoolHarm.HarmGivesSecondRow | better_memory/services/spool.py:186-217 | after every harmful step some continuation without a fault, in which only the final commit may harm the file again, gives it one more row, so at least two |
| SpoolHarm.InsertedTwice | better_memory/mcp/handlers/reflections.py:82-110 | four runs that end with two rows of one file, one for each kind of harm; with overlapping drains and with a late listing there is neither a crash nor a failed commit |
| SpoolDrain.DrainFollowsSteps | better_memory/services/spool.py:120-217 | a whole drain, while no other server writes, is a run of the single steps |
| SpoolDrain.OneRowEach | better_memory/services/spool.py:220-254 | a drain inserts exactly one row for each file it accepts and none for any other |
| SpoolDrain.FateOfFile | better_memory/services/spool.py:144-217 | a listed file ends inserted and gone, in quarantine, or still in the spool, by its verdict and whether it can be unlinked |
| DrainEffects.EffectsOfDrain | better_memory/services/spool.py:187-204 | an episode with a goal is closed, as a success, exactly by a commit marker of its session; a background episode by the first marker of its session, without outcome by a session end and as a success by a commit; no other episode is written |
| SpoolService.SpoolService.Drain | better_memory/services/spool.py:120-217 | the three passes in place: what stays, what is quarantined, which rows are committed, which episodes are closed and how, and the report |
| SpoolService.SpoolService.InsertAll | better_memory/services/spool.py:144-185 | refused files move to quarantine, accepted ones get a pending row, files met while the database is busy stay |
| SpoolService.SpoolService.UnlinkAll | better_memory/services/spool.py:206-215 | committed files leave the spool, and one that cannot be deleted goes to quarantine |

## Left out

- SQLite, full-text search, trigram scoring and write-ahead logging: tables are maps and sets, the relevance order is any ranking.
- AWS calls, retries, paging and eventual consistency: the remote store is a map whose calls succeed; `chunk`, `_map_batch_response` and the batching of writes are left out with them.
- Overlapping migrate runs: the lock is taken after planning, so only runs one after another are modelled. `--restart`, `--dry-run`, `--project` and provisioning are not part of this model.
- Text columns, hints, tech, scope, phase and polarity of memories, and `promote_to_general`: they carry no invariant; text edits keep only their guard and timestamp.
- The evidence text that a rating must carry, and the source and display columns of an exposure: validation of single strings.
- The prompt builder, the parsing of decisions, the keyword gate, the trigger matcher and markdown rendering: settled by reading one branch.
- Floating-point rounding: scores are exact reals, so ties that rounding makes or breaks are not captured.
- The base order of `retrieve_reflections` before fusion, and the query that filters it: any list of rows stands for it.
- Pruning of claim files by `prune_stale`, and hash collisions of sentinel names, which could only suppress a serve.
- Two migration files with the same version prefix: versions are distinct numbers in file order.
- Files of one name written twice to the spool: a quarantined file would be replaced by the later one; names are taken to be unique. A file that is there and can be neither unlinked nor moved to quarantine is not part of this model.
- SpoolService.SpoolService.Drain: the class is a drain that no other server interrupts; what overlapping drains do is proved of the steps in `Spool`. The side effects on episodes are those of one server.
- `patch_mcp_entry`, the skill links, atomic file writes and backups: plumbing around the two merges that are modelled.
- The order of events and groups in the settings file is kept per event; the order of the events themselves is not modelled.
- The web interface, the MCP handlers, the command line and the diagnostics.
