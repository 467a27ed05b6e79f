# Verified model of the scenario service

This project models, in Dafny, the part of the scenario service whose
correctness depends on interleavings: the transactional outbox and its relay,
the onboarding commands that feed it, story unlocking with its
check-then-insert, and the in-memory broker that the service ships for the
tests of its consumers.

`dafny verify dfyconfig.toml` checks everything.

## How it is built

**Outbox.** `OutboxModel.dfy` is one state machine over the database, the
in-flight onboarding transactions, the account service as a consumer, the
broker and W relay workers. Each action is one atomic effect; between any two
of them anything else may happen, including a tick of the clock, a rollback, a
lost reply or a crash. A run is a sequence of actions and every theorem below
is about all runs from the empty database unless its hypotheses say otherwise.
`OutboxInvariant.dfy` proves the inductive invariant, `OutboxRefinement.dfy`
maps every run to a run of the three-action promise in `DeliverySpec.dfy`, and
`OutboxLease.dfy`, `OutboxFailures.dfy`, `OutboxQuiescence.dfy`,
`OutboxProgress.dfy`, `OutboxCreation.dfy` and `Onboarding.dfy` prove the bounds,
finality, progress, claim order and once-per-player theorems. `OutboxScenarios.dfy` builds runs for every
number of workers and every threshold that show which bounds are exact and
which promises need their hypothesis.

**The same code as classes.** `World.dfy` holds what the processes share, as
fields that are updated in place: the tables, the row locks, the clock, what the
broker has accepted, what account has learned, and the log. `Relay.dfy`,
`Ticker.dfy` and `OnboardingService.dfy` follow the source statement by statement
over that one world. Every effect also takes an action of the state machine in a
ghost trace, so whatever these classes do is a run of the model and the theorems
apply to it. How each request to the store or the broker ends, and how long it
takes, is a parameter (`Fault`, `TxFault`, `Ending`, `TickScript`, `Outage`), so
the contracts say exactly what is written, accepted, returned and logged in every
case. `Journey.dfy` composes them: select a faction, drain, let account consume
the message, complete, drain again, with the drain theorem applied to the real
table.

**Story.** `StoryDomain.dfy` has the unlock rule and the presenter,
`StoryFixpoint.dfy` the least-fixpoint theory of completions,
`StoryConcurrency.dfy` the concurrent check-then-insert with torn reads,
`ScriptPath.dfy` the path template, and `StoryService.dfy` the repository and the
use cases as classes.

**Test doubles.** `BrokerModel.dfy` and `StreamModel.dfy` are the concurrent
broker and stream, `FakePublisher.dfy` the same objects over real byte buffers,
where sharing matters, and `EventIdentifier.dfy` the UUID printer.

`Sums.dfy` and `Wrappers.dfy` are general helpers.

## What the code does not do

* `internal/repository/postgres/outbox_repo.go:38` says that a row is hidden
  for `visibilityTimeout`. The interval is built from whole milliseconds, so the
  fraction is lost, and a timeout below one millisecond, which `outbox.New`
  accepts and the configuration does not, is no lease at all.
  `TimeoutHonouredIff` gives the exact condition, a remainder of less than one
  microsecond, the resolution of the clock column.
* With two or more relays whose batches outlive the lease, `failure_count` can
  overshoot the threshold (by up to W-1) and a published row can keep a
  `last_error`. `NeverOvershootsIff` and `PublishedHasNoErrorIff` prove that each
  is avoided on every run if and only if at most one relay runs;
  `TimelyWorkersNeverOverlap` and the lemmas about exclusive runs give the
  sufficient condition for several relays.
* The "stuck" log is not exact in two ways. With two relays and stale counts a row
  can reach the threshold with warnings only, or be reported twice
  (`TwoWorkersMislog`). With a single relay, a stuck failure whose record fails, or
  that a crash leaves unrecorded, is logged short of the threshold and logged again
  later (`LostRecordMislogs`). `StuckLogCount` gives the exact count for exclusive
  claims, one log for reaching the threshold and one more for each lost record;
  `StuckLogsExactIff` proves that the log is exact on every run only without a
  relay, and on every run that loses no record if and only if at most one relay
  runs.
* `internal/repository/postgres/outbox_repo_test.go:143-158` expects claimed rows
  in `created_at` order. The `ORDER BY` decides which rows are claimed; no order
  is promised for `RETURNING`, and the model allows any.
* `packages/api-scenario/apiscenariofake/publisher.go:35-36` promises that the
  record survives later writes by the caller. `CallerIsIndependent` proves that it
  does if and only if the caller's buffer was not itself a recorded one; a
  subscriber receives the very buffer that is recorded and can rewrite the record
  (`SubscriberRewritesRecord`). `WriteShowsIff` gives the exact effect of any write
  to any buffer.
* A verdict of `CompleteEpisode` can be out of date when its insert commits.
  `VerdictAtInsertIff` gives the exact condition on every run: the episode is
  unlocked at that moment if and only if the player's level and factions suffice at
  that moment. So it is right if they only grow (`VerdictHoldsAtInsert`), and any
  change to a level too low or a faction missing breaks it
  (`ShrinkingBreaksVerdict`). Prerequisites hold either way
  (`CompletionsStayClosed`).

## Model

| member | source | states |
|---|---|---|
| OutboxInvariant.ReachableInv | db/schema.sql:93-103 | On every run a row's key, type and payload agree, published means accepted by the broker, row locks and staged keys never overlap, and each held claim still describes its row |
| OutboxInvariant.CommitRows | internal/repository/postgres/onboarding_repo.go:50-58 | A commit overwrites nothing and adds exactly the staged events, each with its type and payload, created when its transaction began, unpublished, no failure, no error and no attempt |
| OutboxCreation.CreatedWhenBegun | db/schema.sql:97-97 | On every run, each row's creation time is the moment its transaction began, as an observer of begins and commits knows it |
| OutboxCreation.OlderClaimedFirst | internal/repository/postgres/outbox_repo.go:47-51 | Of two rows whose transactions began one after the other, no claim that could take both takes the newer and leaves the older |
| OutboxInvariant.WorkerRows | internal/repository/postgres/outbox_repo.go:54-107 | A relay statement never changes a row's type, payload or creation time, never un-publishes, moves `last_attempted_at` only forward, and leaves all other rows alone |
| DeliverySpec.SpecRunSafe | db/schema.sql:82-92 | The three-action promise: acknowledged implies delivered, delivered implies enqueued, nothing is forgotten, altered or withdrawn |
| OutboxRefinement.StepRefines | internal/usecase/outbox/relay.go:61-92 | Every action of the system is one action of the promise or changes nothing in it |
| OutboxRefinement.RunRefines | internal/usecase/outbox/relay.go:61-92 | Every run of the system, with W workers, rollbacks, lost replies and crashes anywhere, is a run of the promise |
| OutboxRefinement.WorkerPublishes | internal/repository/postgres/outbox_repo.go:81-93 | A row becomes published only by the mark of the worker that has it at the head of its batch |
| OutboxRefinement.OutboxPromise | internal/usecase/outbox/relay.go:61-92 | On every run `published_at` set implies the broker accepted the event, and every broker message is the type and payload of a committed row |
| OutboxRefinement.NothingLost | db/schema.sql:82-92 | Whatever happens after any point of any run, rows keep id, type, payload and creation time, stay published once published, and the broker log only grows |
| OutboxLease.LeaseSeparation | internal/repository/postgres/outbox_repo.go:39-60 | Any two claims of one row in a run are strictly more than the millisecond-truncated lease apart |
| OutboxLease.LockedSetsDisjoint | internal/repository/postgres/outbox_repo.go:52-57 | Claim statements in flight together hold disjoint sets of rows |
| OutboxLease.TimelyIsExclusive | internal/repository/postgres/outbox_repo.go:46-56 | If every claim is resolved within its lease, no row ever has two holders |
| OutboxLease.TimelyWorkersNeverOverlap | internal/repository/postgres/outbox_repo.go:38-57 | Workers that resolve each claim within the lease never hold the same row at once |
| OutboxLease.OneRelayIsExclusive | internal/handler/worker/outbox_ticker.go:40-50 | A single relay, whose rounds are sequential, holds every row exclusively however slow it is |
| OutboxFailures.FailureEffect | internal/repository/postgres/outbox_repo.go:96-108 | Recording is the only thing that changes a failure count, by one, on the head of the recorder's batch |
| OutboxFailures.FailureBound | internal/repository/postgres/outbox_repo.go:47-49 | For every row of every run, `failure_count` plus outstanding claims is at most T-1+W |
| OutboxFailures.ExclusiveFailureBound | internal/repository/postgres/outbox_repo.go:47-49 | With exclusive claims the same sum never exceeds the threshold T |
| OutboxFailures.ThresholdRespected | internal/repository/postgres/outbox_repo.go:47-49 | One relay, or relays that finish within the lease, never push `failure_count` above T |
| OutboxFailures.StuckLogCount | internal/usecase/outbox/relay.go:81-91 | With exclusive claims a row has one stuck log if it has reached the threshold plus one for each stuck failure logged and never recorded, except between the log and its record; so the log is exact if and only if no record was lost |
| OutboxFailures.StuckLogExact | internal/usecase/outbox/relay.go:81-91 | With exclusive claims and every logged failure recorded a row has exactly one stuck log if it has reached the threshold and none otherwise |
| OutboxQuiescence.PublishedIsFinal | internal/repository/postgres/outbox_repo.go:46-58 | Once published, a row is never claimed again and never becomes unpublished |
| OutboxQuiescence.SettledIsFrozen | internal/repository/postgres/outbox_repo.go:46-49 | A row that is published or at the threshold and held by nobody never changes again in any column |
| OutboxQuiescence.DeadLetterFrozen | internal/repository/postgres/outbox_repo.go:48-48 | A row at the threshold with no outstanding claim stays as it is for ever |
| OutboxQuiescence.PublishedHasNoError | internal/repository/postgres/outbox_repo.go:80-93 | With exclusive claims every published row has no `last_error` and is frozen |
| OutboxProgress.StarvationBound | internal/repository/postgres/outbox_repo.go:44-53 | With exclusive claims a row with r rows ahead is passed over while claimable at most floor((r*T + dropped claims) / B) times |
| OutboxProgress.OneRelayStarvationBound | internal/repository/postgres/outbox_repo.go:44-53 | With one relay that drops no claim the bound is floor(r*T/B) |
| OutboxProgress.FullRoundsBounded | internal/usecase/outbox/relay.go:61-70 | Each full round spends a batch worth of the attempts left, the decreasing measure |
| OutboxProgress.PartialRoundsBounded | internal/usecase/outbox/relay.go:61-70 | A row still live at the end of a drain has used an attempt in every partial round |
| OutboxProgress.DrainTerminates | internal/usecase/outbox/relay.go:61-92 | With one relay, no inserts, no dropped claims and expired leases, after floor(M/B)+T rounds every row is published or at the threshold |
| OutboxProgress.DrainDelivers | internal/usecase/outbox/relay.go:61-92 | If the broker accepts and confirms, the same number of rounds delivers and marks every event that was still deliverable |
| OutboxScenarios.FailureBoundReached | internal/repository/postgres/outbox_repo.go:47-49 | For every T and W some run ends with `failure_count` equal to T-1+W |
| OutboxScenarios.NeverOvershootsIff | internal/repository/postgres/outbox_repo.go:47-49 | `failure_count` stays within T on every run if and only if at most one relay runs |
| OutboxScenarios.PublishedWithError | internal/repository/postgres/outbox_repo.go:80-108 | With two workers some run leaves a published row with a `last_error` |
| OutboxScenarios.PublishedHasNoErrorIff | internal/repository/postgres/outbox_repo.go:80-108 | Published rows are free of errors on every run if and only if at most one relay runs |
| OutboxScenarios.TwoWorkersMislog | internal/usecase/outbox/relay.go:81-88 | Two workers with stale counts, losing no record, bring a row to the threshold with warnings only, or report it twice when T is 1 |
| OutboxScenarios.LostRecordMislogs | internal/usecase/outbox/relay.go:81-91 | One relay whose record of a stuck failure fails ends with a stuck log and a count below the threshold |
| OutboxScenarios.StuckLogsExactIff | internal/usecase/outbox/relay.go:81-91 | The stuck log is exact on every run if and only if no relay runs, and on every run that loses no record if and only if at most one relay runs |
| OutboxScenarios.TimeoutHonouredIff | internal/repository/postgres/outbox_repo.go:38-41 | Claims of one row are more than the configured timeout apart on every run if and only if truncation loses less than a microsecond |
| Onboarding.OncePerPlayer | internal/repository/postgres/onboarding_repo.go:31-60 | In every committed state a player is in `player_onboarding` exactly when exactly one `player_onboarded` row names that player, with event ids that may clash |
| Onboarding.Causality | internal/usecase/onboarding/service.go:77-117 | Each `player_onboarded` message has an earlier faction-set message for the same player and faction, and the faction is selectable |
| Onboarding.DuplicatesAgree | internal/usecase/onboarding/service.go:136-151 | Broker messages with one event id are equal, and the id is the row's own |
| Onboarding.WireNames | internal/presenter/event.go:12-57 | On every run a name-set, faction-set or player-onboarded message and its row carry "onboarding_name_set", "onboarding_faction_set" or "player_onboarded", each name with its own payload |
| Onboarding.DeduplicateOnce | db/schema.sql:90-92 | De-duplication by event id leaves each id at most once |
| Onboarding.DeduplicateKeeps | db/schema.sql:90-92 | De-duplication drops no event altogether |
| Onboarding.SingleEffect | internal/usecase/onboarding/service.go:181-204 | De-duplicating any repetition and reordering of any reachable log leaves at most one `player_onboarded` per player |
| RelayService.OutboxRepository.SelectOldest | internal/repository/postgres/outbox_repo.go:50-51 | At most `limit` candidates, all of them if fewer, and none left out is older than one taken |
| RelayService.OutboxRepository.Candidates | internal/repository/postgres/outbox_repo.go:41-52 | Exactly the unpublished rows below the threshold whose lease is over and which nobody has locked |
| RelayService.OutboxRepository.LockOldest | internal/repository/postgres/outbox_repo.go:44-53 | With any claims of others in flight, the rows locked are an oldest-first choice among exactly the eligible unlocked ones |
| RelayService.OutboxRepository.StampAll | internal/repository/postgres/outbox_repo.go:54-57 | Exactly the chosen rows get the new `last_attempted_at` |
| RelayService.OutboxRepository.Scan | internal/repository/postgres/outbox_repo.go:66-77 | The claimed list is the returned rows with their current counts, in the returned order |
| RelayService.OutboxRepository.ClaimUnpublished | internal/repository/postgres/outbox_repo.go:39-78 | Every claimed row was unpublished, below the threshold, past its lease and locked by nobody, is stamped now and returned as it was; every other row is unchanged, and one that could have been taken means a full batch of rows no newer; a failed claim either did nothing or stamped such a batch |
| RelayService.OutboxRepository.MarkPublished | internal/repository/postgres/outbox_repo.go:81-93 | One row is published and cleared of its error, or nothing changes, exactly as the request ends; an error may be reported in both cases |
| RelayService.OutboxRepository.RecordFailure | internal/repository/postgres/outbox_repo.go:96-108 | One row gets one failure more with its message, or nothing changes |
| RelayService.EventPublisher.Publish | internal/usecase/outbox/relay.go:74-75 | The broker accepts the message or not, and an error may hide an acceptance |
| RelayService.Relay.New | internal/usecase/outbox/relay.go:34-57 | Succeeds exactly for a store, a publisher and positive parameters; otherwise the first failing check names the error |
| RelayService.Relay.LogFailure | internal/usecase/outbox/relay.go:81-88 | Stuck is logged exactly when the claimed count plus one reaches the threshold, otherwise a warning |
| RelayService.Relay.LogAndRecord | internal/usecase/outbox/relay.go:81-91 | The failure path logs first and records second, and logs a failed record |
| RelayService.Relay.ProcessOne | internal/usecase/outbox/relay.go:73-92 | Column by column and log by log, what is accepted, written and logged for one row, when and with which number of attempts, follows exactly from how the publish and the write end, and the batch moves on by one |
| RelayService.OwnOutcome | internal/usecase/outbox/relay.go:66-68 | After a batch each of its rows has exactly its own outcome at its own time |
| RelayService.OtherRowsStay | internal/usecase/outbox/relay.go:66-68 | Processing a batch leaves every row outside it as it was |
| RelayService.Relay.RunOnce | internal/usecase/outbox/relay.go:61-70 | One claim, then exactly the outcomes of the claimed rows in order: rows, log, broker and clock are the fold of ProcessOne over the batch; an error exactly when the claim failed, and then nothing was processed |
| OutboxTicking.OutboxTicker.Run | internal/handler/worker/outbox_ticker.go:34-52 | One round per tick, failed rounds are counted exactly and survived; with one relay and a steady store enough ticks leave every row published or at the threshold, and with a healthy broker deliver every row that was live |
| OutboxTicking.OutboxTicker.Tick | internal/handler/worker/outbox_ticker.go:45-49 | A tick is one round, and its error is logged and nothing more |
| OutboxTicking.RoundsDrain | internal/usecase/outbox/relay.go:61-92 | Enough rounds that a drain allows resolve every row, insert none, and deliver every live one if no publish was refused |
| OnboardingService.OnboardingRepository.WriteOutboxEvent | internal/repository/postgres/outbox_repo.go:18-27 | An insert succeeds exactly when the key is neither committed nor staged and the store does not fail; otherwise the transaction is gone, and no other open transaction is touched |
| OnboardingService.OnboardingRepository.StageEvents | internal/repository/postgres/onboarding_repo.go:50-54 | All events are staged exactly when all keys are free and no statement fails |
| OnboardingService.OnboardingRepository.InsertPlayer | internal/repository/postgres/onboarding_repo.go:38-48 | The insert succeeds exactly for a player who is not there yet; a unique violation ends the transaction |
| OnboardingService.OnboardingRepository.CommitTx | internal/repository/postgres/onboarding_repo.go:56-59 | Both tables change together or not at all, and an error does not tell which |
| OnboardingService.OnboardingRepository.MarkComplete | internal/repository/postgres/onboarding_repo.go:31-60 | Player row and event rows commit together exactly when the player and all keys are new and no failure point is hit, each event row column by column with the begin time as its creation time; the unique violation is reported exactly to players already there |
| OnboardingService.OnboardingRepository.PublishEvents | internal/repository/postgres/onboarding_repo.go:63-83 | All event rows or none, each column by column with the begin time as its creation time, and success exactly when they are confirmed; no events is a no-op |
| OnboardingService.CommitWrites | internal/repository/postgres/outbox_repo.go:18-27 | What committed events look like in the table column by column, and that nothing else is written |
| OnboardingService.BuildersSpelled | internal/usecase/onboarding/service.go:127-204 | Each builder refuses an empty player or an empty value and otherwise builds the event with the given id, its wire name and its fields |
| OnboardingService.CallStartsIff | internal/usecase/onboarding/service.go:55-108 | A command reaches its transaction exactly for a non-empty player with a non-empty name, a selectable non-empty faction, or a faction that account reports |
| OnboardingService.Service.UpdateName | internal/usecase/onboarding/service.go:55-74 | Each error exactly in its case, and otherwise exactly one row of type "onboarding_name_set", column by column |
| OnboardingService.Service.SelectFaction | internal/usecase/onboarding/service.go:77-90 | Only a selectable faction makes a row, exactly one of type "onboarding_faction_set", column by column, and a refusal changes nothing |
| OnboardingService.Account.GetOnboardingPlayer | internal/usecase/onboarding/service.go:94-103 | The faction account has learned, nothing if it has learned none, or the error in place of an answer |
| OnboardingService.Account.Consume | internal/domain/scenario_event.go:14-21 | Consuming a faction-set message sets that player's faction and changes no table |
| OnboardingService.Service.Complete | internal/usecase/onboarding/service.go:93-117 | Each error exactly in its case; a new player gets the onboarding row and one row of type "player_onboarded" with the faction account reported, together |
| OnboardingJourney.Onboard | internal/usecase/onboarding/service.go:77-117 | Over one world: select, drain, consume, complete, drain publishes an "onboarding_faction_set" message and after it a "player_onboarded" message for the same player and faction, marks both rows, and onboards the player |
| OnboardingJourney.Drain | internal/handler/worker/outbox_ticker.go:34-52 | A number of ticks computed from the size of the table delivers every live row and changes no other table |
| StoryDomain.LockReasons | internal/domain/scenario.go:50-76 | The reasons are exactly the unmet requirements, in requirement order with multiplicity, the level first with the required and the current one each in its field, and there is none exactly when the episode is unlocked |
| StoryDomain.UnmetDecides | internal/domain/scenario.go:49-76 | The specification of the reasons lists every unmet position once and nothing else |
| StoryDomain.UnlockedMeans | internal/domain/scenario.go:52-74 | Unlocked means level reached, all factions owned and all required episodes completed |
| StoryDomain.ProgressUnlocks | internal/domain/scenario.go:50-76 | As level, factions and completions grow the list never gets longer and unlocked stays unlocked |
| StoryDomain.ToLockReasons | internal/presenter/episode.go:12-48 | Each reason, in order, fills the fields of its type and no other, and a client that reads fields by type gets it back |
| StoryDomain.BuildEpisodeWithStatus | internal/presenter/episode.go:52-64 | The title is the English one for "en" and the Japanese one otherwise; the shown flags and reasons agree with the unlock rule and the completions |
| StoryDomain.BuildEpisodesWithStatus | internal/presenter/episode.go:68-74 | One such status per episode, in the same order, against one context, with the title in the wanted language |
| StoryFixpoint.LeastFixpoint | internal/usecase/story/service.go:67-98 | The completions reachable from a start are the least set above it in which nothing more can be completed |
| StoryFixpoint.RunsStayInside | internal/usecase/story/service.go:67-98 | Every sequence of calls stays inside that set |
| StoryFixpoint.MaximalRunsAgree | internal/usecase/story/service.go:67-98 | A run has reached the set exactly when nothing more can be completed, whatever its order |
| StoryFixpoint.AnyOrderReachesFixpoint | internal/usecase/story/service.go:67-98 | Trying all episodes in any fixed order, once per episode of the catalogue, reaches it |
| StoryFixpoint.CompletionOrderIsTopological | internal/usecase/story/service.go:79-85 | Episodes are completed after everything they require, and the order lists exactly what was completed |
| StoryFixpoint.CyclesStayLocked | internal/domain/scenario.go:67-74 | Episodes that only wait for each other are never completed |
| StoryFixpoint.NoEpisodeOnACycle | internal/domain/scenario.go:67-74 | No episode on a prerequisite cycle of any length is ever completed |
| StoryConcurrency.CompletionsStayClosed | internal/usecase/story/service.go:67-126 | Under any interleaving with stale reads each player's completions contain the prerequisites of everything in them |
| StoryConcurrency.VerdictAtInsertIff | internal/usecase/story/service.go:79-126 | On every run, when an insert is about to commit the episode is unlocked if and only if the player's level and factions suffice at that moment |
| StoryConcurrency.VerdictHoldsAtInsert | internal/usecase/story/service.go:79-126 | If levels and factions only grow, a verdict from torn reads still holds when its insert commits |
| StoryConcurrency.ShrinkingBreaksVerdict | internal/usecase/story/service.go:79-85 | On every run and for every episode, a change of account to anything insufficient between check and insert lets a completion in that is no longer allowed |
| StoryConcurrency.PassIsReachable | internal/usecase/story/service.go:67-83 | Every active episode without prerequisites has a run that gets as far as its insert |
| StoryConcurrency.ConcurrentCallsAreSequential | internal/usecase/story/service.go:67-87 | With level and factions fixed every interleaving equals calling sequentially in insert order, and stays in the least fixpoint |
| StoryService.GateIsUnlockRule | internal/usecase/story/service.go:67-98 | With everything up the gate admits exactly what the fixpoint theory allows |
| StoryService.StoryRepository.FindEpisodeByID | internal/repository/postgres/story_repo.go:65-92 | The row with that id, not-found for a missing one, an error when the read fails |
| StoryService.StoryRepository.ListActiveEpisodes | internal/repository/postgres/story_repo.go:28-62 | Exactly the active episodes, each once, by sort order |
| StoryService.StoryRepository.GetCompletedEpisodeIDs | internal/repository/postgres/story_repo.go:95-116 | Exactly the player's completed ids, each once |
| StoryService.StoryRepository.MarkComplete | internal/repository/postgres/story_repo.go:119-130 | The pair is in the table afterwards, once, and nothing else changes |
| StoryService.Service.LoadUnlockContext | internal/usecase/story/service.go:101-126 | The context holds what account and the table say; a failed read is an error, never a lock |
| StoryService.Service.ValidateUnlock | internal/usecase/story/service.go:89-98 | Locked is answered exactly for a known standing that does not meet the rule |
| StoryService.Service.ReadScript | internal/usecase/story/service.go:128-136 | The body under the template with the language in place of each "{lang}", script-not-found exactly when the store lacks that key, an error exactly when it fails |
| StoryService.Service.GetScript | internal/usecase/story/service.go:47-64 | Not-found exactly for a missing or inactive episode, locked exactly for a known standing that misses the rule, an error when a read fails; past that the script under the path with the language in place of each "{lang}" |
| ScriptPath.ReplaceAllCuts | internal/usecase/story/service.go:130-130 | The template is cut at the leftmost placeholders, the language stands where each was, and nothing else changes |
| ScriptPath.ReplaceJoined | internal/usecase/story/service.go:130-130 | However the template is put together from leftmost pieces, the key is the same pieces with the language between them |
| StoryService.Service.CompleteEpisode | internal/usecase/story/service.go:67-87 | Not-found, locked, an error and success each exactly in its case, against the level, factions and completions themselves; exactly this completion is recorded and only on the way to success; a confirmed call is one step of the fixpoint theory and touches no other player |
| StoryService.Service.ListEpisodes | internal/usecase/story/service.go:32-44 | Every active episode once, by sort order, with the title in the wanted language, shown unlocked exactly when its requirements are met, which is when GetScript and CompleteEpisode would admit it |
| BrokerModel.Conservation | packages/api-scenario/apiscenariofake/broker.go:36-57 | On every interleaving received, buffered and still owed messages are together exactly the publishes whose snapshot followed the subscription, with at most 100 buffered |
| BrokerModel.OrderKept | packages/api-scenario/apiscenariofake/broker.go:36-57 | With one sequential publisher each channel carries the matching suffix of the record, lacking at most the message being sent |
| StreamModel.PipelineCapacity | packages/api-scenario/apiscenariofake/stream.go:35-87 | Returned publishes never exceed collected results by more than 100+1+16 |
| StreamModel.CapacityReached | packages/api-scenario/apiscenariofake/stream.go:44-72 | Some run reaches 117, so the bound is exact |
| StreamModel.ResultsMatchMessages | packages/api-scenario/apiscenariofake/stream.go:60-87 | With one sequential publisher, on a broker that may have been used before, the k-th collected result is the handler's result for the k-th message since the stream subscribed |
| FakePublisher.Broker.Subscribe | packages/api-scenario/apiscenariofake/broker.go:47-53 | A fresh empty channel behind the others of its topic, and no other topic changes |
| FakePublisher.Broker.Publish | packages/api-scenario/apiscenariofake/broker.go:36-43 | The message goes to the subscribers in order, up to the first full channel, where the call would block |
| FakePublisher.Publisher.Publish | packages/api-scenario/apiscenariofake/publisher.go:34-43 | The record grows by a copy in a fresh buffer, and that buffer is what subscribers get |
| FakePublisher.Publisher.Published | packages/api-scenario/apiscenariofake/publisher.go:45-59 | The snapshot has the same contents in fresh, pairwise different buffers |
| FakePublisher.WriteShowsIff | packages/api-scenario/apiscenariofake/publisher.go:34-43 | A write to any buffer shows in exactly the records that hold it, so the record changes if and only if the buffer is recorded and the byte differs |
| FakePublisher.CallerIsIndependent | packages/api-scenario/apiscenariofake/publisher.go:35-37 | What the caller writes into its buffer after publishing it reaches the record if and only if that buffer was a recorded one already and the byte differs |
| FakePublisher.SnapshotIsIndependent | packages/api-scenario/apiscenariofake/publisher.go:45-47 | What anybody writes into a snapshot does not reach the record |
| FakePublisher.SubscriberRewritesRecord | packages/api-scenario/apiscenariofake/publisher.go:37-41 | What a subscriber writes into the message it received does reach the record |
| EventIdentifier.HexRoundTrip | packages/api-scenario/apiscenariofake/uuid.go:20-20 | Printed bytes are lower-case hex digits, two a byte, and read back as the bytes |
| EventIdentifier.UnhexRoundTrip | packages/api-scenario/apiscenariofake/uuid.go:20-20 | Hex digits read as bytes print as the same digits |
| EventIdentifier.FormatParse | packages/api-scenario/apiscenariofake/uuid.go:18-20 | For all sixteen bytes the printed form has the layout of section 3 of RFC 4122 and parses back |
| EventIdentifier.ParseFormat | packages/api-scenario/apiscenariofake/uuid.go:20-20 | Every string in that layout is the printed form of its parsed bytes |
| EventIdentifier.FormatSpelled | packages/api-scenario/apiscenariofake/uuid.go:20-20 | Byte k is printed at its own place among the dashes, the high digit first |
| EventIdentifier.DigitSpelled | packages/api-scenario/apiscenariofake/uuid.go:20-20 | The digits are the characters 0 to 9 and a to f in order |
| EventIdentifier.EventIdIsUuid | packages/api-scenario/apiscenariofake/uuid.go:11-21 | Every id shows version 4 and the variant of section 4.4 of RFC 4122 and parses to the masked bytes |
| EventIdentifier.EqualIdsIff | packages/api-scenario/apiscenariofake/uuid.go:18-20 | Two ids are equal exactly when the 122 unmasked bits agree |
| EventIdentifier.EveryUuidIsAnEventId | packages/api-scenario/apiscenariofake/uuid.go:11-21 | Every lower-case version 4 UUID is the id of some bytes |
| EventIdentifier.NewEventId | packages/api-scenario/apiscenariofake/uuid.go:11-21 | The array is masked in place and the result is its printed form |

## Left out

- RelayService.Relay.RunOnce: other sessions may hold claims, row locks and open transactions while the class runs, but do not act; interleaved actions are in the state machine only.
- RelayService.OutboxRepository.MarkPublished: a row that another claim has locked makes the statement wait; the class starts when the lock is free. The same holds for RecordFailure.
- OutboxTicking.OutboxTicker.Run: the ticker stops after a given number of ticks; its endless loop and its interval are not in the class. Cancellation in the middle of a round is the script in which the remaining requests are not applied.
- OnboardingService.OnboardingRepository.MarkComplete: a statement that meets a key which another open transaction has staged waits for that transaction to end; the class starts when no such key is staged. Other open transactions are allowed.
- OnboardingService.Service.Complete: no time passes in the class between the account read and the insert; a read that is out of date by then is in the state machine only.
- Onboarding.Causality: assumes that account sets a faction only by consuming faction-set messages (`internal/domain/scenario_event.go:14-15`); account, card and gateway are otherwise not modelled.
- FakePublisher.Broker.Publish: a send that would block ends the call and is reported as a count; blocking and the mutex are in the concurrent broker model only.
- The time of a claim, a mark and a record is read at the atomic statement, not at the start of its transaction; the creation time of an event row is the start of its transaction, as in the source.
- The claim's choice, lock and stamp are two steps (lock and choose, then commit); PostgreSQL's re-check of rows that changed in between is part of the first.
- The column width of `failure_count` and of the other integers; all are unbounded here.
- Freshness of event ids; a clash is allowed and rolls its transaction back.
- Publication order between different events; the code promises none.
- JSON encoding of payloads, which are values here, and the wire formats of PostgreSQL, Pub/Sub and the script stores.
- The list of selectable factions, which another repository owns and which is a parameter here.
- The REST handlers, the generated client, the typed helpers and the configuration parser, which add finite case tables; the bounds that the configuration enforces appear as hypotheses.
- Closing of channels and the failing time-out of ExpectHandled.
