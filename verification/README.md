# Dependabot dashboard: what the services promise, proved

A Dafny model of the durable services behind the Dependabot dashboard, with proofs of what
each of them promises over every run. `dafny verify dfyconfig.toml` checks all of it.

| module | what it models |
|---|---|
| `PrKeys` | the `{repository}#{number}` key of a pull request and reading it back |
| `BatchProgress` | a batch's per-target states, its tally, and the record kept of it |
| `MergeRounds`, `MergePlans` | the planner that cuts a merge batch into rounds, and what being its plan means |
| `BulkAction` | the batch workflow: validation, rounds, outcomes in any order, the record, the listing |
| `FenceProtocol` | rows, objects, outbox, closes and drains as one machine whose steps interleave |
| `FenceHandlers` | the handlers' code, run one step at a time with any steps by others in between |
| `Debounce` | the debounced sync and its trailing syncs |
| `Scheduler` | the perpetual tick of an installation and its generations |
| `Text`, `GithubSteps`, `GithubWrites` | writes that may be lost or sent again, and the journaled step around them |
| `CheckRollup` | the check verdict over paged contexts and suites |
| `RepositoryListing` | the paged listing of an installation's repositories, and the fold that accepts it |

Code that changes state step by step is a class or a method with loops, proved against
functions; what the source promises is proved of those functions. Whatever the surroundings
may choose (what GitHub answers, what is lost, which call lands first, who else takes a step) is
a parameter, a script or a nondeterministic choice, and every result holds for all of them.
Every induction is written out: lemmas carry `{:induction false}`.

## What the proofs found

* **A row and its object can part ways.** Replacing an installation's repository set deletes
  the pull request rows of repositories that left whenever they were synced
  (`crates/store/src/reconcile.rs:95-155`), but queues their retirement under the sweep's
  fence. One synced since then keeps its snapshot with no row and nothing left to tell it:
  `FenceProtocol.DroppedRepositoryStrandsFreshSync`. `FenceProtocol.InStepIffHarmless` says
  exactly when, pull request by pull request and step by step.
* **A close given up on strands a snapshot.** When the row delete of `closed` fails for good
  its message is used up (`FenceProtocol.ClosedGivenUpStrandsSnapshot`, and
  `FenceProtocol.ClosedDies` for exactly when). So does a merge whose handler ends at its log
  clock, after the row delete (`FenceProtocol.MergeCutShortStrandsSnapshot`,
  `FenceProtocol.DeletedDies`).
* **A clock set back loses an event**: `Debounce.ClockSetBackLosesTheEvent`. What has to be true of
  the clock is `Debounce.FirstDebouncedKeepsIffClockAhead`.
* **A debounced event whose trailing read fails for good is not retried**: the flag is cleared
  before the read, and nothing else is scheduled (`Debounce.FailedReadIsTheLast`).
  `Debounce.StaleExactlyWhenReadsFailed` says which events end in a snapshot.
* **Two trailing syncs can wait at once**, never three: `Debounce.TwoCanWait`,
  `Debounce.AtMostTwoWaiting`.
* **A listing accepted as complete can miss a repository that was there throughout.** The comment
  on the fold says a boundary that shifts without moving the total shows as a repeat
  (`crates/github/src/rest.rs:128-132`); it does not when one repository leaves before the
  boundary and another joins after it. `RepositoryListing.SwapRefusedExactly` says which swaps are
  refused, which are accepted whole, and which are accepted one short.
* **A head's verdict can leave pages out.** A commit that stops being served part of the way
  reads as the pages before: `CheckRollup.CutShort`, `CheckRollup.VanishingHidesFailure`, and
  `CheckRollup.CutShortIsRightExactly` for when that is right all the same.
* **At the last generation a scheduler can no longer be stopped**:
  `Scheduler.LastGenerationNeverStops`.
* **A merge reported as done is of the pull request, not of the head asked for**:
  `GithubWrites.MergedAtAnotherHead`. `GithubWrites.Client.Call` says when: exactly if it was
  merged there already, or others merged it there before the answer.
* **Two texts can read as one key** (a sign, leading zeros): `PrKeys.ReprintsIffCanonical` says
  which texts print back. **An empty batch** has a record but is never marked completed:
  `BatchProgress.RecordRoundTrip`. **A target named twice** keeps a batch from ever completing,
  which is what the validation is for: `BatchProgress.DuplicateStaysQueued`.

## Model

| member | source | states |
|---|---|---|
| PrKeys.PrintParses | crates/core/src/lib.rs:130-174 | the printed form of any key over all 64-bit pairs parses to that key |
| PrKeys.PrintInjective | crates/core/src/lib.rs:130-134 | two keys print alike only if they are one |
| PrKeys.ParseExact | crates/core/src/lib.rs:158-174 | a text parses to a key exactly when it splits at one `#` into the two numbers' numerals |
| PrKeys.ParseU64Denotes | crates/core/src/lib.rs:158-174 | a part reads as a number exactly when it is a numeral of it, sign and leading zeros allowed, below 2^64 |
| PrKeys.ReprintsIffCanonical | crates/core/src/lib.rs:130-174 | of the texts that read as a key, only the canonical one is what it prints as |
| PrKeys.TwoTextsOneKey | crates/core/src/lib.rs:158-174 | `+1#02` and `1#2` are different texts that read as one key |
| PrKeys.RefusedExactly | crates/core/src/lib.rs:158-174 | exactly which texts are refused: no `#`, or a part that is no 64-bit numeral |
| PrKeys.UnreadableIffRefused | crates/core/src/lib.rs:158-174 | a part is refused exactly when empty, not digits, or 2^64 or more |
| PrKeys.SecondHashRefused | crates/core/src/lib.rs:158-174 | a text with a second `#` is refused |
| PrKeys.IndexOf | crates/core/src/lib.rs:158-174 | the split is at the first `#` |
| BatchProgress.Find | crates/core/src/lib.rs:1038-1045 | the first target with the key is the one found |
| BatchProgress.Tracker.MoveTo | crates/core/src/lib.rs:1038-1057 | the update in place leaves exactly the progress `SetState` says |
| BatchProgress.Tracker.Start | crates/core/src/lib.rs:996-998 | a started target is running unless it has settled |
| BatchProgress.Tracker.Record | crates/core/src/lib.rs:1001-1009 | a success becomes Succeeded with its detail and merge commit, a rejection Rejected with its reason, and that tally grows by one |
| BatchProgress.Tracker.RecordFailure | crates/core/src/lib.rs:1012-1019 | a terminal failure becomes a failed verdict with its reason |
| BatchProgress.Tracker.Queued | crates/core/src/lib.rs:973-994 | a new batch has every target queued, in order, and a zero tally |
| BatchProgress.SetStateIsConsistent | crates/core/src/lib.rs:1034-1057 | every change of state keeps each counter the number of targets in that state, and `completed` all of them settled |
| BatchProgress.TallyCounts | crates/core/src/lib.rs:972-1057 | over any sequence of reports with any keys the tally counts, and the batch is complete exactly when all are settled |
| BatchProgress.TalliesAreSizes | crates/core/src/lib.rs:1038-1057 | the three tallies are how many targets are in each of the three states |
| BatchProgress.FirstVerdictStands | crates/core/src/lib.rs:1034-1057 | over any reports each target of a distinct batch has its own first verdict, or is running or queued as last reported |
| BatchProgress.DuplicateStaysQueued | crates/core/src/lib.rs:1038-1049 | the second of two targets with one key never leaves the queue, so such a batch never completes |
| BatchProgress.RecordedTargetsExact | crates/core/src/lib.rs:1072-1087 | there is a record of the targets exactly when all are settled |
| BatchProgress.RecordRoundTrip | crates/core/src/lib.rs:1059-1101 | a record exists exactly when all settled, it reads back as the same progress, and that is exactly `completed` unless the batch is empty |
| BatchProgress.RecordSays | crates/core/src/lib.rs:1059-1101 | field by field, what a record says of the batch and of each target, with its verdict |
| BatchProgress.ReportsAdvance | crates/core/src/lib.rs:1034-1057 | later reports never change a verdict nor lower the settled count |
| MergeRounds.PlanMergeRounds | apps/restate-service/src/bulk_action.rs:492-523 | the rounds put together are the round-robin order for every bound; none is empty, over the bound or has a repository twice; a short one has every repository still waiting |
| MergeRounds.NextRound | apps/restate-service/src/bulk_action.rs:507-521 | one round takes the segment of the round-robin the visits reach, and leaves the queues those visits leave |
| MergeRounds.FillQueues | apps/restate-service/src/bulk_action.rs:496-505 | one queue a repository, in first-named order, each in batch order |
| MergeRounds.EmittedIsRoundRobin | apps/restate-service/src/bulk_action.rs:507-522 | once all queues are empty what the visits took is every first pull request, then every second, and so on |
| MergeRounds.SegmentDistinct | apps/restate-service/src/bulk_action.rs:509-519 | no more visits than repositories take no repository twice |
| MergePlans.OrderKept | apps/restate-service/src/bulk_action.rs:480-491 | the send order has each repository's pull requests as the batch has them |
| MergePlans.NothingLost | apps/restate-service/src/bulk_action.rs:480-491 | the send order is the batch's targets, each exactly as often |
| MergePlans.OnlyPlan | apps/restate-service/src/bulk_action.rs:480-491 | the order, the bound and leaving nothing out needlessly determine the rounds |
| MergePlans.RoundCount | apps/restate-service/src/bulk_action.rs:507-522 | at most one round per bound's worth of targets plus the longest queue |
| MergePlans.WithinTwiceTheBest | apps/restate-service/src/bulk_action.rs:507-522 | at most twice the rounds of any plan that obeys the same rules |
| BulkAction.ValidExactly | crates/core/src/lib.rs:791-812 | a request is valid exactly when its ids are batch ids and it names 1 to 100 distinct targets |
| BulkAction.InvalidExactly | crates/core/src/lib.rs:791-812 | which of the four things wrong with a request it is told: the first |
| BulkAction.StoreStepsRepeat | crates/store/src/lib.rs:538-629 | a store step run again after it landed changes nothing |
| BulkAction.Settle | apps/restate-service/src/bulk_action.rs:420-438 | the call that came back since the earlier view becomes its own target's verdict, and the published progress stays orderly |
| BulkAction.StartRound | apps/restate-service/src/bulk_action.rs:407-416 | a round shows as running together, within the bound |
| BulkAction.LandRound | apps/restate-service/src/bulk_action.rs:125-137 | whichever call the surroundings land next, its own target is settled with it, and all are when it ends well |
| BulkAction.SendRound | apps/restate-service/src/bulk_action.rs:355-377 | a round goes out whole and comes back whole, or the run fails with every verdict kept |
| BulkAction.SendMerges | apps/restate-service/src/bulk_action.rs:354-364 | on success the rounds sent are the planner's: a plan of the batch under the bound, all come back |
| BulkAction.SendUpdates | apps/restate-service/src/bulk_action.rs:365-377 | on success the rounds sent are the batch in chunks of three, only the last shorter, all come back |
| BulkAction.SendRebases | apps/restate-service/src/bulk_action.rs:378-389 | on success the rounds sent are the batch one by one, with the pauses of a rebase batch and no others, all come back |
| BulkAction.RoundsInOrder | apps/restate-service/src/bulk_action.rs:345-389 | whatever the action, the rounds sent put together are the send order |
| BulkAction.PausesExactly | apps/restate-service/src/bulk_action.rs:385-387 | those pauses are one after each rebase but the last |
| BulkAction.CompletedAtLast | apps/restate-service/src/bulk_action.rs:385-387 | a batch answered in order is complete at its last target and not before |
| BulkAction.RebaseOne | apps/restate-service/src/bulk_action.rs:379-384 | the rebase's call, however the surroundings end it, becomes its own target's verdict |
| BulkAction.ShowsLegal | apps/restate-service/src/bulk_action.rs:345-416 | at most three targets show as running, one of a rebase, no two merges of one repository |
| BulkAction.AllAnswered | apps/restate-service/src/bulk_action.rs:345-402 | once the send order has come back every target is settled |
| BulkAction.Finish | apps/restate-service/src/bulk_action.rs:390-402 | the settled batch is recorded under its installation, its start and the time read now, and never reported as not complete |
| BulkAction.Drive | apps/restate-service/src/bulk_action.rs:345-402 | it succeeds exactly if nothing it needs fails, having sent everything in order and recorded it once under its own installation and times; else what it did to the store is nothing or that one record step |
| BulkAction.RunBulkAction | apps/restate-service/src/bulk_action.rs:295-340 | success exactly if nothing a run needs fails: sent in the rounds of its action, every target answered and in the state its own call left it, kind by kind, recorded; the batch is listed once, and unlisted once exactly if it failed with a target unsettled |
| BulkAction.NeverBoth | apps/restate-service/src/bulk_action.rs:295-340 | of any run that ended so, step by step on the store: never both listed and recorded; what success, failing before and failing after completion leave; no other batch is touched |
| BulkAction.Run | apps/restate-service/src/bulk_action.rs:440-467 | the "not complete" error is unreachable for every request, outcome and landing order; success leaves the batch recorded and unlisted, every target as its own call ended, and the tallies how many calls ended each way; a refused request is told why and touches nothing |
| BulkAction.CountsAnswers | apps/restate-service/src/bulk_action.rs:420-438 | once all are answered the three tallies count the calls that succeeded, were rejected and failed |
| FenceProtocol.InStepIffHarmless | apps/restate-service/src/pull_request.rs:387-495 | every step of every handler, prune and drain keeps a pull request and its row in step exactly when it is harmless to that pull request: phase by phase for a handler that dies |
| FenceProtocol.RunsInStep | apps/restate-service/src/pull_request.rs:387-495 | so does every run of steps harmless to it, whatever they do to others |
| FenceProtocol.RowsAndObjectsPaired | apps/restate-service/src/pull_request.rs:387-495 | in every state such a run reaches an idle object with a row holds that snapshot and its time, and one with a snapshot and no row has a close queued or on its way that will retire it |
| FenceProtocol.CleanRunsPaired | apps/restate-service/src/pull_request.rs:387-495 | the same of every run in which no handler of it died but before its store step took effect, and every repository replacement that took its row had a later fence |
| FenceProtocol.TakeCloseKeeps | apps/restate-service/src/pull_request.rs:444-461 | taking up a close keeps them in step: the object acts on it, or it was too old for the snapshot |
| FenceProtocol.OwnEvents | apps/restate-service/src/pull_request.rs:387-495 | the steps of any handler, the one between row and state included, keep a key in step exactly when harmless to it |
| FenceProtocol.PrunedKey | crates/store/src/reconcile.rs:15-155 | a prune keeps a key in step exactly when its row stays, was synced before the fence, or was owed a close |
| FenceProtocol.AckForgetsOnlyTold | apps/restate-service/src/retirement.rs:114-132 | whatever else has happened, an acknowledgement forgets only what its own drain read and sent a close for |
| FenceProtocol.AckForgetsAllRead | crates/core/src/lib.rs:136-152 | and of what it read, all |
| FenceProtocol.BooksKept | apps/restate-service/src/retirement.rs:114-132 | every step, a stranding one too, keeps the outbox and the drains in order |
| FenceProtocol.NothingForgottenUntold | apps/restate-service/src/retirement.rs:114-132 | in any run whatever, all a prune ever queued is still queued or was told, and an acknowledgement that may now be made forgets only what its drain has told |
| FenceProtocol.ToldWasSent | apps/restate-service/src/retirement.rs:114-132 | in any run, what was told was sent a close for its own key under its own fence |
| FenceProtocol.ClosesSourced | apps/restate-service/src/retirement.rs:114-132 | in any run, every close in flight was sent from outside or is a told retirement's, under its own fence |
| FenceProtocol.CleanIsHarmless | apps/restate-service/src/pull_request.rs:387-495 | what can be checked of a step beforehand that makes it harmless to a key |
| FenceProtocol.ClosedDies | apps/restate-service/src/pull_request.rs:444-461 | a close given up on keeps the key in step exactly when the row is there, the snapshot is not, or another close is owed |
| FenceProtocol.DeletedDies | apps/restate-service/src/pull_request.rs:480-494 | a handler that ends once its row is deleted keeps the key in step exactly when there is no snapshot or a close is owed |
| FenceProtocol.DroppedRepositoryStrandsFreshSync | crates/store/src/reconcile.rs:95-155 | a run with no failure at all that leaves a snapshot with no row and nothing to tell it |
| FenceProtocol.ClosedGivenUpStrandsSnapshot | apps/restate-service/src/pull_request.rs:454-460 | the same after a `closed` whose row delete is given up |
| FenceProtocol.MergeCutShortStrandsSnapshot | apps/restate-service/src/pull_request.rs:480-494 | the same after a merge whose handler ends at its log clock, the row deleted and the state not set |
| FenceProtocol.Queue | crates/store/src/reconcile.rs:50-77 | the retirements of a prune, one a row, with growing ids, all under its fence |
| FenceProtocol.Forget | crates/store/src/lib.rs:527-536 | an acknowledgement removes exactly the ids up to the one it names |
| FenceHandlers.Deployment.RunSync | apps/restate-service/src/pull_request.rs:387-437 | with any steps at all by others in between, how a sync ends is what it met, with the snapshot it read as the state, none, or the state it had |
| FenceHandlers.Deployment.RunClosed | apps/restate-service/src/pull_request.rs:444-461 | kept exactly if it was synced at the fence or later, else retired, or given up with the store; retired, row and state are gone; else the state stays |
| FenceHandlers.Deployment.RunMerge | apps/restate-service/src/pull_request.rs:467-495 | how it ends, the log clock included; done, row and snapshot are gone and nothing else; ended at the clock, the row alone |
| FenceHandlers.Deployment.RetirePending | apps/restate-service/src/retirement.rs:114-132 | among any steps by others, all queued when it began has been told once it has read, and once acknowledged all it read is out of the outbox for good; it reports how many |
| FenceHandlers.Deployment.Others | apps/restate-service/src/pull_request.rs:387-495 | any steps by anyone else leave a running handler its state and phase, a running drain its reading, and bring nothing acknowledged back |
| FenceHandlers.AllTold | apps/restate-service/src/retirement.rs:114-132 | a drain that has sent all it read leaves nothing queued before it untold |
| FenceHandlers.Deployment.PruneAndRetire | apps/restate-service/src/repo_sync.rs:228-234 | which rows a prune takes, spelled out for each kind, of the rows there then; the rest stay, and each taken has been sent a close under its fence, repository replacements included |
| FenceHandlers.Deployment.RunRepoReconcile | apps/restate-service/src/repo_sync.rs:206-252 | the rows of the repository itself, of no listed number, synced before the fence, are taken and told, and every other row is left as it was; each listed pull request was synced, ending as what its sync met; the failures named are exactly those; a failed listing prunes nothing |
| FenceHandlers.FailedKeysExactly | apps/restate-service/src/repo_sync.rs:214-227 | the keys named are those of the failed syncs |
| FenceHandlers.FailedKeysCounted | apps/restate-service/src/repo_sync.rs:214-227 | one for each failed sync, in the order they were synced |
| FenceHandlers.Deployment.SyncPullRequest | apps/restate-service/src/repo_sync.rs:139-149 | a sync waits for the handler in its way and then ends as what it met |
| Debounce.NoEventIsLost | apps/restate-service/src/pull_request.rs:387-437 | with a clock not set back, while a sync is pending or a debounced event unread, a trailing sync is in flight that will read GitHub |
| Debounce.DueIsRead | apps/restate-service/src/pull_request.rs:652-660 | delivered when due or later such a sync is not debounced |
| Debounce.FirstDebouncedKeepsIffClockAhead | apps/restate-service/src/pull_request.rs:652-660 | a first debounced event is kept exactly when the clock is not behind the last sync or an older trailing sync is due late enough |
| Debounce.ClockSetBackLosesTheEvent | apps/restate-service/src/pull_request.rs:387-405 | a run with the clock set back that ends pending with no sync in flight |
| Debounce.FailedReadIsTheLast | apps/restate-service/src/pull_request.rs:407-418 | a run whose trailing read fails for good ends with an older snapshot and no sync in flight |
| Debounce.StaleExactlyWhenReadsFailed | apps/restate-service/src/pull_request.rs:387-437 | with nothing in flight GitHub was asked since the latest event, which is unanswered exactly when every read tried since failed; else the snapshot is no older than the event |
| Debounce.RefreshReads | apps/restate-service/src/pull_request.rs:652-660 | a manual refresh reads GitHub itself, whatever the window |
| Debounce.RefreshedRun | apps/restate-service/src/pull_request.rs:652-660 | over any run that ends with one, it is the latest event and has been read for |
| Debounce.AtMostTwoWaiting | apps/restate-service/src/pull_request.rs:387-437 | without manual refreshes and cleared states at most two trailing syncs are not yet due, and any three schedulings span the debounce, even when reads fail |
| Debounce.TwoCanWait | apps/restate-service/src/pull_request.rs:387-437 | a run in which two are |
| Debounce.SyncedObject.RunSync | apps/restate-service/src/pull_request.rs:387-437 | debounced exactly if not bypassing and inside the window of the last sync; what either ending leaves of clock, flag and trailing syncs |
| Debounce.SyncedObject.Arrive | apps/restate-service/src/pull_request.rs:387-437 | the same of an arriving request, which keeps what is promised and is answered exactly if its read succeeds |
| Debounce.SyncedObject.Deliver | apps/restate-service/src/pull_request.rs:387-437 | a trailing sync that was owed reads GitHub, and none goes missing |
| Scheduler.NeverASecondChain | apps/restate-service/src/installation_sync.rs:183-277 | over every run no generation in flight is ahead, an armed object has exactly one tick that would sweep, a stopped one none |
| Scheduler.ArmedUntilStopped | apps/restate-service/src/installation_sync.rs:312-327 | an armed chain stays armed with its generation and one tick exactly until a pause or purge stops it |
| Scheduler.LegacyTickArms | apps/restate-service/src/installation_sync.rs:250-264 | a tick of an earlier release, or a start, arms its object: in the next generation, one tick in flight |
| Scheduler.LegacyChainGoesOn | apps/restate-service/src/installation_sync.rs:250-264 | over any run from there that nothing stops, the chain of an earlier release goes on with exactly one tick that sweeps |
| Scheduler.StoppedStaysStopped | apps/restate-service/src/installation_sync.rs:266-277 | no tick in flight at a stop ever sweeps again, and none does until the next start |
| Scheduler.StepKeepsOneChain | apps/restate-service/src/installation_sync.rs:229-277 | every handler keeps the pending flag true to what is in flight |
| Scheduler.OverflowExactly | apps/restate-service/src/installation_sync.rs:183-187 | exactly when a start arms and a pause stops, and that a failed pause changes nothing |
| Scheduler.LastGenerationNeverStops | apps/restate-service/src/installation_sync.rs:266-277 | an armed chain at the last generation can no longer be stopped |
| Scheduler.InstallationSync.Start | apps/restate-service/src/installation_sync.rs:100-116 | starting an armed object does nothing; any other is armed, in its own generation if it has one and is started, else in the next; it fails exactly if there is no next, and then changes nothing |
| Scheduler.InstallationSync.Tick | apps/restate-service/src/installation_sync.rs:312-327 | it sweeps exactly if the object is started and the tick is of the current generation, or of none while none is pending and a generation is left; then it has armed that or the next generation and sent its tick, whether or not the sweep fails; a dropped tick changes nothing |
| Scheduler.InstallationSync.Pause | apps/restate-service/src/installation_sync.rs:145-153 | a pause moves on one generation, of which no tick is in flight |
| Scheduler.InstallationSync.Purge | apps/restate-service/src/installation_sync.rs:155-181 | the chain is stopped before the projection is dropped, so a failed purge leaves it stopped |
| GithubSteps.ReportedExactly | apps/restate-service/src/github.rs:156-206 | only a success is reported as done, only a stale read as stale, every other rejection is GitHub's own answer, no 5xx and no rate limit |
| GithubSteps.UnsettledExactly | apps/restate-service/src/github.rs:85-206 | exactly which results are retried and which wait |
| GithubSteps.WaitsExactly | apps/restate-service/src/github.rs:85-110 | exactly which answers ask to wait, and until when |
| GithubSteps.RefusalsExactly | apps/restate-service/src/github.rs:111-152 | exactly which refusal is retried, and which reason each of the others is given, by status, operation and words |
| GithubSteps.SettledExactly | apps/restate-service/src/github.rs:156-206 | what each error is journaled and reported as |
| Text.LowerExactly | apps/restate-service/src/github.rs:91 | lower case changes the 26 capitals and nothing else |
| GithubWrites.OwnMarkerOnly | crates/github/src/lib.rs:798-816 | a posted command carries a batch's marker exactly when it is that batch's |
| GithubWrites.BodyAsks | crates/github/src/lib.rs:807-813 | a posted command begins by asking Dependabot for it |
| GithubWrites.CommandsTellApart | crates/github/src/lib.rs:807-813 | two comments that ask for different things differ |
| GithubWrites.Client.FindCommentWithMarker | crates/github/src/lib.rs:440-468 | across pages read while others comment, it finds a comment exactly when one carries the marker |
| GithubWrites.Client.ScanPage | crates/github/src/lib.rs:445-466 | one page of that scan: found, not there, or the page was full without it |
| GithubWrites.PageScanned | crates/github/src/lib.rs:445-466 | what a page tells of all comments, the pages before showing no marker |
| GithubWrites.Client.InstallationSend | crates/github/src/lib.rs:201-227 | at most one repeat, of the same request, made exactly when the first was refused with a 401; what it fails with is what the last request did |
| GithubWrites.PostOnce | crates/github/src/lib.rs:818-827 | a post after a scan that found none leaves at most one marked comment |
| GithubWrites.Client.Mutate | crates/github/src/lib.rs:818-827 | a command is asked for at most once, and not at all if its comment exists; no unreadable answer to a write fails as such |
| GithubWrites.Client.MutateAndConfirm | crates/github/src/lib.rs:530-551 | a write whose answer was lost or unreadable fails only after a read-back that went unanswered or did not show the effect |
| GithubWrites.Client.ReadBack | crates/github/src/lib.rs:530-551 | what is not known to have landed is done exactly if the read-back is answered and shows it |
| GithubWrites.Client.Confirm | crates/github/src/lib.rs:554-565 | a read-back confirms exactly what it shows, and fails exactly when its last read is not answered |
| GithubWrites.Client.VerifiedMutation | crates/github/src/lib.rs:507-552 | in the log of requests, no write but the one asked for, and each after a read since the call began of the open Dependabot pull request at the expected head; what that read decides by itself; success means it holds, and a merge names the commit GitHub does; a lost or unreadable answer is read back and not seen to have landed; after a post else only GitHub's own refusals fail it |
| GithubWrites.Client.Call | crates/github/src/lib.rs:728-879 | the three writes succeed only if GitHub shows the effect, and do succeed on a quiet GitHub that allows it; all they ask for, word for word; what an answered write is made of, a merge not made being a conflict; a successful merge is at another head exactly when it already was, or others merged it there meanwhile |
| GithubWrites.MergeHead | crates/github/src/lib.rs:728-772 | over any requests that ask for merges at one head, the pull request ends merged at another exactly when it was, or others did |
| GithubWrites.GithubStep.Attempt | apps/restate-service/src/github.rs:238-250 | however often the closure runs again, at most one marked comment is added and a success holds; how it ends is what the journal makes of its last call; on a quiet GitHub that allows it, it succeeds |
| GithubWrites.GithubStep.RunGithubStep | apps/restate-service/src/github.rs:267-294 | at most three waits, each until a time a call was told, and only after three the rate-limit failure; over all re-runs at most one comment, no write but the one asked for and each after a verifying read; it settles, gives up or ends as the journal makes of its last call; on a quiet GitHub that allows it, it succeeds without a wait |
| GithubWrites.GithubStep.Act | apps/restate-service/src/github.rs:320-359 | the outcome is what the last call settled as, kind by kind; succeeded means GitHub shows it: for a command exactly one comment, for a merge when it is at another head; a quiet GitHub that allows it gives that outcome |
| GithubWrites.MergedAtAnotherHead | crates/github/src/lib.rs:901-911 | a merge found done at another head is reported as done, with no write asked for |
| CheckRollup.RollupChecks | crates/github/src/graphql.rs:384-401 | the loop with its early return is any failure, else anything pending, else any pass, else none |
| CheckRollup.ContextSaysExactly | crates/github/src/graphql.rs:403-449 | which words of a check run or a commit status pass, fail and are pending, in any case of letters |
| CheckRollup.SuiteSaysExactly | crates/github/src/graphql.rs:451-460 | a suite adds its failure, by the same words, and nothing else |
| CheckRollup.SignalsAcrossPages | crates/github/src/lib.rs:881-898 | the signals of all nodes of the pages read, each asked for where the one before ended, in order, or the first failed read's error |
| CheckRollup.CutsDoNotMatter | crates/github/src/lib.rs:881-898 | however a connection is cut into pages the same nodes are read |
| CheckRollup.OrderDoesNotMatter | crates/github/src/graphql.rs:384-401 | the verdict depends only on which nodes there are |
| CheckRollup.CutShort | crates/github/src/lib.rs:891-896 | a commit not served any more reads as the pages before it |
| CheckRollup.CutShortIsRightExactly | crates/github/src/lib.rs:891-896 | the verdict of the pages before is right exactly when the pages never read are no worse |
| CheckRollup.VanishingHidesFailure | crates/github/src/lib.rs:891-896 | so a passing verdict can hide a failure on a page never read |
| CheckRollup.CollectedExactly | crates/github/src/lib.rs:890-894 | a signal is collected exactly when some node gives it |
| CheckRollup.SuitesOnlyFail | crates/github/src/graphql.rs:451-460 | adding suites leaves the verdict or makes it a failure, the latter exactly when one failed |
| CheckRollup.SuiteFailsExactly | crates/github/src/graphql.rs:403-465 | a suite fails by its conclusion alone, in any case of letters, and adds nothing else |
| CheckRollup.CheckSignals | crates/github/src/lib.rs:397-438 | contexts and suites across all their pages, or the first error |
| CheckRollup.HeadVerdict | crates/github/src/lib.rs:397-438 | failed, pending, passed or none exactly as GitHub's words on the nodes of all pages say, and no verdict if a page could not be read |
| RepositoryListing.FoldRepositoryPages | crates/github/src/rest.rs:138-179 | accepted exactly when every page reports the first total and that many ids were listed; then the records, field by field, of the repositories in first-occurrence order |
| RepositoryListing.FirstsExactly | crates/github/src/rest.rs:167-168 | keeping first occurrences keeps every id once |
| RepositoryListing.FirstsAreFirst | crates/github/src/rest.rs:167-168 | of one id, the repository listed first |
| RepositoryListing.FirstsInOrder | crates/github/src/rest.rs:167-168 | in the order of listing |
| RepositoryListing.ListInstallationRepositories | crates/github/src/lib.rs:663-695 | the page loop ends whatever GitHub reports, at the first page that is short or reaches the first total; every other failure is a failed read |
| RepositoryListing.UnchangedIsExact | crates/github/src/lib.rs:663-695 | an unchanged installation is listed exactly, in as few reads as hold it |
| RepositoryListing.JoiningOrLeavingIsRefused | crates/github/src/rest.rs:125-179 | one repository joining or leaving between reads is refused |
| RepositoryListing.SwapRefusedExactly | crates/github/src/rest.rs:125-179 | which swaps between reads are refused, and exactly which are accepted without a repository that was there throughout |
| RepositoryListing.AcceptedListingCanMiss | crates/github/src/rest.rs:125-179 | a listing of 101 that is accepted and misses one |
| RepositoryListing.MergeSettings.MethodInsteadOf | crates/github/src/rest.rs:207-227 | none if the preferred method is allowed or nothing is, else the first allowed of squash, merge and rebase |

## Left out

- FenceHandlers.Deployment.PruneAndRetire: a prune given up on may have landed all the same; its retirements then wait for whoever drains next.
- FenceHandlers.Deployment.RunRepoReconcile: what each sync meets (its debounce, GitHub, the store) is given; the handler in its way, if there is one, takes its remaining steps, unless others end it first.
- FenceHandlers.Deployment.RunMerge: a target the guard refuses for anything but a missing snapshot ends like one GitHub refuses, changing nothing.
- Debounce.SyncedObject.RunSync: the debounce's view of `run_sync` (clock, flag, trailing syncs); its view of rows and snapshots is `FenceHandlers.Deployment.RunSync`. History lines and completion ids are in neither.
- Debounce.NoEventIsLost: a read that fails for good counts as a read; `Debounce.StaleExactlyWhenReadsFailed` is about those that do not. A handler's clock does not run backwards while it runs, and a delayed sync is delivered no earlier than due.
- MergeRounds.PlanMergeRounds: the planner's inner loop is `NextRound`, and its queue lookup is one function, so the model's loops are two methods where the source nests them.
- GithubWrites.Client.Call: a request GitHub received takes effect before the next request arrives or never; a comment applied after a later scan would defeat the marker, in the source as well. Others are taken not to post the batch's marker, for which `GithubWrites.OwnMarkerOnly` gives the reason.
- GithubWrites.Client.InstallationSend: tokens and their refresh are one outcome per request: sent, or not sent with an error a token request can have.
- CheckRollup.SignalsAcrossPages: answers to page reads are a finite list; a GitHub that never stops naming a next page is not covered.
- RepositoryListing.FoldRepositoryPages: error texts are fixed words without their numbers.
- The Restate runtime, journaling and serialisation: handlers of one object do not overlap, sends are delivered once, a step may run again after its effect landed.
- The SQL text: the store's effects are stated as transitions of rows, outbox, running and finished batches.
- `run_command`, `run_update_branch` and `guard_command` on the object's side, beyond the GitHub write they ask for; `run_sync_sha`; the dependabot pull request listing.
- Installation and repository rows themselves, and the merge method looked up from them and sent with a merge.
- Snapshot projection other than its check verdict: Dependabot metadata, labels, mergeability, timestamps.
- The web interface, its API adapters, webhook routing, configuration, tokens, logging.
- Batch ids: whether a text is a UUIDv7 (section 5.7 of RFC 9562) is an opaque predicate.
