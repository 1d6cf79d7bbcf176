# hydra-server, modelled

hydra-server keeps game saves, achievements and screenshots for the Hydra launcher. This project models the parts of
it that carry state machines or arithmetic, and proves what they keep over every input and every run. `dafny verify
dfyconfig.toml` checks all of it.

Tables and disk are maps, a handler or job is one atomic step, and times are integers. Code that changes things in
place is a class with those fields, whose methods are proved against functions on values; the theorems are about
those functions and about runs of steps.

- `RateLimit`, `RateLimitCap`, `RateLimitAnswers`: the login lockout, a tumbling window with a lock and a cleanup.
- `CloudSaves`, `CloudStore`, `CloudInvariant`, `CloudRuns`, `CloudOverlap`, `CloudBacking`, `CloudHistory`: Cloud Save
  V2, snapshots over a content-addressed blob store with collection; SHA-256 is a constructor, and so injective.
- `Quota`, `QuotaBound`, `QuotaOverrun`, `QuotaDeclared`: the quota gate that concurrent uploads share. `Uploads`,
  `UploadReplies`: the chunked upload of one object.
- `Calendar`, `Triggers`, `Schedule`, `ScheduleAsking`, `ScheduleRuns`, `ScheduleTimers`: timers over the proleptic
  Gregorian calendar, and the scheduler.
- `Achievements`, `AchievementPicks`, `Combined`, `CombinedView`, `CombinedPairs`: merging achievement syncs, and pairing
  the copies of one game.
- `Souvenirs`, `SouvenirAnswers`, `SouvenirRuns`, `SouvenirRetries`, `SouvenirHistory`, `SouvenirTangle`: reserving,
  uploading and claiming achievement screenshots, and repeating those calls.
- `Paths`, `Likeness`, `OrphanFiles`, `OrphanReport`, `OrphanSafety`, `OrphanScan`: the storage scan and the deletion of
  orphaned files.

For each operation some theorem says when it answers what, and what it leaves, in terms of its inputs and tables alone
(`CloudHistory`, `QuotaDeclared`, `UploadReplies`, `ScheduleAsking`, `CombinedPairs`, `SouvenirAnswers`,
`AchievementPicks`, `OrphanReport`, `RateLimitAnswers`); the others are about runs.

## Where code and documentation differ

The model follows the code. Each of these is a theorem.

- README.md:90 calls the lockout how long a locked-out address stays locked. `check` truncates the time left to whole
  seconds, so a lock lifts up to a second early (`RateLimitCap.LockIsRested`), and with the shipped 15 minutes one more
  failure fits into a sliding 15 minutes than with a lock that outlives its window (`RateLimitCap.CapExactly`).
- A refused upload is meant to leave nothing on disk (src/storage.rs:675-677). A request whose announced total is
  over its token's limit is refused before the temporary file is touched, so an earlier chunk stays
  (`Uploads.RefusalLeavesNothingExactly`).
- Conflicts are looked for when a snapshot is prepared, never when it is committed, so two prepares from one version
  can take a game's version back (`CloudOverlap.OverlapLosesAnUpdate`). Versions keep rising exactly if every commit
  was prepared after the game's last commit or restore (`CloudOverlap.NoLostUpdateExactly`).
- Chunks are matched by length alone, so a file that changes between chunks lands as a mixture
  (`Uploads.ChangedFileLandsMixed`).
- The comment at src/achievements.rs:52-53 says a real unlock time always beats a missing one. One of 2^63 - 1 does not
  (`AchievementPicks.TimeBeatsNoneExactly`).
- README.md:520-523 says a repeated sync gets the same souvenir ids. A payload that names one client id twice can be
  refused when repeated (`SouvenirRetries.SyncRepeatsExactly`, `SouvenirTangle.RetryIsRefused`).
- The comment at src/admin/maintenance.rs:63-67 says a file that has since been claimed can never be deleted. That is
  so for keys as the scan writes them; a key with a doubled slash or a `.` component reaches the same file and is
  looked up as text (`OrphanSafety.KnownFileIsLostExactly`), which can cost a committed save its file
  (`CloudBacking.DoubledSlashLosesASave`). Nor is it so where the claim itself is not canonical, as a mirrored profile
  address may not be (`OrphanScan.MisspelledFileIsLost`). Orphaned souvenirs are listed by the scan, but the deletion
  refuses every key in their area.
- The end of a run reschedules its task from what the run read when it began, so an edit made meanwhile can leave the
  task enabled without a next run (`ScheduleTimers.StepLeavesUntimedExactly`).
- The scheduler runs a list it made at its tick and does not ask again, so a task an operator has run meanwhile runs
  once more, even for a startup trigger or a timer that run has answered (`ScheduleRuns.MissedTimersRunOnce`,
  `ScheduleRuns.OperatorsRunIsNotNoticed`).
- What src/schedule.rs:564 calls a parent's finish is its start (`ScheduleRuns.RunSinceTheParentBeganIsEnough`).

## Model

| member | source | states |
|---|---|---|
| RateLimit.LoginGuard.CheckAttempt | src/ratelimit.rs:35-58 | An attempt is admitted unless its address is locked, and is otherwise told the minutes left, rounded up from truncated seconds; nothing changes |
| RateLimit.LoginGuard.RecordFailure | src/ratelimit.rs:62-101 | Dead entries of all addresses go first; the failure opens or extends its window, and the last straw sets and reports the lock |
| RateLimit.LoginGuard.RecordSuccess | src/ratelimit.rs:104-106 | Exactly the address's own record is dropped |
| RateLimit.CleanupIsInvisible | src/ratelimit.rs:73-98 | Over every sequence of checks, failures and successes in time order, the guard that drops old entries answers exactly as one that keeps them all |
| RateLimitCap.SlidingBoundExactly | src/ratelimit.rs:35-101 | No run admits more than max(1, 2 * max_attempts - 2) failed attempts of one address within any half-open fifteen minutes, if and only if a lock outlives a window: more than fifteen minutes, or exactly fifteen on a clock of whole seconds |
| RateLimitCap.LockIsRested | src/ratelimit.rs:43-55 | A locked address is admitted again exactly from the lockout less a second, plus one tick of the clock, after the failure that locked it |
| RateLimitCap.CapExactly | src/ratelimit.rs:35-101 | For every maximum and every lockout, the caps on failed attempts within fifteen minutes that hold are exactly those from max(1, 2 * max_attempts - 2) + k on, where k is how often a lock can let go within the window it locks; k is one for the shipped fifteen minutes and a clock finer than a second |
| RateLimitAnswers.RefusedExactly | src/ratelimit.rs:35-58 | An address is turned away exactly while a whole second or more of its lock is left, and is told the least number of minutes that is more than what is left |
| RateLimitAnswers.FailureAnswersExactly | src/ratelimit.rs:62-101 | A failure is counted first or next in its window, and locks, and reports the deadline, exactly if the window then holds the configured maximum, a setting below one counting as one; other records change only by being tidied away |
| RateLimitAnswers.AttemptAnswersExactly | src/admin/session.rs:111-129 | A failing sign-in is the check and, if that admits, the failure |
| RateLimitAnswers.AnswersByAddress | src/ratelimit.rs:35-106 | Over every run in time order an address is answered as if it were alone |
| RateLimitAnswers.SuccessStartsAfresh | src/ratelimit.rs:104-106 | And after a success as if nothing had come before it |
| CloudStore.Server.constructor | src/cloud_saves.rs:304-524 | A server without snapshots satisfies the store's invariant |
| CloudStore.Server.CollectOrphanBlobs | src/cloud_saves.rs:1244-1285 | Exactly the user's blob rows that no snapshot references go, each with its file |
| CloudStore.Server.SweepStalePending | src/cloud_saves.rs:1208-1237 | Exactly the user's pending snapshots older than a day go, and then the blobs nothing else references |
| CloudStore.Server.PrepareSnapshot | src/cloud_saves.rs:304-524 | Validation, sweep, version conflict and quota are answered in that order; on success a pending snapshot one past its base, its manifest and one plan a file are left |
| CloudStore.Server.LandBlob | src/storage.rs:592-724 | Bytes are kept under a hash-bound key only if they hash to it |
| CloudStore.Server.CommitSnapshot | src/cloud_saves.rs:535-702 | Files are registered up to the first that has not arrived; the game's other committed snapshots are dropped or kept, the snapshot becomes current and the user's orphans are collected |
| CloudStore.Server.RestoreSnapshot | src/cloud_saves.rs:944-1049 | A kept version becomes current under a version past all of the game's, and the current one becomes a kept one |
| CloudStore.Server.DeleteSnapshots | src/cloud_saves.rs:796-849 | All of a game's snapshots go, and the blobs nothing else references |
| CloudStore.Server.DeleteSnapshot | src/cloud_saves.rs:856-934 | Only an owner's kept version can be deleted by id |
| CloudStore.Server.SweepAllPending | src/jobs.rs:202-246 | Every stale pending snapshot goes, and the orphans of everyone who lost one |
| CloudStore.Server.CollectAll | src/jobs.rs:248-281 | The orphans of every user with a blob row go |
| CloudStore.Server.DeleteAllRetained | src/jobs.rs:289-342 | Every kept version goes, and the orphans of everyone who lost one |
| CloudStore.Server.DeleteFiles | src/admin/maintenance.rs:68-132 | Of the Cloud Save files exactly those go that a listed text leads to which is safe and, as it is written, names no row |
| CloudInvariant.PrepareKeepsInv | src/cloud_saves.rs:304-524 | Preparing keeps the store's invariant: files hash to their keys, rows have the size of what their hash stands for, every row is referenced, files of kept snapshots have rows of their manifest size, one committed snapshot a game |
| CloudInvariant.CommitKeepsInv | src/cloud_saves.rs:570-664 | Committing keeps it, whether it registers everything or stops at a missing file |
| CloudInvariant.RestoreKeepsInv | src/cloud_saves.rs:971-1015 | Restoring keeps it |
| CloudInvariant.StepKeepsInv | src/cloud_saves.rs:304-1285 | Every handler and job keeps it, and so does any deletion of files by hand |
| CloudInvariant.ReachableInv | src/cloud_saves.rs:304-1285 | So does every run |
| CloudInvariant.RowsAreAccounted | src/cloud_saves.rs:588-600 | In every reachable state each blob row is referenced by a snapshot of its owner, and every hash of a committed or superseded manifest has a row |
| CloudBacking.TakesExactly | src/admin/maintenance.rs:104-132 | A listed text takes the file of a row if and only if it is safe, not canonical, and leads to the path of the row's key |
| CloudBacking.DeletionAgrees | src/admin/maintenance.rs:68-187 | On Cloud Save files the deletion of this store and that of the whole storage remove the same |
| CloudBacking.CanonicalTextsNameOnce | src/admin/maintenance.rs:63-99 | Canonical keys, which are all the scan lists, are never second spellings |
| CloudBacking.StepKeepsKey | src/cloud_saves.rs:1244-1265 | A row keeps its file at every step but a deletion by hand that lists a second spelling of that row's own key |
| CloudBacking.StepKeepsBackingExactly | src/cloud_saves.rs:1244-1265 | All rows keep their files at every step, but for exactly the deletions by hand that list a second spelling of a row's key |
| CloudBacking.RowHasItsFileExactly | src/admin/maintenance.rs:68-99 | At the end of any run a row has its file if and only if every listing of a second spelling of its own key was followed by an upload of the file |
| CloudBacking.WhatIsThereRestores | src/cloud_saves.rs:570-664 | After any run, deletions by hand included, every file of every committed or superseded snapshot has its row, and restores if and only if it is on disk |
| CloudBacking.RestoresExactly | src/cloud_saves.rs:570-664 | After any run from the empty store, a file of a committed or superseded snapshot can be restored - it has its row, and is on disk with its hash and its manifest size - if and only if every deletion by hand that listed a second spelling of its own key was followed by an upload of it |
| CloudBacking.EverySaveRestores | src/cloud_saves.rs:570-664 | So it can after every run whose deletions by hand list no second spelling of its own key, whatever they list of others |
| CloudBacking.DoubledSlashLosesASave | src/admin/maintenance.rs:122-132 | One listing is enough to lose it: a doubled slash in the key of any saved file takes the file and leaves snapshot and row |
| CloudBacking.SkipIsAPromise | src/cloud_saves.rs:396-419 | A file answered `skip` in any reachable state keeps its row along every run that leaves the prepared snapshot in place, and at the end its bytes are there if and only if every listing of a second spelling of its own key was followed by an upload of it |
| CloudRuns.StepPreserves | src/cloud_saves.rs:1244-1265 | A snapshot a step leaves in place keeps its manifest and its rows, and its files unless files were deleted by hand |
| CloudRuns.CommitCompletes | src/cloud_saves.rs:488-586 | If declared sizes are true and every file answered `upload` was sent, commit succeeds with the base version plus one, unless files were deleted by hand or the pending snapshot went |
| CloudRuns.QuietStep | src/cloud_saves.rs:607-664 | Nothing but a commit, a restore or a deletion of a game's save moves its current version |
| CloudRuns.SerialisedCommitReplacesItsBase | src/cloud_saves.rs:356-391 | A commit prepared after the game's last commit or restore replaces exactly the version it started from |
| CloudRuns.NoLostUpdate | src/cloud_saves.rs:609-664 | Along runs whose commits are all so prepared and whose current save is not deleted, the version never falls and every commit and restore raises it |
| CloudOverlap.NoLostUpdateExactly | src/cloud_saves.rs:356-391 | From an empty store and as long as the game's current save is not deleted, every commit and restore raises its version if and only if every commit was prepared after the game's last commit or restore |
| CloudRuns.RestoreIsUndone | src/cloud_saves.rs:971-1015 | Restoring a kept version and then the one it displaced gives back every status, manifest, row and file; only those two versions move, past all earlier ones |
| CloudOverlap.OverlapLosesAnUpdate | src/cloud_saves.rs:656-662 | A run without that discipline, in which a late commit takes the current version from two back to one |
| CloudHistory.CommitAnswersExactly | src/cloud_saves.rs:535-586 | A commit goes through, with the version prepare wrote down, if and only if the snapshot is the user's own pending one and each of its files is on disk with its declared size; it is incomplete exactly if only the files are at fault |
| CloudHistory.PrepareAnswersExactly | src/cloud_saves.rs:304-395 | A prepare is a bad request exactly if improper, a conflict exactly if it did not start from the committed version, and otherwise what the quota says |
| CloudHistory.ImproperExactly | src/cloud_saves.rs:311-349 | What is improper: an unknown shop, no object, a negative base or size, an empty path, or two files of one identity |
| CloudHistory.PrepareRecords | src/cloud_saves.rs:396-524 | A prepared snapshot is pending, one past its base, with the request's files as its manifest; a file is answered `skip` exactly if both its row and its bytes are there |
| CloudHistory.OthersAnswerExactly | src/cloud_saves.rs:796-1049 | Uploads, restores and deletions are refused exactly for a wrong digest, a snapshot that is not the user's, one that is not a kept version, or an unknown shop, and then change nothing |
| CloudHistory.StepDropsExactly | src/cloud_saves.rs:304-1285 | In every reachable state a step loses a snapshot if and only if it deletes it, sweeps it as pending for more than a day, or commits another of its game with auto-delete on while it is committed or kept |
| CloudHistory.CommitLeavesExactly | src/cloud_saves.rs:600-664 | A commit that goes through puts its snapshot first; with auto-delete off every other one of the game stays with its manifest and version, the committed ones as kept versions; with it on exactly the committed and kept ones are gone; nobody else's change |
| CloudHistory.RestoreMoves | src/cloud_saves.rs:944-1049 | A restore goes through exactly for the user's kept version, gives it one past the greatest version of its game, demotes the committed one, and changes nothing else |
| CloudHistory.StepChangesExactly | src/cloud_saves.rs:304-1285 | A snapshot that a step leaves in place changes only by being committed or restored, or by being displaced as committed, and then exactly so |
| CloudHistory.ManifestsStay | src/cloud_saves.rs:304-1285 | Manifests never change |
| CloudHistory.StepKeepsRowsExactly | src/cloud_saves.rs:1244-1265 | In every reachable state a blob row is there after a step exactly if the step registers it or it was there, and some snapshot that stays lists it |
| CloudHistory.StepKeepsFilesExactly | src/cloud_saves.rs:1244-1285 | And a file exactly if it is uploaded, or was there and is not collected with its row, deletions by hand aside |
| CloudHistory.ReplacedSaveCanBeRestored | src/cloud_saves.rs:642-652 | A save that a commit replaced with auto-delete off can be restored after any run that leaves it in place, with all its files unless a deletion by hand lists a second spelling of their keys |
| Quota.InFlightUploads.Publish | src/storage.rs:314-322 | The uploads map gains or updates one entry; an entry keeps its owner |
| Quota.InFlightUploads.Release | src/storage.rs:324-326 | Exactly the upload's entry goes |
| Quota.InFlightUploads.ExtraBytes | src/storage.rs:329-336 | The saturating fold over the map is the saturated sum of the owner's other entries, in whatever order |
| Quota.QuotaGate.constructor | src/storage.rs:362-383 | A gate opens with the budget the database leaves at that moment |
| Quota.QuotaGate.Check | src/storage.rs:388-424 | The budget is re-read only after eight mebibytes, the extra is published first, and the answer weighs the footprint against the budget less the other uploads |
| QuotaBound.StepKeepsInv | src/storage.rs:359-431 | Every interleaved opening, chunk, landing, abort and deletion keeps the bound on stored bytes plus ceilings of uploads in progress |
| QuotaBound.QuotaBound | src/storage.rs:277-431 | From an account within its quota, any interleaving keeps stored bytes plus bytes on their way in within quota + (n - 1) * (8 MiB - 1) after n openings, and within the quota before the first |
| QuotaBound.QuotaHolds | src/storage.rs:277-431 | If no upload of the account lands between a gate's read and its later checks, no quota below half of 2^63 - 1 is ever passed |
| QuotaDeclared.DeclaredIsPublished | src/storage.rs:394-402 | In every reachable state each upload has published, under its owner, what it declared or has written, whichever is more, less what the database counts for its key |
| QuotaDeclared.OpeningDecidedExactly | src/storage.rs:362-424 | An opening is admitted if and only if its declared size, or its offset if that is more, fits the quota beside the owner's other rows and other uploads in flight, or is nothing with no others in flight |
| QuotaDeclared.ChunkDecidedExactly | src/storage.rs:388-424 | A later chunk is measured in the same way against the rows as they are if eight mebibytes were written since the last read, and otherwise against what that read left |
| QuotaDeclared.LandingSettlesExactly | src/storage.rs:426-431 | A landing takes the upload off the books and writes its length into its row, if it has one; no other row changes |
| QuotaDeclared.EndingsAreClean | src/storage.rs:426-431 | An upload that ends otherwise leaves no trace, and a deleted row's bytes are free again |
| QuotaOverrun.QuotaBoundIsLeast | src/storage.rs:388-424 | The bound is attained: for every number of openings and every quota no smaller than the overrun, a run from empty files ends with exactly the quota and the whole overrun |
| QuotaOverrun.SaturatedQuotaIsPassed | src/storage.rs:130-132 | Under every quota from half of 2^63 - 1 on, where the sums saturate, one opening can pass it, though nothing lands behind its back |
| Uploads.SizeLimit | src/storage.rs:511-515 | The limit is never below the declared size |
| Uploads.UploadSlot.Upload | src/storage.rs:579-733 | The loop over the body, with its checks in order, leaves the temporary file, the object and the reply its specification gives |
| Uploads.LandedExactly | src/storage.rs:615-726 | What lands is the earlier chunks and this body, from offset zero the body alone; it has the announced length, is within the limit and matches the digest |
| Uploads.PartialIsPrefix | src/storage.rs:626-690 | A request that does not land leaves the object alone, and the temporary file as it was, gone, or holding its base and a leading part of the body |
| Uploads.RefusalLeavesNothingExactly | src/storage.rs:604-720 | A size, quota or hash refusal leaves no partial file if and only if there was none or the announced total is within the limit |
| Uploads.PartialCanStay | src/storage.rs:604-611 | The exception occurs: a second request that announces more than its token allows leaves the first chunk behind |
| Uploads.PartialIsAssembled | src/storage.rs:592-690 | Over any sequence of requests for a key, the temporary file is exactly the kept parts of the bodies since the last accepted request at offset zero, each continuing at the length so far; without such a request, those parts behind what was there |
| Uploads.LandedIsAssembled | src/storage.rs:615-726 | So is what lands: its last part is a whole body, its length the announced total, within the limit and matching the digest |
| Uploads.OnlyLandingsChangeTheObject | src/storage.rs:592-726 | Nothing else ever changes the object |
| Uploads.OnlyTheFileLands | src/storage.rs:592-726 | So if all requests are of one file - retried, out of order, broken off or refused - the object is the old one or exactly that file |
| Uploads.ChangedFileLandsMixed | src/storage.rs:626-651 | With two files it is neither: a first chunk of one and a second of another land together |
| UploadReplies.StoredExactly | src/storage.rs:592-726 | A request is stored if and only if its range fits, it is not chunked under a hash, it announces no more than its token allows, it continues where the file ends, every leading part of its body is admitted and within limit and total, it does not break off, the total is reached, and the digest is that of held bytes and body |
| UploadReplies.TakenOtherwiseExactly | src/storage.rs:685-720 | Of those taken whole, exactly the complete ones with another digest are a hash mismatch, and exactly those short of their total are accepted |
| UploadReplies.RefusedExactly | src/storage.rs:592-682 | Any other answer is given exactly for the first of its reasons, in the order they are looked for |
| UploadReplies.LeavesExactly | src/storage.rs:592-726 | What each answer leaves: nothing touched at the door, no partial file where the body is refused, otherwise held bytes and body as far as they got |
| UploadReplies.LimitExactly | src/storage.rs:511-515 | A token lets a file exceed its declared size by a mebibyte and a tenth, and by no more |
| UploadReplies.DeclaredBodyIsStored | src/storage.rs:592-726 | So a body no longer than declared is stored under its own hash whenever the quota admits it |
| Calendar.YearLength | src/triggers.rs:447-461 | Day numbers count 366 days in leap years and 365 in others, as Appendix C of RFC 3339 defines leap years |
| Calendar.DaysInMonthIsGregorian | src/triggers.rs:447-461 | The distance between two firsts is the month length of the table in section 5.7 of RFC 3339, in every month of every year |
| Calendar.DaysAreAnchored | src/triggers.rs:406-461 | Day zero is 1970-01-01, a Thursday, and 2000-01-01 a Saturday |
| Calendar.WeekdaysFollow | src/triggers.rs:406-418 | Weekdays follow one another from Monday to Sunday |
| Calendar.MonthIsUnique | src/triggers.rs:438-445 | A day lies in exactly one month |
| Calendar.OnDayInMonth | src/triggers.rs:438-445 | A clamped day stays in its month |
| Triggers.StepDays | src/triggers.rs:398-404 | The loop stops within one step, at the slot its specification names |
| Triggers.StepWeeks | src/triggers.rs:406-418 | So does the weekly one |
| Triggers.StepMonths | src/triggers.rs:420-436 | The monthly loop returns within its first two tries; the 30-day fallback is unreachable |
| Triggers.NextRunAfter | src/triggers.rs:362-382 | The dispatch over units is the specification's |
| Triggers.NextRunIsLater | src/triggers.rs:362-382 | Every timer moves strictly forward, whatever its fields |
| Triggers.DayTimerLands | src/triggers.rs:398-404 | A day timer lands on its minute, today or `count` days on, within `count` days |
| Triggers.DailyTimerIsLeast | src/triggers.rs:398-404 | With a count of one it is the least such slot after `from` |
| Triggers.WeekTimerLands | src/triggers.rs:406-418 | A week timer lands on its weekday and minute within `count` weeks |
| Triggers.WeeklyTimerIsLeast | src/triggers.rs:406-418 | With a count of one it is the least such slot after `from` |
| Triggers.MonthTimerLands | src/triggers.rs:420-461 | A month timer lands in the same month or exactly `count` (at most 120) months on, on day min(day, month length), at its minute |
| Triggers.MonthlyTimerIsLeast | src/triggers.rs:420-445 | With a count of one it is the least of all the months' slots after `from` |
| Triggers.AcceptedTimersLand | src/triggers.rs:291-436 | Whatever `validate` accepts lands strictly later, on the dot, day and week timers within `count` units |
| Triggers.AcceptedTimersLandExactly | src/triggers.rs:362-461 | It lands exactly `count` minutes or hours on; or on the first slot of its day, weekday or month if that is still ahead, and otherwise exactly `count` days, weeks or months after it |
| Triggers.ValidateExactly | src/triggers.rs:294-360 | The validator accepts exactly timers of 5 minutes to 366 days on times there are, delays and gaps of up to a week, another task that there is, at most twelve kinds none of them blank, and thresholds from zero on |
| Triggers.StrayFieldsAreBroughtIn | src/triggers.rs:362-461 | A timer with fields the validator would refuse runs as one with them brought into range |
| Schedule.Scheduler.Take | src/schedule.rs:385-392 | A claim succeeds exactly if no run holds one |
| Schedule.Scheduler.Release | src/schedule.rs:394-398 | Dropping a claim frees exactly that task |
| Schedule.Scheduler.AskingToRun | src/schedule.rs:486-550 | The first trigger that fires gives the reason, and a disabled task never asks |
| Schedule.Scheduler.FindDue | src/schedule.rs:633-643 | The due list holds every asking task, in order, with its reason |
| Schedule.Scheduler.RecordResult | src/schedule.rs:272-367 | The end of a run writes its start, its result and the next timer run computed from its finish and from what it read when it began |
| Schedule.Scheduler.NextTimer | src/schedule.rs:43-48 | The earliest next run over all timers |
| Schedule.Scheduler.Update | src/schedule.rs:217-270 | An acceptable edit reschedules from now; a refused one changes nothing |
| ScheduleAsking.AsksExactly | src/schedule.rs:486-582 | A task asks if and only if it is enabled and one of its triggers is due: stored next run not after now; boot plus delay reached and not run since boot; parent succeeded in a run begun after its last one and the delay over; last run plus gap reached and something seen. The first such trigger gives the reason |
| ScheduleAsking.ListedExactly | src/schedule.rs:633-643 | A tick lists exactly the tasks that ask, with their reasons |
| ScheduleAsking.ListKeepsOrder | src/schedule.rs:633-643 | In the order they are asked |
| ScheduleAsking.NextTimerIsEarliest | src/schedule.rs:43-48 | A next run is the earliest of the timers' next runs |
| ScheduleAsking.EndRecords | src/schedule.rs:309-336 | The end of any run records its start and outcome and the earliest next run of the timers it read, none if it read the task as off, and touches no other row |
| ScheduleAsking.EditRecords | src/schedule.rs:217-270 | An edit with at most eight triggers, all accepted, is stored and rescheduled from now |
| ScheduleAsking.EditIsRefused | src/schedule.rs:217-270 | Any other changes nothing |
| ScheduleAsking.ListIsRun | src/schedule.rs:645-678 | Every listed task that nobody is running is run, once the scheduler has had as many turns as the list is long |
| ScheduleAsking.DueTaskRuns | src/schedule.rs:645-678 | So after a tick that names an enabled, unclaimed task with a due trigger, the log holds a run of it for the first such trigger |
| ScheduleAsking.RestartStartsAgain | src/schedule.rs:502-507 | After a restart nothing is claimed or running, rows and log are as they were, and a startup trigger is due once its delay has passed since the restart, unless the task has run by then |
| ScheduleRuns.NextTimerRunIsLater | src/schedule.rs:43-48 | The next timer run of a task lies strictly after the moment it is computed from |
| ScheduleRuns.StepKeepsInv | src/schedule.rs:272-336 | Ticks, runs, operators' runs, edits and restarts keep the scheduler's invariant on claims, the log of all runs, rows and due list |
| ScheduleRuns.NoTaskRunsTwiceAtOnce | src/schedule.rs:380-398 | In every reachable state all runs in progress are of different tasks, whoever started them |
| ScheduleRuns.MissedTimersRunOnce | src/schedule.rs:284-324 | A timer run's due time lies after every earlier finished run of its task, whoever began that, unless and only unless that was an operator's and ended after the tick that listed the task; so periods missed make one run |
| ScheduleRuns.StartupFiresOncePerBoot | src/schedule.rs:503-507 | A startup trigger fires for a task at most once per boot and not after another run in it, whoever began that, with the same one exception |
| ScheduleRuns.ParentRunIsFollowedOnce | src/schedule.rs:552-582 | A parent's run starts its follower only if no finished run of the follower began at or after it, with the same exception; of two runs that follow one parent the later follows a later run of it |
| ScheduleRuns.OperatorsRunIsNotNoticed | src/schedule.rs:645-678 | The exception occurs from every state with a listed task: an operator runs it first, and the scheduler runs it again |
| ScheduleRuns.RunSinceTheParentBeganIsEnough | src/schedule.rs:564-572 | A follower that ran to its end since its parent began is not asked for by that run of the parent, even if it began before the parent ended |
| ScheduleTimers.TimersKnowTheirNext | src/schedule.rs:43-48 | A next run is known if and only if there is a timer |
| ScheduleTimers.EndKeepsTimerExactly | src/schedule.rs:309-336 | The end of a run leaves a next run if and only if the task was enabled and had a timer when the run began |
| ScheduleTimers.StepLeavesUntimedExactly | src/schedule.rs:217-336 | An enabled task with a timer loses its next run exactly by the end of a run that began when it was off or had none |
| ScheduleTimers.TimersStaySet | src/schedule.rs:217-336 | If no edit touches a task while it runs, every enabled task with a timer has a next run in every reachable state |
| ScheduleTimers.SwitchedOnDuringARunStaysUntimed | src/schedule.rs:272-336 | Otherwise it may not: any task switched on while a run begun in its off state is going ends up enabled with timers that never ask |
| Achievements.MergeAchievements | src/achievements.rs:63-85 | The loop over both lists builds exactly the merge |
| Achievements.MergeKeepsEarliest | src/achievements.rs:45-85 | A merge lists each upper-cased name once, at the earliest time either side gives it, missing times last |
| Achievements.SyncedIsEarliest | src/achievements.rs:63-85 | After any series of syncs the stored names are those some payload mentioned, each at the earliest time any gave it |
| Achievements.SyncsConverge | src/achievements.rs:63-85 | Any order and any repetition of the same payloads ends in the same names at the same times |
| Achievements.RepeatedSyncChangesNothing | src/achievements.rs:63-85 | Merging the same payload again gives back the very same list |
| AchievementPicks.MergedIsFirstEarliest | src/achievements.rs:58-85 | A merge holds, once for each name, the first of both sides' entries with its earliest time, whole |
| AchievementPicks.UnlockTimeExactly | src/achievements.rs:42-50 | The newer field decides if it is there at all, and the older one otherwise |
| AchievementPicks.TimeBeatsNoneExactly | src/achievements.rs:52-56 | A real time takes the place of a missing one if and only if it is before 2^63 - 1 |
| Combined.CombineCopies | src/combined_achievements.rs:368-444 | The nested loops over copies and definitions, with their order list, groups map and counters, build exactly the specified view |
| Combined.FindFallback | src/combined_achievements.rs:369-373 | Borrowed definitions are those of the first copy that has any |
| CombinedView.KeysAreInjective | src/combined_achievements.rs:395-399 | The text `base#n` determines base and count, even where the base holds a `#` |
| CombinedView.CopyGivesNth | src/combined_achievements.rs:387-431 | One copy gives a group exactly its n-th definition of that name, or nothing |
| CombinedView.GroupHoldsNth | src/combined_achievements.rs:378-431 | Group (key, n) holds exactly the n-th definition with that key of each copy that has one, own or borrowed, in copy order |
| CombinedView.ViewIsNthOfEach | src/combined_achievements.rs:368-444 | Every group of the view is one of these, and none is empty |
| CombinedView.OrderIsFirstAppearance | src/combined_achievements.rs:427-436 | Groups follow the first appearance of their keys, each listed once |
| CombinedView.NothingLostOrDuplicated | src/combined_achievements.rs:427-443 | The groups together hold the tagged variants, with multiplicity |
| CombinedView.EveryDefinitionIsShown | src/combined_achievements.rs:389-425 | A copy's variants are its named definitions, one for one and in order |
| CombinedView.ViewKeepsEveryDefinition | src/combined_achievements.rs:368-444 | The whole view holds exactly the named definitions of every copy, each once |
| CombinedPairs.SameGroupExactly | src/combined_achievements.rs:344-399 | Two definitions stand in one group if and only if they have the same normalised display name - or, where both are blank, the same upper-cased name - and the same number of such before them in their copies |
| CombinedPairs.GroupHoldsItsPairs | src/combined_achievements.rs:378-436 | A definition's group holds exactly the definitions that pair with it and stand at its count in their copies, in copy order |
| CombinedPairs.EveryGroupHasADefinition | src/combined_achievements.rs:427-444 | Every group is some definition's, and different groups have different ids |
| CombinedPairs.ShownAreOwnOrBorrowed | src/combined_achievements.rs:369-382 | A copy shows its own definitions, or those of the first copy with any if it has none |
| CombinedPairs.DefinitionIsDepicted | src/combined_achievements.rs:401-425 | Each definition is shown in its group as its copy has it: unlocked when the copy says so under its own name or else its external id, with the picture of its name, and blank names and icons filled in |
| Souvenirs.NormalizeNames | src/souvenirs.rs:108-115 | The filter with its local set gives the specified list |
| Souvenirs.Server.Authorize | src/souvenirs.rs:176-272 | Checks in order; a known client id gets its key back, a new one a pending row, and a clash of keys nothing |
| Souvenirs.Server.MarkUploaded | src/souvenirs.rs:285-298 | Exactly the row with that key is marked, with the bytes written |
| Souvenirs.Server.AlreadyCaptured | src/souvenirs.rs:458-481 | True exactly if another ready souvenir of the user and game lists one of the names |
| Souvenirs.Server.ClaimOne | src/souvenirs.rs:357-452 | The first obstacle in the order of the checks is answered and changes nothing; without one the row is filed as the entry says |
| Souvenirs.Server.ClaimFromSync | src/souvenirs.rs:328-354 | Claims run one after another, and those before a refusal stay |
| Souvenirs.Server.SyncAchievements | src/achievements.rs:95-184 | The merge is stored first, whatever becomes of the souvenirs, and decides which names are unlocked |
| Souvenirs.Server.ResetAchievements | src/achievements.rs:402-414 | A game's unlocks are forgotten, its souvenirs stay |
| Souvenirs.Server.SweepAbandoned | src/souvenirs.rs:1138-1157 | Exactly the pending rows older than the cutoff go, and they are counted |
| Souvenirs.Server.Remove | src/souvenirs.rs:1080-1099 | Exactly the owner's row of that id goes |
| SouvenirRuns.NormalizedIsSet | src/souvenirs.rs:108-115 | Normalised names are distinct, and are exactly the non-blank trimmed, upper-cased spellings |
| SouvenirRuns.ClaimKeepsInv | src/souvenirs.rs:357-434 | A claim without obstacle keeps the name sets of ready souvenirs disjoint |
| SouvenirRuns.StepKeepsInv | src/souvenirs.rs:176-481 | Every call and sweep keeps ids and keys unique, ready souvenirs uploaded with 1 to 50 distinct names, and name sets disjoint per user and game |
| SouvenirRuns.OneSouvenirPerAchievement | src/souvenirs.rs:401-405 | In every reachable state an achievement of one user and game has at most one ready souvenir |
| SouvenirRetries.AuthorizeRepeats | src/souvenirs.rs:210-232 | After any run that leaves the reservation in place, authorizing again returns the same key, and asks for an upload exactly if none has landed |
| SouvenirRetries.ClaimedExactly | src/souvenirs.rs:328-354 | A payload is acknowledged if and only if no entry meets an obstacle in its turn, with the ids of its reservations |
| SouvenirRetries.ClaimsRepeatExactly | src/souvenirs.rs:328-434 | Claims repeated at once go through, changing nothing, if and only if no entry shares a name with what a client first named later ends up with |
| SouvenirRetries.SyncRepeatsExactly | src/achievements.rs:95-184 | A whole sync repeated at once is acknowledged the same way and changes nothing, if and only if its payload is so untangled; otherwise it is refused as already assigned |
| SouvenirHistory.SyncRepeatsLater | src/achievements.rs:95-184 | With every client id named once, a successful sync is acknowledged with the same ids after any run that deletes none of its souvenirs, does not reset its game, and in whose payloads an entry for one of its client ids and pictures repeats its names, time and game - as in a retry that carries more |
| SouvenirTangle.RetryIsRefused | src/souvenirs.rs:328-354 | A payload that names one client twice and succeeds is refused when repeated |
| SouvenirAnswers.NormalizedInOrder | src/souvenirs.rs:108-115 | Normalised names keep the order of their first mention |
| SouvenirAnswers.NamesAreFirstFifty | src/souvenirs.rs:365-369 | A claim lists the first fifty of them |
| SouvenirAnswers.KeyBelongsExactly | src/souvenirs.rs:79-85 | A key belongs to a user if and only if it is in the user's own folder, holds no `..`, and is made of ASCII letters, digits and `/-_.` |
| SouvenirAnswers.AuthorizeAnswersExactly | src/souvenirs.rs:176-272 | An authorize is refused exactly for its extension, its length, or, for a client id without a reservation, the quota or a clash; it then gets an empty pending row with a key in the user's folder, and otherwise its old key |
| SouvenirAnswers.ObstacleExactly | src/souvenirs.rs:357-434 | A claim goes through if and only if none of seven reasons objects, and is otherwise refused for the first of them |
| SouvenirAnswers.ClaimsStopExactly | src/souvenirs.rs:328-354 | The claims before the first entry with an obstacle stay, and that obstacle is the answer |
| SouvenirAnswers.StepDropsExactly | src/souvenirs.rs:176-298 | A step loses a souvenir if and only if it deletes it, or sweeps it as a reservation before the cutoff that nothing claimed; it adds nothing but a reservation |
| SouvenirAnswers.StepChangesExactly | src/souvenirs.rs:285-434 | One that stays changes only by its bytes landing, or by its owner's sync, and then as the last entry for it before the first obstacle says |
| SouvenirAnswers.StepUnlocksExactly | src/achievements.rs:95-184 | A sync adds the payload's unlocks to its game's, each at its earliest time, whatever becomes of the souvenirs; a reset forgets its game's; nothing else touches any |
| SouvenirAnswers.SyncClaimsAgainstAll | src/achievements.rs:95-184 | Souvenirs are held against all the unlocks the game then has, those of the same payload among them |
| OrphanFiles.KnownKeys | src/admin/storage.rs:158-304 | The loops over the tables grow exactly the set of known keys |
| OrphanReport.KnownExactly | src/admin/storage.rs:158-304 | A key is known if and only if a row names it: a blob by user and hash, an uploaded artifact or emulation save by its id, an artwork, a souvenir in any state, or a user's banner, avatar or mirrored address from its first mention of the avatars folder on |
| OrphanReport.ReportExactly | src/admin/maintenance.rs:76-98 | The report lists, in order, exactly the keys that are unsafe or still referenced, and counts all others |
| OrphanReport.FreedIsGone | src/admin/maintenance.rs:86-98 | Bytes add up: what was stored is what is left and what is reported as freed, but for folders among the keys, whose lengths are reported though they stay |
| Paths.SafeKeyExactly | src/admin/maintenance.rs:102-111 | A key is safe if and only if it is not empty, not absolute, holds no `..`, and is made of ASCII letters, digits and `/-_.` |
| OrphanFiles.Storage.DeleteObject | src/storage.rs:550-557 | Exactly the file at the key's path goes |
| OrphanFiles.Storage.DeleteOrphanFiles | src/admin/maintenance.rs:68-99 | No keys is an error; otherwise unsafe and referenced keys are listed as skipped and the others deleted and counted |
| Likeness.EscapedMatches | src/admin/maintenance.rs:113-118 | An escaped value matches itself in any ASCII case, and nothing else |
| Likeness.FoldExactly | src/admin/maintenance.rs:172-179 | Two characters are alike if and only if they are the same or one ASCII letter in its two cases |
| Likeness.SuffixMatches | src/admin/maintenance.rs:172-179 | The pattern of the profile lookup matches exactly the addresses that end with the key |
| OrphanSafety.KnownIsReferenced | src/admin/maintenance.rs:121-187 | Every key the scan counts as known is one the deletion refuses |
| OrphanSafety.DeletionRemovesExactly | src/admin/maintenance.rs:68-99 | A file goes exactly if some key of the list names it, is safe and is not referenced |
| OrphanSafety.KnownFileIsLostExactly | src/admin/maintenance.rs:121-187 | The file of a known key, canonical or not, is lost if and only if the list holds another spelling of the key, in a looked-up area, that no row uses |
| OrphanSafety.CanonicalKeysLoseNothing | src/admin/maintenance.rs:68-187 | With canonical keys no file is lost whose known key is canonical, whatever the other rows hold |
| OrphanSafety.DoubledSlash | src/admin/maintenance.rs:122-132 | Every blob has such a second spelling |
| OrphanScan.ReadFolder | src/admin/storage.rs:309-337 | One turn of the walk moves a folder's files to the list and its folders to the stack, losing and repeating none |
| OrphanScan.FindOrphans | src/admin/storage.rs:306-338 | The walk ends, and lists with multiplicity exactly the orphans of the recursive specification |
| OrphanScan.OrphanIsFile | src/admin/storage.rs:321-336 | Every listed key is the path of a file that is not in flight and not known |
| OrphanScan.FileIsListed | src/admin/storage.rs:321-336 | Every such file is listed, with its length |
| OrphanScan.ScannedKeysLoseNothing | src/admin/maintenance.rs:63-99 | Keys from a scan, whenever it ran, take no file that any row names canonically by the time they are deleted |
| OrphanScan.MisspelledFileIsLost | src/admin/storage.rs:277-304 | Without that it fails: under a mirrored profile address with a doubled slash the scan lists the picture, and deleting all it lists takes it |
| OrphanScan.ScanThenDelete | src/admin/maintenance.rs:68-99 | Deleting all a scan lists takes exactly the files that are unknown, not in flight, safely named and unreferenced |

## Left out

- QuotaBound.QuotaBound: openings are counted from a moment at which nothing is in flight; twice the quota plus the overrun is assumed below 2^63 - 1, because the server's 64-bit sums saturate from there (`QuotaOverrun.SaturatedQuotaIsPassed`).
- QuotaBound.QuotaHolds: blobs of Cloud Save V2, whose rows come only at commit, and presigned requests, which ignore uploads in progress, are not part of the quota runs.
- ScheduleRuns.ParentRunIsFollowedOnce: a run cut off by a restart is asked for again, because its row was never written.
- ScheduleRuns.MissedTimersRunOnce: the same holds of earlier runs cut off by a restart, which have no finish.
- Uploads.PartialIsAssembled: one request at a time for a key; two at once share a temporary file, and so do keys that differ only in extension.
- OrphanSafety.KnownFileIsLostExactly: assumes of the rest of the server that user ids hold no slash and that the artwork, souvenir, banner and avatar columns hold keys of their own area; the profile address is mirrored from the official account (src/auth.rs:180-206), and nothing is assumed of it.
- OrphanScan.FindOrphans: the scan's list of missing files, its byte totals and its sorting by size are not modelled.
- SouvenirHistory.SyncRepeatsLater: where a souvenir is filed (shop and object id) may follow a later sync of the same game.
- RateLimit.LoginGuard.RecordFailure: the failure counter is unbounded, where the source has 32 bits.
- OrphanReport.FreedIsGone: a path is a file or a folder, not both; a folder's length is whatever the file system says.
- AchievementPicks.MergedIsFirstEarliest: unlock times are 64-bit, as the source reads them.
- QuotaDeclared.OpeningDecidedExactly: for quotas below 2^63 - 1, from where the server's sums saturate.
- CloudStore.Server.CommitSnapshot: the manifest is read in its own order, where the query's DISTINCT fixes none; what a failed commit has registered by then depends on it, the invariant does not.
- CloudStore.Server.PrepareSnapshot: the quota's answer is a parameter, and so is that of the checks on the shape of hashes and of state metadata.
- CloudStore.Server.DeleteFiles: how a hash is written as text is a parameter; that it is written as an ordinary file name is assumed where it matters (`CloudBacking.PlainRows`).
- Statement-level interleaving: handlers are atomic, so a collector running between a commit's statements is not covered, and neither is the file a collector deletes while it is being read.
- Emulation save slots and legacy backups, beyond their uploads' share of the quota: what remains is single-branch.
- HTTP, tokens, JSON shapes, events, webhooks and metrics: a request arrives parsed and authorized.
- SQLite, the file system and chrono as libraries: RFC 3339 text order of times, dates chrono cannot represent, links and case-insensitive disks.
- Unicode: trimming, upper-casing and the normalising of display names are arbitrary functions; `CombinedPairs` assumes of the last only that, keeping letters and digits, it never gives a text that begins with `name:`.
- Souvenir visibility, likes, reports and listings, and the primary achievement column, which repeats the first name.
- The gathering of unlocks and pictures for the combined view, which are inputs of it.
- Conditions, event lookups and task bodies of the scheduler: their answers are parameters.
- Account deletion and database restore, which rest on foreign-key cascades.
- Random ids may clash only where the source checks for it: Cloud Save ids are never reused, souvenir ids may clash and are then refused.
