# Habeny: a verified model of its state machines and codecs

Habeny deploys LXC containers that run SIEM agents. Around the containers it keeps state that has to
survive crashes, graceful stops, restarts and concurrent requests: a deployment scheduler, a hash-chained
audit log, a write-through store of jobs and schedules, schema migrations, sign-in state, license files, a
small wire protocol, metrics and alerts. This project models those parts in Dafny and proves what they keep
over every run.

`dafny verify dfyconfig.toml` checks everything. Each module is one component:

| module | component | shape |
|---|---|---|
| `Deployment`, `Lifecycle`, `Progress` | the scheduler loop, the stop flag and its deadline, the job ledger | classes proved against step functions on a state value |
| `Audit`, `AuditFilter` | the hash chain, pruning and verification; search filters | a class over the tables, lemmas over logs |
| `Records`, `LogSchedules` | the persistent dict; recurring uploads across restarts | a class with memory, digest cache and table; one state machine per schedule |
| `Migrations`, `SyslogTargets` | schema stepping; data migration 9 | classes over a database, functions on tables |
| `Totp`, `Challenges`, `RateLimiter` | second factor, sign-in challenges, login limiter | classes, and runs against full histories |
| `Licensing`, `Base64Url`, `Protocol`, `Quoting`, `Escaping` | codecs | functions; the socket is a class |
| `Telemetry`, `Alerts` | metrics and alert episodes | classes proved against their histories |

Digests are constructors, so equal digests mean equal content. Signatures, JSON and HMAC are parameters.
Clocks are integers or reals handed to each call; threads and processes act in atomic steps. SQLite is maps
and sequences of rows whose transactions are atomic.

## Where the code and its promises differ

The model follows the code. Each point has a lemma that says exactly when the promise holds.

- Every container gets its result, and the ledger reaches its total, if and only if no pass of the scheduler
  finds the process pool refusing a submission. A killed worker process breaks the pool; the next submission
  then raises out of the loop, and what is queued is never recorded (`Deployment.Scheduler.Run`,
  `Deployment.KilledWorkerLosesTheRest`).
- A graceful stop and a crash leave the same schedules to resume if and only if no ending waits to be flushed and
  nothing ends a schedule that is still going while the process winds down
  (`LogSchedules.GracefulStopAgainstCrash`). The crash alone undoes an unflushed ending
  (`LogSchedules.UserStopIsUndone`). The stop alone loses a schedule that a last check or an error ends
  (`LogSchedules.LastCheckCompletes`), and, of those that no check and no error ends, exactly the ones whose task
  had not made its first step, makes it before its cancellation arrives and is then cancelled
  (`LogSchedules.OnlyFreshSchedulesAreLost`, `LogSchedules.FreshScheduleIsLost`).
- A resumed schedule ends at created_at + duration plus the time its latest launch waited for its first step
  (`LogSchedules.CompletesAtItsDeadline`).
- `verify` alone does not notice that the newest audit entries were cut off; the head hash in the server log
  does (`Audit.RemovalDetectedUnlessNewest`, `Audit.HeadPinsTheLog`).
- The audit prefix filter ignores the case of ASCII letters, the exact filter does not
  (`AuditFilter.WhereIsExact`). Bounds are compared as texts: an `until` moment leaves out the entries of its own
  second, whose stamps carry an offset after it (`AuditFilter.MomentMissesItsOwnSecond`).
- `downgrade` does not refuse a database newer than the program: it may report success without reaching the
  target, or write a history that is not a walk (`Migrations.DowngradeOutcome`).
- A message sent with file descriptors is handed to the kernel once, so a part of it may be all that arrives; the
  receiver then reports a closed connection, never another message (`Protocol.ExchangeWithFds`).
- Undoing migration 9 drops destinations with an empty address (`SyslogTargets.AllComeBack`).
- After exactly `Retry-After` seconds a sign-in is still refused unless less than a second was left; one more
  second is always enough (`RateLimiter.OneMoreSecondIsEnough`).
- A line break in the id or customer of a license spoils the file that `install` writes
  (`Licensing.InstalledFileReadsBack`, `Licensing.LineBreakSpoilsTheFile`).
- `install` raises for a license that expires in the last fourteen days of the calendar, although its status would
  be active (`Licensing.AcceptedExactlyWhenAllowed`, `Licensing.LastDayIsRefused`).
- The JSON escape is exact only for messages without control characters other than newline, carriage return
  and tab (`Quoting.QuotingRoundTrip`).

## Model

| member | source | states |
|---|---|---|
| Deployment.WorkerCount | app/services/deployment.py:93-94 | one when sequential; otherwise the smaller of the setting and the containers, and at least one |
| Deployment.Scheduler.Record | app/services/deployment.py:128-143 | a result is stored with its warning and its ledger update |
| Deployment.Scheduler.StopStep | app/services/deployment.py:157-167 | a stop cancels everything queued, in order; past the deadline it takes everything running as done, and only then |
| Deployment.Scheduler.SubmitFree | app/services/deployment.py:168-173 | hands out queued containers in order while a worker is free; raises exactly when the pool refuses one it took off the queue |
| Deployment.BrokenTakesOne | app/services/deployment.py:168-173 | a refused submission costs the one container taken off the queue; those before it went to workers, those after it stay queued |
| Deployment.HandOutFrame | app/services/deployment.py:151-173 | pending never exceeds the workers; handing out stops only when nothing is queued or every worker is busy; the sum of queued and pending stays |
| Deployment.Scheduler.Wait | app/services/deployment.py:174-176 | exactly the futures reported and finished leave pending; every container stays in exactly one place |
| Deployment.FinishedExactly | app/services/deployment.py:174-176 | a future leaves pending exactly when it is reported and had ended before or ended meanwhile |
| Deployment.Scheduler.Drain | app/services/deployment.py:118-126 | messages are relayed in order until the queue is empty or the relay is gone |
| Deployment.RelaysInOrder | app/services/deployment.py:118-126 | the first messages in the queue, as many as the relay lets through, each become a line of the job, in order; nothing stays in the queue |
| Deployment.RelayedShow | app/services/deployment.py:118-126 | the containers with a message relayed, and those that did before, show as running, and no others |
| Deployment.DrainLedger | app/services/deployment.py:118-126 | a running message cannot revert a final status, because a worker's messages precede its completion |
| Deployment.Scheduler.RecordDone | app/services/deployment.py:178-188 | each future done is recorded once, with its outcome, its exception, or as interrupted when it still ran |
| Deployment.Tells | app/services/deployment.py:128-193 | from the executor alone: which results are successes, what each result, cancelled and interrupted ones included, says, that every other one has its warning, in order, with the first error there is, and that with distinct names the job counts and shows exactly these |
| Deployment.Scheduler.Iterate | app/services/deployment.py:155-188 | one pass leaves queue, pending, submitted names and workers exactly where the stop flag, the pool and the workers put them; it keeps conservation, exactly-once, faithfulness and the ledger; it raises exactly when a submission is refused, and then records nothing |
| Deployment.PassMeasure | app/services/deployment.py:155-188 | twice queued plus pending strictly decreases in every pass that does not only wait, and a pass only waits while something is pending |
| Deployment.HandedOutIs | app/services/deployment.py:168-173 | handing out one by one comes to supplying as many containers as there are free workers |
| Deployment.Scheduler.Run | app/services/deployment.py:145-193 | over any passes, each beginning where the one before and what it saw put it: the loop ends with one result for each container, and a full ledger, if and only if no pass that was reached finds the pool refusing a submission; it raises in exactly the first such pass, and leaves as many containers without a result as were pending or queued when that pass began; whatever happened, a result is a success if and only if its container's call returned one, a call that raised leaves a failure with its text, and successes, warnings and the job's counters and containers agree; nothing is handed out in or after a pass that sees the stop; busy passes are bounded by the measure; a pass that sees the deadline ends it |
| Deployment.ChainIsUnique | app/services/deployment.py:155-188 | where every pass begins is determined by where the loop begins and what its passes see |
| Deployment.StopIsFinal | app/services/deployment.py:157-167 | once a pass sees the stop nothing is queued or handed out any more; once one sees the deadline the loop is over |
| Deployment.KilledWorkerLosesTheRest | app/services/deployment.py:168-188 | a run in which a killed worker costs the next container its result |
| Deployment.Accounted | app/services/deployment.py:151-188 | between passes, queued plus pending plus recorded is the number of containers asked for |
| Deployment.RelayedKeeps | app/services/deployment.py:118-126 | relaying, cut short or not, keeps the whole invariant, so no message touches a container that has its result |
| Deployment.AllRecorded | app/services/deployment.py:155-193 | with nothing queued, pending or done, results name exactly the containers asked for and completed equals successful plus failed equals the total |
| Deployment.RecordKeeps | app/services/deployment.py:128-143 | recording one done future moves it from done to recorded and keeps the invariant |
| Deployment.CancelAllResults | app/services/deployment.py:162-164 | cancelled containers get one cancelled result each, in order, and nothing else changes |
| Deployment.Permuted | app/services/deployment.py:145-193 | results taken at distinct positions that cover all names are a permutation of them |
| Lifecycle.Shutdown.BeginShutdown | app/services/lifecycle.py:38-51 | only the first request sets the deadline and runs the hooks |
| Lifecycle.StopsInTime | app/services/lifecycle.py:38-62 | for any number of stop requests at any times and any passes before: a deployment is over after its first pass at or past the first request's deadline, whatever workers and relay do in it, every container accounted for unless the pool broke earlier |
| Lifecycle.NoneIsAbandonedInTime | app/services/lifecycle.py:54-62 | before the deadline of the first request no worker is given up, whatever passes the loop makes |
| Progress.UpdateBalance | app/services/deployment.py:52-72 | a status update keeps completed, successful and failed equal to what the containers say if and only if the container had no final status |
| Progress.UpdateSettles | app/services/deployment.py:66-72 | the containers in a final status after an update are those before it, and this one if its new status is final |
| Progress.LineKeepsLedger | app/services/deployment.py:61-69 | a line without a status changes no final status and no counter |
| Progress.JobListsItsEntries | app/services/deployment.py:52-72 | a job's lines are its entries in order, and its counters the final statuses they give |
| Progress.ShowsTheLastStep | app/services/deployment.py:63-65 | a container's step is the message of the last entry about it |
| Progress.ShowsTheLastStatus | app/services/deployment.py:66-67 | its status is the last one given |
| Progress.ShowsTheLastError | app/services/deployment.py:68-69 | its error is the last one given |
| Progress.ShowsNothingElse | app/services/deployment.py:62-63 | a container no entry is about is not there; without a status it is pending, without an error it shows none |
| Progress.BalancedCompleted | app/services/deployment.py:70-72 | completed is the number of containers in a final status |
| Progress.StartKeepsRunningJobs | app/services/deployment.py:31-49 | after a start at most the limit remains or every job is running; no running job is dropped and never more than needed |
| Progress.StartForgetsTheOldest | app/services/deployment.py:46-49 | what is dropped is the oldest finished jobs |
| Progress.Registry.Start | app/services/deployment.py:31-49 | the loop of pops computes exactly that |
| Progress.Registry.Finish | app/services/deployment.py:75-82 | the job gets its line, then its final outcome |
| Progress.RunsUntilFinished | app/services/deployment.py:31-82 | over any run of the registry a tracked job has the size of its last start and is running exactly until it is finished |
| Progress.KeepsItsOutcome | app/services/deployment.py:75-82 | a finished job has the outcome it was finished with last |
| Progress.JobIsItsEntries | app/services/deployment.py:31-82 | but for its end, a tracked job is what the entries addressed to it since its last start make of a new job |
| Audit.Trail.Append | app/services/audit.py:59-75 | adds the entry after the head, or after the anchor when everything was pruned |
| Audit.Trail.Prune | app/services/audit.py:256-276 | removes the entries up to the newest old one and keeps its id and hash as anchor; the dry run counts the same and changes nothing |
| Audit.Trail.Verify | app/services/audit.py:224-253 | ok exactly for intact logs; otherwise names the first entry that does not follow, and why |
| Audit.SameHashSamePast | app/services/audit.py:40-45 | two intact logs that share a hash share every entry up to it |
| Audit.TamperingChangesEveryLaterHash | app/services/audit.py:40-45 | a rewrite that still verifies has other hashes from the change to the head |
| Audit.HeadPinsTheLog | app/services/audit.py:98-102 | a table that verifies and ends in the recorded head hash is the log itself |
| Audit.RemovalDetectedUnlessNewest | app/services/audit.py:234-238 | removing one entry fails verification if and only if it is not the newest |
| Audit.EditDetected | app/services/audit.py:239-246 | a replaced entry verifies only at the end and only as the log itself would have written it |
| Audit.RearrangementDetected | app/services/audit.py:234-246 | entries put in another order, left out or repeated under contiguous ids verify if and only if each is where it was |
| Audit.ReorderDetected | app/services/audit.py:234-246 | two entries that exchange ids leave a table with proper ids that fails verification |
| Audit.PruneKeepsIntact | app/services/audit.py:256-276 | a pruned log is an intact tail with the same head, even when times are out of order |
| Audit.PruningIsInvisible | app/services/audit.py:59-75 | over any run, what is kept is the tail of the log never pruned: same ids, hashes and head |
| Audit.EveryRunVerifies | app/services/audit.py:224-253 | every run from the empty log verifies, with ids counted from the anchor |
| AuditFilter.PrefixPatternExact | app/services/audit.py:118-121 | escaped prefix plus percent matches exactly the texts that start with the prefix |
| AuditFilter.TextPatternExact | app/services/audit.py:138-140 | percent, escaped text, percent matches exactly the texts that hold the text |
| AuditFilter.UnescapedIsWrong | app/services/audit.py:144-145 | without the escape an underscore would match any character |
| AuditFilter.WhereIsExact | app/services/audit.py:116-141 | the clauses select exactly the events the filter's fields describe, a bare until date being the whole day, with bounds and stamps as moments |
| AuditFilter.MomentMissesItsOwnSecond | app/services/audit.py:134-137 | an entry stamped in the second of an until moment is selected if and only if nothing follows in its stamp |
| AuditFilter.DateBoundComparesDays | app/services/audit.py:131-137 | a bare date compares with the day of a stamp |
| Records.PersistentStore.SaveKey | app/services/records.py:87-115 | writes the row and the digest exactly when the serialized record differs from what was saved; a record changed meanwhile waits |
| Records.UpdatedAtTheLastChange | app/services/records.py:106-110 | over any run a row's updated_at is the time of the last operation that changed what the table holds for its key |
| Records.CreatedAtTheFirstWrite | app/services/records.py:106-110 | its created_at is the time the present row was first written, whatever was saved or restarted since |
| Records.PruneGoesByTheLastWrite | app/services/records.py:137-153 | so a prune drops a record if and only if it was last written before the bound and its row is not marked active |
| Records.SerializeStrips | app/services/records.py:46-49 | what is written is the record without its transient keys and with every other key as it is |
| Records.FlushCounts | app/services/records.py:117-124 | a flush counts the keys whose row it changes |
| Records.InterruptedWereGoing | app/services/records.py:64-85 | the ids a load returns are those of the records with an active status |
| Records.PersistentStore.FlushAll | app/services/records.py:117-124 | saves every key and counts those that changed |
| Records.PersistentStore.Load | app/services/records.py:54-85 | reads every row, interrupts what was running, saves what changed, and returns the interrupted ids |
| Records.PersistentStore.PruneOld | app/services/records.py:137-153 | forgets exactly the old rows not marked active, and counts them |
| Records.PersistentStore.Put | app/services/records.py:157-160 | assignment is saved at once |
| Records.PersistentStore.Delete | app/services/records.py:162-165 | deletes from memory, cache and table; a missing key is an error that changes nothing |
| Records.PersistentStore.Pop | app/services/records.py:169-177 | returns and deletes the record, or the default |
| Records.PersistentStore.SetDefault | app/services/records.py:179-183 | keeps what is there, otherwise stores and saves |
| Records.SavedSeqAt | app/services/records.py:117-124 | saving several keys gives each the row it would get alone, whatever the order |
| Records.FlushSyncs | app/services/records.py:117-124 | after a flush the table holds the serialized memory for every key |
| Records.LoadRecovers | app/services/records.py:54-85 | loading gives memory back with every running record, and no other, interrupted at that time with its status kept beside, a check cut off marked so, and nothing else touched; memory, cache and table are in step |
| Records.RecoveryIsStable | app/services/records.py:68-79 | a second restart changes nothing more |
| Records.FlushThenRestart | app/services/records.py:46-85 | a restart after a flush loses nothing but the transient keys |
| Records.PruneIsExact | app/services/records.py:137-153 | pruning keeps agreement and drops an active record only if its row is out of date |
| Records.EveryRunAgrees | app/services/records.py:32-177 | after any run of set, in-place change, delete, save, flush, prune and restart the digest cache describes exactly the rows |
| Records.DetachedWritesNothing | app/services/records.py:87-153 | before it is attached to a database a store is a dict: no operation touches a table |
| LogSchedules.ReloadedIsRecovered | app/services/records.py:64-79 | reloading a schedule is the store's recovery of its encoded record, without the task handle |
| LogSchedules.EncodesEachField | app/routes/logs.py:44-55 | a schedule's record holds each field under its own name, one not set not at all, and nothing else |
| LogSchedules.NotesChangeOnlyBy | app/services/logs.py:105-183 | which events change the runs, the last run and its error, the reason of an ending, the resumes and their time, and to what; a new process has what the row had |
| LogSchedules.RestChangesOnlyBy | app/services/logs.py:105-183 | which events change the row, the flags and the task; a second stop changes nothing |
| LogSchedules.CreatedHasDoneNothing | app/routes/logs.py:44-68 | a new schedule has done nothing yet, and its row is as its record |
| LogSchedules.RunSound | app/services/logs.py:105-183 | every run keeps: a live task belongs to a schedule not ended, its time left counts from its launch to the deadline, ended rows mean ended memory |
| LogSchedules.CompletesAtItsDeadline | app/services/logs.py:130-132 | however many restarts, a check completes exactly when the container is there and created_at plus duration plus the latest launch's delay is reached |
| LogSchedules.NeverEarly | app/services/logs.py:105-183 | no run completes a schedule before created_at plus duration, or an indefinite one at all |
| LogSchedules.RestartOutcome | app/services/logs.py:155-183 | a restart takes a schedule up again exactly when its row was alive and its time not over; a timed one whose time is over is completed |
| LogSchedules.FlushedEndIsFinal | app/services/logs.py:159-162 | once an ended status is in the table no run ever launches the schedule again |
| LogSchedules.UnflushedEndIsForgotten | app/services/logs.py:117-138 | an ending only in memory is undone by a crash, and not after a flush |
| LogSchedules.EndsExactly | app/services/logs.py:105-137 | which events end a schedule that is alive, both directions |
| LogSchedules.SurvivesEveryRestart | app/services/logs.py:155-183 | a schedule that nothing ends is taken up at every restart, an indefinite one always |
| LogSchedules.GracefulStopAgainstCrash | app/services/logs.py:144-152 | for every reachable state and any steps, checks, errors, cancellations and flushes before the last flush: a crash resumes exactly what the table has alive, a stop exactly what memory has alive and nothing ends while winding down; when the two agree, both directions |
| LogSchedules.WindingDown | app/services/logs.py:105-137 | a schedule alive in memory and table stays alive through such steps exactly when none of them is an ending one |
| LogSchedules.OnlyFreshSchedulesAreLost | app/services/logs.py:105-152 | without an ending check or error, a stop loses exactly the schedules whose task begins after it and is then cancelled |
| LogSchedules.UserStopIsUndone | app/routes/logs.py:85-88 | a run in which a crash brings a stopped schedule back and a stop does not |
| LogSchedules.LastCheckCompletes | app/services/logs.py:123-132 | a run in which the time is up at a check after the stop: completed by the stop, resumed after a crash |
| LogSchedules.FreshScheduleIsLost | app/services/logs.py:105-135 | a run in which a stop loses a schedule and a crash does not |
| LogSchedules.LoopsUntilTheFirstEnd | app/services/logs.py:112-132 | undisturbed, the loop uploads once a turn until the first turn that finds the container gone or the time up |
| LogSchedules.Schedules.Create | app/routes/logs.py:22-64 | refuses without license, container, interval of five seconds or duration, in that order; otherwise starts the schedule |
| LogSchedules.Schedules.RunLogSchedule | app/services/logs.py:105-132 | the coroutine's loop computes those turns and touches no other schedule |
| LogSchedules.Schedules.CancelTask | app/services/logs.py:133-135 | a cancelled loop keeps "interrupted" and otherwise ends stopped; a task that never began runs nothing |
| LogSchedules.Schedules.StopLogSchedule | app/routes/logs.py:85-88 | cancels the task and marks the schedule stopped |
| LogSchedules.Schedules.InterruptForShutdown | app/services/logs.py:144-152 | every schedule takes its stop step |
| LogSchedules.Schedules.ResumeLogSchedules | app/services/logs.py:155-183 | every schedule takes its resume step at its own time; the count is the tasks launched |
| LogSchedules.CountsTheLive | app/services/logs.py:155-183 | the count returned is the number of schedules with a task |
| Migrations.Database.Apply | app/migrations/__init__.py:204-213 | a migration, its history row and version commit together, or nothing changes |
| Migrations.Database.Migrate | app/migrations/__init__.py:183-216 | all pending steps done, or everything up to the one before the failed step; too new is refused; backs up first |
| Migrations.NewestTenStay | app/migrations/__init__.py:137-138 | of the backups the newest ten stay, in order |
| Migrations.Database.Downgrade | app/migrations/__init__.py:219-247 | steps down to the target, or stops before the one that raised; refusals change nothing |
| Migrations.MigrateKeepsTheWalk | app/migrations/__init__.py:175-216 | the version is the end of the walk the history records; a failure at v leaves v minus one |
| Migrations.DowngradeOutcome | app/migrations/__init__.py:219-247 | a downgrade reaches its target, and keeps the walk, if and only if the version was known or the target is on the right side of the latest |
| Migrations.EveryRunWalks | app/migrations/__init__.py:175-247 | through any run of migrations and downgrades by programs of any release the version is the end of the walk in the history, as long as no program undoes steps of a database too new for it |
| Migrations.ReportsWhatItRecords | app/migrations/__init__.py:183-247 | the migrations a command returns are exactly those it adds to the history, in order; a refusal changes nothing |
| Migrations.RefusesExactly | app/migrations/__init__.py:187-234 | which commands are refused and with which of the four reasons, both directions |
| Migrations.TooNewIsNotLowered | app/migrations/__init__.py:224-230 | a database one version ahead stays where it is while the downgrade reports success |
| Migrations.ClimbIsComposition | app/migrations/__init__.py:203-213 | a full migration is the composition of its steps |
| Migrations.DescendUndoesUps | app/migrations/__init__.py:230-243 | if each down undoes its up, going down gives back the schema the ups started from |
| Migrations.DowngradeThenMigrateRestores | app/migrations/__init__.py:183-247 | downgrade then migrate gives what migrate alone gives |
| SyslogTargets.FindUniqueName | app/migrations/v0009_syslog_targets.py:16-21 | ends, with the first candidate not in use |
| SyslogTargets.CandidatesRunOut | app/migrations/v0009_syslog_targets.py:16-21 | candidates differ, so no more can be taken than there are names |
| SyslogTargets.Database.Up | app/migrations/v0009_syslog_targets.py:24-43 | the loop moves every config onto its profile or a new one |
| SyslogTargets.UpSettlesEachConfig | app/migrations/v0009_syslog_targets.py:16-43 | over the whole migration: a profile sends to the first config that names it and has its address, with port 514 and tcp for what is missing; every config that is the first for none gets, in order, a profile with the key given for it, its description or the default, and its own name, or the first free one of that name with a suffix |
| SyslogTargets.Database.Down | app/migrations/v0009_syslog_targets.py:46-75 | writes one config for each profile with a port and an address |
| SyslogTargets.DownDescribesEach | app/migrations/v0009_syslog_targets.py:63-74 | in the order of the profiles, with the name, description and settings of each and tcp where it has no protocol |
| SyslogTargets.UpKeepsKeys | app/migrations/v0009_syslog_targets.py:16-43 | profile ids and names stay distinct |
| SyslogTargets.UpKeepsProfiles | app/migrations/v0009_syslog_targets.py:30-42 | existing profiles lose nothing and get at most one config; new ones are syslog only |
| SyslogTargets.UpLosesNothing | app/migrations/v0009_syslog_targets.py:24-43 | profiles with a port are, one for one, the old configs with port and protocol normalized |
| SyslogTargets.UpThenDown | app/migrations/v0009_syslog_targets.py:24-75 | undoing gives every destination with an address back as often as it was there |
| SyslogTargets.AllComeBack | app/migrations/v0009_syslog_targets.py:62-64 | all come back if and only if no address was empty |
| SyslogTargets.DownThenUp | app/migrations/v0009_syslog_targets.py:24-75 | undone and applied again in any order, each profile is as before if and only if its syslog settings are whole |
| Totp.CodeIsSixDigits | app/services/totp.py:31-36 | dynamic truncation stays in range and every code is six digits standing for it modulo a million |
| Totp.KindsAreDisjoint | app/services/totp.py:50-52 | no text is both an authenticator code and a recovery code |
| Totp.MatchingStepIsLeast | app/services/totp.py:47-60 | the least unused step within one of now whose code matches, none if there is none |
| Totp.FindMatchingStep | app/services/totp.py:47-60 | the loop finds it |
| Totp.AcceptedExactly | app/services/totp.py:144-155 | a step accepted matched, was near and unused when read and when written; a fitting code on an unchanged row is always accepted |
| Totp.Decides | app/services/totp.py:144-155 | what is typed passes as a recovery code if and only if it has ten letters and digits and is one of the user's, and as an authenticator code if and only if it answers a step and the first one it answers is still unused |
| Totp.AcceptedWasTyped | app/services/totp.py:144-155 | over every run each recovery code used was typed in some check, and each step accepted was typed within a step of its time under a secret that had been set |
| Totp.ShownIsTyped | app/services/totp.py:78-94 | a recovery code typed as it is shown, with its hyphen, is that code |
| Totp.StandardExample | app/services/totp.py:31-36 | the truncation gives the value of the example in section 5.4 of RFC 4226 |
| Totp.SingleUse | app/services/totp.py:144-155 | under any interleaving of checks on old rows, steps of an enrolment strictly increase and recovery codes are used at most as often as issued |
| Totp.NextKeepsSteps | app/db.py:672-680 | every request keeps the steps of an enrolment increasing |
| Totp.TimelyStep | app/routes/users.py:119-132 | an enrolment that reads an enabled row as it is changes nothing; a row is only enabled by an enrolment and stays so |
| Totp.StepsIncreaseBetweenDisablings | app/db.py:653-680 | with enrolments that decide on the row as it is, steps accepted between two disablings strictly increase over every run |
| Totp.RemoveFirstTakesOne | app/db.py:689-702 | using a code takes exactly one entry |
| Totp.UserRow.ClaimTotpStep | app/db.py:672-680 | true exactly when the step is later than the last one recorded |
| Totp.UserRow.UseRecoveryCode | app/db.py:689-702 | true exactly when the code was there, and takes one of it |
| Totp.UserRow.CheckSecondFactor | app/services/totp.py:144-155 | of an enabled user a text of ten letters and digits passes if and only if its hash is in the row, and then exactly that entry goes; any other passes if and only if it answers a step and the first it answers is later than the row's last, which it becomes; otherwise nothing changes |
| Challenges.ForgettingIsInvisible | app/services/totp.py:102-136 | at any time the store answers for any token what its whole history says: five minutes, fewer than five wrong codes, not finished |
| Challenges.ChallengeStore.UserFor | app/services/totp.py:117-123 | the user of a live challenge; an expired one is dropped |
| Challenges.ChallengeStore.CountFailure | app/services/totp.py:125-132 | counts a wrong code and drops the challenge at the fifth |
| RateLimiter.RecentIsTheWindow | app/services/auth.py:182-187 | popping from the front leaves exactly the failures inside the window |
| RateLimiter.PruningIsInvisible | app/services/auth.py:182-203 | the pruned queue decides every sign-in as the full history since the last reset would |
| RateLimiter.AtMostMaxInAnyWindow | app/services/auth.py:189-199 | no closed stretch as long as the window sees more than the limit of failures without a reset |
| RateLimiter.OneMoreSecondIsEnough | app/services/auth.py:189-195 | one second past the wait a client is allowed; after the wait itself if and only if less than a second was left |
| RateLimiter.LoginRateLimiter.Prune | app/services/auth.py:182-187 | the popping loop |
| RateLimiter.LoginRateLimiter.RetryAfter | app/services/auth.py:189-195 | zero exactly when allowed |
| RateLimiter.LoginRateLimiter.SignIn | app/routes/auth.py:133-151 | a request is refused at the limit, otherwise its failure is recorded; other clients are untouched |
| Licensing.DecodesExactlyLicenses | app/services/licensing.py:127-177 | a text decodes to a payload if and only if its token is three parts between two dots, the last being some built-in key's own signature of the rest as it stands, and the payload passes every check |
| Licensing.RefusedSignature | app/services/licensing.py:162-176 | of texts with three parts, those with a part that does not decode are damaged, and of the rest exactly those are refused for their signature that no built-in key made |
| Licensing.SignDecodeRoundTrip | app/services/licensing.py:145-177 | with the vendor's key built in, checking a signed license gives its payload back |
| Licensing.InstalledFileReadsBack | app/services/licensing.py:184-199 | the file written reads back as the license accepted if and only if its comment line adds nothing |
| Licensing.PlainCommentAddsNothing | app/services/licensing.py:195 | no line break in id and customer is enough for that |
| Licensing.LineBreakLandsInTheToken | app/services/licensing.py:153-155 | what follows a line break lands in front of the license |
| Licensing.LineBreakSpoilsTheFile | app/services/licensing.py:127-142 | a payload that passes every check and spoils its file |
| Licensing.Server.Install | app/services/licensing.py:184-199 | accepts a payload if and only if the text is a license for it, signed with a built-in key, for this server and within a grace whose end is a date; raises for those whose grace ends after the last date; anything else leaves the file alone; new work is then allowed on exactly the days the license would still be accepted, up to its container limit |
| Licensing.AcceptedExactlyWhenAllowed | app/services/licensing.py:190-191 | install accepts exactly what status_info would allow that day if and only if the grace ends within the calendar |
| Licensing.StateByDate | app/services/licensing.py:253-277 | on which dates a licensed server is active, expiring, in grace and ended, and that new work is allowed up to the fourteenth day after the last |
| Licensing.TrialByDate | app/services/licensing.py:279-297 | on which dates a trial allows new work, and how a problem with the file shows |
| Licensing.ReportsItsLicense | app/services/licensing.py:234-247 | a server reports a license exactly when its file is one made out to it, and is on trial otherwise |
| Licensing.LastDayIsRefused | app/services/licensing.py:190-191 | a license dated 9999-12-31 is refused while its status would be active |
| Licensing.RefusedStaysRefused | app/services/licensing.py:223-297 | with license and accounts fixed, new work refused stays refused on later days |
| Base64Url.RoundTrip | app/services/licensing.py:64-69 | unpadded decoding undoes encoding for all byte strings |
| Base64Url.PaddingRestored | app/services/licensing.py:68-69 | the padding put back is the padding taken off |
| Base64Url.DecoderIsNotInjective | app/services/licensing.py:162-168 | different texts can decode to the same bytes, so the text is what must be signed |
| Base64Url.NonAsciiIsRefused | app/services/licensing.py:68-69 | a text with a character outside ASCII never decodes |
| Protocol.FramingRoundTrip | app/helper/protocol.py:15-46 | the frame of a body parses back to it up to the size limit; a longer one is refused; a cut stream is an error |
| Protocol.Stream.RecvExact | app/helper/protocol.py:24-30 | exactly what was asked for under any chunking, or an error if the peer closed first |
| Protocol.Stream.RecvMessage | app/helper/protocol.py:33-46 | under any chunking, with a first read of any length, the message at the start of the stream |
| Protocol.Stream.SendMessage | app/helper/protocol.py:15-21 | puts the frame on the stream; together with descriptors at least its first byte and perhaps no more than a part; a body too long for the header is refused |
| Protocol.Exchange | app/helper/protocol.py:15-46 | what was sent is what is received, and a second message is received next |
| Protocol.ExchangeWithFds | app/helper/protocol.py:15-46 | a frame sent with descriptors is received as its body, or as an error when only a part of it was sent |
| Quoting.ShellWordRoundTrip | app/services/logs.py:38-39 | quote removal gives any text back |
| Quoting.JsonRoundTrip | app/services/logs.py:27-35 | JSON decoding gives the message back if and only if it holds no other control character |
| Quoting.QuotingRoundTrip | app/services/simulation.py:37-44 | both layers together |
| Quoting.BackslashMustComeFirst | app/services/logs.py:27-35 | in another order the escape is wrong |
| Escaping.ReplaceAllIsPerCharacter | app/services/logs.py:27-35 | a chain of global replacements equals one pass with a map on characters |
| Telemetry.ReadUndoesEscape | app/services/telemetry.py:32-33 | a scraper reads back any label value |
| Telemetry.LabelsRoundTrip | app/services/telemetry.py:25-33 | and any label set, so two series never share a line |
| Telemetry.AddToBuckets | app/services/telemetry.py:75-79 | the loop raises exactly the buckets whose bound the value does not exceed |
| Telemetry.KeepsOneMore | app/services/telemetry.py:71-79 | an observation keeps every series equal to the summary of its own observations and changes no other series |
| Telemetry.BucketsAreCumulative | app/services/telemetry.py:81-94 | rendered buckets never decrease and the last counts every observation |
| Telemetry.Histogram.constructor | app/services/telemetry.py:65-69 | the bounds are those of the program, ascending, and no series exists |
| Telemetry.Histogram.Observe | app/services/telemetry.py:71-79 | one more observation in the history, and the series still describe it |
| Telemetry.Histogram.Render | app/services/telemetry.py:81-94 | the samples are those of the history |
| Telemetry.Counter.Inc | app/services/telemetry.py:47-50 | each counter stays the sum of its own increments |
| Alerts.KeysAreConditions | app/services/alerts.py:43-45 | conditions share a key only if name and target are the same |
| Alerts.EveryRunFollows | app/services/alerts.py:53-72 | the notices about a condition are exactly those its own calls should cause, and it shows as active since the first fire of its open episode |
| Alerts.NoticesFormEpisodes | app/services/alerts.py:53-72 | notices form firing, changes of severity, resolved, again and again; the last is open exactly while the alert is active |
| Alerts.AlertManager.RaiseAlert | app/services/alerts.py:53-63 | a fire keeps the start of its episode and notifies at its start or a change of severity |
| Alerts.AlertManager.ClearAlert | app/services/alerts.py:65-72 | a clear resolves an open episode and is silent otherwise |

## Left out

- Deployment.Scheduler.Run: the loop runs over a finite sequence of passes given by the environment; workers that never answer simply give no further pass.
- Deployment.Scheduler.Drain: a relay that fails (EOFError, OSError) takes its queue with it; one that came back with old messages is not modelled.
- Deployment.Scheduler.SubmitFree: what the pool's exception does to the caller is not modelled; the loop's results are simply not returned.
- Deployment.Scheduler.RecordDone: a set of futures is visited in any order, as the program's set is; persisting a result into the agents table is not modelled.
- Audit.Trail.Verify: anchor and rows are read as one snapshot, and a digest is injective by construction; the program reads them in two statements.
- Audit.Trail.Append: the JSON text that is hashed is the constructor's arguments; the canonical form of details is not modelled, and the caller's transaction is atomic.
- AuditFilter.WhereIsExact: timestamps are seconds, not ISO texts, so the last second of an `until` moment is included here, and a `since` or `until` with another offset than the stamps' (say `+02:00`) is the moment it names, where the program compares its text; paging and export only select from these rows.
- Records.PersistentStore.SaveKey: JSON serialization is injective; a record that changes while it is written is a flag of the call.
- Records.PersistentStore.Load: times are integers; rows are read in any order, not only by creation.
- LogSchedules.Schedules.RunLogSchedule: what each turn finds is an input; an absent last_run and one that is None are the same, and a failed upload always has an error text.
- LogSchedules.Schedules.Create: whether the user may see the container is part of its being present; upload content and interval are not kept.
- LogSchedules.RunSound: one schedule at a time; schedules share no state but the clock.
- Migrations.Database.Migrate: versions are not negative, and a failing history insert is a failing migration; restore and the file copies behind backups are not modelled beyond keeping the newest ten.
- SyslogTargets.Database.Up: configs come in the order of the query; lower case is that of ASCII letters; times, the agents table and the columns no step reads are left out; new keys are parameters.
- Totp.FindMatchingStep: digits and letters are ASCII, and a step before 1970 is a number like any other.
- Totp.SingleUse: what a request read is any earlier row; the password checks around enrolment are not modelled.
- Totp.StepsIncreaseBetweenDisablings: enrolments decide on the row as it is, because their handlers run on one event loop without awaiting; `LateCheckBreaksTheOrder` shows what a check on an older row could do if handlers ran concurrently.
- RateLimiter.AtMostMaxInAnyWindow: a request checks and records without another in between, as the event loop runs it.
- RateLimiter.LoginRateLimiter.SignIn: a successful sign-in is the separate reset.
- Licensing.SignDecodeRoundTrip: signatures are ideal: a key accepts exactly what its holder signs; JSON printing and parsing undo each other.
- Licensing.Server.Install: file permissions and the temporary file are not modelled; dates are day numbers up to 9999-12-31, the first account's date is a field, and a trial that would end after that day is not refused.
- Protocol.Stream.RecvMessage: the body is bytes, its JSON and the file descriptors that come along are not modelled; with descriptors wanted, bytes past the message that came with its first read are dropped, as in the program.
- Telemetry.Histogram.Render: sums are exact reals, not rounded floats, and number formatting is not modelled.
- Telemetry.LabelsRoundTrip: label names hold no equals sign, as Prometheus requires.
- Alerts.AlertManager.RaiseAlert: details and links are not modelled, and a notice is sent in the same step as the change; the sorted list of active alerts is left out.
- Lifecycle.Shutdown.BeginShutdown: hooks are counted, not run; a hook that raises is logged and changes nothing here.
- Simulations, benchmarks, reports, host relay, tenancy, OIDC, notification channels, routes, the CLI and the frontend: plumbing around these parts or libraries.
- LXC, installers, shell scripts and the helper's server: foreign effects; deploying one container is any result at any time.
- Container quotas under concurrent deployments: the program checks a snapshot taken before recording, so no bound holds over a run.
- Role comparison, password rules, setting parsers, percentile picking, per-second splitting: true but easy.
