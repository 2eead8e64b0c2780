# Verified model of dbtether's retention, credentials, backup and PostgreSQL logic

dbtether is a Kubernetes operator that manages databases, users and backups on PostgreSQL clusters. This project
models the parts of it that are algorithms or protocols, and proves what they keep:

* **Retention** (`Decimal`, `Calendar`, `Stamp`, `Retention`, `RetentionLaws`, `RetentionRuns`): from the text of a
  timestamp and the Gregorian and ISO-week calendar, through the loops that mark files to keep, to whole runs in which
  uploads, retention passes and refused deletions are mixed.
* **Credentials** (`SecretData`, `Credentials`, `UserReconciler`): the order of writes to PostgreSQL and to the Secret.
* **Backups** (`BackupJobs`, `BackupReconciler`, `Schedule`): Jobs, status patches, throttling and cron ticks.
* **PostgreSQL** (`Ownership`, `Access`, `Privileges`, `ClientCache`, `Password`): ownership comments, CONNECT grants,
  privilege presets, the shared cache of clients and the password generator.

`Wrappers`, `Outcomes` and `Collections` hold what several of these need.

A protocol appears twice. A machine over values (`Credentials`, `BackupJobs`, `Schedule`, `Ownership`, `ClientCache`)
takes one atomic step at a time; crashes, lost answers, other parties and other threads are actions of the same
machine, so its theorems hold between any two writes. Beside it a class (`UserReconciler.Reconciler`,
`BackupReconciler.Reconciler`, `Schedule.BackupScheduleReconciler`, `Ownership.Server`, `ClientCache.Cache`) does what
the program does, call by call on its fields, and each uninterrupted call is proved to be a run of the machine.

Time is an unbounded number of nanoseconds in UTC. The outside world answers through parameters: which calls fail, which
take effect without the caller learning of it, which statements the server refuses, and the tape of random numbers.

Some statements that one would expect of the code are false of it. Each has a lemma that exhibits the failing case, and
where possible a lemma that says exactly when the code does meet the expectation:

* Monthly retention that runs on the last days of a long month can delete a file that the next day's pass would keep
  (`MarchEndLosesBackup`; exactly when: `HarmlessPassTimes`).
* `keepDaily: N` can keep N + 1 files (`DailyBoundIsReached`), although docs/crds/backupschedule.md says up to N; it
  stays within N exactly when one of the N + 1 days is without a file, and likewise for weeks and months
  (`BoundIsExact`). The code keeps the newest file of each day, week and month, as that document says; the comments in
  pkg/backup/retention.go speak of the first.
* The prefix that is listed has no final slash, so a database's cleanup also sees the files of databases whose names
  start with its name (`PrefixCoversSiblings`).
* Timed rotation together with a failed read in the early exit can leave PostgreSQL and the Secret with different
  passwords (`SafetyIsExact`).
* An own Secret whose list and primary database are current keeps an outdated host or port (`UpdateHoldsFieldsIff`).
* Deleting the Backup of a tick that is not yet recorded makes the schedule back it up twice
  (`DeletionThatRepeatsATick`).
* An edited spec turns a Completed Backup whose Job is gone into a Failed one (`EditedSpecUndoesCompletion`).
* A Running Backup can lack its run id (`RunIDCanBeLost`): exactly when the create call that made its Job was answered
  with AlreadyExists (`RunIDIsRecordedIff`).
* A Backup can be Completed although none of its Jobs succeeded (`CompletionCanMislead`), after a repeated run id:
  exactly when the Job that is judged has other labels and no own one succeeded before (`CompletionIsHonestIff`).
* Deleting a Database resource that is not the recorded owner, or losing the comment on a new database, lets two
  resources claim one database (`StrangerReleaseBreaksOwnership`, `LostCommentBreaksOwnership`); exactly which steps do
  so is `StepKeepsBackedIff`, and that these are the steps after which exclusivity is lost is
  `HarmlessIffExclusiveAfter`.
* Overlapping calls of the client cache for one name can leave a client open for ever (`OverlapLosesAClient`; exactly
  when an insert finds an entry: `NothingIsLostIff`, `LeakIff`) or close a fresh one (`OverlapClosesAFreshClient`;
  exactly when another client was inserted since the lookup and is still there: `ClosesAnotherIff`).
* Lowering a privilege preset, by any number of steps, takes back only the right to create in the schema
  (`LoweringKeepsGrants`); presets applied one after the other add up (`ApplyingTwiceAddsUp`).

## Model

| member | source | states |
|---|---|---|
| Calendar.IsoWeekIdentifies | pkg/backup/retention.go:186-187 | ISO year and week number together are equal exactly for days of one Monday-based week (ISO 8601:2004, section 2.2.10) |
| Calendar.January4IsInWeekOne | pkg/backup/retention.go:186 | The week numbers are those of ISO 8601: January 4 always lies in week 1 of its year |
| Calendar.MonthTextInjective | pkg/backup/retention.go:207 | Two months with one "2006-01" text are the same month, for years of any size and sign |
| Calendar.WeekTextInjective | pkg/backup/retention.go:187 | Two weeks with one "%d-W%02d" text are the same week |
| Calendar.DateTextInjective | pkg/backup/retention.go:166 | Two days with one "2006-01-02" text are the same day |
| Calendar.AddDaysIsShift | pkg/backup/retention.go:159 | Adding days through year, month and day with normalisation is a shift by whole days |
| Calendar.MonthsBack | pkg/backup/retention.go:200 | Subtracting months keeps time and day of the month, or runs over into the next month by the days that are too many |
| Calendar.MonthLengths | pkg/backup/retention.go:200-207 | Every month has its Gregorian length, leap years included |
| Calendar.WeeksBeginOnMonday | pkg/backup/retention.go:186 | A new week begins exactly on the Mondays, fixed by January 1, 2024 |
| Stamp.FindFrom | pkg/backup/retention.go:220-226 | The result is the leftmost place where the pattern matches, and none if it matches nowhere |
| Stamp.ParseOfText | pkg/backup/runner.go:65-74 | Every second of the years 0 to 9999 is read back from the timestamp the runner prints |
| Stamp.TextOfParse | pkg/backup/retention.go:228 | The parser accepts nothing but what the printer writes, so parsing is injective |
| Stamp.SlashEndsMatch | pkg/backup/retention.go:220 | No timestamp match extends over a slash |
| Stamp.TrailingSlashIsIgnored | pkg/backup/runner.go:86 | A slash at the end of the path makes no difference to the key |
| Stamp.WrittenKeyIsDated | pkg/backup/runner.go:76-86 | A key written under a directory without timestamp-like parts is dated with the second in which it was written, with any text before the timestamp in which, read on into the timestamp, no match begins |
| Stamp.KeyOrderIsTimeOrder | pkg/backup/runner.go:72-86 | Under one directory and after one text, key order is time order, in both directions |
| Retention.BucketTextIdentifies | pkg/backup/retention.go:166-207 | The text under which a file's day, week or month is remembered is equal exactly for files of one day, week or month |
| Retention.ListBackupFiles | pkg/backup/retention.go:102-130 | The loop yields the dated files of the listing in listing order; which ones and with what time is ListedExactly |
| Retention.SortNewestFirst | pkg/backup/retention.go:64-67 | The result is newest first and a permutation; nothing is promised about equal times |
| Retention.ApplyKeepLast | pkg/backup/retention.go:145-152 | Exactly the first keepLast keys of the list are added, none if the number is unset, zero or negative |
| Retention.OneMoreFile | pkg/backup/retention.go:162-171 | A file has an unseen text exactly when it is the first of its bucket at or after the cutoff |
| Retention.ApplyBucketRule | pkg/backup/retention.go:154-213 | Exactly the first file of each day, week or month at or after the cutoff is added, none if the rule is off |
| Retention.CalculateKeepSet | pkg/backup/retention.go:132-142 | The keep set is the union of the four rules |
| Retention.ApplyRetention | pkg/backup/retention.go:44-87 | No policy deletes nothing, a failed listing is an error, otherwise the result is what some newest-first order leaves over |
| RetentionLaws.KeptKeysAre | pkg/backup/retention.go:132-213 | A key is kept exactly when it is among the keepLast newest or is the newest of its day, week or month not before the cutoff |
| RetentionLaws.RestAre | pkg/backup/retention.go:72-78 | The keys to delete are exactly the listed keys that are not kept, each once |
| RetentionLaws.DoomedExactly | pkg/backup/retention.go:60-87 | Every key to delete is kept by no rule, every key kept by no rule is deleted, and none is named twice |
| RetentionLaws.ListedExactly | pkg/backup/retention.go:108-127 | The files are exactly the listed objects with a time: that of the first timestamp in the name, whatever the storage says; without a date there, the modification time unless it is the start of the year 1 |
| RetentionLaws.WrittenFileIsListed | pkg/backup/retention.go:110-124 | A file that the runner wrote is listed with the second of its writing for every modification time |
| RetentionLaws.OtherFileIsListed | pkg/backup/retention.go:112-120 | An object without a date in its name is listed with its modification time, and not at all exactly if that is the zero time |
| RetentionLaws.KeptSpelledOut | pkg/backup/retention.go:145-213 | Written out over days, Monday-based weeks and months: among the first keepLast, or first of its day within keepDaily days, of its week within keepWeekly weeks, or of its month since keepMonthly months ago |
| RetentionLaws.DailyAndWeeklyCutoffs | pkg/backup/retention.go:159-179 | The cutoffs are exactly N days and 7 N days before now |
| RetentionLaws.UndatedObjectsStay | pkg/backup/retention.go:109-120 | An object with no date in its name and the zero modification time is never among the keys to delete, whatever the policy |
| RetentionLaws.CutoffFalls | pkg/backup/retention.go:159-200 | A larger number never moves a cutoff forward, the month overflow included |
| RetentionLaws.RaisingKeepsMore | pkg/backup/retention.go:132-213 | Raising or switching on any number of the policy never gives up a kept file |
| RetentionLaws.MonthCutoffInWindow | pkg/backup/retention.go:200 | Month overflow never moves the cutoff before the target month |
| RetentionLaws.KeptAtMost | pkg/backup/retention.go:132-213 | Without files from the future at most keepLast + (keepDaily+1) + (keepWeekly+1) + (keepMonthly+1) files are kept, counting active rules only |
| RetentionLaws.DailyBoundIsReached | pkg/backup/retention.go:155-172 | keepDaily N does keep each of N + 1 files made exactly one day apart |
| RetentionLaws.WeeklyBoundIsReached | pkg/backup/retention.go:175-193 | keepWeekly N does keep each of N + 1 files made exactly one week apart |
| RetentionLaws.BoundIsExact | pkg/backup/retention.go:154-213 | A rule of N keeps at most N files exactly when one of the N + 1 days, weeks or months up to now has no file at or after the cutoff |
| RetentionLaws.SecondPassDeletesNothing | pkg/backup/retention.go:64-87 | A second pass at the same time over the survivors deletes nothing, whatever order the unstable sort gives equal times in either pass |
| RetentionRuns.ObjectStore.DeleteFiles | pkg/backup/retention.go:90-100 | Exactly the named keys that the storage does not refuse are gone; a refusal does not stop the rest |
| RetentionRuns.ObjectStore.ExecuteRetentionCleanup | controllers/backup/schedule_controller.go:312-328 | Nothing outside the prefix is deleted, nothing at all if listing fails; of files with distinct times exactly those go that the set-based policy does not keep and the storage does not refuse |
| RetentionRuns.KeptAtIsKeeps | pkg/backup/retention.go:145-213 | Position and list prefix in the loops say the same as a definition on sets: fewer than keepLast newer files, or no newer file in the bucket |
| RetentionRuns.DoomedAreVictims | pkg/backup/retention.go:44-87 | Of files with distinct times the loops delete exactly those that the set-based policy does not keep |
| RetentionRuns.KeptOfStoreIsKeptOfAll | pkg/backup/retention.go:132-142 | If nothing that the policy keeps of all files is missing, applying it to the files that are left keeps the same files |
| RetentionRuns.NothingWantedIsLost | pkg/backup/retention.go:44-100 | In any run of uploads, passes and refused deletions, the store always holds what the policy would now keep of everything ever uploaded |
| RetentionRuns.IncrementalIsOffline | pkg/backup/retention.go:44-100 | After a pass without a refused deletion the store holds exactly what one application to the whole history would leave |
| RetentionRuns.ForwardTimesAdvance | pkg/backup/retention.go:159-200 | Daily and weekly cutoffs only move forward; the monthly one does from every moment at which it stays in its month |
| RetentionRuns.EarlyDaysStayInMonth | pkg/backup/retention.go:200 | On days 1 to 28 every monthly cutoff stays in its month |
| RetentionRuns.MonthlyExactness | pkg/backup/retention.go:196-213 | Two monthly passes agree with one look at the whole history exactly when the cutoff does not move back |
| RetentionRuns.HarmlessPassTimes | pkg/backup/retention.go:196-213 | A pass is harmless to all later passes exactly when subtracting the months does not run over the end of the target month |
| RetentionRuns.MarchEndLosesBackup | pkg/backup/retention.go:200 | With keepMonthly 1 a pass on March 31 deletes a file that a pass on April 1 would keep |
| RetentionRuns.PrefixCoversSiblings | controllers/backup/schedule_controller.go:448-450 | The default prefix of a database covers the default keys of another one exactly when its name is a prefix of the other name |
| SecretData.BuiltInKeysAreFine | controllers/databaseuser_controller.go:191-209 | In all built-in templates the five values and the list have entries of their own |
| SecretData.PasswordSurvivesEdits | controllers/databaseuser_controller.go:565-884 | Create, adopt, merge and rotate store the password; the update of the other fields leaves it alone |
| SecretData.WritesHoldFields | controllers/databaseuser_controller.go:565-884 | After create, adopt, rotate and merge every value stands under its key and the list exactly if it is wanted; rotate and merge leave all other entries alone |
| SecretData.UpdateHoldsFieldsIff | controllers/databaseuser_controller.go:659-701 | After an update every value is right exactly if it was before or the list or primary database was out of date, so a changed host alone is not written |
| SecretData.UpdateIsSafeIff | controllers/databaseuser_controller.go:659-701 | The update of the other fields never touches the password exactly when its key differs from the other four and from "databases" |
| SecretData.SecretObject.UpdateDatabases | controllers/databaseuser_controller.go:659-701 | Nothing is written when list and primary database are up to date; otherwise the fields are set and a stale list goes |
| SecretData.SecretObject.Rotate | controllers/databaseuser_controller.go:703-770 | The edited Secret holds the new password and the current fields |
| SecretData.SecretObject.Adopt | controllers/databaseuser_controller.go:772-825 | All earlier contents are replaced |
| SecretData.SecretObject.Merge | controllers/databaseuser_controller.go:827-884 | Entries under other names survive |
| Credentials.StepKeepsInv | controllers/databaseuser_controller.go:281-400 | Every step of the reconciler, of a crash, of a lost call or of another party keeps the invariant that ties role, Secret and status together |
| Credentials.EarlyExitIsSafe | controllers/databaseuser_controller.go:48-56 | In every reachable state in which the early exit would be taken, the PostgreSQL password is the Secret's |
| Credentials.ReadyRestoresAgreement | controllers/databaseuser_controller.go:307-399 | Whatever failed before, a reconcile about to report Ready for the current spec has made the role's password and that of the Secret, if it is still there, agree |
| Credentials.OnlyStaleSecretsVanish | controllers/databaseuser_controller.go:315-317 | Apart from deletions by others, a Secret disappears exactly if it is the user's own one under the name in the status, that is not the name in the spec read, and the call takes effect |
| Credentials.CurrentSecretStays | controllers/databaseuser_controller.go:315-317 | Over every run, while the spec read is the current one, the operator does not delete the Secret it names |
| Credentials.OthersSecretsStay | controllers/databaseuser_controller.go:506-515 | Over every run, the Secret of somebody else changes only under the name in a spec whose policy is Adopt or Merge |
| Credentials.ConflictStopsReconcile | controllers/databaseuser_controller.go:513-514 | Under policy Fail a foreign Secret makes the reconcile give up before any write to PostgreSQL or Secrets |
| Credentials.SafetyIsExact | controllers/databaseuser_controller.go:48-56 | The early exit is safe in every run exactly when timed rotation is off or its read cannot fail while the Secret exists |
| UserReconciler.Reconciler.ReplaceCredentials | controllers/databaseuser_controller.go:703-884 | In primary mode, rotation, adoption and merge set the password in PostgreSQL first and write the Secret second, stopping at the first failure |
| UserReconciler.Reconciler.EnsureSecrets | controllers/databaseuser_controller.go:479-541 | In primary mode, ownership, rotation, conflict policy and regeneration take the branches of the machine |
| UserReconciler.Reconciler.DeleteOldSecret | controllers/databaseuser_controller.go:981-999 | Only the user's own Secret under a previous name other than the current one is deleted, and it is gone if the call is answered |
| UserReconciler.Reconciler.EnsureUserInPostgres | controllers/databaseuser_controller.go:432-451 | The role ends up with the given password unless the call fails |
| UserReconciler.Reconciler.SetStatus | controllers/databaseuser_controller.go:1037-1069 | A lost patch changes nothing, nor does a status that is already there; an applied one keeps the old Secret name if none is given and dates the first Ready |
| UserReconciler.Reconciler.Reconcile | controllers/databaseuser_controller.go:48-83 | An uninterrupted reconcile of a user that is not being deleted is a run of the credentials machine, early exit and failed validation included |
| UserReconciler.CompleteReconcile | controllers/databaseuser_controller.go:281-400 | A reconcile in which all calls are answered reports Ready with the Secret there, owned and holding the role's password, the kept or the new one; the previous Secret is gone and no other has changed |
| UserReconciler.NoRoleNoSecret | controllers/databaseuser_controller.go:534-540 | If the password must be set first and the role is missing, nothing is written and the user is not Ready |
| UserReconciler.EarlyExitDoesNothing | controllers/databaseuser_controller.go:48-54 | The early exit changes nothing |
| BackupJobs.ExtractInvertsJobName | controllers/backup/backup_controller.go:180-187 | The run id is read back from every Job name |
| BackupJobs.StepKeepsInv | controllers/backup/backup_controller.go:66-161 | Every step keeps: one Job per Backup, throttling, recorded names, monotone phases, honest completion |
| BackupJobs.AtMostOneJob | controllers/backup/backup_controller.go:123-178 | In every reachable state at most one Job carries the labels of a Backup |
| BackupJobs.NoSecondJob | controllers/backup/backup_controller.go:93-98 | Once a Job name is persisted it never changes, and no further Job is created for that Backup |
| BackupJobs.NeverTooManyActive | controllers/backup/backup_controller.go:189-203 | In every reachable state at most max backup Jobs of a cluster have neither succeeded nor failed, even if restore Jobs appear at any time |
| BackupJobs.RunningIsRecorded | controllers/backup/backup_controller.go:129-160 | Running always comes with a Job name whose run id is the recorded one, unless a create was answered twice |
| BackupJobs.CompletedIsHonest | controllers/backup/backup_controller.go:553-567 | Completed implies that a Job with the labels of the Backup succeeded, unless a run id repeated |
| BackupJobs.PhaseOnlyMovesUp | controllers/backup/backup_controller.go:112-121 | For an unedited spec the phase only moves up, and the status of a finished Backup never changes |
| BackupJobs.RecordedJobIsJudged | controllers/backup/backup_controller.go:553-567 | A recorded Job that succeeded completes the Backup, one that used up its backoff limit without success fails it, any other leaves its status alone |
| BackupJobs.LabelledJobIsJudged | controllers/backup/backup_controller.go:524-551 | With the recorded Job gone, one found by label is judged likewise, and none at all means Failed |
| BackupJobs.FoundJobIsJudged | controllers/backup/backup_controller.go:129-137 | A Job found before one was recorded is recorded as Running with its run id and then judged likewise |
| BackupJobs.RunningWhileTrying | controllers/backup/backup_controller.go:553-567 | Over every run, a Running Backup stays as it is while its Job exists, has not succeeded and has retries left |
| BackupJobs.FinishedIsLeftAlone | controllers/backup/backup_controller.go:112-121 | A Backup that is finished for its spec is not reconciled |
| BackupJobs.EditedSpecUndoesCompletion | controllers/backup/backup_controller.go:93-96 | A Completed Backup whose Job is gone becomes Failed after an edit exactly when the spec changed |
| BackupJobs.RunIDIsRecordedIff | controllers/backup/backup_controller.go:153-160 | A create call that took effect is recorded with the run id of its Job exactly when it is not answered with AlreadyExists, which leaves the run id empty |
| BackupJobs.RunIDCanBeLost | controllers/backup/backup_controller.go:205-209 | From the initial state a run leads to a Running Backup without a run id |
| BackupJobs.CompletionIsHonestIff | controllers/backup/backup_controller.go:553-567 | When the recorded Job has succeeded, the Backup is completed, which is honest exactly when that Job has its labels or one with its labels succeeded before |
| BackupJobs.ReusedNameMisleads | controllers/backup/backup_controller.go:501-522 | A Job of another Backup that got the name of a vanished Job completes the Backup that recorded that name |
| BackupJobs.ReusedNameIsReachable | controllers/backup/backup_controller.go:220-232 | Two Backups of one name in two namespaces reach the premises of that lemma from the initial state |
| BackupJobs.CompletionCanMislead | controllers/backup/backup_controller.go:501-522 | From the initial state a run leads to a Completed Backup of which no Job has succeeded |
| BackupReconciler.Reconciler.Max | controllers/backup/backup_controller.go:52-57 | The configured limit if it is positive, else 3; so always positive |
| BackupReconciler.Reconciler.CountActiveJobsForCluster | controllers/backup/backup_controller.go:279-298 | The count is the number of Jobs with the cluster label that have neither succeeded nor failed |
| BackupReconciler.Reconciler.EvaluateJobStatus | controllers/backup/backup_controller.go:553-567 | Success completes, failures up to the backoff limit fail, anything else writes nothing |
| BackupReconciler.Reconciler.FindJobByLabels | controllers/backup/backup_controller.go:524-551 | No Job means Failed; a missing name is recorded before the Job is judged, and only if that patch got through |
| BackupReconciler.Reconciler.CheckJobStatus | controllers/backup/backup_controller.go:501-522 | The recorded Job is judged, or one found by label if it is gone |
| BackupReconciler.Reconciler.CreateBackupJobIfAllowed | controllers/backup/backup_controller.go:123-161 | A failed listing or count ends the reconcile, an existing Job is used, missing resources fail, too many active Jobs wait, and only then a Job is created |
| BackupReconciler.Reconciler.CreateBackupJob | controllers/backup/backup_controller.go:153-161 | A name clash looks for the Job by label, another error is Failed, success is Running with name and run id |
| BackupReconciler.Reconciler.Reconcile | controllers/backup/backup_controller.go:84-98 | An uninterrupted reconcile, failed reads included, is a run of the Job machine |
| BackupReconciler.NoJobIsMade | controllers/backup/backup_controller.go:139-148 | Without the other resources a Backup fails and with max active Jobs it waits; no Job is made in either case |
| BackupReconciler.JobIsMade | controllers/backup/backup_controller.go:150-160 | With fewer active Jobs the Job is made with labels, cluster and backoff limit 3 and recorded as Running; a refusal, a taken name or an unanswered creation means Failed |
| Schedule.NamesIdentifyTicks | controllers/backup/schedule_controller.go:180-184 | Two ticks have one Backup name exactly when they are the same tick |
| Schedule.NamesUseTimestamps | controllers/backup/schedule_controller.go:180-184 | The name carries the runner's timestamp for the tick without its seconds |
| Schedule.CronExists | controllers/backup/schedule_controller.go:99-102 | There are tick functions of the kind that the theorems about schedules assume |
| Schedule.StepKeepsInv | controllers/backup/schedule_controller.go:114-157 | Ticks with Backups and reference times alternate, and exactly the deletion of the Backup that is not yet recorded breaks that |
| Schedule.OneBackupPerTick | controllers/backup/schedule_controller.go:104-145 | Ticks with Backups strictly increase, each is the first tick after a reference time, and each move of the reference passes over exactly one of them, however long the outage |
| Schedule.RecordsOnlyWhatExists | controllers/backup/schedule_controller.go:147-157 | lastBackupTime changes only when a Backup for the first tick after its old value has been created |
| Schedule.RecordingEndsCatchUp | controllers/backup/schedule_controller.go:147-157 | Once recorded, no tick that has passed is due any more |
| Schedule.DueTickIsBackedUp | controllers/backup/schedule_controller.go:79-83 | A due reconcile without failures leaves the Backup there and the present second recorded; one that is not due changes nothing |
| Schedule.DeletionThatRepeatsATick | controllers/backup/schedule_controller.go:121-129 | When a tick is due, deleting a Backup makes a tick repeat exactly when it is the Backup of that tick, created but not recorded |
| Schedule.BackupScheduleReconciler.Reconcile | controllers/backup/schedule_controller.go:69-85 | An uninterrupted reconcile is a run of the schedule machine, an early one publishes the next tick, and a suspended or unparsable schedule only changes its phase |
| Schedule.BackupScheduleReconciler.HandleScheduledBackup | controllers/backup/schedule_controller.go:114-157 | A due tick gets its Backup unless it exists; phase, next scheduled time and last backup time follow from whether the creation is seen to fail |
| Schedule.CleanupBackupCRDs | controllers/backup/schedule_controller.go:331-388 | Exactly the finished Backups beyond the newest keepLast go, none if keepLast is off |
| Schedule.CleanupIsExact | controllers/backup/schedule_controller.go:355-388 | A Backup is deleted exactly if keepLast is positive, at least keepLast come before it, it is finished and the server does not refuse; unfinished ones stay |
| Schedule.CleanupSparesLatest | controllers/backup/schedule_controller.go:350-371 | The latest Backup is never cleaned up |
| Ownership.ParseInvertsPrintIff | pkg/postgres/client.go:189-203 | A comment is parsed back to its owner exactly when the namespace has no slash |
| Ownership.PrintInvertsParse | pkg/postgres/client.go:194-203 | Only printed comments parse |
| Ownership.Server.CreateDatabaseWithOwner | pkg/postgres/client.go:205-220 | A failed comment does not fail the creation |
| Ownership.Server.EnsureDatabaseWithOwner | pkg/postgres/client.go:249-287 | A claim equals the machine's; on an error nothing changes but for a creation that took effect, and a database of somebody else is refused without force |
| Ownership.EnsureLaw | pkg/postgres/client.go:249-287 | Exactly when a claim is an error, tracked or untracked, what comment it leaves, and that no other database changes |
| Ownership.Server.Release | controllers/database_controller.go:191-200 | Retain keeps every database and frees the released one of its owner, Delete removes that one alone, a failed call changes nothing; the recorded owner is not looked at |
| Ownership.DatabasesVanishOnlyByDrop | controllers/database_controller.go:191-226 | Over every run, a database disappears only by a release of it with policy Delete that did not fail |
| Ownership.OwnershipIsExclusive | pkg/postgres/client.go:249-287 | In every run of harmless steps no two resources claim one database |
| Ownership.StepKeepsBackedIff | pkg/postgres/client.go:205-287 | Of all that resources can do, claims stay backed by the comments except exactly after a new database loses its comment, a force over another claim, or a release by somebody else than the claimant |
| Ownership.StepKeepsWellFormed | pkg/postgres/client.go:189-203 | Comments in the operator's format always name resources, whatever resources do |
| Ownership.ExclusiveFromHereIff | pkg/postgres/client.go:249-287 | Harmless steps keep databases exclusive from a moment on exactly when all claims are backed then |
| Ownership.HarmlessIffExclusiveAfter | pkg/postgres/client.go:249-296 | After one step from backed claims, databases stay exclusive for good exactly when that step is harmless |
| Ownership.OnlyForceSteals | pkg/postgres/client.go:267-283 | Against a backed claim another resource succeeds exactly when it is forced and its calls get through |
| Ownership.StrangerReleaseBreaksOwnership | controllers/database_controller.go:191-200 | Deleting a resource that is not the recorded owner lets a third one claim the database |
| Ownership.LostCommentBreaksOwnership | pkg/postgres/client.go:212-219 | A new database whose comment is lost is tracked by two resources |
| Ownership.FormerOwnerIsLockedOut | pkg/postgres/client.go:280-284 | After a takeover every unforced attempt of the former owner is an error until a release or another force |
| Access.Server.GetUserDatabaseAccess | pkg/postgres/client.go:477-498 | The names are exactly the databases, templates aside, that the user or PUBLIC may connect to |
| Access.Server.SyncDatabaseAccess | pkg/postgres/client.go:502-531 | The grants end as the specification says, also after a refused revoke or grant; on full success the user reaches the allowed databases and those open to PUBLIC |
| Access.SyncIsExact | pkg/postgres/client.go:500-531 | If every grant succeeds the explicit grants are the allowed databases plus those whose revoke was refused |
| Access.SyncIsPartial | pkg/postgres/client.go:523-528 | Everything before a failed grant stays granted |
| Access.SyncTouchesOnlyTheUser | pkg/postgres/client.go:502-531 | Whatever fails, nobody else gains or loses a grant, and the user gains none that is not allowed |
| Access.SyncIsIdempotent | pkg/postgres/client.go:502-531 | A second call with the same answers changes nothing |
| Privileges.Session.ApplyPrivileges | pkg/postgres/client.go:533-573 | The statements take effect in order up to the first failure; a complete call gives what ApplicationAddsExtras says, and with no other failure it succeeds exactly if every table named in the additional grants exists |
| Privileges.Session.RevokePrivilegesInDatabase | pkg/postgres/client.go:663-688 | Every revoke is tried, whatever happens to the others |
| Privileges.RevokeLeavesOnlyTheRefused | pkg/postgres/client.go:663-688 | What is left is exactly what the refused statements would have taken |
| Privileges.RevokeUndoesEverything | pkg/postgres/client.go:663-688 | After any calls, complete or cut short, a revocation leaves nothing exactly when each refused statement had nothing to take; without refusals always; and from a clean start never more on tables than the presets and extra grants gave |
| Privileges.CallsStayWithin | pkg/postgres/client.go:533-638 | From a clean start, calls never give more on tables than the largest of their presets and extra grants, new tables included |
| Privileges.RevokedStaysRevoked | pkg/postgres/client.go:672-677 | Objects created after it give the user nothing either |
| Privileges.ApplyRaises | pkg/postgres/client.go:533-621 | A complete application adds the rights of its preset to all earlier ones and resets only those on the schema |
| Privileges.ApplicationAddsExtras | pkg/postgres/client.go:542-573 | A complete application leaves each table its former rights, those of the preset and exactly those the additional grants name for it; sequences, future objects and schema get what the preset gives |
| Privileges.ApplyingTwiceAddsUp | pkg/postgres/client.go:533-621 | Two presets applied one after the other, in either direction, add up on tables, sequences and future objects; the schema rights are those of the second |
| Privileges.PresetsAreALadder | pkg/postgres/client.go:575-621 | From one start readonly gives less than readwrite and readwrite less than admin |
| Privileges.LoweringKeepsGrants | pkg/postgres/client.go:542-548 | From any preset to any that gives no more on tables and sequences, only the right to create in the schema is lost |
| ClientCache.StepKeepsInv | pkg/postgres/client.go:81-123 | Every step of every thread keeps each client in exactly one place: cached, in flight, overwritten or closed once |
| ClientCache.CacheIsSound | pkg/postgres/client.go:81-123 | Under any interleaving no closed client is cached, none is closed twice, none is cached twice, and every open one is accounted for |
| ClientCache.WithoutOverlapNothingIsLost | pkg/postgres/client.go:81-103 | If Gets of one name never overlap, the open clients are those cached and those about to be |
| ClientCache.WithoutOverlapOnlyThePingedIsClosed | pkg/postgres/client.go:86-91 | If Gets of one name never overlap, a Get closes no client but the one whose ping failed |
| ClientCache.OverlapLosesAClient | pkg/postgres/client.go:98-100 | With overlap a client can stay open outside the cache after both calls |
| ClientCache.NothingIsLostIff | pkg/postgres/client.go:98-100 | A run of any threads overwrites no client exactly when no insert finds an entry of its name |
| ClientCache.LeakIff | pkg/postgres/client.go:81-123 | With no call under way, a client is open outside the cache exactly when some insert overwrote an entry |
| ClientCache.OverlapClosesAFreshClient | pkg/postgres/client.go:86-100 | With overlap a client that nobody pinged can be closed by a Get |
| ClientCache.ClosesAnotherIff | pkg/postgres/client.go:86-91 | In every run, a Get whose ping failed closes a client that it did not find exactly when since its lookup another one was inserted under the name and not evicted |
| ClientCache.Cache.Get | pkg/postgres/client.go:81-103 | A call that is not interleaved is a run of the machine, returns the client it leaves in the cache, and touches no other name |
| ClientCache.Cache.RemoveClient | pkg/postgres/client.go:105-113 | The client of the name is closed and its entry deleted, in one step |
| ClientCache.Cache.CloseAll | pkg/postgres/client.go:115-123 | Every cached client is closed once, in some order, and the cache is empty |
| Password.ClampedLength | pkg/postgres/password.go:25-32 | 0 means 16, shorter requests give 12, longer ones 64, all others what was asked for |
| Password.FillFromCharset | pkg/postgres/password.go:65-76 | The positions from pos on hold what the random numbers pick from the charset; nothing else changes, also when randomness runs out |
| Password.Shuffle | pkg/postgres/password.go:78-89 | The array ends as the shuffle function of its old contents and the drawn choices, always as a permutation |
| Password.ShufflePermutes | pkg/postgres/password.go:78-89 | The shuffle is a permutation |
| Password.ShuffleIsInjective | pkg/postgres/password.go:80-86 | Different choices give different permutations |
| Password.ShuffleIsOnto | pkg/postgres/password.go:80-86 | Every rearrangement comes from some choices |
| Password.ShuffleIsBijection | pkg/postgres/password.go:80-86 | Each permutation has exactly one sequence of choices, so uniform choices are a uniform permutation |
| Password.GeneratePassword | pkg/postgres/password.go:24-63 | It succeeds exactly if randomness suffices; the password has the clamped length, only characters of the four charsets and three or more of each |
| Password.GeneratedIffStrong | pkg/postgres/password.go:24-63 | A text of the clamped length can be generated exactly if it meets these demands: nothing else comes out and nothing is out of reach |
| Password.PermutationStaysStrong | pkg/postgres/password.go:56-60 | Shuffling keeps length, alphabet and the count of every class |

## Left out

- RetentionRuns.IncrementalIsOffline: for one prefix, one fixed policy, keys that are not reused and files with distinct
  times; the times of the passes must not move an active cutoff back, which `ForwardTimesAdvance` and
  `EarlyDaysStayInMonth` grant for non-decreasing times when keepMonthly is off or every pass falls on days 1 to 28.
- Retention.ApplyBucketRule: applyKeepDaily, applyKeepWeekly and applyKeepMonthly are one loop with the rule as a
  parameter; the three bodies differ in cutoff and text only.
- Retention.SortNewestFirst: an insertion sort stands for sort.Slice; callers rely only on order and permutation.
- Credentials.EarlyExitIsSafe: one DatabaseUser in primary mode with a fixed template and user name; others may delete
  any Secret but neither edit one nor create one under the current name, since the early exit does not look at ownership.
- Credentials.ReadyRestoresAgreement: speaks of the spec that the reconcile has read; a later edit starts another reconcile.
- UserReconciler.Reconciler.Reconcile: for users that are not being deleted and have their finalizer; failed validation,
  lookup of databases and connection are one branch, the machine's Abandon action; preset failures are reported per
  database and change nothing here.
- UserReconciler.Reconciler.EnsureSecrets: without the branch for secretGeneration perDatabase.
- UserReconciler.Reconciler.ReplaceCredentials: without the branch for secretGeneration perDatabase.
- UserReconciler.Reconciler.SetStatus: without the pending timeout, which concerns no phase that this model tells apart.
- BackupReconciler.Reconciler.Reconcile: for Backups that are not being deleted and have their finalizer.
- Schedule.BackupScheduleReconciler.Reconcile: for schedules that are not being deleted and have their finalizer; the
  retention cleanup that it starts is modelled separately.
- BackupJobs.NeverTooManyActive: one reconciler at a time whose reads see its own writes, as with one worker and a
  cache that is up to date.
- BackupJobs.CompletedIsHonest: run ids are taken as given; `CompletionCanMislead` shows what a repeated one can do.
- BackupJobs.PhaseOnlyMovesUp: spec hashes are taken as injective; the JSON encoding and SHA-256 are not modelled.
- Schedule.OneBackupPerTick: cron parsing is not modelled; a schedule is any function to the first whole-minute tick
  after a time. Nobody deletes the Backup of the tick that is not yet recorded.
- Ownership.ExclusiveFromHereIff: for well-formed states, as `StepKeepsWellFormed` keeps them; databases are dropped and
  comments changed by the operator only.
- Privileges.Session.ApplyPrivileges: additional grants are given table by table, as the loops over grants and their
  tables send them.
- Privileges.ApplyRaises: a user's table and sequence rights are those on objects of the public schema, and new objects
  are made by the role whose default privileges were altered.
- Stamp.WrittenKeyIsDated: path and file name templates are modelled by their results; text/template is not.
- Kubernetes clients, controller-runtime, pgx, cloud storage clients, pg_dump and psql, gzip and logging: replaced by
  stores whose calls may fail or go unanswered.
- Finalizers and the deletion of Backups and schedules: they add no step to the protocols above.
- The debounce annotation of the retention cleanup: how often a pass happens is left open, so all theorems cover it.
- secretGeneration perDatabase, and the deletion of a DatabaseUser.
- The pending timeout of statuses, connection limits, extensions and the isolation report.
- Restore, storage and cluster controllers: they would only add easy members.
- Sizes, messages, annotations and conditions in statuses.
- Time zones: all times are UTC, as the runner writes them.
- Timestamps of years outside 0 to 9999: the printed text has no place for them.
