# pCenter in Dafny

A Dafny 4.11 model of the decision-making parts of the pCenter backend, with proofs about every run of them:
the folder forest and its tree view, the metrics rollup tiers and their retention, Ceph installation and destruction,
the DRS scheduler and its violation detector, alarms, the agent command tracker, the browser hub, the inventory of
datacenters, clusters and hosts, login lockout, and the shell quoting of one command line.

`dafny verify dfyconfig.toml` checks the whole project.

## How the system is modelled

- Tables are maps or sequences held by classes (`FolderService.Service`, `RollupSchedule.RollupService`,
  `CephJob.Job`, `Alarms.Evaluator`, `CommandTracker.Tracker`, `BrowserHub.HubLoop`, `InventoryStore.Store`,
  `LoginLockout.AuthService`). Each method is proved against a function of the old state; the theorems are about
  runs of that function.
- Service calls on folders, inventory and users are atomic. The code takes its lock per database call, so this is an
  assumption. Database calls succeed. New row ids are supplied to the call and unused.
- Time is an argument, in integer seconds. Floating-point numbers are reals.
- Remote calls (PVE, SSH, probes, password checks) are outcomes supplied as inputs, and the theorems hold for all of
  them.
- Goroutines and channels are interleaved atomic steps. An order that the code leaves open (map iteration, an SQL
  `ORDER BY` whose key is not modelled, `sort.Slice` on ties) is any order.

| file | component |
|---|---|
| `options.dfy`, `seqs.dfy` | option type; order-preserving filters, permutations, primary keys |
| `folder_forest.dfy`, `folder_tree.dfy`, `folder_service.dfy`, `folder_fates.dfy` | ancestor walks and cycles; the tree response; the service; what each call achieves and when it is accepted |
| `rollup_tables.dfy`, `rollup_schedule.dfy`, `civil_calendar.dfy`, `rollup_runs.dfy` | aggregation and tiers; schedule and retention; months; what whole runs come to |
| `ceph_job.dfy`, `ceph_install.dfy`, `ceph_destroy.dfy`, `ceph_progress.dfy`, `ceph_failures.dfy`, `ceph_job_list.dfy` | job record and preflight; the two step machines; that both come to an end; what failing calls lead to; the job list |
| `drs_rules.dfy`, `drs_scheduler.dfy`, `drs_analysis.dfy`, `drs_batch.dfy` | rule checks and detector; the scheduler; one recommendation; a whole batch |
| `alarms.dfy` | evaluation, acknowledgement, history |
| `command_tracker.dfy`, `browser_hub.dfy` | bounded channels under every interleaving |
| `inventory.dfy`, `inventory_store.dfy`, `inventory_fates.dfy`, `inventory_accepts.dfy`, `inventory_tree.dfy`, `inventory_reconcile.dfy`, `inventory_runs.dfy` | ownership; the calls; what happens to each host and cluster; when a call is accepted; the tree; legacy clean-up; runs |
| `login_lockout.dfy`, `shell_quoting.dfy` | lockout arithmetic; quoting against the POSIX tokenizer |

## Where the code falls short of what is said about it

- Progressive lockout is commented as doubling (`backend/internal/auth/service.go:260`). The multiplier grows linearly:
  it goes up by one every `MaxAttempts` failures, so that the lock doubles from the first round of failures to the second
  and never again (`LoginLockout.DoublesOnlyOnce`). `LoginLockout.UnitsOfRounds` gives the resulting total.
- With a negative `max_attempts` and progressive locks the multiplier is never positive, the lock lies in the past, and no
  account is ever locked; `LoginLockout.NegativeLimitNeverLocks` is an input. Over all configured policies with a positive
  lock, that is the only case (`LoginLockout.CanLockIff`, `LoginLockout.EveryFailureLocksIff`). Zero attempts would divide
  by zero in `Login`, but loading the configuration replaces zero by five (`LoginLockout.ConfiguredNeverCrashes`).
- With the default retention of 30 days for daily rows, every month but February can lose its first day before the
  monthly rollup reads it (`RollupRuns.DefaultsLoseFirstDay`, both ways). For any retention,
  `RollupRuns.MonthExactIffCovered` gives the exact condition, `RollupRuns.LosingRun` a run on time that ends with a wrong
  bucket, and `RollupRuns.MonthExactIffNothingLost` what a processed month then holds.
- A recommendation moves a guest off the host it is pinned to when an earlier enabled pin of the same guest names no
  host: on the cluster of `DrsBatch.EmptyPinShadowsPin` every run of the scheduler does it, so "at most one enabled pin
  with a host" is not enough. Creating a pin without a host is refused; an update can store one, since it is not validated
  (`backend/internal/api/handlers_drs_rules.go:57-60` and `:78-95`). `DrsAnalysis.RecommendationNeverWorseIff` gives the
  exact condition, and `DrsAnalysis.RecommendationNeverWorse` a condition on the rules alone.
- Each recommendation is checked against the placement before the run, not against the others. A batch crowds a new node
  exactly when it sends two members of an enabled anti-affinity rule to one node (`DrsBatch.BatchCrowdsIff`), and it raises
  the number of reports exactly when it does so on more nodes than it relieves (`DrsBatch.BatchRaisesCountIff`). On the
  cluster of `DrsBatch.BatchCanCollide`, which has no report, every run with a rate of at least two creates one.
- An installation succeeds with a seeded step still pending whenever a node is listed twice (`CephInstall.SuccessCoversSeed`);
  `CephProgress.SucceedsWithPendingStep` shows that for every such configuration a run does end that way. The same would
  hold for a founder whose client reports another name, which the rest of the program rules out: each client is stored
  under its own node name (`backend/internal/poller/poller.go:350-353`).
- Creating an alarm demands a clear threshold below the warning one and that below the critical one, also for a condition
  "below" (`backend/internal/alarms/service.go:39-47`). Such a definition never warns: it is critical below its critical
  threshold and clear from there on (`Alarms.ValidatedBelowNeverWarns`; `Alarms.OrderedBelow` has the order it would need).
- A prober that answers with an empty cluster name makes the legacy clean-up report the same cluster again on the next
  pass, although the tables do not change. `InventoryReconcile.SecondReportQuietIff` says exactly when, and
  `InventoryReconcile.EmptyNameIsReportedAgain` gives an input.
- An edit of a host accepts a new token secret and does not store it (`backend/internal/inventory/types.go:117-122`,
  `backend/internal/inventory/db.go:401-404`): the host holds the given token afterwards exactly when it held the given
  secret before (`InventoryFates.EditStoresSecretIff`). The join of a node relies on that write and then reads the stored
  token back (`backend/internal/pvecluster/orchestrate.go:313-317`, `:450-455`), so a joined node ends up with the token of
  its cluster exactly when it had its secret already (`InventoryFates.JoinedTokenIff`, `InventoryFates.JoinLeavesOldSecret`).

## Model

| member | source | states |
|---|---|---|
| `FolderForest.IsDescendant` | backend/internal/folders/service.go:155-170 | The upward walk terminates on every forest and is true exactly for proper descendants. |
| `FolderForest.MoveKeepsForest` | backend/internal/folders/service.go:118-152 | Re-parenting within one view keeps the table a forest when the new parent is neither the folder nor below it. |
| `FolderForest.ForbiddenMoveMakesCycle` | backend/internal/folders/service.go:134-148 | Every move the guard refuses as self or descendant would create a cycle, so the guard is exact. |
| `FolderForest.DeleteKeepsForest` | backend/internal/folders/db.go:102-113 | Removing a whole subtree leaves a forest. |
| `FolderForest.ForestIsRanked` | backend/internal/folders/db.go:102-113 | Acyclic parent pointers are exactly those with a rank growing from parent to child (with `RankedIsAcyclic`). |
| `FolderForest.AncestorsFormChain` | backend/internal/folders/service.go:155-170 | Two ancestors of one folder are comparable. |
| `FolderService.ApplyKeepsValid` | backend/internal/folders/service.go:72-236 | Each accepted call keeps parents existing and in the same view, no cycles, unique names under each parent, and memberships unique and in existing folders. |
| `FolderService.RunKeepsValid` | backend/internal/folders/service.go:72-236 | The same over every run of create, rename, move, delete and membership calls. |
| `FolderService.MoveResourceIsExclusive` | backend/internal/folders/service.go:212-236 | After a move the resource is in the target folder of that view and in no other, and no other membership changed. |
| `FolderFates.CallAchieves` | backend/internal/folders/service.go:72-236 | What each accepted call is for, row by row: the created, renamed or moved folder has exactly the new field, a deletion takes exactly the folders at or below it with their memberships, a membership call exactly its rows; nothing else changes, and a refused call changes nothing. |
| `FolderFates.CreateAcceptedIff` | backend/internal/folders/service.go:72-98 | A folder is created if and only if its id is new, its name is not empty and the row breaks no constraint: no check is missing or idle. |
| `FolderFates.RenameAcceptedIff` | backend/internal/folders/service.go:101-115 | A rename is accepted if and only if the folder exists, the name is not empty and the new row breaks no constraint. |
| `FolderFates.MoveAcceptedIff` | backend/internal/folders/service.go:118-152 | A move is accepted if and only if the folder exists and the new row breaks no constraint, cycles included. |
| `FolderFates.MemberAcceptedIff` | backend/internal/folders/service.go:186-204 | A membership is accepted if and only if it breaks no constraint. |
| `FolderService.Service.CreateFolder` | backend/internal/folders/service.go:72-98 | Every refusal and the new row, as the specification of the call says; the store stays valid. |
| `FolderService.Service.RenameFolder` | backend/internal/folders/service.go:101-115 | The reply and the new store of a rename; the store stays valid. |
| `FolderService.Service.MoveFolder` | backend/internal/folders/service.go:118-152 | The reply for each refused move and the new store of an accepted one, which `FolderFates.CallAchieves` describes row by row; the store stays a forest. |
| `FolderService.Service.DeleteFolder` | backend/internal/folders/service.go:173-183 | Exactly the subtree and the memberships of its folders disappear. |
| `FolderService.Service.Cascade` | backend/internal/folders/db.go:102-124 | Repeatedly dropping rows whose parent is gone removes exactly the folder and its descendants. |
| `FolderService.Service.AddMember` | backend/internal/folders/service.go:186-204 | The reply and the new memberships; a repeated membership is not stored twice. |
| `FolderService.Service.RemoveMember` | backend/internal/folders/service.go:207-209 | Removes that membership only. |
| `FolderService.Service.MoveResource` | backend/internal/folders/service.go:212-236 | The reply and the new memberships of a resource move; the store stays valid. |
| `FolderService.Service.GetAllMembers` | backend/internal/folders/db.go:477-506 | Groups the memberships of one view by folder, in row order. |
| `FolderService.Service.FirstPass` | backend/internal/folders/service.go:33-38 | Each row gets its members and no children, and is indexed by id. |
| `FolderService.Service.SecondPass` | backend/internal/folders/service.go:41-52 | Each indexed row ends with exactly its children in query order, although the copies stored as children are incomplete. |
| `FolderTree.BuildTreeFaithful` | backend/internal/folders/service.go:59-69 | Rebuilding from the index gives the same folders in the same order, each with its complete subtree and members. |
| `FolderTree.FaithfulListsAll` | backend/internal/folders/service.go:19-69 | A faithful response over the roots lists every folder of the view exactly once. |
| `FolderService.Service.GetFolderTree` | backend/internal/folders/service.go:19-69 | The response has the roots in query order, every folder under its own parent with its own members, and every folder exactly once. |
| `RollupTables.StatsOfSamples` | backend/internal/metrics/rollup.go:156-188 | Over raw samples the aggregate is their minimum, maximum, sum and number. |
| `RollupTables.GroupIsCounted` | backend/internal/metrics/rollup.go:191-302 | Sample counts stay at least one, so the weighted average is defined. |
| `RollupTables.SpanSplit` | backend/internal/metrics/rollup.go:191-302 | The aggregate of a span is the merge of the aggregates of its two halves, whatever the row order. |
| `RollupTables.TierAgrees` | backend/internal/metrics/rollup.go:191-302 | If a tier agrees with the samples on every bucket, it agrees on every span of whole buckets. |
| `RollupTables.RowFromStats` | backend/internal/metrics/rollup.go:191-302 | A stored row and its statistics determine each other, weighted average included. |
| `RollupTables.RollupGroups` | backend/internal/metrics/rollup.go:156-302 | A rollup writes the aggregate of the source span into one bucket and leaves all other spans alone. |
| `RollupTables.RollupLeaves` | backend/internal/metrics/rollup.go:156-302 | Whatever the destination holds, groups without source rows and all other spans keep their rows, on a repeated run too. |
| `RollupTables.RollupReplaces` | backend/internal/metrics/rollup.go:156-302 | A group with source rows ends with exactly one row in the bucket, the aggregate, whatever was there before. |
| `RollupTables.RollupIdempotent` | backend/internal/metrics/rollup.go:156-302 | Running a rollup again on an unchanged source changes nothing. |
| `RollupTables.ExpireKeepsLater` | backend/internal/metrics/rollup.go:305-345 | Retention keeps every span at or after its cutoff. |
| `RollupSchedule.RollupSpan` | backend/internal/metrics/rollup.go:156-188 | The scan with running aggregates computes the grouped insert-or-replace. |
| `RollupSchedule.RollupService.RollupHourly` | backend/internal/metrics/rollup.go:156-188 | Rolls the raw samples of the last complete hour into the hourly table. |
| `RollupSchedule.RollupService.RollupDaily` | backend/internal/metrics/rollup.go:191-224 | Rolls the hourly rows of yesterday into the daily table. |
| `RollupSchedule.RollupService.RollupWeekly` | backend/internal/metrics/rollup.go:227-265 | Rolls the daily rows of the last complete week into the weekly table. |
| `RollupSchedule.RollupService.RollupMonthly` | backend/internal/metrics/rollup.go:268-302 | Rolls the daily rows of the previous civil month, computed from the current time in the calendar of `CivilCalendar.MonthStartInClosedForm`, into the monthly table. |
| `RollupSchedule.RollupService.Cleanup` | backend/internal/metrics/rollup.go:305-345 | Deletes exactly the rows older than each tier's retention; monthly rows stay. |
| `RollupSchedule.CleanupFates` | backend/internal/metrics/rollup.go:305-345 | A row of each tier stays if and only if its age is within the limit of that tier; monthly rows always stay. |
| `RollupSchedule.WeeklyBucketIsLatestCompleteWeek` | backend/internal/metrics/rollup.go:227-236 | At every instant the weekly bucket is the latest complete Monday-to-Sunday week. |
| `RollupSchedule.NextWeeklyRunIsNextMonday` | backend/internal/metrics/rollup.go:82-90 | The computed first run is the first Monday 01:00 UTC strictly later. |
| `RollupSchedule.TierRollup` | backend/internal/metrics/rollup.go:156-302 | Rolling up the next bucket from a source that agrees on it extends the tier by that bucket, exactly. |
| `RollupSchedule.TierRow` | backend/internal/metrics/rollup.go:156-302 | Every row of a tier is the direct aggregate of the samples of its bucket. |
| `RollupSchedule.TierHasRow` | backend/internal/metrics/rollup.go:156-302 | Every processed, unexpired bucket with samples has its row. |
| `RollupSchedule.DefaultsAreCovered` | backend/internal/metrics/types.go:84-93 | The default retention covers what the hourly, daily and weekly rollups read. |
| `RollupSchedule.StepKeepsInv` | backend/internal/metrics/rollup.go:36-345 | Each sample, rollup or cleanup on schedule, with its bounds computed from the current time, keeps every tier equal to the direct aggregate of all samples, and each processed month equal to the aggregate from its first kept day. |
| `RollupSchedule.RunKeepsInv` | backend/internal/metrics/rollup.go:36-345 | The same over every run on schedule: cleanup never takes a row that a pending hourly, daily or weekly rollup still reads. |
| `RollupSchedule.WeeklyRowIsDirectAggregate` | backend/internal/metrics/rollup.go:156-265 | Through three tiers and retention, a weekly row has the minimum, maximum, mean and count of the raw samples of its week. |
| `RollupSchedule.MonthReadsKeptDays` | backend/internal/metrics/rollup.go:268-302 | A monthly rollup writes exactly the aggregate of the samples from the first day whose row retention has left. |
| `CivilCalendar.MonthOf` | backend/internal/metrics/rollup.go:268-274 | The month whose bounds enclose an instant; where the bounds lie is `CivilCalendar.MonthStartInClosedForm`. |
| `CivilCalendar.MonthStartInClosedForm` | backend/internal/metrics/rollup.go:268-274 | Every month starts at the civil day count in closed form, with years that begin in March and the rule of 4, 100 and 400, for all months before and after 1970. |
| `CivilCalendar.MonthStep` | backend/internal/metrics/rollup.go:268-274 | The closed form grows by the length of the month, every month, leap years included. |
| `CivilCalendar.MonthIsUnique` | backend/internal/metrics/rollup.go:268-274 | Only one month contains an instant. |
| `RollupSchedule.MonthlyBounds` | backend/internal/metrics/rollup.go:268-274 | At its due time the monthly rollup computes exactly the bounds of the month it is due for. |
| `RollupRuns.MonthlyLoopMeetsDue` | backend/internal/metrics/rollup.go:109-135 | At the start and after every monthly rollup the loop computes as its next run the time the schedule has it due. |
| `RollupRuns.ScheduleContinues` | backend/internal/metrics/rollup.go:36-153 | After any run on time the next rollup due is on time: the schedule never blocks itself. |
| `RollupRuns.RunTo` | backend/internal/metrics/rollup.go:36-153 | From any live state the due rollups alone, each on time, lead to any later moment. |
| `RollupRuns.WeeklyRowAppears` | backend/internal/metrics/rollup.go:227-265 | From every start some run on time files a weekly row for any key. |
| `RollupRuns.MonthlyBucketIsFromFirstKeptDay` | backend/internal/metrics/rollup.go:268-302 | In every run a processed month aggregates exactly its samples from its first kept day, which is the first of the month when retention covers its length plus two hours. |
| `RollupRuns.MonthExactIffNothingLost` | backend/internal/metrics/rollup.go:268-302 | In every run a processed month is the direct aggregate of its samples exactly when no sample lies in its lost days. |
| `RollupRuns.MonthlyBucketIsDirectAggregate` | backend/internal/metrics/rollup.go:268-302 | A month whose length plus two hours is covered is exact in every run. |
| `RollupRuns.LosingRun` | backend/internal/metrics/rollup.go:305-345 | For every shorter retention there is a run on time, with a cleanup before the monthly rollup, that ends with a wrong bucket. |
| `RollupRuns.MonthExactIffCovered` | backend/internal/metrics/rollup.go:268-345 | A month is exact in every run on time if and only if the daily retention covers its length and the run offset. |
| `RollupRuns.DefaultsLoseFirstDay` | backend/internal/metrics/types.go:84-93 | Under the default retention a month is exact in every run if and only if it is a February. |
| `CephJob.Find` | backend/internal/cephcluster/job.go:131-144 | The first step of a host and phase, or none. |
| `CephJob.SetStateShows` | backend/internal/cephcluster/job.go:131-168 | Setting one step changes what is shown for that host and phase, and nothing else. |
| `CephJob.TouchShows` | backend/internal/cephcluster/job.go:170-180 | Recording a message changes no state that is shown, but a step that was missing shows as pending. |
| `CephJob.Job.SetStep` | backend/internal/cephcluster/job.go:131-168 | The scan changes the first matching step or appends one, as specified. |
| `CephJob.Job.FinalizeDestroy` | backend/internal/cephcluster/destroy.go:287-308 | The job fails exactly when purges were attempted and none succeeded. |
| `CephJob.RunInstallPreflight` | backend/internal/cephcluster/preflight.go:41-99 | Each host's blocker is reported, and the installation may proceed exactly when no host is blocked and no two known major versions differ. |
| `CephJob.MayProceedMeans` | backend/internal/cephcluster/preflight.go:41-112 | An installation may proceed if and only if every host answers, none has Ceph, and all versions agree up to their first dot. |
| `CephJobList.SiftLeft` | backend/internal/cephcluster/manager.go:153-157 | The inner loop sorts one more snapshot into place and loses none. |
| `CephJobList.ListJobs` | backend/internal/cephcluster/manager.go:145-159 | The in-place sort returns every snapshot once, newest first. |
| `CephInstall.SeedSteps` | backend/internal/cephcluster/manager.go:104-116 | Seeds every step of all six phases up-front, pending. |
| `CephInstall.SeedIsPlan` | backend/internal/cephcluster/manager.go:104-116 | The plan row by row: preflight, packages and monitor for every node, initialization and manager on the first, one wait at the end. |
| `CephInstall.NextKeepsInv` | backend/internal/cephcluster/install.go:23-318 | Every step of the orchestration and of every parallel worker keeps the phase invariant. |
| `CephInstall.ReachableInv` | backend/internal/cephcluster/install.go:23-318 | The phase invariant holds at every interleaving point of every run; what calls that fail come to is said by `CephFailures.FailureStopsEverything`. |
| `CephInstall.PhaseOrder` | backend/internal/cephcluster/install.go:23-82 | A step that has left pending implies that every step of every earlier phase succeeded. |
| `CephInstall.MonsAreSerial` | backend/internal/cephcluster/install.go:228-257 | Monitors are created one node at a time: all earlier ones succeeded, no later one has begun. |
| `CephInstall.TerminalOnce` | backend/internal/cephcluster/install.go:23-82 | The terminal job state is set exactly once, and nothing of the main flow follows it. |
| `CephInstall.SuccessCoversSeed` | backend/internal/cephcluster/install.go:23-318 | On success every seeded step succeeded exactly when the nodes are distinct and the founder's client reports the founder's name. |
| `CephInstall.PendingWhenIllNamed` | backend/internal/cephcluster/install.go:23-318 | A repeated node or a misnamed founder leaves a seeded step pending at every point of every run. |
| `CephDestroy.RunInv` | backend/internal/cephcluster/destroy.go:97-336 | At every interleaving point each step's state is a closed function of the outcomes and the position. |
| `CephDestroy.PhasesShowOutcomes` | backend/internal/cephcluster/destroy.go:97-278 | A finished teardown shows each cluster phase failed if and only if it failed; without Ceph only the preflight ran. |
| `CephDestroy.PhasesInOrder` | backend/internal/cephcluster/destroy.go:70-95 | At every point of every run, a phase that has begun has all earlier phases terminal. |
| `CephDestroy.MonitorsOutliveOSDs` | backend/internal/cephcluster/destroy.go:83-95 | No monitor or manager is deleted before the OSDs, no OSD before the metadata servers, no pool before the file systems. |
| `CephDestroy.PurgesShowOutcomes` | backend/internal/cephcluster/destroy.go:313-336 | A finished teardown shows the purge of a node failed if and only if it failed. |
| `CephDestroy.PurgesAreConfluent` | backend/internal/cephcluster/destroy.go:313-336 | All interleavings and launch orders of the purges end with the same steps, and none is appended. |
| `CephDestroy.PurgeComesLast` | backend/internal/cephcluster/destroy.go:97-278 | No purge starts before every cluster-wide phase is terminal, unless the preflight found no Ceph. |
| `CephDestroy.FailsIffAllPurgesFail` | backend/internal/cephcluster/destroy.go:287-308 | The finished job failed exactly when the purge failed on every node. |
| `CephProgress.InstallTerminates` | backend/internal/cephcluster/install.go:23-318 | Every run of an installation over n nodes takes at most 9n + 17 steps, workers included. |
| `CephProgress.InstallNeverStuck` | backend/internal/cephcluster/install.go:23-318 | While the job runs, some goroutine can move whatever its remote call answers. |
| `CephProgress.FailsOnlyOnFailure` | backend/internal/cephcluster/install.go:23-82 | An installation fails only if a remote call or the preflight failed; the converse is `CephFailures.SucceedsIffNothingFailed`. |
| `CephFailures.SucceedsIffNothingFailed` | backend/internal/cephcluster/install.go:23-318 | A finished installation succeeded if and only if no remote call failed, the probes let it proceed, and every node reported its packages installed. |
| `CephFailures.FailureStopsEverything` | backend/internal/cephcluster/install.go:23-318 | Once a call failed its step shows failed for good, nothing of a later phase ever begins and the job never succeeds. |
| `CephFailures.RefusalStopsEverything` | backend/internal/cephcluster/install.go:84-113 | When the probes refuse, no package is installed, nothing later begins and the job never succeeds. |
| `CephFailures.PreflightShowsProbes` | backend/internal/cephcluster/install.go:84-113 | After the preflight a host shows failed if and only if its probe was blocked, for distinct nodes. |
| `CephFailures.PackagesShowAnswers` | backend/internal/cephcluster/install.go:115-201 | After the package phase a node shows failed if and only if its last answer was a failure, in every interleaving of the workers. |
| `CephFailures.PackageFailureStopsEverything` | backend/internal/cephcluster/install.go:115-201 | When a node did not get its packages, nothing later begins and the job never succeeds. |
| `CephProgress.SomeRunSucceeds` | backend/internal/cephcluster/install.go:23-318 | Over any list of nodes some run of the installation succeeds. |
| `CephProgress.SucceedsWithPendingStep` | backend/internal/cephcluster/install.go:203-226 | For every ill-named configuration a run succeeds with a seeded step still pending. |
| `CephProgress.DestroyTerminates` | backend/internal/cephcluster/destroy.go:97-336 | Every run of a destruction over n nodes takes at most 2n + 19 steps, whatever fails. |
| `CephProgress.DestroyNeverStuck` | backend/internal/cephcluster/destroy.go:97-336 | Until the job is finished some goroutine can move. |
| `CephProgress.DestroyFinishes` | backend/internal/cephcluster/destroy.go:97-336 | Whatever the outcomes, some run of the destruction reaches its end. |
| `DrsRules.ViolatesAntiAffinity` | backend/internal/drs/drs.go:321-352 | True exactly when another member of an enabled anti-affinity rule of the guest is listed on the node. |
| `DrsRules.GetPinnedHost` | backend/internal/drs/drs.go:355-370 | The host of the guest's first enabled pin, or none. |
| `DrsRules.PinnedHostIsFirst` | backend/internal/drs/drs.go:355-370 | The pinned host is that of the first enabled pin that lists the guest; there is none only without such a pin. |
| `DrsRules.RuleViolations` | backend/internal/drs/drs.go:453-504 | The reports the detector makes for one rule are as many as its members' places deserve, kind by kind. |
| `DrsRules.CheckViolations` | backend/internal/drs/drs.go:422-509 | Each rule is reported exactly as often as its members' places deserve, and nothing else is reported. |
| `DrsRules.CountIsDeserved` | backend/internal/drs/drs.go:453-504 | Reports from the members' places alone: one per node two members share, one for affinity if and only if two members sit apart, one per member off its pinned host, none for a disabled rule. |
| `DrsRules.AntiAffinityNeverWorse` | backend/internal/drs/drs.go:454-473 | Moving a guest to a node without another member never adds a crowded node. |
| `DrsRules.PinWorseIff` | backend/internal/drs/drs.go:492-504 | A pin reports more after a migration exactly when it named the node the guest left. |
| `DrsScheduler.SelectMigrationCandidates` | backend/internal/drs/drs.go:252-295 | The five smallest guests by memory, or all, smallest first, among exactly the containers and the VMs that are neither templates nor pinned. |
| `DrsScheduler.SelectTargetNode` | backend/internal/drs/drs.go:298-318 | The first target with the capacity that the rules allow; none only if there is none. |
| `DrsScheduler.Classify` | backend/internal/drs/drs.go:160-169 | Exactly the nodes over a threshold, and exactly those under half of both, each once. |
| `DrsScheduler.TargetIsBest` | backend/internal/drs/drs.go:180-197 | The chosen target is underloaded, is not the source, and has the least combined load among the underloaded nodes the rules allow. |
| `DrsScheduler.HighestFirstHolds` | backend/internal/drs/drs.go:175-189 | Moves come in the order of their sources' combined load, and none before every more loaded node was fully served. |
| `DrsScheduler.GenerateRecommendations` | backend/internal/drs/drs.go:157-240 | At most max(1, rate) recommendations, no guest twice, each from an overloaded node to the best allowed underloaded one; the most loaded nodes are served first and fully before any less loaded one; below the limit every selected guest of every overloaded node was recommended or is allowed nowhere. |
| `DrsAnalysis.CalculateNodeLoads` | backend/internal/drs/drs.go:85-130 | One load per online node, with the CPU and memory shares of that node, and exactly its running guests; guests are unique across the loads. |
| `DrsAnalysis.RuleWorseIff` | backend/internal/drs/drs.go:157-509 | Carrying out a recommendation adds a report exactly to the enabled pins naming the node the guest leaves, and to no anti-affinity rule. |
| `DrsAnalysis.RecommendationNeverWorseIff` | backend/internal/drs/drs.go:157-509 | No anti-affinity or pin rule gets more reports if and only if no enabled pin of the guest names the node it leaves. |
| `DrsAnalysis.RecommendationNeverWorse` | backend/internal/drs/drs.go:157-509 | No rule gets worse when all pins of the guest that name a host agree with its first enabled pin. |
| `DrsBatch.BatchCrowdsIff` | backend/internal/drs/drs.go:157-352 | A whole batch crowds no new node of an enabled anti-affinity rule if and only if it sends no two members of the rule to one node. |
| `DrsBatch.CrowdedAfterBatch` | backend/internal/drs/drs.go:157-352 | The crowded nodes after a batch are those still crowded by guests that stay and, disjoint from the old ones, the nodes two members are sent to. |
| `DrsBatch.BatchRaisesCountIff` | backend/internal/drs/drs.go:157-473 | A batch raises the reports of an enabled anti-affinity rule if and only if it collides on more nodes than it relieves. |
| `DrsBatch.BatchStraysIff` | backend/internal/drs/drs.go:157-370 | A whole batch makes no member stray from an enabled pin if and only if it takes no member off the host. |
| `DrsBatch.BatchCanCollide` | backend/internal/drs/drs.go:157-352 | A concrete well-formed cluster without a report on which every run with a rate of at least two creates one. |
| `DrsBatch.EmptyPinShadowsPin` | backend/internal/drs/drs.go:252-370 | A concrete well-formed cluster on which every run returns the move that breaks the only pin naming a host, and the detector reports it. |
| `Alarms.Evaluator.EvaluateAlarm` | backend/internal/alarms/evaluator.go:223-326 | One sample changes the stored row and the history as specified. |
| `Alarms.Evaluator.AcknowledgeAlarm` | backend/internal/alarms/db.go:206-212 | Marks an existing row only. |
| `Alarms.RunRefinesReference` | backend/internal/alarms/evaluator.go:223-341 | After any events the count is the number of violating samples since the last clearing one, the state is normal below the duration and else the level of the latest violation, and the trigger time is that of the violation that completed the duration. |
| `Alarms.RowShowsLatest` | backend/internal/alarms/evaluator.go:223-326 | In every run the row shows the value and the time of the latest decisive sample and the threshold it was held against. |
| `Alarms.OrderedAbove` | backend/internal/alarms/evaluator.go:329-341 | For an ordered "above" definition clearing, neutral and violating samples are the three value ranges. |
| `Alarms.OrderedBelow` | backend/internal/alarms/evaluator.go:329-341 | For an ordered "below" definition the three ranges are mirrored. |
| `Alarms.ValidatedBelowNeverWarns` | backend/internal/alarms/service.go:39-47 | A "below" definition with the thresholds that creation demands is critical below its critical threshold and clear everywhere else. |
| `Alarms.AckShownIffStanding` | backend/internal/alarms/evaluator.go:254-326 | The alarm shows as acknowledged exactly when an acknowledgement reached its row since its last state change. |
| `Alarms.ShownAckIsLatest` | backend/internal/alarms/evaluator.go:254-326 | The user and the time that show are those of the latest acknowledgement. |
| `Alarms.HistoryIsChain` | backend/internal/alarms/db.go:214-221 | History is a chain of real changes from normal to the current state. |
| `Alarms.HistoryIsAllChanges` | backend/internal/alarms/evaluator.go:223-326 | Over every run history is exactly the sequence of changes of the reference state, none missing and none made up. |
| `CommandTracker.Tracker.AddCommand` | backend/internal/agent/commands.go:49-59 | A fresh empty channel becomes the command's pending one. |
| `CommandTracker.Tracker.TakePending` | backend/internal/agent/commands.go:62-79 | Completion removes the command under the lock and owes its result. |
| `CommandTracker.Tracker.CleanupStale` | backend/internal/agent/commands.go:89-111 | The pass answers and removes exactly the stale commands; nothing older than the timeout stays pending. |
| `CommandTracker.StepKeepsInv` | backend/internal/agent/commands.go:49-152 | Every atomic step keeps each pending or in-flight result the only claim on an unused channel. |
| `CommandTracker.AtMostOneResult` | backend/internal/agent/commands.go:49-152 | In every interleaving a command's channel gets at most one result, it carries the command's id, and no send is dropped. |
| `CommandTracker.NoResultIsLost` | backend/internal/agent/commands.go:49-152 | In every interleaving a channel has no result exactly when its command is pending on it, its result is on the way, or it was removed or overwritten before. |
| `CommandTracker.ResultsAreGiven` | backend/internal/agent/commands.go:62-111 | Whatever a channel carries is a result that was completed, unchanged, or the time-out answer of a cleanup pass. |
| `CommandTracker.AddFates` | backend/internal/agent/commands.go:49-59 | A new command has a fresh empty channel and its send time; every other command keeps what it had. |
| `CommandTracker.RemovalFates` | backend/internal/agent/commands.go:62-86 | Completing and removing take exactly that command off the list; completing owes its result to its channel. |
| `CommandTracker.ChannelFates` | backend/internal/agent/commands.go:62-79 | A result that lands is appended to its channel alone; a reader takes one. |
| `CommandTracker.CleanupAnswersStale` | backend/internal/agent/commands.go:89-111 | Every command a pass removes got a time-out answer. |
| `BrowserHub.HubLoop.HandleBroadcast` | backend/internal/api/websocket.go:133-160 | Every client with room gets the message; exactly the full ones are removed and closed. |
| `BrowserHub.HubLoop.HandleStop` | backend/internal/api/websocket.go:104-113 | Shutdown closes the channel of every client once. |
| `BrowserHub.HubLoop.HandleUnregister` | backend/internal/api/websocket.go:124-131 | A registered client is removed and closed; any other is ignored. |
| `BrowserHub.BroadcastFates` | backend/internal/api/websocket.go:133-160 | A registered client with room stays, open, and is sent exactly the message; a full one is removed and closed and sent nothing; no other channel changes. |
| `BrowserHub.RegisterFates` | backend/internal/api/websocket.go:115-122 | A new client is registered with an open channel that holds its initial state alone. |
| `BrowserHub.RemovalFates` | backend/internal/api/websocket.go:104-131 | Unregistering removes and closes that client, stopping all of them, and nothing is sent. |
| `BrowserHub.DrainFates` | backend/internal/api/websocket.go:606-615 | A writer takes one message; a stopped hub handles nothing else. |
| `BrowserHub.LeavesIff` | backend/internal/api/websocket.go:101-162 | A client leaves if and only if it is unregistered, the hub stops, or a broadcast finds its buffer full. |
| `BrowserHub.RunInv` | backend/internal/api/websocket.go:101-162 | Over every run each channel's contents, closing and membership agree with the log of broadcasts. |
| `BrowserHub.DeliveryIsGapFree` | backend/internal/api/websocket.go:101-162 | A client is closed at most once, never sent to after that, and is sent its initial state and then exactly the broadcasts from its registration to its removal, in order; why it was removed is `BrowserHub.StayEndsForCause`. |
| `BrowserHub.StayEndsForCause` | backend/internal/api/websocket.go:101-162 | In every run a stay that ended did so at its unregistration, at the stop, or at a broadcast that found its buffer full. |
| `BrowserHub.FaultlessIffNoRejoin` | backend/internal/api/websocket.go:101-162 | Over every run up to a shutdown, no closed channel is sent to or closed again if and only if no client registers after it was removed. |
| `Inventory.ApplyKeepsValid` | backend/internal/inventory/service.go:70-681 | Each call, edits and status changes included, keeps every host with exactly one existing owner, ids and names unique, and clusters in existing datacenters. |
| `InventoryRuns.RunKeepsOwnership` | backend/internal/inventory/db.go:444-1309 | The same over every run of inventory calls and legacy clean-up passes. |
| `Inventory.MoveAll` | backend/internal/inventory/db.go:1203-1230 | The transaction loop moves all listed hosts, or finds one missing. |
| `Inventory.FormClusterTouchesOnlyListed` | backend/internal/inventory/db.go:1151-1238 | Listed hosts are owned by the new cluster alone, tokens change only where an update is given, unlisted hosts do not change. |
| `InventoryFates.HostFates` | backend/internal/inventory/db.go:841-1309 | Each call loses a host only by deleting it or its owner, gives every other host exactly the owner, connection and status it is asked to give, and changes none when it fails. |
| `InventoryFates.EditStoresSecretIff` | backend/internal/inventory/db.go:1056-1075 | After an accepted edit the host holds the given token if and only if it held the given secret before. |
| `InventoryFates.JoinedTokenIff` | backend/internal/pvecluster/orchestrate.go:306-336 | A node that joined ends up with the token of its cluster if and only if it had its secret already. |
| `InventoryFates.JoinedConn` | backend/internal/pvecluster/orchestrate.go:306-336 | A joined node holds the token id of its cluster and its own old secret. |
| `InventoryFates.JoinLeavesOldSecret` | backend/internal/pvecluster/orchestrate.go:443-460 | An input on which a joined node is left with the wrong secret. |
| `InventoryFates.HostOrigins` | backend/internal/inventory/db.go:841-900 | Every host after a call was there before or is the one the call adds. |
| `InventoryFates.HostAdded` | backend/internal/inventory/db.go:841-900 | An added host is a staged row with the given connection and owner. |
| `InventoryFates.ClusterFates` | backend/internal/inventory/db.go:444-1309 | Each call loses a cluster only by deleting it and changes exactly what it is asked to: the datacenter of an orphan or a moved cluster, the name of an edited one, the status of one that fills or empties. |
| `InventoryFates.ClusterOrigins` | backend/internal/inventory/service.go:501-581 | Every cluster after a call was there before or is the one it creates, with its PVE name, suffixed only if that is taken. |
| `InventoryFates.DatacenterFates` | backend/internal/inventory/service.go:70-131 | Datacenters come, go and are renamed only by the calls for that. |
| `InventoryAccepts.AcceptedIff` | backend/internal/inventory/service.go:70-681 | A call is let through if and only if it comes with what it needs and the rows it leaves break no constraint. |
| `InventoryFates.AutoRouteLands` | backend/internal/inventory/service.go:501-581 | A new host that probes as a member ends in a cluster correlated to that PVE cluster. |
| `InventoryFates.PromoteLands` | backend/internal/inventory/reconciler.go:125-162 | A promoted host ends in a cluster correlated to its PVE cluster. |
| `InventoryFates.NamesStayUnique` | backend/internal/inventory/reconciler.go:125-162 | No call, failing ones included, correlates two clusters to one PVE cluster but an explicit request for a taken name. |
| `InventoryStore.Store.DeleteDatacenter` | backend/internal/inventory/service.go:121-131 | Its standalone hosts go row by row and its clusters become orphans; ownership stays valid. |
| `InventoryStore.Store.DeleteCluster` | backend/internal/inventory/service.go:324-334 | The cluster and, row by row, exactly its hosts disappear. |
| `InventoryStore.Store.DropHosts` | backend/internal/inventory/db.go:120-134 | The cascade, row by row, removes exactly the hosts not to be kept and preserves the order of the others. |
| `InventoryStore.Store.OrphanClusters` | backend/internal/inventory/db.go:108-119 | The clusters of a deleted datacenter, row by row, keep everything but that reference. |
| `InventoryStore.Store.FormClusterFromHosts` | backend/internal/inventory/db.go:1151-1238 | Either the cluster exists with all listed hosts in it, or the inventory is unchanged. |
| `InventoryStore.Store.AddHostsToCluster` | backend/internal/inventory/db.go:1252-1309 | Either all listed hosts move, or the inventory is unchanged. |
| `InventoryStore.Store.AddHostAutoRoute` | backend/internal/inventory/service.go:501-581 | Routes by the probe: into the correlated cluster, found or created, or standalone; a failed probe changes nothing. |
| `InventoryStore.Store.PromoteStandalone` | backend/internal/inventory/reconciler.go:125-162 | Moves the host into the correlated cluster, found or created, and activates an empty one; a host that is gone leaves the created cluster behind. |
| `InventoryTree.GroupClusters` | backend/internal/inventory/service.go:156-165 | Grouping by datacenter loses no cluster and keeps the order. |
| `InventoryTree.GroupedIsTotal` | backend/internal/inventory/service.go:156-165 | Over distinct keys the groups together weigh exactly what the keyed elements weigh. |
| `InventoryTree.TreeListsEverythingOnce` | backend/internal/inventory/service.go:134-180 | Tree and orphans together list each cluster and each host exactly once. |
| `InventoryTree.GetDatacenterTree` | backend/internal/inventory/service.go:134-180 | The loops build that tree, and every cluster and host stands under its own owner. |
| `InventoryReconcile.ReconcileOne` | backend/internal/inventory/reconciler.go:193-281 | One cluster's handling, branch by branch, does what its verdict says to the tables and the report. |
| `InventoryReconcile.VerdictMeaning` | backend/internal/inventory/reconciler.go:193-281 | When each verdict is reached: by the correlation, the hosts, and the answer of the first host with a secret. |
| `InventoryReconcile.ReconcileLegacy` | backend/internal/inventory/reconciler.go:185-284 | The pass over a snapshot reaches the specified tables, and its report is the one read off the tables at the start. |
| `InventoryReconcile.ReconcileConserves` | backend/internal/inventory/reconciler.go:185-284 | All connection records are kept, a cluster disappears exactly when its sole host probed standalone, that host then stands alone in the cluster's datacenter, and no other host changes. |
| `InventoryReconcile.ReconcileNames` | backend/internal/inventory/reconciler.go:225-238 | Every cluster that stays is named by the answer of its first host with a secret, or keeps its name. |
| `InventoryReconcile.ReconcileIdempotent` | backend/internal/inventory/reconciler.go:185-284 | A second pass with the same answers changes nothing, in whatever order it lists the clusters. |
| `InventoryReconcile.SecondReportQuietIff` | backend/internal/inventory/reconciler.go:175-284 | A second pass reports nothing demoted or deleted, and nothing correlated if and only if no cluster was answered with an empty name. |
| `InventoryReconcile.EmptyNameIsReportedAgain` | backend/internal/inventory/reconciler.go:231-238 | An input on which the second pass reports the same correlation again. |
| `InventoryReconcile.ReportTellsDeleted` | backend/internal/inventory/reconciler.go:185-284 | The report names as deleted exactly the clusters whose sole host probed standalone. |
| `InventoryReconcile.ReportTells` | backend/internal/inventory/reconciler.go:175-284 | Errors, correlations and the four kinds of skips list exactly the clusters with those verdicts. |
| `LoginLockout.AuthService.Login` | backend/internal/auth/service.go:228-283 | For every policy, the outcome of each attempt and the user row after it; no other user changes. |
| `LoginLockout.LockedChangesNothing` | backend/internal/auth/service.go:228-239 | An attempt rejected as locked changes neither the count nor the lock. |
| `LoginLockout.CorrectPasswordLogsIn` | backend/internal/auth/service.go:228-283 | A correct password on an account that is not locked logs in and clears the count and the lock. |
| `LoginLockout.WrongPasswordCounts` | backend/internal/auth/service.go:241-275 | A wrong password is counted; below the limit it changes nothing else, at or past it it locks from now on. |
| `LoginLockout.LockLengths` | backend/internal/auth/service.go:257-266 | The lock has r + 1 base lengths in round r with a progressive policy, and always one without. |
| `LoginLockout.WrongPasswordsAreSpaced` | backend/internal/auth/service.go:228-283 | In every run the (M+k)-th checked wrong password since the last reset comes at least the sum of the first k locks after the M-th. |
| `LoginLockout.UnitsOfRounds` | backend/internal/auth/service.go:257-264 | After j rounds of M failures the progressive locks add up to M·j(j+1)/2 base locks. |
| `LoginLockout.DoublesOnlyOnce` | backend/internal/auth/service.go:259-263 | The lock of a round is twice that of the round before if and only if that was the first. |
| `LoginLockout.Configured` | backend/internal/config/config.go:311-316 | Loading the configuration replaces absent limits and locks by their defaults. |
| `LoginLockout.ConfiguredNeverCrashes` | backend/internal/config/config.go:311-316 | No configuration makes a login divide by zero. |
| `LoginLockout.EveryFailureLocksIff` | backend/internal/auth/service.go:257-266 | With a positive lock every wrong password at or past the limit locks the account if and only if the policy is not progressive with a negative limit. |
| `LoginLockout.CanLockIff` | backend/internal/auth/service.go:228-283 | For every configured policy with a positive lock some run in time order is rejected as locked if and only if it is not progressive with a negative limit. |
| `LoginLockout.NegativeLimitNeverLocks` | backend/internal/auth/service.go:257-266 | The input with a limit of -1: no run locks the account. |
| `ShellQuoting.QuoteRoundTrip` | backend/internal/api/handlers.go:304-309 | The POSIX shell reads a quoted string back as that single word, for every string. |
| `ShellQuoting.JoinRoundTrip` | backend/internal/api/handlers.go:1002-1024 | Quoted or plain arguments joined by blanks are read back as the argument list. |
| `ShellQuoting.ItoaValue` | backend/internal/api/handlers.go:1009-1014 | The decimal form of a positive size reads back as that size. |
| `ShellQuoting.NumberValue` | backend/internal/api/handlers.go:1009-1014 | The printed size reads back as the requested one. |
| `ShellQuoting.ArgumentsMeanRequest` | backend/internal/api/handlers.go:1002-1024 | The intended argument list starts with the device, and each flag is there if and only if the request has a value for it, with that value. |
| `ShellQuoting.BuildOsdCommand` | backend/internal/api/handlers.go:1002-1024 | The assembled OSD command is read back as exactly the intended argument list. |

## Left out

- HTTP handlers, routing, sessions, cookies, the console proxy and the frontend: input and output only.
- PVE REST calls, SSH sessions, task polling, timeouts and health polling: they appear as arbitrary outcomes.
- SQLite, prepared statements and schema migration: only the constraints and the effect of each statement appear.
- Concurrent service calls on folders, inventory and users, and database failures in the middle of a call.
- Timestamps of steps, rows and sessions (but the job list's start time, alarm times and lock times are kept), step messages, UPIDs, log text and recommendation reasons.
- The cluster and sort-order columns of folders: the response is proved for any query order.
- Trimming of names, password login and token creation when a host is added: the connection record is given.
- The plain single-row inserts, updates and deletes of the inventory have no store method; they are calls of the specification only.
- The enabled flag and agent name of clusters, and the description of datacenters.
- The periodic loops of the reconciler and its comparison of existing clusters, which only logs.
- Leap seconds: days have 86400 seconds, as in Unix time.
- Sub-second time: schedules, samples and locks are whole seconds.
- DRS affinity rules as a placement guarantee: the scheduler does not consult them; only their reports are counted.
- The standard-deviation gate of a DRS run, priorities and identifiers of recommendations.
- Webhook delivery and the choice of resources and metrics for an alarm: samples are the input.
- TOTP, trusted addresses, rate limits and session creation after a correct password.
- NUL in arguments and the shell's expansions, comments and operators: the tokenizer covers blanks, quotes, backslash and ordinary characters, and refuses the rest.
- The certificate, tag, role, content-library, snapshot and activity packages: they would add only easy members.
