# Backup operator: verified model

A Dafny model of the backup operator's controllers and admission code, with proofs of what they keep over every
run. `dafny verify dfyconfig.toml` checks the whole project.

## What is modelled

- **The BackupTask reconcile protocol.** `Api` is a small API server: tasks, CronJobs, ConfigMaps and records
  with resource versions, generations, UIDs, finalizers and deletion marks. `Reconciler` is the controller as a
  program-counter machine in which every API call is one step that may be answered, dropped, or take effect
  without an answer. `Cluster` lets users, the CronJob controller, foreign writers and the agent act between any
  two calls, and lets a reconciler crash anywhere. `ReconcileMethod` is the same controller as sequential,
  imperative code, proved to drive the store exactly as the machine does. On the machine rest `FinalizerSafety`,
  `StatusTruth`, `StatusCoherence`, `NonInterference`, `Convergence`, `PassEnds`, and, said on the stored fields,
  `Outputs` (CronJob, ConfigMap, status) and `RecordsAfterPass` (which records are left).
- **Retention.** `Retention` has the selection with its int64 nanosecond arithmetic, `DeleteLoop` the deletion
  loop over faulty calls and the history count.
- **The BackupRecord lifecycle.** `Jobs` (latest Job), `RecordController` (the machine for one record and the
  history of what its passes saw), `RecordMethod` (the sequential code), `RecordSafety` (properties of all runs)
  and `RecordCompletion` (what exactly one pass achieves, and when a missing expiration time is final).
- **Admission.** `Regex` and `Cron` are the schedule recogniser and its grammar; `Admission` gives the field
  errors as a function and the meaning of "valid", `AdmissionProperties` and `FieldErrors` (path by path)
  relate the two, and `Webhook` is the validating and defaulting code with its error accumulation and its writes
  through pointers.
- **From spec to pod.** `Pod`, `PodProperties` and `AgentPod` (volumes, mounts, environment, both reconciler
  variants), `Sidecars` (the earlier variant's database clients and what admission guarantees them).
- **Deep copies.** `DeepCopyStructs`, `DeepCopyObjects` and `DeepCopy`, over objects, nil and slices, up to the
  task list.

`Types` holds the API types shared by all, `Decimal` the numerals of `strconv.Itoa` and `%d`.

## Assumptions of the store model

- Reconciles of one key are serial; reads return the current state. A write with a stale version conflicts; the
  ConfigMap update carries no version and is unconditional. A spec change or a deletion mark starts a new generation.
- Versions are counted per name and never reused; a UID is a name together with the version it was created at.
- Nobody but the operator writes the status of a task or of a record, and new ones start without a verdict.
- Only the controller edits its own finalizer, and nobody else makes a BackupTask the controller of a CronJob.
  `SetControllerReference` refuses a CronJob whose controller differs in kind or name, not in UID.
- The clock, the order of listings, the fate of each call and the failure text of pods are parameters.
- Target and storage JSON documents are represented by the values they encode.

## Where code and comments or documentation differ

- The comment in `filterRecordsToDelete` announces newest-first order, but the list is only copied.
- A record hit by both rules is listed twice, so `BackupHistoryCount` is too low by those records and can be
  negative; it is set in memory only and never reaches the store.
- `MaxAgeDays` overflows from 106752 on; at 106752 a record created this instant is already expired.
- The record controller's `CompletionTime` is part of the spec and is dropped by the status write.
- When the write of the verdict is not answered, or the next write does not take effect, a Completed record stays
  without expiration time for good.
- A claim referenced twice gives duplicate volume names; in the earlier variant mount paths collide.
- The command falls back to its default on an empty image, not on an empty command.
- The schedule recogniser accepts `*`, one number or `*/n` per field: no lists, ranges or names of the crontab
  utility (INPUT FILES section, IEEE Std 1003.1), whose number ranges it keeps, and `*/n`, which that standard
  does not have, with a step of zero for minute, hour and weekday.
- The two `NewInvalid` calls of the webhook name different API groups; the model keeps both.
- The record controller and the validators are complete code that `cmd/main.go` does not start.

## Model

| member | source | states |
|---|---|---|
| `FinalizerSafety.FinalizerSafety` | internal/controller/backuptask_controller.go:91-113 | in every state that interleaved, faulty, crashing runs of all reconcilers and all other writers can reach, a CronJob controlled by a BackupTask carries the name derived from it, and that task exists, has the finalizer, and is the very incarnation (UID) the owner reference names, also across deletion and re-creation |
| `FinalizerSafety.StepFrame` | internal/controller/backuptask_controller.go:74-214 | a call made for one task touches only that task, its CronJob and its ConfigMap, and leaves the records as they are, except that a deletion step may remove its first pending one |
| `StatusTruth.StatusNeverLies` | internal/controller/backuptask_controller.go:115-156 | while nobody else writes the two outputs, an undeleted task never reports a generation beyond its own, and when it reports the current one the stored CronJob spec, its controller and the whole ConfigMap are the ones built from the current spec; what these hold is the next row |
| `Outputs.ReportedTaskIsScheduled` | internal/controller/backuptask_controller.go:179-251 | then, on the stored fields: the CronJob has the task's schedule, is not suspended and is controlled by this incarnation; its Jobs carry the two labels the record controller selects by, for this name and UID and no other; and every ConfigMap its pod mounts is stored and holds the current targets, storage and count |
| `Outputs.JobsOfOneIncarnation` | internal/controller/backuptask_controller.go:230-236 | across deletion and re-creation the Jobs of an earlier CronJob are found for the task stored later if and only if it is the same incarnation |
| `Outputs.CompletePassPublishes` | internal/controller/backuptask_controller.go:144-177 | after a complete pass over an undeleted task: only finalizer and status of the task have changed; the CronJob keeps its labels and status and runs the schedule; phase, schedule time (the CronJob's when it has one, else the remembered one), first active Job and both conditions are what the CronJob reports |
| `Outputs.ForeignCronLeftAlone` | internal/controller/backuptask_controller.go:193-211 | a CronJob controlled by something else is never touched by a pass over an undeleted task under any script, and no status is written and no record deleted then |
| `StatusCoherence.StatusForCoherentIff` | internal/controller/backuptask_controller.go:567-654 | the status computed from a CronJob is coherent (Running iff an active job is set iff the Running condition holds, Scheduled iff a schedule time is set, Completed implies Scheduled) exactly when the CronJob is not suspended with an active job |
| `StatusCoherence.StatusCoherentInEveryRun` | internal/controller/backuptask_controller.go:148-156 | every stored status is coherent in every run, because Suspend=false was just written; the history count stays 0 in the store |
| `StatusCoherence.LastScheduledNeverForgotten` | internal/controller/backuptask_controller.go:591-594 | the last schedule time of one incarnation never goes back to nil |
| `StatusCoherence.ReconcilerKeepsUserFields` | internal/controller/backuptask_controller.go:100-113 | no call of any pass, however stale its copy of the task, changes spec, generation, identity, deletion mark or foreign finalizers |
| `Convergence.PassGood` | internal/controller/backuptask_controller.go:74-177 | a pass under any faults and cut off anywhere leaves the expected outcome unchanged, and a complete pass reaches it; the expectation is written without reference to the calls |
| `Convergence.CrashRecovery` | internal/controller/backuptask_controller.go:108-130 | any number of interrupted passes followed by one complete pass leaves the same task, CronJob (spec, labels, owner) and ConfigMap as one complete pass alone, up to versions and condition times |
| `Convergence.CompletePassIdempotent` | internal/controller/backuptask_controller.go:144-177 | repeating a complete pass changes nothing of the task, its CronJob and its ConfigMap but versions and condition times; records are not part of this comparison |
| `PassEnds.EveryAnsweredPassEnds` | internal/controller/backuptask_controller.go:74-177 | from every store and every point of a pass, every script of answered calls with complete listings that is as long as the explicit bound takes the pass to its end, whatever the clock and the listing order |
| `PassEnds.AnsweredPassExists` | internal/controller/backuptask_controller.go:74-177 | such a script exists for every store and point |
| `PassEnds.RetentionAppliedIff` | internal/controller/backuptask_controller.go:158-168 | a complete pass comes to apply retention if and only if the task is not being deleted and has a policy, and its CronJob is absent or is its own and without an active job |
| `PassEnds.CompletePassLeavesSurvivors` | internal/controller/backuptask_controller.go:713-737 | after a complete pass that applies retention the matching records are exactly the survivors of the listing taken then, under the policy of the spec read at the start; which records these are on the store is the next row |
| `RecordsAfterPass.KeptIffWithinLimits` | internal/controller/backuptask_controller.go:740-764 | after such a pass the record at position i of the listing is stored, unchanged, if and only if i is below MaxBackupCount (when set) and its stored creation time plus MaxAgeDays (when set) is not before the clock |
| `RecordsAfterPass.PassOnlyDeletes` | internal/controller/backuptask_controller.go:713-732 | a pass under any script leaves every record as it is or removes it, and removes only records of its own task |
| `RecordsAfterPass.FinalizationExact` | internal/controller/backuptask_controller.go:770-802 | a pass over a deleted task under any script: the records are the old ones minus exactly the listed ones whose deletion took effect; the finalizer goes if and only if the CronJob deletion and both reads are answered and, after one try per listed record, the last write takes effect; the CronJob goes whoever controls it |
| `RecordsAfterPass.FinalizedLeavesIff` | internal/controller/backuptask_controller.go:794-798 | a task without finalizer leaves behind exactly those of its records whose deletion was lost, because those errors are swallowed |
| `RecordsAfterPass.CompletePassFinalizes` | internal/controller/backuptask_controller.go:770-802 | after a complete pass over a deleted task its finalizer, its CronJob and all its records are gone |
| `Reconciler.NamesInjective` | internal/controller/backuptask_controller.go:377-379 | "backup-%s" and "%s-targets" are injective in namespace and name, both directions |
| `NonInterference.StepIsGraft` | internal/controller/backuptask_controller.go:179-214 | a call for one task changes exactly that task's part of the store (task, CronJob, ConfigMap, matching records) |
| `NonInterference.StepReadsLocal` | internal/controller/backuptask_controller.go:714-732 | what a call does depends only on that part: two stores that agree on it lead to the same next call and the same part |
| `NonInterference.ActionsCommute` | internal/controller/backuptask_controller.go:770-798 | calls of reconcilers for different tasks commute |
| `NonInterference.InterleavingIsSequential` | internal/controller/backuptask_controller.go:179-214 | every interleaving of the passes of one task with those of others gives the same world as running them one after the other |
| `NonInterference.ThirdPartyUntouched` | internal/controller/backuptask_controller.go:714-732 | passes for other tasks leave a third task and all its objects as they are |
| `ReconcileMethod.TaskObject.TakeStatus` | internal/controller/backuptask_controller.go:574-614 | the field assignments of the status update, taken together, are the status function the run properties are about |
| `ReconcileMethod.TaskObject.UpdateConditions` | internal/controller/backuptask_controller.go:620-654 | the two conditions as built step by step |
| `ReconcileMethod.TaskReconciler.EnsureTargets` | internal/controller/backuptask_controller.go:115-130 | create, and update when it already exists, with every failure path |
| `ReconcileMethod.TaskReconciler.CreateOrUpdateCronJob` | internal/controller/backuptask_controller.go:179-214 | read, create, refuse, leave alone or update: the sequence of calls is that of the machine for every script of outcomes; what the CronJob then holds is stated by the rows of Outputs |
| `ReconcileMethod.TaskReconciler.UpdateBackupTaskStatus` | internal/controller/backuptask_controller.go:567-618 | re-read and status write |
| `ReconcileMethod.TaskReconciler.DeleteRecords` | internal/controller/backuptask_controller.go:726-732 | the deletion loop, which goes on after an error |
| `ReconcileMethod.TaskReconciler.ApplyRetentionPolicy` | internal/controller/backuptask_controller.go:708-738 | list, select and delete as the machine does for every script (which records that leaves: RecordsAfterPass.KeptIffWithinLimits), and the in-memory history count with its conversion to int32; when this point is reached, and that the count is untouched otherwise |
| `ReconcileMethod.TaskReconciler.FinalizeBackupTask` | internal/controller/backuptask_controller.go:770-802 | CronJob deletion that tolerates absence, then record deletions whose errors are swallowed, as the machine does for every script; what that leaves: RecordsAfterPass.FinalizationExact |
| `ReconcileMethod.TaskReconciler.ReconcileBackupTask` | internal/controller/backuptask_controller.go:144-177 | CronJob, status, retention, in this order and with its early returns |
| `ReconcileMethod.TaskReconciler.Reconcile` | internal/controller/backuptask_controller.go:74-142 | for every store and every script of call outcomes the sequential code leaves exactly the store the call-by-call machine leaves |
| `Retention.FilterRecordsToDelete` | internal/controller/backuptask_controller.go:740-764 | the two overlapping rules: suffix beyond the count, then every expired record; a negative count is the slice panic |
| `Retention.SelectedIsHit` | internal/controller/backuptask_controller.go:748-761 | everything selected is a listed record that fails one of the limits |
| `Retention.SelectionExact` | internal/controller/backuptask_controller.go:748-761 | a record is selected if and only if its position reaches MaxBackupCount or it is older than MaxAgeDays |
| `Retention.RetentionKeepsNewestPrefix` | internal/controller/backuptask_controller.go:744-761 | on a newest-first list the survivors are the prefix of length min(MaxBackupCount, number of unexpired records) |
| `Retention.KeepsNewestIffOrderedAtCut` | internal/controller/backuptask_controller.go:744-751 | the list is copied but not sorted, so no deleted record is newer than a kept one exactly when the listing is ordered across the cut |
| `Retention.KeepsNewestForEveryCountIff` | internal/controller/backuptask_controller.go:744-761 | no deleted record is newer than a kept one for every count the policy may name if and only if the records the age rule spares are listed newest first |
| `Retention.OldestFirstDeletesNewest` | internal/controller/backuptask_controller.go:744-751 | a two-record listing on which the newest backup is deleted and the oldest kept |
| `Retention.RetentionIdempotent` | internal/controller/backuptask_controller.go:740-764 | run on its own survivors at the same instant it selects nothing |
| `Retention.RetentionMonotone` | internal/controller/backuptask_controller.go:740-764 | a lower count, an age (as computed) that is no longer, or a later clock only enlarges the selection |
| `Retention.AgeRuleMonotoneIff` | internal/controller/backuptask_controller.go:753-761 | replacing MaxAgeDays e by d enlarges the selection for all lists and clocks if and only if the int64 age of d is at most that of e |
| `Retention.DaysMonotoneIff` | internal/controller/backuptask_controller.go:753-761 | within the exact range that is: if and only if d is at most e |
| `Retention.MoreDaysCanDeleteMore` | internal/controller/backuptask_controller.go:754-760 | outside it 106752 days delete what one day spares |
| `Retention.AgeExactIff` | internal/controller/backuptask_controller.go:754-755 | the int64 nanosecond product equals the exact one if and only if the number of days is within 106751 either way |
| `Retention.AgeMonotoneInRange` | internal/controller/backuptask_controller.go:754-757 | in that range more days means a longer life |
| `Retention.AgeOverflowSelectsEverything` | internal/controller/backuptask_controller.go:754-760 | 106752 days wrap to a negative age, and a record created this instant is expired |
| `Retention.NeverBeforeExpiration` | controllers/backuprecord_controller.go:87-98 | the age rule never selects a record before the expiration time published for it under the same number of days, given creation not before start |
| `DeleteLoop.DeleteLoopConserves` | internal/controller/backuptask_controller.go:726-732 | with arbitrary failures and a cut-off anywhere the store afterwards is the old one minus exactly the selected records whose deletion took effect; duplicates change nothing |
| `DeleteLoop.HistoryCountOff` | internal/controller/backuptask_controller.go:734-735 | the history count is the number of survivors minus the number of records hit by both rules |
| `DeleteLoop.HistoryCountExactIff` | internal/controller/backuptask_controller.go:734-735 | it is the number of survivors if and only if no record is hit twice |
| `DeleteLoop.HistoryCountNegative` | internal/controller/backuptask_controller.go:734-735 | three records for which it is -3 |
| `DeleteLoop.RemainingAfterRetention` | internal/controller/backuptask_controller.go:713-735 | once the selected records are gone, the matching records are the survivors, and number the history count plus those hit by both rules |
| `DeleteLoop.LoopLeavesHistoryCount` | internal/controller/backuptask_controller.go:726-735 | the same for the loop over faulty calls, provided some deletion of every selected record takes effect |
| `Jobs.FindLatest` | controllers/backuprecord_controller.go:151-158 | the loop finds the first Job with the latest creation time |
| `Jobs.LatestUnique` | controllers/backuprecord_controller.go:151-158 | there is only one such position |
| `Jobs.LatestIgnoresOrder` | controllers/backuprecord_controller.go:151-158 | among all Jobs of the namespace the one that counts is the same in every order of the listing, if no two matching ones were created at the same instant |
| `RecordMethod.RecordReconciler.CheckBackupJobStatus` | controllers/backuprecord_controller.go:135-199 | the verdict branches with their writes, as the machine does for every script; which phase that is: RecordCompletion.PhaseExact |
| `RecordMethod.RecordReconciler.Finish` | controllers/backuprecord_controller.go:87-130 | expiration time and verification with a write each, and the early return between them |
| `RecordMethod.RecordReconciler.Reconcile` | controllers/backuprecord_controller.go:35-133 | for every store and script the sequential code leaves exactly the store the call-by-call machine leaves |
| `RecordSafety.VerdictsAbsorbing` | controllers/backuprecord_controller.go:48-52 | a persisted Completed or Failed never changes while the record lives, whatever fails and whoever acts, and some earlier pass over the same incarnation listed Jobs of which the latest with both labels had succeeded > 0 (for Failed: succeeded <= 0 and failed > 0) |
| `RecordSafety.VerdictIgnoresOrder` | controllers/backuprecord_controller.go:151-196 | the verdict is the same for every order of Jobs whose matching ones have distinct creation times |
| `RecordSafety.ExpirationJustifiedAndFixed` | controllers/backuprecord_controller.go:87-103 | a persisted expiration time belongs to a Completed record, is start plus MaxAgeDays as one pass over the same incarnation read them together with a latest Job that had succeeded > 0, and never changes |
| `RecordSafety.SuccessOnlyFromPending` | controllers/backuprecord_controller.go:105-129 | verification becomes Success only from Pending and only while Completed |
| `RecordSafety.CompletionTimeNeverPersisted` | controllers/backuprecord_controller.go:164-175 | the controller never changes the stored spec: the completion time it sets is lost in the status write |
| `RecordCompletion.CompletionExact` | controllers/backuprecord_controller.go:87-175 | one pass over an undecided record whose latest matching Job has succeeded > 0, under any script: Completed if and only if the verdict write takes effect; the expiration time, start plus MaxAgeDays, is set if and only if there is an age policy, that write is answered and the next takes effect; a pending verification succeeds, with its time and message, if and only if the writes before its own are answered and its own takes effect |
| `RecordCompletion.PhaseExact` | controllers/backuprecord_controller.go:135-199 | one pass over an undecided record, under any script, with the latest Job that has both labels: nothing changes unless the verdict write takes effect, and then Completed if and only if succeeded > 0, Failed (with the failure text) if and only if succeeded <= 0 and failed > 0, Running otherwise |
| `RecordCompletion.NoJobNothingHappens` | controllers/backuprecord_controller.go:147-149 | without a Job that has both labels a pass changes nothing |
| `RecordCompletion.OrphanExpires` | controllers/backuprecord_controller.go:61-80 | when the task is gone an undecided record expires if and only if both reads are answered and the write takes effect, and nothing but phase and error text of it changes |
| `RecordCompletion.PassIgnoresJobOrder` | controllers/backuprecord_controller.go:151-158 | a pass under any script leaves the same record for every order in which the Jobs are listed, if no two matching ones were created at the same instant |
| `RecordCompletion.CompletedWithoutExpirationIff` | controllers/backuprecord_controller.go:87-103 | so a pass leaves a Completed record without expiration time under an age policy if and only if the verdict write took effect but was not answered, or the next write did not take effect |
| `RecordCompletion.CompletingPass` | controllers/backuprecord_controller.go:87-133 | a fault-free pass does all three |
| `RecordCompletion.ExpirationStillPossibleIff` | controllers/backuprecord_controller.go:48-103 | over runs: a completed record without expiration time can still get one if and only if the write that adds it is under way with the stored version; a lost answer, a crash, a lost second write and an edit in between all take that away for good |
| `RecordCompletion.LostExpirationIsLostForGood` | controllers/backuprecord_controller.go:48-103 | after every pass of the failing kind that incarnation stays Completed and without expiration time, whatever anybody does |
| `RecordCompletion.ExpiredLeftIff` | controllers/backuprecord_controller.go:61-199 | a pass takes a record out of Expired if and only if the task exists, there is a matching Job, and the write of the verdict takes effect after answered reads |
| `Pod.BuildVolumes` | internal/controller/backuptask_controller.go:301-375 | the nested loops yield the fixed volumes, one volume per claim use in target order, and the NFS volume |
| `Pod.BuildVolumeMounts` | internal/controller/backuptask_controller.go:500-546 | the separately written mount loops, with the NFS mount before the claims |
| `AgentPod.BuiltPodServesTask` | internal/controller/backuptask_controller.go:301-546 | the built pod, on its fields: each path that references a claim has that claim as a volume, under a name no other source has, mounted read-only at its path and sub-path, and there is no other claim; the configuration directory is the task's ConfigMap; the NFS export is mounted for NFS storage only; name, namespace and each retention number are in the environment if and only if set; image and command are both given or both default |
| `AgentPod.EarlierPodServesClaims` | controllers/backuptask_controller.go:481-512 | in the earlier pod the claim of path j is mounted read-only with its sub-path at the place numbered j |
| `Pod.RetentionPolicyToEnv` | internal/controller/backuptask_controller.go:656-706 | one variable per limit that is set and per KeepLast number that is not zero, in order |
| `PodProperties.VolumesMatchMounts` | internal/controller/backuptask_controller.go:301-375 | the multiset of volume names equals the multiset of mount names for every target list and storage |
| `PodProperties.VolumeNamesDistinctIff` | internal/controller/backuptask_controller.go:339-357 | volume names are pairwise distinct if and only if no claim is referenced twice |
| `PodProperties.EarlierBuildVolumes` | controllers/backuptask_controller.go:283-355 | the earlier volume builder with its secret volumes |
| `PodProperties.EarlierBuildVolumeMounts` | controllers/backuptask_controller.go:481-512 | the earlier mount builder |
| `PodProperties.EarlierMountsHaveVolumes` | controllers/backuptask_controller.go:325-352 | there every mount has its volume, and the surplus is exactly the secret volumes, which nothing mounts |
| `PodProperties.EarlierMountPathsDistinctIff` | controllers/backuptask_controller.go:496-505 | its mount paths collide exactly when two uses have the same position within their targets |
| `PodProperties.BackupCommandEmptyIff` | internal/controller/backuptask_controller.go:388-393 | the command is empty if and only if an image is given without a command |
| `PodProperties.RetentionEnvFaithful` | internal/controller/backuptask_controller.go:656-706 | two policies give the same environment if and only if they agree on both limits and on the KeepLast numbers, an absent KeepLast counting as zeros |
| `Regex.AcceptsIffMatches` | api/v1alpha1/backuptask_webhook.go:396-401 | the matcher by derivatives decides the denotation of every expression |
| `Cron.RecogniserIsParser` | api/v1alpha1/backuptask_webhook.go:396-401 | the recogniser accepts exactly the strings that parse |
| `Cron.ParseIff` | api/v1alpha1/backuptask_webhook.go:396-401 | parsing and printing undo each other on the valid schedules, so an accepted string has exactly one parse |
| `Cron.RecogniserEqualsGrammar` | api/v1alpha1/backuptask_webhook.go:396-401 | a string is accepted if and only if it is the print of a five-field schedule of `*`, `n` or `*/n` with canonical decimals in 0-59, 0-23, 1-31, 1-12, 0-6 |
| `Cron.AcceptsPrintIff` | api/v1alpha1/backuptask_webhook.go:396-401 | of all printed schedules exactly those in range are accepted; hence a step of zero passes for minute, hour and weekday only |
| `AdmissionProperties.SoundAndComplete` | api/v1alpha1/backuptask_webhook.go:72-161 | the error list is empty if and only if the specification is valid in the declarative sense |
| `AdmissionProperties.Localised` | api/v1alpha1/backuptask_webhook.go:92-144 | an error is reported under spec.targets[i] if and only if target i exists and violates its rules |
| `FieldErrors.EveryBadFieldIsBlamed` | api/v1alpha1/backuptask_webhook.go:72-394 | for every path: an error of this kind (missing, or invalid with this value) is reported at the path if and only if the field there is bad in this way |
| `AdmissionProperties.FillChoosesPorts` | api/v1alpha1/backuptask_webhook.go:172-191 | validation keeps a given port, gives 3306, 5432, 27017 or 6379 to a mysql, postgresql, mongodb or redis target without one, leaves others nil, and changes nothing else of the specification |
| `AdmissionProperties.Revalidation` | api/v1alpha1/backuptask_webhook.go:173-202 | validating what validation has filled in gives the same errors and fills in nothing more; an accepted database target ends with a port in 1..65535 |
| `AdmissionProperties.Defaulting` | api/v1alpha1/backuptask_webhook.go:22-35 | defaulting sets aes-256-gcm for enabled encryption without algorithm, encryption after compression when unset and an empty pod template when there is none, keeps whatever is set, is idempotent, changes no verdict and commutes with the filling of ports |
| `Webhook.ValidateDatabaseSpec` | api/v1alpha1/backuptask_webhook.go:163-212 | the errors of the submitted value, and the port written through the pointer: 3306, 5432, 27017 or 6379 where it was nil for mysql, postgresql, mongodb or redis, otherwise as it was |
| `Webhook.ValidateDirectorySpec` | api/v1alpha1/backuptask_webhook.go:214-244 | the accumulated errors of the path loop and the compression level |
| `Webhook.ValidateTargets` | api/v1alpha1/backuptask_webhook.go:92-144 | the target loop: errors of the submitted values in order, ports filled in exactly in the databases of database targets, also when targets share a database object |
| `Webhook.ValidateRemoteStorage` | api/v1alpha1/backuptask_webhook.go:266-382 | the errors per storage kind, none for an unknown kind |
| `Webhook.BackupTask.Default` | api/v1alpha1/backuptask_webhook.go:22-35 | the in-place defaulting, with the values set |
| `Webhook.BackupTask.ValidateBackupTask` | api/v1alpha1/backuptask_webhook.go:72-161 | the verdict is the error list of the object as submitted; afterwards only ports differ and the errors are the same again |
| `Webhook.BackupTask.ValidateUpdate` | api/v1alpha1/backuptask_webhook.go:45-65 | wrong type, changed schedule (one error, nothing written) or full validation |
| `Webhook.UpdateAcceptedIff` | api/v1alpha1/backuptask_webhook.go:45-65 | an update is accepted if and only if it keeps the schedule and is valid |
| `Webhook.BadScheduleIsStuck` | api/v1alpha1/backuptask_webhook.go:51-64 | a task stored with a schedule the recogniser refuses can never be updated again |
| `Sidecars.BuildDatabaseSidecar` | controllers/backuptask_controller.go:532-590 | a client, nothing, or the nil dereference |
| `Sidecars.BuildContainers` | controllers/backuptask_controller.go:381-391 | it panics exactly when some target carries a MySQL or PostgreSQL database with a nil port; otherwise the agent is followed by exactly one client per such target, in target order |
| `Sidecars.AdmittedPanicsIff` | controllers/backuptask_controller.go:382-389 | for an admitted specification: exactly when such a database hangs on a target of another type |
| `Sidecars.AdmissionMakesBuilderTotal` | controllers/backuptask_controller.go:382-389 | if only database targets carry a database, admission makes the builder total, with all ports in range |
| `Sidecars.DatabaseHasClient` | controllers/backuptask_controller.go:532-590 | in a pod built after validation every MySQL or PostgreSQL database target has a client for its host and database on the submitted port, or on "3306" or "5432" when it was submitted without one |
| `Sidecars.AdmittedSpecThatPanics` | controllers/backuptask_controller.go:541-549 | an admitted specification on which it panics |
| `Sidecars.SidecarNamesDistinctIff` | controllers/backuptask_controller.go:532-564 | the sidecar names are distinct if and only if no two targets share a client kind |
| `DeepCopyStructs.CopyRetention` | api/v1alpha1/zz_generated.deepcopy.go:714-731 | same contents, nil preserved, fresh pointers |
| `DeepCopyStructs.CopyStatus` | api/v1alpha1/zz_generated.deepcopy.go:337-367 | the same for the five pointers and the conditions of a status |
| `DeepCopyStructs.CopyDirectory` | api/v1alpha1/zz_generated.deepcopy.go:441-460 | the same with the element-by-element copy of the paths and their claim references |
| `DeepCopy.BackupTarget.DeepCopyInto` | api/v1alpha1/zz_generated.deepcopy.go:177-199 | the target written through the out pointer shows the source's value, reaches only new objects, and the source is as it was |
| `DeepCopy.CopyTargetSlice` | api/v1alpha1/zz_generated.deepcopy.go:294-300 | nil stays nil, elements are copied in order, and no two copies share an object |
| `DeepCopy.HookSpec.DeepCopyInto` | api/v1alpha1/zz_generated.deepcopy.go:569-586 | the same for a hook with its two actions and its timeout |
| `DeepCopy.CopyHookSlice` | api/v1alpha1/zz_generated.deepcopy.go:312-318 | the same for the slice of hooks |
| `DeepCopy.RemoteStorageSpec.DeepCopyInto` | api/v1alpha1/zz_generated.deepcopy.go:679-701 | the same for the four storage parts behind pointers |
| `DeepCopy.BackupTaskSpec.DeepCopyInto` | api/v1alpha1/zz_generated.deepcopy.go:287-324 | the same for the specification with all seven parts that hold references |
| `DeepCopy.BackupTask.DeepCopyInto` | api/v1alpha1/zz_generated.deepcopy.go:212-218 | the same for a task with its metadata and status |
| `DeepCopy.CopyTaskSlice` | api/v1alpha1/zz_generated.deepcopy.go:259-265 | the same for the slice of tasks |
| `DeepCopy.BackupTaskList.DeepCopyInto` | api/v1alpha1/zz_generated.deepcopy.go:255-266 | the list copy is equal at every level, nil or present, shares nothing with the source, and leaves the source as it was |

## Left out

- Manager start-up, flags, TLS, metrics, `SetupWithManager`, `config/` and `test/`: plumbing.
- `internal/controller/backuprecord_controller.go` and `internal/webhook/v1alpha1/backuptask_webhook.go`: stubs.
- Stale cached reads and API-server defaulting of the stored CronJob spec: reads are current and a spec is stored as written.
- Finalizers, owner-reference garbage collection and foreground deletion of CronJobs, ConfigMaps and records.
- Clean-up as a no-orphan claim: finalization never deletes the ConfigMap, and swallows record-delete errors (which records stay is stated exactly).
- Logging, events, requeue delays, pod-log statistics and the source of failure texts (the text is a parameter).
- `verifyBackup` failing: it is a constant success, so the failure branch cannot be taken.
- Constants of the CronJob and its pod (job history limits, restart policy, affinity, resources, security context, service account), the pod template's effect on the pod, `buildEnvFrom`, the environment of the earlier variant, and what hooks and resource limits of the spec mean.
- JSON encoding, and the parsing of the regular expression's text: the expression is given as a tree.
- KeepLast semantics: the operator never evaluates it, it only exports the numbers.
- Other records than the one whose lifecycle is modelled: passes of different records share no state.
- `ValidateCreate`'s and `ValidateDelete`'s warnings: always nil.
- Fields that neither validation nor the pod look at, such as extra arguments, regions and SSH key types, outside the deep copies.
- The deep copies of Kubernetes library types behind pointers: the values are opaque and their copying is the library's.
- DeepCopy.BackupTask.DeepCopyInto: embedded structs (metadata, specification, status, and the remote storage inside the specification) are replaced by new objects instead of being overwritten in place.
- The deep copies of records, which follow the same pattern.
- Sidecars.BuildContainers: the agent container is a parameter, and images' pull policy, command and resources are constants left out.
