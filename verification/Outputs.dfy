/** What the reconciler publishes, said on the fields of the stored objects: the CronJob runs the task's schedule,
    its Jobs are the ones the record controller looks for, its pod reads the ConfigMap that holds the targets, and
    the task's status repeats what the CronJob reports. */
module Outputs {
  import opened Types
  import opened Api
  import opened Reconciler
  import opened FinalizerSafety
  import opened StatusTruth
  import opened Convergence
  import opened AgentPod
  import Cluster
  import Decimal
  import Jobs
  import Pod

  /** A Job created from the CronJob carries its Job labels. */
  function JobOf(c: CronJobSpec, created: Time, succeeded: int32, failed: int32): Jobs.Job {
    Jobs.Job(c.labels, created, succeeded, failed)
  }

  /** Every Job of the CronJob is found for this task name and UID, and for no other. */
  ghost predicate JobsFoundFor(c: CronJobSpec, name: string, uid: string) {
    forall n, u, created, succeeded, failed ::
      Jobs.Selected(JobOf(c, created, succeeded, failed), n, u) <==> n == name && u == uid
  }

  ghost predicate SchedulesTask(c: CronJobSpec, k: Key, uid: Uid, spec: TaskSpec) {
    && c.schedule == spec.schedule && c.suspend == Some(false)
    && (c.startingDeadlineSeconds, c.concurrencyPolicy) == (300, "Forbid")
    && (c.backoffLimit, c.ttlSecondsAfterFinished) == (3, 86400)
    && JobsFoundFor(c, k.name, UidText(uid))
    && ServesTask(c.pod, k, spec)
  }

  predicate HoldsTargets(m: ConfigMap, k: Key, spec: TaskSpec) {
    && m.labels == map["app" := "backup-operator", "backuptask" := k.name]
    && m.data.targetsJson == spec.targets && m.data.remoteStorageJson == spec.remoteStorage
    && m.data.targetCount == Decimal.Print(|spec.targets|)
  }

  /** Every ConfigMap the pod mounts is stored in the task's namespace and holds its targets. */
  ghost predicate ConfigStored(s: Store, k: Key, c: CronJobSpec, spec: TaskSpec) {
    forall v :: v in c.pod.volumes && v.source.TargetConfig? ==>
      && Key(k.ns, v.source.configMap) in s.configMaps
      && HoldsTargets(s.configMaps[Key(k.ns, v.source.configMap)], k, spec)
  }

  lemma LabelsFound(k: Key, uid: Uid, job: Jobs.Job, n: string, u: string)
    requires job.labels == TaskLabels(k, uid)
    ensures Jobs.Selected(job, n, u) <==> n == k.name && u == UidText(uid)
  {
    assert |BACKUP_TASK_LABEL| == 31 && |BACKUP_TASK_UID_LABEL| == 35 && |CREATED_BY_LABEL| == 30;
    hide UidText;
  }

  lemma BuiltSpecSchedules(k: Key, uid: Uid, spec: TaskSpec)
    ensures SchedulesTask(BuildCronJobSpec(k, uid, spec), k, uid, spec)
  {
    hide TaskLabels, Pod.BuildPod, ServesTask, Jobs.Selected, UidText;
    BuiltPodServesTask(k, spec);
    var c := BuildCronJobSpec(k, uid, spec);
    forall n, u, created, succeeded, failed
      ensures Jobs.Selected(JobOf(c, created, succeeded, failed), n, u) <==> n == k.name && u == UidText(uid)
    {
      LabelsFound(k, uid, JobOf(c, created, succeeded, failed), n, u);
    }
  }

  lemma WrittenConfigHolds(s: Store, k: Key, c: CronJobSpec, spec: TaskSpec)
    requires TargetsKey(k) in s.configMaps && s.configMaps[TargetsKey(k)] == TargetsConfigMap(k, spec)
    requires ServesConfig(c.pod, k.name + "-targets")
    ensures ConfigStored(s, k, c, spec)
  {
    hide Decimal.Print;
  }

  /** In every reachable state in which nobody else has written its outputs, an undeleted task that reports its
      current generation has a CronJob of its own that runs its schedule, whose Jobs are found for exactly this
      incarnation, and whose pod reads the stored targets. */
  lemma ReportedTaskIsScheduled(actions: seq<Cluster.Action>, k: Key)
    requires forall a :: a in actions ==> LeavesOutputs(a, k)
    requires var s := Cluster.Run(Cluster.START, actions).store;
             k in s.tasks && !s.tasks[k].deleting && s.tasks[k].status.observedGeneration == s.tasks[k].generation
    ensures var s := Cluster.Run(Cluster.START, actions).store;
            var (t, cron) := (s.tasks[k], Key(k.ns, "backup-" + k.name));
            && cron in s.crons
            && s.crons[cron].controller == Some(OwnerRef("BackupTask", k.name, t.uid))
            && SchedulesTask(s.crons[cron].spec, k, t.uid, t.spec)
            && ConfigStored(s, k, s.crons[cron].spec, t.spec)
  {
    StatusNeverLies(actions, k);
    var s := Cluster.Run(Cluster.START, actions).store;
    var t := s.tasks[k];
    BuiltSpecSchedules(k, t.uid, t.spec);
    WrittenConfigHolds(s, k, BuildCronJobSpec(k, t.uid, t.spec), t.spec);
    hide Cluster.Run, BuildCronJobSpec, ConfigStored, UidText, ServesConfig, RunsAgent, JobsFoundFor, TargetsConfigMap;
  }

  // ---- incarnations ----

  lemma LastSlash(a: string, b: string, c: string, d: string)
    requires a + "/" + c == b + "/" + d && Decimal.IsDigits(c) && Decimal.IsDigits(d)
    ensures a == b && c == d
  {
    var (x, y) := (a + "/" + c, b + "/" + d);
    assert x[|a|] == '/' && y[|b|] == '/';
    assert forall i :: |a| < i < |x| ==> x[i] == c[i - |a| - 1] != '/';
    assert forall i :: |b| < i < |y| ==> y[i] == d[i - |b| - 1] != '/';
    assert x[..|a|] == a && y[..|b|] == b && x[|a| + 1..] == c && y[|b| + 1..] == d;
  }

  /** Within a namespace the text of a UID tells incarnations apart. */
  lemma UidTextInjective(u: Uid, v: Uid)
    requires u.key.ns == v.key.ns
    ensures UidText(u) == UidText(v) <==> u == v
  {
    if UidText(u) == UidText(v) {
      var (a, b) := (u.key.ns + "/" + u.key.name, v.key.ns + "/" + v.key.name);
      LastSlash(a, b, Decimal.Print(u.born), Decimal.Print(v.born));
      var n := |u.key.ns| + 1;
      assert a[n..] == u.key.name && b[n..] == v.key.name;
      Decimal.PrintInjective(u.born, v.born);
    }
    hide Decimal.Print;
  }

  lemma UidsAreKeyed(early: seq<Cluster.Action>, later: seq<Cluster.Action>, k: Key)
    ensures var w := Cluster.Run(Cluster.START, early);
            && (k in w.store.tasks ==> w.store.tasks[k].uid.key == k)
            && (k in Cluster.Run(w, later).store.tasks ==> Cluster.Run(w, later).store.tasks[k].uid.key == k)
  {
    RunKeepsInv(Cluster.START, early);
    var w := Cluster.Run(Cluster.START, early);
    RunKeepsInv(w, later);
    assert TaskInv(k, SliceOf(w, k)) && TaskInv(k, SliceOf(Cluster.Run(w, later), k));
    hide Cluster.Run;
  }

  /** Across deletion and re-creation: the Jobs of the CronJob of one reported incarnation are found for the task
      as it is stored later exactly when it is still that incarnation. */
  lemma JobsOfOneIncarnation(early: seq<Cluster.Action>, later: seq<Cluster.Action>, k: Key, created: Time,
      succeeded: int32, failed: int32)
    requires forall a :: a in early ==> LeavesOutputs(a, k)
    requires var s := Cluster.Run(Cluster.START, early).store;
             k in s.tasks && !s.tasks[k].deleting && s.tasks[k].status.observedGeneration == s.tasks[k].generation
    requires k in Cluster.Run(Cluster.Run(Cluster.START, early), later).store.tasks
    ensures var (s1, s2) :=
              (Cluster.Run(Cluster.START, early).store, Cluster.Run(Cluster.Run(Cluster.START, early), later).store);
            var cron := Key(k.ns, "backup-" + k.name);
            && cron in s1.crons
            && (Jobs.Selected(JobOf(s1.crons[cron].spec, created, succeeded, failed),
                              k.name, UidText(s2.tasks[k].uid))
                <==> s2.tasks[k].uid == s1.tasks[k].uid)
  {
    ReportedTaskIsScheduled(early, k);
    var w := Cluster.Run(Cluster.START, early);
    UidsAreKeyed(early, later, k);
    UidTextInjective(Cluster.Run(w, later).store.tasks[k].uid, w.store.tasks[k].uid);
    hide Cluster.Run, UidText, ServesTask, ConfigStored, Jobs.Selected;
  }

  // ---- one complete pass ----

  function Untimed(c: Condition): (ConditionType, bool, string, string) { (c.kind, c.holds, c.reason, c.message) }

  /** The status repeats what the CronJob reports, and remembers the earlier schedule time when it reports none. */
  ghost predicate Reports(k: Key, before: Task, after: TaskStatus, c: CronJobStatus) {
    && after.observedGeneration == before.generation
    && after.historyCount == before.status.historyCount
    && (after.phase == Running <==> c.active != [])
    && (after.phase == Completed <==> c.active == [] && c.lastSchedule.Some?)
    && (after.phase == Pending <==> c.active == [] && c.lastSchedule.None?)
    && (c.lastSchedule.Some? ==> after.lastScheduled == c.lastSchedule)
    && (c.lastSchedule.None? ==> after.lastScheduled == before.status.lastScheduled)
    && (c.active == [] ==> after.activeJob.None?)
    && (c.active != [] ==> after.activeJob == Some(JobRef("batch/v1", "Job", c.active[0], k.ns)))
    && |after.conditions| == 2
    && Untimed(after.conditions[0]) ==
       (if after.lastScheduled.Some? then (Scheduled, true, "", "")
        else (Scheduled, false, "NotScheduled", "Backup task has not been scheduled yet"))
    && Untimed(after.conditions[1]) ==
       (if c.active != [] then (JobRunning, true, "BackupInProgress", "Backup is currently running")
        else (JobRunning, false, "", ""))
  }

  lemma StatusReports(k: Key, before: Task, after: TaskStatus, cron: CronJob)
    requires Timeless(after) == StatusFor(k, before.generation, before.status, cron, 0)
    requires cron.spec.suspend == Some(false)
    ensures Reports(k, before, after, cron.status)
  {
    var conditions := Timeless(after).conditions;
    assert conditions == ConditionsFor(after.lastScheduled, after.phase, 0);
    assert forall i :: 0 <= i < |conditions| ==> Untimed(conditions[i]) == Untimed(after.conditions[i]);
  }

  /** The CronJob a complete pass leaves: a new one with the task's labels, or the one there was with its labels
      and status, now with the task as its controller. */
  ghost predicate TakesOver(k: Key, t: Task, before: Option<CronJob>, after: CronJob) {
    && after.controller == Some(OwnerRef("BackupTask", k.name, t.uid))
    && SchedulesTask(after.spec, k, t.uid, t.spec)
    && (before.Some? ==> (after.labels, after.status) == (before.value.labels, before.value.status))
    && (before.None? ==> after.labels == after.spec.labels && after.status == CronJobStatus([], None))
  }

  /** Another controller, by kind and name, has the CronJob. */
  predicate TakenByOther(s: Store, k: Key) {
    var cron := Key(k.ns, "backup-" + k.name);
    cron in s.crons && s.crons[cron].controller.Some?
    && (s.crons[cron].controller.value.kind, s.crons[cron].controller.value.name) != ("BackupTask", k.name)
  }

  lemma ExpectedTakesOver(k: Key, t: Task, cron: Option<CronJob>)
    requires cron.Some? ==> !ControllerConflict(k, cron.value.controller)
    ensures TakesOver(k, t, cron, ExpectedCron(k, t, cron))
  {
    BuiltSpecSchedules(k, t.uid, t.spec);
    hide TaskLabels, SchedulesTask, Pod.BuildPod;
  }

  /** After a complete pass over an undeleted task whose CronJob no other controller has: the finalizer is set and
      nothing else of the task but its status has changed; the CronJob runs the task; the ConfigMap its pod mounts
      holds the targets; and the status reports what the CronJob's says. */
  lemma CompletePassPublishes(s: Store, k: Key, script: seq<Outcome>)
    requires k in s.tasks && !s.tasks[k].deleting && !TakenByOther(s, k) && Complete(s, k, Idle, script)
    ensures var (after, cron) := (Pass(s, k, script), Key(k.ns, "backup-" + k.name));
            && k in after.tasks && cron in after.crons
            && var (t, t', c) := (s.tasks[k], after.tasks[k], after.crons[cron]);
            && (t'.uid, t'.generation, t'.deleting, t'.spec) == (t.uid, t.generation, t.deleting, t.spec)
            && t'.finalizers == t.finalizers + {"backup.mybackup.com/finalizer"}
            && TakesOver(k, t, Find(s.crons, cron), c)
            && ConfigStored(after, k, c.spec, t.spec)
            && Reports(k, t, t'.status, c.status)
  {
    PassGood(s, k, script);
    var (after, t, cron) := (Pass(s, k, script), s.tasks[k], Find(s.crons, CronKey(k)));
    ExpectedTakesOver(k, t, cron);
    hide Pass, Complete, BuildCronJobSpec, TaskLabels, TargetsConfigMap, StatusFor;
    hide ConfigStored, SchedulesTask, Reports;
    var expected := ExpectedCron(k, t, cron);
    assert CronView(after.crons[CronKey(k)]) == CronView(expected);
    assert ConfigStored(after, k, expected.spec, t.spec) by {
      BuiltSpecSchedules(k, t.uid, t.spec);
      ScheduledServesConfig(expected.spec, k, t.uid, t.spec);
      WrittenConfigHolds(after, k, expected.spec, t.spec);
    }
    StatusReports(k, t, after.tasks[k].status, expected);
  }

  lemma ScheduledServesConfig(c: CronJobSpec, k: Key, uid: Uid, spec: TaskSpec)
    requires SchedulesTask(c, k, uid, spec)
    ensures ServesConfig(c.pod, k.name + "-targets") && c.suspend == Some(false)
  {
    hide JobsFoundFor, ServesConfig, RunsAgent;
  }

  // ---- a CronJob that belongs to another controller ----

  /** Calls before the CronJob is written. */
  predicate BeforeCron(pc: Pc) {
    pc.Idle? || pc.AddFinalizer? || pc.CreateTargets? || pc.UpdateTargets? || pc.GetCron?
  }

  predicate SameStatus(s: Store, s': Store, k: Key)
    requires k in s.tasks
  {
    k in s'.tasks && !s'.tasks[k].deleting && s'.tasks[k].status == s.tasks[k].status
  }

  lemma ForeignCronStep(s: Store, k: Key, pc: Pc, o: Outcome)
    requires TakenByOther(s, k) && BeforeCron(pc)
    requires k in s.tasks && !s.tasks[k].deleting
    ensures var (s', pc') := Step(s, k, pc, o);
            && BeforeCron(pc') && s'.crons == s.crons && s'.records == s.records && SameStatus(s, s', k)
  {
    hide TargetsKey, TargetsConfigMap, BuildCronJobSpec;
  }

  lemma {:induction false} ForeignCronDrive(s: Store, k: Key, pc: Pc, script: seq<Outcome>)
    requires TakenByOther(s, k) && BeforeCron(pc)
    requires k in s.tasks && !s.tasks[k].deleting
    ensures var after := Drive(s, k, pc, script).0;
            && after.crons == s.crons && after.records == s.records && SameStatus(s, after, k)
    decreases |script|
  {
    hide Step;
    if script != [] {
      ForeignCronStep(s, k, pc, script[0]);
      var (s', pc') := Step(s, k, pc, script[0]);
      if !pc'.Idle? {
        ForeignCronDrive(s', k, pc', script[1..]);
      }
    }
  }

  /** Under any script, a pass over an undeleted task never touches a CronJob that another controller has, nor does
      it report a status or apply retention then. */
  lemma ForeignCronLeftAlone(s: Store, k: Key, script: seq<Outcome>)
    requires k in s.tasks && !s.tasks[k].deleting && TakenByOther(s, k)
    ensures var after := Pass(s, k, script);
            && after.crons == s.crons && after.records == s.records && SameStatus(s, after, k)
  {
    ForeignCronDrive(s, k, Idle, script);
  }
}
