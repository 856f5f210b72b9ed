/** The BackupTask reconciler as a program-counter machine: one step is one API call, which may be
    answered, may be lost on the way, or may take effect without an answer. */
module Reconciler {
  import opened Types
  import opened Api
  import Decimal
  import Pod
  import Retention

  /** What the environment decides about one call: its fate, the clock, and the order of a listing. */
  datatype Outcome = Outcome(fault: Fault, now: Time, listing: seq<Key>)

  /** The pending call and the local variables that are still needed. */
  datatype Pc =
    | Idle
    | AddFinalizer(task: Task)
    | CreateTargets(task: Task)
    | UpdateTargets(task: Task)
    | GetCron(task: Task)
    | CreateCronJob(task: Task)
    | UpdateCronJob(task: Task, seen: CronJob)
    | GetLatest(task: Task, cron: CronJob)
    | WriteStatus(task: Task, cron: CronJob, latest: Task)
    | ListRecords(task: Task)
    | DeleteOld(task: Task, pending: seq<Key>)
    | DeleteCronJob(task: Task)
    | ListOwned(task: Task)
    | DeleteOwned(task: Task, pending: seq<Key>)
    | RemoveFinalizer(task: Task)

  function CronKey(k: Key): Key { Key(k.ns, "backup-" + k.name) }
  function TargetsKey(k: Key): Key { Key(k.ns, Pod.TargetConfigMapName(k.name)) }

  function UidText(uid: Uid): string {
    uid.key.ns + "/" + uid.key.name + "/" + Decimal.Print(uid.born)
  }

  function TaskLabels(k: Key, uid: Uid): map<string, string> {
    map[BACKUP_TASK_LABEL := k.name, BACKUP_TASK_UID_LABEL := UidText(uid), CREATED_BY_LABEL := "backup-operator"]
  }

  /** The built spec never suspends the CronJob. */
  function BuildCronJobSpec(k: Key, uid: Uid, spec: TaskSpec): (r: CronJobSpec)
    ensures r.suspend == Some(false)
  {
    CronJobSpec(spec.schedule, Some(false), 300, "Forbid", TaskLabels(k, uid), 3, 86400, Pod.BuildPod(k, spec))
  }

  function TargetsData(spec: TaskSpec): ConfigData {
    ConfigData(spec.targets, spec.remoteStorage, Decimal.Print(|spec.targets|))
  }

  function TargetsConfigMap(k: Key, spec: TaskSpec): ConfigMap {
    ConfigMap(map["app" := "backup-operator", "backuptask" := k.name], TargetsData(spec))
  }

  function OwnerOf(k: Key, uid: Uid): OwnerRef { OwnerRef(TASK_KIND, k.name, uid) }

  /** SetControllerReference refuses when another controller, by kind and name, is in place. */
  predicate ControllerConflict(k: Key, controller: Option<OwnerRef>) {
    controller.Some? && !(controller.value.kind == TASK_KIND && controller.value.name == k.name)
  }

  function FreshCronJob(k: Key, task: Task): CronJob {
    CronJob(0, TaskLabels(k, task.uid), Some(OwnerOf(k, task.uid)),
            BuildCronJobSpec(k, task.uid, task.spec), CronJobStatus([], None))
  }

  function DesiredCronJob(k: Key, task: Task, seen: CronJob): CronJob {
    seen.(spec := BuildCronJobSpec(k, task.uid, task.spec), controller := Some(OwnerOf(k, task.uid)))
  }

  function PhaseFor(cron: CronJob): Phase {
    if cron.spec.suspend == Some(true) then Pending
    else if |cron.status.active| > 0 then Running
    else if cron.status.lastSchedule.Some? then Completed
    else Pending
  }

  function ConditionsFor(lastScheduled: Option<Time>, phase: Phase, now: Time): seq<Condition> {
    [if lastScheduled.None?
     then Condition(Scheduled, false, now, "NotScheduled", "Backup task has not been scheduled yet")
     else Condition(Scheduled, true, now, "", ""),
     if phase == Running
     then Condition(JobRunning, true, now, "BackupInProgress", "Backup is currently running")
     else Condition(JobRunning, false, now, "", "")]
  }

  /** updateBackupTaskStatus: a recorded schedule time is never dropped, the history count is left alone. */
  function StatusFor(k: Key, generation: nat, status: TaskStatus, cron: CronJob, now: Time): (r: TaskStatus)
    ensures r.observedGeneration == generation
    ensures r.historyCount == status.historyCount
    ensures status.lastScheduled.Some? ==> r.lastScheduled.Some?
  {
    var lastScheduled := if cron.status.lastSchedule.Some? then cron.status.lastSchedule else status.lastScheduled;
    status.(
      observedGeneration := generation,
      phase := PhaseFor(cron),
      lastScheduled := lastScheduled,
      activeJob := if |cron.status.active| > 0
      then Some(JobRef("batch/v1", "Job", cron.status.active[0], k.ns)) else None,
      conditions := ConditionsFor(lastScheduled, PhaseFor(cron), now))
  }

  function Items(records: map<Key, Record>, listing: seq<Key>): seq<Retention.Item> {
    seq(|listing|, i requires 0 <= i < |listing| =>
      Retention.Item(listing[i], if listing[i] in records then records[listing[i]].created else 0))
  }

  function ItemKeys(items: seq<Retention.Item>): seq<Key> {
    seq(|items|, i requires 0 <= i < |items| => items[i].key)
  }

  /** The outcome of a write: the store afterwards, and the reply unless it was lost. */
  function Call<T>(s: Store, reply: Reply<T>, fault: Fault): (r: (Store, Option<Reply<T>>))
    ensures r.0 == s || (reply.Accepted? && r.0 == reply.store)
  {
    var after := if reply.Accepted? then reply.store else s;
    match fault
    case Answered => (after, Some(reply))
    case Dropped => (s, None)
    case Ambiguous => (after, None)
  }

  /** The first call of a pass reads the task. */
  function StepIdle(s: Store, k: Key, o: Outcome): Pc {
    if !o.fault.Answered? || k !in s.tasks then Idle
    else
      var t := s.tasks[k];
      if t.deleting then if FINALIZER in t.finalizers then DeleteCronJob(t) else Idle
      else if FINALIZER in t.finalizers then CreateTargets(t) else AddFinalizer(t)
  }

  function StepAddFinalizer(s: Store, k: Key, t: Task, o: Outcome): (Store, Pc) {
    var (s', reply) := Call(s, UpdateTask(s, k, t.(finalizers := t.finalizers + {FINALIZER})), o.fault);
    (s', if reply.Some? && reply.value.Accepted? then CreateTargets(reply.value.item) else Idle)
  }

  function StepCreateTargets(s: Store, k: Key, t: Task, o: Outcome): (Store, Pc) {
    var (s', reply) := Call(s, CreateConfigMap(s, TargetsKey(k), TargetsConfigMap(k, t.spec)), o.fault);
    (s', if reply.None? then Idle else if reply.value.Accepted? then GetCron(t) else UpdateTargets(t))
  }

  function StepUpdateTargets(s: Store, k: Key, t: Task, o: Outcome): (Store, Pc) {
    var (s', reply) := Call(s, UpdateConfigMap(s, TargetsKey(k), TargetsConfigMap(k, t.spec)), o.fault);
    (s', if reply.Some? && reply.value.Accepted? then GetCron(t) else Idle)
  }

  /** CreateOrUpdate: read, then create, refuse, leave alone or update. */
  function StepGetCron(s: Store, k: Key, t: Task, o: Outcome): Pc {
    if !o.fault.Answered? then Idle
    else if CronKey(k) !in s.crons then CreateCronJob(t)
    else
      var seen := s.crons[CronKey(k)];
      if ControllerConflict(k, seen.controller) then Idle
      else if DesiredCronJob(k, t, seen) == seen then GetLatest(t, seen)
      else UpdateCronJob(t, seen)
  }

  function StepCreateCronJob(s: Store, k: Key, t: Task, o: Outcome): (Store, Pc) {
    var (s', reply) := Call(s, CreateCron(s, CronKey(k), FreshCronJob(k, t)), o.fault);
    (s', if reply.Some? && reply.value.Accepted? then GetLatest(t, reply.value.item) else Idle)
  }

  function StepUpdateCronJob(s: Store, k: Key, t: Task, seen: CronJob, o: Outcome): (Store, Pc) {
    var (s', reply) := Call(s, UpdateCron(s, CronKey(k), DesiredCronJob(k, t, seen)), o.fault);
    (s', if reply.Some? && reply.value.Accepted? then GetLatest(t, reply.value.item) else Idle)
  }

  function StepGetLatest(s: Store, k: Key, t: Task, cron: CronJob, o: Outcome): Pc {
    if !o.fault.Answered? || k !in s.tasks then Idle
    else
      var latest := s.tasks[k];
      WriteStatus(t, cron, latest.(status := StatusFor(k, t.generation, latest.status, cron, o.now)))
  }

  function StepWriteStatus(s: Store, k: Key, t: Task, cron: CronJob, latest: Task, o: Outcome): (Store, Pc) {
    var (s', reply) := Call(s, UpdateTaskStatus(s, k, latest), o.fault);
    (s',
     if reply.None? || reply.value.Rejected? then Idle
     else if |cron.status.active| > 0 || t.spec.retention.None? then Idle
     else ListRecords(t))
  }

  function Deleting(t: Task, pending: seq<Key>): Pc {
    if pending == [] then Idle else DeleteOld(t, pending)
  }

  function StepListRecords(s: Store, k: Key, t: Task, o: Outcome): Pc {
    if !o.fault.Answered? || !IsListing(s.records, k, o.listing) || t.spec.retention.None? then Idle
    else
      var selection := Retention.Selection(Items(s.records, o.listing), t.spec.retention.value, o.now);
      if selection.None? then Idle else Deleting(t, ItemKeys(selection.value))
  }

  /** The record deletions swallow their errors. */
  function StepDeleteRecord(s: Store, record: Key, o: Outcome): Store {
    Call(s, DeleteRecord(s, record), o.fault).0
  }

  function StepDeleteCronJob(s: Store, k: Key, t: Task, o: Outcome): (Store, Pc) {
    var (s', reply) := Call(s, DeleteCron(s, CronKey(k)), o.fault);
    (s', if reply.None? then Idle else ListOwned(t))
  }

  function DeletingOwned(t: Task, pending: seq<Key>): Pc {
    if pending == [] then RemoveFinalizer(t) else DeleteOwned(t, pending)
  }

  function StepListOwned(s: Store, k: Key, t: Task, o: Outcome): Pc {
    if !o.fault.Answered? || !IsListing(s.records, k, o.listing) then Idle else DeletingOwned(t, o.listing)
  }

  function StepRemoveFinalizer(s: Store, k: Key, t: Task, o: Outcome): Store {
    Call(s, UpdateTask(s, k, t.(finalizers := t.finalizers - {FINALIZER})), o.fault).0
  }

  /** One API call of the reconciler working on task k. */
  function Step(s: Store, k: Key, pc: Pc, o: Outcome): (Store, Pc) {
    match pc
    case Idle => (s, StepIdle(s, k, o))
    case AddFinalizer(t) => StepAddFinalizer(s, k, t, o)
    case CreateTargets(t) => StepCreateTargets(s, k, t, o)
    case UpdateTargets(t) => StepUpdateTargets(s, k, t, o)
    case GetCron(t) => (s, StepGetCron(s, k, t, o))
    case CreateCronJob(t) => StepCreateCronJob(s, k, t, o)
    case UpdateCronJob(t, seen) => StepUpdateCronJob(s, k, t, seen, o)
    case GetLatest(t, cron) => (s, StepGetLatest(s, k, t, cron, o))
    case WriteStatus(t, cron, latest) => StepWriteStatus(s, k, t, cron, latest, o)
    case ListRecords(t) => (s, StepListRecords(s, k, t, o))
    case DeleteOld(t, pending) =>
      if pending == [] then (s, Idle) else (StepDeleteRecord(s, pending[0], o), Deleting(t, pending[1..]))
    case DeleteCronJob(t) => StepDeleteCronJob(s, k, t, o)
    case ListOwned(t) => (s, StepListOwned(s, k, t, o))
    case DeleteOwned(t, pending) =>
      if pending == [] then (s, RemoveFinalizer(t))
      else (StepDeleteRecord(s, pending[0], o), DeletingOwned(t, pending[1..]))
    case RemoveFinalizer(t) => (StepRemoveFinalizer(s, k, t, o), Idle)
  }

  /** One pass of Reconcile under a script of outcomes; a script that ends early is a crash. */
  function Drive(s: Store, k: Key, pc: Pc, script: seq<Outcome>): (Store, Pc)
    decreases |script|
  {
    if script == [] then (s, pc)
    else
      var (s', pc') := Step(s, k, pc, script[0]);
      if pc'.Idle? then (s', Idle) else Drive(s', k, pc', script[1..])
  }

  function Pass(s: Store, k: Key, script: seq<Outcome>): Store {
    Drive(s, k, Idle, script).0
  }

  /** "backup-%s" and "%s-targets" are injective, within a namespace and across namespaces. */
  lemma NamesInjective(k: Key, l: Key)
    ensures CronKey(k) == CronKey(l) <==> k == l
    ensures TargetsKey(k) == TargetsKey(l) <==> k == l
  {
    if CronKey(k) == CronKey(l) {
      assert CronKey(k).name[7..] == k.name && CronKey(l).name[7..] == l.name;
    }
    if TargetsKey(k) == TargetsKey(l) {
      var m, n := TargetsKey(k).name, TargetsKey(l).name;
      assert m[..|m| - 8] == k.name && n[..|n| - 8] == l.name;
    }
  }
}
