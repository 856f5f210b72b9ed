/** The reconciler in its sequential form. Every API call consumes the next outcome of a script; the
    methods are proved to drive the store exactly as the program-counter machine does. */
module ReconcileMethod {
  import opened Types
  import opened Api
  import opened Reconciler
  import Retention

  /** Go's conversion to int32. */
  function Wrap32(x: int): (r: int)
    ensures -0x8000_0000 <= r < 0x8000_0000
    ensures -0x8000_0000 <= x < 0x8000_0000 ==> r == x
  {
    (x + 0x8000_0000) % 0x1_0000_0000 - 0x8000_0000
  }

  /** The store at the end of a pass that is about to make the call of pc. */
  function Rest(s: Store, k: Key, pc: Pc, script: seq<Outcome>): Store {
    if pc.Idle? then s else Drive(s, k, pc, script).0
  }

  lemma RestStep(s: Store, k: Key, pc: Pc, script: seq<Outcome>)
    requires !pc.Idle? && script != []
    ensures var (s', pc') := Step(s, k, pc, script[0]);
            Rest(s, k, pc, script) == Rest(s', k, pc', script[1..])
  {
    hide Step;
  }

  lemma RestCut(s: Store, k: Key, pc: Pc)
    ensures Rest(s, k, pc, []) == s
  {
  }

  lemma PassStart(s: Store, k: Key, script: seq<Outcome>)
    ensures script == [] ==> Pass(s, k, script) == s
    ensures script != [] ==>
      Pass(s, k, script) == Rest(s, k, Step(s, k, Idle, script[0]).1, script[1..])
  {
  }

  /** Where the machine stands after the status has been written. */
  function AfterStatus(t: Task, cron: CronJob): Pc {
    if |cron.status.active| > 0 || t.spec.retention.None? then Idle else ListRecords(t)
  }

  /** A machine state that deletes the first pending record and goes on with the others. */
  ghost predicate DeletesFirst(pcAt: seq<Key> -> Pc, pending: seq<Key>)
    requires pending != []
  {
    && !pcAt(pending).Idle?
    && forall s, k, o :: Step(s, k, pcAt(pending), o) == (StepDeleteRecord(s, pending[0], o), pcAt(pending[1..]))
  }

  /** A BackupTask object in the controller's memory. */
  class TaskObject {
    var uid: Uid
    var version: nat
    var generation: nat
    var finalizers: set<string>
    var deleting: bool
    var spec: TaskSpec
    var observedGeneration: nat
    var phase: Phase
    var lastScheduled: Option<Time>
    var activeJob: Option<JobRef>
    var historyCount: int
    var conditions: seq<Condition>

    function Value(): Task
      reads this
    {
      Task(uid, version, generation, finalizers, deleting, spec,
           TaskStatus(observedGeneration, phase, lastScheduled, activeJob, historyCount, conditions))
    }

    constructor (t: Task)
      ensures Value() == t
    {
      uid, version, generation := t.uid, t.version, t.generation;
      finalizers, deleting, spec := t.finalizers, t.deleting, t.spec;
      observedGeneration, phase := t.status.observedGeneration, t.status.phase;
      lastScheduled, activeJob := t.status.lastScheduled, t.status.activeJob;
      historyCount, conditions := t.status.historyCount, t.status.conditions;
    }

    /** A successful write overwrites the object with the server's answer. */
    method Refresh(t: Task)
      modifies this
      ensures Value() == t
    {
      uid, version, generation := t.uid, t.version, t.generation;
      finalizers, deleting, spec := t.finalizers, t.deleting, t.spec;
      observedGeneration, phase := t.status.observedGeneration, t.status.phase;
      lastScheduled, activeJob := t.status.lastScheduled, t.status.activeJob;
      historyCount, conditions := t.status.historyCount, t.status.conditions;
    }

    method UpdateConditions(now: Time)
      modifies this`conditions
      ensures conditions == ConditionsFor(lastScheduled, phase, now)
    {
      var scheduled := Condition(Scheduled, true, now, "", "");
      if lastScheduled.None? {
        scheduled := scheduled.(holds := false, reason := "NotScheduled",
          message := "Backup task has not been scheduled yet");
      }
      var running := Condition(JobRunning, false, now, "", "");
      if phase == Running {
        running := running.(holds := true, reason := "BackupInProgress", message := "Backup is currently running");
      }
      conditions := [scheduled, running];
    }

    /** The field assignments of updateBackupTaskStatus. */
    method TakeStatus(k: Key, seenGeneration: nat, cron: CronJob, now: Time)
      modifies this
      ensures Value() == old(Value()).(status := StatusFor(k, seenGeneration, old(Value()).status, cron, now))
    {
      observedGeneration := seenGeneration;
      if cron.spec.suspend == Some(true) {
        phase := Pending;
      } else if |cron.status.active| > 0 {
        phase := Running;
      } else if cron.status.lastSchedule.Some? {
        phase := Completed;
      } else {
        phase := Pending;
      }
      if cron.status.lastSchedule.Some? {
        lastScheduled := cron.status.lastSchedule;
      }
      if |cron.status.active| > 0 {
        activeJob := Some(JobRef("batch/v1", "Job", cron.status.active[0], k.ns));
      } else {
        activeJob := None;
      }
      UpdateConditions(now);
    }
  }

  class TaskReconciler {
    var store: Store
    /** What the environment will decide, call by call; when it runs out, nothing takes effect any more. */
    var script: seq<Outcome>

    constructor (s: Store, outcomes: seq<Outcome>)
      ensures store == s && script == outcomes
    {
      store, script := s, outcomes;
    }

    /** A read: answered or not. */
    method Read() returns (answer: Option<Outcome>)
      modifies this`script
      ensures old(script) == [] ==> answer == None && script == []
      ensures old(script) != [] ==>
        && script == old(script)[1..]
        && answer == if old(script)[0].fault.Answered? then Some(old(script)[0]) else None
    {
      if script == [] {
        return None;
      }
      var o := script[0];
      script := script[1..];
      return if o.fault.Answered? then Some(o) else None;
    }

    /** A write with the effect the API server gives it. */
    method Write<T>(reply: Reply<T>) returns (answer: Option<Reply<T>>)
      modifies this
      ensures old(script) == [] ==> answer == None && script == [] && store == old(store)
      ensures old(script) != [] ==>
        && script == old(script)[1..]
        && (store, answer) == Call(old(store), reply, old(script)[0].fault)
    {
      if script == [] {
        return None;
      }
      var (after, seen) := Call(store, reply, script[0].fault);
      store, script := after, script[1..];
      return seen;
    }

    method EnsureTargets(k: Key, task: Task) returns (ok: bool)
      modifies this
      ensures Rest(old(store), k, CreateTargets(task), old(script)) ==
        if ok then Rest(store, k, GetCron(task), script) else store
    {
      var configMap := TargetsConfigMap(k, task.spec);
      RestCut(store, k, CreateTargets(task));
      if script != [] { RestStep(store, k, CreateTargets(task), script); }
      var answer := Write(CreateConfigMap(store, TargetsKey(k), configMap));
      if answer.Some? && answer.value.Accepted? {
        return true;
      }
      if answer.None? || answer.value.error != AlreadyExists {
        return false;
      }
      RestCut(store, k, UpdateTargets(task));
      if script != [] { RestStep(store, k, UpdateTargets(task), script); }
      var updated := Write(UpdateConfigMap(store, TargetsKey(k), configMap));
      return updated.Some? && updated.value.Accepted?;
    }

    method CreateOrUpdateCronJob(k: Key, task: Task) returns (cron: Option<CronJob>)
      modifies this
      ensures Rest(old(store), k, GetCron(task), old(script)) ==
        if cron.Some? then Rest(store, k, GetLatest(task, cron.value), script) else store
    {
      RestCut(store, k, GetCron(task));
      if script != [] { RestStep(store, k, GetCron(task), script); }
      var answer := Read();
      if answer.None? {
        return None;
      }
      if CronKey(k) !in store.crons {
        RestCut(store, k, CreateCronJob(task));
        if script != [] { RestStep(store, k, CreateCronJob(task), script); }
        var created := Write(CreateCron(store, CronKey(k), FreshCronJob(k, task)));
        return if created.Some? && created.value.Accepted? then Some(created.value.item) else None;
      }
      var seen := store.crons[CronKey(k)];
      if ControllerConflict(k, seen.controller) {
        return None;
      }
      var desired := DesiredCronJob(k, task, seen);
      if desired == seen {
        return Some(seen);
      }
      RestCut(store, k, UpdateCronJob(task, seen));
      if script != [] { RestStep(store, k, UpdateCronJob(task, seen), script); }
      var updated := Write(UpdateCron(store, CronKey(k), desired));
      return if updated.Some? && updated.value.Accepted? then Some(updated.value.item) else None;
    }

    method UpdateBackupTaskStatus(k: Key, task: Task, cron: CronJob) returns (ok: bool)
      modifies this
      ensures Rest(old(store), k, GetLatest(task, cron), old(script)) ==
        if ok then Rest(store, k, AfterStatus(task, cron), script) else store
    {
      RestCut(store, k, GetLatest(task, cron));
      if script != [] { RestStep(store, k, GetLatest(task, cron), script); }
      var answer := Read();
      if answer.None? || k !in store.tasks {
        return false;
      }
      var latest := new TaskObject(store.tasks[k]);
      latest.TakeStatus(k, task.generation, cron, answer.value.now);
      ghost var pc := WriteStatus(task, cron, latest.Value());
      RestCut(store, k, pc);
      if script != [] { RestStep(store, k, pc, script); }
      var written := Write(UpdateTaskStatus(store, k, latest.Value()));
      return written.Some? && written.value.Accepted?;
    }

    /** Deletes record by record; an error is logged and the loop goes on. */
    method DeleteRecords(k: Key, pending: seq<Key>, ghost pcAt: seq<Key> -> Pc)
      requires forall p :: p != [] ==> DeletesFirst(pcAt, p)
      modifies this
      ensures Rest(old(store), k, pcAt(pending), old(script)) == Rest(store, k, pcAt([]), script)
    {
      for i := 0 to |pending|
        invariant Rest(old(store), k, pcAt(pending), old(script)) == Rest(store, k, pcAt(pending[i..]), script)
      {
        assert DeletesFirst(pcAt, pending[i..]);
        assert pending[i..][1..] == pending[i + 1..];
        RestCut(store, k, pcAt(pending[i..]));
        RestCut(store, k, pcAt(pending[i + 1..]));
        if script != [] { RestStep(store, k, pcAt(pending[i..]), script); }
        var answer := Write(DeleteRecord(store, pending[i]));
      }
      assert pending[|pending|..] == [];
    }

    method ApplyRetentionPolicy(k: Key, task: TaskObject) returns (listed: seq<Retention.Item>, done: bool)
      requires task as object != this
      modifies this, task`historyCount
      ensures task.spec.retention.Some? ==>
        Rest(old(store), k, ListRecords(old(task.Value())), old(script)) == store
      ensures task.spec.retention.None? ==> store == old(store)
      ensures done <==>
        && task.spec.retention.Some? && old(script) != [] && old(script)[0].fault.Answered?
        && IsListing(old(store).records, k, old(script)[0].listing)
        && !Retention.CountPanics(task.spec.retention.value)
      ensures !done ==> task.historyCount == old(task.historyCount)
      ensures done ==>
        && listed == Items(old(store).records, old(script)[0].listing)
        && task.historyCount ==
             Wrap32(|listed| - |Retention.Selection(listed, task.spec.retention.value, old(script)[0].now).value|)
    {
      listed, done := [], false;
      if task.spec.retention.None? {
        return;
      }
      ghost var t := task.Value();
      RestCut(store, k, ListRecords(t));
      if script != [] { RestStep(store, k, ListRecords(t), script); }
      var answer := Read();
      if answer.None? || !IsListing(store.records, k, answer.value.listing) {
        return;
      }
      listed := Items(store.records, answer.value.listing);
      var selected := Retention.FilterRecordsToDelete(listed, task.spec.retention.value, answer.value.now);
      if selected.None? {
        return;
      }
      DeleteRecords(k, ItemKeys(selected.value), p => Deleting(t, p));
      task.historyCount := Wrap32(|listed| - |selected.value|);
      done := true;
    }

    method FinalizeBackupTask(k: Key, task: Task) returns (ok: bool)
      modifies this
      ensures Rest(old(store), k, DeleteCronJob(task), old(script)) ==
        if ok then Rest(store, k, RemoveFinalizer(task), script) else store
    {
      RestCut(store, k, DeleteCronJob(task));
      if script != [] { RestStep(store, k, DeleteCronJob(task), script); }
      var answer := Write(DeleteCron(store, CronKey(k)));
      if answer.None? {
        return false;
      }
      RestCut(store, k, ListOwned(task));
      if script != [] { RestStep(store, k, ListOwned(task), script); }
      var listing := Read();
      if listing.None? || !IsListing(store.records, k, listing.value.listing) {
        return false;
      }
      DeleteRecords(k, listing.value.listing, p => DeletingOwned(task, p));
      return true;
    }

    method ReconcileBackupTask(k: Key, task: TaskObject)
      requires task as object != this
      modifies this, task
      ensures Rest(old(store), k, GetCron(old(task.Value())), old(script)) == store
    {
      var cron := CreateOrUpdateCronJob(k, task.Value());
      if cron.None? {
        return;
      }
      var ok := UpdateBackupTaskStatus(k, task.Value(), cron.value);
      if !ok {
        return;
      }
      if |cron.value.status.active| > 0 {
        return;
      }
      var _, _ := ApplyRetentionPolicy(k, task);
    }

    /** Reconcile: for every script of outcomes the sequential code leaves exactly the store the machine does. */
    method Reconcile(k: Key)
      modifies this
      ensures store == Pass(old(store), k, old(script))
    {
      PassStart(store, k, script);
      var answer := Read();
      if answer.None? || k !in store.tasks {
        return;
      }
      var backupTask := new TaskObject(store.tasks[k]);
      if backupTask.deleting {
        if FINALIZER in backupTask.finalizers {
          var task := backupTask.Value();
          var ok := FinalizeBackupTask(k, task);
          if !ok {
            return;
          }
          RestCut(store, k, RemoveFinalizer(task));
          if script != [] { RestStep(store, k, RemoveFinalizer(task), script); }
          backupTask.finalizers := backupTask.finalizers - {FINALIZER};
          var _ := Write(UpdateTask(store, k, backupTask.Value()));
        }
        return;
      }
      if FINALIZER !in backupTask.finalizers {
        ghost var pc := AddFinalizer(backupTask.Value());
        RestCut(store, k, pc);
        if script != [] { RestStep(store, k, pc, script); }
        backupTask.finalizers := backupTask.finalizers + {FINALIZER};
        var updated := Write(UpdateTask(store, k, backupTask.Value()));
        if updated.None? || updated.value.Rejected? {
          return;
        }
        backupTask.Refresh(updated.value.item);
      }
      var ok := EnsureTargets(k, backupTask.Value());
      if !ok {
        return;
      }
      ReconcileBackupTask(k, backupTask);
    }
  }
}
