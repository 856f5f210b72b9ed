/** Finalizer safety: over every run, a CronJob controlled by a BackupTask lives only while that task does. */
module FinalizerSafety {
  import opened Types
  import opened Api
  import opened Reconciler
  import opened Cluster

  /** Everything in the world that concerns one task, apart from records. */
  datatype Slice = Slice(
    task: Option<Task>, taskRev: nat,
    cron: Option<CronJob>, cronRev: nat,
    configMap: Option<ConfigMap>,
    pc: Pc)

  function StoreSlice(s: Store, k: Key, pc: Pc): Slice {
    Slice(Find(s.tasks, k), Rev(s.taskRevs, k),
          Find(s.crons, CronKey(k)), Rev(s.cronRevs, CronKey(k)),
          Find(s.configMaps, TargetsKey(k)),
          pc)
  }

  function SliceOf(w: World, k: Key): Slice {
    StoreSlice(w.store, k, PcOf(w, k))
  }

  /** s' differs from s at most in the objects of task k. */
  ghost predicate OnlyTouches(s: Store, s': Store, k: Key) {
    && (forall l :: l != k ==> Find(s'.tasks, l) == Find(s.tasks, l) && Find(s'.taskRevs, l) == Find(s.taskRevs, l))
    && (forall c :: c != CronKey(k) ==>
          Find(s'.crons, c) == Find(s.crons, c) && Find(s'.cronRevs, c) == Find(s.cronRevs, c))
    && (forall m :: m != TargetsKey(k) ==> Find(s'.configMaps, m) == Find(s.configMaps, m))
  }

  lemma TaskUpdatesTouch(s: Store, k: Key, t: Task)
    ensures OnlyTouches(s, Settled(s, UpdateTask(s, k, t)), k)
  {
    hide CronKey, TargetsKey, UpdatedTask;
  }

  lemma StatusUpdatesTouch(s: Store, k: Key, t: Task)
    ensures OnlyTouches(s, Settled(s, UpdateTaskStatus(s, k, t)), k)
  {
    hide CronKey, TargetsKey;
  }

  lemma CronWritesTouch(s: Store, k: Key, c: CronJob)
    ensures OnlyTouches(s, Settled(s, CreateCron(s, CronKey(k), c)), k)
    ensures OnlyTouches(s, Settled(s, UpdateCron(s, CronKey(k), c)), k)
    ensures OnlyTouches(s, Settled(s, DeleteCron(s, CronKey(k))), k)
  {
    hide CronKey, TargetsKey, BuildCronJobSpec, TargetsConfigMap, TaskLabels, StatusFor;
  }

  lemma ConfigMapWritesTouch(s: Store, k: Key, c: ConfigMap)
    ensures OnlyTouches(s, Settled(s, CreateConfigMap(s, TargetsKey(k), c)), k)
    ensures OnlyTouches(s, Settled(s, UpdateConfigMap(s, TargetsKey(k), c)), k)
  {
  }

  /** The records stay as they are, except that a deletion step may remove the first pending one. */
  predicate AtMostDeletes(s: Store, s': Store, pc: Pc) {
    || s'.records == s.records
    || ((pc.DeleteOld? || pc.DeleteOwned?) && |pc.pending| > 0 && s'.records == s.records - {pc.pending[0]})
  }

  lemma StepRecords(s: Store, k: Key, pc: Pc, o: Outcome)
    ensures AtMostDeletes(s, Step(s, k, pc, o).0, pc)
  {
    hide CronKey, TargetsKey, BuildCronJobSpec, TargetsConfigMap, TaskLabels, StatusFor;
  }

  lemma TaskCallsFrame(s: Store, k: Key, pc: Pc, o: Outcome)
    requires pc.AddFinalizer? || pc.WriteStatus? || pc.RemoveFinalizer?
    ensures OnlyTouches(s, Step(s, k, pc, o).0, k)
  {
    match pc
    case AddFinalizer(t) => TaskUpdatesTouch(s, k, t.(finalizers := t.finalizers + {FINALIZER}));
    case WriteStatus(_, _, latest) => StatusUpdatesTouch(s, k, latest);
    case RemoveFinalizer(t) => TaskUpdatesTouch(s, k, t.(finalizers := t.finalizers - {FINALIZER}));
    hide CronKey, TargetsKey, UpdateTask, UpdateTaskStatus, OnlyTouches;
  }

  lemma ConfigMapCallsFrame(s: Store, k: Key, pc: Pc, o: Outcome)
    requires pc.CreateTargets? || pc.UpdateTargets?
    ensures OnlyTouches(s, Step(s, k, pc, o).0, k)
  {
    ConfigMapWritesTouch(s, k, TargetsConfigMap(k, pc.task.spec));
    hide CronKey, TargetsKey, TargetsConfigMap, CreateConfigMap, UpdateConfigMap, OnlyTouches;
  }

  lemma CronCallsFrame(s: Store, k: Key, pc: Pc, o: Outcome)
    requires pc.CreateCronJob? || pc.UpdateCronJob? || pc.DeleteCronJob?
    ensures OnlyTouches(s, Step(s, k, pc, o).0, k)
  {
    CronWritesTouch(s, k, if pc.UpdateCronJob? then DesiredCronJob(k, pc.task, pc.seen) else FreshCronJob(k, pc.task));
    hide CronKey, TargetsKey, FreshCronJob, DesiredCronJob, CreateCron, UpdateCron, DeleteCron, OnlyTouches;
  }

  lemma OtherCallsFrame(s: Store, k: Key, pc: Pc, o: Outcome)
    requires pc.Idle? || pc.GetCron? || pc.GetLatest? || pc.ListRecords? || pc.ListOwned?
             || pc.DeleteOld? || pc.DeleteOwned?
    ensures OnlyTouches(s, Step(s, k, pc, o).0, k)
  {
    hide CronKey, TargetsKey, BuildCronJobSpec, TargetsConfigMap, TaskLabels, StatusFor;
    var s' := Step(s, k, pc, o).0;
    assert s' == s.(records := s'.records);
  }

  /** A step for k leaves every other task, CronJob and ConfigMap alone, and at most deletes a record. */
  lemma StepFrame(s: Store, k: Key, pc: Pc, o: Outcome)
    ensures OnlyTouches(s, Step(s, k, pc, o).0, k)
    ensures AtMostDeletes(s, Step(s, k, pc, o).0, pc)
  {
    StepRecords(s, k, pc, o);
    hide AtMostDeletes, OnlyTouches, Step;
    match pc
    case AddFinalizer(_) => TaskCallsFrame(s, k, pc, o);
    case WriteStatus(_, _, _) => TaskCallsFrame(s, k, pc, o);
    case RemoveFinalizer(_) => TaskCallsFrame(s, k, pc, o);
    case CreateTargets(_) => ConfigMapCallsFrame(s, k, pc, o);
    case UpdateTargets(_) => ConfigMapCallsFrame(s, k, pc, o);
    case CreateCronJob(_) => CronCallsFrame(s, k, pc, o);
    case UpdateCronJob(_, _) => CronCallsFrame(s, k, pc, o);
    case DeleteCronJob(_) => CronCallsFrame(s, k, pc, o);
    case _ => OtherCallsFrame(s, k, pc, o);
  }

  /** A record deletion leaves the rest of the slice alone. */
  lemma RecordDeletesKeepSlice(s: Store, k: Key, pc: Pc, o: Outcome)
    requires pc.DeleteOld? || pc.DeleteOwned?
    ensures var (s', pc') := Step(s, k, pc, o); StoreSlice(s', k, pc') == StoreSlice(s, k, pc')
  {
    var s' := Step(s, k, pc, o).0;
    assert s' == s.(records := s'.records);
    hide CronKey, TargetsKey, Step;
  }

  lemma OtherSlices(s: Store, s': Store, k: Key, l: Key, pc: Pc)
    requires OnlyTouches(s, s', k) && k != l
    ensures StoreSlice(s', l, pc) == StoreSlice(s, l, pc)
  {
    NamesInjective(k, l);
    assert Find(s'.taskRevs, l) == Find(s.taskRevs, l);
    assert Find(s'.cronRevs, CronKey(l)) == Find(s.cronRevs, CronKey(l));
  }

  lemma PutOnSlice(s: Store, k: Key, t: Task, pc: Pc)
    ensures var rev := Rev(s.taskRevs, k) + 1;
            StoreSlice(PutTask(s, k, t), k, pc) ==
            StoreSlice(s, k, pc).(task := Some(t.(version := rev)), taskRev := rev)
    ensures PutTask(s, k, t).tasks[k] == t.(version := Rev(s.taskRevs, k) + 1)
  {
    hide CronKey, TargetsKey;
  }

  lemma RemoveOnSlice(s: Store, k: Key, pc: Pc)
    ensures StoreSlice(RemoveTask(s, k), k, pc) ==
            StoreSlice(s, k, pc).(task := None, taskRev := Rev(s.taskRevs, k) + 1)
  {
    hide CronKey, TargetsKey, Without;
  }

  /** What an accepted update of the main resource does to the slice of its task. */
  lemma UpdateOnSlice(s: Store, k: Key, t: Task, pc: Pc)
    requires UpdateTask(s, k, t).Accepted?
    ensures k in s.tasks
    ensures var (r, stored) := (UpdateTask(s, k, t), s.tasks[k]);
            && (r.item.uid, r.item.status, r.item.deleting) == (stored.uid, stored.status, stored.deleting)
            && (r.item.finalizers, r.item.spec) == (t.finalizers, t.spec)
            && r.item.generation == (if t.spec == stored.spec then stored.generation else stored.generation + 1)
            && StoreSlice(r.store, k, pc) == StoreSlice(s, k, pc).(
                 task := if stored.deleting && t.finalizers == {} then None else Some(r.item),
                 taskRev := Rev(s.taskRevs, k) + 1)
            && (!(stored.deleting && t.finalizers == {}) ==> r.item.version == Rev(s.taskRevs, k) + 1)
  {
    var next := UpdatedTask(s.tasks[k], t);
    if Vanishes(next) {
      RemoveOnSlice(s, k, pc);
    } else {
      PutOnSlice(s, k, next, pc);
    }
    hide PutTask, RemoveTask, StoreSlice;
  }

  /** What a deletion request does to the slice of its task. */
  lemma DeleteOnSlice(s: Store, k: Key, pc: Pc)
    requires k in s.tasks
    ensures var (stored, sl) := (s.tasks[k], StoreSlice(s, k, pc));
            StoreSlice(Settled(s, DeleteTask(s, k)), k, pc) ==
            if stored.finalizers == {} then sl.(task := None, taskRev := sl.taskRev + 1)
            else if stored.deleting then sl
            else sl.(task := Some(stored.(deleting := true, generation := stored.generation + 1,
                                  version := sl.taskRev + 1)),
                     taskRev := sl.taskRev + 1)
  {
    hide CronKey, TargetsKey;
  }

  predicate Owned(cron: Option<CronJob>) {
    cron.Some? && cron.value.controller.Some? && cron.value.controller.value.kind == TASK_KIND
  }

  /** The task exists, is this incarnation, and carries the operator's finalizer. */
  predicate Held(task: Option<Task>, uid: Uid) {
    task.Some? && task.value.uid == uid && FINALIZER in task.value.finalizers
  }

  predicate TaskInv(k: Key, sl: Slice) {
    sl.task.Some? ==>
      && sl.task.value.version <= sl.taskRev
      && sl.task.value.uid.key == k
      && sl.task.value.uid.born <= sl.task.value.version
  }

  predicate CronInv(k: Key, sl: Slice) {
    Owned(sl.cron) ==>
      sl.cron.value.controller.value.name == k.name && Held(sl.task, sl.cron.value.controller.value.uid)
  }

  predicate PcInv(sl: Slice) {
    match sl.pc
    case Idle => true
    case AddFinalizer(_) => true
    case CreateTargets(t) => Held(sl.task, t.uid)
    case UpdateTargets(t) => Held(sl.task, t.uid)
    case GetCron(t) => Held(sl.task, t.uid)
    case CreateCronJob(t) => Held(sl.task, t.uid)
    case UpdateCronJob(t, _) => Held(sl.task, t.uid)
    case GetLatest(t, _) => Held(sl.task, t.uid)
    case WriteStatus(t, _, _) => Held(sl.task, t.uid)
    case ListRecords(t) => Held(sl.task, t.uid)
    case DeleteOld(t, _) => Held(sl.task, t.uid)
    case DeleteCronJob(t) => Held(sl.task, t.uid)
    case ListOwned(t) => Held(sl.task, t.uid) && !Owned(sl.cron)
    case DeleteOwned(t, _) => Held(sl.task, t.uid) && !Owned(sl.cron)
    case RemoveFinalizer(t) => Held(sl.task, t.uid) && !Owned(sl.cron)
  }

  predicate KeyInv(k: Key, sl: Slice) {
    TaskInv(k, sl) && CronInv(k, sl) && PcInv(sl)
  }

  /** Controlled CronJobs carry the name derived from their controller. */
  ghost predicate OwnerNames(s: Store) {
    forall c :: c in s.crons && Owned(Some(s.crons[c])) ==>
      c == CronKey(Key(c.ns, s.crons[c].controller.value.name))
  }

  ghost predicate Inv(w: World) {
    OwnerNames(w.store) && forall k :: KeyInv(k, SliceOf(w, k))
  }

  predicate Deletes(pc: Pc) { pc.DeleteCronJob? || pc.ListOwned? || pc.DeleteOwned? || pc.RemoveFinalizer? }

  lemma RemoveFinalizerKeepsTaskInv(s: Store, k: Key, pc: Pc, o: Outcome)
    requires KeyInv(k, StoreSlice(s, k, pc)) && pc.RemoveFinalizer?
    ensures var (s', pc') := Step(s, k, pc, o); TaskInv(k, StoreSlice(s', k, pc'))
  {
    hide CronKey, TargetsKey, BuildCronJobSpec, TargetsConfigMap, TaskLabels, StatusFor;
  }

  lemma DeletionKeepsTaskInv(s: Store, k: Key, pc: Pc, o: Outcome)
    requires KeyInv(k, StoreSlice(s, k, pc)) && Deletes(pc) && !pc.RemoveFinalizer?
    ensures var (s', pc') := Step(s, k, pc, o); TaskInv(k, StoreSlice(s', k, pc'))
  {
    hide CronKey, TargetsKey, BuildCronJobSpec, TargetsConfigMap, TaskLabels, StatusFor;
  }

  predicate WritesTask(pc: Pc) { pc.AddFinalizer? || pc.WriteStatus? }

  lemma TaskWritesKeepTaskInv(s: Store, k: Key, pc: Pc, o: Outcome)
    requires KeyInv(k, StoreSlice(s, k, pc)) && WritesTask(pc)
    ensures var (s', pc') := Step(s, k, pc, o); TaskInv(k, StoreSlice(s', k, pc'))
  {
    hide CronKey, TargetsKey, BuildCronJobSpec, TargetsConfigMap, TaskLabels, StatusFor;
  }

  lemma OtherStepsKeepTaskInv(s: Store, k: Key, pc: Pc, o: Outcome)
    requires KeyInv(k, StoreSlice(s, k, pc)) && !Deletes(pc) && !WritesTask(pc)
    ensures var (s', pc') := Step(s, k, pc, o); TaskInv(k, StoreSlice(s', k, pc'))
  {
    hide CronKey, TargetsKey, BuildCronJobSpec, TargetsConfigMap, TaskLabels, StatusFor;
  }

  lemma StepKeepsTaskInv(s: Store, k: Key, pc: Pc, o: Outcome)
    requires KeyInv(k, StoreSlice(s, k, pc))
    ensures var (s', pc') := Step(s, k, pc, o); TaskInv(k, StoreSlice(s', k, pc'))
  {
    if pc.RemoveFinalizer? {
      RemoveFinalizerKeepsTaskInv(s, k, pc, o);
    } else if Deletes(pc) {
      DeletionKeepsTaskInv(s, k, pc, o);
    } else if WritesTask(pc) {
      TaskWritesKeepTaskInv(s, k, pc, o);
    } else {
      OtherStepsKeepTaskInv(s, k, pc, o);
    }
    hide Step, KeyInv, TaskInv, StoreSlice;
  }

  lemma DeletionKeepsCronInv(s: Store, k: Key, pc: Pc, o: Outcome)
    requires KeyInv(k, StoreSlice(s, k, pc)) && Deletes(pc)
    ensures var (s', pc') := Step(s, k, pc, o); CronInv(k, StoreSlice(s', k, pc'))
  {
    hide CronKey, TargetsKey, BuildCronJobSpec, TargetsConfigMap, TaskLabels, StatusFor;
  }

  lemma TaskWritesKeepCronInv(s: Store, k: Key, pc: Pc, o: Outcome)
    requires KeyInv(k, StoreSlice(s, k, pc)) && WritesTask(pc)
    ensures var (s', pc') := Step(s, k, pc, o); CronInv(k, StoreSlice(s', k, pc'))
  {
    hide CronKey, TargetsKey, BuildCronJobSpec, TargetsConfigMap, TaskLabels, StatusFor;
  }

  lemma OtherStepsKeepCronInv(s: Store, k: Key, pc: Pc, o: Outcome)
    requires KeyInv(k, StoreSlice(s, k, pc)) && !Deletes(pc) && !WritesTask(pc)
    ensures var (s', pc') := Step(s, k, pc, o); CronInv(k, StoreSlice(s', k, pc'))
  {
    hide CronKey, TargetsKey, BuildCronJobSpec, TargetsConfigMap, TaskLabels, StatusFor;
  }

  lemma StepKeepsCronInv(s: Store, k: Key, pc: Pc, o: Outcome)
    requires KeyInv(k, StoreSlice(s, k, pc))
    ensures var (s', pc') := Step(s, k, pc, o); CronInv(k, StoreSlice(s', k, pc'))
  {
    if Deletes(pc) {
      DeletionKeepsCronInv(s, k, pc, o);
    } else if WritesTask(pc) {
      TaskWritesKeepCronInv(s, k, pc, o);
    } else {
      OtherStepsKeepCronInv(s, k, pc, o);
    }
    hide Step, KeyInv, CronInv, StoreSlice;
  }

  lemma DeletionKeepsPcInv(s: Store, k: Key, pc: Pc, o: Outcome)
    requires KeyInv(k, StoreSlice(s, k, pc)) && Deletes(pc)
    ensures var (s', pc') := Step(s, k, pc, o); PcInv(StoreSlice(s', k, pc'))
  {
    hide CronKey, TargetsKey, BuildCronJobSpec, TargetsConfigMap, TaskLabels, StatusFor;
  }

  lemma StepKeepsPcInv(s: Store, k: Key, pc: Pc, o: Outcome)
    requires KeyInv(k, StoreSlice(s, k, pc))
    ensures var (s', pc') := Step(s, k, pc, o); PcInv(StoreSlice(s', k, pc'))
  {
    if Deletes(pc) {
      DeletionKeepsPcInv(s, k, pc, o);
    } else {
      OtherStepsKeepPcInv(s, k, pc, o);
    }
    hide Step, KeyInv, PcInv, StoreSlice;
  }

  lemma OtherStepsKeepPcInv(s: Store, k: Key, pc: Pc, o: Outcome)
    requires KeyInv(k, StoreSlice(s, k, pc)) && !Deletes(pc)
    ensures var (s', pc') := Step(s, k, pc, o); PcInv(StoreSlice(s', k, pc'))
  {
    hide CronKey, TargetsKey, BuildCronJobSpec, TargetsConfigMap, TaskLabels, StatusFor;
  }

  lemma StepKeepsKeyInv(s: Store, k: Key, pc: Pc, o: Outcome)
    requires KeyInv(k, StoreSlice(s, k, pc))
    ensures var (s', pc') := Step(s, k, pc, o); KeyInv(k, StoreSlice(s', k, pc'))
  {
    hide Step, StoreSlice;
    StepKeepsTaskInv(s, k, pc, o);
    StepKeepsCronInv(s, k, pc, o);
    StepKeepsPcInv(s, k, pc, o);
  }

  lemma StepKeepsOwnerNames(s: Store, k: Key, pc: Pc, o: Outcome)
    requires OwnerNames(s)
    ensures OwnerNames(Step(s, k, pc, o).0)
  {
    var s' := Step(s, k, pc, o).0;
    StepFrame(s, k, pc, o);
    forall c | c in s'.crons && Owned(Some(s'.crons[c]))
      ensures c == CronKey(Key(c.ns, s'.crons[c].controller.value.name))
    {
      if c != CronKey(k) {
        assert Find(s'.crons, c) == Find(s.crons, c);
      } else if Find(s'.crons, c) != Find(s.crons, c) {
        assert pc.CreateCronJob? || pc.UpdateCronJob?;
      }
    }
  }

  /** Changes by a user to a task that is still there keep the invariant unless they drop the finalizer. */
  lemma UserChangeKeepsKeyInv(k: Key, sl: Slice, task: Option<Task>)
    requires KeyInv(k, sl) && sl.task.Some?
    requires task.None? ==> FINALIZER !in sl.task.value.finalizers
    requires task.Some? ==>
      && task.value.uid == sl.task.value.uid
      && task.value.version == sl.taskRev + 1
      && (FINALIZER in sl.task.value.finalizers ==> FINALIZER in task.value.finalizers)
    ensures KeyInv(k, sl.(task := task, taskRev := sl.taskRev + 1))
  {
  }

  /** What a user does to another task. */
  lemma UserSliceElsewhere(s: Store, a: Action, k: Key, pc: Pc)
    requires (a.UserEdit? || a.UserDelete?) && (a.key != k || k !in s.tasks)
    ensures StoreSlice(ActStore(s, a), k, pc) == StoreSlice(s, k, pc)
  {
    hide CronKey, TargetsKey, EditedTask, UpdatedTask;
  }

  lemma EditKeepsKeyInv(s: Store, a: Action, k: Key, pc: Pc)
    requires KeyInv(k, StoreSlice(s, k, pc)) && a.UserEdit?
    ensures KeyInv(k, StoreSlice(ActStore(s, a), k, pc))
  {
    hide CronKey, TargetsKey, KeyInv;
    if a.key == k && k in s.tasks {
      var t := s.tasks[k];
      var edited := EditedTask(t, a.spec, a.finalizers);
      assert FINALIZER in t.finalizers ==> FINALIZER in edited.finalizers;
      assert edited.version == t.version;
      hide EditedTask, UpdatedTask;
      UpdateOnSlice(s, k, edited, pc);
      UserChangeKeepsKeyInv(k, StoreSlice(s, k, pc), StoreSlice(ActStore(s, a), k, pc).task);
    } else {
      UserSliceElsewhere(s, a, k, pc);
    }
    hide ActStore;
  }

  lemma CreateKeepsKeyInv(s: Store, a: Action, k: Key, pc: Pc)
    requires KeyInv(k, StoreSlice(s, k, pc)) && a.UserCreate?
    ensures KeyInv(k, StoreSlice(ActStore(s, a), k, pc))
  {
    hide CronKey, TargetsKey, BuildCronJobSpec, TargetsConfigMap, TaskLabels, StatusFor;
  }

  lemma DeleteKeepsKeyInv(s: Store, a: Action, k: Key, pc: Pc)
    requires KeyInv(k, StoreSlice(s, k, pc)) && a.UserDelete?
    ensures KeyInv(k, StoreSlice(ActStore(s, a), k, pc))
  {
    hide CronKey, TargetsKey, KeyInv;
    if a.key != k || k !in s.tasks {
      UserSliceElsewhere(s, a, k, pc);
      hide ActStore, StoreSlice;
    } else {
      DeleteOnSlice(s, k, pc);
      hide DeleteTask;
      var (before, after) := (StoreSlice(s, k, pc), StoreSlice(ActStore(s, a), k, pc));
      if after != before {
        UserChangeKeepsKeyInv(k, before, after.task);
      }
    }
  }

  lemma ForeignersKeepKeyInv(s: Store, a: Action, k: Key, pc: Pc)
    requires KeyInv(k, StoreSlice(s, k, pc)) && !a.UserCreate? && !a.UserDelete? && !a.UserEdit?
    ensures KeyInv(k, StoreSlice(ActStore(s, a), k, pc))
  {
    hide CronKey, TargetsKey, BuildCronJobSpec, TargetsConfigMap, TaskLabels, StatusFor;
  }

  lemma ActKeepsKeyInv(w: World, a: Action, k: Key)
    requires KeyInv(k, SliceOf(w, k))
    ensures KeyInv(k, SliceOf(Act(w, a), k))
  {
    hide Step, StoreSlice, ActStore;
    match a
    case Reconcile(l, o) =>
      if l == k {
        StepKeepsKeyInv(w.store, k, PcOf(w, k), o);
      } else {
        StepFrame(w.store, l, PcOf(w, l), o);
        OtherSlices(w.store, Act(w, a).store, l, k, PcOf(w, k));
      }
    case Crash(l) => CrashKeepsKeyInv(w.store, k, PcOf(w, k));
    case UserEdit(_, _, _) => EditKeepsKeyInv(w.store, a, k, PcOf(w, k));
    case UserCreate(_, _, _) => CreateKeepsKeyInv(w.store, a, k, PcOf(w, k));
    case UserDelete(_) => DeleteKeepsKeyInv(w.store, a, k, PcOf(w, k));
    case _ => ForeignersKeepKeyInv(w.store, a, k, PcOf(w, k));
  }

  lemma CrashKeepsKeyInv(s: Store, k: Key, pc: Pc)
    requires KeyInv(k, StoreSlice(s, k, pc))
    ensures KeyInv(k, StoreSlice(s, k, Idle))
  {
  }

  lemma CronWritersKeepOwnerNames(s: Store, a: Action)
    requires OwnerNames(s) && (a.CronController? || a.ForeignCreatesCron? || a.ForeignEditsCron?)
    ensures OwnerNames(ActStore(s, a))
  {
    hide CronKey;
  }

  lemma OthersKeepOwnerNames(s: Store, a: Action)
    requires OwnerNames(s) && !a.CronController? && !a.ForeignCreatesCron? && !a.ForeignEditsCron?
    ensures OwnerNames(ActStore(s, a))
  {
    var s' := ActStore(s, a);
    assert forall c :: c in s'.crons ==> c in s.crons && s'.crons[c] == s.crons[c];
    hide CronKey, ActStore;
  }

  lemma ActKeepsOwnerNames(w: World, a: Action)
    requires OwnerNames(w.store)
    ensures OwnerNames(Act(w, a).store)
  {
    hide Step, OwnerNames, ActStore;
    match a
    case Reconcile(l, o) => StepKeepsOwnerNames(w.store, l, PcOf(w, l), o);
    case Crash(_) =>
    case CronController(_, _) => CronWritersKeepOwnerNames(w.store, a);
    case ForeignCreatesCron(_, _) => CronWritersKeepOwnerNames(w.store, a);
    case ForeignEditsCron(_, _) => CronWritersKeepOwnerNames(w.store, a);
    case _ => OthersKeepOwnerNames(w.store, a);
  }

  lemma {:induction false} RunKeepsInv(w: World, actions: seq<Action>)
    requires Inv(w)
    ensures Inv(Run(w, actions))
  {
    if actions != [] {
      var n := |actions| - 1;
      RunKeepsInv(w, actions[..n]);
      var v := Run(w, actions[..n]);
      ActKeepsOwnerNames(v, actions[n]);
      forall k ensures KeyInv(k, SliceOf(Act(v, actions[n]), k)) {
        ActKeepsKeyInv(v, actions[n], k);
      }
    }
  }

  /** Whenever the operator's CronJob exists, the BackupTask it is named after exists, carries the
      finalizer and is the very incarnation that controls the CronJob. */
  lemma FinalizerSafety(actions: seq<Action>, c: Key)
    requires var crons := Run(START, actions).store.crons; c in crons && Owned(Some(crons[c]))
    ensures var s := Run(START, actions).store;
            var controller := s.crons[c].controller.value;
            var k := Key(c.ns, controller.name);
            && c == CronKey(k)
            && k in s.tasks
            && FINALIZER in s.tasks[k].finalizers
            && s.tasks[k].uid == controller.uid
  {
    RunKeepsInv(START, actions);
    var w := Run(START, actions);
    var k := Key(c.ns, w.store.crons[c].controller.value.name);
    assert KeyInv(k, SliceOf(w, k));
  }
}
