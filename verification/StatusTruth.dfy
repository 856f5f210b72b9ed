/** The status never lies: a task whose generation has been observed has its outputs published. */
module StatusTruth {
  import opened Types
  import opened Api
  import opened Reconciler
  import opened Cluster
  import opened FinalizerSafety

  predicate TargetsPublished(k: Key, configMap: Option<ConfigMap>, spec: TaskSpec) {
    configMap == Some(TargetsConfigMap(k, spec))
  }

  predicate CronPublished(k: Key, cron: Option<CronJob>, t: Task) {
    cron.Some? && cron.value.spec == BuildCronJobSpec(k, t.uid, t.spec)
    && cron.value.controller == Some(OwnerOf(k, t.uid))
  }

  predicate TruthfulTask(k: Key, sl: Slice) {
    sl.task.Some? ==>
      var t := sl.task.value;
      && t.status.observedGeneration <= t.generation
      && (!t.deleting && t.status.observedGeneration == t.generation ==>
            TargetsPublished(k, sl.configMap, t.spec) && CronPublished(k, sl.cron, t))
  }

  /** The snapshot a pass works with is no newer than the stored task and equal to it when as new. */
  predicate Snapshot(task: Option<Task>, t: Task) {
    && task.Some?
    && task.value.status.observedGeneration <= t.generation <= task.value.generation
    && (t.generation == task.value.generation ==> t.spec == task.value.spec)
  }

  predicate StillDeleting(task: Option<Task>) {
    task.Some? && task.value.deleting
  }

  predicate TruthPc(k: Key, sl: Slice) {
    match sl.pc
    case Idle => true
    case AddFinalizer(_) => true
    case CreateTargets(t) => Snapshot(sl.task, t)
    case UpdateTargets(t) => Snapshot(sl.task, t)
    case GetCron(t) => Snapshot(sl.task, t) && TargetsPublished(k, sl.configMap, t.spec)
    case CreateCronJob(t) => Snapshot(sl.task, t) && TargetsPublished(k, sl.configMap, t.spec)
    case UpdateCronJob(t, _) => Snapshot(sl.task, t) && TargetsPublished(k, sl.configMap, t.spec)
    case GetLatest(t, _) =>
      Snapshot(sl.task, t) && TargetsPublished(k, sl.configMap, t.spec) && CronPublished(k, sl.cron, t)
    case WriteStatus(t, _, latest) =>
      && Snapshot(sl.task, t) && TargetsPublished(k, sl.configMap, t.spec) && CronPublished(k, sl.cron, t)
      && latest.status.observedGeneration == t.generation
    case ListRecords(_) => true
    case DeleteOld(_, _) => true
    case _ => StillDeleting(sl.task)
  }

  predicate TruthInv(k: Key, sl: Slice) {
    TruthfulTask(k, sl) && TruthPc(k, sl)
  }

  /** Nobody but the operator and the CronJob controller's status writes the outputs of task k. */
  predicate LeavesOutputs(a: Action, k: Key) {
    match a
    case ForeignCreatesCron(c, _) => c != CronKey(k)
    case ForeignEditsCron(c, _) => c != CronKey(k)
    case ForeignDeletesCron(c) => c != CronKey(k)
    case ForeignWritesConfigMap(m, _) => m != TargetsKey(k)
    case _ => true
  }

  lemma AddFinalizerKeepsTruth(s: Store, k: Key, pc: Pc, o: Outcome)
    requires KeyInv(k, StoreSlice(s, k, pc)) && TruthInv(k, StoreSlice(s, k, pc)) && pc.AddFinalizer?
    ensures var (s', pc') := Step(s, k, pc, o); TruthInv(k, StoreSlice(s', k, pc'))
  {
    hide CronKey, TargetsKey, BuildCronJobSpec, TaskLabels, TargetsConfigMap, StatusFor;
    var pc' := Step(s, k, pc, o).1;
    var t := pc.task.(finalizers := pc.task.finalizers + {FINALIZER});
    if UpdateTask(s, k, t).Accepted? {
      UpdateOnSlice(s, k, t, pc');
    }
    hide UpdateTask;
  }

  lemma RemoveFinalizerKeepsTruth(s: Store, k: Key, pc: Pc, o: Outcome)
    requires KeyInv(k, StoreSlice(s, k, pc)) && TruthInv(k, StoreSlice(s, k, pc)) && pc.RemoveFinalizer?
    ensures var (s', pc') := Step(s, k, pc, o); TruthInv(k, StoreSlice(s', k, pc'))
  {
    hide CronKey, TargetsKey, BuildCronJobSpec, TaskLabels, TargetsConfigMap, StatusFor;
    var pc' := Step(s, k, pc, o).1;
    var t := pc.task.(finalizers := pc.task.finalizers - {FINALIZER});
    if UpdateTask(s, k, t).Accepted? {
      UpdateOnSlice(s, k, t, pc');
    }
    hide UpdateTask;
  }

  lemma WriteStatusKeepsTruth(s: Store, k: Key, pc: Pc, o: Outcome)
    requires KeyInv(k, StoreSlice(s, k, pc)) && TruthInv(k, StoreSlice(s, k, pc))
    requires pc.WriteStatus?
    ensures var (s', pc') := Step(s, k, pc, o); TruthInv(k, StoreSlice(s', k, pc'))
  {
    hide CronKey, TargetsKey, BuildCronJobSpec, TaskLabels, TargetsConfigMap, StatusFor;
  }

  lemma ConfigMapCallsKeepTruth(s: Store, k: Key, pc: Pc, o: Outcome)
    requires KeyInv(k, StoreSlice(s, k, pc)) && TruthInv(k, StoreSlice(s, k, pc))
    requires pc.CreateTargets? || pc.UpdateTargets?
    ensures var (s', pc') := Step(s, k, pc, o); TruthInv(k, StoreSlice(s', k, pc'))
  {
    hide CronKey, TargetsKey, BuildCronJobSpec, TaskLabels, TargetsConfigMap, StatusFor;
  }

  lemma CronWritesKeepTruth(s: Store, k: Key, pc: Pc, o: Outcome)
    requires KeyInv(k, StoreSlice(s, k, pc)) && TruthInv(k, StoreSlice(s, k, pc))
    requires pc.CreateCronJob? || pc.UpdateCronJob?
    ensures var (s', pc') := Step(s, k, pc, o); TruthInv(k, StoreSlice(s', k, pc'))
  {
    hide CronKey, TargetsKey, BuildCronJobSpec, TaskLabels, TargetsConfigMap, StatusFor;
  }

  lemma CronDeleteKeepTruth(s: Store, k: Key, pc: Pc, o: Outcome)
    requires KeyInv(k, StoreSlice(s, k, pc)) && TruthInv(k, StoreSlice(s, k, pc))
    requires pc.DeleteCronJob? || pc.GetCron?
    ensures var (s', pc') := Step(s, k, pc, o); TruthInv(k, StoreSlice(s', k, pc'))
  {
    hide CronKey, TargetsKey, BuildCronJobSpec, TaskLabels, TargetsConfigMap, StatusFor;
  }

  lemma ReadsKeepTruth(s: Store, k: Key, pc: Pc, o: Outcome)
    requires KeyInv(k, StoreSlice(s, k, pc)) && TruthInv(k, StoreSlice(s, k, pc))
    requires pc.Idle? || pc.GetLatest? || pc.ListRecords? || pc.ListOwned?
    ensures var (s', pc') := Step(s, k, pc, o); TruthInv(k, StoreSlice(s', k, pc'))
  {
    hide CronKey, TargetsKey, BuildCronJobSpec, TaskLabels, TargetsConfigMap, StatusFor;
  }

  lemma RecordDeletesKeepTruth(s: Store, k: Key, pc: Pc, o: Outcome)
    requires KeyInv(k, StoreSlice(s, k, pc)) && TruthInv(k, StoreSlice(s, k, pc))
    requires pc.DeleteOld? || pc.DeleteOwned?
    ensures var (s', pc') := Step(s, k, pc, o); TruthInv(k, StoreSlice(s', k, pc'))
  {
    RecordDeletesKeepSlice(s, k, pc, o);
    hide CronKey, TargetsKey, BuildCronJobSpec, TaskLabels, TargetsConfigMap, StatusFor, StoreSlice, StepDeleteRecord;
  }

  lemma StepKeepsTruth(s: Store, k: Key, pc: Pc, o: Outcome)
    requires KeyInv(k, StoreSlice(s, k, pc)) && TruthInv(k, StoreSlice(s, k, pc))
    ensures var (s', pc') := Step(s, k, pc, o); TruthInv(k, StoreSlice(s', k, pc'))
  {
    hide *;
    match pc
    case AddFinalizer(_) => AddFinalizerKeepsTruth(s, k, pc, o);
    case WriteStatus(_, _, _) => WriteStatusKeepsTruth(s, k, pc, o);
    case RemoveFinalizer(_) => RemoveFinalizerKeepsTruth(s, k, pc, o);
    case CreateTargets(_) => ConfigMapCallsKeepTruth(s, k, pc, o);
    case UpdateTargets(_) => ConfigMapCallsKeepTruth(s, k, pc, o);
    case CreateCronJob(_) => CronWritesKeepTruth(s, k, pc, o);
    case UpdateCronJob(_, _) => CronWritesKeepTruth(s, k, pc, o);
    case DeleteCronJob(_) => CronDeleteKeepTruth(s, k, pc, o);
    case GetCron(_) => CronDeleteKeepTruth(s, k, pc, o);
    case DeleteOld(_, _) => RecordDeletesKeepTruth(s, k, pc, o);
    case DeleteOwned(_, _) => RecordDeletesKeepTruth(s, k, pc, o);
    case _ => ReadsKeepTruth(s, k, pc, o);
  }

  /** Changes by a user: a new generation, a mark, or the end of a task without the finalizer. */
  lemma UserChangeKeepsTruth(k: Key, sl: Slice, task: Option<Task>, rev: nat)
    requires KeyInv(k, sl) && TruthInv(k, sl) && sl.task.Some?
    requires task.None? ==> FINALIZER !in sl.task.value.finalizers
    requires task.Some? ==>
      var (t, t') := (sl.task.value, task.value);
      && (t'.uid, t'.status) == (t.uid, t.status)
      && (t.deleting ==> t'.deleting)
      && (t'.generation == t.generation + 1
          || (t'.generation, t'.spec, t'.deleting) == (t.generation, t.spec, t.deleting))
    ensures TruthInv(k, sl.(task := task, taskRev := rev))
  {
    hide BuildCronJobSpec, TargetsConfigMap;
  }

  lemma EditKeepsTruth(s: Store, a: Action, k: Key, pc: Pc)
    requires KeyInv(k, StoreSlice(s, k, pc)) && TruthInv(k, StoreSlice(s, k, pc)) && a.UserEdit?
    ensures TruthInv(k, StoreSlice(ActStore(s, a), k, pc))
  {
    hide TruthInv, KeyInv, CronKey, TargetsKey;
    if a.key != k || k !in s.tasks {
      UserSliceElsewhere(s, a, k, pc);
      hide ActStore, StoreSlice;
    } else {
      var t := s.tasks[k];
      var edited := EditedTask(t, a.spec, a.finalizers);
      assert FINALIZER in t.finalizers ==> FINALIZER in edited.finalizers;
      assert (edited.version, edited.deleting, edited.spec) == (t.version, t.deleting, a.spec);
      hide EditedTask;
      UpdateOnSlice(s, k, edited, pc);
      var r := UpdateTask(s, k, edited);
      UserChangeKeepsTruth(k, StoreSlice(s, k, pc), Find(r.store.tasks, k), Rev(s.taskRevs, k) + 1);
    }
  }

  lemma CreateKeepsTruth(s: Store, a: Action, k: Key, pc: Pc)
    requires KeyInv(k, StoreSlice(s, k, pc)) && TruthInv(k, StoreSlice(s, k, pc)) && a.UserCreate?
    ensures TruthInv(k, StoreSlice(ActStore(s, a), k, pc))
  {
    hide CronKey, TargetsKey, BuildCronJobSpec, TaskLabels, TargetsConfigMap, StatusFor;
  }

  lemma DeleteKeepsTruth(s: Store, a: Action, k: Key, pc: Pc)
    requires KeyInv(k, StoreSlice(s, k, pc)) && TruthInv(k, StoreSlice(s, k, pc)) && a.UserDelete?
    ensures TruthInv(k, StoreSlice(ActStore(s, a), k, pc))
  {
    hide TruthInv, KeyInv, CronKey, TargetsKey;
    if a.key == k && k in s.tasks {
      DeleteOnSlice(s, k, pc);
      var sl' := StoreSlice(ActStore(s, a), k, pc);
      UserChangeKeepsTruth(k, StoreSlice(s, k, pc), sl'.task, sl'.taskRev);
    }
  }

  lemma ForeignersKeepTruth(s: Store, a: Action, k: Key, pc: Pc)
    requires TruthInv(k, StoreSlice(s, k, pc)) && LeavesOutputs(a, k)
    requires !a.UserCreate? && !a.UserDelete? && !a.UserEdit?
    ensures TruthInv(k, StoreSlice(ActStore(s, a), k, pc))
  {
    hide CronKey, TargetsKey, BuildCronJobSpec, TaskLabels, TargetsConfigMap, StatusFor;
  }

  lemma CrashKeepsTruth(s: Store, k: Key, pc: Pc)
    requires TruthInv(k, StoreSlice(s, k, pc))
    ensures TruthInv(k, StoreSlice(s, k, Idle))
  {
  }

  lemma ActKeepsTruth(w: World, a: Action, k: Key)
    requires KeyInv(k, SliceOf(w, k)) && TruthInv(k, SliceOf(w, k)) && LeavesOutputs(a, k)
    ensures TruthInv(k, SliceOf(Act(w, a), k))
  {
    hide Step, StoreSlice, ActStore, KeyInv, TruthInv;
    match a
    case Reconcile(l, o) =>
      if l == k {
        StepKeepsTruth(w.store, k, PcOf(w, k), o);
      } else {
        StepFrame(w.store, l, PcOf(w, l), o);
        OtherSlices(w.store, Act(w, a).store, l, k, PcOf(w, k));
      }
    case Crash(l) => CrashKeepsTruth(w.store, k, PcOf(w, k));
    case UserEdit(_, _, _) => EditKeepsTruth(w.store, a, k, PcOf(w, k));
    case UserCreate(_, _, _) => CreateKeepsTruth(w.store, a, k, PcOf(w, k));
    case UserDelete(_) => DeleteKeepsTruth(w.store, a, k, PcOf(w, k));
    case _ => ForeignersKeepTruth(w.store, a, k, PcOf(w, k));
  }

  lemma {:induction false} RunKeepsTruth(w: World, actions: seq<Action>, k: Key)
    requires Inv(w) && TruthInv(k, SliceOf(w, k))
    requires forall a :: a in actions ==> LeavesOutputs(a, k)
    ensures TruthInv(k, SliceOf(Run(w, actions), k))
  {
    if actions != [] {
      var n := |actions| - 1;
      RunKeepsTruth(w, actions[..n], k);
      RunKeepsInv(w, actions[..n]);
      ActKeepsTruth(Run(w, actions[..n]), actions[n], k);
    }
  }

  /** In every reachable state of an undeleted task the observed generation is at most the generation,
      and once they are equal the CronJob and the ConfigMap are those of the current spec. */
  lemma StatusNeverLies(actions: seq<Action>, k: Key)
    requires forall a :: a in actions ==> LeavesOutputs(a, k)
    requires k in Run(START, actions).store.tasks && !Run(START, actions).store.tasks[k].deleting
    ensures var s := Run(START, actions).store;
            var t := s.tasks[k];
            && t.status.observedGeneration <= t.generation
            && (t.status.observedGeneration == t.generation ==>
                  && CronKey(k) in s.crons && s.crons[CronKey(k)].spec == BuildCronJobSpec(k, t.uid, t.spec)
                  && s.crons[CronKey(k)].controller == Some(OwnerOf(k, t.uid))
                  && TargetsKey(k) in s.configMaps && s.configMaps[TargetsKey(k)] == TargetsConfigMap(k, t.spec))
  {
    RunKeepsTruth(START, actions, k);
  }
}
