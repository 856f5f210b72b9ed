/** The parts of a task's status agree with each other in every reachable state, and the reconciler's
    writes never overwrite what a user did in the meantime. */
module StatusCoherence {
  import opened Types
  import opened Api
  import opened Reconciler
  import opened Cluster
  import opened FinalizerSafety

  predicate HasCondition(status: TaskStatus, kind: ConditionType) {
    exists i :: 0 <= i < |status.conditions| && status.conditions[i].kind == kind && status.conditions[i].holds
  }

  predicate Coherent(status: TaskStatus) {
    && (status.phase == Running <==> status.activeJob.Some?)
    && (status.phase == Running <==> HasCondition(status, JobRunning))
    && (status.lastScheduled.Some? <==> HasCondition(status, Scheduled))
    && (status.phase == Completed ==> status.lastScheduled.Some?)
    && status.phase in {NoPhase, Pending, Running, Completed}
    && status.historyCount == 0
  }

  /** The status computed from a CronJob is coherent exactly when the CronJob is not both suspended and
      running a job; the reconciler gets there by having just written Suspend=false. */
  lemma StatusForCoherentIff(k: Key, generation: nat, status: TaskStatus, cron: CronJob, now: Time)
    requires status.historyCount == 0
    ensures Coherent(StatusFor(k, generation, status, cron, now))
      <==> !(cron.spec.suspend == Some(true) && |cron.status.active| > 0)
  {
    var r := StatusFor(k, generation, status, cron, now);
    assert r.conditions[0].kind == Scheduled && r.conditions[1].kind == JobRunning;
    assert HasCondition(r, Scheduled) <==> r.conditions[0].holds;
    assert HasCondition(r, JobRunning) <==> r.conditions[1].holds;
  }

  /** The stored task is the one the snapshot was taken of, as long as the version has not moved. */
  predicate Current(task: Option<Task>, rev: nat, t: Task) {
    t.version <= rev && (task.Some? && task.value.version == t.version ==> task.value == t)
  }

  predicate NotSuspended(cron: CronJob) { cron.spec.suspend == Some(false) }

  predicate LatestCurrent(task: Option<Task>, rev: nat, latest: Task) {
    && latest.version <= rev
    && (task.Some? && task.value.version == latest.version ==>
          (task.value.status.lastScheduled.Some? ==> latest.status.lastScheduled.Some?))
  }

  predicate CoherencePc(sl: Slice) {
    match sl.pc
    case AddFinalizer(t) => Current(sl.task, sl.taskRev, t) && !t.deleting
    case GetLatest(_, cron) => NotSuspended(cron)
    case WriteStatus(_, cron, latest) =>
      NotSuspended(cron) && Coherent(latest.status) && LatestCurrent(sl.task, sl.taskRev, latest)
    case DeleteCronJob(t) => Current(sl.task, sl.taskRev, t) && t.deleting && FINALIZER in t.finalizers
    case ListOwned(t) => Current(sl.task, sl.taskRev, t) && t.deleting && FINALIZER in t.finalizers
    case DeleteOwned(t, _) => Current(sl.task, sl.taskRev, t) && t.deleting && FINALIZER in t.finalizers
    case RemoveFinalizer(t) => Current(sl.task, sl.taskRev, t) && t.deleting && FINALIZER in t.finalizers
    case _ => true
  }

  predicate CoherenceInv(k: Key, sl: Slice) {
    TaskInv(k, sl) && CoherencePc(sl) && (sl.task.Some? ==> Coherent(sl.task.value.status))
  }

  /** This incarnation, if it is still the stored one, has a recorded schedule time. */
  predicate Sticky(sl: Slice, uid: Uid) {
    uid.born <= sl.taskRev && (sl.task.Some? && sl.task.value.uid == uid ==> sl.task.value.status.lastScheduled.Some?)
  }

  /** The reconciler changes nothing of a task but its own finalizer and the status. */
  predicate OnlyOwnFields(before: Option<Task>, after: Option<Task>) {
    if before.None? then after.None?
    else if after.None? then before.value.deleting && before.value.finalizers == {FINALIZER}
    else
      var (t, t') := (before.value, after.value);
      && (t'.uid, t'.spec, t'.generation, t'.deleting) == (t.uid, t.spec, t.generation, t.deleting)
      && t'.finalizers - {FINALIZER} == t.finalizers - {FINALIZER}
  }

  lemma AddFinalizerCoheres(s: Store, k: Key, pc: Pc, o: Outcome, uid: Uid)
    requires CoherenceInv(k, StoreSlice(s, k, pc)) && pc.AddFinalizer?
    ensures var (s', pc') := Step(s, k, pc, o);
            && CoherenceInv(k, StoreSlice(s', k, pc'))
            && (Sticky(StoreSlice(s, k, pc), uid) ==> Sticky(StoreSlice(s', k, pc'), uid))
            && OnlyOwnFields(Find(s.tasks, k), Find(s'.tasks, k))
  {
    hide CronKey, TargetsKey, Coherent;
    var pc' := Step(s, k, pc, o).1;
    var t := pc.task.(finalizers := pc.task.finalizers + {FINALIZER});
    assert t.finalizers - {FINALIZER} == pc.task.finalizers - {FINALIZER};
    if UpdateTask(s, k, t).Accepted? {
      UpdateOnSlice(s, k, t, pc');
    }
    hide UpdateTask;
  }

  lemma RemoveFinalizerCoheres(s: Store, k: Key, pc: Pc, o: Outcome, uid: Uid)
    requires CoherenceInv(k, StoreSlice(s, k, pc)) && pc.RemoveFinalizer?
    ensures var (s', pc') := Step(s, k, pc, o);
            && CoherenceInv(k, StoreSlice(s', k, pc'))
            && (Sticky(StoreSlice(s, k, pc), uid) ==> Sticky(StoreSlice(s', k, pc'), uid))
            && OnlyOwnFields(Find(s.tasks, k), Find(s'.tasks, k))
  {
    hide CronKey, TargetsKey, Coherent;
    var pc' := Step(s, k, pc, o).1;
    var t := pc.task.(finalizers := pc.task.finalizers - {FINALIZER});
    assert t.finalizers - {FINALIZER} == pc.task.finalizers - {FINALIZER};
    assert t.finalizers == {} ==> pc.task.finalizers == {FINALIZER};
    if UpdateTask(s, k, t).Accepted? {
      UpdateOnSlice(s, k, t, pc');
    }
    hide UpdateTask;
  }

  lemma GetLatestCoheres(s: Store, k: Key, pc: Pc, o: Outcome, uid: Uid)
    requires CoherenceInv(k, StoreSlice(s, k, pc)) && pc.GetLatest?
    ensures var (s', pc') := Step(s, k, pc, o);
            && CoherenceInv(k, StoreSlice(s', k, pc'))
            && (Sticky(StoreSlice(s, k, pc), uid) ==> Sticky(StoreSlice(s', k, pc'), uid))
            && OnlyOwnFields(Find(s.tasks, k), Find(s'.tasks, k))
  {
    if k in s.tasks {
      assert Coherent(s.tasks[k].status);
      StatusForCoherentIff(k, pc.task.generation, s.tasks[k].status, pc.cron, o.now);
    }
    hide CronKey, TargetsKey, Coherent, StatusFor;
  }

  lemma WriteStatusCoheres(s: Store, k: Key, pc: Pc, o: Outcome, uid: Uid)
    requires CoherenceInv(k, StoreSlice(s, k, pc)) && pc.WriteStatus?
    ensures var (s', pc') := Step(s, k, pc, o);
            && CoherenceInv(k, StoreSlice(s', k, pc'))
            && (Sticky(StoreSlice(s, k, pc), uid) ==> Sticky(StoreSlice(s', k, pc'), uid))
            && OnlyOwnFields(Find(s.tasks, k), Find(s'.tasks, k))
  {
    hide CronKey, TargetsKey, Coherent, StatusFor;
  }

  lemma CreateCronCoheres(s: Store, k: Key, pc: Pc, o: Outcome, uid: Uid)
    requires CoherenceInv(k, StoreSlice(s, k, pc)) && pc.CreateCronJob?
    ensures var (s', pc') := Step(s, k, pc, o);
            && CoherenceInv(k, StoreSlice(s', k, pc'))
            && (Sticky(StoreSlice(s, k, pc), uid) ==> Sticky(StoreSlice(s', k, pc'), uid))
            && OnlyOwnFields(Find(s.tasks, k), Find(s'.tasks, k))
  {
    hide CronKey, TargetsKey, Coherent, BuildCronJobSpec, TargetsConfigMap, TaskLabels;
    assert (Step(s, k, pc, o).0.tasks, Step(s, k, pc, o).0.taskRevs) == (s.tasks, s.taskRevs);
  }

  lemma UpdateCronCoheres(s: Store, k: Key, pc: Pc, o: Outcome, uid: Uid)
    requires CoherenceInv(k, StoreSlice(s, k, pc)) && pc.UpdateCronJob?
    ensures var (s', pc') := Step(s, k, pc, o);
            && CoherenceInv(k, StoreSlice(s', k, pc'))
            && (Sticky(StoreSlice(s, k, pc), uid) ==> Sticky(StoreSlice(s', k, pc'), uid))
            && OnlyOwnFields(Find(s.tasks, k), Find(s'.tasks, k))
  {
    hide CronKey, TargetsKey, Coherent, BuildCronJobSpec, TargetsConfigMap, TaskLabels;
    assert (Step(s, k, pc, o).0.tasks, Step(s, k, pc, o).0.taskRevs) == (s.tasks, s.taskRevs);
  }

  lemma CronCallsCohere(s: Store, k: Key, pc: Pc, o: Outcome, uid: Uid)
    requires CoherenceInv(k, StoreSlice(s, k, pc)) && (pc.GetCron? || pc.DeleteCronJob?)
    ensures var (s', pc') := Step(s, k, pc, o);
            && CoherenceInv(k, StoreSlice(s', k, pc'))
            && (Sticky(StoreSlice(s, k, pc), uid) ==> Sticky(StoreSlice(s', k, pc'), uid))
            && OnlyOwnFields(Find(s.tasks, k), Find(s'.tasks, k))
  {
    hide CronKey, TargetsKey, Coherent, BuildCronJobSpec, TargetsConfigMap, TaskLabels;
    assert (Step(s, k, pc, o).0.tasks, Step(s, k, pc, o).0.taskRevs) == (s.tasks, s.taskRevs);
  }

  lemma OtherCallsCohere(s: Store, k: Key, pc: Pc, o: Outcome, uid: Uid)
    requires CoherenceInv(k, StoreSlice(s, k, pc))
    requires !pc.GetCron? && !pc.CreateCronJob? && !pc.UpdateCronJob? && !pc.DeleteCronJob?
    requires !pc.AddFinalizer? && !pc.RemoveFinalizer? && !pc.WriteStatus? && !pc.GetLatest?
    ensures var (s', pc') := Step(s, k, pc, o);
            && CoherenceInv(k, StoreSlice(s', k, pc'))
            && (Sticky(StoreSlice(s, k, pc), uid) ==> Sticky(StoreSlice(s', k, pc'), uid))
            && OnlyOwnFields(Find(s.tasks, k), Find(s'.tasks, k))
  {
    hide CronKey, TargetsKey, Coherent, BuildCronJobSpec, TargetsConfigMap, TaskLabels;
  }

  lemma UserChangeCoheres(k: Key, sl: Slice, task: Option<Task>, uid: Uid)
    requires CoherenceInv(k, sl) && sl.task.Some?
    requires task.Some? ==>
      && (task.value.uid, task.value.status) == (sl.task.value.uid, sl.task.value.status)
      && task.value.version == sl.taskRev + 1
    ensures var sl' := sl.(task := task, taskRev := sl.taskRev + 1);
            CoherenceInv(k, sl') && (Sticky(sl, uid) ==> Sticky(sl', uid))
  {
    hide Coherent;
  }

  lemma EditCoheres(s: Store, a: Action, k: Key, pc: Pc, uid: Uid)
    requires CoherenceInv(k, StoreSlice(s, k, pc)) && a.UserEdit?
    ensures var (sl, sl') := (StoreSlice(s, k, pc), StoreSlice(ActStore(s, a), k, pc));
            CoherenceInv(k, sl') && (Sticky(sl, uid) ==> Sticky(sl', uid))
  {
    hide CoherenceInv, Sticky, CronKey, TargetsKey;
    if a.key == k && k in s.tasks {
      var edited := EditedTask(s.tasks[k], a.spec, a.finalizers);
      assert edited.version == s.tasks[k].version;
      hide EditedTask;
      UpdateOnSlice(s, k, edited, pc);
      UserChangeCoheres(k, StoreSlice(s, k, pc), Find(ActStore(s, a).tasks, k), uid);
    }
  }

  lemma DeleteCoheres(s: Store, a: Action, k: Key, pc: Pc, uid: Uid)
    requires CoherenceInv(k, StoreSlice(s, k, pc)) && a.UserDelete?
    ensures var (sl, sl') := (StoreSlice(s, k, pc), StoreSlice(ActStore(s, a), k, pc));
            CoherenceInv(k, sl') && (Sticky(sl, uid) ==> Sticky(sl', uid))
  {
    hide CoherenceInv, Sticky, CronKey, TargetsKey;
    if a.key != k || k !in s.tasks {
      UserSliceElsewhere(s, a, k, pc);
      hide ActStore, StoreSlice;
    } else {
      DeleteOnSlice(s, k, pc);
      if ActStore(s, a) != s {
        UserChangeCoheres(k, StoreSlice(s, k, pc), Find(ActStore(s, a).tasks, k), uid);
      }
    }
  }

  lemma OthersCohere(s: Store, a: Action, k: Key, pc: Pc, uid: Uid)
    requires CoherenceInv(k, StoreSlice(s, k, pc)) && !a.UserEdit? && !a.UserDelete?
    ensures var (sl, sl') := (StoreSlice(s, k, pc), StoreSlice(ActStore(s, a), k, pc));
            CoherenceInv(k, sl') && (Sticky(sl, uid) ==> Sticky(sl', uid))
  {
    assert Coherent(EMPTY_STATUS);
    hide CronKey, TargetsKey, Coherent;
  }

  lemma StepCoheres(s: Store, k: Key, pc: Pc, o: Outcome, uid: Uid)
    requires CoherenceInv(k, StoreSlice(s, k, pc))
    ensures var (s', pc') := Step(s, k, pc, o);
            && CoherenceInv(k, StoreSlice(s', k, pc'))
            && (Sticky(StoreSlice(s, k, pc), uid) ==> Sticky(StoreSlice(s', k, pc'), uid))
            && OnlyOwnFields(Find(s.tasks, k), Find(s'.tasks, k))
  {
    hide Step, CoherenceInv, Sticky, OnlyOwnFields, StoreSlice;
    if pc.AddFinalizer? {
      AddFinalizerCoheres(s, k, pc, o, uid);
    } else if pc.RemoveFinalizer? {
      RemoveFinalizerCoheres(s, k, pc, o, uid);
    } else if pc.WriteStatus? || pc.GetLatest? {
      if pc.GetLatest? {
        GetLatestCoheres(s, k, pc, o, uid);
      } else {
        WriteStatusCoheres(s, k, pc, o, uid);
      }
    } else if pc.CreateCronJob? {
      CreateCronCoheres(s, k, pc, o, uid);
    } else if pc.UpdateCronJob? {
      UpdateCronCoheres(s, k, pc, o, uid);
    } else if pc.GetCron? || pc.DeleteCronJob? {
      CronCallsCohere(s, k, pc, o, uid);
    } else {
      OtherCallsCohere(s, k, pc, o, uid);
    }
  }

  lemma ActCoheres(w: World, a: Action, k: Key, uid: Uid)
    requires CoherenceInv(k, SliceOf(w, k))
    ensures CoherenceInv(k, SliceOf(Act(w, a), k))
    ensures Sticky(SliceOf(w, k), uid) ==> Sticky(SliceOf(Act(w, a), k), uid)
  {
    var pc := PcOf(w, k);
    match a
    case Reconcile(l, o) =>
      if l == k {
        StepCoheres(w.store, k, pc, o, uid);
      } else {
        StepFrame(w.store, l, PcOf(w, l), o);
        OtherSlices(w.store, Act(w, a).store, l, k, pc);
      }
    case Crash(l) =>
    case UserEdit(_, _, _) => EditCoheres(w.store, a, k, pc, uid);
    case UserDelete(_) => DeleteCoheres(w.store, a, k, pc, uid);
    case _ => OthersCohere(w.store, a, k, pc, uid);
    hide Step, StoreSlice, ActStore;
  }

  lemma {:induction false} RunCoheres(w: World, actions: seq<Action>, k: Key, uid: Uid)
    requires CoherenceInv(k, SliceOf(w, k))
    ensures CoherenceInv(k, SliceOf(Run(w, actions), k))
    ensures Sticky(SliceOf(w, k), uid) ==> Sticky(SliceOf(Run(w, actions), k), uid)
  {
    if actions != [] {
      var n := |actions| - 1;
      RunCoheres(w, actions[..n], k, uid);
      ActCoheres(Run(w, actions[..n]), actions[n], k, uid);
    }
  }

  lemma StartCoheres(k: Key)
    ensures CoherenceInv(k, SliceOf(START, k))
  {
  }

  /** Every stored status is coherent, and the history count is never persisted. */
  lemma StatusCoherentInEveryRun(actions: seq<Action>, k: Key)
    requires k in Run(START, actions).store.tasks
    ensures Coherent(Run(START, actions).store.tasks[k].status)
  {
    StartCoheres(k);
    RunCoheres(START, actions, k, Uid(k, 0));
  }

  /** Once set, the last schedule time of an incarnation stays set for as long as it lives. */
  lemma LastScheduledNeverForgotten(early: seq<Action>, later: seq<Action>, k: Key)
    requires var (w1, w2) := (Run(START, early), Run(Run(START, early), later));
             && k in w1.store.tasks && k in w2.store.tasks
             && w1.store.tasks[k].uid == w2.store.tasks[k].uid
             && w1.store.tasks[k].status.lastScheduled.Some?
    ensures Run(Run(START, early), later).store.tasks[k].status.lastScheduled.Some?
  {
    StartCoheres(k);
    var w := Run(START, early);
    RunCoheres(START, early, k, w.store.tasks[k].uid);
    RunCoheres(w, later, k, w.store.tasks[k].uid);
  }

  /** No call of any pass, however stale its snapshot, changes a task's spec, generation, identity,
      deletion mark or foreign finalizers, or removes a task that others still hold. */
  lemma ReconcilerKeepsUserFields(actions: seq<Action>, k: Key, o: Outcome, l: Key)
    ensures var w := Run(START, actions);
            OnlyOwnFields(Find(w.store.tasks, l), Find(Act(w, Reconcile(k, o)).store.tasks, l))
  {
    var w := Run(START, actions);
    StartCoheres(k);
    RunCoheres(START, actions, k, Uid(k, 0));
    StepCoheres(w.store, k, PcOf(w, k), o, Uid(k, 0));
    StepFrame(w.store, k, PcOf(w, k), o);
  }
}
