/** Crash recovery: passes cut off anywhere do not change what a complete pass ends with. */
module Convergence {
  import opened Types
  import opened Api
  import opened Reconciler
  import opened FinalizerSafety
  import Retention

  /** What a pass is for: the task, its CronJob and its ConfigMap, up to versions and condition times. */
  datatype View = View(task: Option<Task>, cron: Option<CronJob>, configMap: Option<ConfigMap>)

  function Timeless(status: TaskStatus): TaskStatus {
    status.(conditions :=
      seq(|status.conditions|, i requires 0 <= i < |status.conditions| => status.conditions[i].(since := 0)))
  }

  function TaskView(t: Task): Task { t.(version := 0, status := Timeless(t.status)) }

  function CronView(c: CronJob): CronJob { c.(version := 0) }

  function ViewOf(s: Store, k: Key): View {
    View(if k in s.tasks then Some(TaskView(s.tasks[k])) else None,
         if CronKey(k) in s.crons then Some(CronView(s.crons[CronKey(k)])) else None,
         Find(s.configMaps, TargetsKey(k)))
  }

  /** The CronJob a live task should end up with; one with a foreign controller stays as it is. */
  function ExpectedCron(k: Key, t: Task, cron: Option<CronJob>): CronJob {
    if cron.None? then FreshCronJob(k, t)
    else if ControllerConflict(k, cron.value.controller) then cron.value
    else DesiredCronJob(k, t, cron.value)
  }

  function ExpectedStatus(k: Key, t: Task, cron: Option<CronJob>): TaskStatus {
    if cron.Some? && ControllerConflict(k, cron.value.controller) then Timeless(t.status)
    else StatusFor(k, t.generation, t.status, ExpectedCron(k, t, cron), 0)
  }

  /** What one complete pass makes of the store, stated without the machine. */
  function Expected(s: Store, k: Key): View {
    if k !in s.tasks then ViewOf(s, k)
    else
      var t := s.tasks[k];
      if t.deleting then
        if FINALIZER !in t.finalizers then ViewOf(s, k)
        else
          var rest := t.finalizers - {FINALIZER};
          View(if rest == {} then None else Some(TaskView(t).(finalizers := rest)),
               None, Find(s.configMaps, TargetsKey(k)))
      else
        var cron := Find(s.crons, CronKey(k));
        View(Some(t.(version := 0, finalizers := t.finalizers + {FINALIZER}, status := ExpectedStatus(k, t, cron))),
             Some(CronView(ExpectedCron(k, t, cron))),
             Some(TargetsConfigMap(k, t.spec)))
  }

  predicate Live(s: Store, k: Key, t: Task) {
    && k in s.tasks && !s.tasks[k].deleting && FINALIZER in s.tasks[k].finalizers
    && (s.tasks[k].uid, s.tasks[k].spec, s.tasks[k].generation) == (t.uid, t.spec, t.generation)
  }

  predicate TargetsWritten(s: Store, k: Key, t: Task) {
    TargetsKey(k) in s.configMaps && s.configMaps[TargetsKey(k)] == TargetsConfigMap(k, t.spec)
  }

  predicate CronWritten(s: Store, k: Key, t: Task, cron: CronJob) {
    && CronKey(k) in s.crons && s.crons[CronKey(k)] == cron
    && DesiredCronJob(k, t, cron) == cron
  }

  /** The local variables of an undisturbed pass agree with the store. */
  ghost predicate PcOk(s: Store, k: Key, pc: Pc) {
    match pc
    case Idle => true
    case AddFinalizer(t) => k in s.tasks && s.tasks[k] == t && !t.deleting && FINALIZER !in t.finalizers
    case CreateTargets(t) => Live(s, k, t)
    case UpdateTargets(t) => Live(s, k, t) && TargetsKey(k) in s.configMaps
    case GetCron(t) => Live(s, k, t) && TargetsWritten(s, k, t)
    case CreateCronJob(t) => Live(s, k, t) && TargetsWritten(s, k, t) && CronKey(k) !in s.crons
    case UpdateCronJob(t, seen) =>
      && Live(s, k, t) && TargetsWritten(s, k, t)
      && CronKey(k) in s.crons && s.crons[CronKey(k)] == seen && !ControllerConflict(k, seen.controller)
    case GetLatest(t, cron) => Live(s, k, t) && TargetsWritten(s, k, t) && CronWritten(s, k, t, cron)
    case WriteStatus(t, cron, latest) =>
      && Live(s, k, t) && TargetsWritten(s, k, t) && CronWritten(s, k, t, cron)
      && latest.version == s.tasks[k].version
      && exists now :: latest.status == StatusFor(k, t.generation, s.tasks[k].status, cron, now)
    case ListRecords(_) => ViewOf(s, k) == Expected(s, k)
    case DeleteOld(_, _) => ViewOf(s, k) == Expected(s, k)
    case DeleteCronJob(t) => k in s.tasks && s.tasks[k] == t && t.deleting && FINALIZER in t.finalizers
    case ListOwned(t) =>
      k in s.tasks && s.tasks[k] == t && t.deleting && FINALIZER in t.finalizers && CronKey(k) !in s.crons
    case DeleteOwned(t, _) =>
      k in s.tasks && s.tasks[k] == t && t.deleting && FINALIZER in t.finalizers && CronKey(k) !in s.crons
    case RemoveFinalizer(t) =>
      k in s.tasks && s.tasks[k] == t && t.deleting && FINALIZER in t.finalizers && CronKey(k) !in s.crons
  }

  /** Listings are complete and calls are answered. */
  predicate CleanOutcome(s: Store, k: Key, pc: Pc, o: Outcome) {
    o.fault.Answered? && (pc.ListRecords? || pc.ListOwned? ==> IsListing(s.records, k, o.listing))
  }

  lemma StatusForTwice(k: Key, generation: nat, status: TaskStatus, cron: CronJob, now: Time)
    ensures StatusFor(k, generation, StatusFor(k, generation, status, cron, now), cron, 0)
      == Timeless(StatusFor(k, generation, status, cron, now))
      == StatusFor(k, generation, status, cron, 0)
  {
    var r := StatusFor(k, generation, status, cron, now);
    assert Timeless(r).conditions == StatusFor(k, generation, status, cron, 0).conditions;
  }

  lemma StatusForIgnoresVersion(k: Key, t: Task, cron: CronJob, v: nat)
    ensures StatusFor(k, t.generation, t.status, cron.(version := v), 0)
            == StatusFor(k, t.generation, t.status, cron, 0)
  {
  }

  lemma SameViews(s: Store, s': Store, k: Key)
    requires Find(s.tasks, k) == Find(s'.tasks, k)
    requires Find(s.crons, CronKey(k)) == Find(s'.crons, CronKey(k))
    requires Find(s.configMaps, TargetsKey(k)) == Find(s'.configMaps, TargetsKey(k))
    ensures ViewOf(s, k) == ViewOf(s', k) && Expected(s, k) == Expected(s', k)
  {
    hide CronKey, TargetsKey, ExpectedCron, ExpectedStatus, TargetsConfigMap;
  }

  lemma ReadsGood(s: Store, k: Key, pc: Pc, o: Outcome)
    requires PcOk(s, k, pc) && (pc.Idle? || pc.GetCron?)
    ensures var (s', pc') := Step(s, k, pc, o);
            && PcOk(s', k, pc')
            && Expected(s', k) == Expected(s, k)
            && (pc'.Idle? && CleanOutcome(s, k, pc, o) ==> ViewOf(s', k) == Expected(s', k))
  {
    if k in s.tasks && FINALIZER in s.tasks[k].finalizers {
      assert s.tasks[k].finalizers + {FINALIZER} == s.tasks[k].finalizers;
    }
    hide CronKey, TargetsKey, BuildCronJobSpec, TargetsConfigMap, TaskLabels, StatusFor;
  }

  lemma GetLatestGood(s: Store, k: Key, pc: Pc, o: Outcome)
    requires PcOk(s, k, pc) && pc.GetLatest?
    ensures var (s', pc') := Step(s, k, pc, o);
            && PcOk(s', k, pc')
            && Expected(s', k) == Expected(s, k)
            && (pc'.Idle? && CleanOutcome(s, k, pc, o) ==> ViewOf(s', k) == Expected(s', k))
  {
    var pc' := Step(s, k, pc, o).1;
    assert pc'.WriteStatus? ==>
      pc'.latest.status == StatusFor(k, pc.task.generation, s.tasks[k].status, pc.cron, o.now);
    hide ViewOf, Expected;
    hide CronKey, TargetsKey, BuildCronJobSpec, TargetsConfigMap, TaskLabels, StatusFor;
  }

  lemma AddFinalizerGood(s: Store, k: Key, pc: Pc, o: Outcome)
    requires PcOk(s, k, pc) && pc.AddFinalizer?
    ensures var (s', pc') := Step(s, k, pc, o);
            && PcOk(s', k, pc')
            && Expected(s', k) == Expected(s, k)
            && (pc'.Idle? && CleanOutcome(s, k, pc, o) ==> ViewOf(s', k) == Expected(s', k))
  {
    hide CronKey, TargetsKey, BuildCronJobSpec, TargetsConfigMap, TaskLabels, StatusFor;
  }

  lemma TargetsGood(s: Store, k: Key, pc: Pc, o: Outcome)
    requires PcOk(s, k, pc) && (pc.CreateTargets? || pc.UpdateTargets?)
    ensures var (s', pc') := Step(s, k, pc, o);
            && PcOk(s', k, pc')
            && Expected(s', k) == Expected(s, k)
            && (pc'.Idle? && CleanOutcome(s, k, pc, o) ==> ViewOf(s', k) == Expected(s', k))
  {
    hide CronKey, TargetsKey, BuildCronJobSpec, TargetsConfigMap, TaskLabels, StatusFor;
  }

  lemma CreateCronGood(s: Store, k: Key, pc: Pc, o: Outcome)
    requires PcOk(s, k, pc) && pc.CreateCronJob?
    ensures var (s', pc') := Step(s, k, pc, o);
            && PcOk(s', k, pc')
            && Expected(s', k) == Expected(s, k)
            && (pc'.Idle? && CleanOutcome(s, k, pc, o) ==> ViewOf(s', k) == Expected(s', k))
  {
    if k in s.tasks {
      var (t, v) := (s.tasks[k], Rev(s.cronRevs, CronKey(k)) + 1);
      var cron := FreshCronJob(k, t);
      StatusForIgnoresVersion(k, t, cron, v);
      assert DesiredCronJob(k, t, cron.(version := v)) == cron.(version := v);
    }
    hide CronKey, TargetsKey, BuildCronJobSpec, TargetsConfigMap, TaskLabels, StatusFor;
  }

  lemma UpdateCronGood(s: Store, k: Key, pc: Pc, o: Outcome)
    requires PcOk(s, k, pc) && pc.UpdateCronJob?
    ensures var (s', pc') := Step(s, k, pc, o);
            && PcOk(s', k, pc')
            && Expected(s', k) == Expected(s, k)
            && (pc'.Idle? && CleanOutcome(s, k, pc, o) ==> ViewOf(s', k) == Expected(s', k))
  {
    if k in s.tasks {
      var (t, v) := (s.tasks[k], Rev(s.cronRevs, CronKey(k)) + 1);
      var cron := DesiredCronJob(k, t, pc.seen);
      StatusForIgnoresVersion(k, t, cron, v);
      assert DesiredCronJob(k, t, cron.(version := v)) == cron.(version := v);
    }
    hide CronKey, TargetsKey, BuildCronJobSpec, TargetsConfigMap, TaskLabels, StatusFor;
  }

  lemma StatusWriteMeetsExpectation(s: Store, k: Key, t: Task, cron: CronJob, written: Task, now: Time)
    requires Live(s, k, t) && TargetsWritten(s, k, t) && CronWritten(s, k, t, cron)
    requires written == s.tasks[k].(
             status := StatusFor(k, t.generation, s.tasks[k].status, cron, now), version := written.version)
    ensures var s' := PutTask(s, k, written);
            Expected(s', k) == Expected(s, k) == ViewOf(s', k)
  {
    var s' := PutTask(s, k, written);
    StatusForTwice(k, t.generation, s.tasks[k].status, cron, now);
    assert s.tasks[k].finalizers + {FINALIZER} == s.tasks[k].finalizers;
    var (stored, next, found) := (s.tasks[k], s'.tasks[k], Find(s.crons, CronKey(k)));
    assert ExpectedCron(k, stored, found) == cron == ExpectedCron(k, next, found);
    assert ExpectedStatus(k, stored, found) == Timeless(written.status) == ExpectedStatus(k, next, found);
    hide CronKey, TargetsKey, BuildCronJobSpec, TargetsConfigMap, TaskLabels, StatusFor, ExpectedStatus, ExpectedCron;
    assert Expected(s', k).task.value.status == ExpectedStatus(k, next, found);
    assert Expected(s, k).task.value.status == ExpectedStatus(k, stored, found);
  }

  lemma WriteStatusGood(s: Store, k: Key, pc: Pc, o: Outcome)
    requires PcOk(s, k, pc) && pc.WriteStatus?
    ensures var (s', pc') := Step(s, k, pc, o);
            && PcOk(s', k, pc')
            && Expected(s', k) == Expected(s, k)
            && (pc'.Idle? && CleanOutcome(s, k, pc, o) ==> ViewOf(s', k) == Expected(s', k))
  {
    var now :| pc.latest.status == StatusFor(k, pc.task.generation, s.tasks[k].status, pc.cron, now);
    var written := s.tasks[k].(status := pc.latest.status);
    StatusWriteMeetsExpectation(s, k, pc.task, pc.cron, written, now);
    assert Step(s, k, pc, o).0 == s || Step(s, k, pc, o).0 == PutTask(s, k, written);
    hide CronKey, TargetsKey, BuildCronJobSpec, TargetsConfigMap, TaskLabels, StatusFor, Expected, ViewOf;
  }

  lemma RecordCallsKeepTheRest(s: Store, k: Key, pc: Pc, o: Outcome)
    requires pc.ListRecords? || pc.DeleteOld? || pc.ListOwned? || pc.DeleteOwned?
    ensures var s' := Step(s, k, pc, o).0; s' == s.(records := s'.records)
  {
  }

  lemma RecordsGood(s: Store, k: Key, pc: Pc, o: Outcome)
    requires PcOk(s, k, pc)
    requires pc.ListRecords? || pc.DeleteOld? || pc.ListOwned? || pc.DeleteOwned?
    ensures var (s', pc') := Step(s, k, pc, o);
            && PcOk(s', k, pc')
            && Expected(s', k) == Expected(s, k)
            && (pc'.Idle? && CleanOutcome(s, k, pc, o) ==> ViewOf(s', k) == Expected(s', k))
  {
    var s' := Step(s, k, pc, o).0;
    RecordCallsKeepTheRest(s, k, pc, o);
    SameViews(s, s', k);
    hide CronKey, TargetsKey, ViewOf, Expected, StepDeleteRecord, Retention.Selection, Items, ItemKeys;
  }

  lemma DeleteCronGood(s: Store, k: Key, pc: Pc, o: Outcome)
    requires PcOk(s, k, pc) && pc.DeleteCronJob?
    ensures var (s', pc') := Step(s, k, pc, o);
            && PcOk(s', k, pc')
            && Expected(s', k) == Expected(s, k)
            && (pc'.Idle? && CleanOutcome(s, k, pc, o) ==> ViewOf(s', k) == Expected(s', k))
  {
    hide CronKey, TargetsKey, BuildCronJobSpec, TargetsConfigMap, TaskLabels, StatusFor;
  }

  lemma RemoveFinalizerGood(s: Store, k: Key, pc: Pc, o: Outcome)
    requires PcOk(s, k, pc) && pc.RemoveFinalizer?
    ensures var (s', pc') := Step(s, k, pc, o);
            && PcOk(s', k, pc')
            && Expected(s', k) == Expected(s, k)
            && (pc'.Idle? && CleanOutcome(s, k, pc, o) ==> ViewOf(s', k) == Expected(s', k))
  {
    hide CronKey, TargetsKey, BuildCronJobSpec, TargetsConfigMap, TaskLabels, StatusFor;
  }

  lemma StepGood(s: Store, k: Key, pc: Pc, o: Outcome)
    requires PcOk(s, k, pc)
    ensures var (s', pc') := Step(s, k, pc, o);
            && PcOk(s', k, pc')
            && Expected(s', k) == Expected(s, k)
            && (pc'.Idle? && CleanOutcome(s, k, pc, o) ==> ViewOf(s', k) == Expected(s', k))
  {
    hide Step, PcOk, ViewOf, Expected, CleanOutcome;
    match pc
    case AddFinalizer(_) => AddFinalizerGood(s, k, pc, o);
    case CreateTargets(_) => TargetsGood(s, k, pc, o);
    case UpdateTargets(_) => TargetsGood(s, k, pc, o);
    case CreateCronJob(_) => CreateCronGood(s, k, pc, o);
    case UpdateCronJob(_, _) => UpdateCronGood(s, k, pc, o);
    case GetLatest(_, _) => GetLatestGood(s, k, pc, o);
    case WriteStatus(_, _, _) => WriteStatusGood(s, k, pc, o);
    case DeleteCronJob(_) => DeleteCronGood(s, k, pc, o);
    case RemoveFinalizer(_) => RemoveFinalizerGood(s, k, pc, o);
    case Idle => ReadsGood(s, k, pc, o);
    case GetCron(_) => ReadsGood(s, k, pc, o);
    case _ => RecordsGood(s, k, pc, o);
  }

  /** The script takes the pass to its end with every call answered. */
  predicate Complete(s: Store, k: Key, pc: Pc, script: seq<Outcome>)
    decreases |script|
  {
    && script != []
    && CleanOutcome(s, k, pc, script[0])
    && var (s', pc') := Step(s, k, pc, script[0]);
       pc'.Idle? || Complete(s', k, pc', script[1..])
  }

  lemma {:induction false} DriveGood(s: Store, k: Key, pc: Pc, script: seq<Outcome>)
    requires PcOk(s, k, pc)
    ensures var s' := Drive(s, k, pc, script).0;
            && Expected(s', k) == Expected(s, k)
            && (Complete(s, k, pc, script) ==> ViewOf(s', k) == Expected(s', k))
    decreases |script|
  {
    hide Step, PcOk, ViewOf, Expected, CleanOutcome;
    if script != [] {
      StepGood(s, k, pc, script[0]);
      var (s', pc') := Step(s, k, pc, script[0]);
      if !pc'.Idle? {
        DriveGood(s', k, pc', script[1..]);
      }
    }
  }

  /** A pass under any script, cut off anywhere, keeps the expectation; a complete one meets it. */
  lemma PassGood(s: Store, k: Key, script: seq<Outcome>)
    ensures Expected(Pass(s, k, script), k) == Expected(s, k)
    ensures Complete(s, k, Idle, script) ==> ViewOf(Pass(s, k, script), k) == Expected(s, k)
  {
    assert PcOk(s, k, Idle);
    DriveGood(s, k, Idle, script);
  }

  function Passes(s: Store, k: Key, scripts: seq<seq<Outcome>>): Store {
    if scripts == [] then s
    else Pass(Passes(s, k, scripts[..|scripts| - 1]), k, scripts[|scripts| - 1])
  }

  lemma {:induction false} PassesGood(s: Store, k: Key, scripts: seq<seq<Outcome>>)
    ensures Expected(Passes(s, k, scripts), k) == Expected(s, k)
  {
    hide Expected, Pass;
    if scripts != [] {
      var n := |scripts| - 1;
      PassesGood(s, k, scripts[..n]);
      PassGood(Passes(s, k, scripts[..n]), k, scripts[n]);
    }
  }

  /** Crash recovery: after any passes with any faults and cut-offs, one complete pass leaves the same
      task, CronJob and ConfigMap as a single complete pass would have, up to versions and condition times. */
  lemma CrashRecovery(s: Store, k: Key, scripts: seq<seq<Outcome>>, last: seq<Outcome>, only: seq<Outcome>)
    requires Complete(Passes(s, k, scripts), k, Idle, last)
    requires Complete(s, k, Idle, only)
    ensures ViewOf(Pass(Passes(s, k, scripts), k, last), k) == ViewOf(Pass(s, k, only), k)
  {
    hide Expected, Pass, ViewOf, Complete;
    PassesGood(s, k, scripts);
    PassGood(Passes(s, k, scripts), k, last);
    PassGood(s, k, only);
  }

  /** Repeating a complete pass changes nothing but versions and condition times. */
  lemma CompletePassIdempotent(s: Store, k: Key, first: seq<Outcome>, second: seq<Outcome>)
    requires Complete(s, k, Idle, first)
    requires Complete(Pass(s, k, first), k, Idle, second)
    ensures ViewOf(Pass(Pass(s, k, first), k, second), k) == ViewOf(Pass(s, k, first), k)
  {
    hide Expected, Pass, ViewOf, Complete;
    PassGood(s, k, first);
    PassGood(Pass(s, k, first), k, second);
  }
}
