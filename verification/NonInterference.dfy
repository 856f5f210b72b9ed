/** Non-interference: passes of different tasks work on disjoint parts of the store, so any interleaving
    of their calls gives the store that running them one after the other gives. */
module NonInterference {
  import opened Types
  import opened Api
  import opened Reconciler
  import opened Cluster
  import opened FinalizerSafety
  import Retention

  /** The part of the store that belongs to one task. */
  datatype Local = Local(
    task: Option<Task>, taskRev: Option<nat>,
    cron: Option<CronJob>, cronRev: Option<nat>,
    configMap: Option<ConfigMap>,
    records: map<Key, Record>)

  function Put<T>(m: map<Key, T>, k: Key, x: Option<T>): map<Key, T> {
    if x.Some? then m[k := x.value] else m - {k}
  }

  function RecordsOf(records: map<Key, Record>, k: Key): map<Key, Record> {
    map r | r in records && MatchesTask(r, records[r], k) :: records[r]
  }

  function LocalOf(s: Store, k: Key): Local {
    Local(Find(s.tasks, k), Find(s.taskRevs, k),
          Find(s.crons, CronKey(k)), Find(s.cronRevs, CronKey(k)),
          Find(s.configMaps, TargetsKey(k)),
          RecordsOf(s.records, k))
  }

  /** The store with the part of task k replaced. */
  function Graft(s: Store, k: Key, x: Local): Store {
    Store(Put(s.tasks, k, x.task), Put(s.taskRevs, k, x.taskRev),
          Put(s.crons, CronKey(k), x.cron), Put(s.cronRevs, CronKey(k), x.cronRev),
          Put(s.configMaps, TargetsKey(k), x.configMap),
          GraftRecords(s.records, k, x.records))
  }

  /** Records only ever disappear, and no record changes. */
  ghost predicate Fewer(x: Local, y: Local) {
    forall r :: r in y.records ==> r in x.records && y.records[r] == x.records[r]
  }

  lemma PutLaws<T>(m: map<Key, T>, k: Key, l: Key, x: Option<T>, y: Option<T>)
    ensures Find(Put(m, k, x), k) == x
    ensures k != l ==> Find(Put(m, k, x), l) == Find(m, l)
    ensures k != l ==> Put(Put(m, k, x), l, y) == Put(Put(m, l, y), k, x)
  {
  }

  lemma PutFound<T>(m: map<Key, T>, m': map<Key, T>, k: Key)
    requires forall l :: l != k ==> Find(m', l) == Find(m, l)
    ensures m' == Put(m, k, Find(m', k))
  {
    var n := Put(m, k, Find(m', k));
    forall l ensures Find(m', l) == Find(n, l) {
      PutLaws(m, k, l, Find(m', k), None);
    }
    SameFinds(m', n);
  }

  lemma SameFinds<T>(m: map<Key, T>, n: map<Key, T>)
    requires forall l :: Find(m, l) == Find(n, l)
    ensures m == n
  {
    forall l ensures l in m <==> l in n {
      assert Find(m, l) == Find(n, l);
    }
    forall l | l in m ensures m[l] == n[l] {
      assert Find(m, l) == Find(n, l);
    }
  }

  /** Replacing the part of k leaves the part of l alone. */
  lemma GraftKeepsOthers(s: Store, k: Key, l: Key, x: Local)
    requires k != l && Fewer(LocalOf(s, k), x)
    ensures LocalOf(Graft(s, k, x), l) == LocalOf(s, l)
  {
    NamesInjective(k, l);
    hide CronKey, TargetsKey, Matching, MatchesTask;
    PutLaws(s.tasks, k, l, x.task, None);
    PutLaws(s.taskRevs, k, l, x.taskRev, None);
    PutLaws(s.crons, CronKey(k), CronKey(l), x.cron, None);
    PutLaws(s.cronRevs, CronKey(k), CronKey(l), x.cronRev, None);
    PutLaws(s.configMaps, TargetsKey(k), TargetsKey(l), x.configMap, None);
    RecordGraft(s.records, k, l, x.records);
    hide Put, Find, RecordsOf;
  }

  /** Replacements of different parts commute. */
  lemma GraftsCommute(s: Store, k: Key, l: Key, x: Local, y: Local)
    requires k != l
    requires Fewer(LocalOf(s, k), x) && Fewer(LocalOf(s, l), y)
    ensures Graft(Graft(s, k, x), l, y) == Graft(Graft(s, l, y), k, x)
  {
    NamesInjective(k, l);
    hide CronKey, TargetsKey, Matching, MatchesTask;
    PutLaws(s.tasks, k, l, x.task, y.task);
    PutLaws(s.taskRevs, k, l, x.taskRev, y.taskRev);
    PutLaws(s.crons, CronKey(k), CronKey(l), x.cron, y.cron);
    PutLaws(s.cronRevs, CronKey(k), CronKey(l), x.cronRev, y.cronRev);
    PutLaws(s.configMaps, TargetsKey(k), TargetsKey(l), x.configMap, y.configMap);
    RecordGraftTwice(s.records, k, l, x.records, y.records);
    RecordGraftTwice(s.records, l, k, y.records, x.records);
    assert Matching(s.records, k) + Matching(s.records, l) == Matching(s.records, l) + Matching(s.records, k);
    hide Put, Find, RecordsOf;
  }

  ghost predicate Subrecords(x: map<Key, Record>, records: map<Key, Record>, k: Key) {
    forall r :: r in x ==> r in RecordsOf(records, k) && x[r] == records[r]
  }

  function GraftRecords(records: map<Key, Record>, k: Key, x: map<Key, Record>): map<Key, Record> {
    (records - Matching(records, k)) + x
  }

  lemma RecordGraft(records: map<Key, Record>, k: Key, l: Key, x: map<Key, Record>)
    requires k != l && Subrecords(x, records, k)
    ensures RecordsOf(GraftRecords(records, k, x), l) == RecordsOf(records, l)
    ensures Matching(GraftRecords(records, k, x), l) == Matching(records, l)
  {
  }

  lemma RecordGraftTwice(records: map<Key, Record>, k: Key, l: Key, x: map<Key, Record>, y: map<Key, Record>)
    requires k != l && Subrecords(x, records, k) && Subrecords(y, records, l)
    ensures GraftRecords(GraftRecords(records, k, x), l, y)
      == (records - (Matching(records, k) + Matching(records, l))) + (x + y)
    ensures x + y == y + x
  {
    RecordGraft(records, k, l, x);
    PartsDisjoint(records, k, l, x, y);
    var (mk, ml) := (Matching(records, k), Matching(records, l));
    hide Matching, RecordsOf, Subrecords;
    MapParts(records, mk, ml, x, y);
  }

  lemma PartsDisjoint(records: map<Key, Record>, k: Key, l: Key, x: map<Key, Record>, y: map<Key, Record>)
    requires k != l && Subrecords(x, records, k) && Subrecords(y, records, l)
    ensures x.Keys !! y.Keys && x.Keys !! Matching(records, l)
  {
  }

  /** Replacing two parts one after the other replaces both. */
  lemma MapParts(records: map<Key, Record>, m: set<Key>, n: set<Key>, x: map<Key, Record>, y: map<Key, Record>)
    requires x.Keys !! y.Keys && x.Keys !! n
    ensures (((records - m) + x) - n) + y == (records - (m + n)) + (x + y)
    ensures x + y == y + x
  {
  }

  /** The records a pass is about to delete are its own, as far as they still exist. */
  ghost predicate PendingOwn(s: Store, k: Key, pc: Pc) {
    pc.DeleteOld? || pc.DeleteOwned? ==>
      forall r :: r in pc.pending && r in s.records ==> MatchesTask(r, s.records[r], k)
  }

  lemma OwnDeletionIsGraft(records: map<Key, Record>, after: map<Key, Record>, k: Key, r: Key)
    requires after == records || (after == records - {r} && (r in records ==> MatchesTask(r, records[r], k)))
    ensures after == GraftRecords(records, k, RecordsOf(after, k))
    ensures Subrecords(RecordsOf(after, k), records, k)
  {
  }

  /** A step changes nothing but the part of its own task. */
  lemma StepIsGraft(s: Store, k: Key, pc: Pc, o: Outcome)
    requires PendingOwn(s, k, pc)
    ensures var s' := Step(s, k, pc, o).0;
            s' == Graft(s, k, LocalOf(s', k)) && Fewer(LocalOf(s, k), LocalOf(s', k))
  {
    var s' := Step(s, k, pc, o).0;
    StepFrame(s, k, pc, o);
    hide Step, CronKey, TargetsKey;
    PutFound(s.tasks, s'.tasks, k);
    PutFound(s.taskRevs, s'.taskRevs, k);
    PutFound(s.crons, s'.crons, CronKey(k));
    PutFound(s.cronRevs, s'.cronRevs, CronKey(k));
    PutFound(s.configMaps, s'.configMaps, TargetsKey(k));
    OwnDeletionIsGraft(s.records, s'.records, k, if s'.records == s.records then k else pc.pending[0]);
    hide Put, Find, Matching, MatchesTask, GraftRecords;
  }

  ghost predicate SameReply<T>(k: Key, a: Reply<T>, b: Reply<T>) {
    && (a.Accepted? <==> b.Accepted?)
    && (a.Accepted? ==> a.item == b.item && LocalOf(a.store, k) == LocalOf(b.store, k))
  }

  lemma TaskWritesReadLocal(s: Store, t: Store, k: Key, x: Task)
    requires LocalOf(s, k) == LocalOf(t, k)
    ensures Find(s.tasks, k) == Find(t.tasks, k) && Rev(s.taskRevs, k) == Rev(t.taskRevs, k)
    ensures LocalOf(PutTask(s, k, x), k) == LocalOf(PutTask(t, k, x), k)
    ensures LocalOf(RemoveTask(s, k), k) == LocalOf(RemoveTask(t, k), k)
  {
    hide CronKey, TargetsKey, RecordsOf, Without;
  }

  lemma TaskUpdatesReadLocal(s: Store, t: Store, k: Key, x: Task)
    requires LocalOf(s, k) == LocalOf(t, k)
    ensures SameReply(k, UpdateTask(s, k, x), UpdateTask(t, k, x))
    ensures SameReply(k, UpdateTaskStatus(s, k, x), UpdateTaskStatus(t, k, x))
  {
    if k in s.tasks {
      TaskWritesReadLocal(s, t, k, UpdatedTask(s.tasks[k], x));
      TaskWritesReadLocal(s, t, k, s.tasks[k].(status := x.status));
    }
    TaskWritesReadLocal(s, t, k, x);
    hide LocalOf, RemoveTask, UpdatedTask, Vanishes;
  }

  lemma CronWritesReadLocal(s: Store, t: Store, k: Key, x: CronJob)
    requires LocalOf(s, k) == LocalOf(t, k)
    ensures var c := CronKey(k);
            && Find(s.crons, c) == Find(t.crons, c) && Rev(s.cronRevs, c) == Rev(t.cronRevs, c)
            && LocalOf(PutCron(s, c, x), k) == LocalOf(PutCron(t, c, x), k)
            && LocalOf(RemoveCron(s, c), k) == LocalOf(RemoveCron(t, c), k)
  {
    hide CronKey, TargetsKey, RecordsOf, Without;
  }

  lemma CronUpdatesReadLocal(s: Store, t: Store, k: Key, x: CronJob)
    requires LocalOf(s, k) == LocalOf(t, k)
    ensures SameReply(k, CreateCron(s, CronKey(k), x), CreateCron(t, CronKey(k), x))
    ensures SameReply(k, UpdateCron(s, CronKey(k), x), UpdateCron(t, CronKey(k), x))
    ensures SameReply(k, DeleteCron(s, CronKey(k)), DeleteCron(t, CronKey(k)))
  {
    hide CronKey, TargetsKey;
    CronWritesReadLocal(s, t, k, x.(status := CronJobStatus([], None)));
    if CronKey(k) in s.crons {
      CronWritesReadLocal(s, t, k, x.(status := s.crons[CronKey(k)].status));
    }
    hide LocalOf, RemoveCron;
  }

  lemma ConfigMapWritesReadLocal(s: Store, t: Store, k: Key, x: ConfigMap)
    requires LocalOf(s, k) == LocalOf(t, k)
    ensures SameReply(k, CreateConfigMap(s, TargetsKey(k), x), CreateConfigMap(t, TargetsKey(k), x))
    ensures SameReply(k, UpdateConfigMap(s, TargetsKey(k), x), UpdateConfigMap(t, TargetsKey(k), x))
  {
    assert Find(s.configMaps, TargetsKey(k)) == Find(t.configMaps, TargetsKey(k));
    hide CronKey, TargetsKey, RecordsOf;
  }

  lemma CallsReadLocal<T>(s: Store, t: Store, k: Key, a: Reply<T>, b: Reply<T>, fault: Fault)
    requires LocalOf(s, k) == LocalOf(t, k) && SameReply(k, a, b)
    ensures var ((s', x), (t', y)) := (Call(s, a, fault), Call(t, b, fault));
            && LocalOf(s', k) == LocalOf(t', k)
            && (x.Some? <==> y.Some?)
            && (x.Some? ==>
                  && (x.value.Accepted? <==> y.value.Accepted?)
                  && (x.value.Accepted? ==> x.value.item == y.value.item))
  {
    hide LocalOf;
  }

  lemma TaskStepsReadLocal(s: Store, t: Store, k: Key, pc: Pc, o: Outcome)
    requires LocalOf(s, k) == LocalOf(t, k)
    requires pc.AddFinalizer? || pc.RemoveFinalizer? || pc.WriteStatus?
    ensures var ((s', p), (t', q)) := (Step(s, k, pc, o), Step(t, k, pc, o));
            p == q && LocalOf(s', k) == LocalOf(t', k)
  {
    var x := match pc
      case AddFinalizer(u) => u.(finalizers := u.finalizers + {FINALIZER})
      case RemoveFinalizer(u) => u.(finalizers := u.finalizers - {FINALIZER})
      case WriteStatus(_, _, latest) => latest;
    TaskUpdatesReadLocal(s, t, k, x);
    CallsReadLocal(s, t, k, UpdateTask(s, k, x), UpdateTask(t, k, x), o.fault);
    CallsReadLocal(s, t, k, UpdateTaskStatus(s, k, x), UpdateTaskStatus(t, k, x), o.fault);
    hide LocalOf, UpdateTask, UpdateTaskStatus, Call;
  }

  lemma CronStepsReadLocal(s: Store, t: Store, k: Key, pc: Pc, o: Outcome)
    requires LocalOf(s, k) == LocalOf(t, k)
    requires pc.CreateCronJob? || pc.UpdateCronJob?
    ensures var ((s', p), (t', q)) := (Step(s, k, pc, o), Step(t, k, pc, o));
            p == q && LocalOf(s', k) == LocalOf(t', k)
  {
    var x := if pc.CreateCronJob? then FreshCronJob(k, pc.task) else DesiredCronJob(k, pc.task, pc.seen);
    CronUpdatesReadLocal(s, t, k, x);
    CallsReadLocal(s, t, k, CreateCron(s, CronKey(k), x), CreateCron(t, CronKey(k), x), o.fault);
    CallsReadLocal(s, t, k, UpdateCron(s, CronKey(k), x), UpdateCron(t, CronKey(k), x), o.fault);
    hide LocalOf, CreateCron, UpdateCron, Call, FreshCronJob, DesiredCronJob, CronKey;
  }

  lemma DeletionStepsReadLocal(s: Store, t: Store, k: Key, pc: Pc, o: Outcome)
    requires LocalOf(s, k) == LocalOf(t, k)
    requires pc.DeleteCronJob?
    ensures var ((s', p), (t', q)) := (Step(s, k, pc, o), Step(t, k, pc, o));
            p == q && LocalOf(s', k) == LocalOf(t', k)
  {
    CronUpdatesReadLocal(s, t, k, FreshCronJob(k, pc.task));
    CallsReadLocal(s, t, k, DeleteCron(s, CronKey(k)), DeleteCron(t, CronKey(k)), o.fault);
    hide LocalOf, DeleteCron, Call, FreshCronJob, CronKey;
  }

  lemma ConfigMapStepsReadLocal(s: Store, t: Store, k: Key, pc: Pc, o: Outcome)
    requires LocalOf(s, k) == LocalOf(t, k)
    requires pc.CreateTargets? || pc.UpdateTargets?
    ensures var ((s', p), (t', q)) := (Step(s, k, pc, o), Step(t, k, pc, o));
            p == q && LocalOf(s', k) == LocalOf(t', k)
  {
    var x := TargetsConfigMap(k, pc.task.spec);
    ConfigMapWritesReadLocal(s, t, k, x);
    CallsReadLocal(s, t, k, CreateConfigMap(s, TargetsKey(k), x), CreateConfigMap(t, TargetsKey(k), x), o.fault);
    CallsReadLocal(s, t, k, UpdateConfigMap(s, TargetsKey(k), x), UpdateConfigMap(t, TargetsKey(k), x), o.fault);
    hide LocalOf, CreateConfigMap, UpdateConfigMap, Call, TargetsConfigMap, TargetsKey;
  }

  lemma ReadsReadLocal(s: Store, t: Store, k: Key, pc: Pc, o: Outcome)
    requires LocalOf(s, k) == LocalOf(t, k)
    requires pc.Idle? || pc.GetCron? || pc.GetLatest?
    ensures Step(s, k, pc, o) == (s, Step(t, k, pc, o).1)
  {
    assert Find(s.tasks, k) == Find(t.tasks, k) && Find(s.crons, CronKey(k)) == Find(t.crons, CronKey(k));
    hide LocalOf, CronKey, StatusFor, DesiredCronJob;
  }

  lemma RecordsDetermineListings(a: map<Key, Record>, b: map<Key, Record>, k: Key, listing: seq<Key>)
    requires RecordsOf(a, k) == RecordsOf(b, k)
    ensures Matching(a, k) == Matching(b, k) == RecordsOf(a, k).Keys
    ensures IsListing(a, k, listing) ==> Items(a, listing) == Items(b, listing)
  {
    assert Matching(a, k) == RecordsOf(a, k).Keys;
    assert Matching(b, k) == RecordsOf(b, k).Keys;
    if IsListing(a, k, listing) {
      forall i | 0 <= i < |listing| ensures Items(a, listing)[i] == Items(b, listing)[i] {
        assert listing[i] in (set r | r in listing);
        assert listing[i] in RecordsOf(a, k) && listing[i] in RecordsOf(b, k);
        assert RecordsOf(a, k)[listing[i]] == RecordsOf(b, k)[listing[i]];
      }
    }
  }

  lemma ListingsReadLocal(s: Store, t: Store, k: Key, pc: Pc, o: Outcome)
    requires LocalOf(s, k) == LocalOf(t, k)
    requires pc.ListRecords? || pc.ListOwned?
    ensures Step(s, k, pc, o) == (s, Step(t, k, pc, o).1)
  {
    RecordsDetermineListings(s.records, t.records, k, o.listing);
    hide Matching, RecordsOf, Items;
  }

  lemma DeletesReadLocal(s: Store, t: Store, k: Key, pc: Pc, o: Outcome)
    requires LocalOf(s, k) == LocalOf(t, k)
    requires PendingOwn(s, k, pc) && PendingOwn(t, k, pc)
    requires pc.DeleteOld? || pc.DeleteOwned?
    ensures var ((s', p), (t', q)) := (Step(s, k, pc, o), Step(t, k, pc, o));
            p == q && LocalOf(s', k) == LocalOf(t', k)
  {
    if pc.pending != [] {
      var r := pc.pending[0];
      RecordDeletesReadLocal(s, t, k, r);
      CallsReadLocal(s, t, k, DeleteRecord(s, r), DeleteRecord(t, r), o.fault);
    }
    hide LocalOf, DeleteRecord, Call;
  }

  lemma RecordDeletesReadLocal(s: Store, t: Store, k: Key, r: Key)
    requires LocalOf(s, k) == LocalOf(t, k)
    requires r in s.records ==> MatchesTask(r, s.records[r], k)
    requires r in t.records ==> MatchesTask(r, t.records[r], k)
    ensures SameReply(k, DeleteRecord(s, r), DeleteRecord(t, r))
  {
    DeletionReadsLocal(s.records, t.records, k, r);
    hide RecordsOf, CronKey, TargetsKey;
  }

  lemma DeletionReadsLocal(a: map<Key, Record>, b: map<Key, Record>, k: Key, r: Key)
    requires RecordsOf(a, k) == RecordsOf(b, k)
    requires r in a ==> MatchesTask(r, a[r], k)
    requires r in b ==> MatchesTask(r, b[r], k)
    ensures r in a <==> r in b
    ensures RecordsOf(a - {r}, k) == RecordsOf(b - {r}, k)
  {
    assert r in a <==> r in RecordsOf(a, k);
    assert r in b <==> r in RecordsOf(b, k);
    assert RecordsOf(a - {r}, k) == RecordsOf(a, k) - {r};
    assert RecordsOf(b - {r}, k) == RecordsOf(b, k) - {r};
  }

  /** What a step does to the part of its task depends on that part only. */
  lemma StepReadsLocal(s: Store, t: Store, k: Key, pc: Pc, o: Outcome)
    requires LocalOf(s, k) == LocalOf(t, k)
    requires PendingOwn(s, k, pc) && PendingOwn(t, k, pc)
    ensures var ((s', p), (t', q)) := (Step(s, k, pc, o), Step(t, k, pc, o));
            p == q && LocalOf(s', k) == LocalOf(t', k)
  {
    hide Step, LocalOf, PendingOwn;
    match pc
    case AddFinalizer(_) => TaskStepsReadLocal(s, t, k, pc, o);
    case RemoveFinalizer(_) => TaskStepsReadLocal(s, t, k, pc, o);
    case WriteStatus(_, _, _) => TaskStepsReadLocal(s, t, k, pc, o);
    case CreateTargets(_) => ConfigMapStepsReadLocal(s, t, k, pc, o);
    case UpdateTargets(_) => ConfigMapStepsReadLocal(s, t, k, pc, o);
    case CreateCronJob(_) => CronStepsReadLocal(s, t, k, pc, o);
    case UpdateCronJob(_, _) => CronStepsReadLocal(s, t, k, pc, o);
    case DeleteCronJob(_) => DeletionStepsReadLocal(s, t, k, pc, o);
    case ListRecords(_) => ListingsReadLocal(s, t, k, pc, o); ListingsReadLocal(t, s, k, pc, o);
    case ListOwned(_) => ListingsReadLocal(s, t, k, pc, o); ListingsReadLocal(t, s, k, pc, o);
    case DeleteOld(_, _) => DeletesReadLocal(s, t, k, pc, o);
    case DeleteOwned(_, _) => DeletesReadLocal(s, t, k, pc, o);
    case _ => ReadsReadLocal(s, t, k, pc, o); ReadsReadLocal(t, s, k, pc, o);
  }

  predicate ReconcilerAction(a: Action) { a.Reconcile? || a.Crash? }

  ghost predicate AllPendingOwn(w: World) {
    forall k :: PendingOwn(w.store, k, PcOf(w, k))
  }

  lemma StepKeepsPendingOwn(s: Store, k: Key, pc: Pc, o: Outcome)
    requires PendingOwn(s, k, pc)
    ensures var (s', pc') := Step(s, k, pc, o); PendingOwn(s', k, pc')
  {
    StepRecords(s, k, pc, o);
    if pc.ListRecords? && pc.task.spec.retention.Some? && IsListing(s.records, k, o.listing) {
      var items := Items(s.records, o.listing);
      var policy := pc.task.spec.retention.value;
      if !Retention.CountPanics(policy) {
        forall r | r in ItemKeys(Retention.Selection(items, policy, o.now).value) && r in s.records
          ensures MatchesTask(r, s.records[r], k)
        {
          var selected := Retention.Selection(items, policy, o.now).value;
          var j :| 0 <= j < |selected| && selected[j].key == r;
          var i := Retention.SelectedIsHit(items, policy, o.now, j);
          assert r == o.listing[i];
          assert r in (set x | x in o.listing);
          assert r in Matching(s.records, k);
        }
      }
      hide Items, Retention.Selection;
    }
    hide CronKey, TargetsKey, BuildCronJobSpec, TargetsConfigMap, TaskLabels, StatusFor;
    if pc.ListOwned? && IsListing(s.records, k, o.listing) {
      assert forall r :: r in o.listing ==> r in (set x | x in o.listing) && r in Matching(s.records, k);
    }
  }

  lemma ActKeepsPendingOwn(w: World, a: Action)
    requires AllPendingOwn(w) && ReconcilerAction(a)
    ensures AllPendingOwn(Act(w, a))
  {
    forall k ensures PendingOwn(Act(w, a).store, k, PcOf(Act(w, a), k)) {
      assert PendingOwn(w.store, k, PcOf(w, k));
      if a.Reconcile? {
        StepRecords(w.store, a.key, PcOf(w, a.key), a.outcome);
        if a.key == k {
          StepKeepsPendingOwn(w.store, k, PcOf(w, k), a.outcome);
        }
      }
      hide Step;
    }
  }

  lemma StepsCommute(s: Store, k: Key, p: Pc, a: Outcome, l: Key, q: Pc, b: Outcome)
    requires k != l
    requires PendingOwn(s, k, p) && PendingOwn(Step(s, l, q, b).0, k, p)
    requires PendingOwn(s, l, q) && PendingOwn(Step(s, k, p, a).0, l, q)
    ensures var ((sa, p'), (sb, q')) := (Step(s, k, p, a), Step(s, l, q, b));
            && Step(sa, l, q, b).0 == Step(sb, k, p, a).0
            && Step(sa, l, q, b).1 == q'
            && Step(sb, k, p, a).1 == p'
  {
    hide Step, LocalOf, Graft, PendingOwn;
    var (sa, sb) := (Step(s, k, p, a).0, Step(s, l, q, b).0);
    StepIsGraft(s, k, p, a);
    StepIsGraft(s, l, q, b);
    var (x, y) := (LocalOf(sa, k), LocalOf(sb, l));
    GraftKeepsOthers(s, k, l, x);
    GraftKeepsOthers(s, l, k, y);
    StepReadsLocal(s, sa, l, q, b);
    StepReadsLocal(s, sb, k, p, a);
    StepIsGraft(sa, l, q, b);
    StepIsGraft(sb, k, p, a);
    GraftsCommute(s, k, l, x, y);
  }

  /** Two calls of different tasks commute. */
  lemma ActionsCommute(w: World, a: Action, b: Action)
    requires AllPendingOwn(w) && ReconcilerAction(a) && ReconcilerAction(b) && a.key != b.key
    ensures Act(Act(w, a), b) == Act(Act(w, b), a)
  {
    var (s, k, l) := (w.store, a.key, b.key);
    var (p, q) := (PcOf(w, k), PcOf(w, l));
    hide Step, PendingOwn;
    ActKeepsPendingOwn(w, a);
    ActKeepsPendingOwn(w, b);
    assert PcOf(Act(w, a), l) == q && PcOf(Act(w, b), k) == p;
    assert PendingOwn(s, k, p) && PendingOwn(s, l, q);
    assert PendingOwn(Act(w, a).store, l, q) && PendingOwn(Act(w, b).store, k, p);
    if a.Reconcile? && b.Reconcile? {
      StepsCommute(s, k, p, a.outcome, l, q, b.outcome);
    }
    assert Act(Act(w, a), b).pcs == Act(Act(w, b), a).pcs;
  }

  /** The actions of one task, and of all others, in order. */
  function Of(actions: seq<Action>, k: Key): seq<Action> {
    if actions == [] then []
    else
      var n := |actions| - 1;
      Of(actions[..n], k) + if actions[n].key == k then [actions[n]] else []
  }

  function NotOf(actions: seq<Action>, k: Key): seq<Action> {
    if actions == [] then []
    else
      var n := |actions| - 1;
      NotOf(actions[..n], k) + if actions[n].key != k then [actions[n]] else []
  }

  lemma {:induction false} RunKeepsPendingOwn(w: World, actions: seq<Action>)
    requires AllPendingOwn(w) && forall a :: a in actions ==> ReconcilerAction(a)
    ensures AllPendingOwn(Run(w, actions))
  {
    if actions != [] {
      var n := |actions| - 1;
      RunKeepsPendingOwn(w, actions[..n]);
      ActKeepsPendingOwn(Run(w, actions[..n]), actions[n]);
    }
  }

  lemma {:induction false} ActionMovesToFront(w: World, actions: seq<Action>, a: Action)
    requires AllPendingOwn(w) && ReconcilerAction(a)
    requires forall b :: b in actions ==> ReconcilerAction(b) && b.key != a.key
    ensures Run(Act(w, a), actions) == Act(Run(w, actions), a)
  {
    if actions != [] {
      var n := |actions| - 1;
      ActionMovesToFront(w, actions[..n], a);
      RunKeepsPendingOwn(w, actions[..n]);
      ActionsCommute(Run(w, actions[..n]), a, actions[n]);
    }
    hide Act;
  }

  lemma {:induction false} SplitMembers(actions: seq<Action>, k: Key)
    ensures forall a :: a in Of(actions, k) ==> a in actions && a.key == k
    ensures forall a :: a in NotOf(actions, k) ==> a in actions && a.key != k
  {
    if actions != [] {
      SplitMembers(actions[..|actions| - 1], k);
    }
  }

  lemma RunSnoc(w: World, actions: seq<Action>, a: Action)
    ensures Run(w, actions + [a]) == Act(Run(w, actions), a)
  {
    assert (actions + [a])[..|actions|] == actions;
  }

  /** Any interleaving of calls and crashes of any number of passes ends in the same world as all of
      task k's calls first and everybody else's afterwards. */
  lemma {:induction false} InterleavingIsSequential(w: World, actions: seq<Action>, k: Key)
    requires AllPendingOwn(w) && forall a :: a in actions ==> ReconcilerAction(a)
    ensures Run(w, actions) == Run(Run(w, Of(actions, k)), NotOf(actions, k))
  {
    if actions != [] {
      var n := |actions| - 1;
      var (front, a) := (actions[..n], actions[n]);
      var (mine, others) := (Of(front, k), NotOf(front, k));
      assert Run(w, actions) == Act(Run(w, front), a);
      assert Of(actions, k) == if a.key == k then mine + [a] else mine;
      assert NotOf(actions, k) == if a.key == k then others else others + [a];
      hide Act, Run, Of, NotOf, ReconcilerAction;
      InterleavingIsSequential(w, front, k);
      SplitMembers(front, k);
      SequentialSnoc(w, mine, others, a, k);
    }
  }

  /** One more call goes to the end of its own side. */
  lemma SequentialSnoc(w: World, mine: seq<Action>, others: seq<Action>, a: Action, k: Key)
    requires AllPendingOwn(w) && ReconcilerAction(a)
    requires forall b :: b in mine ==> ReconcilerAction(b) && b.key == k
    requires forall b :: b in others ==> ReconcilerAction(b) && b.key != k
    ensures a.key == k ==> Run(Run(w, mine + [a]), others) == Act(Run(Run(w, mine), others), a)
    ensures a.key != k ==> Run(Run(w, mine), others + [a]) == Act(Run(Run(w, mine), others), a)
  {
    hide Act, Run;
    RunSnoc(w, mine, a);
    RunSnoc(Run(w, mine), others, a);
    RunKeepsPendingOwn(w, mine);
    if a.key == k {
      ActionMovesToFront(Run(w, mine), others, a);
    }
  }

  /** The objects of a task none of the passes works on are untouched. */
  lemma {:induction false} ThirdPartyUntouched(w: World, actions: seq<Action>, k: Key)
    requires AllPendingOwn(w) && forall a :: a in actions ==> ReconcilerAction(a) && a.key != k
    ensures LocalOf(Run(w, actions).store, k) == LocalOf(w.store, k)
  {
    if actions != [] {
      var n := |actions| - 1;
      ThirdPartyUntouched(w, actions[..n], k);
      RunKeepsPendingOwn(w, actions[..n]);
      var (v, a) := (Run(w, actions[..n]), actions[n]);
      if a.Reconcile? {
        assert PendingOwn(v.store, a.key, PcOf(v, a.key));
        StepIsGraft(v.store, a.key, PcOf(v, a.key), a.outcome);
        GraftKeepsOthers(v.store, a.key, k, LocalOf(Act(v, a).store, a.key));
      }
    }
    hide Step, LocalOf, Graft;
  }
}
