/** The whole system: one serial reconciler per task, and everybody else who touches the store. */
module Cluster {
  import opened Types
  import opened Api
  import opened Reconciler

  datatype World = World(store: Store, pcs: map<Key, Pc>)

  const START := World(EMPTY_STORE, map[])

  datatype Action =
    | Reconcile(key: Key, outcome: Outcome)
    | Crash(key: Key)
    | UserCreate(key: Key, spec: TaskSpec, finalizers: set<string>)
    | UserEdit(key: Key, spec: TaskSpec, finalizers: set<string>)
    | UserDelete(key: Key)
    | CronController(key: Key, status: CronJobStatus)
    | ForeignCreatesCron(key: Key, cron: CronJob)
    | ForeignEditsCron(key: Key, cron: CronJob)
    | ForeignDeletesCron(key: Key)
    | ForeignWritesConfigMap(key: Key, configMap: Option<ConfigMap>)
    | AgentWritesRecord(key: Key, record: Option<Record>)

  function PcOf(w: World, k: Key): Pc {
    if k in w.pcs then w.pcs[k] else Idle
  }

  function Settled<T>(s: Store, reply: Reply<T>): Store {
    if reply.Accepted? then reply.store else s
  }

  /** Others may change the spec and their own finalizers; the operator's finalizer is left as it is,
      and a deleted object gains no finalizers. */
  function EditedTask(t: Task, spec: TaskSpec, finalizers: set<string>): Task {
    var others := finalizers - {FINALIZER};
    t.(spec := spec,
       finalizers := (if t.deleting then t.finalizers * others else others) + (t.finalizers * {FINALIZER}))
  }

  /** Nobody else makes a BackupTask the controller of a CronJob. */
  predicate ForeignController(controller: Option<OwnerRef>) {
    controller.Some? ==> controller.value.kind != TASK_KIND
  }

  function ActStore(s: Store, a: Action): Store {
    match a
    case Reconcile(_, _) => s
    case Crash(_) => s
    case UserCreate(k, spec, finalizers) => Settled(s, CreateTask(s, k, spec, finalizers))
    case UserEdit(k, spec, finalizers) =>
      if k in s.tasks then Settled(s, UpdateTask(s, k, EditedTask(s.tasks[k], spec, finalizers))) else s
    case UserDelete(k) => Settled(s, DeleteTask(s, k))
    case CronController(k, status) => if k in s.crons then PutCron(s, k, s.crons[k].(status := status)) else s
    case ForeignCreatesCron(k, cron) =>
      if ForeignController(cron.controller) then Settled(s, CreateCron(s, k, cron)) else s
    case ForeignEditsCron(k, cron) =>
      if k in s.crons && (cron.controller == s.crons[k].controller || ForeignController(cron.controller))
      then PutCron(s, k, cron)
      else s
    case ForeignDeletesCron(k) => Settled(s, DeleteCron(s, k))
    case ForeignWritesConfigMap(k, configMap) =>
      s.(configMaps := if configMap.Some? then s.configMaps[k := configMap.value] else s.configMaps - {k})
    case AgentWritesRecord(k, record) =>
      s.(records := if record.Some? then s.records[k := record.value] else s.records - {k})
  }

  function Act(w: World, a: Action): World {
    match a
    case Reconcile(k, o) =>
      var (s', pc') := Step(w.store, k, PcOf(w, k), o);
      World(s', w.pcs[k := pc'])
    case Crash(k) => w.(pcs := w.pcs[k := Idle])
    case _ => w.(store := ActStore(w.store, a))
  }

  function Run(w: World, actions: seq<Action>): World {
    if actions == [] then w
    else Act(Run(w, actions[..|actions| - 1]), actions[|actions| - 1])
  }
}
