/** The API server as far as the operator uses it: four kinds of objects, optimistic concurrency by
    resource version, finalizers and deletion timestamps. Versions are counted per name and never
    reused, so a name that is deleted and created again keeps counting. */
module Api {
  import opened Types
  import Pod

  const FINALIZER := "backup.mybackup.com/finalizer"
  const TASK_KIND := "BackupTask"

  /** Unique over all time: the name together with the version it was created at. */
  datatype Uid = Uid(key: Key, born: nat)

  datatype OwnerRef = OwnerRef(kind: string, name: string, uid: Uid)

  datatype JobRef = JobRef(apiVersion: string, kind: string, name: string, ns: string)

  datatype ConditionType = Scheduled | JobRunning

  datatype Condition = Condition(kind: ConditionType, holds: bool, since: Time, reason: string, message: string)

  datatype TaskStatus = TaskStatus(
    observedGeneration: nat,
    phase: Phase,
    lastScheduled: Option<Time>,
    activeJob: Option<JobRef>,
    historyCount: int,
    conditions: seq<Condition>)

  const EMPTY_STATUS := TaskStatus(0, NoPhase, None, None, 0, [])

  datatype Task = Task(
    uid: Uid,
    version: nat,
    generation: nat,
    finalizers: set<string>,
    deleting: bool,
    spec: TaskSpec,
    status: TaskStatus)

  datatype CronJobSpec = CronJobSpec(
    schedule: string,
    suspend: Option<bool>,
    startingDeadlineSeconds: int,
    concurrencyPolicy: string,
    labels: map<string, string>,
    backoffLimit: int,
    ttlSecondsAfterFinished: int,
    pod: Pod.PodSpec)

  datatype CronJobStatus = CronJobStatus(active: seq<string>, lastSchedule: Option<Time>)

  datatype CronJob = CronJob(
    version: nat,
    labels: map<string, string>,
    controller: Option<OwnerRef>,
    spec: CronJobSpec,
    status: CronJobStatus)

  /** The two JSON documents of the ConfigMap are represented by the values they encode. */
  datatype ConfigData = ConfigData(targetsJson: seq<Target>, remoteStorageJson: RemoteStorage, targetCount: string)

  datatype ConfigMap = ConfigMap(labels: map<string, string>, data: ConfigData)

  datatype Record = Record(labels: map<string, string>, created: Time)

  datatype Store = Store(
    tasks: map<Key, Task>,
    taskRevs: map<Key, nat>,
    crons: map<Key, CronJob>,
    cronRevs: map<Key, nat>,
    configMaps: map<Key, ConfigMap>,
    records: map<Key, Record>)

  const EMPTY_STORE := Store(map[], map[], map[], map[], map[], map[])

  datatype ApiError = NotFound | AlreadyExists | Conflict

  /** What a write did to the store and what the caller gets back. */
  datatype Reply<+T> = Accepted(store: Store, item: T) | Rejected(error: ApiError)

  function Rev(revs: map<Key, nat>, k: Key): nat {
    if k in revs then revs[k] else 0
  }

  function Find<T>(objects: map<Key, T>, k: Key): Option<T> {
    if k in objects then Some(objects[k]) else None
  }

  function Without<T>(objects: map<Key, T>, k: Key): (r: map<Key, T>)
    ensures Find(r, k).None?
  {
    objects - {k}
  }

  function PutTask(s: Store, k: Key, t: Task): Store {
    var v := Rev(s.taskRevs, k) + 1;
    s.(tasks := s.tasks[k := t.(version := v)], taskRevs := s.taskRevs[k := v])
  }

  /** A deleted object without finalizers disappears. */
  function RemoveTask(s: Store, k: Key): Store {
    s.(tasks := Without(s.tasks, k), taskRevs := s.taskRevs[k := Rev(s.taskRevs, k) + 1])
  }

  function PutCron(s: Store, k: Key, c: CronJob): Store {
    var v := Rev(s.cronRevs, k) + 1;
    s.(crons := s.crons[k := c.(version := v)], cronRevs := s.cronRevs[k := v])
  }

  function RemoveCron(s: Store, k: Key): Store {
    s.(crons := Without(s.crons, k), cronRevs := s.cronRevs[k := Rev(s.cronRevs, k) + 1])
  }

  /** Spec and finalizers are taken from the request, status is kept; a changed spec starts a new
      generation. */
  function UpdatedTask(stored: Task, t: Task): Task {
    stored.(
      finalizers := t.finalizers,
      spec := t.spec,
      generation := if t.spec == stored.spec then stored.generation else stored.generation + 1)
  }

  predicate Vanishes(t: Task) { t.deleting && t.finalizers == {} }

  /** Update of the main resource. */
  function UpdateTask(s: Store, k: Key, t: Task): Reply<Task> {
    if k !in s.tasks then Rejected(NotFound)
    else if s.tasks[k].version != t.version then Rejected(Conflict)
    else
      var next := UpdatedTask(s.tasks[k], t);
      if Vanishes(next) then Accepted(RemoveTask(s, k), next)
      else var s' := PutTask(s, k, next); Accepted(s', s'.tasks[k])
  }

  /** Update of the status subresource: only the status is taken from the request. */
  function UpdateTaskStatus(s: Store, k: Key, t: Task): Reply<Task> {
    if k !in s.tasks then Rejected(NotFound)
    else if s.tasks[k].version != t.version then Rejected(Conflict)
    else var s' := PutTask(s, k, s.tasks[k].(status := t.status)); Accepted(s', s'.tasks[k])
  }

  function CreateTask(s: Store, k: Key, spec: TaskSpec, finalizers: set<string>): Reply<Task> {
    if k in s.tasks then Rejected(AlreadyExists)
    else
      var uid := Uid(k, Rev(s.taskRevs, k) + 1);
      var s' := PutTask(s, k, Task(uid, 0, 1, finalizers, false, spec, EMPTY_STATUS));
      Accepted(s', s'.tasks[k])
  }

  /** Deletion of an object with finalizers only marks it, which also starts a new generation. */
  function DeleteTask(s: Store, k: Key): Reply<Task> {
    if k !in s.tasks then Rejected(NotFound)
    else
      var t := s.tasks[k];
      if t.finalizers == {} then Accepted(RemoveTask(s, k), t)
      else if t.deleting then Accepted(s, t)
      else var s' := PutTask(s, k, t.(deleting := true, generation := t.generation + 1)); Accepted(s', s'.tasks[k])
  }

  /** Creation drops the status of the request. */
  function CreateCron(s: Store, k: Key, c: CronJob): Reply<CronJob> {
    if k in s.crons then Rejected(AlreadyExists)
    else var s' := PutCron(s, k, c.(status := CronJobStatus([], None))); Accepted(s', s'.crons[k])
  }

  function UpdateCron(s: Store, k: Key, c: CronJob): Reply<CronJob> {
    if k !in s.crons then Rejected(NotFound)
    else if s.crons[k].version != c.version then Rejected(Conflict)
    else var s' := PutCron(s, k, c.(status := s.crons[k].status)); Accepted(s', s'.crons[k])
  }

  /** Deletion by name only: no version, no owner. */
  function DeleteCron(s: Store, k: Key): Reply<()> {
    if k !in s.crons then Rejected(NotFound) else Accepted(RemoveCron(s, k), ())
  }

  function CreateConfigMap(s: Store, k: Key, c: ConfigMap): Reply<()> {
    if k in s.configMaps then Rejected(AlreadyExists)
    else Accepted(s.(configMaps := s.configMaps[k := c]), ())
  }

  /** The request carries no resource version, so the update is unconditional. */
  function UpdateConfigMap(s: Store, k: Key, c: ConfigMap): Reply<()> {
    if k !in s.configMaps then Rejected(NotFound)
    else Accepted(s.(configMaps := s.configMaps[k := c]), ())
  }

  function DeleteRecord(s: Store, k: Key): Reply<()> {
    if k !in s.records then Rejected(NotFound)
    else Accepted(s.(records := s.records - {k}), ())
  }

  /** Selection by namespace and label. */
  predicate MatchesTask(recordKey: Key, record: Record, task: Key) {
    && recordKey.ns == task.ns
    && BACKUP_TASK_LABEL in record.labels
    && record.labels[BACKUP_TASK_LABEL] == task.name
  }

  function Matching(records: map<Key, Record>, task: Key): set<Key> {
    set k | k in records && MatchesTask(k, records[k], task)
  }

  /** A listing enumerates the selected records once each, in no particular order. */
  predicate IsListing(records: map<Key, Record>, task: Key, listing: seq<Key>) {
    && (forall i, j :: 0 <= i < j < |listing| ==> listing[i] != listing[j])
    && (set k | k in listing) == Matching(records, task)
  }
}
