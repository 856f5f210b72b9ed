/** The BackupRecord controller as a machine of API calls, with everybody else who touches the record,
    its task and its Jobs. The record and what it depends on are modelled; other records are independent. */
module RecordController {
  import opened Types
  import opened Jobs
  import Retention

  datatype VerificationResult = Unverified | Awaiting | Success | Failure | Skipped

  datatype Verification = Verification(at: Option<Time>, result: VerificationResult, message: string)

  datatype RecordStatus = RecordStatus(
    phase: Phase, error: string, verification: Verification, expiration: Option<Time>)

  /** uid counts incarnations of the record's name. */
  datatype BackupRecord = BackupRecord(
    uid: nat, version: nat,
    taskName: string, taskUid: string, start: Time, completion: Option<Time>,
    status: RecordStatus)

  /** The fate of a call, the clock, and the failure text found in the pods. */
  datatype Outcome = Outcome(fault: Fault, now: Time, reason: string)

  /** What a pass over one incarnation saw when it listed the Jobs: the task it asked for, all the Jobs there
      were, the start time and the task's policy. */
  datatype Observation = Observation(
    uid: nat, taskName: string, taskUid: string, jobs: seq<Job>, start: Time, retention: Option<RetentionPolicy>)

  /** The store as far as this record is concerned; task is None when the BackupTask does not exist. */
  datatype Store = Store(
    record: Option<BackupRecord>, rev: nat,
    task: Option<Option<RetentionPolicy>>,
    jobs: seq<Job>)

  datatype Pc =
    | Idle
    | GetTask(rec: BackupRecord)
    | MarkExpired(rec: BackupRecord)
    | ListJobs(rec: BackupRecord, retention: Option<RetentionPolicy>)
    | WritePhase(rec: BackupRecord, retention: Option<RetentionPolicy>)
    | WriteExpiration(rec: BackupRecord)
    | WriteVerification(rec: BackupRecord)

  datatype Verdict = NoJob | StillRunning | Succeeded | HasFailed

  function VerdictOf(jobs: seq<Job>): Verdict {
    if jobs == [] then NoJob
    else if Latest(jobs).succeeded > 0 then Succeeded
    else if Latest(jobs).failed > 0 then HasFailed
    else StillRunning
  }

  predicate Decided(phase: Phase) { phase == Completed || phase == Failed }

  /** Update of the status subresource: the record's spec stays what it is. */
  function WriteStatus(s: Store, rec: BackupRecord): Option<Store> {
    if s.record.None? || s.record.value.version != rec.version then None
    else Some(s.(record := Some(s.record.value.(status := rec.status, version := s.rev + 1)), rev := s.rev + 1))
  }

  /** The store after the write and, when the caller learns of its success, the server's answer. */
  function Write(s: Store, rec: BackupRecord, fault: Fault): (Store, Option<BackupRecord>) {
    var written := WriteStatus(s, rec);
    if fault.Dropped? || written.None? then (s, None)
    else (written.value, if fault.Answered? then written.value.record else None)
  }

  /** The matching Jobs of the record. */
  function JobsFor(s: Store, rec: BackupRecord): seq<Job> {
    Select(s.jobs, rec.taskName, rec.taskUid)
  }

  function StepIdle(s: Store, o: Outcome): Pc {
    if !o.fault.Answered? || s.record.None? || Decided(s.record.value.status.phase) then Idle
    else GetTask(s.record.value)
  }

  function Expiring(rec: BackupRecord): BackupRecord {
    rec.(status := rec.status.(phase := Expired, error := "Associated BackupTask no longer exists"))
  }

  function StepGetTask(s: Store, rec: BackupRecord, o: Outcome): Pc {
    if !o.fault.Answered? then Idle
    else if s.task.None? then MarkExpired(Expiring(rec))
    else ListJobs(rec, s.task.value)
  }

  /** Step 4 of the pass: verification, which always succeeds. */
  function Verifying(rec: BackupRecord, now: Time): Pc {
    if rec.status.phase == Completed && rec.status.verification.result == Awaiting
    then WriteVerification(rec.(status := rec.status.(
      verification := Verification(Some(now), Success, "Backup verification successful"))))
    else Idle
  }

  predicate SetsExpiration(rec: BackupRecord, retention: Option<RetentionPolicy>) {
    && rec.status.phase == Completed && rec.status.expiration.None?
    && retention.Some? && retention.value.maxAgeDays.Some?
  }

  /** Steps 3 and 4 of the pass. */
  function AfterPhase(rec: BackupRecord, retention: Option<RetentionPolicy>, now: Time): Pc {
    if SetsExpiration(rec, retention)
    then WriteExpiration(rec.(status := rec.status.(
      expiration := Some(Retention.ExpirationTime(rec.start, retention.value.maxAgeDays.value)))))
    else Verifying(rec, now)
  }

  /** The record in memory after the verdict, with the completion time that is never persisted. */
  function Judged(rec: BackupRecord, verdict: Verdict, o: Outcome): BackupRecord {
    match verdict
    case Succeeded => rec.(status := rec.status.(phase := Completed), completion := Some(o.now))
    case HasFailed => rec.(status := rec.status.(phase := Failed, error := o.reason))
    case _ => rec.(status := rec.status.(phase := Running))
  }

  function StepListJobs(s: Store, rec: BackupRecord, retention: Option<RetentionPolicy>, o: Outcome): Pc {
    if !o.fault.Answered? then Idle
    else
      var verdict := VerdictOf(JobsFor(s, rec));
      if verdict.NoJob? then Idle
      else if (verdict.Succeeded? && rec.status.phase == Completed)
              || (verdict.HasFailed? && rec.status.phase == Failed)
      then AfterPhase(rec, retention, o.now)
      else WritePhase(Judged(rec, verdict, o), retention)
  }

  function Step(s: Store, pc: Pc, o: Outcome): (Store, Pc) {
    match pc
    case Idle => (s, StepIdle(s, o))
    case GetTask(rec) => (s, StepGetTask(s, rec, o))
    case MarkExpired(rec) => (Write(s, rec, o.fault).0, Idle)
    case ListJobs(rec, retention) => (s, StepListJobs(s, rec, retention, o))
    case WritePhase(rec, retention) =>
      var (s', answer) := Write(s, rec, o.fault);
      (s', if answer.Some? then AfterPhase(answer.value, retention, o.now) else Idle)
    case WriteExpiration(rec) =>
      var (s', answer) := Write(s, rec, o.fault);
      (s', if answer.Some? then Verifying(answer.value, o.now) else Idle)
    case WriteVerification(rec) => (Write(s, rec, o.fault).0, Idle)
  }

  /** One pass under a script of outcomes; a script that ends early is a crash. */
  function Drive(s: Store, pc: Pc, script: seq<Outcome>): (Store, Pc)
    decreases |script|
  {
    if script == [] then (s, pc)
    else
      var (s', pc') := Step(s, pc, script[0]);
      if pc'.Idle? then (s', Idle) else Drive(s', pc', script[1..])
  }

  function Pass(s: Store, script: seq<Outcome>): Store { Drive(s, Idle, script).0 }

  // ---- everybody else ----

  datatype World = World(store: Store, pc: Pc, history: seq<Observation>)

  datatype Action =
    | Reconcile(outcome: Outcome)
    | Crash
    | CreateRecord(rec: BackupRecord)
    | EditRecord(taskName: string, taskUid: string, start: Time, completion: Option<Time>)
    | DeleteRecord
    | TaskChanges(task: Option<Option<RetentionPolicy>>)
    | JobsChange(jobs: seq<Job>)

  /** New records start undecided, without expiration, verified at most "Pending". */
  predicate FreshStatus(status: RecordStatus) {
    && status.phase in {NoPhase, Pending, Running}
    && status.verification.result in {Unverified, Awaiting}
    && status.expiration.None?
  }

  function ActStore(s: Store, a: Action): Store {
    match a
    case CreateRecord(rec) =>
      if s.record.None? && FreshStatus(rec.status)
      then s.(record := Some(rec.(uid := s.rev + 1, version := s.rev + 1)), rev := s.rev + 1)
      else s
    case EditRecord(taskName, taskUid, start, completion) =>
      if s.record.None? then s
      else s.(record := Some(s.record.value.(
                taskName := taskName, taskUid := taskUid, start := start, completion := completion,
                version := s.rev + 1)),
              rev := s.rev + 1)
    case DeleteRecord => s.(record := None)
    case TaskChanges(task) => s.(task := task)
    case JobsChange(jobs) => s.(jobs := jobs)
    case _ => s
  }

  function ObservationOf(s: Store, rec: BackupRecord, retention: Option<RetentionPolicy>): Observation {
    Observation(rec.uid, rec.taskName, rec.taskUid, s.jobs, rec.start, retention)
  }

  /** An answered listing is an observation. */
  function Observed(w: World, o: Outcome): seq<Observation> {
    if w.pc.ListJobs? && o.fault.Answered?
    then w.history + [ObservationOf(w.store, w.pc.rec, w.pc.retention)]
    else w.history
  }

  function Act(w: World, a: Action): World {
    match a
    case Reconcile(o) =>
      var (s', pc') := Step(w.store, w.pc, o);
      World(s', pc', Observed(w, o))
    case Crash => w.(pc := Idle)
    case _ => w.(store := ActStore(w.store, a))
  }

  function Run(w: World, actions: seq<Action>): World {
    if actions == [] then w
    else Act(Run(w, actions[..|actions| - 1]), actions[|actions| - 1])
  }

  const START := World(Store(None, 0, None, []), Idle, [])
}
