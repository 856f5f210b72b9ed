/** The BackupRecord reconciler in its sequential form: the record in memory is assigned field by field,
    with writes of its status in between. It is proved to leave exactly the store the machine leaves. */
module RecordMethod {
  import opened Types
  import opened Jobs
  import opened RecordController
  import Retention

  /** The store at the end of a pass that is about to make the call of pc. */
  function Rest(s: Store, pc: Pc, script: seq<Outcome>): Store {
    if pc.Idle? then s else Drive(s, pc, script).0
  }

  lemma RestStep(s: Store, pc: Pc, script: seq<Outcome>)
    requires !pc.Idle? && script != []
    ensures var (s', pc') := Step(s, pc, script[0]);
            Rest(s, pc, script) == Rest(s', pc', script[1..])
  {
    hide Step;
  }

  lemma RestCut(s: Store, pc: Pc)
    ensures Rest(s, pc, []) == s
  {
  }

  lemma PassStart(s: Store, script: seq<Outcome>)
    ensures script == [] ==> Pass(s, script) == s
    ensures script != [] ==> Pass(s, script) == Rest(s, StepIdle(s, script[0]), script[1..])
  {
  }

  /** A BackupRecord object in the controller's memory. */
  class RecordObject {
    var uid: nat
    var version: nat
    var taskName: string
    var taskUid: string
    var start: Time
    var completion: Option<Time>
    var phase: Phase
    var error: string
    var verification: Verification
    var expiration: Option<Time>

    function Value(): BackupRecord
      reads this
    {
      BackupRecord(uid, version, taskName, taskUid, start, completion,
                   RecordStatus(phase, error, verification, expiration))
    }

    constructor (rec: BackupRecord)
      ensures Value() == rec
    {
      uid, version, taskName, taskUid := rec.uid, rec.version, rec.taskName, rec.taskUid;
      start, completion := rec.start, rec.completion;
      phase, error := rec.status.phase, rec.status.error;
      verification, expiration := rec.status.verification, rec.status.expiration;
    }

    /** A successful write overwrites the object with the server's answer. */
    method Refresh(rec: BackupRecord)
      modifies this
      ensures Value() == rec
    {
      uid, version, taskName, taskUid := rec.uid, rec.version, rec.taskName, rec.taskUid;
      start, completion := rec.start, rec.completion;
      phase, error := rec.status.phase, rec.status.error;
      verification, expiration := rec.status.verification, rec.status.expiration;
    }
  }

  class RecordReconciler {
    var store: Store
    /** What the environment will decide, call by call; when it runs out, nothing takes effect any more. */
    var script: seq<Outcome>

    constructor (s: Store, outcomes: seq<Outcome>)
      ensures store == s && script == outcomes
    {
      store, script := s, outcomes;
    }

    /** A read: answered or not. */
    method Read() returns (answer: Option<Outcome>)
      modifies this`script
      ensures old(script) == [] ==> answer == None && script == []
      ensures old(script) != [] ==>
        && script == old(script)[1..]
        && answer == if old(script)[0].fault.Answered? then Some(old(script)[0]) else None
    {
      if script == [] {
        return None;
      }
      var o := script[0];
      script := script[1..];
      return if o.fault.Answered? then Some(o) else None;
    }

    /** Status().Update: on success the object holds the server's answer; the clock is the call's. */
    method UpdateStatus(rec: RecordObject) returns (ok: bool, now: Time)
      requires rec as object != this
      modifies this, rec
      ensures old(script) == [] ==> !ok && script == [] && store == old(store)
      ensures old(script) != [] ==>
        && script == old(script)[1..]
        && now == old(script)[0].now
        && (store, if ok then Some(rec.Value()) else None) ==
           RecordController.Write(old(store), old(rec.Value()), old(script)[0].fault)
    {
      if script == [] {
        return false, 0;
      }
      now := script[0].now;
      var (after, answer) := RecordController.Write(store, rec.Value(), script[0].fault);
      store, script := after, script[1..];
      ok := answer.Some?;
      if ok {
        rec.Refresh(answer.value);
      }
    }

    /** The verdict on the record from its latest Job, written unless it stands already. */
    method CheckBackupJobStatus(rec: RecordObject, ghost retention: Option<RetentionPolicy>)
      returns (ok: bool, now: Time)
      requires rec as object != this
      modifies this, rec
      ensures Rest(old(store), ListJobs(old(rec.Value()), retention), old(script)) ==
        if ok then Rest(store, AfterPhase(rec.Value(), retention, now), script) else store
    {
      ghost var before := rec.Value();
      RestCut(store, ListJobs(before, retention));
      if script != [] { RestStep(store, ListJobs(before, retention), script); }
      var answer := Read();
      if answer.None? {
        return false, 0;
      }
      now := answer.value.now;
      var latest := FindLatest(Select(store.jobs, rec.taskName, rec.taskUid));
      if latest.None? {
        return false, now;
      }
      if latest.value.succeeded > 0 {
        if rec.phase != Completed {
          rec.phase := Completed;
          rec.completion := Some(now);
          ok, now := WriteVerdict(rec, retention);
          return;
        }
      } else if latest.value.failed > 0 {
        if rec.phase != Failed {
          rec.phase := Failed;
          rec.error := answer.value.reason;
          ok, now := WriteVerdict(rec, retention);
          return;
        }
      } else {
        rec.phase := Running;
        ok, now := WriteVerdict(rec, retention);
        return;
      }
      return true, now;
    }

    method WriteVerdict(rec: RecordObject, ghost retention: Option<RetentionPolicy>) returns (ok: bool, now: Time)
      requires rec as object != this
      modifies this, rec
      ensures Rest(old(store), WritePhase(old(rec.Value()), retention), old(script)) ==
        if ok then Rest(store, AfterPhase(rec.Value(), retention, now), script) else store
    {
      RestCut(store, WritePhase(rec.Value(), retention));
      if script != [] { RestStep(store, WritePhase(rec.Value(), retention), script); }
      ok, now := UpdateStatus(rec);
    }

    /** Steps 3 and 4: expiration time and verification. */
    method Finish(rec: RecordObject, retention: Option<RetentionPolicy>, clock: Time)
      requires rec as object != this
      modifies this, rec
      ensures Rest(old(store), AfterPhase(old(rec.Value()), retention, clock), old(script)) == store
    {
      var now := clock;
      if rec.phase == Completed && rec.expiration.None? && retention.Some? && retention.value.maxAgeDays.Some? {
        rec.expiration := Some(Retention.ExpirationTime(rec.start, retention.value.maxAgeDays.value));
        ghost var pc := WriteExpiration(rec.Value());
        RestCut(store, pc);
        if script != [] { RestStep(store, pc, script); }
        var ok;
        ok, now := UpdateStatus(rec);
        if !ok {
          return;
        }
      }
      if rec.phase == Completed && rec.verification.result == Awaiting {
        rec.verification := Verification(Some(now), Success, "Backup verification successful");
        ghost var pc := WriteVerification(rec.Value());
        RestCut(store, pc);
        if script != [] { RestStep(store, pc, script); }
        var _, _ := UpdateStatus(rec);
      }
    }

    method ReconcileBackupRecord(rec: RecordObject)
      requires rec as object != this
      modifies this, rec
      ensures Rest(old(store), GetTask(old(rec.Value())), old(script)) == store
    {
      RestCut(store, GetTask(rec.Value()));
      if script != [] { RestStep(store, GetTask(rec.Value()), script); }
      var answer := Read();
      if answer.None? {
        return;
      }
      if store.task.None? {
        rec.phase := Expired;
        rec.error := "Associated BackupTask no longer exists";
        RestCut(store, MarkExpired(rec.Value()));
        if script != [] { RestStep(store, MarkExpired(rec.Value()), script); }
        var _, _ := UpdateStatus(rec);
        return;
      }
      var retention := store.task.value;
      var ok, now := CheckBackupJobStatus(rec, retention);
      if ok {
        Finish(rec, retention, now);
      }
    }

    /** Reconcile: for every script of outcomes the sequential code leaves exactly the store the machine does. */
    method Reconcile()
      modifies this
      ensures store == Pass(old(store), old(script))
    {
      PassStart(store, script);
      var answer := Read();
      if answer.None? || store.record.None? {
        return;
      }
      var rec := new RecordObject(store.record.value);
      if rec.phase == Completed || rec.phase == Failed {
        return;
      }
      ReconcileBackupRecord(rec);
    }
  }
}
