/** What exactly one pass makes of an undecided record under any script of outcomes, and when a completed
    record without expiration time can still get one. */
module RecordCompletion {
  import opened Types
  import opened Jobs
  import opened RecordController
  import opened RecordSafety
  import Retention

  /** The first n calls are answered. */
  predicate Answers(script: seq<Outcome>, n: nat) {
    n <= |script| && forall i :: 0 <= i < n ==> script[i].fault.Answered?
  }

  /** The first n calls are answered and the next one takes effect, answered or not. */
  predicate Reaches(script: seq<Outcome>, n: nat) {
    Answers(script, n) && n < |script| && !script[n].fault.Dropped?
  }

  lemma DriveStep(s: Store, pc: Pc, script: seq<Outcome>)
    requires script != []
    ensures var (s', pc') := Step(s, pc, script[0]);
            Drive(s, pc, script) == if pc'.Idle? then (s', Idle) else Drive(s', pc', script[1..])
  {
    hide Step;
  }

  /** The store after the write of the verdict. */
  function Written(s: Store, o: Outcome): Store
    requires s.record.Some?
  {
    var rec := s.record.value;
    var judged := Judged(rec, VerdictOf(JobsFor(s, rec)), o);
    s.(record := Some(rec.(status := judged.status, version := s.rev + 1)), rev := s.rev + 1)
  }

  /** The first four calls over an undecided record with a Job: nothing is written until the fourth. */
  lemma VerdictPrefix(s: Store, script: seq<Outcome>)
    requires s.record.Some? && !Decided(s.record.value.status.phase) && s.task.Some?
    requires JobsFor(s, s.record.value) != []
    ensures !Reaches(script, 3) ==> Pass(s, script) == s
    ensures Reaches(script, 3) && !Answers(script, 4) ==> Pass(s, script) == Written(s, script[2])
    ensures Answers(script, 4) ==>
      var written := Written(s, script[2]);
      var pc := AfterPhase(written.record.value, s.task.value, script[3].now);
      Pass(s, script) == if pc.Idle? then written else Drive(written, pc, script[4..]).0
  {
    var (rec, retention) := (s.record.value, s.task.value);
    hide AfterPhase, Drive, Retention.MaxAge;
    if script == [] {
      DriveNothing(s, Idle);
    } else {
      DriveStep(s, Idle, script);
      if script[0].fault.Answered? {
        AfterRead(s, rec, retention, script);
      }
    }
  }

  lemma DriveNothing(s: Store, pc: Pc)
    ensures Drive(s, pc, []) == (s, pc)
  {
  }

  lemma AfterRead(s: Store, rec: BackupRecord, retention: Option<RetentionPolicy>, script: seq<Outcome>)
    requires s.record == Some(rec) && !Decided(rec.status.phase) && s.task == Some(retention)
    requires JobsFor(s, rec) != [] && Answers(script, 1)
    ensures var after := Drive(s, GetTask(rec), script[1..]).0;
            && (!Reaches(script, 3) ==> after == s)
            && (Reaches(script, 3) && !Answers(script, 4) ==> after == Written(s, script[2]))
            && (Answers(script, 4) ==>
                  var written := Written(s, script[2]);
                  var pc := AfterPhase(written.record.value, retention, script[3].now);
                  after == if pc.Idle? then written else Drive(written, pc, script[4..]).0)
  {
    hide AfterPhase, Drive, Retention.MaxAge;
    if |script| == 1 {
      DriveNothing(s, GetTask(rec));
    } else {
      DriveStep(s, GetTask(rec), script[1..]);
      assert script[1..][1..] == script[2..];
      if script[1].fault.Answered? {
        AfterTask(s, rec, retention, script);
      }
    }
  }

  lemma AfterTask(s: Store, rec: BackupRecord, retention: Option<RetentionPolicy>, script: seq<Outcome>)
    requires s.record == Some(rec) && !Decided(rec.status.phase)
    requires JobsFor(s, rec) != [] && Answers(script, 2)
    ensures var after := Drive(s, ListJobs(rec, retention), script[2..]).0;
            && (!Reaches(script, 3) ==> after == s)
            && (Reaches(script, 3) && !Answers(script, 4) ==> after == Written(s, script[2]))
            && (Answers(script, 4) ==>
                  var written := Written(s, script[2]);
                  var pc := AfterPhase(written.record.value, retention, script[3].now);
                  after == if pc.Idle? then written else Drive(written, pc, script[4..]).0)
  {
    hide AfterPhase, Drive, Retention.MaxAge;
    if |script| == 2 {
      DriveNothing(s, ListJobs(rec, retention));
    } else {
      DriveStep(s, ListJobs(rec, retention), script[2..]);
      assert script[2..][1..] == script[3..];
      if script[2].fault.Answered? {
        var pc := WritePhase(Judged(rec, VerdictOf(JobsFor(s, rec)), script[2]), retention);
        if |script| == 3 {
          DriveNothing(s, pc);
        } else {
          DriveStep(s, pc, script[3..]);
          assert script[3..][1..] == script[4..];
        }
      }
    }
  }

  /** The age policy is due to set the expiration time of a completed record. */
  predicate ExpirationDue(rec: BackupRecord, retention: Option<RetentionPolicy>) {
    rec.status.expiration.None? && retention.Some? && retention.value.maxAgeDays.Some?
  }

  /** A passed verification, as of some instant. */
  function Verified(now: Time): Verification { Verification(Some(now), Success, "Backup verification successful") }

  /** From the write of the verdict Completed on. */
  lemma FinishExact(s: Store, rec: BackupRecord, now: Time, script: seq<Outcome>)
    requires s.task.Some? && s.record == Some(rec) && rec.status.phase == Completed
    ensures var retention := s.task.value;
            var pc := AfterPhase(rec, retention, now);
            var after := if pc.Idle? then Some(rec) else Drive(s, pc, script).0.record;
            && after.Some? && after.value.uid == rec.uid && after.value.status.phase == Completed
            && (var e := if ExpirationDue(rec, retention) && Reaches(script, 0)
                         then Some(Retention.ExpirationTime(rec.start, retention.value.maxAgeDays.value))
                         else rec.status.expiration;
                after.value.status.expiration == e)
            && (var n := if ExpirationDue(rec, retention) then 1 else 0;
                after.value.status.verification ==
                if rec.status.verification.result == Awaiting && Reaches(script, n)
                then Verified(if n == 0 then now else script[0].now) else rec.status.verification)
  {
    var pc := AfterPhase(rec, s.task.value, now);
    hide Retention.MaxAge;
    if !pc.Idle? && script != [] {
      DriveStep(s, pc, script);
      var (s', pc') := Step(s, pc, script[0]);
      if !pc'.Idle? && |script| > 1 {
        DriveStep(s', pc', script[1..]);
      }
    }
  }

  // ---- main results ----

  /** One pass over an undecided record whose latest Job has succeeded, under any script: the record is
      Completed exactly when the verdict's write takes effect; it gets the expiration time exactly when that
      write is answered and the next one takes effect; and a pending verification succeeds, as of the last write
      before its own, exactly when the writes before its own are answered and its own takes effect. */
  lemma CompletionExact(s: Store, script: seq<Outcome>)
    requires s.record.Some? && !Decided(s.record.value.status.phase) && s.task.Some?
    requires LatestSucceeded(s.jobs, s.record.value.taskName, s.record.value.taskUid)
    ensures var (before, after) := (s.record.value, Pass(s, script).record);
            var due := ExpirationDue(before, s.task.value);
            && after.Some? && after.value.uid == before.uid
            && (after.value.status.phase == Completed <==> Reaches(script, 3))
            && (!Reaches(script, 3) ==> after.value == before)
            && after.value.status.expiration ==
                 (if due && Reaches(script, 4)
                  then Some(before.start + Retention.MaxAge(s.task.value.value.maxAgeDays.value))
                  else before.status.expiration)
            && (var n := if due then 5 else 4;
                after.value.status.verification ==
                if before.status.verification.result == Awaiting && Reaches(script, n)
                then Verified(script[n - 1].now) else before.status.verification)
  {
    VerdictOnNumbers(s.jobs, s.record.value.taskName, s.record.value.taskUid);
    hide LatestSucceeded, LatestFailed, HasJob;
    VerdictPrefix(s, script);
    if Answers(script, 4) {
      var written := Written(s, script[2]);
      FinishExact(written, written.record.value, script[3].now, script[4..]);
      SuffixReaches(script);
    }
    hide Drive, AfterPhase, Retention.MaxAge, JobsFor;
  }

  lemma SuffixReaches(script: seq<Outcome>)
    requires Answers(script, 4)
    ensures Reaches(script[4..], 0) == Reaches(script, 4)
    ensures Reaches(script[4..], 1) == Reaches(script, 5)
  {
  }

  /** "A completed record under an age policy has an expiration time" fails after a pass exactly when the
      verdict's write took effect but was not answered, or the next write did not take effect. */
  lemma CompletedWithoutExpirationIff(s: Store, script: seq<Outcome>)
    requires s.record.Some? && !Decided(s.record.value.status.phase) && s.task.Some?
    requires LatestSucceeded(s.jobs, s.record.value.taskName, s.record.value.taskUid)
    requires ExpirationDue(s.record.value, s.task.value)
    ensures var after := Pass(s, script).record;
            && after.Some?
            && (after.value.status.phase == Completed && after.value.status.expiration.None? <==>
                  Reaches(script, 3) && !Reaches(script, 4))
  {
    CompletionExact(s, script);
    hide Pass, Retention.MaxAge;
  }

  /** A fault-free pass completes such a record, sets the expiration time whenever the task has an age policy,
      and turns a pending verification into success. */
  lemma CompletingPass(s: Store, script: seq<Outcome>)
    requires s.record.Some? && !Decided(s.record.value.status.phase) && s.task.Some?
    requires LatestSucceeded(s.jobs, s.record.value.taskName, s.record.value.taskUid)
    requires Answers(script, 6)
    ensures var (before, after) := (s.record.value, Pass(s, script).record);
            && after.Some? && after.value.status.phase == Completed
            && (ExpirationDue(before, s.task.value) ==>
                  after.value.status.expiration ==
                  Some(before.start + Retention.MaxAge(s.task.value.value.maxAgeDays.value)))
            && (before.status.verification.result == Awaiting ==> after.value.status.verification.result == Success)
  {
    CompletionExact(s, script);
    hide Pass, Retention.MaxAge;
  }

  /** The steps after the verdict keep the phase. */
  lemma {:induction false} PhaseStays(s: Store, pc: Pc, script: seq<Outcome>)
    requires s.record.Some? && (pc.WriteExpiration? || pc.WriteVerification? || pc.Idle?)
    requires !pc.Idle? ==> pc.rec.status.phase == s.record.value.status.phase
    ensures var after := if pc.Idle? then s.record else Drive(s, pc, script).0.record;
            after.Some? && after.value.status.phase == s.record.value.status.phase
    decreases |script|
  {
    hide Retention.MaxAge;
    if !pc.Idle? && script != [] {
      DriveStep(s, pc, script);
      var (s', pc') := Step(s, pc, script[0]);
      PhaseStays(s', pc', script[1..]);
    }
  }

  /** Without a matching Job a pass over an undecided record changes nothing. */
  lemma NoJobNoChange(s: Store, script: seq<Outcome>)
    requires s.record.Some? && !Decided(s.record.value.status.phase) && s.task.Some?
    requires JobsFor(s, s.record.value) == []
    ensures Pass(s, script) == s
  {
    var rec := s.record.value;
    hide Drive, Retention.MaxAge, JobsFor;
    DriveNothing(s, Idle);
    DriveNothing(s, GetTask(rec));
    DriveNothing(s, ListJobs(rec, s.task.value));
    if script != [] {
      DriveStep(s, Idle, script);
      if script[0].fault.Answered? && |script| > 1 {
        DriveStep(s, GetTask(rec), script[1..]);
        assert script[1..][1..] == script[2..];
        if script[1].fault.Answered? && |script| > 2 {
          DriveStep(s, ListJobs(rec, s.task.value), script[2..]);
        }
      }
    }
  }

  /** One pass over an undecided record, under any script: the phase is settled exactly when there is a matching
      Job and the verdict's write takes effect, and it is then what the counts of the latest matching Job say. */
  lemma PhaseExact(s: Store, script: seq<Outcome>, i: nat)
    requires s.record.Some? && !Decided(s.record.value.status.phase) && s.task.Some?
    requires IsLatestFor(s.jobs, s.record.value.taskName, s.record.value.taskUid, i)
    ensures var (job, after) := (s.jobs[i], Pass(s, script));
            && after.record.Some?
            && (!Reaches(script, 3) ==> after == s)
            && (Reaches(script, 3) ==>
                  var phase := after.record.value.status.phase;
                  && (phase == Completed <==> job.succeeded > 0)
                  && (phase == Failed <==> job.succeeded <= 0 && job.failed > 0)
                  && (phase == Running <==> job.succeeded <= 0 && job.failed <= 0)
                  && (phase == Failed ==> after.record.value.status.error == script[2].reason))
  {
    var rec := s.record.value;
    LatestJobIs(s.jobs, rec.taskName, rec.taskUid, i);
    VerdictPrefix(s, script);
    if Answers(script, 4) {
      var written := Written(s, script[2]);
      PhaseStays(written, AfterPhase(written.record.value, s.task.value, script[3].now), script[4..]);
    }
    hide Drive, Retention.MaxAge, IsLatestFor, Latest;
  }

  lemma LatestJobIs(jobs: seq<Job>, taskName: string, taskUid: string, i: nat)
    requires IsLatestFor(jobs, taskName, taskUid, i)
    ensures Select(jobs, taskName, taskUid) != [] && Latest(Select(jobs, taskName, taskUid)) == jobs[i]
  {
    SelectEmptyIff(jobs, taskName, taskUid);
    var j := LatestOfSelected(jobs, taskName, taskUid);
    LatestForUnique(jobs, taskName, taskUid, i, j);
  }

  /** Without a matching Job a pass over an undecided record changes nothing, whatever its phase. */
  lemma NoJobNothingHappens(s: Store, script: seq<Outcome>)
    requires s.record.Some? && !Decided(s.record.value.status.phase) && s.task.Some?
    requires !HasJob(s.jobs, s.record.value.taskName, s.record.value.taskUid)
    ensures Pass(s, script) == s
  {
    SelectEmptyIff(s.jobs, s.record.value.taskName, s.record.value.taskUid);
    NoJobNoChange(s, script);
  }

  /** An undecided record whose task is gone expires exactly when both reads are answered and the write takes
      effect; nothing else of it changes but the error text. */
  lemma OrphanExpires(s: Store, script: seq<Outcome>)
    requires s.record.Some? && !Decided(s.record.value.status.phase) && s.task.None?
    ensures var (before, after) := (s.record.value, Pass(s, script));
            && (!Reaches(script, 2) ==> after == s)
            && (Reaches(script, 2) ==>
                  after.record == Some(before.(version := s.rev + 1, status := before.status.(
                    phase := Expired, error := "Associated BackupTask no longer exists"))))
  {
    var rec := s.record.value;
    hide Drive, Retention.MaxAge, JobsFor;
    DriveNothing(s, Idle);
    DriveNothing(s, GetTask(rec));
    DriveNothing(s, MarkExpired(Expiring(rec)));
    if script != [] {
      DriveStep(s, Idle, script);
      if script[0].fault.Answered? && |script| > 1 {
        DriveStep(s, GetTask(rec), script[1..]);
        assert script[1..][1..] == script[2..];
        if script[1].fault.Answered? && |script| > 2 {
          DriveStep(s, MarkExpired(Expiring(rec)), script[2..]);
        }
      }
    }
  }

  /** "Expired" is not final: a pass takes the record out of it exactly when the task exists, there is a
      matching Job, and the pass gets as far as writing the verdict. */
  lemma ExpiredLeftIff(s: Store, script: seq<Outcome>)
    requires s.record.Some? && s.record.value.status.phase == Expired
    ensures var after := Pass(s, script).record;
            && after.Some?
            && (after.value.status.phase != Expired <==>
                  && s.task.Some? && HasJob(s.jobs, s.record.value.taskName, s.record.value.taskUid)
                  && Reaches(script, 3))
  {
    SelectEmptyIff(s.jobs, s.record.value.taskName, s.record.value.taskUid);
    hide Pass, IsLatestFor, Reaches;
    if s.task.None? {
      OrphanExpires(s, script);
    } else if JobsFor(s, s.record.value) == [] {
      NoJobNoChange(s, script);
    } else {
      var i := LatestOfSelected(s.jobs, s.record.value.taskName, s.record.value.taskUid);
      PhaseExact(s, script, i);
    }
  }

  // ---- the order of the Jobs ----

  lemma StepIgnoresJobOrder(s: Store, jobs: seq<Job>, pc: Pc, o: Outcome)
    requires pc.ListJobs? ==> VerdictOf(JobsFor(s.(jobs := jobs), pc.rec)) == VerdictOf(JobsFor(s, pc.rec))
    ensures var (s', pc') := Step(s, pc, o); Step(s.(jobs := jobs), pc, o) == (s'.(jobs := jobs), pc')
  {
    hide JobsFor, VerdictOf, AfterPhase, Retention.MaxAge;
  }

  lemma StepKeepsRefs(s: Store, pc: Pc, o: Outcome)
    ensures var (s', pc') := Step(s, pc, o);
            && s'.jobs == s.jobs
            && (pc'.ListJobs? ==> pc.GetTask? && pc'.rec == pc.rec)
            && (pc'.GetTask? ==> pc.Idle? && s.record == Some(pc'.rec))
  {
    hide JobsFor, Retention.MaxAge;
  }

  lemma {:induction false} DriveIgnoresJobOrder(s: Store, permuted: seq<Job>, pc: Pc, script: seq<Outcome>,
      taskName: string, taskUid: string)
    requires DistinctTimes(s.jobs, taskName, taskUid) && multiset(s.jobs) == multiset(permuted)
    requires pc.GetTask? || pc.ListJobs? ==> (pc.rec.taskName, pc.rec.taskUid) == (taskName, taskUid)
    requires pc.Idle? && s.record.Some? ==>
             (s.record.value.taskName, s.record.value.taskUid) == (taskName, taskUid)
    ensures Drive(s.(jobs := permuted), pc, script).0 == Drive(s, pc, script).0.(jobs := permuted)
    decreases |script|
  {
    hide Step, DistinctTimes, VerdictOf;
    if script != [] {
      VerdictIgnoresOrder(s.jobs, permuted, taskName, taskUid);
      StepIgnoresJobOrder(s, permuted, pc, script[0]);
      StepKeepsRefs(s, pc, script[0]);
      var (s', pc') := Step(s, pc, script[0]);
      if !pc'.Idle? {
        DriveIgnoresJobOrder(s', permuted, pc', script[1..], taskName, taskUid);
      }
    }
  }

  /** Listing a record's Jobs in another order changes nothing of what a pass does, under any script, as long as
      no two of them were created at the same instant. */
  lemma PassIgnoresJobOrder(s: Store, permuted: seq<Job>, script: seq<Outcome>)
    requires multiset(s.jobs) == multiset(permuted)
    requires s.record.Some? ==> DistinctTimes(s.jobs, s.record.value.taskName, s.record.value.taskUid)
    ensures Pass(s.(jobs := permuted), script).record == Pass(s, script).record
  {
    if s.record.Some? {
      DriveIgnoresJobOrder(s, permuted, Idle, script, s.record.value.taskName, s.record.value.taskUid);
    } else {
      NoRecord(s, script);
      NoRecord(s.(jobs := permuted), script);
    }
  }

  lemma NoRecord(s: Store, script: seq<Outcome>)
    requires s.record.None?
    ensures Pass(s, script) == s
  {
  }

  // ---- runs ----

  /** The write that adds the expiration time is under way and its version is still the stored one. */
  predicate Pending(w: World) {
    w.pc.WriteExpiration? && w.store.record.Some? && w.pc.rec.version == w.store.record.value.version
  }

  predicate CompletedBare(w: World, uid: nat) {
    && w.store.record.Some? && w.store.record.value.uid == uid
    && w.store.record.value.status.phase == Completed && w.store.record.value.status.expiration.None?
  }

  /** This incarnation, if it lives, is completed without expiration time, and none is under way. */
  predicate Stuck(w: World, uid: nat) {
    && uid <= w.store.rev
    && (w.store.record.Some? && w.store.record.value.uid == uid ==> CompletedBare(w, uid) && !Pending(w))
  }

  lemma ActStuck(w: World, a: Action, uid: nat)
    requires Inv(w) && Stuck(w, uid)
    ensures Stuck(Act(w, a), uid)
  {
    if a.Reconcile? {
      StepStuck(w, a.outcome, uid);
    }
    hide Step;
  }

  lemma StepStuck(w: World, o: Outcome, uid: nat)
    requires Inv(w) && Stuck(w, uid)
    ensures Stuck(Act(w, Reconcile(o)), uid)
  {
    hide StatusOk, Retention.MaxAge, JobsFor;
  }

  lemma {:induction false} RunStuck(w: World, actions: seq<Action>, uid: nat)
    requires Inv(w) && Stuck(w, uid)
    ensures Inv(Run(w, actions)) && Stuck(Run(w, actions), uid)
  {
    hide Inv, Act, Stuck;
    if actions != [] {
      var n := |actions| - 1;
      RunStuck(w, actions[..n], uid);
      ActOk(Run(w, actions[..n]), actions[n]);
      ActStuck(Run(w, actions[..n]), actions[n], uid);
    }
  }

  /** In every reachable state, a completed record without expiration time can still get one in some
      continuation exactly when the write that adds it is under way with the stored version. A lost answer
      to the first write, a crash or cut-off between the writes, a lost second write, and an edit of the
      record in between all take that away for good. */
  lemma ExpirationStillPossibleIff(early: seq<Action>, uid: nat)
    requires CompletedBare(Run(START, early), uid)
    ensures var w := Run(START, early);
            Pending(w) <==>
            exists later: seq<Action> ::
              var r := Run(w, later).store.record;
              r.Some? && r.value.uid == uid && r.value.status.expiration.Some?
  {
    var w := Run(START, early);
    RunOk(early);
    if Pending(w) {
      var later := [Reconcile(Outcome(Answered, 0, ""))];
      assert Run(w, later[..0]) == w;
      assert Run(w, later) == Act(w, later[0]);
      var r := Run(w, later).store.record;
      assert r.Some? && r.value.uid == uid && r.value.status.expiration.Some?;
    } else {
      forall later: seq<Action>
        ensures var r := Run(w, later).store.record;
                !(r.Some? && r.value.uid == uid && r.value.status.expiration.Some?)
      {
        RunStuck(w, later, uid);
      }
    }
  }

  /** No pass is under way on this incarnation, which is completed and has no expiration time. */
  predicate Unexpiring(w: World, uid: nat) {
    && uid <= w.store.rev
    && (w.store.record.Some? && w.store.record.value.uid == uid ==> w.pc.Idle? && CompletedBare(w, uid))
  }

  lemma {:induction false} RunUnexpiring(w: World, actions: seq<Action>, uid: nat)
    requires Unexpiring(w, uid)
    ensures Unexpiring(Run(w, actions), uid)
  {
    if actions != [] {
      var n := |actions| - 1;
      RunUnexpiring(w, actions[..n], uid);
      ActUnexpiring(Run(w, actions[..n]), actions[n], uid);
    }
  }

  lemma ActUnexpiring(w: World, a: Action, uid: nat)
    requires Unexpiring(w, uid)
    ensures Unexpiring(Act(w, a), uid)
  {
  }

  /** Every way in which a pass can fail to set the expiration time is final: the incarnation stays Completed
      and without one, whatever anybody does afterwards to it, its task or its Jobs. */
  lemma LostExpirationIsLostForGood(s: Store, script: seq<Outcome>, history: seq<Observation>, later: seq<Action>)
    requires s.record.Some? && s.record.value.uid <= s.rev && !Decided(s.record.value.status.phase) && s.task.Some?
    requires LatestSucceeded(s.jobs, s.record.value.taskName, s.record.value.taskUid)
    requires ExpirationDue(s.record.value, s.task.value)
    requires Reaches(script, 3) && !Reaches(script, 4)
    ensures var final := Run(World(Pass(s, script), Idle, history), later).store.record;
            final.Some? && final.value.uid == s.record.value.uid ==>
              final.value.status.phase == Completed && final.value.status.expiration.None?
  {
    CompletionExact(s, script);
    PassRev(s, Idle, script);
    var w := World(Pass(s, script), Idle, history);
    assert w.store.rev >= s.rev;
    hide Pass, Retention.MaxAge, Run;
    RunUnexpiring(w, later, s.record.value.uid);
  }

  lemma {:induction false} PassRev(s: Store, pc: Pc, script: seq<Outcome>)
    ensures Drive(s, pc, script).0.rev >= s.rev
    decreases |script|
  {
    hide Retention.MaxAge, JobsFor;
    if script != [] {
      DriveStep(s, pc, script);
      var (s', pc') := Step(s, pc, script[0]);
      PassRev(s', pc', script[1..]);
    }
  }
}
