/** Verdicts, expiration and verification of a BackupRecord over every run. */
module RecordSafety {
  import opened Types
  import opened Jobs
  import opened RecordController
  import Retention

  /** The counts of the Job that matters, as they were listed: for Completed it had succeeded, for Failed it
      had failed and not succeeded. */
  ghost predicate Shows(h: Observation, phase: Phase) {
    || (phase == Completed && LatestSucceeded(h.jobs, h.taskName, h.taskUid))
    || (phase == Failed && LatestFailed(h.jobs, h.taskName, h.taskUid))
  }

  /** Some pass over this incarnation saw a Job that justifies the phase. */
  ghost predicate Witnessed(history: seq<Observation>, uid: nat, phase: Phase) {
    exists i :: 0 <= i < |history| && history[i].uid == uid && Shows(history[i], phase)
  }

  /** Some pass over this incarnation found a succeeded latest Job and computed this expiration from what it
      had read. */
  ghost predicate ExpirationWitnessed(history: seq<Observation>, uid: nat, e: Time) {
    exists i :: 0 <= i < |history| && history[i].uid == uid && ExpirationFrom(history[i], e)
  }

  ghost predicate ExpirationFrom(h: Observation, e: Time) {
    && Shows(h, Completed)
    && h.retention.Some? && h.retention.value.maxAgeDays.Some?
    && e == h.start + Retention.MaxAge(h.retention.value.maxAgeDays.value)
  }

  /** The verdict in terms of the counts. */
  lemma VerdictOnNumbers(jobs: seq<Job>, taskName: string, taskUid: string)
    ensures var verdict := VerdictOf(Select(jobs, taskName, taskUid));
            && (verdict.NoJob? <==> !HasJob(jobs, taskName, taskUid))
            && (verdict.Succeeded? <==> LatestSucceeded(jobs, taskName, taskUid))
            && (verdict.HasFailed? <==> LatestFailed(jobs, taskName, taskUid))
  {
    SelectEmptyIff(jobs, taskName, taskUid);
    if Select(jobs, taskName, taskUid) != [] {
      var i := LatestOfSelected(jobs, taskName, taskUid);
      forall j | 0 <= j < |jobs| && IsLatestFor(jobs, taskName, taskUid, j) ensures j == i {
        LatestForUnique(jobs, taskName, taskUid, i, j);
      }
    }
  }

  ghost predicate StatusOk(uid: nat, status: RecordStatus, history: seq<Observation>) {
    && (status.phase == Completed ==> Witnessed(history, uid, Completed))
    && (status.phase == Failed ==> Witnessed(history, uid, Failed))
    && (status.expiration.Some? ==>
          status.phase == Completed && ExpirationWitnessed(history, uid, status.expiration.value))
    && (status.verification.result == Success ==> status.phase == Completed)
  }

  /** The record in memory is the stored one while the version stands. */
  predicate SameRecord(s: Store, rec: BackupRecord) {
    rec.version <= s.rev && (s.record.Some? && s.record.value.version == rec.version ==> s.record.value == rec)
  }

  /** The stored record that a write with this version would replace is still undecided. */
  predicate BeforeVerdict(s: Store, rec: BackupRecord) {
    && rec.version <= s.rev
    && (s.record.Some? && s.record.value.version == rec.version ==>
          var stored := s.record.value;
          && !Decided(stored.status.phase)
          && (rec.status.expiration, rec.status.verification) == (stored.status.expiration, stored.status.verification)
          && (rec.uid, rec.start) == (stored.uid, stored.start))
  }

  predicate AddsExpiration(s: Store, rec: BackupRecord) {
    && rec.version <= s.rev
    && rec.status.phase == Completed && rec.status.expiration.Some?
    && (s.record.Some? && s.record.value.version == rec.version ==>
          s.record.value.uid == rec.uid && s.record.value.status == rec.status.(expiration := None))
  }

  predicate AddsVerification(s: Store, rec: BackupRecord) {
    && rec.version <= s.rev
    && rec.status.phase == Completed && rec.status.verification.result == Success
    && (s.record.Some? && s.record.value.version == rec.version ==>
          var stored := s.record.value.status;
          && s.record.value.uid == rec.uid
          && stored.verification.result == Awaiting && stored == rec.status.(verification := stored.verification))
  }

  /** The last observation is this pass's own. */
  ghost predicate LastSeen(history: seq<Observation>, rec: BackupRecord, retention: Option<RetentionPolicy>) {
    && history != [] && history[|history| - 1].uid == rec.uid
    && history[|history| - 1].start == rec.start && history[|history| - 1].retention == retention
    && (rec.status.phase == Completed ==> Shows(history[|history| - 1], Completed))
  }

  ghost predicate PcOk(w: World) {
    match w.pc
    case Idle => true
    case GetTask(rec) =>
      SameRecord(w.store, rec) && !Decided(rec.status.phase) && StatusOk(rec.uid, rec.status, w.history)
    case MarkExpired(rec) => BeforeVerdict(w.store, rec) && StatusOk(rec.uid, rec.status, w.history)
    case ListJobs(rec, _) =>
      SameRecord(w.store, rec) && !Decided(rec.status.phase) && StatusOk(rec.uid, rec.status, w.history)
    case WritePhase(rec, retention) =>
      BeforeVerdict(w.store, rec) && StatusOk(rec.uid, rec.status, w.history) && LastSeen(w.history, rec, retention)
    case WriteExpiration(rec) => AddsExpiration(w.store, rec) && StatusOk(rec.uid, rec.status, w.history)
    case WriteVerification(rec) => AddsVerification(w.store, rec) && StatusOk(rec.uid, rec.status, w.history)
  }

  ghost predicate Inv(w: World) {
    && PcOk(w)
    && (w.store.record.Some? ==>
          var rec := w.store.record.value;
          rec.uid <= rec.version <= w.store.rev && StatusOk(rec.uid, rec.status, w.history))
  }

  lemma HistoryGrows(uid: nat, status: RecordStatus, history: seq<Observation>, h: Observation)
    requires StatusOk(uid, status, history)
    ensures StatusOk(uid, status, history + [h])
  {
    var longer := history + [h];
    assert forall i :: 0 <= i < |history| ==> longer[i] == history[i];
  }

  /** What any action does to one incarnation of the record. */
  ghost predicate Allowed(before: Store, after: Store) {
    before.record.Some? && after.record.Some? && after.record.value.uid == before.record.value.uid ==>
      var (x, y) := (before.record.value.status, after.record.value.status);
      && (Decided(x.phase) ==> y.phase == x.phase)
      && (x.expiration.Some? ==> y.expiration == x.expiration)
      && (y.verification.result == Success && x.verification.result != Success ==>
            x.verification.result == Awaiting && x.phase == Completed && y.phase == Completed)
  }

  lemma ListStepOk(w: World, o: Outcome)
    requires Inv(w) && w.pc.ListJobs?
    ensures Inv(Act(w, Reconcile(o))) && Allowed(w.store, Act(w, Reconcile(o)).store)
  {
    var w' := Act(w, Reconcile(o));
    if o.fault.Answered? {
      var h := ObservationOf(w.store, w.pc.rec, w.pc.retention);
      VerdictOnNumbers(h.jobs, h.taskName, h.taskUid);
      HistoryGrows(w.pc.rec.uid, w.pc.rec.status, w.history, h);
      if w.store.record.Some? {
        HistoryGrows(w.store.record.value.uid, w.store.record.value.status, w.history, h);
      }
      assert w'.history[|w.history|] == h;
    }
  }

  lemma WritePhaseOk(w: World, o: Outcome)
    requires Inv(w) && w.pc.WritePhase?
    ensures Inv(Act(w, Reconcile(o))) && Allowed(w.store, Act(w, Reconcile(o)).store)
  {
    var w' := Act(w, Reconcile(o));
    if w'.pc.WriteExpiration? {
      var last := |w.history| - 1;
      assert ExpirationFrom(w.history[last], w'.pc.rec.status.expiration.value);
    }
  }

  lemma ReadOk(w: World, o: Outcome)
    requires Inv(w) && (w.pc.Idle? || w.pc.GetTask?)
    ensures Inv(Act(w, Reconcile(o))) && Allowed(w.store, Act(w, Reconcile(o)).store)
  {
    hide StatusOk, Retention.MaxAge;
    ExpiringOk(w);
  }

  lemma ExpiringOk(w: World)
    requires Inv(w)
    ensures w.pc.GetTask? ==> StatusOk(w.pc.rec.uid, Expiring(w.pc.rec).status, w.history)
  {
  }

  lemma LaterWritesOk(w: World, o: Outcome)
    requires Inv(w) && (w.pc.MarkExpired? || w.pc.WriteExpiration? || w.pc.WriteVerification?)
    ensures Inv(Act(w, Reconcile(o))) && Allowed(w.store, Act(w, Reconcile(o)).store)
  {
    hide Retention.MaxAge, Witnessed, ExpirationWitnessed;
  }

  lemma StepOk(w: World, o: Outcome)
    requires Inv(w)
    ensures Inv(Act(w, Reconcile(o))) && Allowed(w.store, Act(w, Reconcile(o)).store)
  {
    hide Inv, Allowed, Act;
    if w.pc.ListJobs? {
      ListStepOk(w, o);
    } else if w.pc.WritePhase? {
      WritePhaseOk(w, o);
    } else if w.pc.Idle? || w.pc.GetTask? {
      ReadOk(w, o);
    } else {
      LaterWritesOk(w, o);
    }
  }

  lemma ActOk(w: World, a: Action)
    requires Inv(w)
    ensures Inv(Act(w, a)) && Allowed(w.store, Act(w, a).store)
  {
    match a
    case Reconcile(o) => StepOk(w, o);
    case _ =>
  }

  lemma {:induction false} RunOk(actions: seq<Action>)
    ensures Inv(Run(START, actions))
  {
    if actions != [] {
      RunOk(actions[..|actions| - 1]);
      ActOk(Run(START, actions[..|actions| - 1]), actions[|actions| - 1]);
    }
  }

  /** This incarnation, as long as it lives, keeps a decided phase and a set expiration. */
  predicate Keeps(s: Store, uid: nat, phase: Phase, expiration: Option<Time>) {
    && uid <= s.rev
    && (s.record.Some? && s.record.value.uid == uid ==>
          && s.record.value.status.phase == phase
          && (expiration.Some? ==> s.record.value.status.expiration == expiration))
  }

  lemma ActKeeps(w: World, a: Action, uid: nat, phase: Phase, expiration: Option<Time>)
    requires Allowed(w.store, Act(w, a).store)
    requires Decided(phase) && Keeps(w.store, uid, phase, expiration)
    ensures Keeps(Act(w, a).store, uid, phase, expiration)
  {
  }

  lemma {:induction false} RunKeeps(w: World, actions: seq<Action>, uid: nat, phase: Phase, expiration: Option<Time>)
    requires Inv(w) && Decided(phase) && Keeps(w.store, uid, phase, expiration)
    ensures Inv(Run(w, actions)) && Keeps(Run(w, actions).store, uid, phase, expiration)
  {
    hide Inv, Act, Keeps, Allowed;
    if actions != [] {
      var n := |actions| - 1;
      RunKeeps(w, actions[..n], uid, phase, expiration);
      ActOk(Run(w, actions[..n]), actions[n]);
      ActKeeps(Run(w, actions[..n]), actions[n], uid, phase, expiration);
    }
  }

  /** Once Completed or Failed is persisted it never changes while the record lives, whatever fails and
      whoever else acts; and some earlier pass saw a latest Job that had succeeded (or, for Failed, had
      failed without succeeding). */
  lemma VerdictsAbsorbing(early: seq<Action>, later: seq<Action>)
    requires var (s1, s2) := (Run(START, early).store, Run(Run(START, early), later).store);
             && s1.record.Some? && Decided(s1.record.value.status.phase)
             && s2.record.Some? && s2.record.value.uid == s1.record.value.uid
    ensures var (w1, s2) := (Run(START, early), Run(Run(START, early), later).store);
            && s2.record.value.status.phase == w1.store.record.value.status.phase
            && Witnessed(w1.history, w1.store.record.value.uid, s2.record.value.status.phase)
  {
    RunOk(early);
    var w1 := Run(START, early);
    var rec := w1.store.record.value;
    RunKeeps(w1, later, rec.uid, rec.status.phase, None);
  }

  /** A persisted expiration time belongs to a Completed record, is the start time plus the retention age
      some pass had read together with a succeeded Job, and never changes. */
  lemma ExpirationJustifiedAndFixed(early: seq<Action>, later: seq<Action>)
    requires var (s1, s2) := (Run(START, early).store, Run(Run(START, early), later).store);
             && s1.record.Some? && s1.record.value.status.expiration.Some?
             && s2.record.Some? && s2.record.value.uid == s1.record.value.uid
    ensures var (w1, s2) := (Run(START, early), Run(Run(START, early), later).store);
            var e := w1.store.record.value.status.expiration;
            && s2.record.value.status.expiration == e
            && s2.record.value.status.phase == Completed
            && ExpirationWitnessed(w1.history, w1.store.record.value.uid, e.value)
  {
    RunOk(early);
    var w1 := Run(START, early);
    var rec := w1.store.record.value;
    RunKeeps(w1, later, rec.uid, rec.status.phase, rec.status.expiration);
  }

  /** Success is only reached from "Pending", on a record that is already Completed. */
  lemma SuccessOnlyFromPending(actions: seq<Action>, a: Action)
    requires var (s, s') := (Run(START, actions).store, Act(Run(START, actions), a).store);
             && s.record.Some? && s'.record.Some? && s'.record.value.uid == s.record.value.uid
             && s.record.value.status.verification.result != Success
             && s'.record.value.status.verification.result == Success
    ensures var status := Run(START, actions).store.record.value.status;
            status.verification.result == Awaiting && status.phase == Completed
  {
    RunOk(actions);
    ActOk(Run(START, actions), a);
  }

  /** No controller call changes the stored spec of the record; in particular the completion time it
      computes is never persisted. */
  lemma CompletionTimeNeverPersisted(w: World, o: Outcome)
    ensures var (before, after) := (w.store.record, Act(w, Reconcile(o)).store.record);
            && (before.Some? <==> after.Some?)
            && (before.Some? ==>
                  (after.value.uid, after.value.taskName, after.value.taskUid,
                   after.value.start, after.value.completion) ==
                  (before.value.uid, before.value.taskName, before.value.taskUid,
                   before.value.start, before.value.completion))
  {
  }

  /** The verdict does not depend on the order in which Jobs with distinct creation times are listed. */
  lemma VerdictIgnoresOrder(jobs: seq<Job>, permuted: seq<Job>, taskName: string, taskUid: string)
    requires DistinctTimes(jobs, taskName, taskUid) && multiset(jobs) == multiset(permuted)
    ensures VerdictOf(Select(permuted, taskName, taskUid)) == VerdictOf(Select(jobs, taskName, taskUid))
  {
    SelectEmptyIff(jobs, taskName, taskUid);
    SelectEmptyIff(permuted, taskName, taskUid);
    SameJobs(jobs, permuted, taskName, taskUid);
    if Select(jobs, taskName, taskUid) != [] {
      var i := LatestOfSelected(jobs, taskName, taskUid);
      var j := LatestIgnoresOrder(jobs, permuted, taskName, taskUid, i);
      var m := LatestOfSelected(permuted, taskName, taskUid);
      LatestForUnique(permuted, taskName, taskUid, j, m);
    }
  }

  lemma SameJobs(jobs: seq<Job>, permuted: seq<Job>, taskName: string, taskUid: string)
    requires multiset(jobs) == multiset(permuted)
    ensures HasJob(jobs, taskName, taskUid) <==> HasJob(permuted, taskName, taskUid)
  {
    hide Selected;
    if i :| 0 <= i < |jobs| && Selected(jobs[i], taskName, taskUid) {
      assert jobs[i] in multiset(permuted);
    }
    if i :| 0 <= i < |permuted| && Selected(permuted[i], taskName, taskUid) {
      assert permuted[i] in multiset(jobs);
    }
  }
}
