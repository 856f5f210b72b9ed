/** Which BackupRecords a pass over their task leaves, record by record on the store: when retention is applied
    and when the task is finalized. */
module RecordsAfterPass {
  import opened Types
  import opened Api
  import opened Reconciler
  import opened FinalizerSafety
  import opened NonInterference
  import opened Convergence
  import opened DeleteLoop
  import opened PassEnds
  import Retention

  // ---- retention ----

  lemma ItemAt(records: map<Key, Record>, k: Key, listing: seq<Key>, i: nat)
    requires IsListing(records, k, listing) && i < |listing|
    ensures listing[i] in Matching(records, k)
    ensures Items(records, listing)[i] == Retention.Item(listing[i], records[listing[i]].created)
    ensures Retention.DistinctKeys(Items(records, listing))
  {
    assert listing[i] in (set r | r in listing);
  }

  lemma {:induction false} DriveOnlyDeletes(s: Store, k: Key, pc: Pc, script: seq<Outcome>)
    requires PendingOwn(s, k, pc)
    ensures var after := Drive(s, k, pc, script).0.records;
            && (forall r :: r in after ==> r in s.records && after[r] == s.records[r])
            && (forall r :: r in s.records && !MatchesTask(r, s.records[r], k) ==> r in after)
    decreases |script|
  {
    if script != [] {
      StepRecords(s, k, pc, script[0]);
      StepKeepsPendingOwn(s, k, pc, script[0]);
      var (s', pc') := Step(s, k, pc, script[0]);
      hide Step, MatchesTask;
      if !pc'.Idle? {
        DriveOnlyDeletes(s', k, pc', script[1..]);
      }
    }
  }

  /** Whatever happens, a pass leaves a record as it is or removes it, and removes only the task's own. */
  lemma PassOnlyDeletes(s: Store, k: Key, script: seq<Outcome>)
    ensures var after := Pass(s, k, script).records;
            && (forall r :: r in after ==> r in s.records && after[r] == s.records[r])
            && (forall r :: r in s.records && !MatchesTask(r, s.records[r], k) ==> r in after)
  {
    DriveOnlyDeletes(s, k, Idle, script);
  }

  /** After a complete pass that applies retention, the record at position i of the listing taken then is still
      stored exactly when its position is below MaxBackupCount, if there is one, and its creation time plus
      MaxAgeDays, if there is one, has not passed; and it is stored as it was. */
  lemma KeptIffWithinLimits(s: Store, k: Key, script: seq<Outcome>, i: nat)
    requires k in s.tasks && Complete(s, k, Idle, script) && AtRetention(s, k, Idle, script).Some?
    requires s.tasks[k].spec.retention.Some? && !Retention.CountPanics(s.tasks[k].spec.retention.value)
    requires i < |AtRetention(s, k, Idle, script).value.2[0].listing|
    ensures var at := AtRetention(s, k, Idle, script).value.2[0];
            var (policy, r) := (s.tasks[k].spec.retention.value, at.listing[i]);
            var after := Pass(s, k, script).records;
            && r in s.records && MatchesTask(r, s.records[r], k)
            && (r in after <==>
                  && (policy.maxBackupCount.Some? ==> i < policy.maxBackupCount.value)
                  && (policy.maxAgeDays.Some? ==>
                        s.records[r].created + Retention.MaxAge(policy.maxAgeDays.value) >= at.now))
            && (r in after ==> after[r] == s.records[r])
  {
    var at := AtRetention(s, k, Idle, script).value.2[0];
    var (policy, items) := (s.tasks[k].spec.retention.value, Items(s.records, at.listing));
    CompletePassLeavesSurvivors(s, k, script);
    PassOnlyDeletes(s, k, script);
    ItemAt(s.records, k, at.listing, i);
    SurvivorKeys(items, policy, at.now, |items|);
    var r := at.listing[i];
    var after := Pass(s, k, script).records;
    assert r in after <==> r in Matching(after, k);
    assert r in Matching(after, k) <==> Retention.Survives(items, policy, at.now, i) by {
      if r in Matching(after, k) {
        var j :| 0 <= j < |items| && Retention.Survives(items, policy, at.now, j) && items[j].key == r;
        assert items[i].key == r;
      }
    }
    hide Pass, AtRetention, Complete, Retention.MaxAge, IsListing;
  }

  // ---- finalization ----

  predicate Finalized(s: Store, k: Key) {
    k !in s.tasks || FINALIZER !in s.tasks[k].finalizers
  }

  /** The task with its finalizer removed at the end of a pass that has left these records. */
  function Released(s: Store, k: Key, t: Task, records: map<Key, Record>): Store {
    StepRemoveFinalizer(s.(records := records), k, t, Outcome(Answered, 0, []))
  }

  lemma ReleasedIsFinalized(s: Store, k: Key, t: Task, records: map<Key, Record>)
    requires k in s.tasks && s.tasks[k] == t
    ensures var after := Released(s, k, t, records);
            Finalized(after, k) && after.records == records && after.crons == s.crons
  {
  }

  /** The deletions of a finalization and the write behind them. */
  lemma {:induction false} OwnedLoop(s: Store, k: Key, t: Task, pending: seq<Key>, script: seq<Outcome>)
    ensures var (n, left) := (|pending|, s.records - Effective(pending, script));
            Drive(s, k, DeletingOwned(t, pending), script).0 ==
            if n < |script| && !script[n].fault.Dropped? then Released(s, k, t, left) else s.(records := left)
    decreases |script|
  {
    hide Effective, StepDeleteRecord, StepRemoveFinalizer;
    if pending == [] || script == [] {
      NothingEffective(pending, script);
      assert s.records - {} == s.records;
      if script != [] {
        RemovalTakesEffect(s, k, t, script[0]);
      }
    } else {
      EffectiveStep(pending, script);
      DeleteStep(s, pending[0], script[0]);
      var s' := StepDeleteRecord(s, pending[0], script[0]);
      var now := if script[0].fault.Dropped? then {} else {pending[0]};
      OwnedLoop(s', k, t, pending[1..], script[1..]);
      assert s.records - Effective(pending, script) == (s.records - now) - Effective(pending[1..], script[1..]);
    }
  }

  lemma RemovalTakesEffect(s: Store, k: Key, t: Task, o: Outcome)
    ensures StepRemoveFinalizer(s, k, t, o) ==
            if o.fault.Dropped? then s else StepRemoveFinalizer(s, k, t, Outcome(Answered, 0, []))
  {
    hide UpdateTask;
  }

  /** The first n calls are answered. */
  predicate Answers(script: seq<Outcome>, n: nat) {
    n <= |script| && forall i :: 0 <= i < n ==> script[i].fault.Answered?
  }

  /** The pass gets as far as the listing of the task's records. */
  predicate ListsOwned(s: Store, k: Key, script: seq<Outcome>) {
    Answers(script, 3) && IsListing(s.records, k, script[2].listing)
  }

  /** The deletion of the CronJob takes effect. */
  predicate DropsCron(script: seq<Outcome>) {
    Answers(script, 1) && |script| > 1 && !script[1].fault.Dropped?
  }

  function WithoutCron(s: Store, k: Key): Store {
    if CronKey(k) in s.crons then RemoveCron(s, CronKey(k)) else s
  }

  lemma DriveStep(s: Store, k: Key, pc: Pc, script: seq<Outcome>)
    ensures script == [] ==> Drive(s, k, pc, script) == (s, pc)
    ensures script != [] ==>
      var (s', pc') := Step(s, k, pc, script[0]);
      Drive(s, k, pc, script) == if pc'.Idle? then (s', Idle) else Drive(s', k, pc', script[1..])
  {
    hide Step;
  }

  /** Up to the listing of the records. */
  lemma FinalizationPrefix(s: Store, k: Key, script: seq<Outcome>)
    requires k in s.tasks && s.tasks[k].deleting && FINALIZER in s.tasks[k].finalizers
    ensures ListsOwned(s, k, script) ==>
      Pass(s, k, script) ==
      Drive(WithoutCron(s, k), k, DeletingOwned(s.tasks[k], script[2].listing), script[3..]).0
    ensures !ListsOwned(s, k, script) ==>
      Pass(s, k, script) == if DropsCron(script) then WithoutCron(s, k) else s
  {
    var t := s.tasks[k];
    DriveStep(s, k, Idle, script);
    if Answers(script, 1) {
      DriveStep(s, k, DeleteCronJob(t), script[1..]);
      if |script| > 1 {
        assert script[1..][1..] == script[2..];
        DriveStep(WithoutCron(s, k), k, ListOwned(t), script[2..]);
        if |script| > 2 {
          assert script[2..][1..] == script[3..];
        }
      }
    }
    hide Drive, CronKey, Without, IsListing;
  }

  /** One pass over a deleted task that still has the finalizer, under any script. The records left are the old
      ones minus exactly the listed ones whose deletion took effect, whether or not it was answered; the finalizer
      goes exactly when both reads and the CronJob's deletion are answered and the write behind the record
      deletions, which are all tried, takes effect. */
  lemma FinalizationExact(s: Store, k: Key, script: seq<Outcome>)
    requires k in s.tasks && s.tasks[k].deleting && FINALIZER in s.tasks[k].finalizers
    ensures var after := Pass(s, k, script);
            && (Finalized(after, k) <==>
                  ListsOwned(s, k, script)
                  && var n := 3 + |script[2].listing|; n < |script| && !script[n].fault.Dropped?)
            && after.records == (if ListsOwned(s, k, script)
                                 then s.records - Effective(script[2].listing, script[3..]) else s.records)
            && (CronKey(k) in after.crons <==> CronKey(k) in s.crons && !DropsCron(script))
  {
    FinalizationPrefix(s, k, script);
    if ListsOwned(s, k, script) {
      var (t, s1, listing) := (s.tasks[k], WithoutCron(s, k), script[2].listing);
      OwnedLoop(s1, k, t, listing, script[3..]);
      ReleasedIsFinalized(s1, k, t, s1.records - Effective(listing, script[3..]));
    }
    hide Pass, Drive, Released, Effective, IsListing, CronKey;
  }

  lemma EffectiveAt(listing: seq<Key>, script: seq<Outcome>, i: nat)
    requires forall a, b :: 0 <= a < b < |listing| ==> listing[a] != listing[b]
    requires i < |listing| < |script|
    ensures listing[i] in Effective(listing, script) <==> !script[i].fault.Dropped?
  {
  }

  /** A finalized task leaves exactly those of its records whose deletion did not take effect: the errors of the
      deletions are swallowed. */
  lemma FinalizedLeavesIff(s: Store, k: Key, script: seq<Outcome>, r: Key)
    requires k in s.tasks && s.tasks[k].deleting && FINALIZER in s.tasks[k].finalizers
    requires Finalized(Pass(s, k, script), k)
    ensures |script| > 2 && |script| > 3 + |script[2].listing|
    ensures r in Matching(Pass(s, k, script).records, k) <==>
            r in Matching(s.records, k)
            && exists i :: 0 <= i < |script[2].listing| && script[2].listing[i] == r && script[3 + i].fault.Dropped?
  {
    FinalizationExact(s, k, script);
    var listing := script[2].listing;
    hide Pass, Effective, Finalized;
    assert r in Matching(s.records, k) <==> r in (set x | x in listing);
    if r in listing {
      var i :| 0 <= i < |listing| && listing[i] == r;
      EffectiveAt(listing, script[3..], i);
      assert script[3..][i] == script[3 + i];
    }
  }

  lemma {:induction false} OwnedLoopComplete(s: Store, k: Key, t: Task, pending: seq<Key>, script: seq<Outcome>)
    requires Complete(s, k, DeletingOwned(t, pending), script)
    ensures |pending| < |script|
    ensures forall i :: 0 <= i <= |pending| ==> script[i].fault.Answered?
    decreases |script|
  {
    if pending != [] {
      var s' := StepDeleteRecord(s, pending[0], script[0]);
      hide StepDeleteRecord;
      OwnedLoopComplete(s', k, t, pending[1..], script[1..]);
      assert forall i :: 0 < i <= |pending| ==> script[i] == script[1..][i - 1];
    }
  }

  lemma CompletePrefix(s: Store, k: Key, script: seq<Outcome>)
    requires k in s.tasks && s.tasks[k].deleting && FINALIZER in s.tasks[k].finalizers
    requires Complete(s, k, Idle, script)
    ensures ListsOwned(s, k, script)
    ensures Complete(WithoutCron(s, k), k, DeletingOwned(s.tasks[k], script[2].listing), script[3..])
  {
    var (t, s1) := (s.tasks[k], WithoutCron(s, k));
    assert Complete(s, k, DeleteCronJob(t), script[1..]);
    assert script[1..][1..] == script[2..];
    assert Complete(s1, k, ListOwned(t), script[2..]);
    assert script[2..][1..] == script[3..];
    assert s1.records == s.records;
    assert Complete(s1, k, DeletingOwned(t, script[2].listing), script[3..]);
    hide CronKey, Without, IsListing;
  }

  /** After a complete pass over a deleted task with the finalizer, the finalizer, the CronJob and every record of
      the task are gone. */
  lemma CompletePassFinalizes(s: Store, k: Key, script: seq<Outcome>)
    requires k in s.tasks && s.tasks[k].deleting && FINALIZER in s.tasks[k].finalizers
    requires Complete(s, k, Idle, script)
    ensures var after := Pass(s, k, script);
            Finalized(after, k) && CronKey(k) !in after.crons && Matching(after.records, k) == {}
  {
    CompletePrefix(s, k, script);
    OwnedLoopComplete(WithoutCron(s, k), k, s.tasks[k], script[2].listing, script[3..]);
    FinalizationExact(s, k, script);
    assert script[3..][|script[2].listing|] == script[3 + |script[2].listing|];
    hide Complete, Pass, Finalized, CronKey, Matching;
    forall r ensures r !in Matching(Pass(s, k, script).records, k) {
      FinalizedLeavesIff(s, k, script, r);
      assert forall i :: 0 <= i < |script[2].listing| ==> script[3 + i] == script[3..][i];
    }
  }
}
