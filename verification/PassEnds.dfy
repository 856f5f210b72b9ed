/** How a pass ends: how many calls it takes at most, when it comes to apply the retention policy, and which
    records a complete pass then leaves. */
module PassEnds {
  import opened Types
  import opened Api
  import opened Reconciler
  import opened FinalizerSafety
  import opened Convergence
  import opened DeleteLoop
  import Retention

  // ---- every answered pass ends ----

  /** Every call of the pass, as far as the script goes, is answered, and listings are complete. */
  predicate CleanScript(s: Store, k: Key, pc: Pc, script: seq<Outcome>)
    decreases |script|
  {
    script == []
    || (&& CleanOutcome(s, k, pc, script[0])
        && var (s', pc') := Step(s, k, pc, script[0]);
           pc'.Idle? || CleanScript(s', k, pc', script[1..]))
  }

  /** The calls a pass still needs at most. The policy may select every matching record twice. */
  function CallsLeft(s: Store, k: Key, pc: Pc): nat {
    var m := |Matching(s.records, k)|;
    match pc
    case Idle => 10 + 2 * m
    case AddFinalizer(_) => 9 + 2 * m
    case CreateTargets(_) => 8 + 2 * m
    case UpdateTargets(_) => 7 + 2 * m
    case GetCron(_) => 6 + 2 * m
    case CreateCronJob(_) => 5 + 2 * m
    case UpdateCronJob(_, _) => 5 + 2 * m
    case GetLatest(_, _) => 4 + 2 * m
    case WriteStatus(_, _, _) => 3 + 2 * m
    case ListRecords(_) => 2 + 2 * m
    case DeleteOld(_, pending) => 1 + |pending|
    case DeleteCronJob(_) => 4 + m
    case ListOwned(_) => 3 + m
    case DeleteOwned(_, pending) => 2 + |pending|
    case RemoveFinalizer(_) => 1
  }

  lemma {:induction false} ListingLength(listing: seq<Key>, keys: set<Key>)
    requires forall i, j :: 0 <= i < j < |listing| ==> listing[i] != listing[j]
    requires (set r | r in listing) == keys
    ensures |listing| == |keys|
  {
    if listing == [] {
      assert keys == {};
    } else {
      var n := |listing| - 1;
      var front := set r | r in listing[..n];
      assert listing == listing[..n] + [listing[n]];
      assert listing[n] !in listing[..n];
      assert front == keys - {listing[n]};
      ListingLength(listing[..n], front);
    }
  }

  lemma {:induction false} ExpiredLength(items: seq<Retention.Item>, days: int32, now: Time)
    ensures |Retention.ExpiredOf(items, days, now)| <= |items|
  {
    if items != [] {
      ExpiredLength(items[..|items| - 1], days, now);
    }
  }

  lemma SelectionLength(items: seq<Retention.Item>, policy: RetentionPolicy, now: Time)
    requires !Retention.CountPanics(policy)
    ensures |Retention.Selection(items, policy, now).value| <= 2 * |items|
  {
    if policy.maxAgeDays.Some? {
      ExpiredLength(items, policy.maxAgeDays.value, now);
    }
  }

  lemma ListingShortens(s: Store, k: Key, pc: Pc, o: Outcome)
    requires (pc.ListRecords? || pc.ListOwned?) && CleanOutcome(s, k, pc, o)
    ensures var (s', pc') := Step(s, k, pc, o); pc'.Idle? || CallsLeft(s', k, pc') < CallsLeft(s, k, pc)
  {
    ListingLength(o.listing, Matching(s.records, k));
    hide Matching;
    if pc.ListRecords? && pc.task.spec.retention.Some? {
      var policy := pc.task.spec.retention.value;
      if !Retention.CountPanics(policy) {
        SelectionLength(Items(s.records, o.listing), policy, o.now);
      }
      hide Retention.Selection;
    }
  }

  lemma OtherShortens(s: Store, k: Key, pc: Pc, o: Outcome)
    requires !pc.ListRecords? && !pc.ListOwned?
    ensures var (s', pc') := Step(s, k, pc, o); pc'.Idle? || CallsLeft(s', k, pc') < CallsLeft(s, k, pc)
  {
    StepRecords(s, k, pc, o);
    hide CronKey, TargetsKey, BuildCronJobSpec, TargetsConfigMap, TaskLabels, StatusFor, Matching;
  }

  /** Every pass whose calls are all answered comes to its end within the bound, from any store and any point,
      whatever the clock shows and in whatever order the records are listed. */
  lemma {:induction false} EveryAnsweredPassEnds(s: Store, k: Key, pc: Pc, script: seq<Outcome>)
    requires CleanScript(s, k, pc, script) && |script| >= CallsLeft(s, k, pc)
    ensures Complete(s, k, pc, script)
    decreases |script|
  {
    hide Step, CallsLeft, CleanOutcome;
    CallsLeftPositive(s, k, pc);
    if pc.ListRecords? || pc.ListOwned? {
      ListingShortens(s, k, pc, script[0]);
    } else {
      OtherShortens(s, k, pc, script[0]);
    }
    var (s', pc') := Step(s, k, pc, script[0]);
    if !pc'.Idle? {
      EveryAnsweredPassEnds(s', k, pc', script[1..]);
    }
  }

  lemma CallsLeftPositive(s: Store, k: Key, pc: Pc)
    ensures CallsLeft(s, k, pc) > 0
  {
  }

  lemma {:induction false} Enumerate(keys: set<Key>) returns (listing: seq<Key>)
    ensures forall i, j :: 0 <= i < j < |listing| ==> listing[i] != listing[j]
    ensures (set k | k in listing) == keys
  {
    if keys == {} {
      listing := [];
    } else {
      var k :| k in keys;
      var rest := Enumerate(keys - {k});
      listing := [k] + rest;
      forall x ensures x in (set y | y in listing) <==> x in keys {
        assert x in (set y | y in rest) <==> x in keys - {k};
        assert x in listing <==> x == k || x in rest;
        assert x in (set y | y in listing) <==> x in listing;
      }
      forall i, j | 0 <= i < j < |listing| ensures listing[i] != listing[j] {
        assert listing[j] in (set y | y in rest);
      }
    }
  }

  /** And there is such a script for every store and point, with any clock. */
  lemma {:induction false} AnsweredPassExists(s: Store, k: Key, pc: Pc, now: Time) returns (script: seq<Outcome>)
    ensures Complete(s, k, pc, script)
    decreases CallsLeft(s, k, pc)
  {
    var listing := Enumerate(Matching(s.records, k));
    var o := Outcome(Answered, now, listing);
    assert CleanOutcome(s, k, pc, o);
    hide Step, CleanOutcome, IsListing, CallsLeft;
    if pc.ListRecords? || pc.ListOwned? {
      ListingShortens(s, k, pc, o);
    } else {
      OtherShortens(s, k, pc, o);
    }
    var (s', pc') := Step(s, k, pc, o);
    if pc'.Idle? {
      script := [o];
    } else {
      var rest := AnsweredPassExists(s', k, pc', now);
      script := [o] + rest;
      assert script[1..] == rest;
    }
  }

  // ---- retention at the end of a pass ----

  /** Where a pass comes to list the records for retention: the store, the task in memory, the script left. */
  function AtRetention(s: Store, k: Key, pc: Pc, script: seq<Outcome>): (at: Option<(Store, Task, seq<Outcome>)>)
    ensures at.Some? ==> at.value.2 != []
    decreases |script|
  {
    if script == [] then None
    else if pc.ListRecords? then Some((s, pc.task, script))
    else
      var (s', pc') := Step(s, k, pc, script[0]);
      if pc'.Idle? then None else AtRetention(s', k, pc', script[1..])
  }

  predicate InDeletion(pc: Pc) { Deletes(pc) || pc.DeleteOld? }

  lemma {:induction false} DeletionNeverRetains(s: Store, k: Key, pc: Pc, script: seq<Outcome>)
    requires InDeletion(pc)
    ensures AtRetention(s, k, pc, script).None?
    decreases |script|
  {
    if script != [] {
      var (s', pc') := Step(s, k, pc, script[0]);
      DeletionStays(s, k, pc, script[0]);
      hide Step;
      if !pc'.Idle? {
        DeletionNeverRetains(s', k, pc', script[1..]);
      }
    }
  }

  lemma DeletionStays(s: Store, k: Key, pc: Pc, o: Outcome)
    requires InDeletion(pc)
    ensures var pc' := Step(s, k, pc, o).1; pc'.Idle? || InDeletion(pc')
  {
    hide CronKey, TargetsKey;
  }

  lemma StepKeepsSpec(s: Store, k: Key, pc: Pc, o: Outcome)
    requires !pc.Idle?
    ensures var pc' := Step(s, k, pc, o).1; pc'.Idle? || pc'.task.spec == pc.task.spec
  {
    hide CronKey, TargetsKey, BuildCronJobSpec, TargetsConfigMap, TaskLabels, StatusFor;
  }

  /** Up to that point no record is touched and the task's spec is the one read at the start. */
  lemma {:induction false} RetentionSplits(s: Store, k: Key, pc: Pc, script: seq<Outcome>)
    requires AtRetention(s, k, pc, script).Some?
    ensures var (s1, t, rest) := AtRetention(s, k, pc, script).value;
            && s1.records == s.records
            && (!pc.Idle? ==> t.spec == pc.task.spec)
            && Drive(s, k, pc, script) == Drive(s1, k, ListRecords(t), rest)
            && (Complete(s, k, pc, script) ==> Complete(s1, k, ListRecords(t), rest))
    decreases |script|
  {
    hide CleanOutcome;
    if !pc.ListRecords? {
      var (s', pc') := Step(s, k, pc, script[0]);
      if InDeletion(pc) {
        DeletionNeverRetains(s, k, pc, script);
      } else {
        StepRecords(s, k, pc, script[0]);
        if !pc.Idle? {
          StepKeepsSpec(s, k, pc, script[0]);
        }
        hide Step;
        RetentionSplits(s', k, pc', script[1..]);
      }
    }
  }

  lemma {:induction false} LoopComplete(s: Store, k: Key, t: Task, pending: seq<Key>, script: seq<Outcome>)
    requires pending != [] && Complete(s, k, DeleteOld(t, pending), script)
    ensures Effective(pending, script) == (set r | r in pending)
    decreases |script|
  {
    EffectiveStep(pending, script);
    assert pending == [pending[0]] + pending[1..];
    if pending[1..] == [] {
      assert Effective(pending[1..], script[1..]) == {};
    } else {
      LoopComplete(StepDeleteRecord(s, pending[0], script[0]), k, t, pending[1..], script[1..]);
    }
  }

  lemma PendingKeys(selected: seq<Retention.Item>)
    ensures (set r | r in ItemKeys(selected)) == Retention.Keys(selected)
  {
    forall r | r in Retention.Keys(selected) ensures r in ItemKeys(selected) {
      var i :| 0 <= i < |selected| && selected[i].key == r;
      assert ItemKeys(selected)[i] == r;
    }
  }

  lemma SelectionExists(items: seq<Retention.Item>, policy: RetentionPolicy, now: Time)
    requires !Retention.CountPanics(policy)
    ensures Retention.Selection(items, policy, now).Some?
  {
  }

  lemma RetentionLeavesSurvivors(s: Store, k: Key, t: Task, script: seq<Outcome>)
    requires Complete(s, k, ListRecords(t), script)
    requires t.spec.retention.Some? && !Retention.CountPanics(t.spec.retention.value)
    ensures IsListing(s.records, k, script[0].listing)
    ensures Matching(Drive(s, k, ListRecords(t), script).0.records, k) ==
            Retention.Keys(Retention.Survivors(Items(s.records, script[0].listing),
              t.spec.retention.value, script[0].now))
  {
    hide Retention.Selection, Matching, Retention.Survivors, Retention.CountPanics, Retention.Keys;
    var (policy, now, items) := (t.spec.retention.value, script[0].now, Items(s.records, script[0].listing));
    SelectionExists(items, policy, now);
    RemainingAfterRetention(s.records, k, script[0].listing, policy, now);
    var selected := Retention.Selection(items, policy, now).value;
    var pending := ItemKeys(selected);
    PendingKeys(selected);
    hide IsListing, ItemKeys;
    if pending == [] {
      assert Retention.Keys(selected) == {};
      assert s.records - Retention.Keys(selected) == s.records;
    } else {
      LoopComplete(s, k, t, pending, script[1..]);
      DeleteLoopConserves(s, k, t, pending, script[1..]);
    }
  }

  /** The CronJob does not stand in the way: it is absent, or the task's own and without an active job. */
  predicate CronReady(s: Store, k: Key) {
    CronKey(k) in s.crons ==>
      !ControllerConflict(k, s.crons[CronKey(k)].controller) && s.crons[CronKey(k)].status.active == []
  }

  /** An undisturbed pass standing here will come to apply retention. */
  predicate WillRetain(s: Store, k: Key, pc: Pc) {
    match pc
    case Idle => k in s.tasks && !s.tasks[k].deleting && s.tasks[k].spec.retention.Some? && CronReady(s, k)
    case AddFinalizer(t) => t.spec.retention.Some? && CronReady(s, k)
    case CreateTargets(t) => t.spec.retention.Some? && CronReady(s, k)
    case UpdateTargets(t) => t.spec.retention.Some? && CronReady(s, k)
    case GetCron(t) => t.spec.retention.Some? && CronReady(s, k)
    case CreateCronJob(t) => t.spec.retention.Some?
    case UpdateCronJob(t, seen) => t.spec.retention.Some? && seen.status.active == []
    case GetLatest(t, cron) => t.spec.retention.Some? && cron.status.active == []
    case WriteStatus(t, cron, _) => t.spec.retention.Some? && cron.status.active == []
    case ListRecords(_) => true
    case _ => false
  }

  /** The call goes on in the same direction, and ends the pass only when retention is not due. */
  ghost predicate SameDirection(s: Store, k: Key, pc: Pc, o: Outcome) {
    var (s', pc') := Step(s, k, pc, o);
    if pc'.Idle? then !WillRetain(s, k, pc) else WillRetain(s', k, pc') == WillRetain(s, k, pc)
  }

  lemma CronCallsSameDirection(s: Store, k: Key, pc: Pc, o: Outcome)
    requires PcOk(s, k, pc) && o.fault.Answered? && (pc.GetCron? || pc.CreateCronJob? || pc.UpdateCronJob?)
    ensures SameDirection(s, k, pc, o)
  {
    hide CronKey, TargetsKey, BuildCronJobSpec, TargetsConfigMap, TaskLabels, StatusFor;
  }

  lemma OtherCallsSameDirection(s: Store, k: Key, pc: Pc, o: Outcome)
    requires PcOk(s, k, pc) && o.fault.Answered? && !InDeletion(pc) && !pc.ListRecords?
    requires !pc.GetCron? && !pc.CreateCronJob? && !pc.UpdateCronJob?
    ensures SameDirection(s, k, pc, o)
  {
    hide CronKey, TargetsKey, BuildCronJobSpec, TargetsConfigMap, TaskLabels, StatusFor, ControllerConflict;
  }

  lemma SameDirectionOfAll(s: Store, k: Key, pc: Pc, o: Outcome)
    requires PcOk(s, k, pc) && o.fault.Answered? && !InDeletion(pc) && !pc.ListRecords?
    ensures SameDirection(s, k, pc, o)
  {
    hide PcOk, SameDirection;
    if pc.GetCron? || pc.CreateCronJob? || pc.UpdateCronJob? {
      CronCallsSameDirection(s, k, pc, o);
    } else {
      OtherCallsSameDirection(s, k, pc, o);
    }
  }

  lemma {:induction false} RetentionReachedIff(s: Store, k: Key, pc: Pc, script: seq<Outcome>)
    requires PcOk(s, k, pc) && Complete(s, k, pc, script)
    ensures AtRetention(s, k, pc, script).Some? <==> WillRetain(s, k, pc)
    decreases |script|
  {
    hide Step, PcOk, Expected, ViewOf, CronReady;
    if InDeletion(pc) {
      DeletionNeverRetains(s, k, pc, script);
    } else if !pc.ListRecords? {
      SameDirectionOfAll(s, k, pc, script[0]);
      StepGood(s, k, pc, script[0]);
      hide WillRetain;
      var (s', pc') := Step(s, k, pc, script[0]);
      if !pc'.Idle? {
        RetentionReachedIff(s', k, pc', script[1..]);
      }
    }
  }

  /** A complete pass applies retention exactly when the task is not being deleted, has a policy, and its
      CronJob is absent or its own and idle. */
  lemma RetentionAppliedIff(s: Store, k: Key, script: seq<Outcome>)
    requires Complete(s, k, Idle, script)
    ensures AtRetention(s, k, Idle, script).Some? <==>
            k in s.tasks && !s.tasks[k].deleting && s.tasks[k].spec.retention.Some? && CronReady(s, k)
  {
    assert PcOk(s, k, Idle);
    RetentionReachedIff(s, k, Idle, script);
    hide AtRetention, Complete, CronReady;
  }

  /** After a complete pass that comes to apply the retention policy, the task's matching records are exactly
      the survivors of the listing taken then, under the policy of the spec read at the start. */
  lemma CompletePassLeavesSurvivors(s: Store, k: Key, script: seq<Outcome>)
    requires k in s.tasks && Complete(s, k, Idle, script) && AtRetention(s, k, Idle, script).Some?
    requires s.tasks[k].spec.retention.Some? && !Retention.CountPanics(s.tasks[k].spec.retention.value)
    ensures var at := AtRetention(s, k, Idle, script).value.2[0];
            && IsListing(s.records, k, at.listing)
            && Matching(Pass(s, k, script).records, k) ==
               Retention.Keys(Retention.Survivors(Items(s.records, at.listing),
                 s.tasks[k].spec.retention.value, at.now))
  {
    var (s1, t, rest) := AtRetention(s, k, Idle, script).value;
    RetentionSplits(s, k, Idle, script);
    var pc' := StepIdle(s, k, script[0]);
    RetentionSplits(s, k, pc', script[1..]);
    hide Step, Complete, Retention.Survivors;
    RetentionLeavesSurvivors(s1, k, t, rest);
  }
}
