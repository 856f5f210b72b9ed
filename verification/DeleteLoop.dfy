/** The delete loop of the retention policy: what is left of the records, and what the history count says. */
module DeleteLoop {
  import opened Types
  import opened Api
  import opened Reconciler
  import Retention

  /** The selected records whose deletion took effect, call by call. */
  function Effective(pending: seq<Key>, script: seq<Outcome>): set<Key> {
    set i | 0 <= i < |pending| && i < |script| && !script[i].fault.Dropped? :: pending[i]
  }

  lemma EffectiveStep(pending: seq<Key>, script: seq<Outcome>)
    requires pending != [] && script != []
    ensures Effective(pending, script) ==
      (if script[0].fault.Dropped? then {} else {pending[0]}) + Effective(pending[1..], script[1..])
  {
    var rest := Effective(pending[1..], script[1..]);
    forall x | x in Effective(pending, script)
      ensures x in (if script[0].fault.Dropped? then {} else {pending[0]}) + rest
    {
      var i :| 0 <= i < |pending| && i < |script| && !script[i].fault.Dropped? && pending[i] == x;
      if i > 0 {
        assert pending[1..][i - 1] == x && script[1..][i - 1] == script[i];
      }
    }
    forall x | x in rest ensures x in Effective(pending, script) {
      var i :| 0 <= i < |pending[1..]| && i < |script[1..]| && !script[1..][i].fault.Dropped? && pending[1..][i] == x;
      assert pending[i + 1] == x && script[i + 1] == script[1..][i];
    }
  }

  /** Whatever the calls' fates, the loop removes exactly the records whose deletion took effect;
      duplicates in the selection and records that are already gone change nothing. */
  lemma {:induction false} DeleteLoopConserves(s: Store, k: Key, t: Task, pending: seq<Key>, script: seq<Outcome>)
    requires pending != []
    ensures Drive(s, k, DeleteOld(t, pending), script).0 == s.(records := s.records - Effective(pending, script))
    decreases |script|
  {
    hide StepDeleteRecord, Effective;
    if script == [] {
      NothingEffective(pending, script);
      assert s.records - {} == s.records;
    } else {
      EffectiveStep(pending, script);
      DeleteStep(s, pending[0], script[0]);
      var s' := StepDeleteRecord(s, pending[0], script[0]);
      var now := if script[0].fault.Dropped? then {} else {pending[0]};
      if pending[1..] == [] {
        NothingEffective(pending[1..], script[1..]);
      } else {
        DeleteLoopConserves(s', k, t, pending[1..], script[1..]);
      }
      assert s.records - Effective(pending, script) == (s.records - now) - Effective(pending[1..], script[1..]);
    }
  }

  lemma NothingEffective(pending: seq<Key>, script: seq<Outcome>)
    requires pending == [] || script == []
    ensures Effective(pending, script) == {}
  {
  }

  lemma DeleteStep(s: Store, record: Key, o: Outcome)
    ensures StepDeleteRecord(s, record, o) ==
            s.(records := s.records - if o.fault.Dropped? then {} else {record})
  {
    assert s.records - {} == s.records;
    if record !in s.records {
      assert s.records - {record} == s.records;
    }
  }

  /** The records hit by both rules, which the selection lists twice. */
  function HitTwice(items: seq<Retention.Item>, policy: RetentionPolicy, now: Time, n: nat): nat
    requires n <= |items|
  {
    if n == 0 then 0
    else
      var hit := Retention.HitByCount(items, policy, n - 1) && Retention.HitByAge(items, policy, now, n - 1);
      HitTwice(items, policy, now, n - 1) + (if hit then 1 else 0)
  }

  function CountHits(items: seq<Retention.Item>, policy: RetentionPolicy, n: nat): nat
    requires n <= |items|
  {
    if n == 0 then 0 else CountHits(items, policy, n - 1) + if Retention.HitByCount(items, policy, n - 1) then 1 else 0
  }

  lemma {:induction false} CountHitsClosed(items: seq<Retention.Item>, policy: RetentionPolicy, n: nat)
    requires n <= |items| && !Retention.CountPanics(policy)
    ensures CountHits(items, policy, n) ==
      if policy.maxBackupCount.Some? && n > policy.maxBackupCount.value then n - policy.maxBackupCount.value else 0
  {
    if n > 0 {
      CountHitsClosed(items, policy, n - 1);
    }
  }

  lemma {:induction false} AgeHits(items: seq<Retention.Item>, policy: RetentionPolicy, now: Time, n: nat)
    requires n <= |items|
    ensures |Retention.ByAge(items[..n], policy, now)| + Retention.UnexpiredCount(items, policy, now, n) == n
  {
    if n > 0 {
      AgeHits(items, policy, now, n - 1);
      assert items[..n][..n - 1] == items[..n - 1];
    }
  }

  /** Inclusion and exclusion over the two rules. */
  lemma {:induction false} SurvivorCount(items: seq<Retention.Item>, policy: RetentionPolicy, now: Time, n: nat)
    requires n <= |items|
    ensures |Retention.SurvivorsFrom(items, policy, now, n)| ==
      Retention.UnexpiredCount(items, policy, now, n) - CountHits(items, policy, n) + HitTwice(items, policy, now, n)
  {
    if n > 0 {
      SurvivorCount(items, policy, now, n - 1);
    }
  }

  /** len(items) - len(selected) undercounts the survivors by the records hit by both rules. */
  lemma HistoryCountOff(items: seq<Retention.Item>, policy: RetentionPolicy, now: Time)
    requires !Retention.CountPanics(policy)
    ensures |items| - |Retention.Selection(items, policy, now).value| ==
      |Retention.Survivors(items, policy, now)| - HitTwice(items, policy, now, |items|)
  {
    assert items[..|items|] == items;
    AgeHits(items, policy, now, |items|);
    CountHitsClosed(items, policy, |items|);
    SurvivorCount(items, policy, now, |items|);
  }

  ghost predicate NothingHitTwice(items: seq<Retention.Item>, policy: RetentionPolicy, now: Time) {
    forall i :: 0 <= i < |items| ==>
      !(Retention.HitByCount(items, policy, i) && Retention.HitByAge(items, policy, now, i))
  }

  lemma {:induction false} HitTwiceZero(items: seq<Retention.Item>, policy: RetentionPolicy, now: Time, n: nat)
    requires n <= |items|
    ensures HitTwice(items, policy, now, n) == 0 <==>
      forall i :: 0 <= i < n ==> !(Retention.HitByCount(items, policy, i) && Retention.HitByAge(items, policy, now, i))
  {
    if n > 0 {
      HitTwiceZero(items, policy, now, n - 1);
    }
  }

  /** The in-memory BackupHistoryCount is the number of surviving records exactly when no record is hit
      by both rules. */
  lemma HistoryCountExactIff(items: seq<Retention.Item>, policy: RetentionPolicy, now: Time)
    requires !Retention.CountPanics(policy)
    ensures |items| - |Retention.Selection(items, policy, now).value| == |Retention.Survivors(items, policy, now)|
      <==> NothingHitTwice(items, policy, now)
  {
    HistoryCountOff(items, policy, now);
    HitTwiceZero(items, policy, now, |items|);
  }

  /** Three expired records under a count of zero: the history count is -3. */
  lemma HistoryCountNegative(a: Key, b: Key, c: Key)
    ensures var items := [Retention.Item(a, 0), Retention.Item(b, 0), Retention.Item(c, 0)];
            |items| - |Retention.Selection(items, RetentionPolicy(Some(0), Some(0), None), 1).value| == -3
  {
    var items := [Retention.Item(a, 0), Retention.Item(b, 0), Retention.Item(c, 0)];
    var policy := RetentionPolicy(Some(0), Some(0), None);
    HistoryCountOff(items, policy, 1);
    assert HitTwice(items, policy, 1, 0) == 0 && HitTwice(items, policy, 1, 1) == 1;
    assert HitTwice(items, policy, 1, 2) == 2 && HitTwice(items, policy, 1, 3) == 3;
    Retention.SurvivorsBounded(items, policy, 1, 3);
  }

  lemma {:induction false} SurvivorKeys(items: seq<Retention.Item>, policy: RetentionPolicy, now: Time, n: nat)
    requires Retention.DistinctKeys(items) && n <= |items|
    ensures Retention.Keys(Retention.SurvivorsFrom(items, policy, now, n)) ==
      set i | 0 <= i < n && Retention.Survives(items, policy, now, i) :: items[i].key
    ensures |Retention.Keys(Retention.SurvivorsFrom(items, policy, now, n))|
            == |Retention.SurvivorsFrom(items, policy, now, n)|
  {
    if n > 0 {
      SurvivorKeys(items, policy, now, n - 1);
      var (front, all) := (Retention.SurvivorsFrom(items, policy, now, n - 1),
                           Retention.SurvivorsFrom(items, policy, now, n));
      if Retention.Survives(items, policy, now, n - 1) {
        var x := items[n - 1].key;
        assert all == front + [items[n - 1]];
        KeysSnoc(front, items[n - 1]);
        assert x !in Retention.Keys(front);
      }
    } else {
      assert Retention.Keys([]) == {};
    }
  }

  lemma KeysSnoc(front: seq<Retention.Item>, x: Retention.Item)
    ensures Retention.Keys(front + [x]) == Retention.Keys(front) + {x.key}
  {
    var all := front + [x];
    forall k | k in Retention.Keys(front) + {x.key} ensures k in Retention.Keys(all) {
      if k == x.key {
        assert all[|front|].key == k;
      } else {
        var i :| 0 <= i < |front| && front[i].key == k;
        assert all[i].key == k;
      }
    }
  }

  /** When every selected record is deleted, the matching records left are the survivors: the history
      count plus the records hit by both rules. */
  lemma RemainingAfterRetention(records: map<Key, Record>, k: Key, listing: seq<Key>,
      policy: RetentionPolicy, now: Time)
    requires IsListing(records, k, listing) && !Retention.CountPanics(policy)
    ensures var items := Items(records, listing);
            var selected := Retention.Selection(items, policy, now).value;
            && Matching(records - Retention.Keys(selected), k) ==
               Retention.Keys(Retention.Survivors(items, policy, now))
            && |Matching(records - Retention.Keys(selected), k)| ==
               |items| - |selected| + HitTwice(items, policy, now, |items|)
  {
    var items := Items(records, listing);
    var selected := Retention.Selection(items, policy, now).value;
    var left := Matching(records - Retention.Keys(selected), k);
    var kept := Retention.Survivors(items, policy, now);
    HistoryCountOff(items, policy, now);
    SurvivorKeys(items, policy, now, |items|);
    forall x ensures x in left <==> x in Retention.Keys(kept) {
      assert x in Matching(records, k) <==> x in (set y | y in listing);
      if x in listing {
        var i :| 0 <= i < |listing| && listing[i] == x;
        assert items[i].key == x;
        Retention.SelectionExact(items, policy, now, i);
      }
    }
    assert left == Retention.Keys(kept);
  }

  /** The loop itself: when for every selected record some deletion takes effect, duplicates failing or
      not, the matching records then left number the history count plus those hit by both rules. */
  lemma LoopLeavesHistoryCount(s: Store, k: Key, t: Task, listing: seq<Key>,
      policy: RetentionPolicy, now: Time, script: seq<Outcome>)
    requires IsListing(s.records, k, listing) && !Retention.CountPanics(policy)
    requires var selected := Retention.Selection(Items(s.records, listing), policy, now).value;
             selected != [] && Retention.Keys(selected) <= Effective(ItemKeys(selected), script)
    ensures var items := Items(s.records, listing);
            var selected := Retention.Selection(items, policy, now).value;
            |Matching(Drive(s, k, DeleteOld(t, ItemKeys(selected)), script).0.records, k)| ==
            |items| - |selected| + HitTwice(items, policy, now, |items|)
  {
    var selected := Retention.Selection(Items(s.records, listing), policy, now).value;
    var pending := ItemKeys(selected);
    DeleteLoopConserves(s, k, t, pending, script);
    RemainingAfterRetention(s.records, k, listing, policy, now);
    forall x | x in Effective(pending, script) ensures x in Retention.Keys(selected) {
      var i :| 0 <= i < |pending| && pending[i] == x;
      assert selected[i].key == x;
    }
    assert Effective(pending, script) == Retention.Keys(selected);
    hide Drive, Retention.Selection, HitTwice;
  }
}
