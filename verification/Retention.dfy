/** Retention: which BackupRecords of a task are selected for deletion, and what the selection means. */
module Retention {
  import opened Types

  const NANOS_PER_HOUR: int := 3_600_000_000_000
  const TWO_63: int := 0x8000_0000_0000_0000
  const TWO_64: int := 0x1_0000_0000_0000_0000

  /** A BackupRecord as the retention code sees it. */
  datatype Item = Item(key: Key, created: Time)

  /** int64 arithmetic wraps around. */
  function Wrap64(x: int): (r: int)
    ensures -TWO_63 <= r < TWO_63
    ensures -TWO_63 <= x < TWO_63 <==> r == x
  {
    (x + TWO_63) % TWO_64 - TWO_63
  }

  /** time.Duration(days) * 24 * time.Hour, evaluated left to right in int64. */
  function MaxAge(days: int32): int {
    Wrap64(Wrap64(days * 24) * NANOS_PER_HOUR)
  }

  predicate IsExpired(item: Item, days: int32, now: Time) {
    item.created + MaxAge(days) < now
  }

  /** Slicing with a negative bound panics; len(records) always exceeds a negative count. */
  predicate CountPanics(policy: RetentionPolicy) {
    policy.maxBackupCount.Some? && policy.maxBackupCount.value < 0
  }

  function ByCount(items: seq<Item>, policy: RetentionPolicy): seq<Item>
    requires !CountPanics(policy)
  {
    if policy.maxBackupCount.Some? && |items| > policy.maxBackupCount.value
    then items[policy.maxBackupCount.value..]
    else []
  }

  function ExpiredOf(items: seq<Item>, days: int32, now: Time): seq<Item> {
    if items == [] then []
    else
      var front := ExpiredOf(items[..|items| - 1], days, now);
      if IsExpired(items[|items| - 1], days, now) then front + [items[|items| - 1]] else front
  }

  function ByAge(items: seq<Item>, policy: RetentionPolicy, now: Time): seq<Item> {
    if policy.maxAgeDays.Some? then ExpiredOf(items, policy.maxAgeDays.value, now) else []
  }

  /** The records filterRecordsToDelete returns, or None when it panics. */
  function Selection(items: seq<Item>, policy: RetentionPolicy, now: Time): Option<seq<Item>> {
    if CountPanics(policy) then None else Some(ByCount(items, policy) + ByAge(items, policy, now))
  }

  ghost predicate DistinctKeys(items: seq<Item>) {
    forall i, j :: 0 <= i < j < |items| ==> items[i].key != items[j].key
  }

  function Keys(items: seq<Item>): set<Key> {
    set i | 0 <= i < |items| :: items[i].key
  }

  /** The declarative reading of the policy: what keeps the record at position i. */
  predicate HitByCount(items: seq<Item>, policy: RetentionPolicy, i: nat) {
    policy.maxBackupCount.Some? && i >= policy.maxBackupCount.value
  }

  predicate HitByAge(items: seq<Item>, policy: RetentionPolicy, now: Time, i: nat)
    requires i < |items|
  {
    policy.maxAgeDays.Some? && IsExpired(items[i], policy.maxAgeDays.value, now)
  }

  predicate Survives(items: seq<Item>, policy: RetentionPolicy, now: Time, i: nat)
    requires i < |items|
  {
    !HitByCount(items, policy, i) && !HitByAge(items, policy, now, i)
  }

  ghost predicate NewestFirst(items: seq<Item>) {
    forall i, j :: 0 <= i < j < |items| ==> items[i].created >= items[j].created
  }

  /** filterRecordsToDelete, with the loop that appends expired records. */
  method FilterRecordsToDelete(items: seq<Item>, policy: RetentionPolicy, now: Time)
    returns (toDelete: Option<seq<Item>>)
    ensures toDelete == Selection(items, policy, now)
  {
    var selected: seq<Item> := [];
    if policy.maxBackupCount.Some? && |items| > policy.maxBackupCount.value {
      if policy.maxBackupCount.value < 0 {
        return None;
      }
      selected := selected + items[policy.maxBackupCount.value..];
    }
    if policy.maxAgeDays.Some? {
      var days := policy.maxAgeDays.value;
      ghost var byCount := selected;
      for i := 0 to |items|
        invariant selected == byCount + ExpiredOf(items[..i], days, now)
      {
        assert items[..i + 1][..i] == items[..i];
        if IsExpired(items[i], days, now) {
          selected := selected + [items[i]];
        }
      }
      assert items[..|items|] == items;
    }
    assert selected == ByCount(items, policy) + ByAge(items, policy, now);
    return Some(selected);
  }

  lemma {:induction false} ExpiredOfMembers(items: seq<Item>, days: int32, now: Time)
    ensures forall x :: x in ExpiredOf(items, days, now) <==> x in items && IsExpired(x, days, now)
  {
    if items != [] {
      var n := |items| - 1;
      ExpiredOfMembers(items[..n], days, now);
      assert items == items[..n] + [items[n]];
    }
  }

  /** Every selected record is hit by a rule. */
  lemma SelectedIsHit(items: seq<Item>, policy: RetentionPolicy, now: Time, j: nat) returns (i: nat)
    requires !CountPanics(policy) && j < |Selection(items, policy, now).value|
    ensures i < |items| && items[i] == Selection(items, policy, now).value[j] && !Survives(items, policy, now, i)
  {
    var counted := ByCount(items, policy);
    if j < |counted| {
      i := policy.maxBackupCount.value + j;
    } else {
      var x := ByAge(items, policy, now)[j - |counted|];
      ExpiredOfMembers(items, policy.maxAgeDays.value, now);
      assert x in ByAge(items, policy, now);
      i :| 0 <= i < |items| && items[i] == x;
    }
  }

  /** A record survives iff its position is below the count and it is not too old. */
  lemma SelectionExact(items: seq<Item>, policy: RetentionPolicy, now: Time, i: nat)
    requires DistinctKeys(items) && i < |items| && !CountPanics(policy)
    ensures items[i].key in Keys(Selection(items, policy, now).value) <==> !Survives(items, policy, now, i)
  {
    var sel := Selection(items, policy, now).value;
    if items[i].key in Keys(sel) {
      var j :| 0 <= j < |sel| && sel[j].key == items[i].key;
      var m := SelectedIsHit(items, policy, now, j);
      assert m == i;
    }
    if HitByCount(items, policy, i) {
      assert sel[i - policy.maxBackupCount.value] == items[i];
    } else if HitByAge(items, policy, now, i) {
      ExpiredOfMembers(items, policy.maxAgeDays.value, now);
      assert items[i] in ByAge(items, policy, now);
      assert items[i] in sel;
    }
  }

  /** The survivors, in list order. */
  function SurvivorsFrom(items: seq<Item>, policy: RetentionPolicy, now: Time, n: nat): seq<Item>
    requires n <= |items|
  {
    if n == 0 then []
    else
      var front := SurvivorsFrom(items, policy, now, n - 1);
      if Survives(items, policy, now, n - 1) then front + [items[n - 1]] else front
  }

  function Survivors(items: seq<Item>, policy: RetentionPolicy, now: Time): seq<Item> {
    SurvivorsFrom(items, policy, now, |items|)
  }

  function UnexpiredCount(items: seq<Item>, policy: RetentionPolicy, now: Time, n: nat): nat
    requires n <= |items|
  {
    if n == 0 then 0
    else UnexpiredCount(items, policy, now, n - 1) + if HitByAge(items, policy, now, n - 1) then 0 else 1
  }

  function KeptLength(items: seq<Item>, policy: RetentionPolicy, now: Time, n: nat): int
    requires n <= |items|
  {
    var live := UnexpiredCount(items, policy, now, n);
    if policy.maxBackupCount.Some? && policy.maxBackupCount.value < live then policy.maxBackupCount.value else live
  }

  lemma {:induction false} UnexpiredArePrefix(items: seq<Item>, policy: RetentionPolicy, now: Time, n: nat)
    requires NewestFirst(items) && n <= |items|
    ensures UnexpiredCount(items, policy, now, n) <= n
    ensures forall i :: 0 <= i < n ==>
      (HitByAge(items, policy, now, i) <==> i >= UnexpiredCount(items, policy, now, n))
  {
    if n > 0 {
      UnexpiredArePrefix(items, policy, now, n - 1);
      if !HitByAge(items, policy, now, n - 1) {
        assert forall i :: 0 <= i < n ==> items[i].created >= items[n - 1].created;
      }
    }
  }

  lemma {:induction false} SurvivorsArePrefix(items: seq<Item>, policy: RetentionPolicy, now: Time, n: nat)
    requires NewestFirst(items) && n <= |items| && !CountPanics(policy)
    ensures 0 <= KeptLength(items, policy, now, n) <= n
    ensures SurvivorsFrom(items, policy, now, n) == items[..KeptLength(items, policy, now, n)]
  {
    UnexpiredArePrefix(items, policy, now, n);
    if n > 0 {
      UnexpiredArePrefix(items, policy, now, n - 1);
      SurvivorsArePrefix(items, policy, now, n - 1);
      var k := KeptLength(items, policy, now, n - 1);
      if Survives(items, policy, now, n - 1) {
        assert k == n - 1;
        assert items[..n - 1] + [items[n - 1]] == items[..n];
      }
    }
  }

  /** On a newest-first list the survivors are exactly the prefix of length min(count, unexpired). */
  lemma RetentionKeepsNewestPrefix(items: seq<Item>, policy: RetentionPolicy, now: Time)
    requires NewestFirst(items) && !CountPanics(policy)
    ensures 0 <= KeptLength(items, policy, now, |items|) <= |items|
    ensures Survivors(items, policy, now) == items[..KeptLength(items, policy, now, |items|)]
  {
    SurvivorsArePrefix(items, policy, now, |items|);
  }

  /** No deleted record is strictly newer than a kept one. */
  ghost predicate KeepsNewest(items: seq<Item>, policy: RetentionPolicy, now: Time) {
    forall i, j :: 0 <= i < |items| && 0 <= j < |items|
      && Survives(items, policy, now, i) && !Survives(items, policy, now, j)
      ==> items[j].created <= items[i].created
  }

  /** The list order the count rule relies on: across the cut, live records do not get newer. */
  ghost predicate OrderedAtCut(items: seq<Item>, policy: RetentionPolicy, now: Time) {
    policy.maxBackupCount.Some? ==>
      forall i, j :: 0 <= i < policy.maxBackupCount.value <= j < |items|
        && !HitByAge(items, policy, now, i) && !HitByAge(items, policy, now, j)
        ==> items[j].created <= items[i].created
  }

  /** The list is used in the order it arrives (the sort the comment announces is missing), so the
      newest records are kept exactly when the listing is ordered across the cut. */
  lemma KeepsNewestIffOrderedAtCut(items: seq<Item>, policy: RetentionPolicy, now: Time)
    requires !CountPanics(policy)
    ensures KeepsNewest(items, policy, now) <==> OrderedAtCut(items, policy, now)
  {
    if KeepsNewest(items, policy, now) && policy.maxBackupCount.Some? {
      forall i, j | 0 <= i < policy.maxBackupCount.value <= j < |items|
          && !HitByAge(items, policy, now, i) && !HitByAge(items, policy, now, j)
        ensures items[j].created <= items[i].created
      {
        assert Survives(items, policy, now, i) && !Survives(items, policy, now, j);
      }
    }
    if OrderedAtCut(items, policy, now) {
      forall i, j | 0 <= i < |items| && 0 <= j < |items|
      && Survives(items, policy, now, i) && !Survives(items, policy, now, j)
        ensures items[j].created <= items[i].created
      {
        if !HitByAge(items, policy, now, j) {
          assert policy.maxBackupCount.Some? && i < policy.maxBackupCount.value <= j;
        }
      }
    }
  }

  /** The records the age rule spares are listed newest first, as far as a count can tell their positions. */
  ghost predicate UnexpiredNewestFirst(items: seq<Item>, policy: RetentionPolicy, now: Time) {
    forall i, j :: 0 <= i < j < |items| && i < 0x7fff_ffff
      && !HitByAge(items, policy, now, i) && !HitByAge(items, policy, now, j)
      ==> items[j].created <= items[i].created
  }

  function WithCount(policy: RetentionPolicy, count: int32): RetentionPolicy {
    policy.(maxBackupCount := Some(count))
  }

  /** Whatever count the policy may name, the newest records are kept: exactly when the missing sort would
      have changed nothing among the records the age rule spares. */
  lemma KeepsNewestForEveryCountIff(items: seq<Item>, policy: RetentionPolicy, now: Time)
    ensures (forall count: int32 :: count >= 0 ==> KeepsNewest(items, WithCount(policy, count), now))
      <==> UnexpiredNewestFirst(items, policy, now)
  {
    if forall count: int32 :: count >= 0 ==> KeepsNewest(items, WithCount(policy, count), now) {
      forall i, j | 0 <= i < j < |items| && i < 0x7fff_ffff
          && !HitByAge(items, policy, now, i) && !HitByAge(items, policy, now, j)
        ensures items[j].created <= items[i].created
      {
        var cut := WithCount(policy, i + 1);
        assert KeepsNewest(items, cut, now);
        assert Survives(items, cut, now, i) && !Survives(items, cut, now, j);
      }
    }
    if UnexpiredNewestFirst(items, policy, now) {
      forall count: int32 | count >= 0 ensures KeepsNewest(items, WithCount(policy, count), now) {
        var cut := WithCount(policy, count);
        forall i, j | 0 <= i < |items| && 0 <= j < |items|
            && Survives(items, cut, now, i) && !Survives(items, cut, now, j)
          ensures items[j].created <= items[i].created
        {
          if HitByAge(items, cut, now, j) {
            assert items[j].created + MaxAge(policy.maxAgeDays.value) < now;
          } else {
            assert i < count <= j;
            assert !HitByAge(items, policy, now, i) && !HitByAge(items, policy, now, j);
          }
        }
      }
    }
  }

  /** Two records listed oldest first under a count of one: the newer one is deleted. */
  lemma OldestFirstDeletesNewest(older: Key, newer: Key)
    requires older != newer
    ensures var items := [Item(older, 0), Item(newer, 1)];
            Selection(items, RetentionPolicy(None, Some(1), None), 2) == Some([Item(newer, 1)])
            && !KeepsNewest(items, RetentionPolicy(None, Some(1), None), 2)
  {
    var items := [Item(older, 0), Item(newer, 1)];
    var policy := RetentionPolicy(None, Some(1), None);
    assert ByCount(items, policy) + ByAge(items, policy, 2) == [Item(newer, 1)];
    assert Survives(items, policy, 2, 0) && !Survives(items, policy, 2, 1);
  }

  /** Run again on its own survivors at the same instant, the policy selects nothing. */
  lemma RetentionIdempotent(items: seq<Item>, policy: RetentionPolicy, now: Time)
    requires !CountPanics(policy)
    ensures Selection(Survivors(items, policy, now), policy, now) == Some([])
  {
    var kept := Survivors(items, policy, now);
    var aged := ByAge(kept, policy, now);
    if |aged| > 0 {
      var x := aged[0];
      assert x in aged;
      ExpiredOfMembers(kept, policy.maxAgeDays.value, now);
      SurvivorsBounded(items, policy, now, |items|);
    }
    SurvivorsBounded(items, policy, now, |items|);
    assert ByCount(kept, policy) + aged == [];
  }

  lemma {:induction false} SurvivorsBounded(items: seq<Item>, policy: RetentionPolicy, now: Time, n: nat)
    requires n <= |items| && !CountPanics(policy)
    ensures |SurvivorsFrom(items, policy, now, n)| <= n
    ensures policy.maxBackupCount.Some? ==> |SurvivorsFrom(items, policy, now, n)| <= policy.maxBackupCount.value
    ensures policy.maxAgeDays.Some? ==>
      forall x :: x in SurvivorsFrom(items, policy, now, n) ==> !IsExpired(x, policy.maxAgeDays.value, now)
  {
    if n > 0 {
      SurvivorsBounded(items, policy, now, n - 1);
    }
  }

  /** p is at least as strict as q: it keeps no more records and no older ones. */
  predicate Stricter(p: RetentionPolicy, q: RetentionPolicy) {
    && (q.maxBackupCount.Some? ==> p.maxBackupCount.Some? && p.maxBackupCount.value <= q.maxBackupCount.value)
    && (q.maxAgeDays.Some? ==> p.maxAgeDays.Some? && MaxAge(p.maxAgeDays.value) <= MaxAge(q.maxAgeDays.value))
  }

  /** A stricter policy or a later clock selects a superset. */
  lemma RetentionMonotone(items: seq<Item>, p: RetentionPolicy, q: RetentionPolicy, now: Time, later: Time)
    requires DistinctKeys(items) && !CountPanics(p) && !CountPanics(q)
    requires Stricter(p, q) && now <= later
    ensures Keys(Selection(items, q, now).value) <= Keys(Selection(items, p, later).value)
  {
    var selected := Selection(items, q, now).value;
    forall k | k in Keys(selected)
      ensures k in Keys(Selection(items, p, later).value)
    {
      var j :| 0 <= j < |selected| && selected[j].key == k;
      if q.maxAgeDays.Some? {
        ExpiredOfMembers(items, q.maxAgeDays.value, now);
      }
      if j >= |ByCount(items, q)| {
        assert selected[j] in ByAge(items, q, now);
      }
      assert selected[j] in items;
      var i :| 0 <= i < |items| && items[i] == selected[j];
      SelectionExact(items, q, now, i);
      SelectionExact(items, p, later, i);
    }
  }

  /** The product is exact in int64 exactly up to 106751 days. */
  lemma AgeExactIff(days: int32)
    ensures MaxAge(days) == days * 24 * NANOS_PER_HOUR <==> -106751 <= days <= 106751
  {
    assert Wrap64(days * 24) == days * 24;
  }

  function ByDays(days: int32): RetentionPolicy { RetentionPolicy(Some(days), None, None) }

  /** Changing the number of days from e to d enlarges every selection exactly when the age does not grow. */
  lemma AgeRuleMonotoneIff(d: int32, e: int32)
    ensures (forall items, now | DistinctKeys(items) ::
               Keys(Selection(items, ByDays(e), now).value) <= Keys(Selection(items, ByDays(d), now).value))
      <==> MaxAge(d) <= MaxAge(e)
  {
    hide MaxAge;
    if MaxAge(d) <= MaxAge(e) {
      forall items, now | DistinctKeys(items)
        ensures Keys(Selection(items, ByDays(e), now).value) <= Keys(Selection(items, ByDays(d), now).value)
      {
        RetentionMonotone(items, ByDays(d), ByDays(e), now, now);
      }
    } else {
      var item := Item(Key("", ""), 0);
      var items, now := [item], MaxAge(d);
      OneItem(item, d, now);
      OneItem(item, e, now);
      assert DistinctKeys(items);
      assert item.key in Keys(Selection(items, ByDays(e), now).value);
      assert item.key !in Keys(Selection(items, ByDays(d), now).value);
    }
  }

  lemma OneItem(item: Item, days: int32, now: Time)
    ensures item.key in Keys(Selection([item], ByDays(days), now).value) <==> item.created + MaxAge(days) < now
  {
    SelectionExact([item], ByDays(days), now, 0);
  }

  /** In days, within the exact range: lowering MaxAgeDays only enlarges the selection, raising it never does
      for all lists. */
  lemma DaysMonotoneIff(d: int32, e: int32)
    requires -106751 <= d <= 106751 && -106751 <= e <= 106751
    ensures (forall items, now | DistinctKeys(items) ::
               Keys(Selection(items, ByDays(e), now).value) <= Keys(Selection(items, ByDays(d), now).value))
      <==> d <= e
  {
    AgeRuleMonotoneIff(d, e);
    AgeExactIff(d);
    AgeExactIff(e);
    hide Selection, Keys, DistinctKeys;
  }

  /** Outside it the days mislead: 106752 days delete what one day spares. */
  lemma MoreDaysCanDeleteMore(key: Key)
    ensures Keys(Selection([Item(key, 0)], ByDays(106752), 1).value) == {key}
    ensures Keys(Selection([Item(key, 0)], ByDays(1), 1).value) == {}
  {
    OneItem(Item(key, 0), 106752, 1);
    OneItem(Item(key, 0), 1, 1);
    forall days: int32, k | k in Keys(Selection([Item(key, 0)], ByDays(days), 1).value) ensures k == key {
      ExpiredOfMembers([Item(key, 0)], days, 1);
      OnlyItem(Item(key, 0), days, 1, k);
    }
  }

  lemma OnlyItem(item: Item, days: int32, now: Time, k: Key)
    requires k in Keys(Selection([item], ByDays(days), now).value)
    ensures k == item.key
  {
    var selected := Selection([item], ByDays(days), now).value;
    var j :| 0 <= j < |selected| && selected[j].key == k;
    var _ := SelectedIsHit([item], ByDays(days), now, j);
  }

  /** Within the exact range more days means a longer life. */
  lemma AgeMonotoneInRange(d: int32, e: int32)
    requires -106751 <= d <= e <= 106751
    ensures MaxAge(d) <= MaxAge(e)
  {
    AgeExactIff(d);
    AgeExactIff(e);
  }

  /** One day more wraps to a negative age: a record created this instant is already expired. */
  lemma AgeOverflowSelectsEverything(key: Key, now: Time)
    ensures MaxAge(106752) < 0
    ensures Selection([Item(key, now)], RetentionPolicy(Some(106752), None, None), now) == Some([Item(key, now)])
  {
    var items := [Item(key, now)];
    assert items[..0] == [];
    assert ExpiredOf(items[..0], 106752, now) == [];
    var policy := RetentionPolicy(Some(106752), None, None);
    assert ByCount(items, policy) + ByAge(items, policy, now) == [Item(key, now)];
  }

  /** What the record controller publishes as the expiration time. */
  function ExpirationTime(start: Time, days: int32): Time {
    start + MaxAge(days)
  }

  /** The age rule never selects a record before its published expiration time. */
  lemma NeverBeforeExpiration(items: seq<Item>, policy: RetentionPolicy, now: Time, item: Item, start: Time)
    requires policy.maxAgeDays.Some? && item in ByAge(items, policy, now)
    requires item.created >= start
    ensures now > ExpirationTime(start, policy.maxAgeDays.value)
  {
    ExpiredOfMembers(items, policy.maxAgeDays.value, now);
  }
}
