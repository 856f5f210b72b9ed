/** The Jobs of a backup and the latest among them. */
module Jobs {
  import opened Types

  datatype Job = Job(labels: map<string, string>, created: Time, succeeded: int32, failed: int32)

  predicate Selected(job: Job, taskName: string, taskUid: string) {
    && BACKUP_TASK_LABEL in job.labels && job.labels[BACKUP_TASK_LABEL] == taskName
    && BACKUP_TASK_UID_LABEL in job.labels && job.labels[BACKUP_TASK_UID_LABEL] == taskUid
  }

  /** The Jobs with both labels, in listing order. */
  function Select(jobs: seq<Job>, taskName: string, taskUid: string): seq<Job> {
    if jobs == [] then []
    else
      var (front, last) := (jobs[..|jobs| - 1], jobs[|jobs| - 1]);
      Select(front, taskName, taskUid) + if Selected(last, taskName, taskUid) then [last] else []
  }

  /** The first Job with the latest creation time. */
  ghost predicate IsLatest(jobs: seq<Job>, i: nat) {
    && i < |jobs|
    && (forall j :: 0 <= j < |jobs| ==> jobs[j].created <= jobs[i].created)
    && (forall j :: 0 <= j < i ==> jobs[j].created < jobs[i].created)
  }

  function LatestIndex(jobs: seq<Job>): (i: nat)
    requires jobs != []
    ensures IsLatest(jobs, i)
  {
    if |jobs| == 1 then 0
    else
      var front := jobs[..|jobs| - 1];
      var i := LatestIndex(front);
      assert forall j :: 0 <= j < |front| ==> front[j] == jobs[j];
      if jobs[|jobs| - 1].created > jobs[i].created then |jobs| - 1 else i
  }

  function Latest(jobs: seq<Job>): Job
    requires jobs != []
  {
    jobs[LatestIndex(jobs)]
  }

  lemma LatestUnique(jobs: seq<Job>, i: nat, j: nat)
    requires IsLatest(jobs, i) && IsLatest(jobs, j)
    ensures i == j
  {
    var (a, b) := (jobs[i], jobs[j]);
    assert a.created == b.created;
  }

  /** Position i holds the Job that counts for a record: the first with the latest creation time among those
      that carry both labels. */
  ghost predicate IsLatestFor(jobs: seq<Job>, taskName: string, taskUid: string, i: nat) {
    && i < |jobs| && Selected(jobs[i], taskName, taskUid)
    && (forall j :: 0 <= j < |jobs| && Selected(jobs[j], taskName, taskUid) ==> jobs[j].created <= jobs[i].created)
    && (forall j :: 0 <= j < i && Selected(jobs[j], taskName, taskUid) ==> jobs[j].created < jobs[i].created)
  }

  ghost predicate HasJob(jobs: seq<Job>, taskName: string, taskUid: string) {
    exists i :: 0 <= i < |jobs| && Selected(jobs[i], taskName, taskUid)
  }

  ghost predicate LatestSucceeded(jobs: seq<Job>, taskName: string, taskUid: string) {
    exists i :: 0 <= i < |jobs| && IsLatestFor(jobs, taskName, taskUid, i) && jobs[i].succeeded > 0
  }

  ghost predicate LatestFailed(jobs: seq<Job>, taskName: string, taskUid: string) {
    exists i ::
      0 <= i < |jobs| && IsLatestFor(jobs, taskName, taskUid, i) && jobs[i].succeeded <= 0 && jobs[i].failed > 0
  }

  lemma {:induction false} SelectEmptyIff(jobs: seq<Job>, taskName: string, taskUid: string)
    ensures Select(jobs, taskName, taskUid) == [] <==> !HasJob(jobs, taskName, taskUid)
  {
    if jobs != [] {
      var front := jobs[..|jobs| - 1];
      SelectEmptyIff(front, taskName, taskUid);
      assert forall j :: 0 <= j < |front| ==> front[j] == jobs[j];
    }
  }

  /** The latest of the selected Jobs, found among all of them. */
  lemma {:induction false} LatestOfSelected(jobs: seq<Job>, taskName: string, taskUid: string) returns (i: nat)
    requires Select(jobs, taskName, taskUid) != []
    ensures IsLatestFor(jobs, taskName, taskUid, i)
    ensures jobs[i] == Latest(Select(jobs, taskName, taskUid))
  {
    hide Selected;
    var (n, all) := (|jobs| - 1, Select(jobs, taskName, taskUid));
    var (last, front) := (jobs[n], Select(jobs[..n], taskName, taskUid));
    SelectEmptyIff(jobs[..n], taskName, taskUid);
    assert forall j :: 0 <= j < n ==> jobs[..n][j] == jobs[j];
    if front == [] {
      i := n;
      assert all == [last] && LatestIndex(all) == 0;
    } else {
      i := LatestOfSelected(jobs[..n], taskName, taskUid);
      var at := LatestIndex(front);
      if Selected(last, taskName, taskUid) {
        assert all == front + [last];
        var best := if last.created > front[at].created then |front| else at;
        LatestUnique(all, best, LatestIndex(all));
        i := if last.created > front[at].created then n else i;
      } else {
        assert all == front;
      }
    }
  }

  lemma LatestForUnique(jobs: seq<Job>, taskName: string, taskUid: string, i: nat, j: nat)
    requires IsLatestFor(jobs, taskName, taskUid, i) && IsLatestFor(jobs, taskName, taskUid, j)
    ensures i == j
  {
    var (a, b) := (jobs[i], jobs[j]);
    assert a.created == b.created;
  }

  /** The loop over the listed Jobs. */
  method FindLatest(jobs: seq<Job>) returns (latest: Option<Job>)
    ensures latest == if jobs == [] then None else Some(Latest(jobs))
  {
    latest := None;
    ghost var at := 0;
    for i := 0 to |jobs|
      invariant i == 0 ==> latest == None
      invariant i > 0 ==> IsLatest(jobs[..i], at) && latest == Some(jobs[at])
    {
      if latest.None? || jobs[i].created > latest.value.created {
        latest := Some(jobs[i]);
        at := i;
      }
    }
    if jobs != [] {
      assert jobs[..|jobs|] == jobs;
      LatestUnique(jobs, at, LatestIndex(jobs));
    }
  }

  /** No two of the record's Jobs were created at the same instant. */
  ghost predicate DistinctTimes(jobs: seq<Job>, taskName: string, taskUid: string) {
    forall i, j :: 0 <= i < j < |jobs| && Selected(jobs[i], taskName, taskUid) && Selected(jobs[j], taskName, taskUid)
      ==> jobs[i].created != jobs[j].created
  }

  lemma {:induction false} FirstOccurrence(jobs: seq<Job>, x: Job) returns (j: nat)
    requires x in jobs
    ensures j < |jobs| && jobs[j] == x && x !in jobs[..j]
  {
    j := |jobs| - 1;
    if x in jobs[..j] {
      var front := jobs[..j];
      j := FirstOccurrence(front, x);
      assert front[..j] == jobs[..j];
    }
  }

  /** Jobs with distinct creation times may be listed in any order: the same Job counts. */
  lemma LatestIgnoresOrder(jobs: seq<Job>, permuted: seq<Job>, taskName: string, taskUid: string, i: nat)
    returns (j: nat)
    requires DistinctTimes(jobs, taskName, taskUid) && multiset(jobs) == multiset(permuted)
    requires IsLatestFor(jobs, taskName, taskUid, i)
    ensures IsLatestFor(permuted, taskName, taskUid, j) && permuted[j] == jobs[i]
  {
    assert jobs[i] in multiset(permuted);
    j := FirstOccurrence(permuted, jobs[i]);
    forall n | 0 <= n < |permuted| && Selected(permuted[n], taskName, taskUid)
      ensures permuted[n].created <= jobs[i].created
      ensures n < j ==> permuted[n].created < jobs[i].created
    {
      assert permuted[n] in multiset(jobs);
      var m :| 0 <= m < |jobs| && jobs[m] == permuted[n];
      if n < j {
        assert permuted[..j][n] == permuted[n];
      }
    }
  }
}
