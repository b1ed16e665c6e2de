/** The recovery pass as one instant, and beside posts. */
module Sweep {
  import opened Domain
  import opened Store
  import opened Queue

  /** What a pass over all rows at once would do to one of them. */
  function PassRow(t: Task, olderThan: Time, maxAttempts: int, reason: string, now: Time): Task {
    if !(t.status == InProgress && now - t.updatedAt > olderThan) then t
    else if t.attempts < maxAttempts then t.(status := Pending, updatedAt := now)
    else t.(status := Failed, error := Some(reason), updatedAt := now)
  }

  function StuckRows(db: DB, olderThan: Time): set<int> {
    set i | 0 <= i < |db.tasks| && Overdue(db.tasks[i], olderThan, db.now)
  }

  lemma {:induction false} ReleasedCount(tasks: seq<Task>, olderThan: Time, maxAttempts: int, now: Time, n: nat)
    requires n <= |tasks|
    ensures CountReleasable(tasks, olderThan, maxAttempts, now, n)
         == |set i | 0 <= i < n && Releasable(tasks[i], olderThan, maxAttempts, now)|
  {
    var rows := set i | 0 <= i < n && Releasable(tasks[i], olderThan, maxAttempts, now);
    if n > 0 {
      ReleasedCount(tasks, olderThan, maxAttempts, now, n - 1);
      var fewer := set i | 0 <= i < n - 1 && Releasable(tasks[i], olderThan, maxAttempts, now);
      assert rows == if Releasable(tasks[n - 1], olderThan, maxAttempts, now) then fewer + {n - 1} else fewer;
    }
  }

  lemma {:induction false} AbandonedCount(tasks: seq<Task>, olderThan: Time, maxAttempts: int, now: Time, n: nat)
    requires n <= |tasks|
    ensures CountAbandonable(tasks, olderThan, maxAttempts, now, n)
         == |set i | 0 <= i < n && Abandonable(tasks[i], olderThan, maxAttempts, now)|
  {
    var rows := set i | 0 <= i < n && Abandonable(tasks[i], olderThan, maxAttempts, now);
    if n > 0 {
      AbandonedCount(tasks, olderThan, maxAttempts, now, n - 1);
      var fewer := set i | 0 <= i < n - 1 && Abandonable(tasks[i], olderThan, maxAttempts, now);
      assert rows == if Abandonable(tasks[n - 1], olderThan, maxAttempts, now) then fewer + {n - 1} else fewer;
    }
  }

  /** The second update finds exactly the rows it would have found first: none
      of those the first one wrote. */
  lemma AbandonableAfterRelease(t: Task, olderThan: Time, maxAttempts: int, now: Time)
    ensures Abandonable(ReleaseRow(t, olderThan, maxAttempts, now), olderThan, maxAttempts, now)
       <==> Abandonable(t, olderThan, maxAttempts, now)
  {
  }

  lemma {:induction false} CountAfterRelease(tasks: seq<Task>, olderThan: Time, maxAttempts: int, now: Time, n: nat)
    requires n <= |tasks|
    ensures CountAbandonable(ReleaseRows(tasks, olderThan, maxAttempts, now), olderThan, maxAttempts, now, n)
         == CountAbandonable(tasks, olderThan, maxAttempts, now, n)
  {
    if n > 0 {
      CountAfterRelease(tasks, olderThan, maxAttempts, now, n - 1);
      AbandonableAfterRelease(tasks[n - 1], olderThan, maxAttempts, now);
    }
  }

  /** The released and the failed rows partition the stuck ones. */
  lemma {:induction false} CountsPartition(db: DB, olderThan: Time, maxAttempts: int)
    ensures CountReleasable(db.tasks, olderThan, maxAttempts, db.now, |db.tasks|)
         == |set i | i in StuckRows(db, olderThan) && db.tasks[i].attempts < maxAttempts|
    ensures CountAbandonable(db.tasks, olderThan, maxAttempts, db.now, |db.tasks|)
         == |set i | i in StuckRows(db, olderThan) && db.tasks[i].attempts >= maxAttempts|
    ensures CountReleasable(db.tasks, olderThan, maxAttempts, db.now, |db.tasks|)
            + CountAbandonable(db.tasks, olderThan, maxAttempts, db.now, |db.tasks|)
         == |StuckRows(db, olderThan)|
  {
    var n := |db.tasks|;
    ReleasedCount(db.tasks, olderThan, maxAttempts, db.now, n);
    AbandonedCount(db.tasks, olderThan, maxAttempts, db.now, n);
    var stuck := StuckRows(db, olderThan);
    var released := set i | i in stuck && db.tasks[i].attempts < maxAttempts;
    var failed := set i | i in stuck && db.tasks[i].attempts >= maxAttempts;
    assert released == set i | 0 <= i < n && Releasable(db.tasks[i], olderThan, maxAttempts, db.now);
    assert failed == set i | 0 <= i < n && Abandonable(db.tasks[i], olderThan, maxAttempts, db.now);
    assert stuck == released + failed && released !! failed;
  }

  /** The two statements together are one pass over the stuck rows at a single
      instant: every stuck row is released or failed by its attempts, every other
      row and table is untouched, and the two counts partition the stuck rows. */
  lemma {:induction false} SweepIsOnePass(db: DB, olderThan: Time, maxAttempts: int, reason: string)
    requires reason != ""
    ensures var step := ReleaseStuckTasks(db, olderThan, maxAttempts, reason);
            && step.result.Ok?
            && |step.db.tasks| == |db.tasks|
            && (forall i | 0 <= i < |db.tasks| ::
                  step.db.tasks[i] == PassRow(db.tasks[i], olderThan, maxAttempts, reason, db.now))
            && step.db == db.(tasks := step.db.tasks)
            && step.result.value.0 == |set i | i in StuckRows(db, olderThan) && db.tasks[i].attempts < maxAttempts|
            && step.result.value.1 == |set i | i in StuckRows(db, olderThan) && db.tasks[i].attempts >= maxAttempts|
            && step.result.value.0 + step.result.value.1 == |StuckRows(db, olderThan)|
  {
    CountsPartition(db, olderThan, maxAttempts);
    CountAfterRelease(db.tasks, olderThan, maxAttempts, db.now, |db.tasks|);
  }

  /** The second statement writes no row that the first one would have to release. */
  lemma {:induction false} CountAfterAbandon(tasks: seq<Task>, olderThan: Time, maxAttempts: int, reason: string,
                                             now: Time, n: nat)
    requires n <= |tasks|
    ensures CountReleasable(AbandonRows(tasks, olderThan, maxAttempts, reason, now), olderThan, maxAttempts, now, n)
         == CountReleasable(tasks, olderThan, maxAttempts, now, n)
  {
    if n > 0 {
      CountAfterAbandon(tasks, olderThan, maxAttempts, reason, now, n - 1);
    }
  }

  /** The order of the two statements matters neither to the rows nor to the two
      counts. */
  lemma SweepOrderIrrelevant(tasks: seq<Task>, olderThan: Time, maxAttempts: int, reason: string, now: Time)
    ensures AbandonRows(ReleaseRows(tasks, olderThan, maxAttempts, now), olderThan, maxAttempts, reason, now)
         == ReleaseRows(AbandonRows(tasks, olderThan, maxAttempts, reason, now), olderThan, maxAttempts, now)
    ensures CountReleasable(AbandonRows(tasks, olderThan, maxAttempts, reason, now), olderThan, maxAttempts, now,
                            |tasks|)
         == CountReleasable(tasks, olderThan, maxAttempts, now, |tasks|)
    ensures CountAbandonable(ReleaseRows(tasks, olderThan, maxAttempts, now), olderThan, maxAttempts, now, |tasks|)
         == CountAbandonable(tasks, olderThan, maxAttempts, now, |tasks|)
  {
    CountAfterRelease(tasks, olderThan, maxAttempts, now, |tasks|);
    CountAfterAbandon(tasks, olderThan, maxAttempts, reason, now, |tasks|);
    var a := AbandonRows(ReleaseRows(tasks, olderThan, maxAttempts, now), olderThan, maxAttempts, reason, now);
    var b := ReleaseRows(AbandonRows(tasks, olderThan, maxAttempts, reason, now), olderThan, maxAttempts, now);
    assert forall i | 0 <= i < |tasks| :: a[i] == b[i];
  }

  /** A second pass at the same instant finds nothing to do, if the threshold is
      not negative. */
  lemma SweepTwice(db: DB, olderThan: Time, maxAttempts: int, reason: string)
    requires reason != "" && olderThan >= 0
    ensures var once := ReleaseStuckTasks(db, olderThan, maxAttempts, reason).db;
            ReleaseStuckTasks(once, olderThan, maxAttempts, reason).db == once
  {
    SweepIsOnePass(db, olderThan, maxAttempts, reason);
    var once := ReleaseStuckTasks(db, olderThan, maxAttempts, reason).db;
    SweepIsOnePass(once, olderThan, maxAttempts, reason);
    var twice := ReleaseStuckTasks(once, olderThan, maxAttempts, reason).db;
    assert forall i | 0 <= i < |db.tasks| :: twice.tasks[i] == once.tasks[i];
    assert twice.tasks == once.tasks;
  }

  lemma {:induction false} StillFound(before: seq<Task>, after: seq<Task>, pair: Pair)
    requires |after| == |before| && FindUnfinished(before, pair) < |before|
    requires forall i | 0 <= i < |before| :: after[i].pair == before[i].pair
    requires forall i | 0 <= i < |before| && after[i].status.Unfinished() :: before[i].status.Unfinished()
    requires after[FindUnfinished(before, pair)].status.Unfinished()
    ensures FindUnfinished(after, pair) == FindUnfinished(before, pair)
  {
    var n := FindUnfinished(before, pair);
    assert UnfinishedFor(after[n], pair);
    forall j | 0 <= j < n
      ensures !UnfinishedFor(after[j], pair)
    {
      assert !UnfinishedFor(before[j], pair);
    }
  }

  /** A post that finds its pair's task unfinished does not delay the pass: the
      pass does the same to every row with the post before it as without. With
      the post after it, the post is answered with the same task, unless the pass
      has just failed that task. */
  lemma {:induction false} DedupCommutesWithSweep(db: DB, pair: Pair, id: Id, olderThan: Time, maxAttempts: int,
                                                  reason: string)
    requires Sound(db) && reason != ""
    requires FindUnfinished(db.tasks, pair) < |db.tasks|
    ensures var n := FindUnfinished(db.tasks, pair);
            var swept := ReleaseStuckTasks(db, olderThan, maxAttempts, reason);
            && InsertTask(db, pair, id).result == Ok(db.tasks[n])
            && ReleaseStuckTasks(InsertTask(db, pair, id).db, olderThan, maxAttempts, reason) == swept
            && (swept.db.tasks[n].status != Failed ==>
                  && InsertTask(swept.db, pair, id).result == Ok(swept.db.tasks[n])
                  && InsertTask(swept.db, pair, id).db == swept.db
                  && swept.db.tasks[n].id == db.tasks[n].id)
  {
    SweepIsOnePass(db, olderThan, maxAttempts, reason);
    var n := FindUnfinished(db.tasks, pair);
    var after := ReleaseStuckTasks(db, olderThan, maxAttempts, reason).db.tasks;
    if after[n].status != Failed {
      StillFound(db.tasks, after, pair);
    }
  }
}
