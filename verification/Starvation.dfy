/** A waiting task is claimed after a bounded number of other claims. */
module Starvation {
  import opened Domain
  import opened Store
  import opened Queue
  import opened Ledger
  import opened World
  import opened Steps
  import opened History
  import Fencing
  import Pairs

  // ----- Counting claims over the whole table ----------------------------------

  /** Claims of any task in a stretch of history. */
  function ClaimsMade(log: Log): nat {
    if log == [] then 0
    else
      var last := if log[|log| - 1].kind == Claimed then 1 else 0;
      ClaimsMade(log[..|log| - 1]) + last
  }

  lemma {:induction false} ClaimsMadeConcat(a: Log, b: Log)
    ensures ClaimsMade(a + b) == ClaimsMade(a) + ClaimsMade(b)
  {
    if b == [] {
      assert a + b == a;
    } else {
      ClaimsMadeConcat(a, b[..|b| - 1]);
      assert (a + b)[..|a + b| - 1] == a + b[..|b| - 1];
    }
  }

  lemma {:induction false} ClaimsMadeAppend(log: Log, e: Event)
    ensures ClaimsMade(log + [e]) == ClaimsMade(log) + if e.kind == Claimed then 1 else 0
  {
    assert (log + [e])[..|log|] == log;
  }

  /** Attempts over the first n rows. */
  function AttemptsSum(tasks: seq<Task>, n: nat): int
    requires n <= |tasks|
  {
    if n == 0 then 0 else AttemptsSum(tasks, n - 1) + tasks[n - 1].attempts
  }

  /** A row's attempts rise by one with a claim event and never otherwise. */
  ghost predicate CountsClaims(op: Op, r: Task, s: Task) {
    var e := EventOf(op, r, s);
    s.attempts == r.attempts + if e.Some? && e.value.kind == Claimed then 1 else 0
  }

  lemma MoveCountsClaims(cfg: Settings, db: DB, op: Op, r: Task, s: Task)
    requires RowMove(cfg, db, op, r, s)
    ensures CountsClaims(op, r, s)
  {
  }

  lemma {:induction false} ChangesClaims(op: Op, before: seq<Task>, after: seq<Task>, n: nat)
    requires n <= |before| <= |after|
    requires forall i | 0 <= i < n :: CountsClaims(op, before[i], after[i])
    ensures ClaimsMade(Changes(op, before, after, n)) == AttemptsSum(after, n) - AttemptsSum(before, n)
  {
    if n > 0 {
      ChangesClaims(op, before, after, n - 1);
      assert CountsClaims(op, before[n - 1], after[n - 1]);
      var log := Changes(op, before, after, n - 1);
      var e := EventOf(op, before[n - 1], after[n - 1]);
      if e.Some? {
        ClaimsMadeAppend(log, e.value);
      }
    }
  }

  lemma {:induction false} SumsAgreeAbove(before: seq<Task>, after: seq<Task>, n: nat, m: nat)
    requires n <= m <= |before| && m <= |after|
    requires forall i | n <= i < m :: after[i].attempts == before[i].attempts
    ensures AttemptsSum(after, m) - AttemptsSum(before, m) == AttemptsSum(after, n) - AttemptsSum(before, n)
    decreases m
  {
    if n < m {
      SumsAgreeAbove(before, after, n, m - 1);
    }
  }

  // ----- One step while the row at n waits --------------------------------------

  lemma OnlyClaimsClaim(cfg: Settings, db: DB, op: Op, r: Task, s: Task)
    requires RowMove(cfg, db, op, r, s) && !op.Claim?
    ensures s.attempts == r.attempts
  {
  }

  /** While a row waits, no younger row is claimed. */
  lemma {:induction false} YoungerNotClaimed(cfg: Settings, db: DB, op: Op, n: nat, i: nat)
    requires RowsOrdered(db.tasks) && n < i < |db.tasks|
    requires db.tasks[n].status == Pending
    requires Moved(cfg, db, op, Apply(cfg, db, op))
    ensures Apply(cfg, db, op).tasks[i].attempts == db.tasks[i].attempts
  {
    if op.Claim? {
      ClaimMovesOldest(cfg, db, i);
      assert db.tasks[n].createdAt < db.tasks[i].createdAt;
    } else {
      OnlyClaimsClaim(cfg, db, op, db.tasks[i], Apply(cfg, db, op).tasks[i]);
    }
  }

  lemma MovesCountClaims(cfg: Settings, db: DB, op: Op, after: DB)
    requires Moved(cfg, db, op, after)
    ensures ClaimsMade(Changes(op, db.tasks, after.tasks, |db.tasks|))
         == AttemptsSum(after.tasks, |db.tasks|) - AttemptsSum(db.tasks, |db.tasks|)
  {
    forall i | 0 <= i < |db.tasks|
      ensures CountsClaims(op, db.tasks[i], after.tasks[i])
    {
      MoveCountsClaims(cfg, db, op, db.tasks[i], after.tasks[i]);
    }
    ChangesClaims(op, db.tasks, after.tasks, |db.tasks|);
  }

  lemma {:induction false} MovesClaimOlder(cfg: Settings, db: DB, op: Op, after: DB, n: nat)
    requires Moved(cfg, db, op, after) && n <= |db.tasks|
    requires forall i | n <= i < |db.tasks| :: after.tasks[i].attempts == db.tasks[i].attempts
    ensures ClaimsMade(Changes(op, db.tasks, after.tasks, |db.tasks|))
         == AttemptsSum(after.tasks, n) - AttemptsSum(db.tasks, n)
  {
    MovesCountClaims(cfg, db, op, after);
    SumsAgreeAbove(db.tasks, after.tasks, n, |db.tasks|);
  }

  /** So the claims of a step are those of the older rows. */
  lemma {:induction false} StepClaimsOlder(cfg: Settings, db: DB, op: Op, n: nat)
    requires RowsOrdered(db.tasks) && n < |db.tasks| && db.tasks[n].status == Pending
    requires Moved(cfg, db, op, Apply(cfg, db, op))
    requires Apply(cfg, db, op).tasks[n] == db.tasks[n]
    ensures ClaimsMade(Changes(op, db.tasks, Apply(cfg, db, op).tasks, |db.tasks|))
         == AttemptsSum(Apply(cfg, db, op).tasks, n) - AttemptsSum(db.tasks, n)
  {
    forall i | n < i < |db.tasks|
      ensures Apply(cfg, db, op).tasks[i].attempts == db.tasks[i].attempts
    {
      YoungerNotClaimed(cfg, db, op, n, i);
    }
    MovesClaimOlder(cfg, db, op, Apply(cfg, db, op), n);
  }

  lemma RunStepClaimsOlder(cfg: Settings, r: Run, k: nat, n: nat)
    requires IsRun(cfg, r) && k < |r.labels| && n < |r.states[k].db.tasks|
    requires n < |r.states[k + 1].db.tasks|
    requires r.states[k].db.tasks[n].status == Pending
    requires r.states[k + 1].db.tasks[n] == r.states[k].db.tasks[n]
    ensures ClaimsMade(r.states[k + 1].log) - ClaimsMade(r.states[k].log)
         == AttemptsSum(r.states[k + 1].db.tasks, n) - AttemptsSum(r.states[k].db.tasks, n)
  {
    var s, l := r.states[k], r.labels[k];
    InvariantAlways(cfg, r, k);
    assert StepAt(cfg, r, k);
    GuardHolds(cfg, s, l);
    var op := OpOf(cfg, s, l);
    ApplyMoves(cfg, s.db, op);
    StepClaimsOlder(cfg, s.db, op, n);
    ClaimsMadeConcat(s.log, Changes(op, s.db.tasks, Apply(cfg, s.db, op).tasks, |s.db.tasks|));
  }

  /** Between i and j the row at n waits throughout: every claim is of an older row. */
  lemma {:induction false} WindowClaimsOlder(cfg: Settings, r: Run, i: nat, j: nat, n: nat)
    requires IsRun(cfg, r) && i <= j < |r.states| && n < |r.states[i].db.tasks|
    requires n < |r.states[j].db.tasks|
    requires r.states[i].db.tasks[n].status == Pending
    requires r.states[j].db.tasks[n].attempts == r.states[i].db.tasks[n].attempts
    ensures ClaimsMade(r.states[j].log) - ClaimsMade(r.states[i].log)
         == AttemptsSum(r.states[j].db.tasks, n) - AttemptsSum(r.states[i].db.tasks, n)
    decreases j
  {
    if i < j {
      StillWaiting(cfg, r, i, j - 1, j, n);
      WindowClaimsOlder(cfg, r, i, j - 1, n);
      RunStepClaimsOlder(cfg, r, j - 1, n);
    }
  }

  /** A waiting row with the same attempts later was the same row all along. */
  lemma StillWaiting(cfg: Settings, r: Run, i: nat, m: nat, j: nat, n: nat)
    requires IsRun(cfg, r) && i <= m <= j < |r.states| && n < |r.states[i].db.tasks|
    requires n < |r.states[j].db.tasks|
    requires r.states[i].db.tasks[n].status == Pending
    requires r.states[j].db.tasks[n].attempts == r.states[i].db.tasks[n].attempts
    ensures n < |r.states[m].db.tasks|
    ensures r.states[m].db.tasks[n] == r.states[i].db.tasks[n] == r.states[j].db.tasks[n]
  {
    GrowsForever(cfg, r, i, m);
    GrowsForever(cfg, r, m, j);
    assert RowGrows(r.states[i].db.tasks[n], r.states[m].db.tasks[n]);
    assert RowGrows(r.states[m].db.tasks[n], r.states[j].db.tasks[n]);
  }

  // ----- What the older rows can still be given ----------------------------------

  /** Attempts plus starts left never grow except by shutdown releases. */
  ghost predicate Spends(cfg: Settings, before: Log, r: Task, after: Log, s: Task) {
    s.id == r.id
    && s.attempts + Fencing.StartsLeft(cfg, s) - Releases(after, s.id)
       <= r.attempts + Fencing.StartsLeft(cfg, r) - Releases(before, r.id)
  }

  lemma MoveSpends(cfg: Settings, db: DB, op: Op, r: Task, s: Task, before: Log, after: Log)
    requires cfg.Valid() && RowMove(cfg, db, op, r, s)
    requires Releases(after, r.id) == Releases(before, r.id) + Hit(Filter({Released}, r.id, None), EventOf(op, r, s))
    ensures Spends(cfg, before, r, after, s)
  {
  }

  lemma StepSpends(cfg: Settings, r: Run, k: nat, n: nat)
    requires IsRun(cfg, r) && k < |r.labels| && n < |r.states[k].db.tasks|
    ensures n < |r.states[k + 1].db.tasks|
    ensures Spends(cfg, r.states[k].log, r.states[k].db.tasks[n], r.states[k + 1].log, r.states[k + 1].db.tasks[n])
  {
    var op := StepFacts(cfg, r, k);
    var s, t := r.states[k], r.states[k + 1];
    CountGrown(s.log, op, s.db.tasks, t.db.tasks, n, Filter({Released}, s.db.tasks[n].id, None));
    MoveSpends(cfg, s.db, op, s.db.tasks[n], t.db.tasks[n], s.log, t.log);
  }

  lemma {:induction false} WindowSpends(cfg: Settings, r: Run, i: nat, j: nat, n: nat)
    requires IsRun(cfg, r) && i <= j < |r.states| && n < |r.states[i].db.tasks|
    ensures n < |r.states[j].db.tasks|
    ensures Spends(cfg, r.states[i].log, r.states[i].db.tasks[n], r.states[j].log, r.states[j].db.tasks[n])
    decreases j
  {
    if i < j {
      WindowSpends(cfg, r, i, j - 1, n);
      StepSpends(cfg, r, j - 1, n);
    }
  }

  function ReleasesSum(log: Log, tasks: seq<Task>, n: nat): int
    requires n <= |tasks|
  {
    if n == 0 then 0 else ReleasesSum(log, tasks, n - 1) + Releases(log, tasks[n - 1].id)
  }

  function StartsSum(cfg: Settings, tasks: seq<Task>, n: nat): nat
    requires n <= |tasks|
  {
    if n == 0 then 0 else StartsSum(cfg, tasks, n - 1) + Fencing.StartsLeft(cfg, tasks[n - 1])
  }

  lemma {:induction false} SumSpends(cfg: Settings, before: Log, rs: seq<Task>, after: Log, ss: seq<Task>, n: nat)
    requires n <= |rs| && n <= |ss|
    requires forall i | 0 <= i < n :: Spends(cfg, before, rs[i], after, ss[i])
    ensures AttemptsSum(ss, n) - AttemptsSum(rs, n)
         <= StartsSum(cfg, rs, n) + ReleasesSum(after, ss, n) - ReleasesSum(before, rs, n)
  {
    if n > 0 {
      SumSpends(cfg, before, rs, after, ss, n - 1);
      assert Spends(cfg, before, rs[n - 1], after, ss[n - 1]);
    }
  }

  // ----- Pigeonhole over the pairs -----------------------------------------------

  /** The pairs of the unfinished rows among the first n. */
  function UnfinishedPairs(tasks: seq<Task>, n: nat): set<Pair>
    requires n <= |tasks|
  {
    set i | 0 <= i < n && tasks[i].status.Unfinished() :: tasks[i].pair
  }

  function UnfinishedCount(tasks: seq<Task>, n: nat): nat
    requires n <= |tasks|
  {
    if n == 0 then 0 else UnfinishedCount(tasks, n - 1) + if tasks[n - 1].status.Unfinished() then 1 else 0
  }

  lemma PairsGrow(tasks: seq<Task>, n: nat)
    requires 0 < n <= |tasks| && OnePerPair(tasks)
    ensures UnfinishedPairs(tasks, n) ==
            if tasks[n - 1].status.Unfinished() then UnfinishedPairs(tasks, n - 1) + {tasks[n - 1].pair}
            else UnfinishedPairs(tasks, n - 1)
    ensures tasks[n - 1].status.Unfinished() ==> tasks[n - 1].pair !in UnfinishedPairs(tasks, n - 1)
  {
  }

  lemma {:induction false} CountIsPairs(tasks: seq<Task>, n: nat)
    requires n <= |tasks| && OnePerPair(tasks)
    ensures UnfinishedCount(tasks, n) == |UnfinishedPairs(tasks, n)|
  {
    if n > 0 {
      CountIsPairs(tasks, n - 1);
      PairsGrow(tasks, n);
    } else {
      assert UnfinishedPairs(tasks, n) == {};
    }
  }

  lemma Pigeonhole(a: set<Pair>, b: set<Pair>)
    requires a <= b
    ensures |a| <= |b|
  {
    assert b == a + (b - a);
  }

  /** At most six tasks are unfinished at a time, and at most five of them are
      older than any one of them. */
  lemma SixUnfinished(db: DB, n: nat)
    requires Sound(db) && n <= |db.tasks|
    ensures UnfinishedCount(db.tasks, n) <= 6
    ensures n < |db.tasks| && db.tasks[n].status.Unfinished() ==> UnfinishedCount(db.tasks, n) <= 5
  {
    CountIsPairs(db.tasks, n);
    Pairs.SixPairs();
    Pigeonhole(UnfinishedPairs(db.tasks, n), Pairs.PAIRS);
    if n < |db.tasks| && db.tasks[n].status.Unfinished() {
      assert db.tasks[n].pair !in UnfinishedPairs(db.tasks, n);
      Pigeonhole(UnfinishedPairs(db.tasks, n), Pairs.PAIRS - {db.tasks[n].pair});
    }
  }

  lemma {:induction false} StartsPerTask(cfg: Settings, tasks: seq<Task>, n: nat)
    requires cfg.Valid() && n <= |tasks|
    requires forall i | 0 <= i < |tasks| :: tasks[i].attempts >= 0
    ensures StartsSum(cfg, tasks, n) <= cfg.maxAttempts * UnfinishedCount(tasks, n)
  {
    if n > 0 {
      StartsPerTask(cfg, tasks, n - 1);
      assert Fencing.StartsLeft(cfg, tasks[n - 1]) <=
             if tasks[n - 1].status.Unfinished() then cfg.maxAttempts else 0;
      assert cfg.maxAttempts * (UnfinishedCount(tasks, n - 1) + 1)
          == cfg.maxAttempts * UnfinishedCount(tasks, n - 1) + cfg.maxAttempts;
    }
  }

  // ----- The bound ------------------------------------------------------------------

  lemma BoundInHistory(cfg: Settings, r: Run, i: nat, j: nat, n: nat)
    requires IsRun(cfg, r) && i <= j < |r.states| && n < |r.states[i].db.tasks|
    requires n < |r.states[j].db.tasks|
    requires r.states[i].db.tasks[n].status == Pending
    requires r.states[j].db.tasks[n].attempts == r.states[i].db.tasks[n].attempts
    ensures ClaimsMade(r.states[j].log) - ClaimsMade(r.states[i].log)
         <= 5 * cfg.maxAttempts
            + ReleasesSum(r.states[j].log, r.states[j].db.tasks, n)
            - ReleasesSum(r.states[i].log, r.states[i].db.tasks, n)
  {
    WindowClaimsOlder(cfg, r, i, j, n);
    forall m | 0 <= m < n
      ensures m < |r.states[j].db.tasks|
      ensures Spends(cfg, r.states[i].log, r.states[i].db.tasks[m], r.states[j].log, r.states[j].db.tasks[m])
    {
      WindowSpends(cfg, r, i, j, m);
    }
    SumSpends(cfg, r.states[i].log, r.states[i].db.tasks, r.states[j].log, r.states[j].db.tasks, n);
    SoundAlways(cfg, r, i);
    StartsBounded(cfg, r.states[i].db, n);
  }

  lemma AtMostFive(count: nat, max: nat)
    requires count <= 5
    ensures max * count <= 5 * max
  {
  }

  lemma StartsBounded(cfg: Settings, db: DB, n: nat)
    requires cfg.Valid() && Sound(db) && n < |db.tasks| && db.tasks[n].status.Unfinished()
    ensures StartsSum(cfg, db.tasks, n) <= 5 * cfg.maxAttempts
  {
    StartsPerTask(cfg, db.tasks, n);
    SixUnfinished(db, n);
    AtMostFive(UnfinishedCount(db.tasks, n), cfg.maxAttempts);
  }

  // ----- The bound in steps of the run ------------------------------------------------

  /** How many of the first k steps claimed a task. */
  function ClaimSteps(r: Run, k: nat): nat
    requires k < |r.states| <= |r.labels| + 1
  {
    if k == 0 then 0
    else
      var claimed := r.labels[k - 1].ClaimNext? && r.states[k].db != r.states[k - 1].db;
      ClaimSteps(r, k - 1) + if claimed then 1 else 0
  }

  /** How many of the first k steps handed one of the first n rows back. */
  function HandBacks(r: Run, n: nat, k: nat): nat
    requires k < |r.states| <= |r.labels| + 1
  {
    if n == 0 then 0 else HandBacks(r, n - 1, k) + Fencing.StepsMade(r, n - 1, k, Released)
  }

  lemma {:induction false} SumOfOne(tasks: seq<Task>, t: Task, i: nat, n: nat)
    requires i < |tasks| && n <= |tasks|
    ensures AttemptsSum(tasks[i := t], n) == AttemptsSum(tasks, n) + if i < n then t.attempts - tasks[i].attempts else 0
  {
    if n > 0 {
      SumOfOne(tasks, t, i, n - 1);
    }
  }

  lemma {:induction false} ClaimCounts(cfg: Settings, db: DB)
    requires Moved(cfg, db, Claim, ClaimTask(db).db)
    ensures ClaimsMade(Changes(Claim, db.tasks, ClaimTask(db).db.tasks, |db.tasks|))
         == if ClaimTask(db).db != db then 1 else 0
  {
    var after := ClaimTask(db).db;
    MovesCountClaims(cfg, db, Claim, after);
    var best := OldestPending(db.tasks);
    if best.Some? {
      SumOfOne(db.tasks, ClaimedRow(db.tasks[best.value], db.now), best.value, |db.tasks|);
      assert after.tasks[best.value].status != db.tasks[best.value].status;
    }
  }

  lemma {:induction false} OthersCountNothing(cfg: Settings, db: DB, op: Op, after: DB)
    requires Moved(cfg, db, op, after) && !op.Claim?
    ensures ClaimsMade(Changes(op, db.tasks, after.tasks, |db.tasks|)) == 0
  {
    MovesCountClaims(cfg, db, op, after);
    forall i | 0 <= i < |db.tasks|
      ensures after.tasks[i].attempts == db.tasks[i].attempts
    {
      OnlyClaimsClaim(cfg, db, op, db.tasks[i], after.tasks[i]);
    }
    SumsAgreeAbove(db.tasks, after.tasks, 0, |db.tasks|);
  }

  lemma ClaimStepDb(cfg: Settings, r: Run, k: nat)
    requires IsRun(cfg, r) && k < |r.labels|
    ensures var op := OpOf(cfg, r.states[k], r.labels[k]);
            && r.states[k + 1].db == Apply(cfg, r.states[k].db, op)
            && (op.Claim? ==> r.labels[k].ClaimNext? && r.states[k + 1].db == ClaimTask(r.states[k].db).db)
            && (r.labels[k].ClaimNext? && !op.Claim? ==> r.states[k + 1].db == r.states[k].db)
  {
    assert StepAt(cfg, r, k);
  }

  lemma StepClaims(cfg: Settings, r: Run, k: nat)
    requires IsRun(cfg, r) && k < |r.labels|
    ensures ClaimsMade(r.states[k + 1].log)
         == ClaimsMade(r.states[k].log)
            + if r.labels[k].ClaimNext? && r.states[k + 1].db != r.states[k].db then 1 else 0
  {
    var op := Fencing.StepIds(cfg, r, k);
    var s, t := r.states[k], r.states[k + 1];
    ClaimStepDb(cfg, r, k);
    ClaimsMadeConcat(s.log, Changes(op, s.db.tasks, t.db.tasks, |s.db.tasks|));
    if op.Claim? {
      ClaimCounts(cfg, s.db);
    } else {
      OthersCountNothing(cfg, s.db, op, t.db);
    }
  }

  lemma {:induction false} ClaimsAreSteps(cfg: Settings, r: Run, k: nat)
    requires IsRun(cfg, r) && k < |r.states|
    ensures ClaimsMade(r.states[k].log) == ClaimSteps(r, k)
  {
    if k > 0 {
      ClaimsAreSteps(cfg, r, k - 1);
      StepClaims(cfg, r, k - 1);
    }
  }

  lemma {:induction false} ReleasesAreSteps(cfg: Settings, r: Run, n: nat, k: nat)
    requires IsRun(cfg, r) && k < |r.states| && n <= |r.states[k].db.tasks|
    ensures ReleasesSum(r.states[k].log, r.states[k].db.tasks, n) == HandBacks(r, n, k)
  {
    if n > 0 {
      ReleasesAreSteps(cfg, r, n - 1, k);
      Fencing.HistoryNamesSteps(cfg, r, n - 1, k, Released);
    }
  }

  /** From any state in which a task waits, as long as it has not been claimed
      itself, the steps that claimed a task number at most 5 * maxAttempts plus
      the steps that handed an older task back in the meantime. */
  lemma WaitingIsBounded(cfg: Settings, r: Run, i: nat, j: nat, n: nat)
    requires IsRun(cfg, r) && i <= j < |r.states| && n < |r.states[i].db.tasks|
    requires n < |r.states[j].db.tasks|
    requires r.states[i].db.tasks[n].status == Pending
    requires r.states[j].db.tasks[n].attempts == r.states[i].db.tasks[n].attempts
    ensures ClaimSteps(r, j) - ClaimSteps(r, i) <= 5 * cfg.maxAttempts + HandBacks(r, n, j) - HandBacks(r, n, i)
  {
    BoundInHistory(cfg, r, i, j, n);
    ClaimsAreSteps(cfg, r, i);
    ClaimsAreSteps(cfg, r, j);
    ReleasesAreSteps(cfg, r, n, i);
    ReleasesAreSteps(cfg, r, n, j);
  }
}
