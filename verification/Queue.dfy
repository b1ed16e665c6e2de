/** Every way the tables ever change, what each does to one row, and the
    invariant all of them keep. */
module Queue {
  import opened Domain
  import opened Rates
  import opened Store
  import Pairs

  /** What the configuration hands to the actors. */
  datatype Settings = Settings(maxAttempts: int, stuckTimeout: Time, taskTimeout: Time, keyTtl: Time,
                               providerAttempts: int)
  {
    predicate Valid() { maxAttempts >= 1 }
  }

  datatype Op =
    | Nothing
    | Advance(elapsed: nat)
    | Insert(pair: Pair, id: Id)
    | InsertWithKey(pair: Pair, key: Key, id: Id)
    | Claim
    | Complete(claim: Task, rate: Decimal, rateDate: int, fetchedAt: Time)
    | Fail(claim: Task, reason: string)
    | Release(claim: Task)
    | Sweep(reason: string)

  function Apply(cfg: Settings, db: DB, op: Op): DB {
    match op
    case Nothing => db
    case Advance(elapsed) => db.(now := db.now + elapsed)
    case Insert(pair, id) => InsertTask(db, pair, id).db
    case InsertWithKey(pair, key, id) => InsertAndBind(db, cfg.keyTtl, pair, key, id).db
    case Claim => ClaimTask(db).db
    case Complete(claim, rate, rateDate, fetchedAt) => CompleteTask(db, claim, rate, rateDate, fetchedAt).db
    case Fail(claim, reason) => FailTask(db, claim, reason).db
    case Release(claim) => ReleaseTask(db, claim).db
    case Sweep(reason) => ReleaseStuckTasks(db, cfg.stuckTimeout, cfg.maxAttempts, reason).db
  }

  /** If the post would insert, its instant is later than every created_at
      already committed. */
  ghost predicate InsertReady(db: DB, pair: Pair) {
    FindUnfinished(db.tasks, pair) == |db.tasks| ==>
      forall i | 0 <= i < |db.tasks| :: db.tasks[i].createdAt < db.now
  }

  /** What the callers of an operation bring: parsed pairs, a clock that tells
      inserts apart, and claims whose pair is the row's own. */
  ghost predicate Guard(db: DB, op: Op) {
    match op
    case Insert(pair, id) => pair in Pairs.PAIRS && InsertReady(db, pair)
    case InsertWithKey(pair, key, id) => pair in Pairs.PAIRS && InsertReady(db, pair)
    case Complete(claim, rate, rateDate, fetchedAt) =>
      forall i | 0 <= i < |db.tasks| && db.tasks[i].id == claim.id :: db.tasks[i].pair == claim.pair
    case _ => true
  }

  // ----- What an operation does to one row ----------------------------------

  ghost predicate SameTask(r: Task, s: Task) {
    s.id == r.id && s.pair == r.pair && s.createdAt == r.createdAt
  }

  /** The complete list of moves a row can make. */
  ghost predicate RowMove(cfg: Settings, db: DB, op: Op, r: Task, s: Task) {
    || s == r
    || (op.Claim? && r.status == Pending && s == ClaimedRow(r, db.now))
    || (op.Complete? && Holds(r, op.claim) && s == ClosedRow(r, Finished, db.now))
    || (op.Fail? && op.reason != "" && Holds(r, op.claim) && s == ClosedRow(r, Broken(op.reason), db.now))
    || (op.Release? && Holds(r, op.claim) && s == ClosedRow(r, HandedBack, db.now))
    || (op.Sweep? && Releasable(r, cfg.stuckTimeout, cfg.maxAttempts, db.now)
        && s == ClosedRow(r, HandedBack, db.now))
    || (op.Sweep? && op.reason != "" && Abandonable(r, cfg.stuckTimeout, cfg.maxAttempts, db.now)
        && s == ClosedRow(r, Broken(op.reason), db.now))
  }

  /** Whether the operation adds a row: a post for a pair nobody is waiting on. */
  predicate Adds(cfg: Settings, db: DB, op: Op) {
    && (op.Insert? || op.InsertWithKey?)
    && FindUnfinished(db.tasks, op.pair) == |db.tasks|
    && !HasTask(db.tasks, op.id)
    && (op.InsertWithKey? ==> op.key !in db.keys || Expired(db.keys[op.key], cfg.keyTtl, db.now))
  }

  /** Rows are never deleted or reordered, at most one is appended, and every
      old row makes one of the listed moves. */
  ghost predicate Moved(cfg: Settings, db: DB, op: Op, after: DB) {
    && after.now >= db.now
    && |after.tasks| == |db.tasks| + (if Adds(cfg, db, op) then 1 else 0)
    && (forall i | 0 <= i < |db.tasks| :: RowMove(cfg, db, op, db.tasks[i], after.tasks[i]))
    && (Adds(cfg, db, op) ==> after.tasks[|db.tasks|] == NewTask(op.id, op.pair, db.now))
  }

  lemma ApplyMoves(cfg: Settings, db: DB, op: Op)
    ensures Moved(cfg, db, op, Apply(cfg, db, op))
  {
  }

  /** A claim takes the oldest pending row, if there is one, and writes exactly its
      status, its attempts and the instant of the claim. */
  lemma ClaimTakesOldest(db: DB)
    ensures match ClaimTask(db).result
            case Err(e) => false
            case Ok(None) => ClaimTask(db).db == db && forall i | 0 <= i < |db.tasks| :: db.tasks[i].status != Pending
            case Ok(Some(t)) => exists n :: TakenAt(db, t, ClaimTask(db).db, n)
  {
    var best := OldestPending(db.tasks);
    if best.Some? {
      assert TakenAt(db, ClaimTask(db).result.value.value, ClaimTask(db).db, best.value);
    }
  }

  ghost predicate TakenAt(db: DB, t: Task, after: DB, n: int) {
    && 0 <= n < |db.tasks| == |after.tasks|
    && db.tasks[n].status == Pending
    && (forall i | 0 <= i < |db.tasks| && db.tasks[i].status == Pending ::
          db.tasks[n].createdAt <= db.tasks[i].createdAt)
    && t.id == db.tasks[n].id && t.pair == db.tasks[n].pair && t.createdAt == db.tasks[n].createdAt
    && t.error == db.tasks[n].error
    && t.status == InProgress && t.attempts == db.tasks[n].attempts + 1 && t.updatedAt == db.now
    && after.tasks[n] == t
    && (forall i | 0 <= i < |db.tasks| && i != n :: after.tasks[i] == db.tasks[i])
    && after.quotes == db.quotes && after.keys == db.keys && after.now == db.now
  }

  /** In progress for longer than the threshold. */
  predicate Overdue(t: Task, olderThan: Time, now: Time) {
    t.status == InProgress && now - t.updatedAt > olderThan
  }

  /** The row at n, and no other, was closed under this claim: it keeps who it is,
      its attempts and, handed back, its error. */
  ghost predicate ClosedAt(tasks: seq<Task>, after: seq<Task>, claim: Task, how: Closing, now: Time, n: int) {
    && 0 <= n < |tasks| == |after| && Holds(tasks[n], claim)
    && (forall i | 0 <= i < |tasks| && i != n :: after[i] == tasks[i])
    && SameTask(tasks[n], after[n]) && after[n].attempts == claim.attempts && after[n].updatedAt == now
    && (how == Finished ==> after[n].status == Done && after[n].error == None)
    && (how.Broken? ==> after[n].status == Failed && after[n].error == Some(how.reason))
    && (how == HandedBack ==> after[n].status == Pending && after[n].error == tasks[n].error)
  }

  /** A finalising update closes one row if the claim is in force and none if it is
      not, and in either case leaves the claim out of force: no update under it,
      at whatever instant, does anything more. */
  lemma ClosesOnce(tasks: seq<Task>, claim: Task, how: Closing, now: Time)
    requires RowsOrdered(tasks)
    ensures var after := CloseRows(tasks, claim, how, now);
            && (if Held(tasks, claim) then exists n :: ClosedAt(tasks, after, claim, how, now, n) else after == tasks)
            && !Held(after, claim)
            && forall again, later :: CloseRows(after, claim, again, later) == after
  {
    var after := CloseRows(tasks, claim, how, now);
    assert forall i | 0 <= i < |tasks| :: !Holds(after[i], claim);
    if Held(tasks, claim) {
      var n :| 0 <= n < |tasks| && Holds(tasks[n], claim);
      assert ClosedAt(tasks, after, claim, how, now, n);
    } else {
      assert forall i | 0 <= i < |tasks| :: after[i] == tasks[i];
    }
  }

  /** The first update of the recovery pass writes a row if and only if it is stuck
      with attempts left; the row goes back to the queue with its place, its
      attempts and its error, and none like it remains. */
  lemma ReleasesStuck(tasks: seq<Task>, olderThan: Time, maxAttempts: int, now: Time)
    ensures var after := ReleaseRows(tasks, olderThan, maxAttempts, now);
            && (forall i | 0 <= i < |tasks| ::
                  after[i] != tasks[i] <==> Overdue(tasks[i], olderThan, now) && tasks[i].attempts < maxAttempts)
            && (forall i | 0 <= i < |tasks| && after[i] != tasks[i] ::
                  && SameTask(tasks[i], after[i]) && after[i].status == Pending && after[i].updatedAt == now
                  && after[i].attempts == tasks[i].attempts && after[i].error == tasks[i].error)
            && (forall i | 0 <= i < |tasks| :: !(Overdue(after[i], olderThan, now) && after[i].attempts < maxAttempts))
  {
  }

  /** The second writes a row if and only if it is stuck at the limit; the row
      fails for good with the reason, and none like it remains. */
  lemma AbandonsStuck(tasks: seq<Task>, olderThan: Time, maxAttempts: int, reason: string, now: Time)
    ensures var after := AbandonRows(tasks, olderThan, maxAttempts, reason, now);
            && (forall i | 0 <= i < |tasks| ::
                  after[i] != tasks[i] <==> Overdue(tasks[i], olderThan, now) && tasks[i].attempts >= maxAttempts)
            && (forall i | 0 <= i < |tasks| && after[i] != tasks[i] ::
                  && SameTask(tasks[i], after[i]) && after[i].status == Failed && after[i].updatedAt == now
                  && after[i].attempts == tasks[i].attempts && after[i].error == Some(reason))
            && (forall i | 0 <= i < |tasks| :: !(Overdue(after[i], olderThan, now) && after[i].attempts >= maxAttempts))
  {
  }

  /** At most one row moves, except under the recovery pass. */
  lemma ClaimMovesOldest(cfg: Settings, db: DB, i: nat)
    requires i < |db.tasks|
    ensures var after := Apply(cfg, db, Claim);
            after.tasks[i] != db.tasks[i] ==>
              && OldestPending(db.tasks) == Some(i)
              && forall j | 0 <= j < |db.tasks| && db.tasks[j].status == Pending ::
                   db.tasks[i].createdAt <= db.tasks[j].createdAt
  {
  }

  // ----- The invariant ------------------------------------------------------

  /** Primary key of quote_updates, in commit order of the inserts. */
  ghost predicate RowsOrdered(tasks: seq<Task>) {
    && (forall i, j | 0 <= i < j < |tasks| :: tasks[i].id != tasks[j].id)
    && (forall i, j | 0 <= i < j < |tasks| :: tasks[i].createdAt < tasks[j].createdAt)
  }

  /** The partial unique index. */
  ghost predicate OnePerPair(tasks: seq<Task>) {
    forall i, j | 0 <= i < j < |tasks| && tasks[i].status.Unfinished() && tasks[j].status.Unfinished() ::
      tasks[i].pair != tasks[j].pair
  }

  /** A reason is stored on exactly the failed rows, and it says something. */
  ghost predicate RowSound(t: Task, now: Time) {
    && t.pair in Pairs.PAIRS
    && t.createdAt <= now && t.updatedAt <= now
    && (t.status == Failed ==> t.error.Some? && t.error.value != "")
    && (t.status != Failed ==> t.error == None)
    && (t.status != Pending ==> t.attempts >= 1)
  }

  /** A quote belongs to a done task of its own pair and holds a positive rate
      the column can carry. */
  ghost predicate QuoteSound(tasks: seq<Task>, q: Quote) {
    var i := FindId(tasks, q.updateId);
    i < |tasks| && tasks[i].status == Done && tasks[i].pair == q.pair && 0 < q.rate < OVERFLOW
  }

  ghost predicate QuotesSound(db: DB) {
    && (forall k | 0 <= k < |db.quotes| :: QuoteSound(db.tasks, db.quotes[k]))
    && (forall k, l | 0 <= k < l < |db.quotes| :: db.quotes[k].updateId != db.quotes[l].updateId)
    && (forall i | 0 <= i < |db.tasks| && db.tasks[i].status == Done ::
          FindQuote(db.quotes, db.tasks[i].id) < |db.quotes|)
  }

  /** The foreign key of idempotency_keys. */
  ghost predicate KeysSound(db: DB) {
    forall k | k in db.keys :: HasTask(db.tasks, db.keys[k].updateId) && db.keys[k].createdAt <= db.now
  }

  ghost predicate Sound(db: DB) {
    && RowsOrdered(db.tasks)
    && OnePerPair(db.tasks)
    && (forall i | 0 <= i < |db.tasks| :: RowSound(db.tasks[i], db.now))
    && QuotesSound(db)
    && KeysSound(db)
  }

  lemma EmptyIsSound(db: DB)
    requires db.tasks == [] && db.quotes == [] && db.keys == map[]
    ensures Sound(db)
  {
  }

  /** With unique identifiers, a row's index is found by its identifier. */
  lemma FindIdAt(tasks: seq<Task>, i: nat)
    requires i < |tasks| && RowsOrdered(tasks)
    ensures FindId(tasks, tasks[i].id) == i
  {
  }

  /** A move keeps a row's identity and its soundness. */
  lemma MoveKeeps(cfg: Settings, db: DB, op: Op, r: Task, s: Task, now: Time)
    requires RowMove(cfg, db, op, r, s) && db.now <= now
    ensures SameTask(r, s)
    ensures RowSound(r, db.now) ==> RowSound(s, now)
    ensures s.status.Unfinished() ==> r.status.Unfinished()
  {
  }

  lemma OldRowsKept(cfg: Settings, db: DB, op: Op, after: DB)
    requires Sound(db) && Moved(cfg, db, op, after)
    ensures forall i | 0 <= i < |db.tasks| :: SameTask(db.tasks[i], after.tasks[i])
    ensures forall i | 0 <= i < |db.tasks| :: RowSound(after.tasks[i], after.now)
    ensures forall i | 0 <= i < |db.tasks| && after.tasks[i].status.Unfinished() :: db.tasks[i].status.Unfinished()
  {
    forall i | 0 <= i < |db.tasks|
      ensures SameTask(db.tasks[i], after.tasks[i]) && RowSound(after.tasks[i], after.now)
      ensures after.tasks[i].status.Unfinished() ==> db.tasks[i].status.Unfinished()
    {
      MoveKeeps(cfg, db, op, db.tasks[i], after.tasks[i], after.now);
    }
  }

  lemma NewRowSound(cfg: Settings, db: DB, op: Op, after: DB)
    requires Sound(db) && Guard(db, op) && Moved(cfg, db, op, after) && Adds(cfg, db, op)
    ensures var t := after.tasks[|db.tasks|];
            && t == NewTask(op.id, op.pair, db.now) && RowSound(t, after.now)
            && forall i | 0 <= i < |db.tasks| ::
                 && db.tasks[i].id != t.id && db.tasks[i].createdAt < t.createdAt
                 && (db.tasks[i].status.Unfinished() ==> db.tasks[i].pair != t.pair)
  {
    forall i | 0 <= i < |db.tasks|
      ensures db.tasks[i].status.Unfinished() ==> db.tasks[i].pair != op.pair
    {
      assert !UnfinishedFor(db.tasks[i], op.pair);
    }
  }

  /** Nothing reopens a terminal task, and an insert happens only where nobody
      waits, so order and the partial unique index survive. */
  lemma RowsKept(cfg: Settings, db: DB, op: Op, after: DB)
    requires Sound(db) && Guard(db, op) && Moved(cfg, db, op, after)
    ensures RowsOrdered(after.tasks) && OnePerPair(after.tasks)
    ensures forall i | 0 <= i < |after.tasks| :: RowSound(after.tasks[i], after.now)
    ensures forall i | 0 <= i < |db.tasks| :: SameTask(db.tasks[i], after.tasks[i])
  {
    OldRowsKept(cfg, db, op, after);
    if Adds(cfg, db, op) {
      NewRowSound(cfg, db, op, after);
    }
    OrderKept(db.tasks, after.tasks);
  }

  lemma OrderKept(before: seq<Task>, after: seq<Task>)
    requires RowsOrdered(before) && OnePerPair(before)
    requires |before| <= |after| <= |before| + 1
    requires forall i | 0 <= i < |before| :: SameTask(before[i], after[i])
    requires forall i | 0 <= i < |before| && after[i].status.Unfinished() :: before[i].status.Unfinished()
    requires |after| > |before| ==>
               forall i | 0 <= i < |before| ::
                 && before[i].id != after[|before|].id && before[i].createdAt < after[|before|].createdAt
                 && (before[i].status.Unfinished() ==> before[i].pair != after[|before|].pair)
    ensures RowsOrdered(after) && OnePerPair(after)
  {
  }

  lemma FindIdKept(db: DB, after: DB, id: Id)
    requires RowsOrdered(after.tasks) && |db.tasks| <= |after.tasks|
    requires forall i | 0 <= i < |db.tasks| :: SameTask(db.tasks[i], after.tasks[i])
    requires HasTask(db.tasks, id)
    ensures FindId(after.tasks, id) == FindId(db.tasks, id)
  {
    FindIdAt(after.tasks, FindId(db.tasks, id));
  }

  /** A completion that takes effect closes the one row its claim names and adds
      that row's quote. */
  lemma CompleteEffect(cfg: Settings, db: DB, op: Op)
    requires Sound(db) && Guard(db, op) && op.Complete?
    ensures var after := Apply(cfg, db, op);
            if CompleteTask(db, op.claim, op.rate, op.rateDate, op.fetchedAt).result.Err? then after == db
            else
              var i := FindId(db.tasks, op.claim.id);
              && i < |db.tasks| && Holds(db.tasks[i], op.claim)
              && after.tasks == db.tasks[i := ClosedRow(db.tasks[i], Finished, db.now)]
              && after.quotes == db.quotes
                                 + [Quote(op.claim.id, op.claim.pair, StoredRate(op.rate).value, op.rateDate, op.fetchedAt)]
              && after.keys == db.keys && after.now == db.now
  {
    if CompleteTask(db, op.claim, op.rate, op.rateDate, op.fetchedAt).result.Ok? {
      var i :| 0 <= i < |db.tasks| && Holds(db.tasks[i], op.claim);
      FindIdAt(db.tasks, i);
    }
  }

  /** What happens to the quotes: nothing, or one row beside the task it closes. */
  ghost predicate QuotesMoved(db: DB, op: Op, after: DB) {
    || (after.quotes == db.quotes
        && forall i | 0 <= i < |after.tasks| && after.tasks[i].status == Done ::
          i < |db.tasks| && db.tasks[i].status == Done)
    || (exists i :: op.Complete? && CompletedAt(db, op, after, i))
  }

  ghost predicate CompletedAt(db: DB, op: Op, after: DB, i: int)
    requires op.Complete?
  {
    && 0 <= i < |db.tasks| && Holds(db.tasks[i], op.claim)
    && after.tasks == db.tasks[i := ClosedRow(db.tasks[i], Finished, db.now)]
    && StoredRate(op.rate).Some?
    && after.quotes == db.quotes
                       + [Quote(op.claim.id, op.claim.pair, StoredRate(op.rate).value, op.rateDate, op.fetchedAt)]
    && FindQuote(db.quotes, op.claim.id) == |db.quotes|
  }

  lemma CompleteQuotes(cfg: Settings, db: DB, op: Op)
    requires Sound(db) && Guard(db, op) && op.Complete?
    ensures var after := Apply(cfg, db, op);
            after == db || (exists i :: CompletedAt(db, op, after, i))
  {
    var after := Apply(cfg, db, op);
    CompleteEffect(cfg, db, op);
    if after != db {
      assert CompletedAt(db, op, after, FindId(db.tasks, op.claim.id));
    }
  }

  lemma OtherQuotes(cfg: Settings, db: DB, op: Op)
    requires !op.Complete?
    ensures Apply(cfg, db, op).quotes == db.quotes
  {
  }

  lemma ApplyQuotes(cfg: Settings, db: DB, op: Op)
    requires Sound(db) && Guard(db, op)
    ensures QuotesMoved(db, op, Apply(cfg, db, op))
  {
    if op.Complete? {
      CompleteQuotes(cfg, db, op);
    } else {
      ApplyMoves(cfg, db, op);
      OtherQuotes(cfg, db, op);
      NoneDone(cfg, db, op, Apply(cfg, db, op));
    }
  }

  lemma NoneDone(cfg: Settings, db: DB, op: Op, after: DB)
    requires Moved(cfg, db, op, after) && !op.Complete?
    ensures forall i | 0 <= i < |after.tasks| && after.tasks[i].status == Done ::
              i < |db.tasks| && db.tasks[i].status == Done
  {
    forall i | 0 <= i < |db.tasks| && after.tasks[i].status == Done
      ensures db.tasks[i].status == Done
    {
      assert RowMove(cfg, db, op, db.tasks[i], after.tasks[i]);
    }
  }

  lemma OldQuotesKept(cfg: Settings, db: DB, op: Op, after: DB)
    requires Sound(db) && Guard(db, op) && Moved(cfg, db, op, after)
    ensures forall k | 0 <= k < |db.quotes| :: QuoteSound(after.tasks, db.quotes[k])
  {
    RowsKept(cfg, db, op, after);
    forall k | 0 <= k < |db.quotes|
      ensures QuoteSound(after.tasks, db.quotes[k])
    {
      var i := FindId(db.tasks, db.quotes[k].updateId);
      FindIdKept(db, after, db.quotes[k].updateId);
      assert RowMove(cfg, db, op, db.tasks[i], after.tasks[i]);
    }
  }

  /** Growing quotes keep what was found in them. */
  lemma OldDoneKept(db: DB, quotes: seq<Quote>)
    requires QuotesSound(db) && db.quotes <= quotes
    ensures forall i | 0 <= i < |db.tasks| && db.tasks[i].status == Done ::
              FindQuote(quotes, db.tasks[i].id) < |quotes|
  {
    forall i | 0 <= i < |db.tasks| && db.tasks[i].status == Done
      ensures FindQuote(quotes, db.tasks[i].id) < |quotes|
    {
      QuoteStaysFound(db.quotes, quotes, db.tasks[i].id);
    }
  }

  lemma QuotesKept(cfg: Settings, db: DB, op: Op, after: DB)
    requires Sound(db) && Guard(db, op) && Moved(cfg, db, op, after) && QuotesMoved(db, op, after)
    ensures QuotesSound(after)
  {
    if i :| op.Complete? && CompletedAt(db, op, after, i) {
      CompletedKept(cfg, db, op, after, i);
    } else {
      UnquotedKept(cfg, db, op, after);
    }
  }

  lemma UnquotedKept(cfg: Settings, db: DB, op: Op, after: DB)
    requires Sound(db) && Guard(db, op) && Moved(cfg, db, op, after)
    requires after.quotes == db.quotes
    requires forall i | 0 <= i < |after.tasks| && after.tasks[i].status == Done ::
               i < |db.tasks| && db.tasks[i].status == Done
    ensures QuotesSound(after)
  {
    RowsKept(cfg, db, op, after);
    OldQuotesKept(cfg, db, op, after);
    OldDoneKept(db, after.quotes);
    SameQuotes(db, after);
  }

  lemma SameQuotes(db: DB, after: DB)
    requires after.quotes == db.quotes
    requires forall k | 0 <= k < |db.quotes| :: QuoteSound(after.tasks, db.quotes[k])
    requires forall k, l | 0 <= k < l < |db.quotes| :: db.quotes[k].updateId != db.quotes[l].updateId
    requires |db.tasks| <= |after.tasks|
    requires forall i | 0 <= i < |db.tasks| :: after.tasks[i].id == db.tasks[i].id
    requires forall i | 0 <= i < |db.tasks| && db.tasks[i].status == Done ::
               FindQuote(after.quotes, db.tasks[i].id) < |after.quotes|
    requires forall i | 0 <= i < |after.tasks| && after.tasks[i].status == Done ::
               i < |db.tasks| && db.tasks[i].status == Done
    ensures QuotesSound(after)
  {
  }

  lemma CompletedKept(cfg: Settings, db: DB, op: Op, after: DB, i: int)
    requires Sound(db) && Guard(db, op) && Moved(cfg, db, op, after)
    requires op.Complete? && CompletedAt(db, op, after, i)
    ensures QuotesSound(after)
  {
    RowsKept(cfg, db, op, after);
    OldQuotesKept(cfg, db, op, after);
    OldDoneKept(db, after.quotes);
    QuoteAdded(db, op, after, i);
    DoneAllQuoted(db, op, after, i);
    OneMoreQuote(db.quotes, after);
  }

  lemma OneMoreQuote(before: seq<Quote>, after: DB)
    requires before <= after.quotes && |after.quotes| == |before| + 1
    requires forall k | 0 <= k < |before| :: QuoteSound(after.tasks, before[k])
    requires QuoteSound(after.tasks, after.quotes[|before|])
    requires forall k, l | 0 <= k < l < |before| :: before[k].updateId != before[l].updateId
    requires forall k | 0 <= k < |before| :: after.quotes[k].updateId != after.quotes[|before|].updateId
    requires forall i | 0 <= i < |after.tasks| && after.tasks[i].status == Done ::
               FindQuote(after.quotes, after.tasks[i].id) < |after.quotes|
    ensures QuotesSound(after)
  {
  }

  lemma DoneAllQuoted(db: DB, op: Op, after: DB, i: int)
    requires op.Complete? && CompletedAt(db, op, after, i)
    requires FindQuote(after.quotes, after.tasks[i].id) < |after.quotes|
    requires forall j | 0 <= j < |db.tasks| && db.tasks[j].status == Done ::
               FindQuote(after.quotes, db.tasks[j].id) < |after.quotes|
    ensures forall j | 0 <= j < |after.tasks| && after.tasks[j].status == Done ::
              FindQuote(after.quotes, after.tasks[j].id) < |after.quotes|
  {
  }

  lemma QuoteAdded(db: DB, op: Op, after: DB, i: int)
    requires Sound(db) && Guard(db, op) && RowsOrdered(after.tasks)
    requires op.Complete? && CompletedAt(db, op, after, i)
    ensures QuoteSound(after.tasks, after.quotes[|db.quotes|])
    ensures FindQuote(after.quotes, after.tasks[i].id) < |after.quotes|
    ensures forall k | 0 <= k < |db.quotes| :: after.quotes[k].updateId != after.quotes[|db.quotes|].updateId
  {
    StoredRatePositive(op.rate);
    FindIdAt(after.tasks, i);
    assert after.quotes[|db.quotes|].updateId == after.tasks[i].id;
  }

  lemma StoredRatePositive(d: Decimal)
    ensures StoredRate(d).Some? ==> 0 < StoredRate(d).value < OVERFLOW
  {
  }

  lemma QuoteStaysFound(before: seq<Quote>, after: seq<Quote>, id: Id)
    requires before <= after && FindQuote(before, id) < |before|
    ensures FindQuote(after, id) == FindQuote(before, id)
  {
    assert after[FindQuote(before, id)] == before[FindQuote(before, id)];
    assert forall j | 0 <= j < FindQuote(before, id) :: after[j] == before[j];
  }

  /** What happens to the bindings: nothing, or one key bound now to the
      unfinished task of the posted pair. */
  ghost predicate KeysMoved(db: DB, op: Op, after: DB) {
    || after.keys == db.keys
    || (op.InsertWithKey?
        && var i := FindUnfinished(after.tasks, op.pair);
        i < |after.tasks| && after.keys == db.keys[op.key := Binding(after.tasks[i].id, db.now)])
  }

  lemma ApplyKeys(cfg: Settings, db: DB, op: Op)
    ensures KeysMoved(db, op, Apply(cfg, db, op))
  {
    var after := Apply(cfg, db, op);
    if op.InsertWithKey? && |after.tasks| == |db.tasks| + 1 {
      assert forall j | 0 <= j < |db.tasks| :: after.tasks[j] == db.tasks[j];
      assert UnfinishedFor(after.tasks[|db.tasks|], op.pair);
    }
  }

  /** The foreign key holds as long as no row goes and no binding changes. */
  lemma KeysStay(db: DB, after: DB)
    requires KeysSound(db) && after.keys == db.keys && db.now <= after.now
    requires |db.tasks| <= |after.tasks|
    requires forall i | 0 <= i < |db.tasks| :: after.tasks[i].id == db.tasks[i].id
    ensures KeysSound(after)
  {
    forall k | k in after.keys
      ensures HasTask(after.tasks, after.keys[k].updateId)
    {
      assert HasTask(db.tasks, db.keys[k].updateId);
      assert after.tasks[FindId(db.tasks, db.keys[k].updateId)].id == db.keys[k].updateId;
    }
  }

  lemma KeysKept(cfg: Settings, db: DB, op: Op, after: DB)
    requires Sound(db) && Guard(db, op) && Moved(cfg, db, op, after) && KeysMoved(db, op, after)
    ensures KeysSound(after)
  {
    RowsKept(cfg, db, op, after);
    forall k | k in after.keys
      ensures HasTask(after.tasks, after.keys[k].updateId) && after.keys[k].createdAt <= after.now
    {
      if k in db.keys && after.keys[k] == db.keys[k] {
        FindIdKept(db, after, db.keys[k].updateId);
      } else {
        FindIdAt(after.tasks, FindUnfinished(after.tasks, op.pair));
      }
    }
  }

  /** Every operation keeps the whole invariant. */
  lemma SoundKept(cfg: Settings, db: DB, op: Op)
    requires Sound(db) && Guard(db, op)
    ensures Sound(Apply(cfg, db, op))
  {
    var after := Apply(cfg, db, op);
    ApplyMoves(cfg, db, op);
    ApplyQuotes(cfg, db, op);
    ApplyKeys(cfg, db, op);
    RowsKept(cfg, db, op, after);
    QuotesKept(cfg, db, op, after);
    KeysKept(cfg, db, op, after);
  }
}
