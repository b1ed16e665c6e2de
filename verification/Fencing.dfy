/** Claims and their tokens over whole runs. */
module Fencing {
  import opened Domain
  import opened Rates
  import opened Store
  import opened Queue
  import opened Ledger
  import opened World
  import opened Steps
  import opened History

  /** In every reachable state each token was handed out at most once and has
      taken effect at most once, and never without having been handed out. */
  lemma TokensUsedOnce(cfg: Settings, r: Run, k: nat, id: Id, token: int)
    requires IsRun(cfg, r) && k < |r.states|
    ensures TokenUses(r.states[k].log, id, token) <= TokenClaims(r.states[k].log, id, token) <= 1
  {
    InvariantAlways(cfg, r, k);
    var s := r.states[k];
    if HasTask(s.db.tasks, id) {
      assert Balanced(cfg, s.log, s.db.tasks[FindId(s.db.tasks, id)]);
    } else {
      CountStranger(s.log, Filter({Claimed}, id, Some(token)));
      CountStranger(s.log, Filter(USES, id, Some(token)));
    }
  }

  /** A claim that was made is no longer in force exactly when it has taken
      effect, by its worker's hand or the recovery pass's. */
  lemma UsedMeansSpent(cfg: Settings, r: Run, k: nat, claim: Task)
    requires IsRun(cfg, r) && k < |r.states|
    requires TokenClaims(r.states[k].log, claim.id, claim.attempts) == 1
    ensures TokenUses(r.states[k].log, claim.id, claim.attempts) == 1 <==> !Held(r.states[k].db.tasks, claim)
  {
    InvariantAlways(cfg, r, k);
    TokenState(cfg, r.states[k].db, r.states[k].log, claim);
  }

  lemma TokenState(cfg: Settings, db: DB, log: Log, claim: Task)
    requires RowsOrdered(db.tasks) && LogAgrees(cfg, db, log) && TokenClaims(log, claim.id, claim.attempts) == 1
    ensures HasTask(db.tasks, claim.id) && 1 <= claim.attempts <= db.tasks[FindId(db.tasks, claim.id)].attempts
    ensures TokenUses(log, claim.id, claim.attempts) == 1 <==> !Held(db.tasks, claim)
  {
    if !HasTask(db.tasks, claim.id) {
      CountStranger(log, Filter({Claimed}, claim.id, Some(claim.attempts)));
      assert false;
    }
    var n := FindId(db.tasks, claim.id);
    assert Balanced(cfg, log, db.tasks[n]);
    forall i | 0 <= i < |db.tasks| && Holds(db.tasks[i], claim)
      ensures i == n
    {
      FindIdAt(db.tasks, i);
    }
  }

  /** Once a claim has taken effect, every use of it in any later state is
      reported stale and leaves all tables unchanged. */
  lemma UsedOnceThenStale(cfg: Settings, r: Run, i: nat, j: nat, claim: Task, rate: Decimal, rateDate: int,
                          fetchedAt: Time, reason: string)
    requires IsRun(cfg, r) && i <= j < |r.states| && reason != ""
    requires TokenUses(r.states[i].log, claim.id, claim.attempts) >= 1
    ensures var db := r.states[j].db;
            && CompleteTask(db, claim, rate, rateDate, fetchedAt) == Stepped(db, Err(StaleClaim))
            && FailTask(db, claim, reason) == Stepped(db, Err(StaleClaim))
            && ReleaseTask(db, claim) == Stepped(db, Err(StaleClaim))
  {
    TokensUsedOnce(cfg, r, i, claim.id, claim.attempts);
    SoundAlways(cfg, r, i);
    TokenState(cfg, r.states[i].db, r.states[i].log, claim);
    var spent := claim.(pair := r.states[i].db.tasks[FindId(r.states[i].db.tasks, claim.id)].pair);
    assert forall t: Task :: Holds(t, claim) <==> Holds(t, spent);
    SpentForever(cfg, r, i, j, spent);
  }

  /** What a claim step hands out, unless it never took effect or found nothing. */
  function ClaimAt(r: Run, k: nat): Option<Task>
    requires k < |r.labels| < |r.states|
  {
    if r.labels[k].ClaimNext? && r.labels[k].fate != Dropped && OldestPending(r.states[k].db.tasks).Some?
    then Some(ClaimedRow(r.states[k].db.tasks[OldestPending(r.states[k].db.tasks).value], r.states[k].db.now))
    else None
  }

  lemma ClaimAtKnown(cfg: Settings, r: Run, k: nat)
    requires IsRun(cfg, r) && k < |r.labels| && ClaimAt(r, k).Some?
    ensures ClaimKnown(Apply(cfg, r.states[k].db, Claim), ClaimAt(r, k).value)
    ensures r.states[k + 1].db == Apply(cfg, r.states[k].db, Claim)
    ensures ClaimTask(r.states[k].db).result == Ok(Some(ClaimAt(r, k).value))
    ensures forall other: Task | ClaimKnown(r.states[k].db, other) :: SomeoneElses(other, ClaimAt(r, k).value)
  {
    InvariantAlways(cfg, r, k);
    assert StepAt(cfg, r, k);
    FreshClaim(cfg, r.states[k].db);
    assert OpOf(cfg, r.states[k], r.labels[k]) == Claim;
  }

  lemma ClaimKnownSince(cfg: Settings, r: Run, i: nat, j: nat)
    requires IsRun(cfg, r) && i < j < |r.states| && i < |r.labels| && ClaimAt(r, i).Some?
    ensures ClaimKnown(r.states[j].db, ClaimAt(r, i).value)
  {
    ClaimAtKnown(cfg, r, i);
    GrowsForever(cfg, r, i + 1, j);
    SoundAlways(cfg, r, j);
    KnownGrows(cfg, r.states[i + 1].db, r.states[j].db, ClaimAt(r, i).value);
  }

  /** No two claims of a run ever carry the same identifier and attempts. */
  lemma ClaimsNeverRepeat(cfg: Settings, r: Run, i: nat, j: nat)
    requires IsRun(cfg, r) && i < j < |r.labels|
    requires ClaimAt(r, i).Some? && ClaimAt(r, j).Some?
    ensures SomeoneElses(ClaimAt(r, i).value, ClaimAt(r, j).value)
  {
    ClaimKnownSince(cfg, r, i, j);
    ClaimAtKnown(cfg, r, j);
  }

  /** A claim that was made and is no longer in force. */
  ghost predicate Spent(db: DB, claim: Task) { ClaimKnown(db, claim) && !Held(db.tasks, claim) }

  /** A spent claim can do nothing: every use is reported stale and changes nothing. */
  lemma SpentIsStale(db: DB, claim: Task, rate: Decimal, rateDate: int, fetchedAt: Time, reason: string)
    requires Spent(db, claim)
    ensures CompleteTask(db, claim, rate, rateDate, fetchedAt) == Stepped(db, Err(StaleClaim))
    ensures reason != "" ==> FailTask(db, claim, reason) == Stepped(db, Err(StaleClaim))
    ensures ReleaseTask(db, claim) == Stepped(db, Err(StaleClaim))
  {
  }

  lemma SpentGrows(cfg: Settings, db: DB, after: DB, claim: Task)
    requires DbGrows(cfg, db, after) && RowsOrdered(after.tasks) && Spent(db, claim)
    ensures Spent(after, claim)
  {
    KnownGrows(cfg, db, after, claim);
    var n := FindId(db.tasks, claim.id);
    assert !Holds(db.tasks[n], claim);
    assert RowGrows(db.tasks[n], after.tasks[n]);
    forall i | 0 <= i < |after.tasks|
      ensures !Holds(after.tasks[i], claim)
    {
      if after.tasks[i].id == claim.id {
        FindIdAt(after.tasks, i);
      }
    }
  }

  /** Once spent, a claim is spent for ever. */
  lemma SpentForever(cfg: Settings, r: Run, i: nat, j: nat, claim: Task)
    requires IsRun(cfg, r) && i <= j < |r.states| && Spent(r.states[i].db, claim)
    ensures Spent(r.states[j].db, claim)
  {
    GrowsForever(cfg, r, i, j);
    SoundAlways(cfg, r, j);
    SpentGrows(cfg, r.states[i].db, r.states[j].db, claim);
  }

  /** An operation that takes effect on a claim spends it. */
  lemma UseSpends(cfg: Settings, db: DB, op: Op, claim: Task)
    requires Sound(db) && Guard(db, op) && ClaimKnown(db, claim) && Held(db.tasks, claim)
    requires ActsOn(op, claim) && Apply(cfg, db, op) != db
    ensures Spent(Apply(cfg, db, op), claim)
  {
    var after := Apply(cfg, db, op);
    ApplyMoves(cfg, db, op);
    ClaimKnownKept(cfg, db, op, after, claim);
    forall i | 0 <= i < |after.tasks|
      ensures !Holds(after.tasks[i], claim)
    {
      assert RowMove(cfg, db, op, db.tasks[i], after.tasks[i]);
    }
  }

  /** A finalisation that committed without its answer arriving leaves nothing
      for the release that follows it: whenever that release runs it is stale and
      the tables stay as they are. */
  lemma ReleaseAfterLostAnswer(cfg: Settings, r: Run, i: nat, j: nat, w: nat, giveBack: bool)
    requires IsRun(cfg, r) && i < j < |r.states| && r.labels[i] == Finish(w, Lost, giveBack)
    requires w < |r.states[i].workers| && r.states[i].workers[w].phase.Finishing?
    requires FinishResult(r.states[i].db, r.states[i].workers[w].phase.claim,
                          r.states[i].workers[w].phase.verdict).Ok?
    ensures r.states[i + 1].db != r.states[i].db
    ensures ReleaseTask(r.states[j].db, r.states[i].workers[w].phase.claim)
         == Stepped(r.states[j].db, Err(StaleClaim))
  {
    var claim := r.states[i].workers[w].phase.claim;
    LostFinishStep(cfg, r, i, w, giveBack);
    SpentForever(cfg, r, i + 1, j, claim);
  }

  lemma LostFinishStep(cfg: Settings, r: Run, i: nat, w: nat, giveBack: bool)
    requires IsRun(cfg, r) && i < |r.labels| && r.labels[i] == Finish(w, Lost, giveBack)
    requires w < |r.states[i].workers| && r.states[i].workers[w].phase.Finishing?
    requires FinishResult(r.states[i].db, r.states[i].workers[w].phase.claim,
                          r.states[i].workers[w].phase.verdict).Ok?
    ensures r.states[i + 1].db != r.states[i].db
    ensures Spent(r.states[i + 1].db, r.states[i].workers[w].phase.claim)
  {
    InvariantAlways(cfg, r, i);
    assert StepAt(cfg, r, i);
    LostFinishSpends(cfg, r.states[i], r.labels[i]);
  }

  lemma LostFinishSpends(cfg: Settings, s: State, l: Label)
    requires Invariant(cfg, s) && Enabled(cfg, s, l) && l.Finish? && l.fate == Lost
    requires l.w < |s.workers| && s.workers[l.w].phase.Finishing?
    requires FinishResult(s.db, s.workers[l.w].phase.claim, s.workers[l.w].phase.verdict).Ok?
    ensures Next(cfg, s, l).db != s.db && Spent(Next(cfg, s, l).db, s.workers[l.w].phase.claim)
  {
    var claim, verdict := s.workers[l.w].phase.claim, s.workers[l.w].phase.verdict;
    GuardHolds(cfg, s, l);
    LostFinishDb(cfg, s, l);
    assert ClaimKnown(s.db, claim);
    SpendFinish(cfg, s.db, claim, verdict);
  }

  lemma LostFinishDb(cfg: Settings, s: State, l: Label)
    requires l.Finish? && l.fate == Lost && l.w < |s.workers| && s.workers[l.w].phase.Finishing?
    ensures OpOf(cfg, s, l) == FinishOp(s.workers[l.w].phase.claim, s.workers[l.w].phase.verdict)
    ensures Next(cfg, s, l).db
         == Apply(cfg, s.db, FinishOp(s.workers[l.w].phase.claim, s.workers[l.w].phase.verdict))
  {
  }

  lemma SpendFinish(cfg: Settings, db: DB, claim: Task, verdict: Verdict)
    requires Sound(db) && Guard(db, FinishOp(claim, verdict)) && ClaimKnown(db, claim)
    requires FinishResult(db, claim, verdict).Ok?
    ensures var after := Apply(cfg, db, FinishOp(claim, verdict)); after != db && Spent(after, claim)
  {
    FinishChanges(cfg, db, claim, verdict);
    UseSpends(cfg, db, FinishOp(claim, verdict), claim);
  }

  lemma FinishChanges(cfg: Settings, db: DB, claim: Task, verdict: Verdict)
    requires FinishResult(db, claim, verdict).Ok?
    ensures Held(db.tasks, claim) && Apply(cfg, db, FinishOp(claim, verdict)) != db
  {
    var i :| 0 <= i < |db.tasks| && Holds(db.tasks[i], claim);
    assert Apply(cfg, db, FinishOp(claim, verdict)).tasks[i].status != InProgress;
  }

  // ----- Conservation and termination -------------------------------------------

  /** In every reachable state: claims made are releases plus the claim in force
      or spent; the recovery pass has freed the task fewer than maxAttempts times;
      attempts exceed the limit only by shutdown releases; and exactly one ending
      is on record for a terminal task, none for an unfinished one. */
  lemma ClaimsConserved(cfg: Settings, r: Run, k: nat, n: nat)
    requires IsRun(cfg, r) && k < |r.states| && n < |r.states[k].db.tasks|
    ensures var t, log := r.states[k].db.tasks[n], r.states[k].log;
            && t.attempts == Claims(log, t.id)
            && t.attempts == Releases(log, t.id) + Recoveries(log, t.id) + (if t.status == Pending then 0 else 1)
            && Recoveries(log, t.id) <= cfg.maxAttempts - 1
            && t.attempts <= cfg.maxAttempts + Releases(log, t.id)
            && Endings(log, t.id) == (if t.status.Unfinished() then 0 else 1)
  {
    InvariantAlways(cfg, r, k);
    AttemptsBounded(cfg, r.states[k].log, r.states[k].db.tasks[n]);
  }

  const ALL: set<Kind> := ENDINGS + {Claimed} + {Released} + {Recovered}

  lemma KindCounted(kind: Kind)
    ensures kind in ALL
    ensures kind in ENDINGS <==> kind == Completed || kind == Broke || kind == Abandoned
  {
  }

  lemma {:induction false} CountAll(log: Log, id: Id)
    ensures Count(log, Filter(ALL, id, None))
         == Claims(log, id) + Releases(log, id) + Recoveries(log, id) + Endings(log, id)
  {
    if log != [] {
      CountAll(log[..|log| - 1], id);
      KindCounted(log[|log| - 1].kind);
    }
  }

  /** How many of the first k steps changed the status of the row at n. */
  function StatusChanges(r: Run, n: nat, k: nat): nat
    requires k < |r.states|
  {
    if k == 0 then 0
    else
      var before, after := r.states[k - 1].db.tasks, r.states[k].db.tasks;
      var changed := n < |before| && n < |after| && before[n].status != after[n].status;
      StatusChanges(r, n, k - 1) + if changed then 1 else 0
  }

  /** The history records every status change and nothing else. */
  lemma {:induction false} HistoryIsFaithful(cfg: Settings, r: Run, n: nat, k: nat)
    requires IsRun(cfg, r) && k < |r.states|
    ensures StatusChanges(r, n, k) ==
            if n < |r.states[k].db.tasks| then Count(r.states[k].log, Filter(ALL, r.states[k].db.tasks[n].id, None))
            else 0
  {
    if k > 0 {
      HistoryIsFaithful(cfg, r, n, k - 1);
      StepCounted(cfg, r, n, k - 1);
    }
  }

  lemma ChangeCounted(s: State, op: Op, t: State, n: nat)
    requires SameIds(s.db.tasks, t.db.tasks) && n < |s.db.tasks|
    requires t.log == Grown(s.log, op, s.db.tasks, t.db.tasks)
    ensures var f := Filter(ALL, s.db.tasks[n].id, None);
            Count(t.log, f) == Count(s.log, f) + if s.db.tasks[n].status != t.db.tasks[n].status then 1 else 0
  {
    CountGrown(s.log, op, s.db.tasks, t.db.tasks, n, Filter(ALL, s.db.tasks[n].id, None));
    var e := EventOf(op, s.db.tasks[n], t.db.tasks[n]);
    if e.Some? {
      KindCounted(e.value.kind);
    }
  }

  lemma NewUncounted(cfg: Settings, log: Log, t: Task)
    requires Balanced(cfg, log, t) && t.status == Pending && t.attempts == 0
    ensures Count(log, Filter(ALL, t.id, None)) == 0
  {
    CountAll(log, t.id);
  }

  ghost predicate Counted(r: Run, n: nat, k: nat)
    requires k + 1 < |r.states|
  {
    var s, t := r.states[k], r.states[k + 1];
    && |s.db.tasks| <= |t.db.tasks|
    && (n < |t.db.tasks| ==>
          Count(t.log, Filter(ALL, t.db.tasks[n].id, None)) ==
          if n >= |s.db.tasks| then 0
          else Count(s.log, Filter(ALL, s.db.tasks[n].id, None))
               + if s.db.tasks[n].status != t.db.tasks[n].status then 1 else 0)
  }

  lemma NewRow(cfg: Settings, db: DB, op: Op, after: DB, n: nat)
    requires Moved(cfg, db, op, after) && |db.tasks| <= n < |after.tasks|
    ensures after.tasks[n].status == Pending && after.tasks[n].attempts == 0
  {
  }

  lemma StepIds(cfg: Settings, r: Run, k: nat) returns (op: Op)
    requires IsRun(cfg, r) && k < |r.labels|
    ensures op == OpOf(cfg, r.states[k], r.labels[k])
    ensures SameIds(r.states[k].db.tasks, r.states[k + 1].db.tasks)
    ensures Moved(cfg, r.states[k].db, op, r.states[k + 1].db)
    ensures r.states[k + 1].log == Grown(r.states[k].log, op, r.states[k].db.tasks, r.states[k + 1].db.tasks)
  {
    op := StepFacts(cfg, r, k);
    MovedSameIds(cfg, r.states[k].db, op, r.states[k + 1].db);
  }

  lemma BalancedAt(cfg: Settings, r: Run, k: nat, n: nat)
    requires IsRun(cfg, r) && k < |r.states| && n < |r.states[k].db.tasks|
    ensures Balanced(cfg, r.states[k].log, r.states[k].db.tasks[n])
  {
    SoundAlways(cfg, r, k);
  }

  /** A step adds to the count of a row's events what it adds to its status changes. */
  lemma StepCounted(cfg: Settings, r: Run, n: nat, k: nat)
    requires IsRun(cfg, r) && k < |r.labels|
    ensures Counted(r, n, k)
  {
    var op := StepIds(cfg, r, k);
    if n < |r.states[k].db.tasks| {
      ChangeCounted(r.states[k], op, r.states[k + 1], n);
    } else if n < |r.states[k + 1].db.tasks| {
      NewRow(cfg, r.states[k].db, op, r.states[k + 1].db, n);
      BalancedAt(cfg, r, k + 1, n);
      NewUncounted(cfg, r.states[k + 1].log, r.states[k + 1].db.tasks[n]);
    }
  }

  /** What each kind of event is, by the step that made it and the status before
      and after. */
  predicate Is(kind: Kind, l: Label, before: Status, after: Status) {
    match kind
    case Claimed => before == Pending && after == InProgress && l.ClaimNext?
    case Completed => before == InProgress && after == Done && l.Finish?
    case Broke => before == InProgress && after == Failed && l.Finish?
    case Released => before == InProgress && after == Pending && l.HandBack?
    case Recovered => before == InProgress && after == Pending && l.Pass?
    case Abandoned => before == InProgress && after == Failed && l.Pass?
  }

  /** How many of the first k steps were, for the row at n, of this kind. */
  function StepsMade(r: Run, n: nat, k: nat, kind: Kind): nat
    requires k < |r.states| <= |r.labels| + 1
  {
    if k == 0 then 0
    else
      var before, after := r.states[k - 1].db.tasks, r.states[k].db.tasks;
      var made := n < |before| && n < |after| && Is(kind, r.labels[k - 1], before[n].status, after[n].status);
      StepsMade(r, n, k - 1, kind) + if made then 1 else 0
  }

  lemma OpOfLabel(cfg: Settings, s: State, l: Label)
    ensures var op := OpOf(cfg, s, l);
            && (op.Claim? ==> l.ClaimNext?)
            && (op.Complete? || op.Fail? ==> l.Finish?)
            && (op.Release? ==> l.HandBack?)
            && (op.Sweep? ==> l.Pass?)
  {
  }

  lemma EventIs(cfg: Settings, s: State, l: Label, t: Task, u: Task, kind: Kind)
    requires RowMove(cfg, s.db, OpOf(cfg, s, l), t, u)
    ensures Hit(Filter({kind}, t.id, None), EventOf(OpOf(cfg, s, l), t, u))
         == if Is(kind, l, t.status, u.status) then 1 else 0
  {
    OpOfLabel(cfg, s, l);
  }

  lemma NoEventsYet(cfg: Settings, log: Log, t: Task, kind: Kind)
    requires Balanced(cfg, log, t) && t.status == Pending && t.attempts == 0
    ensures Count(log, Filter({kind}, t.id, None)) == 0
  {
    CountAll(log, t.id);
    Fewer(log, t.id, kind);
  }

  lemma {:induction false} Fewer(log: Log, id: Id, kind: Kind)
    ensures Count(log, Filter({kind}, id, None)) <= Count(log, Filter(ALL, id, None))
  {
    if log != [] {
      Fewer(log[..|log| - 1], id, kind);
      KindCounted(log[|log| - 1].kind);
    }
  }

  lemma StepNamed(cfg: Settings, r: Run, n: nat, k: nat, kind: Kind)
    requires IsRun(cfg, r) && k < |r.labels| && n < |r.states[k + 1].db.tasks|
    ensures var s, t := r.states[k], r.states[k + 1];
            var f := Filter({kind}, t.db.tasks[n].id, None);
            Count(t.log, f) ==
            if n >= |s.db.tasks| then 0
            else Count(s.log, f) + if Is(kind, r.labels[k], s.db.tasks[n].status, t.db.tasks[n].status) then 1 else 0
  {
    var op := StepIds(cfg, r, k);
    var s, t := r.states[k], r.states[k + 1];
    if n < |s.db.tasks| {
      CountGrown(s.log, op, s.db.tasks, t.db.tasks, n, Filter({kind}, s.db.tasks[n].id, None));
      EventIs(cfg, s, r.labels[k], s.db.tasks[n], t.db.tasks[n], kind);
    } else {
      NewRow(cfg, s.db, op, t.db, n);
      BalancedAt(cfg, r, k + 1, n);
      NoEventsYet(cfg, t.log, t.db.tasks[n], kind);
    }
  }

  lemma NeverFewerRows(cfg: Settings, r: Run, k: nat)
    requires IsRun(cfg, r) && k < |r.labels|
    ensures |r.states[k].db.tasks| <= |r.states[k + 1].db.tasks|
    ensures forall n | 0 <= n < |r.states[k].db.tasks| :: r.states[k + 1].db.tasks[n].id == r.states[k].db.tasks[n].id
  {
    var op := StepIds(cfg, r, k);
  }

  /** The history says of every kind how many steps of the run were of it: claims
      are made by claim steps, completions and failures by finalisations, releases
      by workers handing back, the rest by the recovery pass. */
  lemma {:induction false} HistoryNamesSteps(cfg: Settings, r: Run, n: nat, k: nat, kind: Kind)
    requires IsRun(cfg, r) && k < |r.states|
    ensures StepsMade(r, n, k, kind) ==
            if n < |r.states[k].db.tasks| then Count(r.states[k].log, Filter({kind}, r.states[k].db.tasks[n].id, None))
            else 0
  {
    if k > 0 {
      HistoryNamesSteps(cfg, r, n, k - 1, kind);
      NeverFewerRows(cfg, r, k - 1);
      if n < |r.states[k].db.tasks| {
        StepNamed(cfg, r, n, k - 1, kind);
      }
    }
  }

  /** The conservation of claims in the steps of the run itself. */
  lemma StepsConserved(cfg: Settings, r: Run, k: nat, n: nat)
    requires IsRun(cfg, r) && k < |r.states| && n < |r.states[k].db.tasks|
    ensures var t := r.states[k].db.tasks[n];
            var releases, recoveries := StepsMade(r, n, k, Released), StepsMade(r, n, k, Recovered);
            && t.attempts == StepsMade(r, n, k, Claimed)
            && t.attempts == releases + recoveries + (if t.status == Pending then 0 else 1)
            && recoveries <= cfg.maxAttempts - 1
            && t.attempts <= cfg.maxAttempts + releases
            && StepsMade(r, n, k, Completed) == (if t.status == Done then 1 else 0)
            && StepsMade(r, n, k, Broke) + StepsMade(r, n, k, Abandoned) == (if t.status == Failed then 1 else 0)
  {
    HistoryNamesSteps(cfg, r, n, k, Claimed);
    HistoryNamesSteps(cfg, r, n, k, Released);
    HistoryNamesSteps(cfg, r, n, k, Recovered);
    HistoryNamesSteps(cfg, r, n, k, Completed);
    HistoryNamesSteps(cfg, r, n, k, Broke);
    HistoryNamesSteps(cfg, r, n, k, Abandoned);
    ClaimsConserved(cfg, r, k, n);
    BalancedAt(cfg, r, k, n);
    EndingsSplit(r.states[k].log, r.states[k].db.tasks[n].id);
  }

  lemma {:induction false} EndingsSplit(log: Log, id: Id)
    ensures Endings(log, id) == Completions(log, id) + Count(log, Filter({Broke}, id, None))
                                + Count(log, Filter({Abandoned}, id, None))
  {
    if log != [] {
      EndingsSplit(log[..|log| - 1], id);
    }
  }

  /** With R shutdown releases a task changes status at most 2(maxAttempts + R) times. */
  lemma StatusChangesLimited(cfg: Settings, r: Run, n: nat, k: nat)
    requires IsRun(cfg, r) && k < |r.states| && n < |r.states[k].db.tasks|
    ensures StatusChanges(r, n, k)
         <= 2 * (cfg.maxAttempts + Releases(r.states[k].log, r.states[k].db.tasks[n].id))
  {
    HistoryIsFaithful(cfg, r, n, k);
    InvariantAlways(cfg, r, k);
    CountAll(r.states[k].log, r.states[k].db.tasks[n].id);
    StatusChangesBounded(cfg, r.states[k].log, r.states[k].db.tasks[n]);
  }

  /** Starts a task can still be given without another shutdown release. */
  function StartsLeft(cfg: Settings, t: Task): nat {
    var below: nat := if t.attempts < cfg.maxAttempts then cfg.maxAttempts - t.attempts else 0;
    match t.status
    case Pending => if below == 0 then 1 else below
    case InProgress => below
    case _ => 0
  }

  /** The termination measure, given how many shutdown releases are still to come. */
  function Rank(cfg: Settings, t: Task, releasesLeft: nat): nat {
    2 * (StartsLeft(cfg, t) + releasesLeft) + if t.status == InProgress then 1 else 0
  }

  /** Every status change lowers the measure; a new task starts at 2(maxAttempts + R). */
  lemma RankFalls(cfg: Settings, db: DB, op: Op, r: Task, s: Task, releasesLeft: nat)
    requires cfg.Valid() && RowMove(cfg, db, op, r, s)
    requires op.Release? ==> releasesLeft >= 1
    ensures s == r ==> Rank(cfg, s, releasesLeft) == Rank(cfg, r, releasesLeft)
    ensures s != r ==> Rank(cfg, s, if op.Release? then releasesLeft - 1 else releasesLeft) < Rank(cfg, r, releasesLeft)
    ensures Rank(cfg, NewTask(r.id, r.pair, db.now), releasesLeft) == 2 * (cfg.maxAttempts + releasesLeft)
  {
  }
}
