/** internal/worker/worker.go and recovery.go: what one holder of a claim, and
    the recovery pass, do to the tables. */
module Worker {
  import opened Domain
  import opened Rates
  import opened Store
  import opened Repository
  import opened Provider
  import opened World
  import Queue

  datatype Context = LiveContext | Cancelled | DeadlineExceeded

  /** Everything around a claim that the worker does not decide: the task
      context when the fetch has returned and when the finalisation has, the
      instant of the answer, and what the connection makes of each statement. */
  datatype Surroundings = Surroundings(afterFetch: Context, fetchedAt: Time, finish: Fate, afterFinish: Context,
                                       release: Fate)

  /** What the worker sets out to record, or None if it records nothing. */
  function Decision(fetched: Fetched, context: Context, fetchedAt: Time, providerAttempts: int): Option<Verdict> {
    if context != LiveContext then None
    else
      match fetched
      case Answer(outcome) => Some(VerdictOf(outcome, fetchedAt, providerAttempts))
      case Interrupted => Some(Failure(UNUSABLE))
  }

  /** The finalisation, and the release that follows it only when it failed for
      another reason than a lost claim and the worker is being cancelled. */
  function AfterFinalising(db: DB, claim: Task, verdict: Verdict, around: Surroundings): DB {
    var step := Under(around.finish, db, FinishStep(db, claim, verdict));
    if step.result.Err? && step.result.error != StaleClaim && around.afterFinish == Cancelled
    then Under(around.release, step.db, ReleaseTask(step.db, claim)).db
    else step.db
  }

  /** The tables after a claim has been processed, nobody else interleaving. */
  function Processed(db: DB, claim: Task, fetched: Fetched, around: Surroundings, providerAttempts: int): DB {
    match Decision(fetched, around.afterFetch, around.fetchedAt, providerAttempts)
    case Some(verdict) => AfterFinalising(db, claim, verdict, around)
    case None =>
      if around.afterFetch == Cancelled then Under(around.release, db, ReleaseTask(db, claim)).db else db
  }

  class Worker {
    const repo: Repository
    const rates: Retrier
    const providerAttempts: int

    /** The retrier and the worker are given the same count. */
    constructor (repo: Repository, rates: Retrier, providerAttempts: int)
      ensures this.repo == repo && this.rates == rates && this.providerAttempts == providerAttempts
    {
      this.repo := repo;
      this.rates := rates;
      this.providerAttempts := providerAttempts;
    }

    method Process(claim: Task, upstream: Upstream, around: Surroundings) returns (fetched: Fetched)
      requires rates.attempts >= 1 && repo.Valid()
      modifies repo, upstream
      ensures repo.Valid()
      ensures upstream.calls > old(upstream.calls)
      ensures FetchRun(upstream.script, old(upstream.calls), upstream.calls - old(upstream.calls), rates.attempts,
                       fetched)
      ensures repo.Db() == Processed(old(repo.Db()), claim, fetched, around, providerAttempts)
    {
      fetched := rates.FetchRate(upstream);
      if around.afterFetch == Cancelled {
        var released := repo.ReleaseTask(claim, around.release);
        return;
      }
      if around.afterFetch == DeadlineExceeded {
        return;
      }
      var result: Result<()>;
      if fetched.Answer? && fetched.outcome.Success? {
        result := repo.CompleteTask(claim, fetched.outcome.rate, fetched.outcome.date, around.fetchedAt, around.finish);
      } else {
        var reason := if fetched.Answer? then FailureReason(fetched.outcome, providerAttempts) else UNUSABLE;
        result := repo.FailTask(claim, reason, around.finish);
      }
      if result.Err? && result.error != StaleClaim && around.afterFinish == Cancelled {
        var released := repo.ReleaseTask(claim, around.release);
      }
    }
  }

  /** The one statement of a recovery pass. */
  method Pass(repo: Repository, stuckTimeout: Time, maxAttempts: int, fate: Fate) returns (r: Result<(nat, nat)>)
    requires repo.Valid()
    modifies repo
    ensures repo.Valid()
    ensures Stepped(repo.Db(), r)
         == Under(fate, old(repo.Db()),
                  ReleaseStuckTasks(old(repo.Db()), stuckTimeout, maxAttempts, AbandonedReason(maxAttempts)))
  {
    r := repo.ReleaseStuckTasks(stuckTimeout, maxAttempts, AbandonedReason(maxAttempts), fate);
  }

  // ----- Processing as steps of the protocol ------------------------------------

  /** The worker's own view of a state. */
  ghost predicate Sees(s: State, w: nat, db: DB, phase: Phase, cancelled: bool) {
    s.db == db && w < |s.workers| && s.workers[w] == WorkerState(phase, cancelled)
  }

  lemma StepSees(cfg: Queue.Settings, s: State, l: Label)
    requires IsWorkerStep(l) && l.w < |s.workers|
    ensures Sees(Next(cfg, s, l), l.w, NextDb(cfg, s, l), NextPhase(cfg, s.db, s.workers[l.w], l),
                 s.workers[l.w].cancelled || l.Cancel?)
  {
  }

  lemma HandBackDb(cfg: Queue.Settings, s: State, w: nat, fate: Fate)
    requires w < |s.workers| && s.workers[w].phase.Releasing?
    ensures NextDb(cfg, s, HandBack(w, fate)) == Under(fate, s.db, ReleaseTask(s.db, s.workers[w].phase.claim)).db
  {
  }

  lemma FinishDb(cfg: Queue.Settings, s: State, w: nat, fate: Fate, giveBack: bool)
    requires w < |s.workers| && s.workers[w].phase.Finishing?
    ensures var phase := s.workers[w].phase;
            NextDb(cfg, s, Finish(w, fate, giveBack))
            == Under(fate, s.db, FinishStep(s.db, phase.claim, phase.verdict)).db
  {
  }

  /** A worker about to hand its claim back. */
  lemma HandsBack(cfg: Queue.Settings, s: State, w: nat, fate: Fate)
    requires w < |s.workers| && s.workers[w].phase.Releasing?
    ensures Feasible(cfg, s, [HandBack(w, fate)])
    ensures var t := Follow(cfg, s, [HandBack(w, fate)]);
            Sees(t, w, Under(fate, s.db, ReleaseTask(s.db, s.workers[w].phase.claim)).db, Polling,
                 s.workers[w].cancelled)
  {
    StepSees(cfg, s, HandBack(w, fate));
    HandBackDb(cfg, s, w, fate);
  }

  /** Whether the worker hands its claim back after finalising. */
  predicate GivesBackAfter(db: DB, claim: Task, verdict: Verdict, around: Surroundings) {
    var result := Under(around.finish, db, FinishStep(db, claim, verdict)).result;
    result.Err? && result.error != StaleClaim && around.afterFinish == Cancelled
  }

  function FinishLabels(w: nat, db: DB, claim: Task, verdict: Verdict, around: Surroundings): seq<Label> {
    [Finish(w, around.finish, around.afterFinish == Cancelled)]
    + if GivesBackAfter(db, claim, verdict, around) then [HandBack(w, around.release)] else []
  }

  /** A worker with its verdict, the cancellation it will notice already there. */
  lemma Finalises(cfg: Queue.Settings, s: State, w: nat, around: Surroundings)
    requires w < |s.workers| && s.workers[w].phase.Finishing?
    requires s.workers[w].cancelled <==> around.afterFinish == Cancelled
    ensures var phase := s.workers[w].phase;
            var labels := FinishLabels(w, s.db, phase.claim, phase.verdict, around);
            && Feasible(cfg, s, labels)
            && Sees(Follow(cfg, s, labels), w, AfterFinalising(s.db, phase.claim, phase.verdict, around), Polling,
                    s.workers[w].cancelled)
  {
    var phase := s.workers[w].phase;
    var l := Finish(w, around.finish, around.afterFinish == Cancelled);
    var labels := FinishLabels(w, s.db, phase.claim, phase.verdict, around);
    StepSees(cfg, s, l);
    FinishDb(cfg, s, w, around.finish, around.afterFinish == Cancelled);
    if GivesBackAfter(s.db, phase.claim, phase.verdict, around) {
      assert labels[1..] == [HandBack(w, around.release)];
      HandsBack(cfg, Next(cfg, s, l), w, around.release);
    } else {
      assert labels[1..] == [];
    }
  }

  /** The same, with the cancellation arriving now if there is to be one. */
  lemma FinalisesAfterCancel(cfg: Queue.Settings, s: State, w: nat, around: Surroundings)
    requires w < |s.workers| && s.workers[w].phase.Finishing? && !s.workers[w].cancelled
    ensures var phase := s.workers[w].phase;
            var labels := CancelLabels(w, around) + FinishLabels(w, s.db, phase.claim, phase.verdict, around);
            && Feasible(cfg, s, labels)
            && Sees(Follow(cfg, s, labels), w, AfterFinalising(s.db, phase.claim, phase.verdict, around), Polling,
                    around.afterFinish == Cancelled)
  {
    var phase := s.workers[w].phase;
    var finish := FinishLabels(w, s.db, phase.claim, phase.verdict, around);
    var labels := CancelLabels(w, around) + finish;
    if around.afterFinish == Cancelled {
      StepSees(cfg, s, Cancel(w));
      assert NextDb(cfg, s, Cancel(w)) == s.db;
      assert labels[1..] == finish;
      Finalises(cfg, Next(cfg, s, Cancel(w)), w, around);
    } else {
      assert labels == finish;
      Finalises(cfg, s, w, around);
    }
  }

  function CancelLabels(w: nat, around: Surroundings): seq<Label> {
    if around.afterFinish == Cancelled then [Cancel(w)] else []
  }

  /** What the worker passes on of a fetch it did not see cancelled. */
  function Returned(fetched: Fetched): Outcome {
    match fetched
    case Answer(outcome) => outcome
    case Interrupted => Permanent
  }

  /** The steps the protocol makes for one claim being processed. */
  function ProtocolSteps(w: nat, db: DB, claim: Task, fetched: Fetched, around: Surroundings, providerAttempts: int)
    : seq<Label>
  {
    match Decision(fetched, around.afterFetch, around.fetchedAt, providerAttempts)
    case Some(verdict) =>
      [Return(w, Returned(fetched), around.fetchedAt)]
      + (CancelLabels(w, around) + FinishLabels(w, db, claim, verdict, around))
    case None =>
      if around.afterFetch == Cancelled then [Cancel(w), GiveUp(w), HandBack(w, around.release)] else [TimeOut(w)]
  }

  lemma GivesUp(cfg: Queue.Settings, s: State, w: nat, claim: Task, started: Time, fate: Fate)
    requires Sees(s, w, s.db, Fetching(claim, started), false)
    ensures var labels := [Cancel(w), GiveUp(w), HandBack(w, fate)];
            && Feasible(cfg, s, labels)
            && Sees(Follow(cfg, s, labels), w, Under(fate, s.db, ReleaseTask(s.db, claim)).db, Polling, true)
  {
    var labels := [Cancel(w), GiveUp(w), HandBack(w, fate)];
    var t := Next(cfg, s, Cancel(w));
    StepSees(cfg, s, Cancel(w));
    assert NextDb(cfg, s, Cancel(w)) == s.db;
    assert labels[1..] == [GiveUp(w), HandBack(w, fate)];
    StepSees(cfg, t, GiveUp(w));
    assert NextDb(cfg, t, GiveUp(w)) == s.db;
    assert labels[1..][1..] == [HandBack(w, fate)];
    HandsBack(cfg, Next(cfg, t, GiveUp(w)), w, fate);
  }

  /** Processing a claim undisturbed is a stretch of the protocol's own steps: each
      is enabled where it is made, and together they leave the tables that Process
      leaves and the worker back at the queue. */
  lemma ProcessingIsSteps(cfg: Queue.Settings, s: State, w: nat, claim: Task, started: Time, fetched: Fetched,
                          around: Surroundings)
    requires Sees(s, w, s.db, Fetching(claim, started), false)
    requires around.afterFetch == DeadlineExceeded ==> s.db.now >= started + cfg.taskTimeout
    requires around.afterFetch == LiveContext ==> s.db.now <= started + cfg.taskTimeout
    ensures var labels := ProtocolSteps(w, s.db, claim, fetched, around, cfg.providerAttempts);
            && Feasible(cfg, s, labels)
            && Follow(cfg, s, labels).db == Processed(s.db, claim, fetched, around, cfg.providerAttempts)
            && w < |Follow(cfg, s, labels).workers| && Follow(cfg, s, labels).workers[w].phase == Polling
  {
    var labels := ProtocolSteps(w, s.db, claim, fetched, around, cfg.providerAttempts);
    if around.afterFetch == Cancelled {
      GivesUp(cfg, s, w, claim, started, around.release);
    } else {
      StepSees(cfg, s, labels[0]);
      assert NextDb(cfg, s, labels[0]) == s.db;
      if around.afterFetch == LiveContext {
        FinalisesAfterCancel(cfg, Next(cfg, s, labels[0]), w, around);
      } else {
        assert labels[1..] == [];
      }
    }
  }

  // ----- What a fetch leads to ------------------------------------------------------

  /** The row at n, held under this claim, and nothing else but quotes. */
  ghost predicate OnlyRow(db: DB, after: DB, n: int, t: Task) {
    && 0 <= n < |db.tasks| == |after.tasks|
    && after.tasks[n] == t
    && (forall i | 0 <= i < |db.tasks| && i != n :: after.tasks[i] == db.tasks[i])
    && after.keys == db.keys && after.now == db.now
  }

  lemma {:induction false} CompleteHeld(db: DB, claim: Task, rate: Decimal, date: int, fetchedAt: Time, n: nat)
    requires Queue.Sound(db) && n < |db.tasks| && Holds(db.tasks[n], claim)
    ensures var step, row := CompleteTask(db, claim, rate, date, fetchedAt), db.tasks[n];
            if StoredRate(rate).None? then step == Stepped(db, Err(Rejected))
            else
              && step.result == Ok(())
              && OnlyRow(db, step.db, n,
                         Task(row.id, row.pair, Done, row.attempts, None, row.createdAt, db.now))
              && step.db.quotes
                 == db.quotes + [Quote(claim.id, claim.pair, StoredRate(rate).value, date, fetchedAt)]
  {
    HeldAlone(db, claim, n);
    var q := FindQuote(db.quotes, claim.id);
    Queue.FindIdAt(db.tasks, n);
    assert q < |db.quotes| ==> Queue.QuoteSound(db.tasks, db.quotes[q]);
  }

  lemma HeldAlone(db: DB, claim: Task, n: nat)
    requires Queue.RowsOrdered(db.tasks) && n < |db.tasks| && Holds(db.tasks[n], claim)
    ensures Held(db.tasks, claim)
    ensures forall i | 0 <= i < |db.tasks| && i != n :: !Holds(db.tasks[i], claim)
  {
  }

  lemma {:induction false} FailHeld(db: DB, claim: Task, reason: string, n: nat)
    requires Queue.Sound(db) && reason != "" && n < |db.tasks| && Holds(db.tasks[n], claim)
    ensures var step, row := FailTask(db, claim, reason), db.tasks[n];
            && step.result == Ok(())
            && OnlyRow(db, step.db, n,
                       Task(row.id, row.pair, Failed, row.attempts, Some(reason), row.createdAt, db.now))
            && step.db.quotes == db.quotes
  {
    HeldAlone(db, claim, n);
  }

  lemma {:induction false} ReleaseHeld(db: DB, claim: Task, n: nat)
    requires Queue.Sound(db) && n < |db.tasks| && Holds(db.tasks[n], claim)
    ensures var step, row := ReleaseTask(db, claim), db.tasks[n];
            && step.result == Ok(())
            && OnlyRow(db, step.db, n,
                       Task(row.id, row.pair, Pending, row.attempts, row.error, row.createdAt, db.now))
            && step.db.quotes == db.quotes
  {
    HeldAlone(db, claim, n);
  }

  /** A rate answered while the task context was live completes the task: the row
      is done and one quote records that rate, its date and the instant of the
      answer. A rate the column refuses leaves the task in progress, unless the
      worker is being cancelled and hands it back. */
  lemma SuccessCompletes(db: DB, claim: Task, rate: Decimal, date: int, around: Surroundings, attempts: int, n: nat)
    requires Queue.Sound(db) && n < |db.tasks| && Holds(db.tasks[n], claim)
    requires around.afterFetch == LiveContext && around.finish != Dropped
    ensures var after, row := Processed(db, claim, Answer(Success(rate, date)), around, attempts), db.tasks[n];
            if StoredRate(rate).Some? then
              && OnlyRow(db, after, n, Task(row.id, row.pair, Done, row.attempts, None, row.createdAt, db.now))
              && after.quotes
                 == db.quotes + [Quote(claim.id, claim.pair, StoredRate(rate).value, date, around.fetchedAt)]
            else if around.afterFinish == Cancelled && around.release != Dropped then
              && OnlyRow(db, after, n,
                         Task(row.id, row.pair, Pending, row.attempts, row.error, row.createdAt, db.now))
              && after.quotes == db.quotes
            else after == db
  {
    CompleteHeld(db, claim, rate, date, around.fetchedAt, n);
    ReleaseHeld(db, claim, n);
    if StoredRate(rate).Some? && around.finish == Lost {
      LostAnswerThenRelease(db, claim, Rate(rate, date, around.fetchedAt), around);
    }
  }

  /** Any other answer while the task context was live fails the task, with the
      reason that its kind calls for. */
  lemma FailureFails(db: DB, claim: Task, fetched: Fetched, around: Surroundings, attempts: int, n: nat)
    requires Queue.Sound(db) && n < |db.tasks| && Holds(db.tasks[n], claim)
    requires around.afterFetch == LiveContext && around.finish != Dropped
    requires fetched.Answer? ==> !fetched.outcome.Success?
    ensures var after, row := Processed(db, claim, fetched, around, attempts), db.tasks[n];
            var reason := if fetched == Answer(Transient) then "provider unavailable after " + IntText(attempts) + " attempts"
                          else "provider returned an unusable response";
            && OnlyRow(db, after, n, Task(row.id, row.pair, Failed, row.attempts, Some(reason), row.createdAt, db.now))
            && after.quotes == db.quotes
  {
    var reason := if fetched == Answer(Transient) then UnavailableReason(attempts) else UNUSABLE;
    assert Decision(fetched, LiveContext, around.fetchedAt, attempts) == Some(Failure(reason));
    FailHeld(db, claim, reason, n);
    if around.finish == Lost {
      LostAnswerThenRelease(db, claim, Failure(reason), around);
    }
  }

  /** A finalisation that never reached the tables leaves the task in progress,
      unless the worker is being cancelled and hands it back. */
  lemma UnheardFinish(db: DB, claim: Task, fetched: Fetched, around: Surroundings, attempts: int, n: nat)
    requires Queue.Sound(db) && n < |db.tasks| && Holds(db.tasks[n], claim)
    requires around.afterFetch == LiveContext && around.finish == Dropped
    ensures var after, row := Processed(db, claim, fetched, around, attempts), db.tasks[n];
            if around.afterFinish == Cancelled && around.release != Dropped then
              && OnlyRow(db, after, n,
                         Task(row.id, row.pair, Pending, row.attempts, row.error, row.createdAt, db.now))
              && after.quotes == db.quotes
            else after == db
  {
    ReleaseHeld(db, claim, n);
  }

  // ----- Asking for a task, and waiting for one, as steps -----------------------------

  lemma TwoSteps(cfg: Queue.Settings, s: State, first: Label, second: Label)
    ensures Follow(cfg, s, [first, second]) == Next(cfg, Next(cfg, s, first), second)
    ensures Feasible(cfg, s, [first, second]) <==> Enabled(cfg, s, first) && Enabled(cfg, Next(cfg, s, first), second)
  {
    var t := Next(cfg, s, first);
    assert [first, second][1..] == [second] && [second][1..] == [];
    assert Follow(cfg, t, [second]) == Follow(cfg, Next(cfg, t, second), []);
    assert Feasible(cfg, t, [second]) <==> Enabled(cfg, t, second) && Feasible(cfg, Next(cfg, t, second), []);
  }

  /** A worker that asks is answered as the claim statement answers; with a task it
      starts that task's deadline now, with none it parks. */
  lemma ClaimingIsSteps(cfg: Queue.Settings, s: State, w: nat, fate: Fate)
    requires Sees(s, w, s.db, Polling, false)
    ensures var step := Under(fate, s.db, ClaimTask(s.db));
            var labels := [ClaimNext(w, fate),
                           if step.result.Ok? && step.result.value.Some? then Begin(w) else Park(w)];
            && Feasible(cfg, s, labels)
            && Sees(Follow(cfg, s, labels), w, step.db,
                    if step.result.Ok? && step.result.value.Some? then Fetching(step.result.value.value, s.db.now)
                    else Parked, false)
  {
    var l := ClaimNext(w, fate);
    var t := Next(cfg, s, l);
    var step := Under(fate, s.db, ClaimTask(s.db));
    var next := if step.result.Ok? && step.result.value.Some? then Begin(w) else Park(w);
    StepSees(cfg, s, l);
    ClaimStep(cfg, s, w, fate);
    StepSees(cfg, t, next);
    assert NextDb(cfg, t, next) == t.db;
    TwoSteps(cfg, s, l, next);
  }

  lemma ClaimStep(cfg: Queue.Settings, s: State, w: nat, fate: Fate)
    requires Sees(s, w, s.db, Polling, false)
    ensures var step := Under(fate, s.db, ClaimTask(s.db));
            && NextDb(cfg, s, ClaimNext(w, fate)) == step.db
            && step.db.now == s.db.now
            && NextPhase(cfg, s.db, s.workers[w], ClaimNext(w, fate))
               == if step.result.Ok? && step.result.value.Some? then Starting(step.result.value.value) else Yielding
  {
  }

  /** A parked worker may ask again at its interval, and a signal both brings it
      back to asking and is used up by it. */
  lemma WakingIsStep(cfg: Queue.Settings, s: State, w: nat, cancelled: bool)
    requires Sees(s, w, s.db, Parked, cancelled)
    ensures Enabled(cfg, s, PollAgain(w)) && Sees(Next(cfg, s, PollAgain(w)), w, s.db, Polling, cancelled)
    ensures Next(cfg, s, PollAgain(w)).slot == s.slot
    ensures Enabled(cfg, s, Wake(w)) <==> s.slot
    ensures Sees(Next(cfg, s, Wake(w)), w, s.db, Polling, cancelled) && !Next(cfg, s, Wake(w)).slot
  {
    StepSees(cfg, s, PollAgain(w));
    StepSees(cfg, s, Wake(w));
    assert NextDb(cfg, s, PollAgain(w)) == s.db && NextDb(cfg, s, Wake(w)) == s.db;
  }

  /** The recovery pass is a step of the protocol in every state, with the effect
      of its transaction. */
  lemma PassIsStep(cfg: Queue.Settings, s: State, fate: Fate)
    ensures Enabled(cfg, s, World.Label.Pass(fate))
    ensures Next(cfg, s, World.Label.Pass(fate)).db
         == Under(fate, s.db,
                  ReleaseStuckTasks(s.db, cfg.stuckTimeout, cfg.maxAttempts, AbandonedReason(cfg.maxAttempts))).db
  {
  }

  /** So is the passing of time. */
  lemma TickIsStep(cfg: Queue.Settings, s: State, elapsed: nat)
    ensures Enabled(cfg, s, Tick(elapsed))
    ensures Next(cfg, s, Tick(elapsed)).db == s.db.(now := s.db.now + elapsed)
  {
  }

  // ----- What a recorded reason means -------------------------------------------

  /** The worker sets out to fail its task as unavailable after N attempts if and
      only if the fetch made exactly N calls, every one of them was transient, and
      the task context was live when it returned. */
  lemma UnavailableMeansExhausted(script: nat -> Call, from: nat, n: nat, attempts: int, fetched: Fetched,
                                  context: Context, fetchedAt: Time)
    requires attempts >= 1 && FetchRun(script, from, n, attempts, fetched)
    ensures Decision(fetched, context, fetchedAt, attempts) == Some(Failure(UnavailableReason(attempts))) <==>
            && context == LiveContext && n == attempts
            && forall i | from <= i < from + attempts :: script(i).outcome == Transient
  {
    ReasonsDiffer(attempts, attempts);
    if fetched == Answer(Transient) {
      TransientMeansExhausted(script, from, n, attempts);
    } else if n == attempts {
      assert fetched == Answer(script(from + n - 1).outcome);
    }
  }

  /** What becomes of one row when its holder sets out to fail it. */
  lemma FailedRow(db: DB, claim: Task, reason: string, around: Surroundings, i: nat)
    requires reason != "" && i < |db.tasks|
    ensures var after := AfterFinalising(db, claim, Failure(reason), around);
            && |after.tasks| == |db.tasks|
            && (if Holds(db.tasks[i], claim) && around.finish != Dropped then
                  after.tasks[i] == ClosedRow(db.tasks[i], Broken(reason), db.now)
                else after.tasks[i].status == Failed ==> after.tasks[i] == db.tasks[i])
  {
    var step := Under(around.finish, db, FinishStep(db, claim, Failure(reason)));
    assert Holds(db.tasks[i], claim) ==> Held(db.tasks, claim);
  }

  /** Nor does one that sets out to complete its task fail a row. */
  lemma {:induction false} CompletedRow(db: DB, claim: Task, verdict: Verdict, around: Surroundings, i: nat)
    requires verdict.Rate? && i < |db.tasks|
    ensures var after := AfterFinalising(db, claim, verdict, around);
            && |after.tasks| == |db.tasks|
            && (after.tasks[i].status == Failed ==> after.tasks[i] == db.tasks[i])
  {
  }

  lemma {:induction false} HandedBackRow(db: DB, claim: Task, fate: Fate, i: nat)
    requires i < |db.tasks|
    ensures var after := Under(fate, db, ReleaseTask(db, claim)).db;
            && |after.tasks| == |db.tasks|
            && (after.tasks[i].status == Failed ==> after.tasks[i] == db.tasks[i])
  {
  }

  /** A row that has not failed yet ends up failed as unavailable after N attempts
      if and only if it was held under this claim, the fetch made exactly N calls,
      all of them transient, the task context was live when it returned, and the
      statement took effect. */
  lemma {:induction false} UnavailableRowMeansExhausted(db: DB, claim: Task, script: nat -> Call, from: nat, n: nat, attempts: int,
                                                        fetched: Fetched, around: Surroundings, i: nat)
    requires attempts >= 1 && FetchRun(script, from, n, attempts, fetched)
    requires i < |db.tasks| && db.tasks[i].status != Failed
    ensures var after := Processed(db, claim, fetched, around, attempts);
            && |after.tasks| == |db.tasks|
            && (after.tasks[i].status == Failed && after.tasks[i].error == Some(UnavailableReason(attempts)) <==>
                && Holds(db.tasks[i], claim)
                && around.afterFetch == LiveContext && around.finish != Dropped
                && n == attempts
                && forall c | from <= c < from + attempts :: script(c).outcome == Transient)
  {
    UnavailableMeansExhausted(script, from, n, attempts, fetched, around.afterFetch, around.fetchedAt);
    var decision := Decision(fetched, around.afterFetch, around.fetchedAt, attempts);
    if decision.Some? && decision.value.Failure? {
      FailedRow(db, claim, decision.value.reason, around, i);
    } else if decision.Some? {
      CompletedRow(db, claim, decision.value, around, i);
    } else {
      HandedBackRow(db, claim, around.release, i);
    }
  }

  /** A cancelled worker that had its finalisation committed without hearing of
      it releases nothing: the tables are those the finalisation left. */
  lemma LostAnswerThenRelease(db: DB, claim: Task, verdict: Verdict, around: Surroundings)
    requires FinishStep(db, claim, verdict).result.Ok? && around.finish == Lost
    ensures AfterFinalising(db, claim, verdict, around) == FinishStep(db, claim, verdict).db
  {
    var after := FinishStep(db, claim, verdict).db;
    assert forall i | 0 <= i < |after.tasks| :: !Holds(after.tasks[i], claim);
  }

  /** A worker cancelled while fetching and able to reach the database puts its
      task back with its attempts kept; one out of time leaves everything alone. */
  lemma LeavingEarly(db: DB, claim: Task, fetched: Fetched, around: Surroundings, attempts: int, n: nat)
    requires n < |db.tasks| && Holds(db.tasks[n], claim)
    ensures around.afterFetch == DeadlineExceeded ==> Processed(db, claim, fetched, around, attempts) == db
    ensures around.afterFetch == Cancelled && around.release == Delivered ==>
              var after := Processed(db, claim, fetched, around, attempts);
              && |after.tasks| == |db.tasks| && after.quotes == db.quotes && after.keys == db.keys
              && after.tasks[n].status == Pending && after.tasks[n].attempts == db.tasks[n].attempts
              && after.tasks[n].createdAt == db.tasks[n].createdAt
  {
    assert Held(db.tasks, claim);
  }
}
