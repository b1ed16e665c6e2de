/** The recovery pass never takes a task from a worker inside its deadline. */
module Deadline {
  import opened Domain
  import opened Rates
  import opened Store
  import opened Queue
  import opened World
  import opened Steps
  import opened History
  import opened Claims
  import C = Config

  /** The settings handed to the actors come from this configuration. */
  ghost predicate From(cfg: Settings, c: C.Config) {
    cfg.taskTimeout == c.workerTaskTimeout && cfg.stuckTimeout == c.workerStuckTimeout
  }

  /** A worker's reason is never empty, so FailTask never refuses it. */
  ghost predicate ReasonsSpeak(s: State) {
    forall w | 0 <= w < |s.workers| && s.workers[w].phase.Finishing? && s.workers[w].phase.verdict.Failure? ::
      s.workers[w].phase.verdict.reason != ""
  }

  lemma ReasonsKept(cfg: Settings, s: State, l: Label)
    requires ReasonsSpeak(s) && Enabled(cfg, s, l)
    ensures ReasonsSpeak(Next(cfg, s, l))
  {
    var t := Next(cfg, s, l);
    if IsWorkerStep(l) {
      PhaseSpeaks(cfg, s.db, s.workers[l.w], l);
    }
  }

  lemma PhaseSpeaks(cfg: Settings, db: DB, worker: WorkerState, l: Label)
    requires IsWorkerStep(l)
    requires worker.phase.Finishing? && worker.phase.verdict.Failure? ==> worker.phase.verdict.reason != ""
    ensures var phase := NextPhase(cfg, db, worker, l);
            phase.Finishing? && phase.verdict.Failure? ==> phase.verdict.reason != ""
  {
  }

  lemma {:induction false} ReasonsAlways(cfg: Settings, r: Run, k: nat)
    requires IsRun(cfg, r) && k < |r.states|
    ensures ReasonsSpeak(r.states[k])
  {
    if k > 0 {
      ReasonsAlways(cfg, r, k - 1);
      assert StepAt(cfg, r, k - 1);
      ReasonsKept(cfg, r.states[k - 1], r.labels[k - 1]);
    }
  }

  /** A claim in force can be finalised; only the rate column can refuse it. */
  lemma LiveClaimFinishes(db: DB, claim: Task, verdict: Verdict)
    requires Sound(db) && ClaimLive(db, claim)
    requires verdict.Failure? ==> verdict.reason != ""
    ensures FinishResult(db, claim, verdict)
         == if verdict.Rate? && StoredRate(verdict.rate).None? then Err(Rejected) else Ok(())
  {
    var i := FindId(db.tasks, claim.id);
    assert Holds(db.tasks[i], claim);
    var q := FindQuote(db.quotes, claim.id);
    assert q < |db.quotes| ==> QuoteSound(db.tasks, db.quotes[q]);
  }

  /** A worker at work on a claim holds it for as long as the staleness threshold
      has not passed since the step that claimed it, and that step's instant is
      what the row is stamped with. */
  lemma ClaimLiveWhileFresh(cfg: Settings, r: Run, k: nat, w: nat, m: nat)
    requires IsRun(cfg, r) && m < k < |r.states| && w < |r.states[k].workers|
    requires AtWork(r.states[k].workers[w].phase) && LastClaim(r, w, m, k)
    requires r.states[k].db.now <= r.states[m].db.now + cfg.stuckTimeout
    ensures var claim, tasks := r.states[k].workers[w].phase.claim, r.states[k].db.tasks;
            && ClaimLive(r.states[k].db, claim)
            && HasTask(tasks, claim.id)
            && tasks[FindId(tasks, claim.id)].status == InProgress
            && tasks[FindId(tasks, claim.id)].attempts == claim.attempts
            && tasks[FindId(tasks, claim.id)].updatedAt == r.states[m].db.now
  {
    var n := ClaimMade(cfg, r, k, w);
    OnlyOne(r, w, k, m, n);
    InvariantAlways(cfg, r, k);
    assert ClaimSafe(cfg, r.states[k].db, r.states[k].workers[w].phase.claim);
  }

  /** Worker w has its claim from step m and its deadline from step b, which was at
      most one task timeout later, and at state k that deadline has not passed. */
  ghost predicate InsideDeadline(cfg: Settings, r: Run, w: nat, m: nat, b: nat, k: nat) {
    && m < k < |r.states| == |r.labels| + 1 && b < k
    && LastClaim(r, w, m, k) && LastBegin(r, w, b, k)
    && r.states[b].db.now <= r.states[m].db.now + cfg.taskTimeout
    && r.states[k].db.now <= r.states[b].db.now + cfg.taskTimeout
  }

  /** Under a configuration that passes the check without overflowing it, a
      worker whose deadline started at most one task timeout after its claim, and
      which issues its finalisation before that deadline, always still holds the
      claim: the task is completed or failed as the worker decided, unless the
      rate itself does not fit its column. In particular it is never stale. */
  lemma FinishInsideDeadline(cfg: Settings, c: C.Config, r: Run, k: nat, w: nat, m: nat, b: nat)
    requires c.Loaded() && c.Check() && From(cfg, c)
    requires c.workerTaskTimeout < C.TWO_64 / 4
    requires IsRun(cfg, r) && k < |r.states| && w < |r.states[k].workers|
    requires r.states[k].workers[w].phase.Finishing? && InsideDeadline(cfg, r, w, m, b, k)
    ensures var phase := r.states[k].workers[w].phase;
            && ClaimLive(r.states[k].db, phase.claim)
            && FinishResult(r.states[k].db, phase.claim, phase.verdict)
               == if phase.verdict.Rate? && StoredRate(phase.verdict.rate).None? then Err(Rejected) else Ok(())
  {
    C.CheckDemandsMargin(c);
    ClaimLiveWhileFresh(cfg, r, k, w, m);
    SoundAlways(cfg, r, k);
    ReasonsAlways(cfg, r, k);
    LiveClaimFinishes(r.states[k].db, r.states[k].workers[w].phase.claim, r.states[k].workers[w].phase.verdict);
  }

  /** The same for a worker still fetching: nobody has taken its task. */
  lemma ClaimLiveInsideDeadline(cfg: Settings, c: C.Config, r: Run, k: nat, w: nat, m: nat, b: nat)
    requires c.Loaded() && c.Check() && From(cfg, c)
    requires c.workerTaskTimeout < C.TWO_64 / 4
    requires IsRun(cfg, r) && k < |r.states| && w < |r.states[k].workers|
    requires r.states[k].workers[w].phase.Fetching? && InsideDeadline(cfg, r, w, m, b, k)
    ensures ClaimLive(r.states[k].db, r.states[k].workers[w].phase.claim)
  {
    C.CheckDemandsMargin(c);
    ClaimLiveWhileFresh(cfg, r, k, w, m);
  }

  /** And for as long as a worker may fetch or finalise, its deadline is the one
      counted from its latest begin step. */
  lemma DeadlineIsBegun(cfg: Settings, r: Run, k: nat, w: nat, b: nat)
    requires IsRun(cfg, r) && b < k < |r.states| && w < |r.states[k].workers|
    requires LastBegin(r, w, b, k) && Timed(r.states[k].workers[w].phase)
    ensures r.states[k].workers[w].phase.started == r.states[b].db.now
  {
    var c := DeadlineBegun(cfg, r, k, w);
    OnlyOne(r, w, k, b, c);
  }
}
