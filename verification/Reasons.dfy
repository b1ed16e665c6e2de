/** Where the reason of a failed task and the rate of a done one come from, over
    whole runs. */
module Reasons {
  import opened Domain
  import opened Rates
  import opened Store
  import opened Queue
  import opened Provider
  import opened World
  import opened History

  /** What a worker sets out to record of each outcome. */
  ghost predicate Fits(verdict: Verdict, outcome: Outcome, fetchedAt: Time, attempts: int) {
    match outcome
    case Success(rate, date) => verdict == Rate(rate, date, fetchedAt)
    case Transient => verdict == Failure("provider unavailable after " + IntText(attempts) + " attempts")
    case Permanent => verdict == Failure("provider returned an unusable response")
  }

  /** At step m the fetch of worker w returned with what this verdict was made of,
      its task context still live. */
  ghost predicate ReturnedAt(cfg: Settings, r: Run, w: nat, m: nat, claim: Task, verdict: Verdict)
    requires m < |r.labels| < |r.states|
  {
    var l := r.labels[m];
    && l.Return? && l.w == w && w < |r.states[m].workers|
    && var worker := r.states[m].workers[w];
    && worker.phase.Fetching? && worker.phase.claim == claim
    && !worker.cancelled && r.states[m].db.now <= worker.phase.started + cfg.taskTimeout
    && Fits(verdict, l.outcome, l.fetchedAt, cfg.providerAttempts)
  }

  /** A worker about to finalise has just returned, or was about to before. */
  lemma FinishingBefore(cfg: Settings, s: State, l: Label, w: nat)
    requires Enabled(cfg, s, l) && w < |Next(cfg, s, l).workers| && Next(cfg, s, l).workers[w].phase.Finishing?
    ensures w < |s.workers|
    ensures (l.Return? && l.w == w) || s.workers[w].phase == Next(cfg, s, l).workers[w].phase
  {
  }

  /** Every verdict a worker holds goes back to a return of its own fetch. */
  lemma {:induction false} VerdictReturned(cfg: Settings, r: Run, k: nat, w: nat) returns (m: nat)
    requires IsRun(cfg, r) && k < |r.states| && w < |r.states[k].workers|
    requires r.states[k].workers[w].phase.Finishing?
    ensures m < k
    ensures ReturnedAt(cfg, r, w, m, r.states[k].workers[w].phase.claim, r.states[k].workers[w].phase.verdict)
    decreases k
  {
    assert k > 0;
    assert StepAt(cfg, r, k - 1);
    FinishingBefore(cfg, r.states[k - 1], r.labels[k - 1], w);
    if r.labels[k - 1].Return? && r.labels[k - 1].w == w {
      m := k - 1;
    } else {
      m := VerdictReturned(cfg, r, k - 1, w);
    }
  }

  /** The two ways a row comes to fail: by the worker that holds it, or, abandoned,
      by the recovery pass. */
  lemma FailingStep(cfg: Settings, s: State, l: Label, n: nat)
    requires Enabled(cfg, s, l) && n < |NextDb(cfg, s, l).tasks| && NextDb(cfg, s, l).tasks[n].status == Failed
    requires n < |s.db.tasks| ==> s.db.tasks[n].status != Failed
    ensures n < |s.db.tasks|
    ensures var row := NextDb(cfg, s, l).tasks[n];
            || (&& l.Finish? && l.w < |s.workers| && s.workers[l.w].phase.Finishing?
                && Holds(s.db.tasks[n], s.workers[l.w].phase.claim)
                && s.workers[l.w].phase.verdict.Failure?
                && row.error == Some(s.workers[l.w].phase.verdict.reason))
            || (l.Pass? && row.error == Some(AbandonedReason(cfg.maxAttempts)))
  {
    var op := OpOf(cfg, s, l);
    ApplyMoves(cfg, s.db, op);
    if n < |s.db.tasks| {
      assert RowMove(cfg, s.db, op, s.db.tasks[n], NextDb(cfg, s, l).tasks[n]);
    }
  }

  /** Step k failed the row at n as unavailable, by the hand of the worker whose
      fetch had returned at step m. */
  ghost predicate FailedAt(cfg: Settings, r: Run, n: nat, k: nat, m: nat)
    requires m < k < |r.labels| < |r.states|
  {
    && r.labels[k].Finish? && r.labels[k].w < |r.states[k].workers|
    && var w, phase := r.labels[k].w, r.states[k].workers[r.labels[k].w].phase;
    && phase.Finishing? && n < |r.states[k].db.tasks| && Holds(r.states[k].db.tasks[n], phase.claim)
    && ReturnedAt(cfg, r, w, m, phase.claim, phase.verdict)
    && r.labels[m].outcome == Transient
  }

  lemma UnavailableStep(cfg: Settings, r: Run, k: nat, n: nat) returns (m: nat)
    requires IsRun(cfg, r) && k < |r.labels| && n < |r.states[k + 1].db.tasks|
    requires r.states[k + 1].db.tasks[n].status == Failed
    requires r.states[k + 1].db.tasks[n].error == Some(UnavailableReason(cfg.providerAttempts))
    requires n < |r.states[k].db.tasks| ==> r.states[k].db.tasks[n].status != Failed
    ensures m < k && FailedAt(cfg, r, n, k, m)
  {
    assert StepAt(cfg, r, k);
    FailingStep(cfg, r.states[k], r.labels[k], n);
    ReasonsDiffer(cfg.providerAttempts, cfg.maxAttempts);
    m := VerdictReturned(cfg, r, k, r.labels[k].w);
  }

  /** In every reachable state, a task failed as unavailable was failed by the
      worker that held it, after a fetch for that claim that ended as transient
      with the task context live. By Provider.TransientMeansExhausted such a fetch
      has made all its attempts, every one of them transient. */
  lemma {:induction false} UnavailableIsEarned(cfg: Settings, r: Run, k: nat, n: nat) returns (j: nat, m: nat)
    requires IsRun(cfg, r) && k < |r.states| && n < |r.states[k].db.tasks|
    requires r.states[k].db.tasks[n].status == Failed
    requires r.states[k].db.tasks[n].error == Some(UnavailableReason(cfg.providerAttempts))
    ensures m < j < k && FailedAt(cfg, r, n, j, m)
    decreases k
  {
    assert k > 0;
    StepGrows(cfg, r, k - 1);
    if n < |r.states[k - 1].db.tasks| && r.states[k - 1].db.tasks[n].status == Failed {
      assert RowGrows(r.states[k - 1].db.tasks[n], r.states[k].db.tasks[n]);
      j, m := UnavailableIsEarned(cfg, r, k - 1, n);
    } else {
      j := k - 1;
      m := UnavailableStep(cfg, r, k - 1, n);
    }
  }

  // ----- Quotes -----------------------------------------------------------------

  /** Step k completed the task at n and stored this quote, by the hand of the
      worker that held it and whose fetch had returned that rate, its date and the
      instant of the answer at step m. */
  ghost predicate QuotedAt(cfg: Settings, r: Run, n: nat, q: Quote, k: nat, m: nat)
    requires m < k < |r.labels| < |r.states|
  {
    && r.labels[k].Finish? && r.labels[k].w < |r.states[k].workers|
    && var w, phase := r.labels[k].w, r.states[k].workers[r.labels[k].w].phase;
    && phase.Finishing? && n < |r.states[k].db.tasks| && Holds(r.states[k].db.tasks[n], phase.claim)
    && ReturnedAt(cfg, r, w, m, phase.claim, phase.verdict)
    && r.labels[m].outcome.Success?
    && StoredRate(r.labels[m].outcome.rate).Some?
    && q == Quote(phase.claim.id, phase.claim.pair, StoredRate(r.labels[m].outcome.rate).value,
                  r.labels[m].outcome.date, r.labels[m].fetchedAt)
  }

  /** A step that adds a quote completes the task of the worker that makes it. */
  lemma QuotingStep(cfg: Settings, s: State, l: Label, i: nat)
    requires Sound(s.db) && Guard(s.db, OpOf(cfg, s, l)) && Enabled(cfg, s, l)
    requires |s.db.quotes| <= i < |NextDb(cfg, s, l).quotes|
    ensures l.Finish? && l.w < |s.workers| && s.workers[l.w].phase.Finishing? && s.workers[l.w].phase.verdict.Rate?
    ensures var phase := s.workers[l.w].phase;
            && FindId(s.db.tasks, phase.claim.id) < |s.db.tasks|
            && Holds(s.db.tasks[FindId(s.db.tasks, phase.claim.id)], phase.claim)
            && StoredRate(phase.verdict.rate).Some?
            && NextDb(cfg, s, l).quotes[i]
               == Quote(phase.claim.id, phase.claim.pair, StoredRate(phase.verdict.rate).value, phase.verdict.date,
                        phase.verdict.fetchedAt)
  {
    var op := OpOf(cfg, s, l);
    if op.Complete? {
      CompleteEffect(cfg, s.db, op);
    } else {
      OtherQuotes(cfg, s.db, op);
    }
  }

  lemma QuotedStep(cfg: Settings, r: Run, k: nat, i: nat) returns (n: nat, m: nat)
    requires IsRun(cfg, r) && k < |r.labels| && |r.states[k].db.quotes| <= i < |r.states[k + 1].db.quotes|
    ensures m < k && QuotedAt(cfg, r, n, r.states[k + 1].db.quotes[i], k, m)
  {
    var op := StepFacts(cfg, r, k);
    assert StepAt(cfg, r, k);
    var s, l := r.states[k], r.labels[k];
    QuotingStep(cfg, s, l, i);
    n := FindId(s.db.tasks, s.workers[l.w].phase.claim.id);
    m := VerdictReturned(cfg, r, k, l.w);
  }

  /** In every reachable state each quote goes back to a success that the holder's
      own fetch returned, with that rate, that date and that instant. */
  lemma {:induction false} QuoteIsEarned(cfg: Settings, r: Run, k: nat, i: nat) returns (n: nat, j: nat, m: nat)
    requires IsRun(cfg, r) && k < |r.states| && i < |r.states[k].db.quotes|
    ensures m < j < k && QuotedAt(cfg, r, n, r.states[k].db.quotes[i], j, m)
    decreases k
  {
    assert k > 0;
    StepGrows(cfg, r, k - 1);
    if i < |r.states[k - 1].db.quotes| {
      n, j, m := QuoteIsEarned(cfg, r, k - 1, i);
    } else {
      j := k - 1;
      n, m := QuotedStep(cfg, r, k - 1, i);
    }
  }
}
