/** Which steps of its own a worker has its claim and its deadline from. */
module Claims {
  import opened Domain
  import opened Store
  import opened Queue
  import opened World
  import opened Steps

  /** Step m is the latest before state k at which worker w asked for a task. */
  ghost predicate LastClaim(r: Run, w: nat, m: nat, k: nat)
    requires m < k < |r.states| == |r.labels| + 1
  {
    && IsClaimStep(r.labels[m], w)
    && forall j | m < j < k :: !IsClaimStep(r.labels[j], w)
  }

  predicate IsClaimStep(l: Label, w: nat) { l.ClaimNext? && l.w == w }

  /** Step b is the latest before state k at which the deadline of w started to run. */
  ghost predicate LastBegin(r: Run, w: nat, b: nat, k: nat)
    requires b < k < |r.states| == |r.labels| + 1
  {
    && IsBeginStep(r.labels[b], w)
    && forall j | b < j < k :: !IsBeginStep(r.labels[j], w)
  }

  predicate IsBeginStep(l: Label, w: nat) { l.Begin? && l.w == w }

  lemma OnlyOne(r: Run, w: nat, k: nat, m: nat, n: nat)
    requires m < k < |r.states| == |r.labels| + 1 && n < k
    ensures LastClaim(r, w, m, k) && LastClaim(r, w, n, k) ==> m == n
    ensures LastBegin(r, w, m, k) && LastBegin(r, w, n, k) ==> m == n
  {
    assert m < n && LastClaim(r, w, m, k) ==> !IsClaimStep(r.labels[n], w);
    assert n < m && LastClaim(r, w, n, k) ==> !IsClaimStep(r.labels[m], w);
    assert m < n && LastBegin(r, w, m, k) ==> !IsBeginStep(r.labels[n], w);
    assert n < m && LastBegin(r, w, n, k) ==> !IsBeginStep(r.labels[m], w);
  }

  /** A worker that holds a claim has just been given it, or held it before. */
  lemma HoldingBefore(cfg: Settings, s: State, l: Label, w: nat)
    requires Enabled(cfg, s, l) && w < |Next(cfg, s, l).workers| && Holding(Next(cfg, s, l).workers[w].phase)
    ensures w < |s.workers|
    ensures var phase := Next(cfg, s, l).workers[w].phase;
            if IsClaimStep(l, w) then l.fate == Delivered && ClaimTask(s.db).result == Ok(Some(phase.claim))
            else Holding(s.workers[w].phase) && s.workers[w].phase.claim == phase.claim
  {
    if IsWorkerStep(l) && l.w == w && !l.ClaimNext? {
      PhaseKeepsClaim(cfg, s, l);
    }
  }

  /** Whatever a worker holds is what its latest claim step was answered with: the
      oldest pending row of that moment, one attempt older and stamped with that
      moment. */
  lemma {:induction false} ClaimMade(cfg: Settings, r: Run, k: nat, w: nat) returns (m: nat)
    requires IsRun(cfg, r) && k < |r.states| && w < |r.states[k].workers| && Holding(r.states[k].workers[w].phase)
    ensures m < k && LastClaim(r, w, m, k) && r.labels[m].fate == Delivered
    ensures var claim, db := r.states[k].workers[w].phase.claim, r.states[m].db;
            && ClaimTask(db).result == Ok(Some(claim))
            && claim.status == InProgress && claim.updatedAt == db.now
    decreases k
  {
    assert k > 0;
    assert StepAt(cfg, r, k - 1);
    HoldingBefore(cfg, r.states[k - 1], r.labels[k - 1], w);
    if IsClaimStep(r.labels[k - 1], w) {
      m := k - 1;
      ClaimTakesOldest(r.states[m].db);
    } else {
      m := ClaimMade(cfg, r, k - 1, w);
    }
  }

  ghost predicate Timed(p: Phase) { p.Fetching? || p.Finishing? }

  /** A worker whose deadline runs has just started it, or it ran before. */
  lemma TimedBefore(cfg: Settings, s: State, l: Label, w: nat)
    requires Enabled(cfg, s, l) && w < |Next(cfg, s, l).workers| && Timed(Next(cfg, s, l).workers[w].phase)
    ensures w < |s.workers|
    ensures var phase := Next(cfg, s, l).workers[w].phase;
            if IsBeginStep(l, w) then phase.started == s.db.now
            else Timed(s.workers[w].phase) && s.workers[w].phase.started == phase.started
  {
  }

  /** A deadline is counted from the worker's latest begin step. */
  lemma {:induction false} DeadlineBegun(cfg: Settings, r: Run, k: nat, w: nat) returns (b: nat)
    requires IsRun(cfg, r) && k < |r.states| && w < |r.states[k].workers| && Timed(r.states[k].workers[w].phase)
    ensures b < k && LastBegin(r, w, b, k) && r.states[k].workers[w].phase.started == r.states[b].db.now
    decreases k
  {
    assert k > 0;
    assert StepAt(cfg, r, k - 1);
    TimedBefore(cfg, r.states[k - 1], r.labels[k - 1], w);
    if IsBeginStep(r.labels[k - 1], w) {
      b := k - 1;
    } else {
      b := DeadlineBegun(cfg, r, k - 1, w);
    }
  }
}
