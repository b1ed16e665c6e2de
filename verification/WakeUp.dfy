/** The wake channel never swallows the last reason to look at the queue. */
module WakeUp {
  import opened Domain
  import opened Store
  import opened Queue
  import opened World
  import opened Steps

  /** Steps after which only the poll interval brings a waiting task to a worker:
      a claim that errs or whose answer is lost, a post whose committed answer is
      lost, a worker cancelled or killed, and a recovery pass that sends a task
      back to the queue. */
  predicate Disturbs(cfg: Settings, s: State, l: Label) {
    match l
    case ClaimNext(w, fate) => fate != Delivered
    case PostInsert(p, id, fate) => fate == Lost
    case PostTx(p, id, fate) => fate == Lost
    case Cancel(w) => true
    case Crash(w) => true
    case Pass(fate) => exists i | 0 <= i < |s.db.tasks| ::
      Releasable(s.db.tasks[i], cfg.stuckTimeout, cfg.maxAttempts, s.db.now)
    case _ => false
  }

  ghost predicate Undisturbed(cfg: Settings, r: Run) {
    forall k | 0 <= k < |r.labels| && k < |r.states| :: !Disturbs(cfg, r.states[k], r.labels[k])
  }

  ghost predicate Waiting(db: DB) { exists i :: 0 <= i < |db.tasks| && db.tasks[i].status == Pending }

  /** Committed, pending, and not signalled yet. */
  ghost predicate AboutToSignal(post: Post) { post.stage.Got? && post.stage.task.status == Pending }

  /** This worker asks the queue again before it can park. */
  ghost predicate WillAsk(worker: WorkerState) {
    !worker.cancelled && (worker.phase.Polling? || AtWork(worker.phase))
  }

  ghost predicate Attended(s: State) {
    || s.slot
    || (exists p :: 0 <= p < |s.posts| && AboutToSignal(s.posts[p]))
    || (exists w :: 0 <= w < |s.workers| && WillAsk(s.workers[w]))
  }

  ghost predicate Healthy(s: State) {
    && (forall w | 0 <= w < |s.workers| :: HealthyWorker(s.workers[w]))
    && (Waiting(s.db) ==> Attended(s))
  }

  /** A row can come to wait only by being posted, handed back or sent back. */
  lemma WaitingBefore(cfg: Settings, db: DB, op: Op)
    requires !Adds(cfg, db, op) && !op.Release?
    requires op.Sweep? ==> forall i | 0 <= i < |db.tasks| ::
                 !Releasable(db.tasks[i], cfg.stuckTimeout, cfg.maxAttempts, db.now)
    ensures Waiting(Apply(cfg, db, op)) ==> Waiting(db)
  {
    ApplyMoves(cfg, db, op);
    var after := Apply(cfg, db, op);
    if Waiting(after) {
      var i :| 0 <= i < |after.tasks| && after.tasks[i].status == Pending;
      assert RowMove(cfg, db, op, db.tasks[i], after.tasks[i]);
      assert db.tasks[i].status == Pending;
    }
  }

  /** A claim that finds nothing leaves nobody waiting. */
  lemma NothingFound(db: DB)
    requires ClaimTask(db).result == Ok(None)
    ensures !Waiting(db)
  {
  }

  /** Steps of posters: a new task is about to be signalled, and a signal fills the slot. */
  lemma PosterKeepsAttended(cfg: Settings, s: State, l: Label)
    requires Invariant(cfg, s) && Enabled(cfg, s, l) && IsPostStep(l) && !Disturbs(cfg, s, l)
    requires Healthy(s) && Waiting(NextDb(cfg, s, l))
    ensures Attended(Next(cfg, s, l))
  {
    var t := Next(cfg, s, l);
    var op := OpOf(cfg, s, l);
    if Adds(cfg, s.db, op) {
      AddedIsSignalled(cfg, s, l);
      assert AboutToSignal(t.posts[l.p]);
    } else {
      WaitingBefore(cfg, s.db, op);
      PosterFrame(cfg, s, l);
      OthersKeepAttended(s, t, l.p);
    }
  }

  lemma AddedIsSignalled(cfg: Settings, s: State, l: Label)
    requires Enabled(cfg, s, l) && IsPostStep(l) && !Disturbs(cfg, s, l) && Adds(cfg, s.db, OpOf(cfg, s, l))
    ensures var stage := NextStage(cfg, s.db, s.posts[l.p], l); stage.Got? && stage.task.status == Pending
  {
  }

  /** A poster's step leaves the workers and the other posts alone, and takes a
      pending answer back only by signalling it. */
  lemma PosterFrame(cfg: Settings, s: State, l: Label)
    requires Enabled(cfg, s, l) && IsPostStep(l)
    ensures var t := Next(cfg, s, l);
            && t.workers == s.workers && |t.posts| == |s.posts|
            && (s.slot ==> t.slot)
            && (forall p | 0 <= p < |s.posts| && p != l.p :: t.posts[p] == s.posts[p])
            && (AboutToSignal(s.posts[l.p]) ==> t.slot)
  {
  }

  lemma OthersKeepAttended(s: State, t: State, q: nat)
    requires Attended(s) && t.workers == s.workers && |t.posts| == |s.posts| && q < |s.posts|
    requires s.slot ==> t.slot
    requires forall p | 0 <= p < |s.posts| && p != q :: t.posts[p] == s.posts[p]
    requires AboutToSignal(s.posts[q]) ==> t.slot
    ensures Attended(t)
  {
    if w :| 0 <= w < |s.workers| && WillAsk(s.workers[w]) {
      assert WillAsk(t.workers[w]);
    } else if p :| 0 <= p < |s.posts| && AboutToSignal(s.posts[p]) && p != q {
      assert AboutToSignal(t.posts[p]);
    }
  }

  predicate HealthyWorker(worker: WorkerState) {
    !worker.cancelled && !worker.phase.Releasing? && !worker.phase.Gone?
  }

  /** A worker's own step leaves it about to ask again, unless it found nothing
      or was parking already. */
  lemma WorkerOutcome(cfg: Settings, s: State, l: Label)
    requires Enabled(cfg, s, l) && IsWorkerStep(l) && !Disturbs(cfg, s, l) && HealthyWorker(s.workers[l.w])
    ensures var after := WorkerState(NextPhase(cfg, s.db, s.workers[l.w], l), s.workers[l.w].cancelled || l.Cancel?);
            && HealthyWorker(after)
            && (|| WillAsk(after)
                || (l.ClaimNext? && ClaimTask(s.db).result == Ok(None))
                || (l.Park? && !WillAsk(s.workers[l.w])))
  {
  }

  lemma WorkerFrame(cfg: Settings, s: State, l: Label)
    requires Enabled(cfg, s, l) && IsWorkerStep(l)
    ensures var t := Next(cfg, s, l);
            && t.posts == s.posts && |t.workers| == |s.workers|
            && (!l.Wake? ==> t.slot == s.slot)
            && (forall v | 0 <= v < |s.workers| && v != l.w :: t.workers[v] == s.workers[v])
            && t.workers[l.w]
               == WorkerState(NextPhase(cfg, s.db, s.workers[l.w], l), s.workers[l.w].cancelled || l.Cancel?)
  {
  }

  /** Steps of workers. */
  lemma WorkerKeepsAttended(cfg: Settings, s: State, l: Label)
    requires Invariant(cfg, s) && Enabled(cfg, s, l) && IsWorkerStep(l) && !Disturbs(cfg, s, l)
    requires Healthy(s) && Waiting(NextDb(cfg, s, l))
    ensures Attended(Next(cfg, s, l))
  {
    var t := Next(cfg, s, l);
    WorkerOutcome(cfg, s, l);
    WorkerFrame(cfg, s, l);
    if !WillAsk(t.workers[l.w]) {
      if l.ClaimNext? {
        NothingFound(s.db);
        WaitingBefore(cfg, s.db, Claim);
      } else {
        ParkingKeepsAttended(s, t, l.w);
      }
    }
  }

  lemma ParkingKeepsAttended(s: State, t: State, w: nat)
    requires Attended(s) && w < |s.workers| == |t.workers| && !WillAsk(s.workers[w])
    requires t.slot == s.slot && t.posts == s.posts
    requires forall v | 0 <= v < |s.workers| && v != w :: t.workers[v] == s.workers[v]
    ensures Attended(t)
  {
    if v :| 0 <= v < |s.workers| && WillAsk(s.workers[v]) {
      assert WillAsk(t.workers[v]);
    } else if p :| 0 <= p < |s.posts| && AboutToSignal(s.posts[p]) {
      assert AboutToSignal(t.posts[p]);
    }
  }

  lemma RestKeepsAttended(cfg: Settings, s: State, l: Label)
    requires Invariant(cfg, s) && Enabled(cfg, s, l) && !IsPostStep(l) && !IsWorkerStep(l) && !Disturbs(cfg, s, l)
    requires Healthy(s) && Waiting(NextDb(cfg, s, l))
    ensures Attended(Next(cfg, s, l))
  {
    var t := Next(cfg, s, l);
    WaitingBefore(cfg, s.db, OpOf(cfg, s, l));
    if w :| 0 <= w < |s.workers| && WillAsk(s.workers[w]) {
      assert WillAsk(t.workers[w]);
    } else if p :| 0 <= p < |s.posts| && AboutToSignal(s.posts[p]) {
      assert AboutToSignal(t.posts[p]);
    }
  }

  lemma WorkersStayHealthy(cfg: Settings, s: State, l: Label)
    requires Healthy(s) && Enabled(cfg, s, l) && !Disturbs(cfg, s, l)
    ensures forall w | 0 <= w < |Next(cfg, s, l).workers| :: HealthyWorker(Next(cfg, s, l).workers[w])
  {
    if IsWorkerStep(l) {
      WorkerOutcome(cfg, s, l);
    }
  }

  lemma HealthyKept(cfg: Settings, s: State, l: Label)
    requires Invariant(cfg, s) && Healthy(s) && Enabled(cfg, s, l) && !Disturbs(cfg, s, l)
    ensures Healthy(Next(cfg, s, l))
  {
    WorkersStayHealthy(cfg, s, l);
    if Waiting(NextDb(cfg, s, l)) {
      if IsPostStep(l) {
        PosterKeepsAttended(cfg, s, l);
      } else if IsWorkerStep(l) {
        WorkerKeepsAttended(cfg, s, l);
      } else {
        RestKeepsAttended(cfg, s, l);
      }
    }
  }

  lemma HealthyStep(cfg: Settings, r: Run, k: nat)
    requires IsRun(cfg, r) && k < |r.labels| && Healthy(r.states[k]) && !Disturbs(cfg, r.states[k], r.labels[k])
    ensures Healthy(r.states[k + 1])
  {
    InvariantAlways(cfg, r, k);
    assert StepAt(cfg, r, k);
    HealthyKept(cfg, r.states[k], r.labels[k]);
  }

  lemma {:induction false} HealthyAlways(cfg: Settings, r: Run, k: nat)
    requires IsRun(cfg, r) && Undisturbed(cfg, r) && k < |r.states|
    ensures Healthy(r.states[k])
  {
    if k > 0 {
      HealthyAlways(cfg, r, k - 1);
      assert !Disturbs(cfg, r.states[k - 1], r.labels[k - 1]);
      HealthyStep(cfg, r, k - 1);
    }
  }

  /** No lost wake-up: in every state of an undisturbed run, if a task waits then
      the slot is full, or a poster has committed and not signalled yet, or some
      worker is not parked, and indeed will ask the queue again before it parks. */
  lemma NoLostWakeUp(cfg: Settings, r: Run, k: nat)
    requires IsRun(cfg, r) && Undisturbed(cfg, r) && k < |r.states|
    requires exists i :: 0 <= i < |r.states[k].db.tasks| && r.states[k].db.tasks[i].status == Pending
    ensures var s := r.states[k];
            || s.slot
            || (exists p :: 0 <= p < |s.posts| && AboutToSignal(s.posts[p]))
            || (exists w :: 0 <= w < |s.workers| && s.workers[w].phase != Parked && WillAsk(s.workers[w]))
  {
    HealthyAlways(cfg, r, k);
    assert Waiting(r.states[k].db);
    if w :| 0 <= w < |r.states[k].workers| && WillAsk(r.states[k].workers[w]) {
      assert r.states[k].workers[w].phase != Parked;
    }
  }
}
