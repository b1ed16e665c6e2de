/** Every step of the protocol keeps the invariant, so every run does. */
module Steps {
  import opened Domain
  import opened Store
  import opened Queue
  import opened Ledger
  import opened Provider
  import opened World

  /** Attempts only grow and a row's pair is for ever. */
  lemma ClaimKnownKept(cfg: Settings, db: DB, op: Op, after: DB, claim: Task)
    requires Sound(db) && Guard(db, op) && Moved(cfg, db, op, after)
    requires ClaimKnown(db, claim)
    ensures ClaimKnown(after, claim)
  {
    RowsKept(cfg, db, op, after);
    FindIdKept(db, after, claim.id);
    var i := FindId(db.tasks, claim.id);
    assert RowMove(cfg, db, op, db.tasks[i], after.tasks[i]);
  }

  /** The claim an operation acts on, if it is one of a worker's. */
  ghost predicate ActsOn(op: Op, claim: Task) {
    (op.Complete? || op.Fail? || op.Release?) && op.claim.id == claim.id && op.claim.attempts == claim.attempts
  }

  /** Only its own worker, or the recovery pass once it is stale, ends a claim. */
  lemma ClaimSafeKept(cfg: Settings, db: DB, op: Op, after: DB, claim: Task)
    requires Sound(db) && Guard(db, op) && Moved(cfg, db, op, after)
    requires HasTask(db.tasks, claim.id) && ClaimSafe(cfg, db, claim) && !ActsOn(op, claim)
    ensures ClaimSafe(cfg, after, claim)
  {
    RowsKept(cfg, db, op, after);
    FindIdKept(db, after, claim.id);
    var i := FindId(db.tasks, claim.id);
    assert RowMove(cfg, db, op, db.tasks[i], after.tasks[i]);
  }

  /** A fresh claim is in force, known, and nobody else's. */
  lemma FreshClaim(cfg: Settings, db: DB)
    requires Sound(db) && OldestPending(db.tasks).Some?
    ensures var i := OldestPending(db.tasks).value;
            var after := Apply(cfg, db, Claim);
            var claim := ClaimedRow(db.tasks[i], db.now);
            && ClaimTask(db).result == Ok(Some(claim))
            && ClaimKnown(after, claim) && ClaimLive(after, claim)
            && forall other: Task | ClaimKnown(db, other) :: SomeoneElses(other, claim)
  {
    var i := OldestPending(db.tasks).value;
    var after := Apply(cfg, db, Claim);
    ApplyMoves(cfg, db, Claim);
    RowsKept(cfg, db, Claim, after);
    FindIdAt(db.tasks, i);
    FindIdAt(after.tasks, i);
  }

  lemma GuardHolds(cfg: Settings, s: State, l: Label)
    requires Invariant(cfg, s) && Enabled(cfg, s, l)
    ensures Guard(s.db, OpOf(cfg, s, l))
  {
    if OpOf(cfg, s, l).Complete? {
      var claim := OpOf(cfg, s, l).claim;
      assert ClaimKnown(s.db, claim);
      forall i | 0 <= i < |s.db.tasks| && s.db.tasks[i].id == claim.id
        ensures s.db.tasks[i].pair == claim.pair
      {
        FindIdAt(s.db.tasks, i);
      }
    }
  }

  /** A worker the step does not concern keeps what it knows of its claim. */
  lemma BystanderKept(cfg: Settings, s: State, l: Label, w: nat)
    requires Invariant(cfg, s) && Enabled(cfg, s, l) && w < |s.workers|
    requires Holding(s.workers[w].phase)
    requires !(IsWorkerStep(l) && l.w == w)
    ensures var claim := s.workers[w].phase.claim;
            && ClaimKnown(NextDb(cfg, s, l), claim)
            && (AtWork(s.workers[w].phase) ==> ClaimSafe(cfg, NextDb(cfg, s, l), claim))
  {
    var op := OpOf(cfg, s, l);
    var claim := s.workers[w].phase.claim;
    GuardHolds(cfg, s, l);
    ApplyMoves(cfg, s.db, op);
    ClaimKnownKept(cfg, s.db, op, NextDb(cfg, s, l), claim);
    if AtWork(s.workers[w].phase) {
      if op.Complete? || op.Fail? || op.Release? {
        assert op.claim == s.workers[l.w].phase.claim;
        assert if l.w < w then SomeoneElses(op.claim, claim) else SomeoneElses(claim, op.claim);
      }
      ClaimSafeKept(cfg, s.db, op, NextDb(cfg, s, l), claim);
    }
  }

  /** Away from claiming, a worker can only keep or drop the claim it has, and
      while it is at work on it the tables are left alone. */
  lemma PhaseKeepsClaim(cfg: Settings, s: State, l: Label)
    requires Enabled(cfg, s, l) && IsWorkerStep(l) && !l.ClaimNext?
    ensures var before, phase := s.workers[l.w].phase, NextPhase(cfg, s.db, s.workers[l.w], l);
            && (Holding(phase) ==> Holding(before) && phase.claim == before.claim)
            && (AtWork(phase) ==> AtWork(before) && OpOf(cfg, s, l) == Nothing)
  {
  }

  /** What a worker holds after its own step is known, in force if it is at work
      on it, and not held by any other worker. */
  ghost predicate ActorSound(cfg: Settings, s: State, db: DB, w: nat, phase: Phase)
    requires w < |s.workers|
  {
    Holding(phase) ==>
      && ClaimKnown(db, phase.claim)
      && (AtWork(phase) ==> ClaimSafe(cfg, db, phase.claim))
      && forall v | 0 <= v < |s.workers| && v != w && Holding(s.workers[v].phase) ::
           SomeoneElses(s.workers[v].phase.claim, phase.claim)
  }

  lemma ClaimerPhase(cfg: Settings, s: State, l: Label)
    requires Enabled(cfg, s, l) && l.ClaimNext?
    ensures var phase := NextPhase(cfg, s.db, s.workers[l.w], l);
            Holding(phase) ==>
              && OldestPending(s.db.tasks).Some?
              && phase == Starting(ClaimedRow(s.db.tasks[OldestPending(s.db.tasks).value], s.db.now))
              && NextDb(cfg, s, l) == Apply(cfg, s.db, Claim)
  {
  }

  lemma ClaimerKept(cfg: Settings, s: State, l: Label)
    requires Invariant(cfg, s) && Enabled(cfg, s, l) && l.ClaimNext?
    ensures ActorSound(cfg, s, NextDb(cfg, s, l), l.w, NextPhase(cfg, s.db, s.workers[l.w], l))
  {
    var phase := NextPhase(cfg, s.db, s.workers[l.w], l);
    ClaimerPhase(cfg, s, l);
    if Holding(phase) {
      FreshClaim(cfg, s.db);
      forall v | 0 <= v < |s.workers| && v != l.w && Holding(s.workers[v].phase)
        ensures SomeoneElses(s.workers[v].phase.claim, phase.claim)
      {
        assert ClaimKnown(s.db, s.workers[v].phase.claim);
      }
    }
  }

  lemma ActorKept(cfg: Settings, s: State, l: Label)
    requires Invariant(cfg, s) && Enabled(cfg, s, l) && IsWorkerStep(l)
    ensures ActorSound(cfg, s, NextDb(cfg, s, l), l.w, NextPhase(cfg, s.db, s.workers[l.w], l))
  {
    var op := OpOf(cfg, s, l);
    var before, phase := s.workers[l.w].phase, NextPhase(cfg, s.db, s.workers[l.w], l);
    if l.ClaimNext? {
      ClaimerKept(cfg, s, l);
    } else if Holding(phase) {
      PhaseKeepsClaim(cfg, s, l);
      GuardHolds(cfg, s, l);
      ApplyMoves(cfg, s.db, op);
      ClaimKnownKept(cfg, s.db, op, NextDb(cfg, s, l), before.claim);
      HeldApart(cfg, s, l.w);
    }
  }

  lemma HeldApart(cfg: Settings, s: State, w: nat)
    requires Invariant(cfg, s) && w < |s.workers| && Holding(s.workers[w].phase)
    ensures forall v | 0 <= v < |s.workers| && v != w && Holding(s.workers[v].phase) ::
              SomeoneElses(s.workers[v].phase.claim, s.workers[w].phase.claim)
  {
    forall v | 0 <= v < |s.workers| && v != w && Holding(s.workers[v].phase)
      ensures SomeoneElses(s.workers[v].phase.claim, s.workers[w].phase.claim)
    {
      assert if v < w then SomeoneElses(s.workers[v].phase.claim, s.workers[w].phase.claim)
        else SomeoneElses(s.workers[w].phase.claim, s.workers[v].phase.claim);
    }
  }

  ghost predicate BystandersSound(cfg: Settings, s: State, db: DB, actor: int) {
    forall w | 0 <= w < |s.workers| && w != actor && Holding(s.workers[w].phase) ::
      && ClaimKnown(db, s.workers[w].phase.claim)
      && (AtWork(s.workers[w].phase) ==> ClaimSafe(cfg, db, s.workers[w].phase.claim))
  }

  /** Replacing one worker by a sound one leaves the pool sound. */
  lemma PoolKept(cfg: Settings, s: State, t: State, w: nat)
    requires WorkersSound(cfg, s) && w < |s.workers| && |t.workers| == |s.workers|
    requires forall v | 0 <= v < |s.workers| && v != w :: t.workers[v] == s.workers[v]
    requires BystandersSound(cfg, s, t.db, w) && ActorSound(cfg, s, t.db, w, t.workers[w].phase)
    ensures WorkersSound(cfg, t)
  {
    forall u, v | 0 <= u < v < |t.workers| && Holding(t.workers[u].phase) && Holding(t.workers[v].phase)
      ensures SomeoneElses(t.workers[u].phase.claim, t.workers[v].phase.claim)
    {
      if u == w {
        assert SomeoneElses(s.workers[v].phase.claim, t.workers[w].phase.claim);
      }
    }
  }

  lemma PoolUntouched(cfg: Settings, s: State, t: State)
    requires WorkersSound(cfg, s)
    requires BystandersSound(cfg, s, t.db, -1)
    requires t.workers == s.workers || t.workers == s.workers + [WorkerState(Polling, false)]
    ensures WorkersSound(cfg, t)
  {
  }

  lemma WorkersKept(cfg: Settings, s: State, l: Label)
    requires Invariant(cfg, s) && Enabled(cfg, s, l)
    ensures WorkersSound(cfg, Next(cfg, s, l))
  {
    var t := Next(cfg, s, l);
    var actor := if IsWorkerStep(l) then l.w else -1;
    forall w | 0 <= w < |s.workers| && w != actor && Holding(s.workers[w].phase)
      ensures ClaimKnown(t.db, s.workers[w].phase.claim)
      ensures AtWork(s.workers[w].phase) ==> ClaimSafe(cfg, t.db, s.workers[w].phase.claim)
    {
      BystanderKept(cfg, s, l, w);
    }
    if IsWorkerStep(l) {
      ActorKept(cfg, s, l);
      PoolKept(cfg, s, t, l.w);
    } else {
      PoolUntouched(cfg, s, t);
    }
  }

  /** One step keeps the invariant. */
  lemma InvariantKept(cfg: Settings, s: State, l: Label)
    requires Invariant(cfg, s) && Enabled(cfg, s, l)
    ensures Invariant(cfg, Next(cfg, s, l))
  {
    var op := OpOf(cfg, s, l);
    GuardHolds(cfg, s, l);
    SoundKept(cfg, s.db, op);
    ApplyMoves(cfg, s.db, op);
    LogKept(cfg, s.db, op, NextDb(cfg, s, l), s.log);
    WorkersKept(cfg, s, l);
  }

  /** Every state of every run satisfies the invariant. */
  lemma {:induction false} InvariantAlways(cfg: Settings, r: Run, k: nat)
    requires IsRun(cfg, r) && k < |r.states|
    ensures Invariant(cfg, r.states[k])
  {
    if k == 0 {
      EmptyIsSound(r.states[0].db);
    } else {
      InvariantAlways(cfg, r, k - 1);
      assert StepAt(cfg, r, k - 1);
      InvariantKept(cfg, r.states[k - 1], r.labels[k - 1]);
    }
  }

  // ----- Nobody is ever stuck ---------------------------------------------------

  /** Every worker that has not left has a step of its own to make besides being
      cancelled or killed, whatever the others do and whatever the clock shows. */
  lemma WorkerCanStep(cfg: Settings, s: State, w: nat) returns (l: Label)
    requires w < |s.workers| && s.workers[w].phase != Gone
    ensures IsWorkerStep(l) && l.w == w && !l.Cancel? && !l.Crash? && Enabled(cfg, s, l)
  {
    var worker := s.workers[w];
    match worker.phase
    case Polling => l := ClaimNext(w, Delivered);
    case Starting(claim) => l := Begin(w);
    case Fetching(claim, started) =>
      l := if worker.cancelled then GiveUp(w)
      else if s.db.now <= started + cfg.taskTimeout then Return(w, Transient, s.db.now)
      else TimeOut(w);
    case Finishing(claim, started, verdict) => l := Finish(w, Delivered, worker.cancelled);
    case Releasing(claim) => l := HandBack(w, Delivered);
    case Yielding => l := Park(w);
    case Parked => l := PollAgain(w);
  }

  /** So has every post that has not been answered, once the clock tells its insert
      from the ones committed. */
  lemma PostCanStep(cfg: Settings, s: State, p: nat, id: Id) returns (l: Label)
    requires p < |s.posts| && !Over(s.posts[p].stage) && InsertReady(s.db, s.posts[p].pair)
    requires s.posts[p].stage == Missed || s.posts[p].stage == RolledBack ==> s.posts[p].key.Some?
    ensures IsPostStep(l) && l.p == p && Enabled(cfg, s, l)
  {
    match s.posts[p].stage
    case Begun => l := if s.posts[p].key.Some? then PostRead(p, Delivered) else PostInsert(p, id, Delivered);
    case Missed => l := PostTx(p, id, Delivered);
    case RolledBack => l := PostReplay(p, Delivered);
    case Got(task) => l := Reply(p);
  }
}
