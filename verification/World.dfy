/** The protocol as a state machine: any number of posters and workers, the
    recovery pass, the one-slot wake channel and the clock, interleaved one
    statement or transaction at a time. Failures are steps like any other. */
module World {
  import opened Domain
  import opened Rates
  import opened Store
  import opened Queue
  import opened Ledger
  import opened Provider
  import Pairs

  // ----- Posters --------------------------------------------------------------

  datatype Stage =
    | Begun
    | Missed                         // the fast read saw no live binding
    | RolledBack                     // the bind was refused
    | Got(task: Task)                // the repository answered, nobody signalled yet
    | Answered(result: Result<Task>)
    | AnswerLost(id: Id)             // committed, and the client saw only an error

  datatype Post = Post(pair: Pair, key: Option<Key>, stage: Stage)

  predicate Over(s: Stage) { s.Answered? || s.AnswerLost? }

  // ----- Workers --------------------------------------------------------------

  datatype Verdict =
    | Rate(rate: Decimal, date: int, fetchedAt: Time)
    | Failure(reason: string)

  datatype Phase =
    | Polling
    | Starting(claim: Task)                                       // claimed, deadline not running yet
    | Fetching(claim: Task, started: Time)
    | Finishing(claim: Task, started: Time, verdict: Verdict)
    | Releasing(claim: Task)                                      // cancelled, about to hand the claim back
    | Yielding                                                    // found nothing, about to park
    | Parked
    | Gone

  datatype WorkerState = WorkerState(phase: Phase, cancelled: bool)

  predicate Holding(p: Phase) { p.Starting? || p.Fetching? || p.Finishing? || p.Releasing? }

  /** The claim has not been finalised by this worker yet. */
  predicate AtWork(p: Phase) { p.Starting? || p.Fetching? || p.Finishing? }

  function VerdictOf(outcome: Outcome, fetchedAt: Time, providerAttempts: int): Verdict {
    match outcome
    case Success(rate, date) => Rate(rate, date, fetchedAt)
    case _ => Failure(FailureReason(outcome, providerAttempts))
  }

  // ----- States and steps -----------------------------------------------------

  datatype State = State(db: DB, slot: bool, workers: seq<WorkerState>, posts: seq<Post>, log: Log)

  datatype Label =
    | Tick(elapsed: nat)
    | Arrive(pair: Pair, key: Option<Key>)
    | PostRead(p: nat, fate: Fate)
    | PostInsert(p: nat, id: Id, fate: Fate)
    | PostTx(p: nat, id: Id, fate: Fate)
    | PostReplay(p: nat, fate: Fate)
    | Reply(p: nat)
    | ClaimNext(w: nat, fate: Fate)
    | Begin(w: nat)
    | Return(w: nat, outcome: Outcome, fetchedAt: Time)
    | TimeOut(w: nat)
    | GiveUp(w: nat)
    | Finish(w: nat, fate: Fate, giveBack: bool)
    | HandBack(w: nat, fate: Fate)
    | Park(w: nat)
    | Wake(w: nat)
    | PollAgain(w: nat)
    | Cancel(w: nat)
    | Crash(w: nat)
    | Leave(w: nat)
    | Spawn
    | Pass(fate: Fate)

  predicate IsPostStep(l: Label) { l.PostRead? || l.PostInsert? || l.PostTx? || l.PostReplay? || l.Reply? }

  predicate IsWorkerStep(l: Label) {
    l.ClaimNext? || l.Begin? || l.Return? || l.TimeOut? || l.GiveUp? || l.Finish? || l.HandBack? || l.Park?
    || l.Wake? || l.PollAgain? || l.Cancel? || l.Crash? || l.Leave?
  }

  ghost predicate PostEnabled(cfg: Settings, s: State, l: Label)
    requires IsPostStep(l) && l.p < |s.posts|
  {
    var post := s.posts[l.p];
    match l
    case PostRead(p, fate) => post.key.Some? && post.stage == Begun
    case PostInsert(p, id, fate) => post.key.None? && post.stage == Begun && InsertReady(s.db, post.pair)
    case PostTx(p, id, fate) => post.key.Some? && post.stage == Missed && InsertReady(s.db, post.pair)
    case PostReplay(p, fate) => post.key.Some? && post.stage == RolledBack
    case Reply(p) => post.stage.Got?
  }

  /** ctx.Err() is read at several places; where both a cancellation and an
      expired deadline hold, either may be the error it reports. */
  ghost predicate WorkerEnabled(cfg: Settings, s: State, l: Label)
    requires IsWorkerStep(l) && l.w < |s.workers|
  {
    var worker := s.workers[l.w];
    var phase := worker.phase;
    match l
    case ClaimNext(w, fate) => phase == Polling
    case Begin(w) => phase.Starting?
    case Return(w, outcome, fetchedAt) =>
      phase.Fetching? && !worker.cancelled && s.db.now <= phase.started + cfg.taskTimeout
    case TimeOut(w) => phase.Fetching? && s.db.now >= phase.started + cfg.taskTimeout
    case GiveUp(w) => phase.Fetching? && worker.cancelled
    case Finish(w, fate, giveBack) =>
      && phase.Finishing?
      && (giveBack ==> worker.cancelled)
      && (!giveBack ==> !worker.cancelled || s.db.now >= phase.started + cfg.taskTimeout)
    case HandBack(w, fate) => phase.Releasing?
    case Park(w) => phase == Yielding
    case Wake(w) => phase == Parked && s.slot
    case PollAgain(w) => phase == Parked
    case Cancel(w) => phase != Gone
    case Crash(w) => phase != Gone
    case Leave(w) => (phase == Polling || phase == Parked) && worker.cancelled
  }

  ghost predicate Enabled(cfg: Settings, s: State, l: Label) {
    if IsPostStep(l) then l.p < |s.posts| && PostEnabled(cfg, s, l)
    else if IsWorkerStep(l) then l.w < |s.workers| && WorkerEnabled(cfg, s, l)
    else l.Arrive? ==> l.pair in Pairs.PAIRS
  }

  /** What the step does to the tables, if its statement takes effect at all. */
  function OpOf(cfg: Settings, s: State, l: Label): Op {
    match l
    case Tick(elapsed) => Advance(elapsed)
    case PostInsert(p, id, fate) =>
      if fate == Dropped || p >= |s.posts| then Nothing else Insert(s.posts[p].pair, id)
    case PostTx(p, id, fate) =>
      if fate == Dropped || p >= |s.posts| || s.posts[p].key.None? then Nothing
      else InsertWithKey(s.posts[p].pair, s.posts[p].key.value, id)
    case ClaimNext(w, fate) => if fate == Dropped then Nothing else Claim
    case Finish(w, fate, giveBack) =>
      if fate == Dropped || w >= |s.workers| || !s.workers[w].phase.Finishing? then Nothing
      else FinishOp(s.workers[w].phase.claim, s.workers[w].phase.verdict)
    case HandBack(w, fate) =>
      if fate == Dropped || w >= |s.workers| || !s.workers[w].phase.Releasing? then Nothing
      else Release(s.workers[w].phase.claim)
    case Pass(fate) => if fate == Dropped then Nothing else Sweep(AbandonedReason(cfg.maxAttempts))
    case _ => Nothing
  }

  function FinishOp(claim: Task, verdict: Verdict): Op {
    match verdict
    case Rate(rate, date, fetchedAt) => Complete(claim, rate, date, fetchedAt)
    case Failure(reason) => Fail(claim, reason)
  }

  function FinishStep(db: DB, claim: Task, verdict: Verdict): Stepped<()> {
    match verdict
    case Rate(rate, date, fetchedAt) => CompleteTask(db, claim, rate, date, fetchedAt)
    case Failure(reason) => FailTask(db, claim, reason)
  }

  function FinishResult(db: DB, claim: Task, verdict: Verdict): Result<()> {
    FinishStep(db, claim, verdict).result
  }

  function StageOf(answer: Result<Task>): Stage {
    match answer
    case Ok(task) => Got(task)
    case Err(e) => Answered(Err(e))
  }

  function Settled(fate: Fate, answer: Result<Task>): Stage {
    match fate
    case Delivered => StageOf(answer)
    case Dropped => Answered(Err(Storage))
    case Lost => if answer.Ok? then AnswerLost(answer.value.id) else Answered(Err(Storage))
  }

  function NextStage(cfg: Settings, db: DB, post: Post, l: Label): Stage
    requires IsPostStep(l)
  {
    match l
    case PostRead(p, fate) =>
      if post.key.None? then post.stage
      else if fate != Delivered then Answered(Err(Storage))
      else
        (match TaskByKey(db, cfg.keyTtl, post.key.value)
         case None => Missed
         case Some(task) => StageOf(ReplayTask(task, post.pair)))
    case PostInsert(p, id, fate) => Settled(fate, InsertTask(db, post.pair, id).result)
    case PostTx(p, id, fate) =>
      if post.key.None? then post.stage
      else
        (match InsertAndBind(db, cfg.keyTtl, post.pair, post.key.value, id).result
         case Err(e) => Settled(fate, Err(e))
         case Ok(Some(task)) => Settled(fate, Ok(task))
         case Ok(None) => if fate == Delivered then RolledBack else Answered(Err(Storage)))
    case PostReplay(p, fate) =>
      if post.key.None? then post.stage
      else if fate != Delivered then Answered(Err(Storage))
      else StageOf(ReplayByKey(db, cfg.keyTtl, post.pair, post.key.value))
    case Reply(p) => if post.stage.Got? then Answered(Ok(post.stage.task)) else post.stage
  }

  function NextPosts(cfg: Settings, s: State, l: Label): seq<Post> {
    if l.Arrive? then s.posts + [Post(l.pair, l.key, Begun)]
    else if IsPostStep(l) && l.p < |s.posts| then
      s.posts[l.p := s.posts[l.p].(stage := NextStage(cfg, s.db, s.posts[l.p], l))]
    else s.posts
  }

  /** What becomes of the worker itself. */
  function NextPhase(cfg: Settings, db: DB, worker: WorkerState, l: Label): Phase
    requires IsWorkerStep(l)
  {
    var phase := worker.phase;
    match l
    case ClaimNext(w, fate) =>
      var claimed := ClaimTask(db).result;
      if fate == Delivered && claimed.Ok? && claimed.value.Some? then Starting(claimed.value.value) else Yielding
    case Begin(w) => if phase.Starting? then Fetching(phase.claim, db.now) else phase
    case Return(w, outcome, fetchedAt) =>
      if phase.Fetching? then
        Finishing(phase.claim, phase.started, VerdictOf(outcome, fetchedAt, cfg.providerAttempts))
      else phase
    case TimeOut(w) => Polling
    case GiveUp(w) => if phase.Fetching? then Releasing(phase.claim) else phase
    case Finish(w, fate, giveBack) =>
      if !phase.Finishing? then phase
      else
        var result := if fate == Delivered then FinishResult(db, phase.claim, phase.verdict) else Err(Storage);
        if result.Ok? || result.error == StaleClaim || !giveBack then Polling else Releasing(phase.claim)
    case HandBack(w, fate) => Polling
    case Park(w) => Parked
    case Wake(w) => Polling
    case PollAgain(w) => Polling
    case Cancel(w) => phase
    case Crash(w) => Gone
    case Leave(w) => Gone
  }

  function NextWorkers(cfg: Settings, s: State, l: Label): seq<WorkerState> {
    if l.Spawn? then s.workers + [WorkerState(Polling, false)]
    else if IsWorkerStep(l) && l.w < |s.workers| then
      s.workers[l.w := WorkerState(NextPhase(cfg, s.db, s.workers[l.w], l), s.workers[l.w].cancelled || l.Cancel?)]
    else s.workers
  }

  /** The channel holds one signal; sending to a full one drops it. */
  function NextSlot(s: State, l: Label): bool {
    if l.Wake? then false
    else if l.Reply? && l.p < |s.posts| && s.posts[l.p].stage.Got? && s.posts[l.p].stage.task.status == Pending
    then true
    else s.slot
  }

  function NextDb(cfg: Settings, s: State, l: Label): DB { Apply(cfg, s.db, OpOf(cfg, s, l)) }

  function Next(cfg: Settings, s: State, l: Label): State {
    ApplyMoves(cfg, s.db, OpOf(cfg, s, l));
    State(NextDb(cfg, s, l), NextSlot(s, l), NextWorkers(cfg, s, l), NextPosts(cfg, s, l),
          Grown(s.log, OpOf(cfg, s, l), s.db.tasks, NextDb(cfg, s, l).tasks))
  }

  // ----- Stretches of steps ---------------------------------------------------

  function Follow(cfg: Settings, s: State, labels: seq<Label>): State
    decreases |labels|
  {
    if labels == [] then s else Follow(cfg, Next(cfg, s, labels[0]), labels[1..])
  }

  ghost predicate Feasible(cfg: Settings, s: State, labels: seq<Label>)
    decreases |labels|
  {
    labels == [] || (Enabled(cfg, s, labels[0]) && Feasible(cfg, Next(cfg, s, labels[0]), labels[1..]))
  }

  // ----- Runs -----------------------------------------------------------------

  ghost predicate Initial(s: State) {
    && s.db.tasks == [] && s.db.quotes == [] && s.db.keys == map[]
    && !s.slot && s.posts == [] && s.log == []
    && forall w | 0 <= w < |s.workers| :: s.workers[w] == WorkerState(Polling, false)
  }

  datatype Run = Run(states: seq<State>, labels: seq<Label>)

  ghost predicate StepAt(cfg: Settings, r: Run, k: nat)
    requires k < |r.labels| < |r.states|
  {
    Enabled(cfg, r.states[k], r.labels[k]) && r.states[k + 1] == Next(cfg, r.states[k], r.labels[k])
  }

  /** A finite run from an empty database. */
  ghost predicate IsRun(cfg: Settings, r: Run) {
    && cfg.Valid()
    && |r.states| == |r.labels| + 1
    && Initial(r.states[0])
    && forall k {:trigger StepAt(cfg, r, k)} | 0 <= k < |r.labels| :: StepAt(cfg, r, k)
  }

  // ----- The invariant of every reachable state ---------------------------------

  /** The row a held claim names. */
  ghost predicate ClaimKnown(db: DB, claim: Task) {
    var i := FindId(db.tasks, claim.id);
    && i < |db.tasks|
    && db.tasks[i].pair == claim.pair
    && 1 <= claim.attempts <= db.tasks[i].attempts
  }

  /** The claim is still in force, and updated_at is still the claim time. */
  ghost predicate ClaimLive(db: DB, claim: Task) {
    var i := FindId(db.tasks, claim.id);
    i < |db.tasks| && Holds(db.tasks[i], claim) && db.tasks[i].updatedAt == claim.updatedAt
  }

  /** A claim its worker has not finalised is in force unless it has gone stale. */
  ghost predicate ClaimSafe(cfg: Settings, db: DB, claim: Task) {
    ClaimLive(db, claim) || claim.updatedAt < db.now - cfg.stuckTimeout
  }

  ghost predicate WorkersSound(cfg: Settings, s: State) {
    && (forall w | 0 <= w < |s.workers| && Holding(s.workers[w].phase) :: ClaimKnown(s.db, s.workers[w].phase.claim))
    && (forall w | 0 <= w < |s.workers| && AtWork(s.workers[w].phase) ::
          ClaimSafe(cfg, s.db, s.workers[w].phase.claim))
    && (forall v, w | 0 <= v < w < |s.workers| && Holding(s.workers[v].phase) && Holding(s.workers[w].phase) ::
          SomeoneElses(s.workers[v].phase.claim, s.workers[w].phase.claim))
  }

  ghost predicate SomeoneElses(a: Task, b: Task) { a.id != b.id || a.attempts != b.attempts }

  ghost predicate PostsSound(s: State) {
    forall p | 0 <= p < |s.posts| :: s.posts[p].pair in Pairs.PAIRS
  }

  ghost predicate Invariant(cfg: Settings, s: State) {
    && cfg.Valid()
    && Sound(s.db)
    && LogAgrees(cfg, s.db, s.log)
    && WorkersSound(cfg, s)
    && PostsSound(s)
  }
}
