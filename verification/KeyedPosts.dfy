/** Posts with and without a key, under any interleaving: each answer is that of
    one indivisible post taken at an instant inside the call. */
module KeyedPosts {
  import opened Domain
  import opened Store
  import opened Queue
  import opened World
  import opened History
  import Pairs

  // ----- One phase against the indivisible post -----------------------------------

  /** The lookup's test and the takeover's test are exact complements: a binding
      lives from the instant it is made until its lifetime has passed. */
  lemma LiveOrExpired(b: Binding, ttl: Time, now: Time)
    ensures Live(b, ttl, now) <==> !Expired(b, ttl, now)
    ensures Live(b, ttl, now) <==> now < b.createdAt + ttl
  {
  }

  /** With the foreign key in force, a live binding always leads to its task. */
  lemma LiveBindingFound(db: DB, ttl: Time, key: Key)
    requires Sound(db)
    ensures TaskByKey(db, ttl, key).Some? <==> key in db.keys && Live(db.keys[key], ttl, db.now)
    ensures TaskByKey(db, ttl, key).Some? ==>
              var task := TaskByKey(db, ttl, key).value;
              task in db.tasks && task.id == db.keys[key].updateId
  {
  }

  /** A read that finds the key answers as the indivisible post would, then and there. */
  lemma ReadIsAtomic(db: DB, ttl: Time, pair: Pair, key: Key, id: Id)
    requires Sound(db) && TaskByKey(db, ttl, key).Some?
    ensures AtomicPost(db, ttl, pair, Some(key), id)
         == Stepped(db, ReplayTask(TaskByKey(db, ttl, key).value, pair))
  {
    LiveBindingFound(db, ttl, key);
  }

  /** The transaction either is the indivisible post, refuses because the key is
      live and leaves the tables exactly as they were, or fails leaving them so. */
  lemma TxIsAtomicOrRefused(db: DB, ttl: Time, pair: Pair, key: Key, id: Id)
    requires Sound(db)
    ensures var tx := InsertAndBind(db, ttl, pair, key, id);
            match tx.result
            case Ok(Some(task)) => AtomicPost(db, ttl, pair, Some(key), id) == Stepped(tx.db, Ok(task))
            case Ok(None) => tx.db == db && key in db.keys && Live(db.keys[key], ttl, db.now)
            case Err(e) => tx.db == db
  {
  }

  /** The indivisible post changes the tables as one of the queue's operations does,
      or not at all. */
  lemma AtomicPostIsOp(cfg: Settings, db: DB, pair: Pair, key: Option<Key>, id: Id)
    ensures var op := if key.None? then Insert(pair, id) else InsertWithKey(pair, key.value, id);
            var after := AtomicPost(db, cfg.keyTtl, pair, key, id).db;
            after == db || after == Apply(cfg, db, op)
  {
  }

  /** So it keeps the whole invariant. */
  lemma {:induction false} AtomicPostKeepsSound(cfg: Settings, db: DB, pair: Pair, key: Option<Key>, id: Id)
    requires Sound(db) && pair in Pairs.PAIRS && InsertReady(db, pair)
    ensures Sound(AtomicPost(db, cfg.keyTtl, pair, key, id).db)
  {
    AtomicPostIsOp(cfg, db, pair, key, id);
    SoundKept(cfg, db, if key.None? then Insert(pair, id) else InsertWithKey(pair, key.value, id));
  }

  /** A bind refused by a live key and read back later, nobody interleaving, errs
      exactly when the clock has crossed the expiry in between. */
  lemma RefusedThenUnbound(db: DB, ttl: Time, pair: Pair, key: Key, id: Id, elapsed: nat)
    requires Sound(db) && InsertAndBind(db, ttl, pair, key, id).result == Ok(None)
    ensures key in db.keys
    ensures ReplayByKey(db.(now := db.now + elapsed), ttl, pair, key) == Err(HeldButUnbound)
       <==> db.keys[key].createdAt + ttl <= db.now + elapsed
  {
    TxIsAtomicOrRefused(db, ttl, pair, key, id);
    assert HasTask(db.tasks, db.keys[key].updateId);
  }

  /** Find-or-insert: the one unfinished task of the pair, untouched, or a new one. */
  lemma InsertFindsOrInserts(db: DB, pair: Pair, id: Id)
    requires Sound(db)
    ensures var step := InsertTask(db, pair, id);
            && (step.result.Ok? ==>
                  && step.result.value in step.db.tasks
                  && step.result.value.pair == pair && step.result.value.status.Unfinished())
            && ((exists n :: 0 <= n < |db.tasks| && UnfinishedFor(db.tasks[n], pair)) ==>
                  step.db == db && step.result.Ok? && step.result.value in db.tasks)
            && (step.db != db ==>
                  && step.result == Ok(Task(id, pair, Pending, 0, None, db.now, db.now))
                  && step.db == db.(tasks := db.tasks + [step.result.value])
                  && forall n | 0 <= n < |db.tasks| :: db.tasks[n].id != id && !UnfinishedFor(db.tasks[n], pair))
            && (step.result.Err? ==> step.db == db && HasTask(db.tasks, id))
  {
    if exists n :: 0 <= n < |db.tasks| && UnfinishedFor(db.tasks[n], pair) {
      assert FindUnfinished(db.tasks, pair) < |db.tasks|;
    }
  }

  // ----- Linearisation points -------------------------------------------------------

  ghost predicate IsStepOf(l: Label, p: nat) { IsPostStep(l) && l.p == p }

  /** The identifier the database generates in a step that inserts; none matters elsewhere. */
  function IdOf(l: Label): Id {
    match l
    case PostInsert(p, id, fate) => id
    case PostTx(p, id, fate) => id
    case _ => 0
  }

  /** Step m belongs to post p, which has arrived and not been answered, and at
      that step the tables and the answer are those of the indivisible post. */
  ghost predicate LinearisedAt(cfg: Settings, r: Run, p: nat, m: nat, answer: Result<Task>)
    requires m < |r.labels| < |r.states|
  {
    && IsStepOf(r.labels[m], p)
    && p < |r.states[m].posts| && !Over(r.states[m].posts[p].stage) && !r.states[m].posts[p].stage.Got?
    && AtomicPost(r.states[m].db, cfg.keyTtl, r.states[m].posts[p].pair, r.states[m].posts[p].key,
                  IdOf(r.labels[m])) == Stepped(r.states[m + 1].db, answer)
  }

  /** No step of p before k, other than m, changes the tables. */
  ghost predicate QuietExcept(r: Run, p: nat, k: nat, m: int)
    requires k < |r.states| == |r.labels| + 1
  {
    forall q | 0 <= q < k && q != m && IsStepOf(r.labels[q], p) :: r.states[q + 1].db == r.states[q].db
  }

  /** Step m is a bind of p that a live binding refused. */
  ghost predicate RefusedAt(cfg: Settings, r: Run, p: nat, m: nat)
    requires m < |r.labels| < |r.states|
  {
    && r.labels[m].PostTx? && r.labels[m].p == p && p < |r.states[m].posts|
    && r.states[m].posts[p].key.Some?
    && var key := r.states[m].posts[p].key.value;
    key in r.states[m].db.keys && r.states[m].db.now < r.states[m].db.keys[key].createdAt + cfg.keyTtl
  }

  /** The binding that refused p at step m had expired when p read it back at step q. */
  ghost predicate ExpiryCrossed(cfg: Settings, r: Run, p: nat, m: nat, q: nat)
    requires m < q < |r.labels| < |r.states|
  {
    && RefusedAt(cfg, r, p, m)
    && r.labels[q].PostReplay? && r.labels[q].p == p
    && r.states[m].db.keys[r.states[m].posts[p].key.value].createdAt + cfg.keyTtl <= r.states[q].db.now
  }

  /** Step m of post p met a fault: its statement or its answer was lost, or the
      identifier generated for it was already in the table. */
  ghost predicate FaultAt(r: Run, p: nat, m: nat, e: Error)
    requires m < |r.labels| < |r.states|
  {
    && IsStepOf(r.labels[m], p) && !r.labels[m].Reply?
    && FaultyStep(r.states[m].db, r.labels[m], e)
  }

  ghost predicate FaultyStep(db: DB, l: Label, e: Error)
    requires IsPostStep(l) && !l.Reply?
  {
    || (e == Storage && l.fate != Delivered)
    || (e == Rejected && l.fate == Delivered && (l.PostInsert? || l.PostTx?) && HasTask(db.tasks, IdOf(l)))
  }

  /** What the stage of a post says about the steps made for it so far. */
  ghost predicate Explained(cfg: Settings, r: Run, p: nat, k: nat)
    requires k < |r.states| == |r.labels| + 1 && p < |r.states[k].posts|
  {
    match r.states[k].posts[p].stage
    case Got(task) =>
      exists m :: 0 <= m < k && LinearisedAt(cfg, r, p, m, Ok(task)) && QuietExcept(r, p, k, m)
    case Answered(Ok(task)) =>
      exists m :: 0 <= m < k && LinearisedAt(cfg, r, p, m, Ok(task)) && QuietExcept(r, p, k, m)
    case AnswerLost(id) =>
      exists m, task: Task ::
        0 <= m < k && task.id == id && LinearisedAt(cfg, r, p, m, Ok(task)) && QuietExcept(r, p, k, m)
    case Answered(Err(e)) =>
      && QuietExcept(r, p, k, -1)
      && (e == KeyConflict ==> exists m :: 0 <= m < k && LinearisedAt(cfg, r, p, m, Err(KeyConflict)))
      && (e == HeldButUnbound ==> exists m, q :: 0 <= m < q < k && ExpiryCrossed(cfg, r, p, m, q))
      && (e != KeyConflict && e != HeldButUnbound ==> exists m :: 0 <= m < k && FaultAt(r, p, m, e))
    case RolledBack =>
      QuietExcept(r, p, k, -1) && exists m :: 0 <= m < k && RefusedAt(cfg, r, p, m)
    case _ => QuietExcept(r, p, k, -1)
  }

  // ----- One step of a post ------------------------------------------------------------

  /** What a step made for a post does, given the stage it leaves the post in. */
  ghost predicate PostOutcome(cfg: Settings, db: DB, post: Post, l: Label, after: DB, stage: Stage) {
    var spec := AtomicPost(db, cfg.keyTtl, post.pair, post.key, IdOf(l));
    match stage
    case Got(task) => spec == Stepped(after, Ok(task))
    case AnswerLost(id) => spec.db == after && spec.result.Ok? && spec.result.value.id == id
    case Answered(Ok(task)) => after == db && post.stage == Got(task)
    case Answered(Err(e)) =>
      && after == db
      && (e == KeyConflict ==> spec == Stepped(db, Err(KeyConflict)))
      && (e == HeldButUnbound ==>
            l.PostReplay? && post.key.Some? && TaskByKey(db, cfg.keyTtl, post.key.value).None?)
      && (e != KeyConflict && e != HeldButUnbound ==> IsPostStep(l) && !l.Reply? && FaultyStep(db, l, e))
    case RolledBack =>
      && after == db && l.PostTx? && post.key.Some?
      && post.key.value in db.keys && Live(db.keys[post.key.value], cfg.keyTtl, db.now)
    case _ => after == db
  }

  lemma ReadOutcome(cfg: Settings, s: State, l: Label)
    requires Sound(s.db) && Enabled(cfg, s, l) && (l.PostRead? || l.PostReplay?)
    ensures PostOutcome(cfg, s.db, s.posts[l.p], l, NextDb(cfg, s, l), NextStage(cfg, s.db, s.posts[l.p], l))
  {
    var post := s.posts[l.p];
    if TaskByKey(s.db, cfg.keyTtl, post.key.value).Some? {
      ReadIsAtomic(s.db, cfg.keyTtl, post.pair, post.key.value, IdOf(l));
    }
  }

  lemma InsertOutcome(cfg: Settings, s: State, l: Label)
    requires Sound(s.db) && Enabled(cfg, s, l) && l.PostInsert?
    ensures PostOutcome(cfg, s.db, s.posts[l.p], l, NextDb(cfg, s, l), NextStage(cfg, s.db, s.posts[l.p], l))
  {
    InsertFindsOrInserts(s.db, s.posts[l.p].pair, l.id);
  }

  lemma TxStep(cfg: Settings, s: State, l: Label)
    requires Enabled(cfg, s, l) && l.PostTx?
    ensures var post := s.posts[l.p];
            var tx := InsertAndBind(s.db, cfg.keyTtl, post.pair, post.key.value, l.id);
            && NextDb(cfg, s, l) == (if l.fate == Dropped then s.db else tx.db)
            && NextStage(cfg, s.db, post, l) ==
               match tx.result
               case Err(e) => Settled(l.fate, Err(e))
               case Ok(Some(task)) => Settled(l.fate, Ok(task))
               case Ok(None) => if l.fate == Delivered then RolledBack else Answered(Err(Storage))
  {
  }

  lemma TxOutcome(cfg: Settings, s: State, l: Label)
    requires Sound(s.db) && Enabled(cfg, s, l) && l.PostTx?
    ensures PostOutcome(cfg, s.db, s.posts[l.p], l, NextDb(cfg, s, l), NextStage(cfg, s.db, s.posts[l.p], l))
  {
    var post := s.posts[l.p];
    TxStep(cfg, s, l);
    TxIsAtomicOrRefused(s.db, cfg.keyTtl, post.pair, post.key.value, l.id);
    TxErrors(s.db, cfg.keyTtl, post.pair, post.key.value, l.id);
  }

  lemma TxErrors(db: DB, ttl: Time, pair: Pair, key: Key, id: Id)
    ensures InsertAndBind(db, ttl, pair, key, id).result.Err? ==>
              InsertAndBind(db, ttl, pair, key, id).result == Err(Rejected) && HasTask(db.tasks, id)
  {
  }

  lemma StepOutcome(cfg: Settings, s: State, l: Label)
    requires Sound(s.db) && Enabled(cfg, s, l) && IsPostStep(l)
    ensures PostOutcome(cfg, s.db, s.posts[l.p], l, NextDb(cfg, s, l), NextStage(cfg, s.db, s.posts[l.p], l))
  {
    if l.PostRead? || l.PostReplay? {
      ReadOutcome(cfg, s, l);
    } else if l.PostInsert? {
      InsertOutcome(cfg, s, l);
    } else if l.PostTx? {
      TxOutcome(cfg, s, l);
    }
  }

  // ----- The posts of a run --------------------------------------------------------------

  /** Posts keep their place and what they ask for. */
  ghost predicate PostsGrow(s: State, t: State) {
    && |s.posts| <= |t.posts|
    && forall p | 0 <= p < |s.posts| :: t.posts[p].pair == s.posts[p].pair && t.posts[p].key == s.posts[p].key
  }

  lemma NextPostsGrow(cfg: Settings, s: State, l: Label)
    ensures PostsGrow(s, Next(cfg, s, l))
  {
  }

  lemma {:induction false} PostsForever(cfg: Settings, r: Run, i: nat, j: nat)
    requires IsRun(cfg, r) && i <= j < |r.states|
    ensures PostsGrow(r.states[i], r.states[j])
    decreases j
  {
    if i < j {
      PostsForever(cfg, r, i, j - 1);
      assert StepAt(cfg, r, j - 1);
      NextPostsGrow(cfg, r.states[j - 1], r.labels[j - 1]);
    }
  }

  /** One step of a run, seen from the post at p. */
  lemma PostStepFacts(cfg: Settings, r: Run, p: nat, k: nat)
    requires IsRun(cfg, r) && k < |r.labels| && p < |r.states[k + 1].posts|
    ensures IsStepOf(r.labels[k], p) ==>
              && p < |r.states[k].posts|
              && !Over(r.states[k].posts[p].stage)
              && (r.states[k].posts[p].stage.Got? <==> r.labels[k].Reply?)
              && (r.labels[k].PostReplay? ==> r.states[k].posts[p].stage == RolledBack)
              && PostOutcome(cfg, r.states[k].db, r.states[k].posts[p], r.labels[k], r.states[k + 1].db,
                             r.states[k + 1].posts[p].stage)
    ensures !IsStepOf(r.labels[k], p) ==>
              if p < |r.states[k].posts| then r.states[k + 1].posts[p] == r.states[k].posts[p]
              else r.states[k + 1].posts[p].stage == Begun
  {
    assert StepAt(cfg, r, k);
    SoundAlways(cfg, r, k);
    OneStepFacts(cfg, r.states[k], r.labels[k], p);
  }

  lemma OneStepFacts(cfg: Settings, s: State, l: Label, p: nat)
    requires Sound(s.db) && Enabled(cfg, s, l) && p < |Next(cfg, s, l).posts|
    ensures var t := Next(cfg, s, l);
            && (IsStepOf(l, p) ==>
                  && p < |s.posts|
                  && !Over(s.posts[p].stage)
                  && (s.posts[p].stage.Got? <==> l.Reply?)
                  && (l.PostReplay? ==> s.posts[p].stage == RolledBack)
                  && PostOutcome(cfg, s.db, s.posts[p], l, t.db, t.posts[p].stage))
            && (!IsStepOf(l, p) ==>
                  if p < |s.posts| then t.posts[p] == s.posts[p] else t.posts[p].stage == Begun)
  {
    if IsStepOf(l, p) {
      StepOutcome(cfg, s, l);
    }
  }

  /** Before a post arrives no step is made for it. */
  lemma NoStepBefore(cfg: Settings, r: Run, p: nat, k: nat)
    requires IsRun(cfg, r) && k < |r.states| && p >= |r.states[k].posts|
    ensures forall q | 0 <= q < k :: !IsStepOf(r.labels[q], p)
  {
    forall q | 0 <= q < k && IsStepOf(r.labels[q], p)
      ensures false
    {
      assert StepAt(cfg, r, q);
      PostsForever(cfg, r, q, k);
    }
  }

  // ----- The theorem -----------------------------------------------------------------------

  ghost predicate LongEnough(r: Run, k: nat) { k < |r.labels| && |r.states| == |r.labels| + 1 }

  lemma QuietLonger(r: Run, p: nat, k: nat, m: int)
    requires LongEnough(r, k) && QuietExcept(r, p, k, m)
    requires !IsStepOf(r.labels[k], p) || m == k || r.states[k + 1].db == r.states[k].db
    ensures QuietExcept(r, p, k + 1, m)
  {
  }

  /** A step of somebody else changes nothing about the explanation. */
  lemma ExplainedByOther(cfg: Settings, r: Run, p: nat, k: nat)
    requires LongEnough(r, k) && p < |r.states[k].posts| && Explained(cfg, r, p, k)
    requires p < |r.states[k + 1].posts| && r.states[k + 1].posts[p] == r.states[k].posts[p]
    requires !IsStepOf(r.labels[k], p)
    ensures Explained(cfg, r, p, k + 1)
  {
    match r.states[k].posts[p].stage
    case Got(task) =>
      var m :| 0 <= m < k && LinearisedAt(cfg, r, p, m, Ok(task)) && QuietExcept(r, p, k, m);
      QuietLonger(r, p, k, m);
    case Answered(Ok(task)) =>
      var m :| 0 <= m < k && LinearisedAt(cfg, r, p, m, Ok(task)) && QuietExcept(r, p, k, m);
      QuietLonger(r, p, k, m);
    case AnswerLost(id) =>
      var m, task: Task :|
        0 <= m < k && task.id == id && LinearisedAt(cfg, r, p, m, Ok(task)) && QuietExcept(r, p, k, m);
      QuietLonger(r, p, k, m);
    case Answered(Err(e)) =>
      QuietLonger(r, p, k, -1);
    case _ =>
      QuietLonger(r, p, k, -1);
  }

  /** A step of the post's own that answers with a task is its linearisation point. */
  lemma ExplainedByAnswer(cfg: Settings, r: Run, p: nat, k: nat)
    requires LongEnough(r, k) && p < |r.states[k].posts| && p < |r.states[k + 1].posts|
    requires QuietExcept(r, p, k, -1)
    requires IsStepOf(r.labels[k], p)
    requires !Over(r.states[k].posts[p].stage) && !r.states[k].posts[p].stage.Got?
    requires r.states[k + 1].posts[p].stage.Got? || r.states[k + 1].posts[p].stage.AnswerLost?
    requires PostOutcome(cfg, r.states[k].db, r.states[k].posts[p], r.labels[k], r.states[k + 1].db,
                         r.states[k + 1].posts[p].stage)
    ensures Explained(cfg, r, p, k + 1)
  {
    assert QuietExcept(r, p, k + 1, k);
    var post := r.states[k].posts[p];
    var spec := AtomicPost(r.states[k].db, cfg.keyTtl, post.pair, post.key, IdOf(r.labels[k]));
    assert LinearisedAt(cfg, r, p, k, spec.result);
  }

  /** The reply adds nothing to what the repository answered. */
  lemma ExplainedByReply(cfg: Settings, r: Run, p: nat, k: nat)
    requires LongEnough(r, k) && p < |r.states[k].posts| && p < |r.states[k + 1].posts|
    requires Explained(cfg, r, p, k) && r.states[k].posts[p].stage.Got?
    requires r.states[k + 1].posts[p].stage == Answered(Ok(r.states[k].posts[p].stage.task))
    requires r.states[k + 1].db == r.states[k].db
    ensures Explained(cfg, r, p, k + 1)
  {
    var task := r.states[k].posts[p].stage.task;
    var m :| 0 <= m < k && LinearisedAt(cfg, r, p, m, Ok(task)) && QuietExcept(r, p, k, m);
    QuietLonger(r, p, k, m);
  }

  /** A replay that finds nothing means the clock has crossed the expiry of the
      binding that refused the bind. */
  lemma UnboundMeansExpired(cfg: Settings, r: Run, p: nat, m: nat, q: nat)
    requires IsRun(cfg, r) && m < q < |r.labels| && RefusedAt(cfg, r, p, m)
    requires r.labels[q].PostReplay? && r.labels[q].p == p && p < |r.states[q].posts|
    requires r.states[q].posts[p].key.Some?
    requires TaskByKey(r.states[q].db, cfg.keyTtl, r.states[q].posts[p].key.value).None?
    ensures ExpiryCrossed(cfg, r, p, m, q)
  {
    PostsForever(cfg, r, m, q);
    GrowsForever(cfg, r, m, q);
    SoundAlways(cfg, r, q);
    var key := r.states[m].posts[p].key.value;
    LiveBindingFound(r.states[q].db, cfg.keyTtl, key);
  }

  /** Under any interleaving, a replay that is answered errs exactly when the
      key's binding has expired at that instant. */
  lemma ReplayErrsWhenExpired(cfg: Settings, r: Run, p: nat, m: nat, q: nat)
    requires IsRun(cfg, r) && m < q < |r.labels| && RefusedAt(cfg, r, p, m)
    requires r.labels[q] == PostReplay(p, Delivered)
    ensures p < |r.states[q].posts| && p < |r.states[q + 1].posts|
    ensures var key, db := r.states[m].posts[p].key.value, r.states[q].db;
            && key in db.keys
            && (r.states[q + 1].posts[p].stage == Answered(Err(HeldButUnbound))
                <==> db.keys[key].createdAt + cfg.keyTtl <= db.now)
  {
    PostsForever(cfg, r, m, q);
    GrowsForever(cfg, r, m, q);
    SoundAlways(cfg, r, q);
    LiveBindingFound(r.states[q].db, cfg.keyTtl, r.states[m].posts[p].key.value);
    assert StepAt(cfg, r, q);
    ReplayStep(cfg, r.states[q], p);
  }

  lemma ReplayStep(cfg: Settings, s: State, p: nat)
    requires Enabled(cfg, s, PostReplay(p, Delivered))
    ensures p < |s.posts| && p < |Next(cfg, s, PostReplay(p, Delivered)).posts| && s.posts[p].key.Some?
    ensures Next(cfg, s, PostReplay(p, Delivered)).posts[p].stage == Answered(Err(HeldButUnbound))
       <==> TaskByKey(s.db, cfg.keyTtl, s.posts[p].key.value).None?
  {
  }

  lemma ExplainedByError(cfg: Settings, r: Run, p: nat, k: nat)
    requires IsRun(cfg, r) && LongEnough(r, k) && p < |r.states[k].posts| && p < |r.states[k + 1].posts|
    requires QuietExcept(r, p, k, -1) && Explained(cfg, r, p, k)
    requires IsStepOf(r.labels[k], p)
    requires !Over(r.states[k].posts[p].stage) && !r.states[k].posts[p].stage.Got?
    requires r.labels[k].PostReplay? ==> r.states[k].posts[p].stage == RolledBack
    requires var stage := r.states[k + 1].posts[p].stage; stage.Answered? && stage.result.Err?
    requires PostOutcome(cfg, r.states[k].db, r.states[k].posts[p], r.labels[k], r.states[k + 1].db,
                         r.states[k + 1].posts[p].stage)
    ensures Explained(cfg, r, p, k + 1)
  {
    QuietLonger(r, p, k, -1);
    var e := r.states[k + 1].posts[p].stage.result.error;
    if e == KeyConflict {
      assert LinearisedAt(cfg, r, p, k, Err(KeyConflict));
    } else if e == HeldButUnbound {
      var m :| 0 <= m < k && RefusedAt(cfg, r, p, m);
      UnboundMeansExpired(cfg, r, p, m, k);
    } else {
      assert FaultAt(r, p, k, e);
    }
  }

  lemma ExplainedByOwn(cfg: Settings, r: Run, p: nat, k: nat)
    requires IsRun(cfg, r) && LongEnough(r, k) && p < |r.states[k].posts| && p < |r.states[k + 1].posts|
    requires Explained(cfg, r, p, k) && IsStepOf(r.labels[k], p)
    ensures Explained(cfg, r, p, k + 1)
  {
    PostStepFacts(cfg, r, p, k);
    var stage := r.states[k + 1].posts[p].stage;
    if r.states[k].posts[p].stage.Got? {
      ReplyFacts(cfg, r, p, k);
      ExplainedByReply(cfg, r, p, k);
    } else if stage.Got? || stage.AnswerLost? {
      ExplainedByAnswer(cfg, r, p, k);
    } else if stage.Answered? && stage.result.Err? {
      ExplainedByError(cfg, r, p, k);
    } else {
      QuietLonger(r, p, k, -1);
      if stage == RolledBack {
        assert RefusedAt(cfg, r, p, k);
      }
    }
  }

  lemma ReplyFacts(cfg: Settings, r: Run, p: nat, k: nat)
    requires IsRun(cfg, r) && k < |r.labels| && p < |r.states[k].posts| && p < |r.states[k + 1].posts|
    requires IsStepOf(r.labels[k], p) && r.states[k].posts[p].stage.Got?
    ensures r.states[k + 1].posts[p].stage == Answered(Ok(r.states[k].posts[p].stage.task))
    ensures r.states[k + 1].db == r.states[k].db
  {
    assert StepAt(cfg, r, k);
  }

  /** Linearisability of posts, in every state of every run. A post that has its
      task, or a key conflict, got it at one step of its own, inside the call, at
      which the tables and the answer are those of the indivisible post; so did a
      post whose committed answer was lost. No other step of it touches the
      tables. "Held but binds no task" leaves them alone and is answered only if
      the clock crossed the expiry of the binding that refused the bind before the
      replay read it. There is no other answer but for a fault: a storage error
      of a statement that the connection lost, or a generated identifier already
      in the table. */
  lemma {:induction false} PostsLinearise(cfg: Settings, r: Run, p: nat, k: nat)
    requires IsRun(cfg, r) && k < |r.states| && p < |r.states[k].posts|
    ensures Explained(cfg, r, p, k)
    decreases k
  {
    if k == 0 {
      return;
    }
    PostStepFacts(cfg, r, p, k - 1);
    if p < |r.states[k - 1].posts| {
      PostsLinearise(cfg, r, p, k - 1);
      if IsStepOf(r.labels[k - 1], p) {
        ExplainedByOwn(cfg, r, p, k - 1);
      } else {
        ExplainedByOther(cfg, r, p, k - 1);
      }
    } else {
      NoStepBefore(cfg, r, p, k - 1);
    }
  }
}
