/** What a key and a task identifier mean to the clients, over whole runs. */
module Bindings {
  import opened Domain
  import opened Store
  import opened Queue
  import opened World
  import opened History
  import opened KeyedPosts

  /** Step m commits a bind for post p, answering with this task. */
  ghost predicate BindsAt(cfg: Settings, r: Run, p: nat, m: nat, task: Task)
    requires m < |r.labels| < |r.states|
  {
    && r.labels[m].PostTx? && r.labels[m].p == p && r.labels[m].fate != Dropped
    && p < |r.states[m].posts| && r.states[m].posts[p].key.Some?
    && InsertAndBind(r.states[m].db, cfg.keyTtl, r.states[m].posts[p].pair, r.states[m].posts[p].key.value,
                     r.labels[m].id).result == Ok(Some(task))
  }

  /** The committed bind points the key at a task of the pair that was posted. */
  lemma BindWrites(cfg: Settings, db: DB, pair: Pair, key: Key, id: Id, task: Task)
    requires Sound(db) && InsertAndBind(db, cfg.keyTtl, pair, key, id).result == Ok(Some(task))
    requires Sound(InsertAndBind(db, cfg.keyTtl, pair, key, id).db)
    ensures var after := InsertAndBind(db, cfg.keyTtl, pair, key, id).db;
            && key in after.keys && after.keys[key] == Binding(task.id, db.now)
            && HasTask(after.tasks, task.id) && after.tasks[FindId(after.tasks, task.id)].pair == pair
  {
    var after := InsertAndBind(db, cfg.keyTtl, pair, key, id).db;
    InsertFindsOrInserts(db, pair, id);
    var i := FindUnfinished(db.tasks, pair);
    assert after.tasks[i] == task;
    FindIdAt(after.tasks, i);
  }

  lemma TxDb(cfg: Settings, s: State, l: Label)
    requires l.PostTx? && l.fate != Dropped && l.p < |s.posts| && s.posts[l.p].key.Some?
    ensures Next(cfg, s, l).db
         == InsertAndBind(s.db, cfg.keyTtl, s.posts[l.p].pair, s.posts[l.p].key.value, l.id).db
  {
  }

  lemma BoundAfter(cfg: Settings, r: Run, p: nat, m: nat, task: Task)
    requires IsRun(cfg, r) && m < |r.labels| && BindsAt(cfg, r, p, m, task)
    ensures var post, after := r.states[m].posts[p], r.states[m + 1].db;
            && post.key.value in after.keys && after.keys[post.key.value] == Binding(task.id, r.states[m].db.now)
            && HasTask(after.tasks, task.id) && after.tasks[FindId(after.tasks, task.id)].pair == post.pair
  {
    var post := r.states[m].posts[p];
    SoundAlways(cfg, r, m);
    SoundAlways(cfg, r, m + 1);
    assert r.states[m + 1].db
        == InsertAndBind(r.states[m].db, cfg.keyTtl, post.pair, post.key.value, r.labels[m].id).db by {
      assert StepAt(cfg, r, m);
      TxDb(cfg, r.states[m], r.labels[m]);
    }
    BindWrites(cfg, r.states[m].db, post.pair, post.key.value, r.labels[m].id, task);
  }

  /** From the moment a key is bound until its lifetime ends, any post carrying
      it is answered with the same task, whatever has become of that task, if it
      asks for the bound pair, and with a conflict if it asks for another; the
      tables stay as they are. */
  lemma BindingHolds(cfg: Settings, r: Run, p: nat, m: nat, task: Task, j: nat, pair: Pair, id: Id)
    requires IsRun(cfg, r) && m < |r.labels| && BindsAt(cfg, r, p, m, task)
    requires m < j < |r.states| && r.states[j].db.now < r.states[m].db.now + cfg.keyTtl
    ensures var post, db := r.states[m].posts[p], r.states[j].db;
            var step := AtomicPost(db, cfg.keyTtl, pair, post.key, id);
            && step.db == db
            && (pair != post.pair ==> step.result == Err(KeyConflict))
            && (pair == post.pair ==>
                  && step.result.Ok? && step.result.value.id == task.id
                  && step.result.value.pair == pair && step.result.value in db.tasks)
  {
    BoundAfter(cfg, r, p, m, task);
    GrowsForever(cfg, r, m + 1, j);
    SoundAlways(cfg, r, j);
    var before, db := r.states[m + 1].db, r.states[j].db;
    var key := r.states[m].posts[p].key.value;
    assert db.keys[key] == Binding(task.id, r.states[m].db.now);
    var n := FindId(before.tasks, task.id);
    assert RowGrows(before.tasks[n], db.tasks[n]);
    FindIdAt(db.tasks, n);
  }

  /** So two completed posts with one key, both inside its lifetime, agree. */
  lemma SameKeySameTask(cfg: Settings, r: Run, p: nat, m: nat, task: Task, q: nat, n: nat, answer: Result<Task>)
    requires IsRun(cfg, r) && m < n < |r.labels| && BindsAt(cfg, r, p, m, task)
    requires LinearisedAt(cfg, r, q, n, answer)
    requires r.states[n].posts[q].key == r.states[m].posts[p].key
    requires r.states[n].db.now < r.states[m].db.now + cfg.keyTtl
    ensures r.states[n].posts[q].pair == r.states[m].posts[p].pair ==> answer.Ok? && answer.value.id == task.id
    ensures r.states[n].posts[q].pair != r.states[m].posts[p].pair ==> answer == Err(KeyConflict)
  {
    BindingHolds(cfg, r, p, m, task, n, r.states[n].posts[q].pair, IdOf(r.labels[n]));
  }

  // ----- No orphans -----------------------------------------------------------------

  /** The post was answered with this identifier, or committed it and lost the answer. */
  predicate Handed(s: Stage, id: Id) {
    match s
    case Got(task) => task.id == id
    case Answered(Ok(task)) => task.id == id
    case AnswerLost(lost) => lost == id
    case _ => false
  }

  /** The row at n was written by step m, made for post p. */
  ghost predicate WrittenBy(r: Run, n: nat, m: nat, p: nat)
    requires m < |r.labels| < |r.states|
  {
    IsStepOf(r.labels[m], p) && |r.states[m].db.tasks| == n && |r.states[m + 1].db.tasks| == n + 1
  }

  lemma AdderIsPost(cfg: Settings, s: State, l: Label)
    requires Enabled(cfg, s, l) && |NextDb(cfg, s, l).tasks| > |s.db.tasks|
    ensures l.PostInsert? || l.PostTx?
    ensures l.fate != Dropped && l.p < |s.posts|
    ensures |NextDb(cfg, s, l).tasks| == |s.db.tasks| + 1
    ensures NextDb(cfg, s, l).tasks[|s.db.tasks|] == NewTask(l.id, s.posts[l.p].pair, s.db.now)
  {
    ApplyMoves(cfg, s.db, OpOf(cfg, s, l));
  }

  lemma InsertAdds(db: DB, pair: Pair, id: Id)
    requires |InsertTask(db, pair, id).db.tasks| > |db.tasks|
    ensures InsertTask(db, pair, id).result.Ok? && InsertTask(db, pair, id).result.value.id == id
  {
  }

  lemma TxAdds(db: DB, ttl: Time, pair: Pair, key: Key, id: Id)
    requires |InsertAndBind(db, ttl, pair, key, id).db.tasks| > |db.tasks|
    ensures var tx := InsertAndBind(db, ttl, pair, key, id);
            tx.result.Ok? && tx.result.value.Some? && tx.result.value.value.id == id
  {
    InsertAdds(db, pair, id);
  }

  lemma InsertHands(cfg: Settings, s: State, l: Label)
    requires l.PostInsert? && l.p < |s.posts| && l.fate != Dropped && |NextDb(cfg, s, l).tasks| > |s.db.tasks|
    ensures Handed(NextStage(cfg, s.db, s.posts[l.p], l), l.id)
  {
    InsertAdds(s.db, s.posts[l.p].pair, l.id);
  }

  lemma TxHands(cfg: Settings, s: State, l: Label)
    requires Enabled(cfg, s, l) && l.PostTx? && l.fate != Dropped && |NextDb(cfg, s, l).tasks| > |s.db.tasks|
    ensures Handed(NextStage(cfg, s.db, s.posts[l.p], l), l.id)
  {
    TxStep(cfg, s, l);
    TxAdds(s.db, cfg.keyTtl, s.posts[l.p].pair, s.posts[l.p].key.value, l.id);
  }

  /** Whoever makes the table longer is handed the row that was added. */
  lemma WriterIsHanded(cfg: Settings, s: State, l: Label)
    requires Sound(s.db) && Enabled(cfg, s, l)
    requires |NextDb(cfg, s, l).tasks| > |s.db.tasks|
    ensures IsPostStep(l) && l.p < |s.posts|
    ensures |NextDb(cfg, s, l).tasks| == |s.db.tasks| + 1
    ensures Handed(NextStage(cfg, s.db, s.posts[l.p], l), NextDb(cfg, s, l).tasks[|s.db.tasks|].id)
  {
    AdderIsPost(cfg, s, l);
    if l.PostInsert? {
      InsertHands(cfg, s, l);
    } else {
      TxHands(cfg, s, l);
    }
  }

  lemma HandedKept(cfg: Settings, r: Run, k: nat, p: nat, id: Id)
    requires IsRun(cfg, r) && k < |r.labels| && p < |r.states[k].posts| && Handed(r.states[k].posts[p].stage, id)
    ensures p < |r.states[k + 1].posts| && Handed(r.states[k + 1].posts[p].stage, id)
  {
    PostsForever(cfg, r, k, k + 1);
    PostStepFacts(cfg, r, p, k);
    if IsStepOf(r.labels[k], p) {
      ReplyFacts(cfg, r, p, k);
    }
  }

  lemma NewRowHanded(cfg: Settings, r: Run, k: nat)
    requires IsRun(cfg, r) && k < |r.labels| && |r.states[k + 1].db.tasks| > |r.states[k].db.tasks|
    ensures IsPostStep(r.labels[k])
    ensures var n, p := |r.states[k].db.tasks|, r.labels[k].p;
            && WrittenBy(r, n, k, p) && p < |r.states[k + 1].posts|
            && Handed(r.states[k + 1].posts[p].stage, r.states[k + 1].db.tasks[n].id)
  {
    assert StepAt(cfg, r, k);
    SoundAlways(cfg, r, k);
    WriterIsHanded(cfg, r.states[k], r.labels[k]);
  }

  /** Every task that exists was written for some post, and that very post was
      handed its identifier, unless the answer to its commit was lost. */
  lemma {:induction false} NoOrphans(cfg: Settings, r: Run, k: nat, n: nat) returns (m: nat, p: nat)
    requires IsRun(cfg, r) && k < |r.states| && n < |r.states[k].db.tasks|
    ensures m < k && WrittenBy(r, n, m, p) && p < |r.states[k].posts|
    ensures Handed(r.states[k].posts[p].stage, r.states[k].db.tasks[n].id)
    decreases k
  {
    assert k > 0;
    StepGrows(cfg, r, k - 1);
    if n < |r.states[k - 1].db.tasks| {
      m, p := NoOrphans(cfg, r, k - 1, n);
      assert RowGrows(r.states[k - 1].db.tasks[n], r.states[k].db.tasks[n]);
      HandedKept(cfg, r, k - 1, p, r.states[k].db.tasks[n].id);
    } else {
      NewRowHanded(cfg, r, k - 1);
      m, p := k - 1, r.labels[k - 1].p;
    }
  }

  lemma LosingStep(cfg: Settings, s: State, l: Label, p: nat)
    requires Enabled(cfg, s, l) && IsStepOf(l, p) && p < |s.posts|
    requires NextStage(cfg, s.db, s.posts[p], l).AnswerLost?
    ensures s.posts[p].stage.AnswerLost? || (!l.Reply? && l.fate == Lost)
  {
  }

  /** Only a lost answer leaves a committed post with an error. */
  lemma {:induction false} LostOnlyByFate(cfg: Settings, r: Run, k: nat, p: nat)
    requires IsRun(cfg, r) && k < |r.states| && p < |r.states[k].posts|
    requires r.states[k].posts[p].stage.AnswerLost?
    ensures exists m :: 0 <= m < k && IsStepOf(r.labels[m], p) && !r.labels[m].Reply? && r.labels[m].fate == Lost
    decreases k
  {
    assert k > 0;
    PostStepFacts(cfg, r, p, k - 1);
    if p < |r.states[k - 1].posts| && r.states[k - 1].posts[p].stage.AnswerLost? {
      LostOnlyByFate(cfg, r, k - 1, p);
    } else {
      assert StepAt(cfg, r, k - 1);
      LosingStep(cfg, r.states[k - 1], r.labels[k - 1], p);
    }
  }
}
