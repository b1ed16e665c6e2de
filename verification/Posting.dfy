/** A post as the service makes it, nobody interleaving, is a stretch of the
    protocol's own steps. */
module Posting {
  import opened Domain
  import opened Store
  import opened Queue
  import opened World
  import opened KeyedPosts

  /** What a client whose post has come this far has been told. */
  ghost predicate Told(stage: Stage, r: Result<Task>) {
    match stage
    case Answered(result) => r == result
    case AnswerLost(id) => r == Err(Storage)
    case _ => false
  }

  /** Steps of this one post, each enabled where it is made. */
  ghost predicate StepsOf(cfg: Settings, s: State, p: nat, labels: seq<Label>) {
    Feasible(cfg, s, labels) && forall i | 0 <= i < |labels| :: IsStepOf(labels[i], p)
  }

  /** The post at p, and what else a poster's steps can touch. */
  ghost predicate Shows(s: State, p: nat, db: DB, slot: bool, post: Post) {
    s.db == db && (s.slot <==> slot) && p < |s.posts| && s.posts[p] == post
  }

  lemma StepShows(cfg: Settings, s: State, l: Label)
    requires IsPostStep(l) && l.p < |s.posts| && !l.Reply?
    ensures Shows(Next(cfg, s, l), l.p, NextDb(cfg, s, l), s.slot,
                  s.posts[l.p].(stage := NextStage(cfg, s.db, s.posts[l.p], l)))
  {
  }

  lemma Prepend(cfg: Settings, s: State, l: Label, p: nat, rest: seq<Label>)
    requires Enabled(cfg, s, l) && IsStepOf(l, p) && StepsOf(cfg, Next(cfg, s, l), p, rest)
    ensures StepsOf(cfg, s, p, [l] + rest)
    ensures Follow(cfg, s, [l] + rest) == Follow(cfg, Next(cfg, s, l), rest)
  {
    assert ([l] + rest)[1..] == rest;
  }

  /** The answer of the repository, and the signal that goes with a waiting task. */
  lemma Replies(cfg: Settings, s: State, p: nat) returns (labels: seq<Label>, r: Result<Task>)
    requires p < |s.posts| && (s.posts[p].stage.Got? || Over(s.posts[p].stage))
    requires s.posts[p].stage.Answered? ==> s.posts[p].stage.result.Err?
    ensures StepsOf(cfg, s, p, labels)
    ensures s.posts[p].stage.Got? ==> r == Ok(s.posts[p].stage.task)
    ensures Over(s.posts[p].stage) ==> Told(s.posts[p].stage, r)
    ensures var t := Follow(cfg, s, labels);
            && t.db == s.db && p < |t.posts| && Told(t.posts[p].stage, r)
            && (t.slot <==> s.slot || (r.Ok? && r.value.status == Pending))
  {
    match s.posts[p].stage
    case Got(task) =>
      labels, r := [Reply(p)], Ok(task);
      assert Follow(cfg, s, labels) == Follow(cfg, Next(cfg, s, Reply(p)), []);
      assert Feasible(cfg, Next(cfg, s, Reply(p)), []);
    case Answered(result) =>
      labels, r := [], result;
    case AnswerLost(id) =>
      labels, r := [], Err(Storage);
  }

  /** Where the stretch ends, compared with where it began. */
  ghost predicate Ends(cfg: Settings, s: State, p: nat, labels: seq<Label>, r: Result<Task>, db: DB) {
    && StepsOf(cfg, s, p, labels)
    && var t := Follow(cfg, s, labels);
    && t.db == db && p < |t.posts| && Told(t.posts[p].stage, r)
    && (t.slot <==> s.slot || (r.Ok? && r.value.status == Pending))
  }

  /** A step that ends the repository's part, and the reply. */
  lemma StepAndReply(cfg: Settings, s: State, l: Label) returns (labels: seq<Label>, r: Result<Task>)
    requires IsPostStep(l) && !l.Reply? && l.p < |s.posts| && Enabled(cfg, s, l)
    requires var stage := NextStage(cfg, s.db, s.posts[l.p], l);
             stage.Got? || stage.AnswerLost? || (stage.Answered? && stage.result.Err?)
    ensures Ends(cfg, s, l.p, labels, r, NextDb(cfg, s, l))
    ensures var stage := NextStage(cfg, s.db, s.posts[l.p], l);
            if stage.Got? then r == Ok(stage.task) else Told(stage, r)
  {
    var rest;
    StepShows(cfg, s, l);
    rest, r := Replies(cfg, Next(cfg, s, l), l.p);
    Prepend(cfg, s, l, l.p, rest);
    labels := [l] + rest;
  }

  lemma {:induction false} Unkeyed(cfg: Settings, s: State, p: nat, id: Id, read: Fate, write: Fate)
    returns (labels: seq<Label>, r: Result<Task>)
    requires p < |s.posts| && s.posts[p].stage == Begun && s.posts[p].key.None? && InsertReady(s.db, s.posts[p].pair)
    ensures StepsOf(cfg, s, p, labels)
    ensures Ends(cfg, s, p, labels, r, Follow(cfg, s, labels).db)
    ensures Posted(s.db, cfg.keyTtl, s.posts[p].pair, None, id, read, write, Stepped(Follow(cfg, s, labels).db, r))
  {
    var l := PostInsert(p, id, write);
    InsertStep(cfg, s, l);
    labels, r := StepAndReply(cfg, s, l);
  }

  lemma InsertStep(cfg: Settings, s: State, l: Label)
    requires l.PostInsert? && l.p < |s.posts|
    ensures var step := Under(l.fate, s.db, InsertTask(s.db, s.posts[l.p].pair, l.id));
            var stage := NextStage(cfg, s.db, s.posts[l.p], l);
            && NextDb(cfg, s, l) == step.db
            && (step.result.Ok? ==> stage == Got(step.result.value))
            && (step.result.Err? ==> (stage.AnswerLost? && step.result == Err(Storage)) || stage == Answered(step.result))
  {
  }

  /** A post whose key the read does not find comes to its transaction's outcome. */
  lemma TransactionStep(cfg: Settings, s: State, l: Label)
    requires Enabled(cfg, s, l) && l.PostTx?
    ensures var post := s.posts[l.p];
            var step: Stepped<Option<Task>> :=
              Under(l.fate, s.db, InsertAndBind(s.db, cfg.keyTtl, post.pair, post.key.value, l.id));
            var stage := NextStage(cfg, s.db, post, l);
            && NextDb(cfg, s, l) == step.db
            && match step.result
               case Ok(Some(task)) => stage == Got(task)
               case Ok(None) => stage == RolledBack
               case Err(e) => (stage.AnswerLost? && e == Storage) || stage == Answered(Err(e))
  {
    TxStep(cfg, s, l);
  }

  /** On a miss nobody else can have bound the key meanwhile, so the transaction is
      the indivisible post. */
  lemma MissedIsAtomic(db: DB, ttl: Time, pair: Pair, key: Key, id: Id)
    requires key !in db.keys || Expired(db.keys[key], ttl, db.now)
    ensures var tx, post := InsertAndBind(db, ttl, pair, key, id), AtomicPost(db, ttl, pair, Some(key), id);
            && tx.db == post.db
            && (post.result.Ok? ==> tx.result == Ok(Some(post.result.value)))
            && (post.result.Err? ==> tx.result == Err(post.result.error))
  {
  }

  lemma {:induction false} Missing(cfg: Settings, s: State, p: nat, id: Id, write: Fate)
    returns (labels: seq<Label>, r: Result<Task>)
    requires p < |s.posts| && s.posts[p].stage == Missed && s.posts[p].key.Some? && InsertReady(s.db, s.posts[p].pair)
    requires s.posts[p].key.value !in s.db.keys || Expired(s.db.keys[s.posts[p].key.value], cfg.keyTtl, s.db.now)
    ensures Ends(cfg, s, p, labels, r, Follow(cfg, s, labels).db)
    ensures Stepped(Follow(cfg, s, labels).db, r)
         == Under(write, s.db, AtomicPost(s.db, cfg.keyTtl, s.posts[p].pair, s.posts[p].key, id))
  {
    var l := PostTx(p, id, write);
    TransactionStep(cfg, s, l);
    MissedIsAtomic(s.db, cfg.keyTtl, s.posts[p].pair, s.posts[p].key.value, id);
    labels, r := StepAndReply(cfg, s, l);
  }

  lemma ReadStep(cfg: Settings, s: State, l: Label)
    requires l.PostRead? && l.p < |s.posts| && s.posts[l.p].key.Some?
    ensures var post := s.posts[l.p];
            var found := TaskByKey(s.db, cfg.keyTtl, post.key.value);
            && NextDb(cfg, s, l) == s.db
            && NextStage(cfg, s.db, post, l)
               == if l.fate != Delivered then Answered(Err(Storage))
                  else if found.None? then Missed
                  else StageOf(ReplayTask(found.value, post.pair))
  {
  }

  lemma {:induction false} Keyed(cfg: Settings, s: State, p: nat, id: Id, read: Fate, write: Fate)
    returns (labels: seq<Label>, r: Result<Task>)
    requires Sound(s.db) && p < |s.posts| && s.posts[p].stage == Begun && s.posts[p].key.Some?
    requires InsertReady(s.db, s.posts[p].pair)
    ensures Ends(cfg, s, p, labels, r, Follow(cfg, s, labels).db)
    ensures Posted(s.db, cfg.keyTtl, s.posts[p].pair, s.posts[p].key, id, read, write,
                   Stepped(Follow(cfg, s, labels).db, r))
  {
    var post, key := s.posts[p], s.posts[p].key.value;
    var l := PostRead(p, read);
    ReadStep(cfg, s, l);
    LiveBindingFound(s.db, cfg.keyTtl, key);
    var found := TaskByKey(s.db, cfg.keyTtl, key);
    if read == Delivered && found.None? {
      var rest;
      StepShows(cfg, s, l);
      rest, r := Missing(cfg, Next(cfg, s, l), p, id, write);
      Prepend(cfg, s, l, p, rest);
      labels := [l] + rest;
    } else {
      labels, r := StepAndReply(cfg, s, l);
      if read == Delivered {
        ReadIsAtomic(s.db, cfg.keyTtl, post.pair, key, id);
      }
    }
  }

  /** In any state of the protocol a post that has just arrived can be taken through
      enabled steps of its own to the very tables, answer and signal that the
      service's CreateTask is specified by. */
  lemma {:induction false} PostingIsSteps(cfg: Settings, s: State, p: nat, id: Id, read: Fate, write: Fate)
    returns (labels: seq<Label>, r: Result<Task>)
    requires Sound(s.db) && p < |s.posts| && s.posts[p].stage == Begun && InsertReady(s.db, s.posts[p].pair)
    ensures StepsOf(cfg, s, p, labels)
    ensures var t := Follow(cfg, s, labels);
            && Posted(s.db, cfg.keyTtl, s.posts[p].pair, s.posts[p].key, id, read, write, Stepped(t.db, r))
            && p < |t.posts| && Told(t.posts[p].stage, r)
            && (t.slot <==> s.slot || (r.Ok? && r.value.status == Pending))
  {
    if s.posts[p].key.None? {
      labels, r := Unkeyed(cfg, s, p, id, read, write);
    } else {
      labels, r := Keyed(cfg, s, p, id, read, write);
    }
  }

  // ----- The refused bind ---------------------------------------------------------

  lemma ReplayedStage(cfg: Settings, s: State, l: Label)
    requires l.PostReplay? && l.p < |s.posts| && s.posts[l.p].key.Some?
    ensures var answer := if l.fate == Delivered then ReplayByKey(s.db, cfg.keyTtl, s.posts[l.p].pair, s.posts[l.p].key.value)
                          else Err(Storage);
            && NextDb(cfg, s, l) == s.db
            && NextStage(cfg, s.db, s.posts[l.p], l) == if answer.Ok? then Got(answer.value) else Answered(answer)
  {
  }

  /** After a refused bind, time may pass, and the replay's steps lead to the answer
      that the repository's CreateTaskWithKey is specified by. */
  lemma {:induction false} ReplayingIsSteps(cfg: Settings, s: State, p: nat, elapsed: nat, replay: Fate)
    returns (labels: seq<Label>, r: Result<Task>)
    requires p < |s.posts| && s.posts[p].stage == RolledBack && s.posts[p].key.Some?
    ensures Feasible(cfg, s, [Tick(elapsed)] + labels)
    ensures var t := Follow(cfg, s, [Tick(elapsed)] + labels);
            && t.db == s.db.(now := s.db.now + elapsed)
            && r == (if replay == Delivered then ReplayByKey(t.db, cfg.keyTtl, s.posts[p].pair, s.posts[p].key.value)
                     else Err(Storage))
            && p < |t.posts| && Told(t.posts[p].stage, r)
            && (t.slot <==> s.slot || (r.Ok? && r.value.status == Pending))
  {
    var later := Next(cfg, s, Tick(elapsed));
    assert later.db == s.db.(now := s.db.now + elapsed) && later.posts == s.posts && later.slot == s.slot;
    var l := PostReplay(p, replay);
    ReplayedStage(cfg, later, l);
    labels, r := StepAndReply(cfg, later, l);
    assert ([Tick(elapsed)] + labels)[1..] == labels;
  }
}
