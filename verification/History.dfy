/** What stays true of a row, a binding and the quotes from one state of a run
    to any later one. */
module History {
  import opened Domain
  import opened Store
  import opened Queue
  import opened Ledger
  import opened World
  import opened Steps

  /** Two consecutive contents of the tables and the operation between them. */
  ghost predicate DbStep(cfg: Settings, db: DB, op: Op, after: DB) {
    && Sound(db) && Sound(after)
    && Guard(db, op)
    && Moved(cfg, db, op, after)
    && (forall i | 0 <= i < |db.tasks| :: SameTask(db.tasks[i], after.tasks[i]))
    && db.quotes <= after.quotes
    && BindingsMoved(cfg, db, after)
  }

  /** A binding is left alone until it has expired, and is then only ever
      replaced by one made now. */
  ghost predicate BindingsMoved(cfg: Settings, db: DB, after: DB) {
    forall key | key in db.keys ::
      && key in after.keys
      && (|| after.keys[key] == db.keys[key]
          || (Expired(db.keys[key], cfg.keyTtl, db.now) && after.keys[key].createdAt == db.now))
  }

  lemma ApplyBindings(cfg: Settings, db: DB, op: Op)
    ensures BindingsMoved(cfg, db, Apply(cfg, db, op))
  {
  }

  lemma ApplyIsDbStep(cfg: Settings, db: DB, op: Op)
    requires Sound(db) && Guard(db, op)
    ensures DbStep(cfg, db, op, Apply(cfg, db, op))
  {
    SoundKept(cfg, db, op);
    ApplyMoves(cfg, db, op);
    RowsKept(cfg, db, op, Apply(cfg, db, op));
    ApplyQuotes(cfg, db, op);
    ApplyBindings(cfg, db, op);
  }

  ghost predicate LoggedStep(cfg: Settings, s: State, op: Op, t: State) {
    && DbStep(cfg, s.db, op, t.db)
    && LogAgrees(cfg, s.db, s.log) && LogAgrees(cfg, t.db, t.log)
    && t.log == Grown(s.log, op, s.db.tasks, t.db.tasks)
  }

  lemma NextIsLoggedStep(cfg: Settings, s: State, l: Label)
    requires Invariant(cfg, s) && Enabled(cfg, s, l)
    ensures LoggedStep(cfg, s, OpOf(cfg, s, l), Next(cfg, s, l))
  {
    var op := OpOf(cfg, s, l);
    GuardHolds(cfg, s, l);
    ApplyIsDbStep(cfg, s.db, op);
    LogKept(cfg, s.db, op, NextDb(cfg, s, l), s.log);
  }

  /** One step of a run, seen from the tables and the history alone. */
  lemma StepFacts(cfg: Settings, r: Run, k: nat) returns (op: Op)
    requires IsRun(cfg, r) && k < |r.labels|
    ensures op == OpOf(cfg, r.states[k], r.labels[k])
    ensures LoggedStep(cfg, r.states[k], op, r.states[k + 1])
  {
    InvariantAlways(cfg, r, k);
    assert StepAt(cfg, r, k);
    op := OpOf(cfg, r.states[k], r.labels[k]);
    NextIsLoggedStep(cfg, r.states[k], r.labels[k]);
  }

  // ----- From one state to any later one ---------------------------------------

  /** A row keeps its identity; its attempts never fall; a terminal row is never
      written again; and between two claims a row that waits, or is in progress
      at the end, has not been written at all. So updated_at of a row in progress
      is its claim time however many posts land on its pair. */
  ghost predicate RowGrows(a: Task, b: Task) {
    && SameTask(a, b)
    && a.attempts <= b.attempts
    && (!a.status.Unfinished() ==> b == a)
    && (b.attempts == a.attempts && (a.status == Pending || b.status == InProgress) ==> b == a)
  }

  /** A binding keeps its place; while the old one would be live it is the old one. */
  ghost predicate KeysGrow(cfg: Settings, db: DB, after: DB) {
    forall key | key in db.keys ::
      && key in after.keys
      && db.keys[key].createdAt <= after.keys[key].createdAt
      && (Live(db.keys[key], cfg.keyTtl, after.now) ==> after.keys[key] == db.keys[key])
  }

  ghost predicate DbGrows(cfg: Settings, db: DB, after: DB) {
    && db.now <= after.now
    && |db.tasks| <= |after.tasks|
    && (forall n | 0 <= n < |db.tasks| :: RowGrows(db.tasks[n], after.tasks[n]))
    && db.quotes <= after.quotes
    && KeysGrow(cfg, db, after)
  }

  lemma MoveGrows(cfg: Settings, db: DB, op: Op, a: Task, b: Task)
    requires RowMove(cfg, db, op, a, b)
    ensures RowGrows(a, b)
  {
  }

  lemma BindingsGrow(cfg: Settings, db: DB, after: DB)
    requires BindingsMoved(cfg, db, after) && KeysSound(db) && db.now <= after.now
    ensures KeysGrow(cfg, db, after)
  {
  }

  lemma DbStepGrows(cfg: Settings, db: DB, op: Op, after: DB)
    requires DbStep(cfg, db, op, after)
    ensures DbGrows(cfg, db, after)
  {
    forall n | 0 <= n < |db.tasks|
      ensures RowGrows(db.tasks[n], after.tasks[n])
    {
      MoveGrows(cfg, db, op, db.tasks[n], after.tasks[n]);
    }
    BindingsGrow(cfg, db, after);
  }

  lemma GrowsTransitive(cfg: Settings, a: DB, b: DB, c: DB)
    requires DbGrows(cfg, a, b) && DbGrows(cfg, b, c)
    ensures DbGrows(cfg, a, c)
  {
    forall n | 0 <= n < |a.tasks|
      ensures RowGrows(a.tasks[n], c.tasks[n])
    {
      assert RowGrows(a.tasks[n], b.tasks[n]) && RowGrows(b.tasks[n], c.tasks[n]);
    }
  }

  lemma StepGrows(cfg: Settings, r: Run, k: nat)
    requires IsRun(cfg, r) && k < |r.labels|
    ensures DbGrows(cfg, r.states[k].db, r.states[k + 1].db)
  {
    var op := StepFacts(cfg, r, k);
    DbStepGrows(cfg, r.states[k].db, op, r.states[k + 1].db);
  }

  /** The tables of any later state have grown from those of any earlier one. */
  lemma {:induction false} GrowsForever(cfg: Settings, r: Run, i: nat, j: nat)
    requires IsRun(cfg, r) && i <= j < |r.states|
    ensures DbGrows(cfg, r.states[i].db, r.states[j].db)
    decreases j
  {
    if i < j {
      GrowsForever(cfg, r, i, j - 1);
      StepGrows(cfg, r, j - 1);
      GrowsTransitive(cfg, r.states[i].db, r.states[j - 1].db, r.states[j].db);
    }
  }

  lemma SoundAlways(cfg: Settings, r: Run, k: nat)
    requires IsRun(cfg, r) && k < |r.states|
    ensures Sound(r.states[k].db) && LogAgrees(cfg, r.states[k].db, r.states[k].log)
  {
    InvariantAlways(cfg, r, k);
  }

  lemma KnownGrows(cfg: Settings, db: DB, after: DB, claim: Task)
    requires DbGrows(cfg, db, after) && RowsOrdered(after.tasks) && ClaimKnown(db, claim)
    ensures ClaimKnown(after, claim) && FindId(after.tasks, claim.id) == FindId(db.tasks, claim.id)
  {
    var n := FindId(db.tasks, claim.id);
    assert RowGrows(db.tasks[n], after.tasks[n]);
    FindIdAt(after.tasks, n);
  }

  // ----- Quotes ---------------------------------------------------------------

  /** Not found exactly while no task of the pair is done; otherwise the answer
      is the quote of a done task of the pair, and no done task of the pair has a
      later fetch. */
  lemma LatestAgreesWithTasks(db: DB, pair: Pair)
    requires Sound(db)
    ensures GetLatestQuote(db, pair) == Err(NotFound) <==>
            forall n | 0 <= n < |db.tasks| :: !(db.tasks[n].pair == pair && db.tasks[n].status == Done)
    ensures GetLatestQuote(db, pair).Ok? ==>
              var q := GetLatestQuote(db, pair).value;
              && q in db.quotes && q.pair == pair
              && HasTask(db.tasks, q.updateId)
              && db.tasks[FindId(db.tasks, q.updateId)].status == Done
              && db.tasks[FindId(db.tasks, q.updateId)].pair == pair
              && forall n | 0 <= n < |db.tasks| && db.tasks[n].pair == pair && db.tasks[n].status == Done ::
                   && FindQuote(db.quotes, db.tasks[n].id) < |db.quotes|
                   && db.quotes[FindQuote(db.quotes, db.tasks[n].id)].fetchedAt <= q.fetchedAt
  {
    forall n | 0 <= n < |db.tasks| && db.tasks[n].status == Done
      ensures FindQuote(db.quotes, db.tasks[n].id) < |db.quotes|
      ensures db.quotes[FindQuote(db.quotes, db.tasks[n].id)].pair == db.tasks[n].pair
    {
      var k := FindQuote(db.quotes, db.tasks[n].id);
      assert QuoteSound(db.tasks, db.quotes[k]);
      FindIdAt(db.tasks, n);
    }
    var best := LatestBelow(db.quotes, pair, |db.quotes|);
    if best.Some? {
      assert QuoteSound(db.tasks, db.quotes[best.value]);
    }
  }

  /** The fetched_at served for a pair never goes back, whatever order the
      completions commit in. */
  lemma LatestNeverGoesBack(cfg: Settings, r: Run, i: nat, j: nat, pair: Pair)
    requires IsRun(cfg, r) && i <= j < |r.states|
    requires GetLatestQuote(r.states[i].db, pair).Ok?
    ensures GetLatestQuote(r.states[j].db, pair).Ok?
    ensures GetLatestQuote(r.states[i].db, pair).value.fetchedAt <= GetLatestQuote(r.states[j].db, pair).value.fetchedAt
  {
    GrowsForever(cfg, r, i, j);
    var earlier, later := r.states[i].db.quotes, r.states[j].db.quotes;
    var n := LatestBelow(earlier, pair, |earlier|).value;
    assert later[n] == earlier[n];
  }
}
