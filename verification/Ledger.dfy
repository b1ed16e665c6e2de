/** The history of the queue: one event for every status change, read off two
    consecutive contents of the table, and what the counts of those events say
    about a row. */
module Ledger {
  import opened Domain
  import opened Store
  import opened Queue

  datatype Kind = Claimed | Completed | Broke | Released | Recovered | Abandoned

  /** token is the attempts value that identifies the claim concerned. */
  datatype Event = Event(kind: Kind, id: Id, token: int)

  type Log = seq<Event>

  /** The event of one row, by its status before and after. A row sent back or
      failed by the recovery pass is told apart from one its worker gave up. */
  function EventOf(op: Op, r: Task, s: Task): Option<Event> {
    if r.status == s.status then None
    else match s.status
         case InProgress => Some(Event(Claimed, s.id, s.attempts))
         case Done => Some(Event(Completed, s.id, s.attempts))
         case Failed => Some(Event(if op.Sweep? then Abandoned else Broke, s.id, s.attempts))
         case Pending => Some(Event(if op.Sweep? then Recovered else Released, s.id, s.attempts))
  }

  /** The events of the first n rows. */
  function Changes(op: Op, before: seq<Task>, after: seq<Task>, n: nat): Log
    requires n <= |before| <= |after|
  {
    if n == 0 then []
    else
      var log := Changes(op, before, after, n - 1);
      match EventOf(op, before[n - 1], after[n - 1])
      case None => log
      case Some(e) => log + [e]
  }

  /** The history grown by one operation. */
  function Grown(log: Log, op: Op, before: seq<Task>, after: seq<Task>): Log
    requires |before| <= |after|
  {
    log + Changes(op, before, after, |before|)
  }

  // ----- Counting -----------------------------------------------------------

  /** Events of these kinds, of this task, and, if given, of this claim. */
  datatype Filter = Filter(kinds: set<Kind>, id: Id, token: Option<int>)

  predicate Matches(f: Filter, e: Event) {
    e.kind in f.kinds && e.id == f.id && (f.token.None? || f.token.value == e.token)
  }

  function Hit(f: Filter, e: Option<Event>): nat {
    if e.Some? && Matches(f, e.value) then 1 else 0
  }

  function Count(log: Log, f: Filter): nat {
    if log == [] then 0 else Count(log[..|log| - 1], f) + Hit(f, Some(log[|log| - 1]))
  }

  lemma {:induction false} CountConcat(a: Log, b: Log, f: Filter)
    ensures Count(a + b, f) == Count(a, f) + Count(b, f)
  {
    if b == [] {
      assert a + b == a;
    } else {
      CountConcat(a, b[..|b| - 1], f);
      assert (a + b)[..|a + b| - 1] == a + b[..|b| - 1];
    }
  }

  lemma {:induction false} CountAppend(log: Log, e: Event, f: Filter)
    ensures Count(log + [e], f) == Count(log, f) + Hit(f, Some(e))
  {
    assert (log + [e])[..|log|] == log;
  }

  lemma {:induction false} CountStranger(log: Log, f: Filter)
    requires forall k | 0 <= k < |log| :: log[k].id != f.id
    ensures Count(log, f) == 0
  {
    if log != [] {
      CountStranger(log[..|log| - 1], f);
    }
  }

  ghost predicate SameIds(before: seq<Task>, after: seq<Task>) {
    && RowsOrdered(before)
    && |before| <= |after|
    && forall i | 0 <= i < |before| :: after[i].id == before[i].id
  }

  /** A row contributes its own event and nothing else carries its identifier. */
  lemma {:induction false} CountChanges(op: Op, before: seq<Task>, after: seq<Task>, n: nat, i: nat, f: Filter)
    requires n <= |before| && i < |before| && SameIds(before, after)
    requires f.id == before[i].id
    ensures Count(Changes(op, before, after, n), f) == if i < n then Hit(f, EventOf(op, before[i], after[i])) else 0
  {
    if n > 0 {
      CountChanges(op, before, after, n - 1, i, f);
      var log := Changes(op, before, after, n - 1);
      var e := EventOf(op, before[n - 1], after[n - 1]);
      if e.Some? {
        CountAppend(log, e.value, f);
      }
    }
  }

  lemma {:induction false} ChangesIds(op: Op, before: seq<Task>, after: seq<Task>, n: nat, k: nat)
    requires n <= |before| && SameIds(before, after) && k < |Changes(op, before, after, n)|
    ensures HasTask(before, Changes(op, before, after, n)[k].id)
  {
    var log := Changes(op, before, after, n - 1);
    if k < |log| {
      ChangesIds(op, before, after, n - 1, k);
    } else {
      assert Changes(op, before, after, n)[k].id == before[n - 1].id;
    }
  }

  lemma CountGrown(log: Log, op: Op, before: seq<Task>, after: seq<Task>, i: nat, f: Filter)
    requires i < |before| && SameIds(before, after) && f.id == before[i].id
    ensures Count(Grown(log, op, before, after), f) == Count(log, f) + Hit(f, EventOf(op, before[i], after[i]))
  {
    CountConcat(log, Changes(op, before, after, |before|), f);
    CountChanges(op, before, after, |before|, i, f);
  }

  // ----- What the counts say about a row ------------------------------------

  const USES: set<Kind> := {Completed, Broke, Released, Recovered, Abandoned}
  const ENDINGS: set<Kind> := {Completed, Broke, Abandoned}

  function Claims(log: Log, id: Id): nat { Count(log, Filter({Claimed}, id, None)) }
  function Releases(log: Log, id: Id): nat { Count(log, Filter({Released}, id, None)) }
  function Recoveries(log: Log, id: Id): nat { Count(log, Filter({Recovered}, id, None)) }
  function Endings(log: Log, id: Id): nat { Count(log, Filter(ENDINGS, id, None)) }

  /** How often the claim (id, token) was made, and how often it took effect. */
  function TokenClaims(log: Log, id: Id, token: int): nat { Count(log, Filter({Claimed}, id, Some(token))) }
  function TokenUses(log: Log, id: Id, token: int): nat { Count(log, Filter(USES, id, Some(token))) }

  /** A completion of the task is on record exactly when it is done. */
  function Completions(log: Log, id: Id): nat { Count(log, Filter({Completed}, id, None)) }

  ghost predicate Balanced(cfg: Settings, log: Log, t: Task) {
    && Claims(log, t.id) == t.attempts
    && t.attempts == Releases(log, t.id) + Recoveries(log, t.id) + (if t.status == Pending then 0 else 1)
    && Recoveries(log, t.id) <= cfg.maxAttempts - 1
    && Endings(log, t.id) == (if t.status.Unfinished() then 0 else 1)
    && Completions(log, t.id) == (if t.status == Done then 1 else 0)
    && (forall k: int :: TokenClaims(log, t.id, k) == if 1 <= k <= t.attempts then 1 else 0)
    && (forall k: int :: TokenUses(log, t.id, k) ==
                         if 1 <= k <= t.attempts && !(k == t.attempts && t.status == InProgress) then 1 else 0)
  }

  /** Every event is about a task that exists. */
  ghost predicate LogOf(tasks: seq<Task>, log: Log) {
    forall k | 0 <= k < |log| :: HasTask(tasks, log[k].id)
  }

  ghost predicate LogAgrees(cfg: Settings, db: DB, log: Log) {
    && (forall i | 0 <= i < |db.tasks| :: Balanced(cfg, log, db.tasks[i]))
    && LogOf(db.tasks, log)
  }

  ghost predicate GrewBy(log: Log, longer: Log, id: Id, e: Option<Event>) {
    forall f: Filter | f.id == id :: Count(longer, f) == Count(log, f) + Hit(f, e)
  }

  lemma TokensBalanced(cfg: Settings, db: DB, op: Op, r: Task, s: Task, log: Log, longer: Log)
    requires cfg.Valid() && RowMove(cfg, db, op, r, s) && Balanced(cfg, log, r)
    requires GrewBy(log, longer, r.id, EventOf(op, r, s))
    ensures forall k: int :: TokenClaims(longer, s.id, k) == if 1 <= k <= s.attempts then 1 else 0
    ensures forall k: int :: TokenUses(longer, s.id, k) ==
                             if 1 <= k <= s.attempts && !(k == s.attempts && s.status == InProgress) then 1 else 0
  {
    forall k: int
      ensures TokenClaims(longer, s.id, k) == if 1 <= k <= s.attempts then 1 else 0
    {
      assert TokenClaims(log, r.id, k) == if 1 <= k <= r.attempts then 1 else 0;
    }
    forall k: int
      ensures TokenUses(longer, s.id, k) ==
              if 1 <= k <= s.attempts && !(k == s.attempts && s.status == InProgress) then 1 else 0
    {
      assert TokenUses(log, r.id, k) ==
             if 1 <= k <= r.attempts && !(k == r.attempts && r.status == InProgress) then 1 else 0;
    }
  }

  lemma MoveBalanced(cfg: Settings, db: DB, op: Op, r: Task, s: Task, log: Log, longer: Log)
    requires cfg.Valid() && RowMove(cfg, db, op, r, s) && Balanced(cfg, log, r)
    requires GrewBy(log, longer, r.id, EventOf(op, r, s))
    ensures Balanced(cfg, longer, s)
  {
    TokensBalanced(cfg, db, op, r, s, log, longer);
  }

  lemma NewBalanced(cfg: Settings, log: Log, t: Task)
    requires cfg.Valid() && t.status == Pending && t.attempts == 0
    requires forall k | 0 <= k < |log| :: log[k].id != t.id
    ensures Balanced(cfg, log, t)
  {
    forall f: Filter | f.id == t.id
      ensures Count(log, f) == 0
    {
      CountStranger(log, f);
    }
  }

  lemma LogIds(op: Op, before: seq<Task>, after: seq<Task>, log: Log)
    requires SameIds(before, after) && LogOf(before, log)
    ensures LogOf(before, Grown(log, op, before, after))
  {
    var changes := Changes(op, before, after, |before|);
    var longer := Grown(log, op, before, after);
    forall k | 0 <= k < |longer|
      ensures HasTask(before, longer[k].id)
    {
      if k < |log| {
        assert longer[k] == log[k];
      } else {
        ChangesIds(op, before, after, |before|, k - |log|);
        assert longer[k] == changes[k - |log|];
      }
    }
  }

  lemma LogOfMore(before: seq<Task>, after: seq<Task>, log: Log)
    requires SameIds(before, after) && LogOf(before, log)
    ensures LogOf(after, log)
  {
    forall k | 0 <= k < |log|
      ensures HasTask(after, log[k].id)
    {
      assert HasTask(before, log[k].id);
      assert after[FindId(before, log[k].id)].id == log[k].id;
    }
  }

  lemma OldBalanced(cfg: Settings, db: DB, op: Op, after: DB, log: Log, i: nat)
    requires cfg.Valid() && SameIds(db.tasks, after.tasks) && i < |db.tasks|
    requires RowMove(cfg, db, op, db.tasks[i], after.tasks[i]) && Balanced(cfg, log, db.tasks[i])
    ensures Balanced(cfg, Grown(log, op, db.tasks, after.tasks), after.tasks[i])
  {
    var longer := Grown(log, op, db.tasks, after.tasks);
    forall f: Filter | f.id == db.tasks[i].id
      ensures Count(longer, f) == Count(log, f) + Hit(f, EventOf(op, db.tasks[i], after.tasks[i]))
    {
      CountGrown(log, op, db.tasks, after.tasks, i, f);
    }
    MoveBalanced(cfg, db, op, db.tasks[i], after.tasks[i], log, longer);
  }

  lemma AddedBalanced(cfg: Settings, before: seq<Task>, log: Log, t: Task)
    requires cfg.Valid() && t.status == Pending && t.attempts == 0
    requires LogOf(before, log) && !HasTask(before, t.id)
    ensures Balanced(cfg, log, t)
  {
    forall k | 0 <= k < |log|
      ensures log[k].id != t.id
    {
      assert HasTask(before, log[k].id);
    }
    NewBalanced(cfg, log, t);
  }

  lemma RowsBalanced(cfg: Settings, db: DB, op: Op, after: DB, log: Log)
    requires cfg.Valid() && SameIds(db.tasks, after.tasks) && Moved(cfg, db, op, after) && LogAgrees(cfg, db, log)
    requires LogOf(db.tasks, Grown(log, op, db.tasks, after.tasks))
    ensures forall i | 0 <= i < |after.tasks| :: Balanced(cfg, Grown(log, op, db.tasks, after.tasks), after.tasks[i])
  {
    forall i | 0 <= i < |after.tasks|
      ensures Balanced(cfg, Grown(log, op, db.tasks, after.tasks), after.tasks[i])
    {
      if i < |db.tasks| {
        OldBalanced(cfg, db, op, after, log, i);
      } else {
        AddedBalanced(cfg, db.tasks, Grown(log, op, db.tasks, after.tasks), after.tasks[i]);
      }
    }
  }

  /** The history stays in balance with the table under every operation. */
  lemma LogKept(cfg: Settings, db: DB, op: Op, after: DB, log: Log)
    requires cfg.Valid() && RowsOrdered(db.tasks) && Moved(cfg, db, op, after) && LogAgrees(cfg, db, log)
    ensures |db.tasks| <= |after.tasks|
    ensures LogAgrees(cfg, after, Grown(log, op, db.tasks, after.tasks))
  {
    MovedSameIds(cfg, db, op, after);
    LogIds(op, db.tasks, after.tasks, log);
    LogOfMore(db.tasks, after.tasks, Grown(log, op, db.tasks, after.tasks));
    RowsBalanced(cfg, db, op, after, log);
  }

  lemma MovedSameIds(cfg: Settings, db: DB, op: Op, after: DB)
    requires RowsOrdered(db.tasks) && Moved(cfg, db, op, after)
    ensures SameIds(db.tasks, after.tasks)
  {
    forall i | 0 <= i < |db.tasks|
      ensures after.tasks[i].id == db.tasks[i].id
    {
      assert RowMove(cfg, db, op, db.tasks[i], after.tasks[i]);
    }
  }

  // ----- Consequences -------------------------------------------------------

  /** Attempts are the releases plus one for a claim in force or spent, so the
      recovery pass frees a task fewer than maxAttempts times and only shutdown
      releases can carry it past the limit. */
  lemma AttemptsBounded(cfg: Settings, log: Log, t: Task)
    requires cfg.Valid() && Balanced(cfg, log, t)
    ensures Recoveries(log, t.id) <= cfg.maxAttempts - 1
    ensures t.attempts <= cfg.maxAttempts + Releases(log, t.id)
    ensures t.status == Pending ==> t.attempts < cfg.maxAttempts + Releases(log, t.id)
  {
  }

  /** Every status change of a task is one of these, and there are at most two
      for each start that the limit and the shutdown releases allow. */
  lemma StatusChangesBounded(cfg: Settings, log: Log, t: Task)
    requires cfg.Valid() && Balanced(cfg, log, t)
    ensures Claims(log, t.id) + Releases(log, t.id) + Recoveries(log, t.id) + Endings(log, t.id)
         <= 2 * (cfg.maxAttempts + Releases(log, t.id))
  {
  }
}
