/** The statements and transactions of internal/storage/postgres/repository.go
    as pure transitions over the three tables and the database clock. Each is
    one atomic step; now() is db.now throughout it. */
module Store {
  import opened Domain
  import opened Rates

  datatype DB = DB(tasks: seq<Task>, quotes: seq<Quote>, keys: map<Key, Binding>, now: Time)

  datatype Stepped<+T> = Stepped(db: DB, result: Result<T>)

  /** What the connection makes of a statement: its answer arrives; it never
      takes effect; or it takes effect and only the answer is lost. */
  datatype Fate = Delivered | Dropped | Lost

  function Under<T>(fate: Fate, before: DB, step: Stepped<T>): Stepped<T> {
    match fate
    case Delivered => step
    case Dropped => Stepped(before, Err(Storage))
    case Lost => Stepped(step.db, Err(Storage))
  }

  // ----- Row searches -------------------------------------------------------

  function IdFrom(tasks: seq<Task>, id: Id, k: nat): (i: nat)
    requires k <= |tasks|
    ensures k <= i <= |tasks|
    ensures forall j | k <= j < i :: tasks[j].id != id
    ensures i < |tasks| ==> tasks[i].id == id
    decreases |tasks| - k
  {
    if k == |tasks| || tasks[k].id == id then k else IdFrom(tasks, id, k + 1)
  }

  /** The first row carrying id, or the length of the table. */
  function FindId(tasks: seq<Task>, id: Id): (i: nat)
    ensures i <= |tasks|
    ensures forall j | 0 <= j < i :: tasks[j].id != id
    ensures i < |tasks| ==> tasks[i].id == id
  {
    IdFrom(tasks, id, 0)
  }

  predicate HasTask(tasks: seq<Task>, id: Id) { FindId(tasks, id) < |tasks| }

  predicate UnfinishedFor(t: Task, pair: Pair) { t.pair == pair && t.status.Unfinished() }

  function UnfinishedFrom(tasks: seq<Task>, pair: Pair, k: nat): (i: nat)
    requires k <= |tasks|
    ensures k <= i <= |tasks|
    ensures forall j | k <= j < i :: !UnfinishedFor(tasks[j], pair)
    ensures i < |tasks| ==> UnfinishedFor(tasks[i], pair)
    decreases |tasks| - k
  {
    if k == |tasks| || UnfinishedFor(tasks[k], pair) then k else UnfinishedFrom(tasks, pair, k + 1)
  }

  /** The row the partial unique index would conflict with, or the length. */
  function FindUnfinished(tasks: seq<Task>, pair: Pair): (i: nat)
    ensures i <= |tasks|
    ensures forall j | 0 <= j < i :: !UnfinishedFor(tasks[j], pair)
    ensures i < |tasks| ==> UnfinishedFor(tasks[i], pair)
  {
    UnfinishedFrom(tasks, pair, 0)
  }

  /** ORDER BY created_at LIMIT 1 over the pending rows among the first n. */
  function OldestBelow(tasks: seq<Task>, n: nat): (best: Option<nat>)
    requires n <= |tasks|
    ensures best.Some? ==> best.value < n && tasks[best.value].status == Pending
    ensures best.Some? ==>
              forall j | 0 <= j < n && tasks[j].status == Pending ::
                tasks[best.value].createdAt <= tasks[j].createdAt
    ensures best.None? ==> forall j | 0 <= j < n :: tasks[j].status != Pending
  {
    if n == 0 then None
    else
      var best := OldestBelow(tasks, n - 1);
      var t := tasks[n - 1];
      if t.status == Pending && (best.None? || t.createdAt < tasks[best.value].createdAt) then Some(n - 1)
      else best
  }

  function OldestPending(tasks: seq<Task>): Option<nat> { OldestBelow(tasks, |tasks|) }

  // ----- Posting ------------------------------------------------------------

  function NewTask(id: Id, pair: Pair, now: Time): Task {
    Task(id, pair, Pending, 0, None, now, now)
  }

  /** INSERT ... ON CONFLICT (pair) DO UPDATE SET pair = pair RETURNING: the
      unfinished task of the pair untouched, or a new one under the generated
      id. A generated id already in the table violates the primary key. */
  function InsertTask(db: DB, pair: Pair, id: Id): Stepped<Task> {
    var i := FindUnfinished(db.tasks, pair);
    if i < |db.tasks| then Stepped(db, Ok(db.tasks[i]))
    else if HasTask(db.tasks, id) then Stepped(db, Err(Rejected))
    else
      var t := NewTask(id, pair, db.now);
      Stepped(db.(tasks := db.tasks + [t]), Ok(t))
  }

  /** The task answered with is in the table. */
  lemma InsertedIsThere(db: DB, pair: Pair, id: Id)
    ensures var step := InsertTask(db, pair, id);
            step.result.Ok? ==> HasTask(step.db.tasks, step.result.value.id)
  {
    var step := InsertTask(db, pair, id);
    if step.result.Ok? {
      assert step.db.tasks[FindUnfinished(db.tasks, pair)] == step.result.value;
    }
  }

  predicate Live(b: Binding, ttl: Time, now: Time) { b.createdAt > now - ttl }

  predicate Expired(b: Binding, ttl: Time, now: Time) { b.createdAt <= now - ttl }

  /** The task a live binding of key leads to. */
  function TaskByKey(db: DB, ttl: Time, key: Key): Option<Task> {
    if key in db.keys && Live(db.keys[key], ttl, db.now) && HasTask(db.tasks, db.keys[key].updateId)
    then Some(db.tasks[FindId(db.tasks, db.keys[key].updateId)])
    else None
  }

  function ReplayTask(task: Task, pair: Pair): Result<Task> {
    if task.pair != pair then Err(KeyConflict) else Ok(task)
  }

  /** The bind statement: inserts, takes over an expired row, or returns no row. */
  function Bind(db: DB, ttl: Time, key: Key, id: Id): Option<DB> {
    if key !in db.keys || Expired(db.keys[key], ttl, db.now)
    then Some(db.(keys := db.keys[key := Binding(id, db.now)]))
    else None
  }

  /** The transaction of createTaskWithKey: the task and its binding committed
      together, or, answering None, a refused bind with everything rolled back. */
  function InsertAndBind(db: DB, ttl: Time, pair: Pair, key: Key, id: Id): Stepped<Option<Task>> {
    var inserted := InsertTask(db, pair, id);
    match inserted.result
    case Err(e) => Stepped(db, Err(e))
    case Ok(task) =>
      match Bind(inserted.db, ttl, key, task.id)
      case Some(bound) => Stepped(bound, Ok(Some(task)))
      case None => Stepped(db, Ok(None))
  }

  function ReplayByKey(db: DB, ttl: Time, pair: Pair, key: Key): Result<Task> {
    match TaskByKey(db, ttl, key)
    case None => Err(HeldButUnbound)
    case Some(task) => ReplayTask(task, pair)
  }

  /** The whole post as one indivisible step, which is what a client is promised:
      a live binding is replayed or conflicts, anything else finds or inserts the
      unfinished task of the pair and binds the key to it. */
  function AtomicPost(db: DB, ttl: Time, pair: Pair, key: Option<Key>, id: Id): Stepped<Task> {
    if key.None? then InsertTask(db, pair, id)
    else if key.value in db.keys && Live(db.keys[key.value], ttl, db.now) then
      Stepped(db, ReplayByKey(db, ttl, pair, key.value))
    else
      var inserted := InsertTask(db, pair, id);
      if inserted.result.Err? then inserted
      else Stepped(inserted.db.(keys := db.keys[key.value := Binding(inserted.result.value.id, db.now)]),
                   inserted.result)
  }

  /** What a post comes to with nobody interleaving, over a connection that may
      fail: a read that is lost ends it, a read that finds the key live answers it,
      and otherwise everything hangs on the one statement or transaction that
      writes. */
  ghost predicate Posted(db: DB, ttl: Time, pair: Pair, key: Option<Key>, id: Id, read: Fate, write: Fate,
                         step: Stepped<Task>)
  {
    var post := AtomicPost(db, ttl, pair, key, id);
    if key.Some? && read != Delivered then step == Stepped(db, Err(Storage))
    else if key.Some? && key.value in db.keys && db.now < db.keys[key.value].createdAt + ttl then step == post
    else
      && (write == Delivered ==> step == post)
      && (write == Dropped ==> step == Stepped(db, Err(Storage)))
      && (write == Lost ==> step == Stepped(post.db, Err(Storage)))
  }

  // ----- Reading ------------------------------------------------------------

  function QuoteFrom(quotes: seq<Quote>, id: Id, k: nat): (i: nat)
    requires k <= |quotes|
    ensures k <= i <= |quotes|
    ensures forall j | k <= j < i :: quotes[j].updateId != id
    ensures i < |quotes| ==> quotes[i].updateId == id
    decreases |quotes| - k
  {
    if k == |quotes| || quotes[k].updateId == id then k else QuoteFrom(quotes, id, k + 1)
  }

  /** The row of quotes with this primary key, or the length. */
  function FindQuote(quotes: seq<Quote>, id: Id): (i: nat)
    ensures i <= |quotes|
    ensures forall j | 0 <= j < i :: quotes[j].updateId != id
    ensures i < |quotes| ==> quotes[i].updateId == id
  {
    QuoteFrom(quotes, id, 0)
  }

  /** The task left-joined with its quote. */
  function GetTask(db: DB, id: Id): Result<TaskDetails> {
    if !HasTask(db.tasks, id) then Err(NotFound)
    else
      var q := FindQuote(db.quotes, id);
      Ok(TaskDetails(db.tasks[FindId(db.tasks, id)],
                     if q < |db.quotes| then Some(db.quotes[q]) else None))
  }

  /** ORDER BY fetched_at DESC LIMIT 1 over the quotes of a pair among the first n. */
  function LatestBelow(quotes: seq<Quote>, pair: Pair, n: nat): (best: Option<nat>)
    requires n <= |quotes|
    ensures best.Some? ==> best.value < n && quotes[best.value].pair == pair
    ensures best.Some? ==>
              forall j | 0 <= j < n && quotes[j].pair == pair :: quotes[j].fetchedAt <= quotes[best.value].fetchedAt
    ensures best.None? ==> forall j | 0 <= j < n :: quotes[j].pair != pair
  {
    if n == 0 then None
    else
      var best := LatestBelow(quotes, pair, n - 1);
      var q := quotes[n - 1];
      if q.pair == pair && (best.None? || quotes[best.value].fetchedAt < q.fetchedAt) then Some(n - 1)
      else best
  }

  function GetLatestQuote(db: DB, pair: Pair): Result<Quote> {
    match LatestBelow(db.quotes, pair, |db.quotes|)
    case None => Err(NotFound)
    case Some(i) => Ok(db.quotes[i])
  }

  // ----- Claiming and finalising --------------------------------------------

  function ClaimedRow(t: Task, now: Time): Task {
    t.(status := InProgress, attempts := t.attempts + 1, updatedAt := now)
  }

  function ClaimTask(db: DB): Stepped<Option<Task>> {
    match OldestPending(db.tasks)
    case None => Stepped(db, Ok(None))
    case Some(i) =>
      var t := ClaimedRow(db.tasks[i], db.now);
      Stepped(db.(tasks := db.tasks[i := t]), Ok(Some(t)))
  }

  /** WHERE id = $1 AND status = 'in_progress' AND attempts = $2. */
  predicate Holds(t: Task, claim: Task) {
    t.id == claim.id && t.status == InProgress && t.attempts == claim.attempts
  }

  /** What one of the three finalising statements writes into a row it matches. */
  datatype Closing = Finished | Broken(reason: string) | HandedBack

  function ClosedRow(t: Task, how: Closing, now: Time): Task {
    match how
    case Finished => t.(status := Done, error := None, updatedAt := now)
    case Broken(reason) => t.(status := Failed, error := Some(reason), updatedAt := now)
    case HandedBack => t.(status := Pending, updatedAt := now)
  }

  function CloseRow(t: Task, claim: Task, how: Closing, now: Time): Task {
    if Holds(t, claim) then ClosedRow(t, how, now) else t
  }

  function CloseRows(tasks: seq<Task>, claim: Task, how: Closing, now: Time): (r: seq<Task>)
    ensures |r| == |tasks|
    ensures forall i | 0 <= i < |tasks| :: r[i] == CloseRow(tasks[i], claim, how, now)
  {
    seq(|tasks|, i requires 0 <= i < |tasks| => CloseRow(tasks[i], claim, how, now))
  }

  /** Whether the statement has a row to affect: the claim is still held. */
  predicate Held(tasks: seq<Task>, claim: Task) {
    exists i | 0 <= i < |tasks| :: Holds(tasks[i], claim)
  }

  /** Closing the task and inserting its quote, together or not at all. */
  function CompleteTask(db: DB, claim: Task, rate: Decimal, rateDate: int, fetchedAt: Time): Stepped<()> {
    if !Held(db.tasks, claim) then Stepped(db, Err(StaleClaim))
    else if StoredRate(rate).None? || FindQuote(db.quotes, claim.id) < |db.quotes| then Stepped(db, Err(Rejected))
    else
      var q := Quote(claim.id, claim.pair, StoredRate(rate).value, rateDate, fetchedAt);
      Stepped(db.(tasks := CloseRows(db.tasks, claim, Finished, db.now), quotes := db.quotes + [q]), Ok(()))
  }

  function FailTask(db: DB, claim: Task, reason: string): Stepped<()> {
    if reason == "" then Stepped(db, Err(EmptyReason))
    else if !Held(db.tasks, claim) then Stepped(db, Err(StaleClaim))
    else Stepped(db.(tasks := CloseRows(db.tasks, claim, Broken(reason), db.now)), Ok(()))
  }

  function ReleaseTask(db: DB, claim: Task): Stepped<()> {
    if !Held(db.tasks, claim) then Stepped(db, Err(StaleClaim))
    else Stepped(db.(tasks := CloseRows(db.tasks, claim, HandedBack, db.now)), Ok(()))
  }

  // ----- The recovery pass --------------------------------------------------

  predicate Stuck(t: Task, olderThan: Time, now: Time) {
    t.status == InProgress && t.updatedAt < now - olderThan
  }

  predicate Releasable(t: Task, olderThan: Time, maxAttempts: int, now: Time) {
    Stuck(t, olderThan, now) && t.attempts < maxAttempts
  }

  predicate Abandonable(t: Task, olderThan: Time, maxAttempts: int, now: Time) {
    Stuck(t, olderThan, now) && t.attempts >= maxAttempts
  }

  function ReleaseRow(t: Task, olderThan: Time, maxAttempts: int, now: Time): Task {
    if Releasable(t, olderThan, maxAttempts, now) then ClosedRow(t, HandedBack, now) else t
  }

  function AbandonRow(t: Task, olderThan: Time, maxAttempts: int, reason: string, now: Time): Task {
    if Abandonable(t, olderThan, maxAttempts, now) then ClosedRow(t, Broken(reason), now) else t
  }

  function ReleaseRows(tasks: seq<Task>, olderThan: Time, maxAttempts: int, now: Time): (r: seq<Task>)
    ensures |r| == |tasks|
    ensures forall i | 0 <= i < |tasks| :: r[i] == ReleaseRow(tasks[i], olderThan, maxAttempts, now)
  {
    seq(|tasks|, i requires 0 <= i < |tasks| => ReleaseRow(tasks[i], olderThan, maxAttempts, now))
  }

  function AbandonRows(tasks: seq<Task>, olderThan: Time, maxAttempts: int, reason: string, now: Time)
    : (r: seq<Task>)
    ensures |r| == |tasks|
    ensures forall i | 0 <= i < |tasks| :: r[i] == AbandonRow(tasks[i], olderThan, maxAttempts, reason, now)
  {
    seq(|tasks|, i requires 0 <= i < |tasks| => AbandonRow(tasks[i], olderThan, maxAttempts, reason, now))
  }

  function CountReleasable(tasks: seq<Task>, olderThan: Time, maxAttempts: int, now: Time, n: nat): nat
    requires n <= |tasks|
  {
    if n == 0 then 0
    else
      var last := if Releasable(tasks[n - 1], olderThan, maxAttempts, now) then 1 else 0;
      CountReleasable(tasks, olderThan, maxAttempts, now, n - 1) + last
  }

  function CountAbandonable(tasks: seq<Task>, olderThan: Time, maxAttempts: int, now: Time, n: nat): nat
    requires n <= |tasks|
  {
    if n == 0 then 0
    else
      var last := if Abandonable(tasks[n - 1], olderThan, maxAttempts, now) then 1 else 0;
      CountAbandonable(tasks, olderThan, maxAttempts, now, n - 1) + last
  }

  /** The two updates one after the other, the second over what the first left. */
  function ReleaseStuckTasks(db: DB, olderThan: Time, maxAttempts: int, reason: string): Stepped<(nat, nat)> {
    if reason == "" then Stepped(db, Err(EmptyReason))
    else
      var released := ReleaseRows(db.tasks, olderThan, maxAttempts, db.now);
      var abandoned := AbandonRows(released, olderThan, maxAttempts, reason, db.now);
      Stepped(db.(tasks := abandoned),
              Ok((CountReleasable(db.tasks, olderThan, maxAttempts, db.now, |db.tasks|),
                  CountAbandonable(released, olderThan, maxAttempts, db.now, |released|))))
  }
}
