/** internal/storage/postgres/repository.go as it works: three tables changed in
    place, scans over rows, and transactions that put back what they found. Each
    method is the transition of the same name in Store, on the object's state. */
module Repository {
  import opened Domain
  import opened Rates
  import opened Store
  import Queue

  class Repository {
    var tasks: seq<Task>
    var quotes: seq<Quote>
    var keys: map<Key, Binding>
    var now: Time
    const keyTtl: Time

    constructor (keyTtl: Time, now: Time)
      ensures Valid() && this.keyTtl == keyTtl && Db() == DB([], [], map[], now)
    {
      tasks, quotes, keys := [], [], map[];
      this.now := now;
      this.keyTtl := keyTtl;
    }

    function Db(): DB
      reads this
    {
      DB(tasks, quotes, keys, now)
    }

    /** The foreign key of idempotency_keys, which the schema enforces. */
    ghost predicate Valid()
      reads this
    {
      Queue.KeysSound(Db())
    }

    /** The key is bound to the task, and the binding is live if bindings live at all. */
    ghost predicate Bound(key: Key, id: Id)
      reads this
    {
      key in keys && keys[key].updateId == id && (keyTtl > 0 ==> now < keys[key].createdAt + keyTtl)
    }

    // ----- Posting ------------------------------------------------------------

    /** The insert statement, from the pool or inside a transaction. */
    method InsertTask(pair: Pair, id: Id) returns (r: Result<Task>)
      requires Valid()
      modifies this`tasks
      ensures Valid()
      ensures Stepped(Db(), r) == Store.InsertTask(old(Db()), pair, id)
    {
      var i := 0;
      while i < |tasks| && !UnfinishedFor(tasks[i], pair)
        invariant 0 <= i <= |tasks|
        invariant forall j | 0 <= j < i :: !UnfinishedFor(tasks[j], pair)
        invariant tasks == old(tasks)
      {
        i := i + 1;
      }
      assert i == FindUnfinished(tasks, pair);
      if i < |tasks| {
        return Ok(tasks[i]);
      }
      var taken := IndexOf(id);
      if taken < |tasks| {
        return Err(Rejected);
      }
      var t := NewTask(id, pair, now);
      tasks := tasks + [t];
      r := Ok(t);
      Queue.KeysStay(old(Db()), Db());
    }

    /** The row with this primary key, or the length of the table. */
    method IndexOf(id: Id) returns (i: nat)
      ensures i == FindId(tasks, id)
    {
      i := 0;
      while i < |tasks| && tasks[i].id != id
        invariant 0 <= i <= |tasks|
        invariant forall j | 0 <= j < i :: tasks[j].id != id
      {
        i := i + 1;
      }
    }

    method TaskByKey(key: Key, fate: Fate) returns (r: Result<Option<Task>>)
      ensures fate == Delivered ==> r == Ok(Store.TaskByKey(Db(), keyTtl, key))
      ensures fate != Delivered ==> r == Err(Storage)
    {
      if fate != Delivered {
        return Err(Storage);
      }
      if key !in keys || !Live(keys[key], keyTtl, now) {
        return Ok(None);
      }
      var i := IndexOf(keys[key].updateId);
      r := Ok(if i < |tasks| then Some(tasks[i]) else None);
    }

    /** The bind statement: true when a row came back. */
    method Bind(key: Key, id: Id) returns (bound: bool)
      requires Valid() && HasTask(tasks, id)
      modifies this`keys
      ensures Valid()
      ensures bound <==> Store.Bind(old(Db()), keyTtl, key, id).Some?
      ensures Db() == if bound then Store.Bind(old(Db()), keyTtl, key, id).value else old(Db())
    {
      bound := key !in keys || Expired(keys[key], keyTtl, now);
      if bound {
        keys := keys[key := Binding(id, now)];
      }
    }

    /** One transaction; a refused bind, an error or a failed commit takes the
        inserted task away with it. None reports the refused bind. */
    method InsertAndBind(pair: Pair, key: Key, id: Id, fate: Fate) returns (r: Result<Option<Task>>)
      requires Valid()
      modifies this`tasks, this`keys
      ensures Valid()
      ensures Stepped(Db(), r) == Under(fate, old(Db()), Store.InsertAndBind(old(Db()), keyTtl, pair, key, id))
    {
      var savedTasks, savedKeys := tasks, keys;
      var inserted := InsertTask(pair, id);
      if inserted.Err? {
        tasks := savedTasks;
        assert Db() == old(Db());
        return Err(if fate == Delivered then inserted.error else Storage);
      }
      InsertedIsThere(old(Db()), pair, id);
      var bound := Bind(key, inserted.value.id);
      if !bound || fate == Dropped {
        tasks, keys := savedTasks, savedKeys;
        assert Db() == old(Db());
      }
      r := if fate != Delivered then Err(Storage) else Ok(if bound then Some(inserted.value) else None);
    }

    /** createTaskWithKey with replayByKey behind it; the clock moves on by elapsed
        between the refused bind and the read. */
    method CreateTaskWithKey(pair: Pair, key: Key, id: Id, elapsed: nat, write: Fate, replay: Fate)
      returns (r: Result<Task>)
      requires Valid()
      modifies this
      ensures Valid()
      ensures var tx: Stepped<Option<Task>> := Under(write, old(Db()), Store.InsertAndBind(old(Db()), keyTtl, pair, key, id));
              match tx.result
              case Err(e) => Db() == tx.db && r == Err(e)
              case Ok(Some(task)) => Db() == tx.db && r == Ok(task)
              case Ok(None) =>
                && Db() == old(Db()).(now := old(now) + elapsed)
                && r == if replay == Delivered then ReplayByKey(Db(), keyTtl, pair, key) else Err(Storage)
    {
      var tx := InsertAndBind(pair, key, id, write);
      match tx
      case Err(e) => r := Err(e);
      case Ok(Some(task)) => r := Ok(task);
      case Ok(None) =>
        now := now + elapsed;
        Queue.KeysStay(old(Db()), Db());
        var found := TaskByKey(key, replay);
        if found.Err? {
          return Err(found.error);
        }
        r := if found.value.Some? then ReplayTask(found.value.value, pair) else Err(HeldButUnbound);
    }

    /** A post nobody interleaves with is the indivisible post, as far as the
        connection lets it through. */
    method CreateTask(pair: Pair, key: Option<Key>, id: Id, read: Fate, write: Fate) returns (r: Result<Task>)
      requires Valid()
      modifies this
      ensures Valid()
      ensures read == Delivered && write == Delivered ==>
                Stepped(Db(), r) == AtomicPost(old(Db()), keyTtl, pair, key, id)
      ensures Posted(old(Db()), keyTtl, pair, key, id, read, write, Stepped(Db(), r))
      ensures r.Ok? && key.Some? ==> Bound(key.value, r.value.id)
    {
      if key.None? {
        if write == Dropped {
          return Err(Storage);
        }
        r := InsertTask(pair, id);
        if write == Lost {
          r := Err(Storage);
        }
        return;
      }
      var found := TaskByKey(key.value, read);
      if found.Err? {
        return Err(found.error);
      }
      if found.value.Some? {
        return ReplayTask(found.value.value, pair);
      }
      r := CreateTaskWithKey(pair, key.value, id, 0, write, Delivered);
    }

    // ----- Reading ------------------------------------------------------------

    method GetTask(id: Id, fate: Fate) returns (r: Result<TaskDetails>)
      ensures fate == Delivered ==> r == Store.GetTask(Db(), id)
      ensures fate != Delivered ==> r == Err(Storage)
    {
      if fate != Delivered {
        return Err(Storage);
      }
      var i := IndexOf(id);
      if i == |tasks| {
        return Err(NotFound);
      }
      var k := 0;
      while k < |quotes| && quotes[k].updateId != id
        invariant 0 <= k <= |quotes|
        invariant forall j | 0 <= j < k :: quotes[j].updateId != id
      {
        k := k + 1;
      }
      assert k == FindQuote(quotes, id);
      r := Ok(TaskDetails(tasks[i], if k < |quotes| then Some(quotes[k]) else None));
    }

    /** The latest fetch of the pair, by one scan. */
    method GetLatestQuote(pair: Pair, fate: Fate) returns (r: Result<Quote>)
      ensures fate == Delivered ==> r == Store.GetLatestQuote(Db(), pair)
      ensures fate != Delivered ==> r == Err(Storage)
    {
      if fate != Delivered {
        return Err(Storage);
      }
      var best: Option<nat> := None;
      for k := 0 to |quotes|
        invariant best == LatestBelow(quotes, pair, k)
      {
        if quotes[k].pair == pair && (best.None? || quotes[best.value].fetchedAt < quotes[k].fetchedAt) {
          best := Some(k);
        }
      }
      r := if best.Some? then Ok(quotes[best.value]) else Err(NotFound);
    }

    // ----- Claiming and finalising ----------------------------------------------

    /** Select the oldest pending row and mark it, in one statement. */
    method ClaimTask(fate: Fate) returns (r: Result<Option<Task>>)
      requires Valid()
      modifies this`tasks
      ensures Valid()
      ensures Stepped(Db(), r) == Under(fate, old(Db()), Store.ClaimTask(old(Db())))
    {
      if fate == Dropped {
        return Err(Storage);
      }
      var best: Option<nat> := None;
      for k := 0 to |tasks|
        invariant best == OldestBelow(tasks, k)
        invariant tasks == old(tasks)
      {
        if tasks[k].status == Pending && (best.None? || tasks[k].createdAt < tasks[best.value].createdAt) {
          best := Some(k);
        }
      }
      if best.Some? {
        tasks := tasks[best.value := ClaimedRow(tasks[best.value], now)];
      }
      Queue.KeysStay(old(Db()), Db());
      r := if fate == Lost then Err(Storage) else Ok(if best.Some? then Some(tasks[best.value]) else None);
    }

    /** UPDATE ... WHERE id = and status = and attempts =, answering the number
        of rows affected. */
    method Close(claim: Task, how: Closing) returns (affected: nat)
      requires Valid()
      modifies this`tasks
      ensures Valid()
      ensures tasks == CloseRows(old(tasks), claim, how, now)
      ensures affected > 0 <==> Held(old(tasks), claim)
    {
      affected := 0;
      var k := 0;
      while k < |tasks|
        invariant 0 <= k <= |tasks| == |old(tasks)|
        invariant forall j | 0 <= j < k :: tasks[j] == CloseRow(old(tasks)[j], claim, how, now)
        invariant forall j | k <= j < |tasks| :: tasks[j] == old(tasks)[j]
        invariant affected > 0 <==> exists j | 0 <= j < k :: Holds(old(tasks)[j], claim)
      {
        if Holds(tasks[k], claim) {
          tasks := tasks[k := ClosedRow(tasks[k], how, now)];
          affected := affected + 1;
        }
        k := k + 1;
      }
      Queue.KeysStay(old(Db()), Db());
    }

    /** A statement that matches no row leaves the table as it was. */
    lemma NothingClosed(ts: seq<Task>, claim: Task, how: Closing, at: Time)
      requires !Held(ts, claim)
      ensures CloseRows(ts, claim, how, at) == ts
    {
    }

    method CompleteTask(claim: Task, rate: Decimal, rateDate: int, fetchedAt: Time, fate: Fate) returns (r: Result<()>)
      requires Valid()
      modifies this`tasks, this`quotes
      ensures Valid()
      ensures Stepped(Db(), r)
           == Under(fate, old(Db()), Store.CompleteTask(old(Db()), claim, rate, rateDate, fetchedAt))
    {
      var saved := tasks;
      var affected := Close(claim, Finished);
      if affected == 0 {
        tasks := saved;
        return Err(if fate == Delivered then StaleClaim else Storage);
      }
      var k := 0;
      while k < |quotes| && quotes[k].updateId != claim.id
        invariant 0 <= k <= |quotes| && quotes == old(quotes)
        invariant forall j | 0 <= j < k :: quotes[j].updateId != claim.id
      {
        k := k + 1;
      }
      assert k == FindQuote(quotes, claim.id);
      var stored := StoredRate(rate);
      if stored.None? || k < |quotes| {
        tasks := saved;
        return Err(if fate == Delivered then Rejected else Storage);
      }
      if fate == Dropped {
        tasks := saved;
        return Err(Storage);
      }
      quotes := quotes + [Quote(claim.id, claim.pair, stored.value, rateDate, fetchedAt)];
      r := if fate == Lost then Err(Storage) else Ok(());
    }

    method FailTask(claim: Task, reason: string, fate: Fate) returns (r: Result<()>)
      requires Valid()
      modifies this`tasks
      ensures Valid()
      ensures reason == "" ==> r == Err(EmptyReason) && Db() == old(Db())
      ensures reason != "" ==>
                Stepped(Db(), r) == Under(fate, old(Db()), Store.FailTask(old(Db()), claim, reason))
    {
      if reason == "" {
        return Err(EmptyReason);
      }
      if fate == Dropped {
        return Err(Storage);
      }
      var affected := Close(claim, Broken(reason));
      if affected == 0 {
        NothingClosed(old(tasks), claim, Broken(reason), now);
      }
      r := if fate == Lost then Err(Storage) else if affected == 0 then Err(StaleClaim) else Ok(());
    }

    method ReleaseTask(claim: Task, fate: Fate) returns (r: Result<()>)
      requires Valid()
      modifies this`tasks
      ensures Valid()
      ensures Stepped(Db(), r) == Under(fate, old(Db()), Store.ReleaseTask(old(Db()), claim))
    {
      if fate == Dropped {
        return Err(Storage);
      }
      var affected := Close(claim, HandedBack);
      if affected == 0 {
        NothingClosed(old(tasks), claim, HandedBack, now);
      }
      r := if fate == Lost then Err(Storage) else if affected == 0 then Err(StaleClaim) else Ok(());
    }

    // ----- The recovery pass ------------------------------------------------------

    method ReleaseRows(olderThan: Time, maxAttempts: int) returns (affected: nat)
      requires Valid()
      modifies this`tasks
      ensures Valid()
      ensures tasks == Store.ReleaseRows(old(tasks), olderThan, maxAttempts, now)
      ensures affected == CountReleasable(old(tasks), olderThan, maxAttempts, now, |old(tasks)|)
    {
      affected := 0;
      var k := 0;
      while k < |tasks|
        invariant 0 <= k <= |tasks| == |old(tasks)|
        invariant forall j | 0 <= j < k :: tasks[j] == ReleaseRow(old(tasks)[j], olderThan, maxAttempts, now)
        invariant forall j | k <= j < |tasks| :: tasks[j] == old(tasks)[j]
        invariant affected == CountReleasable(old(tasks), olderThan, maxAttempts, now, k)
      {
        if Releasable(tasks[k], olderThan, maxAttempts, now) {
          tasks := tasks[k := ClosedRow(tasks[k], HandedBack, now)];
          affected := affected + 1;
        }
        k := k + 1;
      }
      Queue.KeysStay(old(Db()), Db());
    }

    method AbandonRows(olderThan: Time, maxAttempts: int, reason: string) returns (affected: nat)
      requires Valid()
      modifies this`tasks
      ensures Valid()
      ensures tasks == Store.AbandonRows(old(tasks), olderThan, maxAttempts, reason, now)
      ensures affected == CountAbandonable(old(tasks), olderThan, maxAttempts, now, |old(tasks)|)
    {
      affected := 0;
      var k := 0;
      while k < |tasks|
        invariant 0 <= k <= |tasks| == |old(tasks)|
        invariant forall j | 0 <= j < k :: tasks[j] == AbandonRow(old(tasks)[j], olderThan, maxAttempts, reason, now)
        invariant forall j | k <= j < |tasks| :: tasks[j] == old(tasks)[j]
        invariant affected == CountAbandonable(old(tasks), olderThan, maxAttempts, now, k)
      {
        if Abandonable(tasks[k], olderThan, maxAttempts, now) {
          tasks := tasks[k := ClosedRow(tasks[k], Broken(reason), now)];
          affected := affected + 1;
        }
        k := k + 1;
      }
      Queue.KeysStay(old(Db()), Db());
    }

    /** Both statements in one transaction. */
    method ReleaseStuckTasks(olderThan: Time, maxAttempts: int, reason: string, fate: Fate)
      returns (r: Result<(nat, nat)>)
      requires Valid()
      modifies this`tasks
      ensures Valid()
      ensures reason == "" ==> r == Err(EmptyReason) && Db() == old(Db())
      ensures reason != "" ==>
                Stepped(Db(), r)
                == Under(fate, old(Db()), Store.ReleaseStuckTasks(old(Db()), olderThan, maxAttempts, reason))
    {
      if reason == "" {
        return Err(EmptyReason);
      }
      var saved := tasks;
      var released := ReleaseRows(olderThan, maxAttempts);
      var failed := AbandonRows(olderThan, maxAttempts, reason);
      if fate == Dropped {
        tasks := saved;
      }
      r := if fate == Delivered then Ok((released, failed)) else Err(Storage);
    }
  }
}
