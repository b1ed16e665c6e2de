/** internal/api/dto.go: what a client is shown of a task and of a quote. */
module Response {
  import opened Domain
  import opened Rates
  import opened Store
  import opened Queue

  datatype TaskResponse = TaskResponse(updateId: Id, pair: string, status: Status, error: Option<string>,
                                       rate: Option<string>, rateDate: Option<int>, fetchedAt: Option<Time>)

  /** The decimal a stored rate is read back as, from the column's text. */
  function ReadRate(units: int): Decimal {
    FixedTextRoundTrip(units);
    ParseDecimal(FixedText(units)).value
  }

  function NewTaskResponse(d: TaskDetails): TaskResponse {
    var error := if d.task.ErrorText() != "" then Some(d.task.ErrorText()) else None;
    match d.quote
    case None => TaskResponse(d.task.id, d.task.pair, d.task.status, error, None, None, None)
    case Some(q) =>
      TaskResponse(d.task.id, d.task.pair, d.task.status, error,
                   Some(FormatRate(ReadRate(q.rate))), Some(q.rateDate), Some(q.fetchedAt))
  }

  /** A served task carries its rate, its rate date and its fetch time exactly
      when it is done, and an error, never an empty one, exactly when it failed;
      the rate shown is that of its own quote, with every one of ten places, and
      positive. */
  lemma ServedTaskShape(db: DB, id: Id)
    requires Sound(db)
    ensures GetTask(db, id) == Err(NotFound) <==> !HasTask(db.tasks, id)
    ensures HasTask(db.tasks, id) ==>
              GetTask(db, id).Ok?
              && var d, r := GetTask(db, id).value, NewTaskResponse(GetTask(db, id).value);
              && d.task.id == id && d.task in db.tasks
              && (r.rate.Some? <==> r.status == Done)
              && (r.rateDate.Some? <==> r.status == Done)
              && (r.fetchedAt.Some? <==> r.status == Done)
              && (r.error.Some? <==> r.status == Failed)
              && (r.error.Some? ==> r.error.value != "")
    ensures HasTask(db.tasks, id) && GetTask(db, id).value.task.status == Done ==>
              var d, r := GetTask(db, id).value, NewTaskResponse(GetTask(db, id).value);
              && d.quote.Some? && d.quote.value in db.quotes
              && d.quote.value.updateId == id && d.quote.value.pair == d.task.pair
              && 0 < d.quote.value.rate < OVERFLOW
              && r.rate == Some(FixedText(d.quote.value.rate))
              && ParseDecimal(r.rate.value) == Some(Decimal(d.quote.value.rate, -PLACES))
  {
    if HasTask(db.tasks, id) {
      var i := FindId(db.tasks, id);
      var q := FindQuote(db.quotes, id);
      assert RowSound(db.tasks[i], db.now);
      if q < |db.quotes| {
        assert QuoteSound(db.tasks, db.quotes[q]);
        FixedTextRoundTrip(db.quotes[q].rate);
        StoredRatePrintsExactly(db.quotes[q].rate);
      }
    }
  }

  lemma NoQuoteYet(db: DB, n: nat)
    requires Sound(db) && n < |db.tasks| && db.tasks[n].status != Done
    ensures FindQuote(db.quotes, db.tasks[n].id) == |db.quotes|
  {
    FindIdAt(db.tasks, n);
    assert forall k | 0 <= k < |db.quotes| :: QuoteSound(db.tasks, db.quotes[k]);
  }

  lemma QuoteAppended(quotes: seq<Quote>, q: Quote)
    requires FindQuote(quotes, q.updateId) == |quotes|
    ensures FindQuote(quotes + [q], q.updateId) == |quotes|
  {
    var more := quotes + [q];
    assert forall k | 0 <= k < |quotes| :: more[k] == quotes[k];
    assert more[|quotes|] == q;
  }

  /** After a completion that takes effect, its task is served done, with the
      stored rate in ten places and exactly the two dates that were recorded. */
  lemma ServedAfterComplete(db: DB, claim: Task, rate: Decimal, rateDate: int, fetchedAt: Time)
    requires Sound(db) && CompleteTask(db, claim, rate, rateDate, fetchedAt).result.Ok?
    requires forall i | 0 <= i < |db.tasks| && db.tasks[i].id == claim.id :: db.tasks[i].pair == claim.pair
    ensures var served := GetTask(CompleteTask(db, claim, rate, rateDate, fetchedAt).db, claim.id);
            && StoredRate(rate).Some? && served.Ok?
            && NewTaskResponse(served.value)
               == TaskResponse(claim.id, claim.pair, Done, None, Some(FixedText(StoredRate(rate).value)),
                               Some(rateDate), Some(fetchedAt))
  {
    var after := CompleteTask(db, claim, rate, rateDate, fetchedAt).db;
    var i :| 0 <= i < |db.tasks| && Holds(db.tasks[i], claim);
    FindIdAt(db.tasks, i);
    assert forall j | 0 <= j < |db.tasks| :: after.tasks[j].id == db.tasks[j].id;
    assert FindId(after.tasks, claim.id) == i;
    QuoteAppended(db.quotes, after.quotes[|db.quotes|]);
    StoredRatePrintsExactly(StoredRate(rate).value);
  }

  /** After a failure that takes effect, its task is served failed with exactly that
      reason and nothing of a quote. */
  lemma ServedAfterFail(db: DB, claim: Task, reason: string)
    requires Sound(db) && FailTask(db, claim, reason).result.Ok?
    requires forall i | 0 <= i < |db.tasks| && db.tasks[i].id == claim.id :: db.tasks[i].pair == claim.pair
    ensures var served := GetTask(FailTask(db, claim, reason).db, claim.id);
            && served.Ok?
            && NewTaskResponse(served.value)
               == TaskResponse(claim.id, claim.pair, Failed, Some(reason), None, None, None)
  {
    var after := FailTask(db, claim, reason).db;
    var i :| 0 <= i < |db.tasks| && Holds(db.tasks[i], claim);
    FindIdAt(db.tasks, i);
    assert forall j | 0 <= j < |db.tasks| :: after.tasks[j].id == db.tasks[j].id;
    assert FindId(after.tasks, claim.id) == i;
    NoQuoteYet(db, i);
  }

  /** A task that waits or runs is served as what it is, and as nothing more. */
  lemma ServedUnfinished(db: DB, n: nat)
    requires Sound(db) && n < |db.tasks|
    requires db.tasks[n].status == Pending || db.tasks[n].status == InProgress
    ensures var t, served := db.tasks[n], GetTask(db, db.tasks[n].id);
            && served.Ok?
            && NewTaskResponse(served.value) == TaskResponse(t.id, t.pair, t.status, None, None, None, None)
  {
    FindIdAt(db.tasks, n);
    assert RowSound(db.tasks[n], db.now);
    NoQuoteYet(db, n);
  }

  /** A completion with a positive decimal either closes the task and stores a ten-place
      value at most half a unit away, or leaves every table as it was. */
  lemma CompleteStoresNearest(db: DB, claim: Task, rate: Decimal, rateDate: int, fetchedAt: Time)
    requires Sound(db) && rate.coef > 0
    ensures var step := CompleteTask(db, claim, rate, rateDate, fetchedAt);
            if step.result.Err? then
              && step.db == db
              && (step.result == Err(StaleClaim) <==> !Held(db.tasks, claim))
              && (step.result == Err(Rejected) <==> Held(db.tasks, claim))
            else
              && |step.db.quotes| == |db.quotes| + 1
              && var q := step.db.quotes[|db.quotes|];
              && q.updateId == claim.id && q.pair == claim.pair
              && 0 < q.rate < 100_000_000_000_000_000_000
              && -0.5 <= q.rate as real - Exact(rate) * 10_000_000_000.0 <= 0.5
    ensures CompleteTask(db, claim, rate, rateDate, fetchedAt).result == Err(Rejected) <==>
            && Held(db.tasks, claim)
            && (|| Exact(rate) * 10_000_000_000.0 < 0.5
                || Exact(rate) * 10_000_000_000.0 >= 99_999_999_999_999_999_999.5)
  {
    StoredRateIsNearest(rate);
    if Held(db.tasks, claim) {
      var i :| 0 <= i < |db.tasks| && Holds(db.tasks[i], claim);
      FindIdAt(db.tasks, i);
      var q := FindQuote(db.quotes, claim.id);
      assert q < |db.quotes| ==> QuoteSound(db.tasks, db.quotes[q]);
    }
  }
}
