/** The entities of internal/domain as the three tables hold them, and the
    result type every repository operation answers with. */
module Domain {

  /** Identifiers and keys are uuids; only their equality matters. */
  type Id = nat
  type Key = nat

  /** Instants and durations share one integer scale, the database clock's. */
  type Time = int

  /** BASE/QUOTE; every value comes from Pairs.ParsePair. */
  type Pair = string

  datatype Option<+T> = None | Some(value: T)

  datatype Error =
    | NotFound
    | StaleClaim
    | KeyConflict
    | HeldButUnbound
    | EmptyReason
    | Rejected   // a constraint refused the statement
    | Storage    // the database could not be asked, or its answer never came

  datatype Result<+T> = Ok(value: T) | Err(error: Error)

  datatype Status = Pending | InProgress | Done | Failed {
    predicate Unfinished() { this == Pending || this == InProgress }
  }

  /** A row of quote_updates. */
  datatype Task = Task(id: Id, pair: Pair, status: Status, attempts: nat, error: Option<string>,
                       createdAt: Time, updatedAt: Time)
  {
    /** COALESCE(error, ''), which is what every query hands out. */
    function ErrorText(): string {
      match error
      case None => ""
      case Some(text) => text
    }
  }

  /** A row of quotes; the rate is counted in units of the tenth decimal place. */
  datatype Quote = Quote(updateId: Id, pair: Pair, rate: int, rateDate: int, fetchedAt: Time)

  /** A row of idempotency_keys, whose key is the map key. */
  datatype Binding = Binding(updateId: Id, createdAt: Time)

  datatype TaskDetails = TaskDetails(task: Task, quote: Option<Quote>)
}
