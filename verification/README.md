# The quote queue, verified

This project models the durable task queue of the currency quotes service and
proves what the service relies on: that tasks are claimed once, finished once,
never lost, never starved, and that a client repeating a post with the same
key is answered as if posts were indivisible. `dafny verify dfyconfig.toml`
checks all of it.

## Layers

- **Sequential.** `Store` writes each statement or transaction of the
  PostgreSQL repository as a pure transition over the three tables and the
  database clock. `Repository` is the object itself: scans, row updates in place,
  and transactions that save and restore; every method is proved equal to its
  transition, the failure of the connection included. `Service`, `Worker`,
  `Provider` and `Throttle` do the same for the callers.
- **Invariant.** `Queue` lists every way the tables change and every move a row
  can make, and proves that all of them keep `Sound`: order of creation, the
  partial unique index, the foreign keys, quotes for exactly the done tasks,
  reasons on exactly the failed ones. `Ledger` keeps the history of status
  changes, computed from two consecutive table contents rather than declared by
  the steps, in balance with the rows; `Fencing.HistoryNamesSteps` says which
  steps of a run it counts.
- **Runs.** `World` is the state machine: any number of posters and workers, the
  recovery pass, the wake channel and the clock, one statement at a time, with
  crashes, cancellations, expired deadlines, statements that never take effect
  and answers that are lost. `Steps` proves its invariant and that nobody is ever
  stuck; `Claims`, `History`, `Fencing`, `Starvation`, `Deadline`, `KeyedPosts`,
  `Bindings`, `Reasons` and `WakeUp` hold the theorems about whole runs.
  `Worker.ProcessingIsSteps` and `Posting.PostingIsSteps` tie what the `Worker`
  and `Service` objects do to steps of that machine.
- **Beside the protocol.** `Pairs`, `Rates`, `Response`, `Config`, `Sweep`.

## Premises

- Each SQL statement outside a transaction, and each transaction, is one atomic
  step at one instant `now`.
- A post that inserts does so at an instant later than every `created_at`
  already committed (`Queue.InsertReady`).
- `maxAttempts >= 1` and constant, as the configuration demands
  (`internal/config/config.go:146`). The retrier and the worker share one attempt
  count (`main.go:56-72`).
- A generated identifier that is already in the table is refused by the
  primary key and changes nothing; rows are never deleted, so none is reused.
- Database clock and worker deadlines are on one time scale. A worker's deadline
  may start any time after its claim; the theorem that needs a limit on that delay
  states it. The clock never goes back.
- Runs start from empty tables.
- An answer of the connection is delivered, or the statement never takes effect,
  or it takes effect and only the answer is lost (`Store.Fate`).
- The retry library looks at the number of tries first, then at permanence, then
  at the context, and only then pauses; the attempt limit is its only limit.

## Where the code and its comments part

`Config.check` is meant to keep the staleness threshold at twice the task
deadline (`internal/config/config.go:49-55`, `161-165`). It doubles an int64, so from 2^62
nanoseconds (about 146 years) on the product wraps to a negative number and any
threshold passes. `Config.CheckDemandsMargin` gives the exact condition, both
ways; `Config.CheckOverflows` gives a configuration.

## Model

| member | source | states |
|---|---|---|
| Pairs.Separator | internal/domain/pair.go:21 | the first separator of the input, or none |
| Pairs.CutJoined | internal/domain/pair.go:21 | cutting at the first separator gives back the two halves of a join |
| Pairs.CurrenciesInverts | internal/domain/pair.go:38-45 | Currencies undoes the joining of two supported currencies, and the join parses to itself |
| Pairs.PairSplits | internal/domain/pair.go:8-10 | every pair is the join of its own two different supported currencies |
| Pairs.ParsePairAccepts | internal/domain/pair.go:20-39 | the parser answers with a pair if and only if it is one of the pairs and the input is it up to the case of ASCII letters, compared code point by code point |
| Pairs.ToUpperForgetsCase | internal/domain/pair.go:21 | two inputs have one upper-case form if and only if they are the same up to the case of ASCII letters |
| Pairs.ParsePairNormalises | internal/domain/pair.go:20-39 | inputs that are the same up to case parse alike, and parsing a parsed pair changes nothing |
| Pairs.ParsePairRefuses | internal/domain/pair.go:22-36 | which of the four refusals an input gets, in which order, naming currencies in capitals |
| Pairs.SixPairs | internal/domain/pair.go:14-18 | the parser's image has six elements |
| Pairs.PairsAre | internal/domain/pair.go:14-18 | which six they are |
| Rates.RoundIsNearest | migrations/000001_init.up.sql:48 | the value kept is at most half a unit of the tenth place away |
| Rates.RoundReaches | migrations/000001_init.up.sql:48 | exactly which values round up to a given count of units |
| Rates.StoredRateOfPositive | migrations/000001_init.up.sql:48 | a positive decimal is stored between 0 and 10^10 within half a unit, and is refused exactly when it is under half a unit or rounds up to 10^10 |
| Rates.StoredRateOfOthers | migrations/000001_init.up.sql:48 | a rate that is not positive is never stored |
| Rates.UnitsAreExact | migrations/000001_init.up.sql:48 | the count that is rounded is coef * 10^exp in units of 10^-10, as a real number |
| Rates.StoredRateIsNearest | migrations/000001_init.up.sql:48 | in real numbers: the stored value is positive, under 10^10 and within half a unit of the upstream's number; refused exactly under half a unit or within half a unit of 10^10 and beyond |
| Rates.FixedTextShape | internal/api/dto.go:12-15 | the text is digits with no zero before others, a point and exactly ten more digits |
| Rates.FixedTextRoundTrip | internal/storage/postgres/repository.go:252-255 | parsing the ten-place text gives back the stored value |
| Rates.StoredRatePrintsExactly | internal/api/dto.go:60-62 | a stored rate read back as text, parsed and printed again is the same text |
| Rates.FixedTextInjective | internal/api/dto.go:60-62 | different stored rates never print alike |
| Store.FindId | migrations/000001_init.up.sql:3 | the first row with an identifier, or none |
| Store.FindUnfinished | migrations/000002_idempotency.up.sql:8-10 | the first row the partial unique index would conflict with, or none |
| Store.OldestBelow | internal/storage/postgres/repository.go:315-319 | a pending row no younger than any other, or none if nothing is pending |
| Store.FindQuote | migrations/000001_init.up.sql:46 | the quote with a primary key, or none |
| Store.LatestBelow | internal/storage/postgres/repository.go:272-277 | a quote of the pair fetched no earlier than any other, or none if the pair has none |
| Store.InsertedIsThere | internal/storage/postgres/repository.go:106-108 | the task a post is answered with is in the table, so there is something to bind the key to |
| Repository.Repository.constructor | internal/storage/postgres/repository.go:49 | a repository over empty tables |
| Repository.Repository.InsertTask | internal/storage/postgres/repository.go:199-213 | the scan and the insert are find-or-insert of the pair's unfinished task |
| Repository.Repository.TaskByKey | internal/storage/postgres/repository.go:172-190 | the task a live binding leads to, none if there is no live binding, or the storage error |
| Repository.Repository.Bind | internal/storage/postgres/repository.go:92-98 | inserts, takes over an expired row, or reports a key spoken for |
| Repository.Repository.InsertAndBind | internal/storage/postgres/repository.go:100-141 | the transaction commits task and binding together or restores the exact tables it found |
| Repository.Repository.CreateTaskWithKey | internal/storage/postgres/repository.go:85-157 | the transaction, and after a refused bind the replay read at a later instant, each under any fate of the connection; the foreign key is kept |
| Repository.Repository.CreateTask | internal/storage/postgres/repository.go:61-83 | with every answer delivered it is the one indivisible post; lost reads and writes change what they may and err; a task answered under a key is bound to it; the foreign key is kept |
| Repository.Repository.GetTask | internal/storage/postgres/repository.go:218-266 | the task with its own quote, not found, or the storage error |
| Repository.Repository.GetLatestQuote | internal/storage/postgres/repository.go:268-297 | one scan finds the quote of the pair with the latest fetch; otherwise not found or the storage error |
| Repository.Repository.ClaimTask | internal/storage/postgres/repository.go:306-333 | the oldest pending row alone is marked, whatever the fate of the statement |
| Repository.Repository.Close | internal/storage/postgres/repository.go:351-376 | the update writes exactly the rows held under the claim and says whether there was one |
| Repository.Repository.CompleteTask | internal/storage/postgres/repository.go:344-387 | task closed and quote added together, or every table as it was, with the error for each case |
| Repository.Repository.FailTask | internal/storage/postgres/repository.go:394-417 | an empty reason or a lost claim changes nothing; otherwise the held row fails with the reason |
| Repository.Repository.ReleaseTask | internal/storage/postgres/repository.go:424-440 | the held row goes back with its attempts, a lost claim changes nothing |
| Repository.Repository.ReleaseRows | internal/storage/postgres/repository.go:461-467 | the first statement's rows and its count |
| Repository.Repository.AbandonRows | internal/storage/postgres/repository.go:471-478 | the second statement's rows and its count |
| Repository.Repository.ReleaseStuckTasks | internal/storage/postgres/repository.go:453-507 | both statements commit together or the table is restored |
| Queue.ApplyMoves | internal/storage/postgres/repository.go:199-507 | rows are never deleted or reordered, at most one is added, and every row makes one of seven listed moves or none |
| Queue.ClaimMovesOldest | internal/storage/postgres/repository.go:314-320 | the only row a claim touches is pending and no younger than any pending row |
| Queue.ClaimTakesOldest | internal/storage/postgres/repository.go:306-333 | a claim takes the oldest pending row or finds none pending, writes its status, one attempt more and the instant of the claim, keeps its identity and error, and touches nothing else |
| Queue.ClosesOnce | internal/storage/postgres/repository.go:351-356 | a finalising update closes one row if the claim is in force and none otherwise, that row keeps who it is, and no update under the claim ever does anything more |
| Queue.ReleasesStuck | internal/storage/postgres/repository.go:461-467 | a row is written if and only if it is stuck with attempts left; it goes back with its place, attempts and error, and none like it remains |
| Queue.AbandonsStuck | internal/storage/postgres/repository.go:471-478 | a row is written if and only if it is stuck at the limit; it fails with the reason, and none like it remains |
| Queue.RowsKept | migrations/000002_idempotency.up.sql:1-10 | nothing reopens a terminal task, so at most one unfinished task per pair survives every operation |
| Queue.CompleteEffect | internal/storage/postgres/repository.go:351-386 | a completion closes the one row its claim names and adds that row's quote, or changes nothing |
| Queue.QuotesKept | internal/storage/postgres/repository.go:215-217 | a quote exists for exactly the done tasks, with the task's pair and a positive rate, after every operation |
| Queue.KeysKept | migrations/000002_idempotency.up.sql:16-33 | every binding references an existing task and was not made in the future |
| Queue.KeysStay | migrations/000002_idempotency.up.sql:22 | the foreign key holds as long as no row goes and no binding changes |
| Queue.SoundKept | migrations/000002_idempotency.up.sql:1-33 | every operation keeps the whole invariant of the three tables |
| Ledger.LogKept | internal/storage/postgres/repository.go:306-478 | every operation keeps the history in balance with the rows, claim by claim and token by token |
| Ledger.AttemptsBounded | internal/worker/recovery.go:30-32 | recovery frees a task fewer than maxAttempts times, and only shutdown releases carry attempts past the limit |
| Ledger.StatusChangesBounded | internal/storage/postgres/repository.go:442-445 | status changes number at most two per start that the limit and the shutdown releases allow |
| Steps.ClaimKnownKept | internal/domain/task.go:27-29 | attempts only grow and a row's pair is for ever, so a claim stays about the same task |
| Steps.ClaimSafeKept | internal/storage/postgres/repository.go:192-205 | only its own worker, or the recovery pass once it is stale, ends a claim; no post moves its updated_at |
| Steps.FreshClaim | internal/storage/postgres/repository.go:306-333 | a claim is in force when made and differs from every earlier claim |
| Steps.InvariantKept | internal/worker/worker.go:113-232 | every step of every actor keeps the invariant of the protocol |
| Steps.InvariantAlways | internal/worker/worker.go:113-232 | every reachable state satisfies it, whatever the interleaving and the failures |
| Steps.WorkerCanStep | internal/worker/worker.go:84-217 | every worker that has not left can make a step of its own in every state |
| Steps.PostCanStep | internal/storage/postgres/repository.go:67-157 | so can every post that has not been answered |
| Claims.ClaimMade | internal/storage/postgres/repository.go:310-322 | whatever a worker of a run holds is what its latest claim step was answered with, stamped with that step's instant |
| Claims.DeadlineBegun | internal/worker/worker.go:119-126 | a deadline is counted from the worker's latest begin step |
| History.GrowsForever | internal/storage/postgres/repository.go:192-198 | between any two states of a run rows keep their identity, terminal rows are never written, a row in progress keeps its claim time, and live bindings and quotes stay |
| History.LatestAgreesWithTasks | internal/storage/postgres/repository.go:268-297 | not found if and only if no task of the pair is done; otherwise the maximum over all done tasks of the pair, named by one of them |
| History.LatestNeverGoesBack | internal/storage/postgres/repository.go:268-297 | the fetch time served for a pair never decreases along a run |
| Fencing.TokensUsedOnce | internal/storage/postgres/repository.go:338-343 | in every reachable state each (id, attempts) was handed out at most once and took effect at most once, and only if handed out |
| Fencing.UsedMeansSpent | internal/storage/postgres/repository.go:338-343 | a claim that was made is out of force if and only if it has taken effect, by its worker or the recovery pass |
| Fencing.UsedOnceThenStale | internal/storage/postgres/repository.go:370-376 | once a token has taken effect, every use of it in any later state is stale and leaves all tables unchanged |
| Fencing.ClaimsNeverRepeat | internal/storage/postgres/repository.go:306-333 | no two claims of a run carry the same id and attempts |
| Fencing.SpentIsStale | internal/storage/postgres/repository.go:370-376 | every use of a spent claim answers stale and changes no table |
| Fencing.SpentForever | internal/storage/postgres/repository.go:338-343 | once spent a claim is spent in every later state |
| Fencing.UseSpends | internal/storage/postgres/repository.go:351-440 | a completion, failure or release that takes effect spends its claim |
| Fencing.ReleaseAfterLostAnswer | internal/worker/worker.go:200-217 | after a finalisation that committed without its answer arriving, the release is stale whenever it runs |
| Fencing.ClaimsConserved | internal/storage/postgres/repository.go:306-317 | in every reachable state attempts = shutdown releases + recovery releases + (0 if pending, else 1), with the limits that follow |
| Fencing.StepsConserved | internal/storage/postgres/repository.go:306-317 | the same conservation, counted in the steps of the run |
| Fencing.HistoryIsFaithful | internal/storage/postgres/repository.go:306-478 | the status changes of a run, counted from its states, are those the history records |
| Fencing.HistoryNamesSteps | internal/storage/postgres/repository.go:306-478 | for each kind of event the history counts the steps of that kind: claim steps, finalisations, hand-backs by workers, recovery passes |
| Fencing.StatusChangesLimited | internal/storage/postgres/repository.go:442-445 | with R shutdown releases a task changes status at most 2(maxAttempts + R) times in any run |
| Fencing.RankFalls | internal/storage/postgres/repository.go:461-478 | a natural measure, 2(maxAttempts + R) for a new task, that every status change strictly lowers |
| Starvation.YoungerNotClaimed | internal/storage/postgres/repository.go:314-320 | while a row waits no younger row is claimed |
| Starvation.WindowClaimsOlder | internal/storage/postgres/repository.go:314-320 | while a task waits, the claims of the run are exactly the attempts gained by older rows |
| Starvation.WindowSpends | internal/storage/postgres/repository.go:461-478 | over any stretch of a run, a task's attempts plus the starts it has left grow only by its shutdown releases |
| Starvation.CountIsPairs | migrations/000002_idempotency.up.sql:8-10 | unfinished tasks are as many as the pairs they are for |
| Starvation.SixUnfinished | internal/domain/pair.go:14-38 | at most six tasks are unfinished, at most five of them older than a given one |
| Starvation.BoundInHistory | internal/storage/postgres/repository.go:306-333 | the starvation bound in the history's counts |
| Starvation.ClaimsAreSteps | internal/storage/postgres/repository.go:306-333 | the history's claims are the claim steps that took a task |
| Starvation.WaitingIsBounded | internal/storage/postgres/repository.go:306-333 | while a task waits, the steps that claim another number at most 5 * maxAttempts plus the steps that hand an older task back |
| Config.HandlerTimeoutFits | internal/config/config.go:184-187 | a checked configuration leaves a handler a positive deadline, one second under the write timeout |
| Config.DoublingWraps | internal/config/config.go:174 | doubling a duration is exact below 2^62 and negative from there on |
| Config.CheckDemandsMargin | internal/config/config.go:166-182 | the check demands twice the task timeout if and only if doubling it does not overflow; beyond, it accepts any threshold |
| Config.CheckOverflows | internal/config/config.go:174-179 | a configuration accepted with a threshold of one nanosecond |
| Deadline.ReasonsAlways | internal/storage/postgres/repository.go:402-406 | no worker of any run ever sets out to fail a task with an empty reason |
| Deadline.LiveClaimFinishes | internal/storage/postgres/repository.go:344-417 | a claim in force is finalised; only the rate column can refuse it |
| Deadline.ClaimLiveWhileFresh | internal/storage/postgres/repository.go:192-205 | until the staleness threshold has passed since its claim step, a worker's row is in progress under its claim and stamped with that step's instant |
| Deadline.FinishInsideDeadline | internal/config/config.go:49-55 | in every run under a configuration checked without overflow, a worker whose begin step came within a task timeout of its claim step and that finalises within a task timeout of its begin step never meets a stale claim |
| Deadline.ClaimLiveInsideDeadline | internal/worker/worker.go:119-126 | the same for a worker still fetching: nobody has taken its task |
| Deadline.DeadlineIsBegun | internal/worker/worker.go:123-126 | the deadline such a worker is held to is the one from its latest begin step |
| KeyedPosts.LiveOrExpired | internal/storage/postgres/repository.go:92-98 | the lookup's live test and the takeover's expired test are exact complements, parted by created_at plus the lifetime |
| KeyedPosts.LiveBindingFound | internal/storage/postgres/repository.go:172-190 | the lookup finds a task if and only if the key has a live binding, and it is the bound one |
| KeyedPosts.ReadIsAtomic | internal/storage/postgres/repository.go:74-80 | a read that finds the key answers as the indivisible post would at that instant |
| KeyedPosts.TxIsAtomicOrRefused | internal/storage/postgres/repository.go:100-141 | the transaction is the indivisible post, or is refused by a live key, or errs; in the last two nothing changes |
| KeyedPosts.AtomicPostIsOp | internal/storage/postgres/repository.go:67-83 | the indivisible post changes the tables as one of the queue's operations does, or not at all |
| KeyedPosts.AtomicPostKeepsSound | internal/storage/postgres/repository.go:61-66 | so it keeps the whole invariant of the tables |
| KeyedPosts.RefusedThenUnbound | internal/storage/postgres/repository.go:148-154 | after a refused bind the replay errs if and only if the clock has crossed the binding's expiry |
| KeyedPosts.InsertFindsOrInserts | internal/storage/postgres/repository.go:192-213 | the unfinished task of the pair untouched, or else one new pending task with no attempts, stamped now |
| KeyedPosts.UnboundMeansExpired | internal/storage/postgres/repository.go:148-154 | under any interleaving the error means that the clock crossed the expiry of the binding that refused the bind |
| KeyedPosts.ReplayErrsWhenExpired | internal/storage/postgres/repository.go:143-157 | under any interleaving an answered replay errs if and only if the key's binding has expired at that instant |
| KeyedPosts.PostsLinearise | internal/storage/postgres/repository.go:67-190 | in every run each task or key conflict answered is that of one indivisible post at a step inside the call, the call's only step to change the tables; the only other answers are the unbound key, which means its expiry was crossed, and a fault of one of the call's steps: a storage error the connection caused or a generated identifier already taken |
| Bindings.BindWrites | internal/storage/postgres/repository.go:159-161 | a committed bind points the key at a task of the pair it arrived with |
| Bindings.BindingHolds | internal/storage/postgres/repository.go:159-178 | until the lifetime ends a post with the key is answered with the same task for the bound pair and with a conflict for another |
| Bindings.SameKeySameTask | internal/storage/postgres/repository.go:159-178 | so any completed post with the key inside that lifetime agrees with the post that bound it |
| Bindings.NoOrphans | internal/storage/postgres/repository.go:61-66 | every task of every reachable state was written for a post that was handed its identifier or lost the answer of its commit |
| Bindings.LostOnlyByFate | internal/storage/postgres/repository.go:119-121 | only a lost answer leaves a committed post with an error |
| WakeUp.NothingFound | internal/worker/worker.go:113-117 | a claim that finds nothing leaves nobody waiting |
| WakeUp.HealthyAlways | internal/worker/worker.go:84-108 | in every state of an undisturbed run a waiting task is attended to |
| WakeUp.NoLostWakeUp | internal/service/service.go:29-52 | then the slot is full, a poster is about to signal, or a worker is not parked and asks again before it parks |
| Sweep.SweepIsOnePass | internal/storage/postgres/repository.go:451-507 | the two statements are one pass over the stuck rows at one instant, and the two counts partition them |
| Sweep.SweepOrderIrrelevant | internal/storage/postgres/repository.go:461-478 | the order of the two statements matters neither to the rows nor to the two counts |
| Sweep.SweepTwice | internal/storage/postgres/repository.go:461-478 | a second pass at the same instant changes nothing |
| Sweep.DedupCommutesWithSweep | internal/storage/postgres/repository.go:192-205 | a post that finds an unfinished task does not change what the pass does, and after a pass is answered with the same task unless it has failed |
| Response.ServedTaskShape | internal/api/dto.go:24-48 | a served task carries rate and both dates if and only if done, an error if and only if failed, and its own quote's rate in ten places |
| Response.ServedAfterComplete | internal/api/dto.go:24-48 | after a completion its task is served done with the stored rate's text and exactly the rate date and fetch time recorded |
| Response.ServedAfterFail | internal/api/dto.go:24-48 | after a failure its task is served failed with exactly that reason and no quote |
| Response.ServedUnfinished | internal/api/dto.go:24-48 | a task that waits or runs is served with its own status and nothing more |
| Response.CompleteStoresNearest | internal/storage/postgres/repository.go:360-386 | completing with a positive decimal stores a value within half a unit of it or leaves every table as it was; a held claim's rate is refused if and only if it is under half a unit or rounds up to 10^10 |
| Provider.Retrier.constructor | internal/provider/retry.go:27-36 | an attempt count below one is raised to one |
| Provider.Retrier.FetchRate | internal/provider/retry.go:38-65 | between one and the limit of calls, stopping at the first that is not worth repeating, with that call's outcome |
| Provider.RunUnique | internal/provider/retry.go:38-65 | the upstream's answers leave no choice of how a fetch goes |
| Provider.AnswerIsLastCall | internal/provider/retry.go:46-64 | an answer is the last call's; the context's error means a transient last call with tries left and the context done; earlier calls were transient with the context live |
| Provider.TransientMeansExhausted | internal/provider/retry.go:46-64 | a fetch that ends as transient spent its whole limit on transient answers |
| Provider.ReasonsDiffer | internal/worker/worker.go:23-26 | no two of the three reasons a task can fail for are mistaken for each other |
| Provider.ReasonsNameCount | internal/worker/worker.go:23-26 | the count in a reason reads back as the count given |
| Service.WakeSlot.Notify | internal/service/service.go:45-52 | after a signal the slot is full, as it may have been already |
| Service.Service.CreateTask | internal/service/service.go:29-43 | the same post under any fate of the connection, and a signal exactly when the task answered is waiting |
| Posting.PostingIsSteps | internal/service/service.go:29-43 | a post that has arrived can be taken through enabled steps of its own to the tables, answer and signal that CreateTask is specified by |
| Posting.TransactionStep | internal/storage/postgres/repository.go:100-141 | the transaction's step has the transaction's tables and its outcome under any fate |
| Posting.ReplayingIsSteps | internal/storage/postgres/repository.go:143-157 | after a refused bind the clock's and the replay's steps lead to the answer CreateTaskWithKey is specified by |
| Worker.Worker.Process | internal/worker/worker.go:131-232 | one claim processed: the fetch, then the tables that the decision, the fates and the context call for, which the rows below spell out |
| Worker.SuccessCompletes | internal/worker/worker.go:176-185 | a rate answered with the context live leaves the row done and one quote of that rate, its date and the answer's instant; one the column refuses leaves the task in progress or, under cancellation, handed back |
| Worker.FailureFails | internal/worker/worker.go:170-198 | any other answer with the context live leaves the row failed with the reason its kind calls for |
| Worker.UnheardFinish | internal/worker/worker.go:205-217 | a finalisation that never reached the tables leaves the task in progress or, under cancellation, handed back |
| Worker.Pass | internal/worker/recovery.go:71-86 | the recovery pass's one statement with its reason |
| Worker.PassIsStep | internal/worker/recovery.go:71-86 | the recovery pass is a step of the protocol in every state, with its transaction's effect |
| Worker.ClaimingIsSteps | internal/worker/worker.go:113-126 | asking for a task is steps of the protocol: with one its deadline starts, with none the worker parks |
| Worker.WakingIsStep | internal/worker/worker.go:103-107 | a parked worker may poll again at any time, wakes exactly when the slot is full, and uses the signal up |
| Worker.HandsBack | internal/worker/worker.go:219-232 | handing back is an enabled step of the protocol with the release's effect |
| Worker.Finalises | internal/worker/worker.go:200-217 | finalising, and the release that may follow, are enabled steps of the protocol with the same effect |
| Worker.ProcessingIsSteps | internal/worker/worker.go:131-232 | processing a claim undisturbed is a stretch of enabled protocol steps leaving the same tables |
| Worker.UnavailableMeansExhausted | internal/worker/worker.go:234-240 | a worker records "unavailable after N attempts" if and only if it made exactly N calls, all transient, with its context live |
| Worker.UnavailableRowMeansExhausted | internal/worker/worker.go:138-198 | a row ends up failed as unavailable after N attempts if and only if it was held, the fetch made exactly N calls, all transient, with the context live, and the statement took effect |
| Reasons.VerdictReturned | internal/worker/worker.go:138-174 | every verdict a worker of a run holds goes back to a return of its own fetch inside its deadline |
| Reasons.FailingStep | internal/storage/postgres/repository.go:394-478 | a row comes to fail only by the worker that holds it or, abandoned, by the recovery pass |
| Reasons.UnavailableIsEarned | internal/worker/worker.go:234-240 | in every reachable state a task failed as unavailable was failed by its holder after a fetch that ended as transient with the context live |
| Reasons.QuoteIsEarned | internal/worker/worker.go:138-179 | in every reachable state each quote goes back to a success that its holder's fetch returned, with that rate, that date and the instant of the answer |
| Worker.LostAnswerThenRelease | internal/worker/worker.go:200-217 | a cancelled worker whose finalisation committed unheard releases nothing |
| Worker.LeavingEarly | internal/worker/worker.go:144-168 | a cancelled fetch hands the task back with its attempts; an expired one leaves every table alone |
| Throttle.ClaimLoop | internal/worker/worker.go:76-102 | over any script of polls every line carries its streak's length, lines of a streak are a minute apart, and a failed poll is silent only within a minute of one |
| Throttle.ReportsKept | internal/worker/worker.go:87-97 | the same of the loop's state after any number of turns |
| Throttle.LinesSpan | internal/worker/worker.go:89-93 | n failure lines of a streak span at least n - 1 minutes |
| Throttle.FewLines | internal/worker/worker.go:76-93 | a streak lasting D has at most 1 + floor(D / 60 seconds) error lines |
| Throttle.RecoveryCounts | internal/worker/worker.go:94-97 | the line that ends a streak carries the number of failed polls in it |

## Left out

- The HTTP layer: handlers, middleware, router, the generated contract and JSON; its properties have one branch each.
- The accepted and quote responses, and the zone and whole-second normalisation of times: plain copies of fields.
- The upstream's HTTP client and body parsing: the upstream is an arbitrary script of successes, transient and permanent failures.
- The lengths of the pauses between attempts and their jitter; whether the context ends during a pause is part of the script.
- Row locks, SKIP LOCKED passing over rows locked elsewhere, waiting on uncommitted duplicates, and a transaction's start differing from its commit: replaced by the atomic-step premise.
- Durations turned into floating-point seconds for make_interval, and microsecond timestamps.
- The smallint range of attempts: counted without a limit.
- The regular expression on the pair column: the parser's six pairs all match it.
- Reading the environment, logging, signals and the group of goroutines in main.go; of the configuration only the durations that check relates.
- Case folding beyond ASCII in strings.ToUpper.
- Decimal texts with exponents, and the limits NUMERIC puts on an input before rounding it to scale.
- The statement deadlines of the repository and of the release: a deadline that cuts a statement short is one of the fates Dropped or Lost.
- Wake signals across processes: one process owns the channel; a second one would only poll.
- Worker.Worker.Process: nobody interleaves with it and the task context is a parameter; interleavings, crashes and late deadlines are steps of World, and Worker.ProcessingIsSteps relates the two.
- Repository.Repository.CreateTask: nobody interleaves; KeyedPosts.PostsLinearise covers interleavings.
- Service.Service.CreateTask: nobody interleaves between the post and the signal; the two are separate steps of World.
- Throttle.ClaimLoop: the loop is cut off after any finite number of turns, and what claiming answers is a script.
- WakeUp.NoLostWakeUp: for runs without cancellation, crashes, failed claims or recovery releases, where the poll interval is what finds the task; a post whose committed answer is lost is excluded for the same reason.
- Progress with time (that a poll or a recovery pass eventually happens) is not stated; the bounds count claims and status changes.
