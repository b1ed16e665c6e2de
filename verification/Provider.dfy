/** internal/provider/retry.go: one fetch as a bounded run of attempts. The
    upstream is a script of answers; pauses between attempts are not timed. */
module Provider {
  import opened Rates

  datatype Outcome =
    | Success(rate: Decimal, date: int)
    | Transient
    | Permanent

  /** One answer, and whether the caller's context is done by the end of the
      pause that would follow it. */
  datatype Call = Call(outcome: Outcome, contextDone: bool)

  /** What a fetch returns: the outcome of its last attempt, or the context's error. */
  datatype Fetched = Answer(outcome: Outcome) | Interrupted

  class Upstream {
    const script: nat -> Call
    var calls: nat

    constructor (script: nat -> Call)
      ensures this.script == script && calls == 0
    {
      this.script := script;
      calls := 0;
    }

    method FetchRate() returns (c: Call)
      modifies this
      ensures c == script(old(calls)) && calls == old(calls) + 1
    {
      c := script(calls);
      calls := calls + 1;
    }
  }

  /** The attempt goes on: it failed in a way worth repeating and nobody left. */
  predicate Repeats(c: Call) { c.outcome == Transient && !c.contextDone }

  /** Exactly which runs of n attempts, starting at a place of the script, end
      with this answer under a limit. */
  ghost predicate FetchRun(script: nat -> Call, from: nat, n: nat, limit: nat, r: Fetched) {
    && 1 <= n <= limit
    && (forall i | from <= i < from + n - 1 :: Repeats(script(i)))
    && var last := script(from + n - 1);
    if n == limit || last.outcome != Transient then r == Answer(last.outcome)
    else last.contextDone && r == Interrupted
  }

  /** The script leaves no choice of how a fetch goes. */
  lemma RunUnique(script: nat -> Call, from: nat, n: nat, m: nat, limit: nat, r: Fetched, s: Fetched)
    requires FetchRun(script, from, n, limit, r) && FetchRun(script, from, m, limit, s)
    ensures n == m && r == s
  {
    var i: nat, j: nat := from + n - 1, from + m - 1;
    assert n < m ==> Repeats(script(i));
    assert m < n ==> Repeats(script(j));
  }

  /** What an answer says of the calls: a success, like a permanent failure, is the
      last call's and ended the run there; the context's error means that the last
      call was transient, tries were left and the context was done; and every
      earlier call was transient with the context still live. */
  lemma AnswerIsLastCall(script: nat -> Call, from: nat, n: nat, limit: nat, r: Fetched)
    requires FetchRun(script, from, n, limit, r)
    ensures 1 <= n <= limit
    ensures forall i | from <= i < from + n - 1 :: script(i).outcome == Transient && !script(i).contextDone
    ensures r.Answer? ==> r.outcome == script(from + n - 1).outcome
    ensures r.Interrupted? <==> n < limit && script(from + n - 1).outcome == Transient
    ensures r.Interrupted? ==> script(from + n - 1).contextDone
  {
    assert forall i | from <= i < from + n - 1 :: Repeats(script(i));
  }

  /** A fetch that ends as transient has spent its whole limit on transient answers. */
  lemma TransientMeansExhausted(script: nat -> Call, from: nat, n: nat, limit: nat)
    requires FetchRun(script, from, n, limit, Answer(Transient))
    ensures n == limit
    ensures forall i | from <= i < from + limit :: script(i).outcome == Transient
  {
    assert script(from + n - 1).outcome == Transient;
    forall i | from <= i < from + limit
      ensures script(i).outcome == Transient
    {
      if i < from + n - 1 {
        assert Repeats(script(i));
      }
    }
  }

  class Retrier {
    const attempts: nat

    /** Below one the count is raised to one. */
    constructor (attempts: int)
      ensures this.attempts >= 1
      ensures attempts >= 1 ==> this.attempts == attempts
      ensures attempts < 1 ==> this.attempts == 1
    {
      this.attempts := if attempts < 1 then 1 else attempts;
    }

    method FetchRate(upstream: Upstream) returns (r: Fetched)
      requires attempts >= 1
      modifies upstream
      ensures upstream.calls > old(upstream.calls)
      ensures FetchRun(upstream.script, old(upstream.calls), upstream.calls - old(upstream.calls), attempts, r)
    {
      var tries := 1;
      var c := upstream.FetchRate();
      while tries < attempts && Repeats(c)
        invariant 1 <= tries <= attempts
        invariant upstream.calls == old(upstream.calls) + tries
        invariant c == upstream.script(upstream.calls - 1)
        invariant forall i | old(upstream.calls) <= i < upstream.calls - 1 :: Repeats(upstream.script(i))
      {
        c := upstream.FetchRate();
        tries := tries + 1;
      }
      if tries == attempts || c.outcome != Transient {
        r := Answer(c.outcome);
      } else {
        r := Interrupted;
      }
    }
  }

  // ----- What a client is told ------------------------------------------------

  function IntText(n: int): (s: string)
    ensures s != ""
  {
    if n < 0 then "-" + Digits(-n) else Digits(n)
  }

  function UnavailableReason(attempts: int): (s: string)
    ensures s != ""
  {
    "provider unavailable after " + IntText(attempts) + " attempts"
  }

  const UNUSABLE: string := "provider returned an unusable response"

  function AbandonedReason(attempts: int): (s: string)
    ensures s != ""
  {
    "abandoned after " + IntText(attempts) + " attempts"
  }

  /** failureReason of a failed outcome. */
  function FailureReason(outcome: Outcome, attempts: int): (s: string)
    ensures s != ""
  {
    if outcome == Transient then UnavailableReason(attempts) else UNUSABLE
  }

  /** The count in a reason reads back as the count that was given. */
  lemma ReasonsNameCount(n: nat) returns (text: string)
    ensures AllDigits(text) && DigitsValue(text) == n && (|text| > 1 ==> text[0] != '0')
    ensures UnavailableReason(n) == "provider unavailable after " + text + " attempts"
    ensures AbandonedReason(n) == "abandoned after " + text + " attempts"
  {
    text := Digits(n);
    DigitsRoundTrip(n);
  }

  /** No two of the three reasons a task can fail for are mistaken for each other. */
  lemma ReasonsDiffer(attempts: int, limit: int)
    ensures UnavailableReason(attempts) != UNUSABLE
    ensures AbandonedReason(limit) != UNUSABLE
    ensures UnavailableReason(attempts) != AbandonedReason(limit)
  {
    var a, b, c := UnavailableReason(attempts), UNUSABLE, AbandonedReason(limit);
    assert a[9] == 'u' && b[9] == 'r';
    assert a[0] == 'p' && b[0] == 'p' && c[0] == 'a';
  }
}
