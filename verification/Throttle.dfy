/** The claim loop of worker.Run, and how little it writes about a database it
    cannot reach. */
module Throttle {
  import opened Domain

  const MINUTE: Time := 60_000_000_000

  /** One turn of the loop: whether claiming failed, the instant time.Since is
      asked at, and the instant lastReport would be set to. */
  datatype Poll = Poll(failed: bool, checkedAt: Time, reportedAt: Time)

  /** What a turn writes about claiming. */
  datatype Line = Silent | ClaimFailed(failedPolls: nat) | ClaimRecovered(failedPolls: nat)

  /** Instants are read in order. */
  ghost predicate InOrder(polls: seq<Poll>) {
    && (forall i | 0 <= i < |polls| :: polls[i].checkedAt <= polls[i].reportedAt)
    && (forall i, j | 0 <= i < j < |polls| :: polls[i].reportedAt <= polls[j].checkedAt)
  }

  /** Failed polls in a row just before turn i. */
  function StreakBefore(polls: seq<Poll>, i: nat): (n: nat)
    requires i <= |polls|
    ensures n <= i
    ensures forall j | i - n <= j < i :: polls[j].failed
    ensures n < i ==> !polls[i - n - 1].failed
  {
    if i == 0 || !polls[i - 1].failed then 0 else 1 + StreakBefore(polls, i - 1)
  }

  /** Turns a to b - 1 all failed. */
  ghost predicate AllFailed(polls: seq<Poll>, a: nat, b: nat)
    requires a <= b <= |polls|
  {
    forall i | a <= i < b :: polls[i].failed
  }

  /** A turn's line says how long the streak is; a success says so only after
      failures, and the first failure of a streak is always written. */
  ghost predicate LineOf(polls: seq<Poll>, lines: seq<Line>, i: nat)
    requires i < |polls| && i < |lines|
  {
    var streak := StreakBefore(polls, i);
    if !polls[i].failed then lines[i] == if streak > 0 then ClaimRecovered(streak) else Silent
    else (lines[i] == ClaimFailed(streak + 1) || lines[i] == Silent) && (streak == 0 ==> lines[i] != Silent)
  }

  /** Two failure lines of one streak are at least a minute apart. */
  ghost predicate Spaced(polls: seq<Poll>, lines: seq<Line>, n: nat)
    requires n <= |polls| && n <= |lines|
  {
    forall i, j | 0 <= i < j < n && AllFailed(polls, i, j + 1) && lines[i].ClaimFailed? && lines[j].ClaimFailed? ::
      polls[j].checkedAt - polls[i].reportedAt >= MINUTE
  }

  /** A failed poll is left out only within a minute of the streak's latest line. */
  ghost predicate Prompt(polls: seq<Poll>, lines: seq<Line>, n: nat)
    requires n <= |polls| && n <= |lines|
  {
    forall j | 0 <= j < n && polls[j].failed && lines[j] == Silent ::
      exists i :: 0 <= i < j && AllFailed(polls, i, j + 1) && lines[i].ClaimFailed?
                  && polls[j].checkedAt - polls[i].reportedAt < MINUTE
  }

  /** The loop's variables. */
  datatype Loop = Loop(written: seq<Line>, failures: nat, lastReport: Time)

  function Turn(s: Loop, p: Poll): Loop {
    if p.failed then
      if s.failures == 0 || p.checkedAt - s.lastReport >= MINUTE then
        Loop(s.written + [ClaimFailed(s.failures + 1)], s.failures + 1, p.reportedAt)
      else Loop(s.written + [Silent], s.failures + 1, s.lastReport)
    else Loop(s.written + [if s.failures > 0 then ClaimRecovered(s.failures) else Silent], 0, s.lastReport)
  }

  function After(polls: seq<Poll>, i: nat): Loop
    requires i <= |polls|
  {
    if i == 0 then Loop([], 0, 0) else Turn(After(polls, i - 1), polls[i - 1])
  }

  /** What the loop has written after all its turns. */
  function Report(polls: seq<Poll>): seq<Line> { After(polls, |polls|).written }

  /** The loop, cut off after any number of turns. */
  method ClaimLoop(polls: seq<Poll>) returns (report: seq<Line>)
    ensures report == Report(polls)
    ensures InOrder(polls) ==>
              && |report| == |polls|
              && (forall i | 0 <= i < |polls| :: LineOf(polls, report, i))
              && Spaced(polls, report, |polls|)
              && Prompt(polls, report, |polls|)
  {
    report := [];
    var failures: nat := 0;
    var lastReport: Time := 0;
    for i := 0 to |polls|
      invariant After(polls, i) == Loop(report, failures, lastReport)
    {
      if polls[i].failed {
        failures := failures + 1;
        if failures == 1 || polls[i].checkedAt - lastReport >= MINUTE {
          report := report + [ClaimFailed(failures)];
          lastReport := polls[i].reportedAt;
        } else {
          report := report + [Silent];
        }
      } else if failures > 0 {
        report := report + [ClaimRecovered(failures)];
        failures := 0;
      } else {
        report := report + [Silent];
      }
    }
    if InOrder(polls) {
      ReportsKept(polls);
    }
  }

  /** What the variables mean after i turns: last is the turn that set lastReport. */
  ghost predicate Agrees(polls: seq<Poll>, i: nat, s: Loop, last: nat) {
    && i <= |polls| && |s.written| == i
    && s.failures == StreakBefore(polls, i)
    && (s.failures > 0 ==> i - s.failures <= last < i && s.written[last].ClaimFailed?
                           && s.lastReport == polls[last].reportedAt
                           && forall j | last < j < i :: !s.written[j].ClaimFailed?)
    && (forall j | 0 <= j < i :: LineOf(polls, s.written, j))
    && Spaced(polls, s.written, i) && Prompt(polls, s.written, i)
  }

  lemma {:induction false} TurnKeeps(polls: seq<Poll>, i: nat, s: Loop, last: nat) returns (next: nat)
    requires InOrder(polls) && i < |polls| && Agrees(polls, i, s, last)
    ensures Agrees(polls, i + 1, Turn(s, polls[i]), next)
  {
    if polls[i].failed {
      if s.failures == 0 || polls[i].checkedAt - s.lastReport >= MINUTE {
        next := i;
        ReportKeeps(polls, i, s, last);
      } else {
        next := last;
        SilenceKeeps(polls, i, s, last);
      }
    } else {
      next := last;
      SuccessKeeps(polls, i, s, last);
    }
  }

  lemma {:induction false} StartAgrees(polls: seq<Poll>)
    ensures Agrees(polls, 0, Loop([], 0, 0), 0)
  {
  }

  lemma {:induction false} AfterAgrees(polls: seq<Poll>, i: nat, s: Loop) returns (last: nat)
    requires InOrder(polls) && i <= |polls| && s == After(polls, i)
    ensures Agrees(polls, i, s, last)
    decreases i
  {
    if i == 0 {
      last := 0;
      StartAgrees(polls);
    } else {
      var before := After(polls, i - 1);
      var previous := AfterAgrees(polls, i - 1, before);
      last := TurnKeeps(polls, i - 1, before, previous);
    }
  }

  /** Whatever the script of polls, every line written is the line the streak
      calls for, failure lines of a streak are spaced, and none is left out
      without a recent one. */
  lemma ReportsKept(polls: seq<Poll>)
    requires InOrder(polls)
    ensures var lines := Report(polls);
            && |lines| == |polls|
            && (forall i | 0 <= i < |polls| :: LineOf(polls, lines, i))
            && Spaced(polls, lines, |polls|)
            && Prompt(polls, lines, |polls|)
  {
    var last := AfterAgrees(polls, |polls|, After(polls, |polls|));
  }

  lemma {:induction false} LinesGrow(polls: seq<Poll>, before: seq<Line>, line: Line, i: nat)
    requires i < |polls| && |before| == i
    requires forall j | 0 <= j < i :: LineOf(polls, before, j)
    requires LineOf(polls, before + [line], i)
    ensures forall j | 0 <= j < i + 1 :: LineOf(polls, before + [line], j)
  {
    var lines := before + [line];
    forall j | 0 <= j < i
      ensures LineOf(polls, lines, j)
    {
      assert LineOf(polls, before, j) && lines[j] == before[j];
    }
  }

  lemma {:induction false} ReportKeeps(polls: seq<Poll>, i: nat, s: Loop, last: nat)
    requires InOrder(polls) && i < |polls| && polls[i].failed && Agrees(polls, i, s, last)
    requires s.failures == 0 || polls[i].checkedAt - s.lastReport >= MINUTE
    ensures Agrees(polls, i + 1, Loop(s.written + [ClaimFailed(s.failures + 1)], s.failures + 1, polls[i].reportedAt), i)
  {
    var line := ClaimFailed(s.failures + 1);
    LinesGrow(polls, s.written, line, i);
    SpacedGrows(polls, s.written, s.written + [line], i, s.failures, last);
    PromptGrows(polls, s.written, s.written + [line], i, last);
  }

  lemma {:induction false} StreakGoesOn(polls: seq<Poll>, i: nat, last: nat)
    requires i < |polls| && polls[i].failed && i - StreakBefore(polls, i) <= last <= i
    ensures AllFailed(polls, last, i + 1)
    ensures StreakBefore(polls, i + 1) == StreakBefore(polls, i) + 1
  {
  }

  lemma {:induction false} SilenceKeeps(polls: seq<Poll>, i: nat, s: Loop, last: nat)
    requires InOrder(polls) && i < |polls| && polls[i].failed && Agrees(polls, i, s, last)
    requires s.failures > 0 && polls[i].checkedAt - s.lastReport < MINUTE
    ensures Agrees(polls, i + 1, Loop(s.written + [Silent], s.failures + 1, s.lastReport), last)
  {
    StreakGoesOn(polls, i, last);
    LinesGrow(polls, s.written, Silent, i);
    SpacedSilent(polls, s.written, Silent, i);
    PromptGrows(polls, s.written, s.written + [Silent], i, last);
  }

  lemma {:induction false} SuccessKeeps(polls: seq<Poll>, i: nat, s: Loop, last: nat)
    requires InOrder(polls) && i < |polls| && !polls[i].failed && Agrees(polls, i, s, last)
    ensures Agrees(polls, i + 1, Turn(s, polls[i]), last)
  {
    var line := if s.failures > 0 then ClaimRecovered(s.failures) else Silent;
    LinesGrow(polls, s.written, line, i);
    SpacedSilent(polls, s.written, line, i);
    PromptGrows(polls, s.written, s.written + [line], i, last);
  }

  lemma {:induction false} SpacedSilent(polls: seq<Poll>, before: seq<Line>, line: Line, i: nat)
    requires i < |polls| && |before| == i && Spaced(polls, before, i) && !line.ClaimFailed?
    ensures Spaced(polls, before + [line], i + 1)
  {
    var lines := before + [line];
    forall k, j | 0 <= k < j < i + 1 && AllFailed(polls, k, j + 1) && lines[k].ClaimFailed? && lines[j].ClaimFailed?
      ensures polls[j].checkedAt - polls[k].reportedAt >= MINUTE
    {
      assert lines[k] == before[k] && lines[j] == before[j];
    }
  }

  lemma {:induction false} SpacedGrows(polls: seq<Poll>, before: seq<Line>, lines: seq<Line>, i: nat, streak: nat, last: nat)
    requires InOrder(polls) && i < |polls| && |before| == i && |lines| == i + 1 && before == lines[..i]
    requires Spaced(polls, before, i) && streak == StreakBefore(polls, i)
    requires streak > 0 ==> i - streak <= last < i && (forall j | last < j < i :: !before[j].ClaimFailed?)
                            && polls[i].checkedAt - polls[last].reportedAt >= MINUTE
    ensures Spaced(polls, lines, i + 1)
  {
    forall k, j | 0 <= k < j < i + 1 && AllFailed(polls, k, j + 1) && lines[k].ClaimFailed? && lines[j].ClaimFailed?
      ensures polls[j].checkedAt - polls[k].reportedAt >= MINUTE
    {
      assert lines[k] == before[k];
      if j < i {
        assert lines[j] == before[j];
      } else {
        assert polls[i - 1].failed;
        assert k <= last;
        assert polls[k].reportedAt <= polls[last].reportedAt;
      }
    }
  }

  lemma {:induction false} PromptGrows(polls: seq<Poll>, before: seq<Line>, lines: seq<Line>, i: nat, last: nat)
    requires i < |polls| && |before| == i && |lines| == i + 1 && before == lines[..i]
    requires Prompt(polls, before, i)
    requires polls[i].failed && lines[i] == Silent ==>
               last < i && AllFailed(polls, last, i + 1) && before[last].ClaimFailed?
               && polls[i].checkedAt - polls[last].reportedAt < MINUTE
    ensures Prompt(polls, lines, i + 1)
  {
    forall j | 0 <= j < i + 1 && polls[j].failed && lines[j] == Silent
      ensures exists k :: 0 <= k < j && AllFailed(polls, k, j + 1) && lines[k].ClaimFailed?
                          && polls[j].checkedAt - polls[k].reportedAt < MINUTE
    {
      if j < i {
        assert before[j] == lines[j];
        var k :| 0 <= k < j && AllFailed(polls, k, j + 1) && before[k].ClaimFailed?
                 && polls[j].checkedAt - polls[k].reportedAt < MINUTE;
        assert lines[k] == before[k];
      } else {
        assert lines[last] == before[last];
      }
    }
  }

  // ----- The bound ------------------------------------------------------------------

  function FailureLines(lines: seq<Line>, a: nat, b: nat): nat
    requires a <= b <= |lines|
  {
    if a == b then 0 else FailureLines(lines, a, b - 1) + if lines[b - 1].ClaimFailed? then 1 else 0
  }

  /** The first and the last of n failure lines of a streak are n - 1 minutes apart. */
  lemma {:induction false} LinesSpan(polls: seq<Poll>, lines: seq<Line>, a: nat, b: nat) returns (first: nat, last: nat)
    requires InOrder(polls) && a <= b <= |polls| == |lines|
    requires Spaced(polls, lines, |polls|) && AllFailed(polls, a, b)
    requires FailureLines(lines, a, b) > 0
    ensures a <= first <= last < b && lines[first].ClaimFailed? && lines[last].ClaimFailed?
    ensures polls[last].checkedAt - polls[first].checkedAt >= MINUTE * (FailureLines(lines, a, b) - 1)
    ensures forall i | last < i < b :: !lines[i].ClaimFailed?
    decreases b
  {
    if !lines[b - 1].ClaimFailed? {
      first, last := LinesSpan(polls, lines, a, b - 1);
    } else if FailureLines(lines, a, b - 1) == 0 {
      first, last := b - 1, b - 1;
    } else {
      var previous: nat;
      first, previous := LinesSpan(polls, lines, a, b - 1);
      last := b - 1;
      assert AllFailed(polls, previous, last + 1);
    }
  }

  lemma {:induction false} FailureLinesCounted(lines: seq<Line>, a: nat, b: nat)
    requires a <= b <= |lines|
    ensures FailureLines(lines, a, b) == |set i | a <= i < b && lines[i].ClaimFailed?|
  {
    var all := set i | a <= i < b && lines[i].ClaimFailed?;
    if a < b {
      FailureLinesCounted(lines, a, b - 1);
      var fewer := set i | a <= i < b - 1 && lines[i].ClaimFailed?;
      assert all == if lines[b - 1].ClaimFailed? then fewer + {b - 1} else fewer;
    }
  }

  /** In any streak of failed claims lasting D there are at most 1 + floor(D / 1 minute)
      error lines, a minute being 60 * 10^9 nanoseconds. */
  lemma FewLines(polls: seq<Poll>, lines: seq<Line>, a: nat, b: nat)
    requires InOrder(polls) && a < b <= |polls| == |lines|
    requires Spaced(polls, lines, |polls|) && AllFailed(polls, a, b)
    ensures |set i | a <= i < b && lines[i].ClaimFailed?|
         <= 1 + (polls[b - 1].checkedAt - polls[a].checkedAt) / 60_000_000_000
  {
    FailureLinesCounted(lines, a, b);
    assert forall i | a < i < b :: polls[a].checkedAt <= polls[i].checkedAt <= polls[b - 1].checkedAt;
    if FailureLines(lines, a, b) > 0 {
      var first, last := LinesSpan(polls, lines, a, b);
      DivAtLeast(polls[b - 1].checkedAt - polls[a].checkedAt, FailureLines(lines, a, b) - 1);
    }
  }

  lemma DivAtLeast(d: int, n: int)
    requires d >= MINUTE * n
    ensures d / MINUTE >= n
  {
  }

  /** The line that ends a streak carries the number of failed polls in it. */
  lemma RecoveryCounts(polls: seq<Poll>, lines: seq<Line>, a: nat, b: nat)
    requires a < b < |polls| == |lines| && LineOf(polls, lines, b)
    requires AllFailed(polls, a, b) && !polls[b].failed && (a == 0 || !polls[a - 1].failed)
    ensures lines[b] == ClaimRecovered(b - a)
  {
    var n := StreakBefore(polls, b);
    assert n < b ==> !polls[b - n - 1].failed;
    assert a > 0 ==> !polls[a - 1].failed;
    assert n >= b - a;
    assert n <= b - a;
  }
}
