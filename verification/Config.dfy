/** internal/config/config.go: the arithmetic a configuration is refused by. */
module Config {

  const SECOND: int := 1_000_000_000
  const HANDLER_TIMEOUT_MARGIN: int := SECOND
  const STUCK_TIMEOUT_MARGIN: int := 2

  /** time.Duration is an int64 count of nanoseconds. */
  const INT64_MAX: int := 0x7FFF_FFFF_FFFF_FFFF
  const TWO_64: int := 0x1_0000_0000_0000_0000

  predicate IsDuration(d: int) { -INT64_MAX - 1 <= d <= INT64_MAX }

  /** The int64 that an exact value wraps around to. */
  function Wrap64(x: int): (w: int)
    ensures IsDuration(w)
    ensures IsDuration(x) ==> w == x
  {
    (x + INT64_MAX + 1) % TWO_64 - INT64_MAX - 1
  }

  datatype Config = Config(httpWriteTimeout: int, workerTaskTimeout: int, workerStuckTimeout: int)
  {
    /** What durationFromEnv lets through. */
    predicate Loaded() {
      && 0 < httpWriteTimeout <= INT64_MAX
      && 0 < workerTaskTimeout <= INT64_MAX
      && 0 < workerStuckTimeout <= INT64_MAX
    }

    /** check answers without an error. */
    predicate Check() {
      && httpWriteTimeout > HANDLER_TIMEOUT_MARGIN
      && workerStuckTimeout >= Wrap64(STUCK_TIMEOUT_MARGIN * workerTaskTimeout)
    }

    function HandlerTimeout(): int { Wrap64(httpWriteTimeout - HANDLER_TIMEOUT_MARGIN) }
  }

  /** A checked configuration leaves a handler a positive deadline strictly
      under the write timeout. */
  lemma HandlerTimeoutFits(c: Config)
    requires c.Loaded() && c.Check()
    ensures 0 < c.HandlerTimeout() < c.httpWriteTimeout
    ensures c.HandlerTimeout() == c.httpWriteTimeout - 1_000_000_000
  {
  }

  /** Doubling a positive duration stays exact below 2^62 and turns negative from there. */
  lemma DoublingWraps(d: int)
    requires 0 < d <= INT64_MAX
    ensures d < TWO_64 / 4 ==> Wrap64(STUCK_TIMEOUT_MARGIN * d) == 2 * d
    ensures d >= TWO_64 / 4 ==> Wrap64(STUCK_TIMEOUT_MARGIN * d) == 2 * d - TWO_64 < 0
  {
  }

  /** The margin over the task deadline is what the check is for. With the other
      settings in order it demands exactly that margin if and only if doubling
      the task timeout does not overflow; from 2^62 nanoseconds on it accepts
      every staleness threshold, and none of them has the margin. */
  lemma CheckDemandsMargin(c: Config)
    requires c.Loaded() && c.httpWriteTimeout > HANDLER_TIMEOUT_MARGIN
    ensures c.workerTaskTimeout < TWO_64 / 4 ==> (c.Check() <==> c.workerStuckTimeout >= 2 * c.workerTaskTimeout)
    ensures c.workerTaskTimeout >= TWO_64 / 4 ==> c.Check() && c.workerStuckTimeout < 2 * c.workerTaskTimeout
    ensures (c.Check() ==> c.workerStuckTimeout >= 2 * c.workerTaskTimeout) <==>
            (c.workerTaskTimeout < TWO_64 / 4)
  {
    DoublingWraps(c.workerTaskTimeout);
  }

  /** A configuration the check accepts although its threshold is a single nanosecond. */
  lemma CheckOverflows()
    ensures exists c: Config :: c.Loaded() && c.Check() && c.workerStuckTimeout == 1
                                && c.workerStuckTimeout < 2 * c.workerTaskTimeout
  {
    var c := Config(10 * SECOND, TWO_64 / 4, 1);
    CheckDemandsMargin(c);
    assert c.Loaded() && c.Check();
  }
}
