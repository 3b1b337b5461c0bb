/** `NewsScraper.is_within_months`: a month is a fixed 30 days and both ends of
    the window are inclusive. Instants are microseconds since 0001-01-01
    00:00, the first moment Python's `datetime` can hold, so the range errors
    that `datetime - timedelta` raises can be stated exactly. */
module Recency {
  import opened Wrappers

  const MicrosPerDay: int := 86_400_000_000

  /** `datetime.max` (9999-12-31 23:59:59.999999), 3652059 days after the
      first instant, less one microsecond. */
  const MaxInstant: int := 3_652_059 * MicrosPerDay - 1

  /** `timedelta` refuses more than this many days either way. */
  const MaxDeltaDays: int := 999_999_999

  type Instant = t: int | 0 <= t <= MaxInstant

  /** `now - timedelta(days=30 * months)`, or None where Python raises
      OverflowError: the day count is out of `timedelta`'s range, or the
      result is out of `datetime`'s. */
  function WindowStart(months: int, now: Instant): Option<Instant> {
    if !(-MaxDeltaDays <= 30 * months <= MaxDeltaDays) then None
    else
      var past := now - 30 * months * MicrosPerDay;
      if 0 <= past <= MaxInstant then Some(past) else None
  }

  /** Some(true) when `t` lies in [now - 30 * months days, now]; None when the
      start of the window cannot be computed, which the caller's `try`
      turns into skipping the article. */
  function IsWithinMonths(t: Instant, months: int, now: Instant): (r: Option<bool>)
    ensures r.None? <==>
      || 30 * months < -MaxDeltaDays || MaxDeltaDays < 30 * months
      || now - 30 * months * MicrosPerDay < 0
      || MaxInstant < now - 30 * months * MicrosPerDay
    ensures r.Some? ==> (r.value <==> now - 30 * months * MicrosPerDay <= t <= now)
  {
    match WindowStart(months, now)
    case None => None
    case Some(past) => Some(past <= t <= now)
  }

  /** A wider window keeps every article a narrower one keeps, as long as its
      start can still be computed. */
  lemma WithinMonthsMonotone(t: Instant, m: int, m': int, now: Instant)
    requires m <= m'
    requires IsWithinMonths(t, m, now) == Some(true)
    requires IsWithinMonths(t, m', now).Some?
    ensures IsWithinMonths(t, m', now) == Some(true)
  {
  }

  /** With no months only the current instant is in the window. */
  lemma WithinZeroMonths(t: Instant, now: Instant)
    ensures IsWithinMonths(t, 0, now) == Some(t == now)
  {
  }

  /** A negative month count gives an empty window. */
  lemma WithinNegativeMonths(t: Instant, m: int, now: Instant)
    requires m < 0
    ensures IsWithinMonths(t, m, now) != Some(true)
  {
  }

  /** A window that reaches back past the first instant raises, whatever the
      current time: every article is then dropped. */
  lemma WithinMonthsOverflows(t: Instant, m: int, now: Instant)
    requires 30 * m >= 3_652_059
    ensures IsWithinMonths(t, m, now).None?
  {
  }

  /** For a window that fits before `now` the check never raises. */
  lemma WithinMonthsDefined(t: Instant, m: int, now: Instant)
    requires 0 <= 30 * m * MicrosPerDay <= now
    ensures IsWithinMonths(t, m, now).Some?
  {
  }
}
