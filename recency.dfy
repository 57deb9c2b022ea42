/**
 * The recency test of the China Daily adapter (`OutTimeRange`).
 *
 * Times are whole seconds. The publish time has minute precision and the
 * current time is read with microseconds, so the source's elapsed value
 * `delta.days * 86400 + delta.seconds` equals `now - published` where `now`
 * is the current time rounded down to a whole second.
 */
module Recency {
  import opened Wrappers

  const SecondsPerDay: int := 86400

  /** `oldest_article` values up to this bound count days; larger ones count seconds. */
  const MaxDays: int := 365

  /** The cutoff, in seconds, that a positive `oldest_article` setting stands for. */
  function Threshold(oldest: int): (t: int)
    requires oldest > 0
    ensures t >= oldest > 0
  {
    if oldest > MaxDays then oldest else SecondsPerDay * oldest
  }

  /**
   * True when the article published at `published` (None: no date, or an
   * empty one) is older than the configured range at time `now`.
   * A setting of zero or less switches the test off.
   */
  function OutTimeRange(oldest: int, now: int, published: Option<int>): (tooOld: bool)
    ensures tooOld ==> oldest > 0 && published.Some?
    ensures tooOld ==> now - published.value > 0
  {
    oldest > 0 && published.Some? && Threshold(oldest) < now - published.value
  }

  /** A setting of zero (or less) never filters anything, whatever the dates. */
  lemma DisabledNeverOutOfRange(oldest: int, now: int, published: Option<int>)
    requires oldest <= 0
    ensures !OutTimeRange(oldest, now, published)
  {
  }

  /** An article without a usable date is never too old. */
  lemma UndatedNeverOutOfRange(oldest: int, now: int)
    ensures !OutTimeRange(oldest, now, None)
  {
  }

  /**
   * With a setting of `days` days, an article exactly `days` days old is kept,
   * one a day older is dropped, and one a second younger than the cutoff is kept.
   */
  lemma DayBoundaries(days: int, now: int)
    requires 0 < days <= MaxDays
    ensures !OutTimeRange(days, now, Some(now - SecondsPerDay * days))
    ensures OutTimeRange(days, now, Some(now - SecondsPerDay * (days + 1)))
    ensures !OutTimeRange(days, now, Some(now - (SecondsPerDay * days - 1)))
    ensures OutTimeRange(days, now, Some(now - (SecondsPerDay * days + 1)))
  {
  }

  /**
   * With a setting above 365, counted in seconds, an article exactly that
   * many seconds old is kept and one a second older is dropped.
   */
  lemma SecondsBoundaries(secs: int, now: int)
    requires secs > MaxDays
    ensures !OutTimeRange(secs, now, Some(now - secs))
    ensures OutTimeRange(secs, now, Some(now - secs - 1))
  {
  }

  /** Above 365 the setting is a number of seconds, so 366 is a far tighter cutoff than 365. */
  lemma UnitSwitchAt365(now: int)
    ensures !OutTimeRange(365, now, Some(now - 367))
    ensures OutTimeRange(366, now, Some(now - 367))
    ensures !OutTimeRange(366, now, Some(now - 366))
  {
  }

  /** An article dated in the future (negative elapsed time) is never too old. */
  lemma FutureNeverOutOfRange(oldest: int, now: int, published: int)
    requires published >= now
    ensures !OutTimeRange(oldest, now, Some(published))
  {
  }

  /** Once an article is too old it stays too old as the clock advances. */
  lemma OutOfRangeIsMonotone(oldest: int, now: int, later: int, published: Option<int>)
    requires now <= later
    requires OutTimeRange(oldest, now, published)
    ensures OutTimeRange(oldest, later, published)
  {
  }
}
