/** Calendar days and the overdue rule. An instant is a count of milliseconds since the
    epoch on the local wall clock, so that truncating it to a day is truncating the integer. */
module Clock {

  /** Local wall-clock milliseconds since 1970-01-01T00:00. */
  type Instant = int

  const MsPerDay: int := 86_400_000

  /** The calendar day an instant falls on, counted from the epoch (floor division). */
  function Day(t: Instant): int {
    t / MsPerDay
  }

  /** Midnight at the start of the instant's day: what `setHours(0, 0, 0, 0)` leaves. */
  function StartOfDay(t: Instant): (m: Instant)
    ensures m <= t < m + MsPerDay
    ensures m % MsPerDay == 0
    ensures m == Day(t) * MsPerDay
  {
    t - t % MsPerDay
  }

  /** A task created at `created` is late at `now` when, after both are cut back to
      midnight, the creation midnight comes first. */
  predicate IsOverdue(created: Instant, now: Instant): (late: bool)
    ensures late <==> Day(created) < Day(now)
  {
    StartOfDay(created) < StartOfDay(now)
  }

  /** Two instants of the same calendar day are never overdue relative to each other,
      and an overdue task was created strictly before `now`. */
  lemma OverdueIsStrict(created: Instant, now: Instant)
    ensures Day(created) == Day(now) ==> !IsOverdue(created, now)
    ensures IsOverdue(created, now) ==> created < now
  {
  }

  /** A full day after creation a task is always overdue. */
  lemma OverdueAfterFullDay(created: Instant, now: Instant)
    requires created + MsPerDay <= now
    ensures IsOverdue(created, now)
  {
  }

  /** Day 19358 after the epoch is 2023-01-01. A task created at 10:00 that day is late at
      any time on 2023-01-02, and not late at 23:59 on 2023-01-01. */
  lemma NewYearScenario()
    ensures var created := 19358 * MsPerDay + 10 * 3_600_000;
            && !IsOverdue(created, 19358 * MsPerDay + 23 * 3_600_000 + 59 * 60_000)
            && forall now :: Day(now) == 19359 ==> IsOverdue(created, now)
  {
  }
}
