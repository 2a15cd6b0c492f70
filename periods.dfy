/** The lower bound of a reporting window, `date.today() - timedelta(days=N)`,
    with days counted as integers and `today` given by the caller. */
module Periods {
  import opened Results
  import opened Schemas

  /** The window length used when no period is given, about a year. */
  const DefaultDays: nat := 364

  /** Start of the window in the repository and the analytics handlers:
      the chosen period, or 364 days when none is given. */
  function WindowStart(today: int, period: Option<Period>): (start: int)
    ensures period.None? ==> start == today - DefaultDays
    ensures period.Some? ==> start == today - period.value.Days()
    ensures today - DefaultDays <= start < today
  {
    match period
    case None => today - DefaultDays
    case Some(p) => today - p.Days()
  }

  /** Start of the window of the repository's `get_all`, whose period is
      any integer rather than a `PeriodEnum`. */
  function WindowStartDays(today: int, days: Option<int>): (start: int)
    ensures days.None? ==> start == today - DefaultDays
    ensures days.Some? ==> start + days.value == today
  {
    match days
    case None => today - DefaultDays
    case Some(n) => today - n
  }

  /** Start of the window in the older operation handlers: the chosen period,
      or today alone when none is given. */
  function LegacyWindowStart(today: int, period: Option<Period>): (start: int)
    ensures period.None? ==> start == today
    ensures period.Some? ==> start == today - period.value.Days()
    ensures today - 31 <= start <= today
  {
    match period
    case None => today
    case Some(p) => today - p.Days()
  }

  /** The two defaults agree on every given period and differ only when the
      period is absent, where the older handlers' window is the narrower one. */
  lemma LegacyWindowAgrees(today: int, period: Option<Period>)
    ensures WindowStart(today, period) <= LegacyWindowStart(today, period)
    ensures WindowStart(today, period) == LegacyWindowStart(today, period) <==> period.Some?
    ensures period.Some? ==> WindowStartDays(today, Some(period.value.Days() as int)) == WindowStart(today, period)
  {
  }
}
