/** The expiration and status engine of src/utils/dateUtils.ts. The wall
    clock that the source reads with `new Date()` is the parameter `now`. */
module DateUtils {
  import opened Wrappers
  import opened Dates
  import opened Types

  /** `new Date('2099-12-31')`: the expiration of a lifetime subscription,
      as Unix milliseconds (`CalendarConstants` ties it to the calendar). */
  const LIFETIME_EXPIRATION: int := 4_102_358_400_000

  /** The first instant whose `getFullYear()` is 2099. */
  const START_OF_2099: int := 4_070_908_800_000

  /** A subscription at most this many whole days from expiry is expiring soon. */
  const EXPIRING_SOON_DAYS: int := 14

  /** Days used when neither the table nor a custom duration gives a count. */
  const DEFAULT_DURATION_DAYS: int := 30

  /** The two instants are the starts of 2099-12-31 and 2099-01-01 in UTC,
      the second before the first. */
  lemma CalendarConstants()
    ensures LIFETIME_EXPIRATION == StartOfDate(CivilDate(2099, 12, 31))
    ensures START_OF_2099 == StartOfDate(CivilDate(2099, 1, 1))
    ensures START_OF_2099 < LIFETIME_EXPIRATION
  {
    assert DayNumber(CivilDate(2099, 1, 1)) == 47117;
    assert DayNumber(CivilDate(2099, 12, 31)) == 47481;
  }

  /** The fixed table of day counts (`durationMap`). */
  function DurationTableDays(duration: string): (days: Option<int>)
    ensures days.Some? ==> days.value > 0
  {
    if duration == "1-day" then Some(1)
    else if duration == "1-week" then Some(7)
    else if duration == "1-month" then Some(30)
    else if duration == "3-months" then Some(90)
    else if duration == "6-months" then Some(180)
    else if duration == "1-year" then Some(365)
    else None
  }

  /** `durationMap[duration] || customDuration || 30`: a table entry, else a
      custom duration that is present and non-zero, else the default. */
  function ResolvedDays(duration: string, customDuration: Option<int>): (days: int)
    ensures days != 0
    ensures days < 0 ==> DurationTableDays(duration).None? && customDuration == Some(days)
  {
    match DurationTableDays(duration)
    case Some(days) => days
    case None =>
      if customDuration.Some? && customDuration.value != 0 then customDuration.value
      else DEFAULT_DURATION_DAYS
  }

  /** `calculateExpirationDate`: the fixed lifetime instant, the custom
      date, or the start moved by a whole, non-zero number of days, forward
      whenever the key is one of the table's. */
  function CalculateExpirationDate(
    startDate: int, duration: string, customDuration: Option<int>, customDate: Option<int>): (e: int)
    ensures duration == "lifetime" ==> e == LIFETIME_EXPIRATION
    ensures e == LIFETIME_EXPIRATION || (customDate.Some? && e == customDate.value)
      || ((e - startDate) % DAY == 0 && e != startDate)
    ensures DurationTableDays(duration).Some? ==> e > startDate && (e - startDate) % DAY == 0
  {
    if duration == "lifetime" then LIFETIME_EXPIRATION
    else if duration == "custom" && customDate.Some? then customDate.value
    else startDate + ResolvedDays(duration, customDuration) * DAY
  }

  /** `getDaysUntilExpiry`: whole days from `now` to the expiration,
      truncated toward zero. */
  function GetDaysUntilExpiry(expirationDate: int, now: int): (days: int)
    ensures days > 0 <==> expirationDate >= now + DAY
    ensures days < 0 <==> expirationDate <= now - DAY
    ensures expirationDate >= now ==> days * DAY <= expirationDate - now < days * DAY + DAY
  {
    DifferenceInDays(expirationDate, now)
  }

  /** `getSubscriptionStatus`, by intervals of time: before `now` is
      expired, the next 15 days (up to, not including, `now` + 15 days) are
      expiring soon, and anything in 2099 or later is active. */
  function GetSubscriptionStatus(expirationDate: int, now: int): (status: Status)
    ensures status == Expired <==> expirationDate < START_OF_2099 && expirationDate < now
    ensures status == ExpiringSoon <==> expirationDate < START_OF_2099 && now <= expirationDate < now + 15 * DAY
    ensures status == Active <==> expirationDate >= START_OF_2099 || expirationDate >= now + 15 * DAY
  {
    if expirationDate >= START_OF_2099 then Active
    else if expirationDate < now then Expired
    else if GetDaysUntilExpiry(expirationDate, now) <= EXPIRING_SOON_DAYS then ExpiringSoon
    else Active
  }

  /** 'lifetime' yields the fixed 2099-12-31 instant, whatever the other inputs. */
  lemma LifetimeIsFixed(startDate: int, customDuration: Option<int>, customDate: Option<int>)
    ensures CalculateExpirationDate(startDate, "lifetime", customDuration, customDate) == LIFETIME_EXPIRATION
  {
  }

  /** 'custom' with a custom date yields that date unchanged. */
  lemma CustomDateIsReturned(startDate: int, customDuration: Option<int>, customDate: int)
    ensures CalculateExpirationDate(startDate, "custom", customDuration, Some(customDate)) == customDate
  {
  }

  /** The six table keys, and only they, have a fixed day count, and that
      count wins over any custom duration or custom date. */
  lemma TableKeysWin(startDate: int, duration: string, customDuration: Option<int>, customDate: Option<int>)
    ensures DurationTableDays(duration).Some? <==>
      duration in ["1-day", "1-week", "1-month", "3-months", "6-months", "1-year"]
    ensures DurationTableDays(duration).Some? ==>
      CalculateExpirationDate(startDate, duration, customDuration, customDate)
        == startDate + DurationTableDays(duration).value * DAY
  {
  }

  /** Any key outside the table, including 'custom' without a date, adds the
      custom duration when it is present and non-zero, and 30 days otherwise. */
  lemma FallbackDuration(startDate: int, duration: string, customDuration: Option<int>, customDate: Option<int>)
    requires duration != "lifetime" && DurationTableDays(duration).None?
    requires duration == "custom" ==> customDate.None?
    ensures customDuration.Some? && customDuration.value != 0 ==>
      CalculateExpirationDate(startDate, duration, customDuration, customDate)
        == startDate + customDuration.value * DAY
    ensures customDuration.None? || customDuration.value == 0 ==>
      CalculateExpirationDate(startDate, duration, customDuration, customDate)
        == startDate + 30 * DAY
  {
  }

  /** A lifetime subscription is always active, even when `now` is past 2099. */
  lemma LifetimeIsAlwaysActive(startDate: int, customDuration: Option<int>, customDate: Option<int>, now: int)
    ensures GetSubscriptionStatus(
      CalculateExpirationDate(startDate, "lifetime", customDuration, customDate), now) == Active
  {
  }

  /** The boundaries of the classification around `now`. Expiring exactly
      at `now` is not expired, because the comparison is strict. */
  lemma StatusBoundaries(now: int)
    requires now + 15 * DAY < START_OF_2099
    ensures GetSubscriptionStatus(now - 1, now) == Expired
    ensures GetSubscriptionStatus(now - DAY, now) == Expired
    ensures GetSubscriptionStatus(now, now) == ExpiringSoon
    ensures GetSubscriptionStatus(now + 14 * DAY, now) == ExpiringSoon
    ensures GetSubscriptionStatus(now + 15 * DAY - 1, now) == ExpiringSoon
    ensures GetSubscriptionStatus(now + 15 * DAY, now) == Active
  {
  }

  /** The "Nd" badge of an expiring-soon subscription shows 0 to 14 days. */
  lemma ExpiringSoonDaysInRange(expirationDate: int, now: int)
    requires GetSubscriptionStatus(expirationDate, now) == ExpiringSoon
    ensures 0 <= GetDaysUntilExpiry(expirationDate, now) <= EXPIRING_SOON_DAYS
  {
  }
}
