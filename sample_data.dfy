/** The constant tables and the sample records of src/data/sampleData.ts. */
module SampleData {
  import opened Wrappers
  import opened Dates
  import opened Types
  import opened DateUtils
  import Seqs

  /** The initial plan-type vocabulary (`subscriptionTypes`). */
  const SubscriptionTypes: seq<string> := ["Basic", "Premium", "Platinum"]

  /** The initial duration vocabulary (`durationOptions`). */
  const DurationOptions: seq<DurationOption> := [
    DurationOption("1 Day", "1-day", Some(1)),
    DurationOption("1 Week", "1-week", Some(7)),
    DurationOption("1 Month", "1-month", Some(30)),
    DurationOption("3 Months", "3-months", Some(90)),
    DurationOption("6 Months", "6-months", Some(180)),
    DurationOption("1 Year", "1-year", Some(365)),
    DurationOption("Lifetime", "lifetime", None),
    DurationOption("Custom Date", "custom", None)
  ]

  /** The keys of a duration vocabulary, in order. */
  function DurationValues(options: seq<DurationOption>): (values: seq<string>)
    ensures |values| == |options|
    ensures forall i :: 0 <= i < |options| ==> values[i] == options[i].value
  {
    seq(|options|, i requires 0 <= i < |options| => options[i].value)
  }

  /** The plan types are exactly Basic, Premium, Platinum, without repetition. */
  lemma SubscriptionTypesDistinct()
    ensures |SubscriptionTypes| == 3 && Seqs.Distinct(SubscriptionTypes)
  {
  }

  /** The keys of the duration vocabulary are pairwise distinct. */
  lemma DurationValuesDistinct()
    ensures Seqs.Distinct(DurationValues(DurationOptions))
  {
    var values := DurationValues(DurationOptions);
    assert values == ["1-day", "1-week", "1-month", "3-months", "6-months", "1-year", "lifetime", "custom"];
  }

  /** Every entry with a day count has the count the resolver's table gives
      its key, and the two without one are 'lifetime' and 'custom'. */
  lemma DurationOptionsAgreeWithResolver(i: int)
    requires 0 <= i < |DurationOptions|
    ensures DurationOptions[i].days.Some? ==> DurationTableDays(DurationOptions[i].value) == DurationOptions[i].days
    ensures DurationOptions[i].days.None? <==> DurationOptions[i].value in ["lifetime", "custom"]
  {
  }

  /** `createSubscription`: a record whose expiration comes from the resolver
      without a custom date and whose status classifies it at `now`; it has
      no custom date and no cost (its other fields: `CreateCopiesArguments`). */
  function CreateSubscription(
    id: string, clientName: string, planType: string, duration: string, startDate: int,
    customDuration: Option<int>, notes: Option<string>, now: int): (s: Subscription)
    ensures s.customDate.None? && s.cost.None?
    ensures s.expirationDate == CalculateExpirationDate(startDate, duration, customDuration, None)
    ensures s.status == GetSubscriptionStatus(s.expirationDate, now)
  {
    var expirationDate := CalculateExpirationDate(startDate, duration, customDuration, None);
    Subscription(id, clientName, planType, duration, customDuration, None, startDate,
                 expirationDate, notes, None, GetSubscriptionStatus(expirationDate, now))
  }

  /** The record `createSubscription` builds keeps every argument it is given. */
  lemma CreateCopiesArguments(
    id: string, clientName: string, planType: string, duration: string, startDate: int,
    customDuration: Option<int>, notes: Option<string>, now: int)
    ensures var s := CreateSubscription(id, clientName, planType, duration, startDate, customDuration, notes, now);
      s.id == id && s.clientName == clientName && s.planType == planType && s.duration == duration
      && s.startDate == startDate && s.customDuration == customDuration && s.notes == notes
  {
  }

  /** The notes of the sample records. */
  const NETFLIX_NOTES: string := "Family plan with 4K streaming"
  const SPOTIFY_PREMIUM_NOTES: string := "Individual plan"
  const ADOBE_CREATIVE_CLOUD_NOTES: string := "Full suite for design work"
  const GITHUB_PRO_NOTES: string := "Private repositories and advanced features"
  const GYM_MEMBERSHIP_NOTES: string := "Annual membership with personal trainer sessions"
  const NEW_YORK_TIMES_NOTES: string := "Digital subscription"
  const VPN_SERVICE_NOTES: string := "NordVPN premium plan"
  const MICROSOFT_365_NOTES: string := "Office suite and cloud storage"

  /** `sampleSubscriptions`, with one reading `now` of the clock for every
      `new Date()`; `twoMonthsAgo` is `subMonths(now, 2)`. */
  function SampleSubscriptions(now: int, twoMonthsAgo: int): (r: seq<Subscription>)
    ensures |r| == 8
    ensures forall i :: 0 <= i < |r| ==> r[i].customDate.None? && r[i].cost.None?
    ensures forall i :: 0 <= i < |r| ==>
      r[i].planType in SubscriptionTypes && r[i].duration in DurationValues(DurationOptions)
  {
    var values := DurationValues(DurationOptions);
    assert values[2] == "1-month" && values[5] == "1-year" && values[7] == "custom";
    [
      CreateSubscription("1", "Netflix", "Basic", "1-month", now - 10 * DAY, None, Some(NETFLIX_NOTES), now),
      CreateSubscription("2", "Spotify Premium", "Premium", "1-month", now - 5 * DAY, None, Some(SPOTIFY_PREMIUM_NOTES), now),
      CreateSubscription("3", "Adobe Creative Cloud", "Platinum", "1-year", twoMonthsAgo, None, Some(ADOBE_CREATIVE_CLOUD_NOTES), now),
      CreateSubscription("4", "GitHub Pro", "Premium", "1-month", now - 20 * DAY, None, Some(GITHUB_PRO_NOTES), now),
      CreateSubscription("5", "Gym Membership", "Basic", "custom", now - 75 * DAY, Some(90), Some(GYM_MEMBERSHIP_NOTES), now),
      CreateSubscription("6", "New York Times", "Premium", "1-month", now - 35 * DAY, None, Some(NEW_YORK_TIMES_NOTES), now),
      CreateSubscription("7", "VPN Service", "Platinum", "1-year", now - 370 * DAY, None, Some(VPN_SERVICE_NOTES), now),
      CreateSubscription("8", "Microsoft 365", "Basic", "1-month", now - 8 * DAY, None, Some(MICROSOFT_365_NOTES), now)
    ]
  }

  /** The fixture list has eight records; Netflix (1-month from 10 days
      ago) and Spotify Premium (1-month from 5 days ago) are active while
      the clock is well before 2099. */
  lemma SampleStatusesMonthly(now: int, twoMonthsAgo: int)
    requires now + 400 * DAY < START_OF_2099
    ensures |SampleSubscriptions(now, twoMonthsAgo)| == 8
    ensures SampleSubscriptions(now, twoMonthsAgo)[0].status == Active
    ensures SampleSubscriptions(now, twoMonthsAgo)[1].status == Active
  {
  }

  /** Adobe Creative Cloud (1-year from two months ago) and Microsoft 365
      (1-month from 8 days ago) are active. */
  lemma SampleStatusesLonger(now: int, twoMonthsAgo: int)
    requires now + 400 * DAY < START_OF_2099
    requires now - 62 * DAY <= twoMonthsAgo <= now - 59 * DAY
    ensures |SampleSubscriptions(now, twoMonthsAgo)| == 8
    ensures SampleSubscriptions(now, twoMonthsAgo)[2].status == Active
    ensures SampleSubscriptions(now, twoMonthsAgo)[7].status == Active
  {
  }

  /** GitHub Pro (1-month from 20 days ago) is expiring soon; Gym Membership
      (90 days from 75 days ago) lands exactly 15 days ahead and is
      therefore active, although it is grouped with the expiring ones. */
  lemma SampleStatusesNearExpiry(now: int, twoMonthsAgo: int)
    requires now + 400 * DAY < START_OF_2099
    ensures |SampleSubscriptions(now, twoMonthsAgo)| == 8
    ensures SampleSubscriptions(now, twoMonthsAgo)[3].status == ExpiringSoon
    ensures SampleSubscriptions(now, twoMonthsAgo)[4].status == Active
    ensures SampleSubscriptions(now, twoMonthsAgo)[4].expirationDate == now + 15 * DAY
  {
  }

  /** New York Times (1-month from 35 days ago) and VPN Service (1-year from
      370 days ago) are expired. */
  lemma SampleStatusesExpired(now: int, twoMonthsAgo: int)
    requires now + 400 * DAY < START_OF_2099
    ensures |SampleSubscriptions(now, twoMonthsAgo)| == 8
    ensures SampleSubscriptions(now, twoMonthsAgo)[5].status == Expired
    ensures SampleSubscriptions(now, twoMonthsAgo)[6].status == Expired
  {
  }
}
