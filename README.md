# Subscription tracker — a Dafny model

This project models the core of a small subscription tracker. The tracker is a React and TypeScript app. It records clients' subscriptions (plan type, duration, start and expiration dates, notes, cost) and classifies each one as active, expiring soon or expired. It lists, filters and searches the records, shows them on a month calendar, and lets the user extend two vocabularies: plan types and duration options.

The model covers these parts of the app:

- The expiration and status engine (`dateUtils.ts`).
- The record types (`subscription.ts`).
- The sample data and initial vocabularies (`sampleData.ts`).
- The in-memory store of the `useSubscriptions` hook.
- The page's filter and search (`Index.tsx`).
- The dashboard's counts, filter toggle and "latest first" list.
- The calendar's month window and day cells.
- The two vocabulary dialogs.
- The add and edit forms.
- The sign-up form's validation.

Time is an `int` of milliseconds since the Unix epoch, read as UTC. Every `new Date()` read of the clock becomes a `now` parameter.

Each Supabase call becomes a `reply` parameter. It holds either the id the insert returned, or the error the call threw. The signed-in user is the store's `user` field.

Dates built from text (`new Date('2099-12-31')`) and the calendar arithmetic of date-fns are modelled in `dates.dfy`:

- civil-date day numbers;
- `addMonths` with its end-of-month clamp;
- `differenceInDays`, truncated toward zero.

An object spread such as `{...sub, ...formData}` is modelled with `Types.Prop`. A form key can be missing, present with the value `undefined`, or present with a value. Only a missing key leaves the record's old value in place.

Where the written description of the app and its code disagree, the model follows the code:

- A subscription that expires exactly at `now` is expiring soon, not expired, because `isBefore` is strict (`src/utils/dateUtils.ts:43`).
- Updating an id that no record has is a silent no-op, not an error (`src/hooks/useSubscriptions.ts:176-187`).
- The store appends plan types and durations without a duplicate check. Only the dialogs check (`src/hooks/useSubscriptions.ts:235-245`).

Some behaviours of the code are stated as lemmas rather than corrected:

- The add form never sets a custom duration, so a duration key added through the dialog expires after 30 days, whatever day count the dialog recorded.
- The edit form's choices 'monthly', 'yearly' and 'custom' are not keys of the resolver's table, so each expires 30 days after the start unless a custom day count is set.
- A newly added record carries the status of its exact expiration, while the list stores that day's midnight.
- A search made only of spaces shows the "Clear All" controls but filters nothing.

## Model

| member | source | states |
|---|---|---|
| DateUtils.CalendarConstants | src/utils/dateUtils.ts:12 | the two fixed instants are 2099-12-31 00:00 UTC (the lifetime expiration) and 2099-01-01 00:00 UTC, the second strictly before the first |
| DateUtils.DurationTableDays | src/utils/dateUtils.ts:21-28 | every table entry is a positive number of days |
| DateUtils.LifetimeIsFixed | src/utils/dateUtils.ts:11-13 | 'lifetime' yields 2099-12-31 whatever the start, custom duration or custom date |
| DateUtils.CustomDateIsReturned | src/utils/dateUtils.ts:16-18 | 'custom' with a custom date yields that date unchanged |
| DateUtils.TableKeysWin | src/utils/dateUtils.ts:21-31 | exactly the six table keys have a fixed day count, and it overrides any custom duration |
| DateUtils.FallbackDuration | src/utils/dateUtils.ts:30-31 | any other key adds the custom duration when it is present and non-zero, and 30 days otherwise |
| DateUtils.ResolvedDays | src/utils/dateUtils.ts:30 | the day count the fallback adds is never zero, and it is negative only when the key is outside the table and the custom duration is that negative number |
| DateUtils.CalculateExpirationDate | src/utils/dateUtils.ts:4-32 | 'lifetime' gives 2099-12-31; otherwise the result is the custom date or a whole, non-zero number of days from the start, and a table key always lands a whole number of days after the start |
| DateUtils.GetSubscriptionStatus | src/utils/dateUtils.ts:34-50 | expired iff before now (and before 2099); expiring soon iff in [now, now + 15 days); active iff in 2099 or later, or at least 15 days ahead |
| DateUtils.GetDaysUntilExpiry | src/utils/dateUtils.ts:56-58 | positive iff at least a day ahead, negative iff at least a day past; for a future expiration, the whole days that fit between now and it |
| DateUtils.LifetimeIsAlwaysActive | src/utils/dateUtils.ts:39-41 | a lifetime subscription is active at every `now` |
| DateUtils.StatusBoundaries | src/utils/dateUtils.ts:43-49 | the boundary instants: now - 1 ms is expired, now is expiring soon, now + 15 days - 1 ms is expiring soon, now + 15 days is active |
| DateUtils.ExpiringSoonDaysInRange | src/utils/dateUtils.ts:56-58 | an expiring-soon subscription has 0 to 14 whole days until expiry |
| Dates.AddMonths | src/components/CalendarView.tsx:31-33 | moves the month index by n and clamps the day to the target month's length |
| Dates.PrevThenNextKeepsMonth | src/components/CalendarView.tsx:31-33 | going back a month and forward again returns to the same year and month, never a later day |
| Dates.PrevThenNextCanMoveDay | src/components/CalendarView.tsx:31-33 | back and forward from 31 March lands on 28 March |
| Dates.StartOfDay | src/hooks/useSubscriptions.ts:93-94 | a date cut to its calendar day is that day's midnight, at most one day before the instant |
| Dates.DayNumberWithinMonth | src/components/CalendarView.tsx:19-21 | the days of a month are consecutive: day d is d - 1 days after the first |
| Dates.DayOfWithin | src/components/CalendarView.tsx:172-173 | an instant lies between the starts of two days exactly when its day number lies between them |
| Strings.Strip | src/components/DurationSettingsModal.tsx:21-22 | for any character test, the kept slice has only passing characters before and after it, and a failing character at each end |
| Strings.StripIdempotent | src/components/DurationSettingsModal.tsx:21-22 | stripping a stripped text changes nothing |
| Strings.StripEmptyIffAllPass | src/pages/Index.tsx:87 | a text strips to nothing exactly when every character passes the test |
| Strings.Trim | src/components/DurationSettingsModal.tsx:21-22 | the trimmed text is a slice of the input with only whitespace before and after it, and neither of its ends is whitespace |
| Strings.TrimIdempotent | src/components/EditSubscriptionForm.tsx:53-55 | trimming a trimmed text changes nothing |
| Strings.TrimEmptyIffAllWhitespace | src/pages/Index.tsx:87 | a text trims to nothing exactly when it is all whitespace |
| Strings.ToLower | src/pages/Index.tsx:88 | the same length, each character lower-cased if it is an ASCII capital and kept otherwise |
| Strings.Contains | src/pages/Index.tsx:90-91 | true exactly when the query occurs at some index of the text; the empty query occurs everywhere |
| Dates.Weekday | src/components/CalendarView.tsx:24 | the weekday of a day number, Sunday as 0, is between 0 and 6 |
| Dates.WeekdayAfter | src/components/CalendarView.tsx:24-25 | k days later the weekday has moved on by k, modulo 7 |
| Dates.NextMonth | src/components/CalendarView.tsx:31-33 | one month on from December is January of the next year; from any other month, the next month of the same year |
| Dates.FirstOfNextMonth | src/components/CalendarView.tsx:19-20 | the first of the next month comes exactly the month's length in days after the first of this month |
| Dates.FirstDayOneMonthOn | src/components/CalendarView.tsx:19-33 | the month reached by the forward arrow begins the current month's length in days after the current month's first day |
| Dates.DaysBeforeMarch | src/components/CalendarView.tsx:19-20 | consecutive 1 March day numbers are 366 apart before a leap year's March and 365 otherwise |
| Dates.DifferenceInDays | src/utils/dateUtils.ts:36 | whole days between two instants, truncated toward zero, in both directions |
| SampleData.DurationValues | src/data/sampleData.ts:118-127 | the keys of a duration vocabulary, one per entry and in order |
| SampleData.SampleSubscriptions | src/data/sampleData.ts:30-110 | eight fixtures, none with a custom date or a cost, each with a plan type from the initial types and a duration key from the initial duration options |
| SampleData.SubscriptionTypesDistinct | src/data/sampleData.ts:112-116 | the initial plan types are three distinct names |
| SampleData.DurationValuesDistinct | src/data/sampleData.ts:118-127 | the initial duration keys are pairwise distinct |
| SampleData.DurationOptionsAgreeWithResolver | src/data/sampleData.ts:119-126 | each listed day count equals the resolver's table entry for its key; only 'lifetime' and 'custom' have none |
| SampleData.CreateSubscription | src/data/sampleData.ts:5-27 | the record has no custom date and no cost, its expiration is resolved without a custom date, and its status classifies that expiration at `now` |
| SampleData.CreateCopiesArguments | src/data/sampleData.ts:5-27 | the record keeps the id, name, plan type, duration, start date, custom duration and notes it is given |
| SampleData.SampleStatusesMonthly | src/data/sampleData.ts:30-49 | there are eight fixtures; Netflix and Spotify Premium are active |
| SampleData.SampleStatusesLonger | src/data/sampleData.ts:30-110 | Adobe Creative Cloud (a year from two months ago) and Microsoft 365 are active |
| SampleData.SampleStatusesNearExpiry | src/data/sampleData.ts:61-80 | GitHub Pro is expiring soon; Gym Membership expires exactly 15 days ahead and is active |
| SampleData.SampleStatusesExpired | src/data/sampleData.ts:81-100 | New York Times and VPN Service are expired |
| Store.FormExpiration | src/hooks/useSubscriptions.ts:77-82 | 'custom' with a picked date expires on that date; any other form expires as the resolver computes from start, duration and custom days |
| Store.InsertedRecord | src/hooks/useSubscriptions.ts:77-118 | the added record: dates cut to midnight, status of the untruncated expiration, custom duration null when 0, missing cost stored as 0, missing notes as '' |
| Store.UpdatedRecord | src/hooks/useSubscriptions.ts:176-187 | the form's fields override the record's, a missing key keeps the old value, and expiration and status are recomputed |
| Types.Prop.Over | src/hooks/useSubscriptions.ts:176-187 | a spread field keeps the old value when its key is missing, is undefined when the key holds undefined, and takes the given value otherwise |
| Store.ReplaceById | src/hooks/useSubscriptions.ts:176-187 | same length; each record with the id is replaced by its update, every other record is kept |
| Store.RemoveById | src/hooks/useSubscriptions.ts:221 | holds exactly the records of the list whose id differs, with the same multiplicities |
| Store.RemoveAllOf | src/hooks/useSubscriptions.ts:239-241 | holds exactly the entries that differ from the removed type, with the same multiplicities |
| Store.ReplaceAt | src/hooks/useSubscriptions.ts:247-249 | the vocabulary keeps its length |
| Store.RemoveAt | src/hooks/useSubscriptions.ts:251-253 | the vocabulary loses one entry when the index is in range, none otherwise |
| Store.Ids | src/types/subscription.ts:2 | the ids of a list, one per record and in order |
| Store.SubscriptionStore.constructor | src/hooks/useSubscriptions.ts:10-15 | starts empty and loading, with the sample vocabularies |
| Store.SubscriptionStore.FetchSubscriptions | src/hooks/useSubscriptions.ts:18-59 | no user empties the list; a successful query replaces it; a failed query keeps it; loading ends false |
| Store.SubscriptionStore.AddSubscription | src/hooks/useSubscriptions.ts:66-135 | with a user and a successful insert, the inserted record is prepended and returned; otherwise nothing changes and null is returned |
| Store.SubscriptionStore.UpdateSubscription | src/hooks/useSubscriptions.ts:137-200 | with a user and a successful write the list becomes `ReplaceById`; otherwise it is unchanged |
| Store.SubscriptionStore.DeleteSubscription | src/hooks/useSubscriptions.ts:202-233 | with a user and a successful delete the list becomes `RemoveById`; otherwise it is unchanged |
| Store.SubscriptionStore.AddCustomType | src/hooks/useSubscriptions.ts:235-237 | appends the type, with no duplicate check |
| Store.SubscriptionStore.RemoveCustomType | src/hooks/useSubscriptions.ts:239-241 | removes every entry equal to the type |
| Store.SubscriptionStore.AddCustomDuration | src/hooks/useSubscriptions.ts:243-245 | appends the entry, with no duplicate check |
| Store.SubscriptionStore.UpdateCustomDuration | src/hooks/useSubscriptions.ts:247-249 | replaces the entry at the index |
| Store.SubscriptionStore.RemoveCustomDuration | src/hooks/useSubscriptions.ts:251-253 | removes the entry at the index |
| Store.UpdateKeepsIdsAndOthers | src/hooks/useSubscriptions.ts:176-187 | an update keeps the ids and their order and leaves other records untouched; updated records get the new expiration and its status |
| Store.UpdateMissingIdIsNoOp | src/hooks/useSubscriptions.ts:176-187 | updating an absent id changes nothing |
| Store.UpdateIdempotent | src/hooks/useSubscriptions.ts:176-187 | applying the same update twice equals applying it once |
| Store.DeleteRemovesExactly | src/hooks/useSubscriptions.ts:221 | delete keeps the other records in order, leaves none with the id, and is a no-op for an absent id |
| Store.AddThenDeleteRestores | src/hooks/useSubscriptions.ts:120 | prepending a record under a fresh id and deleting that id restores the list |
| Store.InsertedStatusCanDisagree | src/hooks/useSubscriptions.ts:94-116 | a custom date one hour after noon is stored at a midnight already past, yet keeps the status expiring soon |
| Store.TypeVocabularyStaysDistinct | src/hooks/useSubscriptions.ts:235-241 | appending a new type and removing a type both keep the vocabulary free of repetitions |
| Store.AddThenRemoveType | src/hooks/useSubscriptions.ts:235-241 | adding a new type and removing it restores the vocabulary |
| Store.ReplaceAtTouchesOnlyIndex | src/hooks/useSubscriptions.ts:247-249 | only the entry at the index changes; an index out of range changes nothing |
| Store.RemoveAtTouchesOnlyIndex | src/hooks/useSubscriptions.ts:251-253 | earlier entries stay, later ones shift down by one, and the multiset loses exactly that entry |
| Store.AddThenRemoveDuration | src/hooks/useSubscriptions.ts:243-253 | adding a duration and removing the last index restores the vocabulary |
| IndexPage.InFilter | src/pages/Index.tsx:74-84 | a record passes the card filter iff the filter is 'all' or names the record's status |
| IndexPage.SearchQuery | src/pages/Index.tsx:87-88 | the query is empty iff the typed text is blank, and it holds no ASCII capital |
| IndexPage.Matches | src/pages/Index.tsx:89-92 | the empty query matches every record |
| IndexPage.InSearch | src/pages/Index.tsx:87-93 | a blank search passes every record, and a record whose lower-cased name contains the query passes |
| IndexPage.StatusFiltered | src/pages/Index.tsx:74-84 | holds exactly the records whose status matches the active filter, or all of them under 'all' |
| IndexPage.SearchFiltered | src/pages/Index.tsx:87-93 | holds exactly the records whose name or non-empty notes contain the lower-cased, trimmed query; a blank query keeps every record |
| IndexPage.FilteredSubscriptions | src/pages/Index.tsx:70-96 | holds exactly the records that pass both the status filter and the search |
| IndexPage.StatusFilteredIsFilter | src/pages/Index.tsx:74-84 | the status step is an order-keeping filter |
| IndexPage.SearchFilteredIsFilter | src/pages/Index.tsx:87-93 | the search step is an order-keeping filter |
| IndexPage.FilteredIsConjunction | src/pages/Index.tsx:70-96 | filtering by status and then searching is one filter by the conjunction |
| IndexPage.FilteredIsSubsequence | src/pages/Index.tsx:70-96 | the shown list is a subsequence of the store's list |
| IndexPage.BlankSearchAppliesNoFilter | src/pages/Index.tsx:87 | an all-whitespace query leaves only the status filter, and under 'all' the whole list |
| IndexPage.StatusFilterExactly | src/pages/Index.tsx:74-84 | each record occurs in the status-filtered list as often as in the store's list when it has that status, and not at all otherwise |
| IndexPage.SearchPassedByAllKeepsFilter | src/pages/Index.tsx:86-95 | a search that every record passes leaves the card-filtered list unchanged |
| IndexPage.LowerKeepsWhitespace | src/pages/Index.tsx:88 | lower-casing a query keeps it all whitespace exactly when it was |
| IndexPage.ToLowerIdempotent | src/pages/Index.tsx:88 | lower-casing twice equals lower-casing once |
| IndexPage.SearchIgnoresQueryCase | src/pages/Index.tsx:88-93 | a query and its lower-case form show the same records |
| IndexPage.SearchStepIgnoresQueryCase | src/pages/Index.tsx:87-93 | the search step alone keeps the same records for a query and its lower-case form |
| IndexPage.Page.constructor | src/pages/Index.tsx:16-19 | starts on the dashboard tab, editing nothing, filter 'all', empty search |
| IndexPage.Page.Filtered | src/pages/Index.tsx:98 | the page shows exactly the store's records that pass its filter and search |
| IndexPage.Page.HandleAddSubscription | src/pages/Index.tsx:37-40 | the store adds the record, and the dashboard tab is shown whatever the outcome |
| IndexPage.Page.HandleEditSubscription | src/pages/Index.tsx:42-44 | the subscription becomes the one being edited |
| IndexPage.Page.HandleUpdateSubscription | src/pages/Index.tsx:46-51 | updates the edited record's id only while one is being edited, then closes the dialog |
| IndexPage.Page.HandleDeleteSubscription | src/pages/Index.tsx:53-55 | the store deletes the id |
| IndexPage.Page.CloseEditDialog | src/pages/Index.tsx:194 | closing the dialog clears the edited record |
| IndexPage.Page.HandleFilterChange | src/pages/Index.tsx:57-59 | sets the active filter |
| IndexPage.Page.HandleSearchChange | src/pages/Index.tsx:61-63 | sets the search query |
| IndexPage.Page.HandleClearSearch | src/pages/Index.tsx:65-67 | clears the query, so the page shows exactly the status-filtered list |
| Dashboard.StatusCount | src/components/Dashboard.tsx:37-39 | a status count never exceeds the list's length |
| Dashboard.CountsSumToTotal | src/components/Dashboard.tsx:37-40 | the three status counts add up to the total |
| Dashboard.NextFilter | src/components/Dashboard.tsx:42-49 | a card click gives 'all' iff the card is the active filter or 'all'; otherwise it selects the card |
| Dashboard.CardClickToggles | src/components/Dashboard.tsx:42-49 | clicking the same card twice returns to 'all'; from 'all' a click selects the card |
| Dashboard.ShowsFilterControls | src/components/Dashboard.tsx:201-217 | the "Clear All" button and the result summary are shown whenever a card filter is active or the search filters the list |
| Dashboard.ControlsIgnoreTrim | src/components/Dashboard.tsx:201-217 | a one-space search shows the "Clear All" controls while the list is unfiltered |
| Dashboard.HandleCardClick | src/components/Dashboard.tsx:42-49 | the page's filter becomes `NextFilter` of the old filter and the card |
| Dashboard.ClearAll | src/components/Dashboard.tsx:201-207 | "Clear All" resets filter and search, which hides the controls |
| Dashboard.ListedResults | src/components/Dashboard.tsx:258-260 | sorts the array in place, latest expiration first, as a permutation, and shows its first ten |
| Sorting.Swap | src/components/Dashboard.tsx:259 | exchanges two cells and keeps the multiset |
| Sorting.InsertAt | src/components/Dashboard.tsx:259 | sinks one element into a sorted prefix, keeping the multiset and the suffix |
| Sorting.SortByKey | src/components/CalendarView.tsx:175 | sorts the array by the key, as a permutation of the old contents |
| CalendarView.FirstOfMonth | src/components/CalendarView.tsx:19 | the first day of the shown month |
| CalendarView.MonthStart | src/components/CalendarView.tsx:19 | the start of the month is at most the shown date's start, and the shown date lies within the month's days from it |
| CalendarView.MonthEnd | src/components/CalendarView.tsx:20 | the month's last instant comes after its first and is the last millisecond before the first day of the next month |
| CalendarView.InWindow | src/components/CalendarView.tsx:171-173 | a record is in the window iff it expires between the month's first instant and the next month's, half-open |
| CalendarView.WindowIsMonthDays | src/components/CalendarView.tsx:172-173 | a record is in the month window iff its expiration falls on one of the month's days |
| CalendarView.SubscriptionsForDay | src/components/CalendarView.tsx:27-29 | holds exactly the records expiring on that day, in list order and with the same multiplicities |
| CalendarView.ShowDayCell | src/components/CalendarView.tsx:123-137 | a day cell names the first two records and shows "+n" for the rest, accounting for every record |
| CalendarView.LeadingEmptyCells | src/components/CalendarView.tsx:24-25 | 0 to 6 blank cells before day 1, and the month fits in six weeks |
| CalendarView.NextMonthLeadingCells | src/components/CalendarView.tsx:24-33 | after the forward arrow, the blank cells are this month's blank cells plus its length, modulo 7 |
| CalendarView.KnownLeadingCells | src/components/CalendarView.tsx:24-25 | September 2024 begins on a Sunday with no blank cell, and March 2025 on a Saturday with six |
| CalendarView.MonthWindow | src/components/CalendarView.tsx:242-250 | holds exactly the records in the window; empty iff none is, which shows the empty message |
| CalendarView.UpcomingExpirations | src/components/CalendarView.tsx:169-175 | the month's records, soonest first, as a permutation of the month window |
| CalendarView.Calendar.constructor | src/components/CalendarView.tsx:17 | the calendar opens on today's month |
| CalendarView.Calendar.NavigateMonth | src/components/CalendarView.tsx:31-33 | moves the shown month one back or one forward |
| CalendarView.PrevThenNextShowsSameMonth | src/components/CalendarView.tsx:19-25 | back then forward shows the same month window and the same blank cells |
| TypeSettingsModal.ErrorMessage | src/components/TypeSettingsModal.tsx:23-31 | each refusal has a non-empty message |
| TypeSettingsModal.CheckNewType | src/components/TypeSettingsModal.tsx:18-38 | refuses an empty trimmed name, then a name already listed; otherwise accepts the trimmed name |
| TypeSettingsModal.AcceptedTypeIsNew | src/components/TypeSettingsModal.tsx:28-37 | an accepted name keeps the vocabulary distinct, and entering it again is refused |
| TypeSettingsModal.Dialog.constructor | src/components/TypeSettingsModal.tsx:14-16 | closed, with empty input and no error |
| TypeSettingsModal.Dialog.SetOpen | src/components/TypeSettingsModal.tsx:47 | the dialog's own open and close requests |
| TypeSettingsModal.Dialog.Type | src/components/TypeSettingsModal.tsx:68-71 | typing replaces the input and clears the error |
| TypeSettingsModal.Dialog.AddCustomType | src/components/TypeSettingsModal.tsx:18-38 | a refusal shows its message and keeps the input; an acceptance returns the name, clears the input and closes |
| TypeSettingsModal.Dialog.HandleClose | src/components/TypeSettingsModal.tsx:40-44 | closes and clears input and error |
| DurationSettingsModal.ErrorMessage | src/components/DurationSettingsModal.tsx:24-37 | each refusal has a non-empty message |
| DurationSettingsModal.DaysField | src/components/DurationSettingsModal.tsx:96 | the days field holds the parse when it is a non-zero number, and null otherwise |
| DurationSettingsModal.CheckNewDuration | src/components/DurationSettingsModal.tsx:18-50 | refuses an empty label, then an empty key, then a key in use, in that order; otherwise accepts the trimmed entry |
| DurationSettingsModal.AcceptedValueIsNew | src/components/DurationSettingsModal.tsx:34-46 | an accepted key keeps the duration keys distinct |
| DurationSettingsModal.NewValueKeepsDistinct | src/components/DurationSettingsModal.tsx:34-46 | appending an entry whose key no entry uses keeps the keys distinct |
| DurationSettingsModal.OnlyTheKeyIsChecked | src/components/DurationSettingsModal.tsx:18-46 | with label and key non-empty after trimming, a draft is accepted iff its key is new; the label is never compared |
| DurationSettingsModal.ExistingValueRefused | src/components/DurationSettingsModal.tsx:22-37 | a draft whose trimmed key an entry already uses is refused as a duplicate, whatever its label |
| DurationSettingsModal.Dialog.constructor | src/components/DurationSettingsModal.tsx:14-16 | closed, with the empty draft (days 0) and no error |
| DurationSettingsModal.Dialog.SetOpen | src/components/DurationSettingsModal.tsx:59 | the dialog's own open and close requests |
| DurationSettingsModal.Dialog.TypeLabel | src/components/DurationSettingsModal.tsx:79-82 | typing a label replaces it and clears the error |
| DurationSettingsModal.Dialog.TypeValue | src/components/DurationSettingsModal.tsx:87-90 | typing a key replaces it and clears the error |
| DurationSettingsModal.Dialog.TypeDays | src/components/DurationSettingsModal.tsx:96 | typing days stores `DaysField` of the parse |
| DurationSettingsModal.Dialog.AddCustomDuration | src/components/DurationSettingsModal.tsx:18-50 | a refusal shows its message and keeps the draft; an acceptance returns the entry, resets the draft and closes |
| DurationSettingsModal.Dialog.HandleClose | src/components/DurationSettingsModal.tsx:52-56 | closes, clears the error and resets the draft |
| DurationSettingsModal.Dialog.RemoveEntry | src/components/DurationSettingsModal.tsx:129 | deletes the entry at its index from the store |
| AddSubscriptionForm.InitialForm | src/components/AddSubscriptionForm.tsx:32-39 | the initial form: empty name, 'Basic', '1-month', started now, no custom duration or custom date key |
| AddSubscriptionForm.WithDuration | src/components/AddSubscriptionForm.tsx:196-200 | the duration select keeps a custom date only for 'custom', and sets it to undefined otherwise |
| AddSubscriptionForm.CostField | src/components/AddSubscriptionForm.tsx:155 | the cost holds the parse when it is a non-zero number, and undefined otherwise |
| AddSubscriptionForm.PreviewExpiration | src/components/AddSubscriptionForm.tsx:74-79 | the preview is 2099-12-31 for 'lifetime' and the picked date for 'custom' |
| AddSubscriptionForm.CanSubmit | src/components/AddSubscriptionForm.tsx:45 | a freshly opened form, with its empty name, cannot be submitted |
| AddSubscriptionForm.StoredAtPreviewDay | src/components/AddSubscriptionForm.tsx:74-79 | the added record is stored at the preview's day, with the preview's status |
| AddSubscriptionForm.DialogDurationsExpireAfterThirtyDays | src/components/AddSubscriptionForm.tsx:186-200 | a key from the duration dialog, or 'custom' without a date, expires 30 days after the start |
| AddSubscriptionForm.Form.constructor | src/components/AddSubscriptionForm.tsx:32-39 | the form starts as `InitialForm` |
| AddSubscriptionForm.Form.SetClientName | src/components/AddSubscriptionForm.tsx:102 | sets the client name |
| AddSubscriptionForm.Form.SelectPlanType | src/components/AddSubscriptionForm.tsx:126 | sets the plan type |
| AddSubscriptionForm.Form.SetNotes | src/components/AddSubscriptionForm.tsx:172 | sets the notes |
| AddSubscriptionForm.Form.SetCost | src/components/AddSubscriptionForm.tsx:155 | sets the cost to `CostField` of the parse |
| AddSubscriptionForm.Form.SelectDuration | src/components/AddSubscriptionForm.tsx:196-200 | applies `WithDuration` |
| AddSubscriptionForm.Form.SelectCustomDate | src/components/AddSubscriptionForm.tsx:239 | a picked date becomes the custom date; clearing the pick changes nothing |
| AddSubscriptionForm.Form.HandleSubmit | src/components/AddSubscriptionForm.tsx:43-57 | with a name and plan type, hands the form over and resets it; otherwise nothing changes |
| AddSubscriptionForm.Form.AddTypeFromDialog | src/components/AddSubscriptionForm.tsx:116-121 | an accepted type is appended to the store and selected in the form |
| AddSubscriptionForm.Form.AddDurationFromDialog | src/components/AddSubscriptionForm.tsx:186-191 | an accepted duration is appended to the store and its key selected |
| AddSubscriptionForm.Form.HandleRemoveCustomType | src/components/AddSubscriptionForm.tsx:67-72 | the store removes the type; the plan type is cleared only if it was that type |
| EditSubscriptionForm.AllTypes | src/components/EditSubscriptionForm.tsx:68 | the listed types are the eight defaults followed by the custom ones |
| EditSubscriptionForm.InitialForm | src/components/EditSubscriptionForm.tsx:36-43 | the form copies the record's fields, notes default to '', and there is no cost or custom date key |
| EditSubscriptionForm.WithDuration | src/components/EditSubscriptionForm.tsx:163-166 | 'custom' brings 30 custom days; any other choice removes the custom duration |
| EditSubscriptionForm.AcceptedType | src/components/EditSubscriptionForm.tsx:52-59 | accepts the trimmed name iff it is non-empty and not among all the listed types |
| EditSubscriptionForm.StricterThanDialog | src/components/EditSubscriptionForm.tsx:52-59 | whatever this form accepts, the plan-type dialog accepts too; a default type such as "VPN" that is not a custom type is accepted there and refused here |
| EditSubscriptionForm.PreviewExpiration | src/components/EditSubscriptionForm.tsx:69 | without a picked custom date the preview is what the store will compute; for 'custom' it is always the custom days (30 when unset or zero) from the start, ignoring any custom date |
| EditSubscriptionForm.UpdateFollowsPreview | src/components/EditSubscriptionForm.tsx:69 | the updated record takes the preview as its expiration and keeps its cost and custom date |
| EditSubscriptionForm.DurationChoicesExpireAfterThirtyDays | src/components/EditSubscriptionForm.tsx:163-174 | 'monthly', 'yearly' and 'custom' all expire 30 days after the start |
| EditSubscriptionForm.CustomDaysAreUsed | src/components/EditSubscriptionForm.tsx:186-189 | 'custom' with a non-zero day count expires that many days after the start |
| EditSubscriptionForm.Form.constructor | src/components/EditSubscriptionForm.tsx:36-45 | the form starts as `InitialForm` of the record, with the type input hidden and empty |
| EditSubscriptionForm.Form.HandleSubmit | src/components/EditSubscriptionForm.tsx:47-50 | hands the form over unchecked |
| EditSubscriptionForm.Form.SetClientName | src/components/EditSubscriptionForm.tsx:83 | sets the client name |
| EditSubscriptionForm.Form.SelectPlanType | src/components/EditSubscriptionForm.tsx:91 | sets the plan type |
| EditSubscriptionForm.Form.SetNotes | src/components/EditSubscriptionForm.tsx:228 | sets the notes |
| EditSubscriptionForm.Form.SelectStartDate | src/components/EditSubscriptionForm.tsx:215 | a picked date becomes the start date |
| EditSubscriptionForm.Form.SelectDuration | src/components/EditSubscriptionForm.tsx:163-166 | applies `WithDuration` |
| EditSubscriptionForm.Form.SetCustomDuration | src/components/EditSubscriptionForm.tsx:186-189 | an empty entry removes the custom duration; otherwise its parse is stored |
| EditSubscriptionForm.Form.TypeCustomType | src/components/EditSubscriptionForm.tsx:141 | sets the new-type input |
| EditSubscriptionForm.Form.SetShowCustomTypeInput | src/components/EditSubscriptionForm.tsx:148-153 | shows or hides the new-type input |
| EditSubscriptionForm.Form.AddCustomType | src/components/EditSubscriptionForm.tsx:52-59 | an accepted type is appended to the store and written to the form's `type` key, leaving the plan type unchanged |
| EditSubscriptionForm.Form.RemoveCustomType | src/components/EditSubscriptionForm.tsx:61-66 | the store removes the type; the plan type is cleared only if it was that type |
| SignupForm.ValidatePassword | src/components/auth/SignupForm.tsx:26-31 | a password has an error exactly when it is shorter than six characters |
| SignupForm.CheckSubmission | src/components/auth/SignupForm.tsx:33-69 | refuses missing fields, then different passwords, then a short password; otherwise requests sign-up with display name undefined when empty |
| SignupForm.PasswordErrorShown | src/components/auth/SignupForm.tsx:87 | whenever the inline password error shows, submitting is refused |
| SignupForm.MismatchShown | src/components/auth/SignupForm.tsx:195 | whenever the mismatch note shows, submitting is refused |
| SignupForm.SubmitDisabled | src/components/auth/SignupForm.tsx:204 | while nothing is loading, the button is disabled iff one of the two inline errors is shown |
| SignupForm.ButtonAgreesWithChecks | src/components/auth/SignupForm.tsx:87-204 | with all fields filled and nothing loading, the button is enabled iff the checks pass; it is disabled iff an inline error is shown |
| SignupForm.Form.constructor | src/components/auth/SignupForm.tsx:14-20 | empty fields, not loading |
| SignupForm.Form.Edit | src/components/auth/SignupForm.tsx:14-20 | the form's fields take the typed values |
| SignupForm.Form.BeginSubmit | src/components/auth/SignupForm.tsx:33-69 | a failed check makes no call; otherwise loading is set and the request returned |
| SignupForm.Form.FinishSubmit | src/components/auth/SignupForm.tsx:71-84 | loading ends either way, and success navigates home |

## Left out

- Supabase, the auth context and the toasts are not modelled. Their replies are parameters, and their messages are left out.
- The JSX rendering is not modelled: layout, colours, icons and badges other than the day counts.
- `formatDate` and the text formats of dates are not modelled.
- The mapping of fetched database rows into records is not modelled. `FetchSubscriptions` takes the rows already decoded.
- `refetch` is not modelled. It only calls the fetch again.
- `parseInt` and `parseFloat` are not modelled. Each input takes the parse result, with None standing for NaN.
- An edit-form custom duration that parses to NaN is not modelled.
- Local time zones are not modelled. Every instant is read as UTC, including `toISOString().split('T')[0]` and date-fns' `startOfMonth`, `endOfMonth` and `isSameDay`.
- `toLowerCase` changes ASCII capitals only; Unicode case mapping is not modelled. (`trim` uses the full set of ECMAScript WhiteSpace and LineTerminator code points.)
- Password length counts characters. UTF-16 code units are not modelled.
- Lookups of `durationMap` by inherited object keys such as 'constructor' are not modelled.
- The edit form's stray `type` key is kept as the form's `typeKey` field. It is not carried into the stored record.
- The database write on update sets `custom_date` to null, but the in-memory record keeps its custom date. Only the in-memory list is modelled.
- `SampleData.SampleSubscriptions` reads the clock once as `now`. The source reads it once per fixture, and `subMonths(now, 2)` is passed in as `twoMonthsAgo`.
- Dashboard.ListedResults: the sort sorts the array it is handed. When the filter is 'all' and the search is blank (empty or only whitespace), that array is the store's own list, so the store's order changes too. The store holds an immutable sequence, so the model does not capture this aliasing.
- EditSubscriptionForm.Form.HandleSubmit: the browser's own form validation is not modelled. The `required` attribute on the name field (src/components/EditSubscriptionForm.tsx:85) and `min="1"` on the custom day count (src/components/EditSubscriptionForm.tsx:184) would stop an empty name or a day count below 1 before the handler runs; the model hands such a form over.
- SignupForm.CheckSubmission: the browser's `type="email"` check (src/components/auth/SignupForm.tsx:119) is not modelled, so the model accepts any non-empty email text.
- Sorting.SortByKey is an insertion sort. It promises sortedness and a permutation, but not the stability of `Array.prototype.sort`.
- Store.ReplaceAt: its contract states only the length. `Store.ReplaceAtTouchesOnlyIndex` states the contents.
- Store.RemoveAt: its contract states only the length. `Store.RemoveAtTouchesOnlyIndex` states the contents.
- The login, password-reset, login-screen, header and auth-layout components are not modelled. They only forward to the auth service.
- The remaining components are not modelled. They only route events to the operations above.
