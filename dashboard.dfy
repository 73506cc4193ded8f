/** The queries and handlers of src/components/Dashboard.tsx: the status
    cards and their counts, the card toggle, "Clear All", and the list of at
    most ten results, latest expiration first. */
module Dashboard {
  import opened Types
  import opened Strings
  import Seqs
  import Sorting
  import IndexPage

  /** The number of records with status `status` (the count on its card). */
  function StatusCount(s: seq<Subscription>, status: Status): (n: nat)
    ensures n <= |s|
  {
    |Seqs.Filter((x: Subscription) => x.status == status, s)|
  }

  /** Every record has exactly one status, so the three status cards add
      up to the total card. */
  lemma CountsSumToTotal(s: seq<Subscription>)
    ensures StatusCount(s, Active) + StatusCount(s, Expired) + StatusCount(s, ExpiringSoon) == |s|
  {
    Seqs.FilterCountsPartition(
      (x: Subscription) => x.status == Active,
      (x: Subscription) => x.status == Expired,
      (x: Subscription) => x.status == ExpiringSoon, s);
  }

  /** `handleCardClick`: the filter after clicking the card of `clicked`. */
  function NextFilter(current: IndexPage.FilterType, clicked: IndexPage.FilterType): (next: IndexPage.FilterType)
    ensures next == IndexPage.All <==> clicked == current || clicked == IndexPage.All
    ensures next != IndexPage.All ==> next == clicked
  {
    if current == clicked then IndexPage.All else clicked
  }

  /** Clicking a card twice from the unfiltered state returns to it, and
      clicking the selected card deselects it. */
  lemma CardClickToggles(clicked: IndexPage.FilterType, current: IndexPage.FilterType)
    ensures NextFilter(NextFilter(IndexPage.All, clicked), clicked) == IndexPage.All
    ensures NextFilter(current, current) == IndexPage.All
    ensures current == IndexPage.All ==> NextFilter(current, clicked) == clicked
  {
  }

  /** Whether the summary line and the "Clear All" button are shown: a
      status filter is selected or the search box holds any text. */
  predicate ShowsFilterControls(filter: IndexPage.FilterType, searchQuery: string)
    ensures filter != IndexPage.All || Trim(searchQuery) != [] ==> ShowsFilterControls(filter, searchQuery)
  {
    filter != IndexPage.All || searchQuery != ""
  }

  /** The controls follow the raw text, the search the trimmed text: a box
      holding a single space shows "Filtered Results" over the whole list. */
  lemma ControlsIgnoreTrim(s: seq<Subscription>)
    ensures ShowsFilterControls(IndexPage.All, " ")
    ensures IndexPage.FilteredSubscriptions(s, IndexPage.All, " ") == s
  {
    assert AllWhitespace(" ");
    IndexPage.BlankSearchAppliesNoFilter(s, IndexPage.All, " ");
  }

  /** `handleCardClick`, applied to the page's filter. */
  method HandleCardClick(page: IndexPage.Page, clicked: IndexPage.FilterType)
    modifies page`activeFilter
    ensures page.activeFilter == NextFilter(old(page.activeFilter), clicked)
  {
    if page.activeFilter == clicked {
      page.HandleFilterChange(IndexPage.All);
    } else {
      page.HandleFilterChange(clicked);
    }
  }

  /** "Clear All": back to 'all' with an empty search, which hides the
      controls and shows the whole list. */
  method ClearAll(page: IndexPage.Page)
    modifies page`activeFilter, page`searchQuery
    ensures page.activeFilter == IndexPage.All && page.searchQuery == ""
    ensures !ShowsFilterControls(page.activeFilter, page.searchQuery)
  {
    page.HandleFilterChange(IndexPage.All);
    page.searchQuery := "";
  }

  /** The results list: sorts the passed array in place, latest expiration
      first, and shows its first ten entries. */
  method ListedResults(a: array<Subscription>) returns (shown: seq<Subscription>)
    modifies a
    ensures multiset(a[..]) == multiset(old(a[..]))
    ensures forall i, j :: 0 <= i < j < a.Length ==> a[i].expirationDate >= a[j].expirationDate
    ensures |shown| == if a.Length < 10 then a.Length else 10
    ensures shown == a[..|shown|]
  {
    var latestFirst := (sub: Subscription) => -sub.expirationDate;
    Sorting.SortByKey(a, latestFirst);
    assert forall i, j :: 0 <= i < j < a.Length ==> latestFirst(a[..][i]) <= latestFirst(a[..][j]);
    shown := if a.Length < 10 then a[..] else a[..10];
  }
}
