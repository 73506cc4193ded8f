/** The page of src/pages/Index.tsx: its state (tab, edit target, status
    filter, search text), the handlers that change it, and the filter and
    search query that every view of the list goes through. */
module IndexPage {
  import opened Wrappers
  import opened Types
  import opened Strings
  import Seqs
  import Store

  /** The card filter: 'all' or one status. */
  datatype FilterType = All | ByStatus(status: Status)

  datatype Tab = DashboardTab | AddTab | CalendarTab

  /** Whether a record passes the card filter. */
  predicate InFilter(sub: Subscription, filter: FilterType)
    ensures InFilter(sub, filter) <==> filter == All || filter == ByStatus(sub.status)
  {
    filter.All? || sub.status == filter.status
  }

  /** The card-filter step: the whole list for 'all', else the records with
      that status in their original order. */
  function StatusFiltered(s: seq<Subscription>, filter: FilterType): (r: seq<Subscription>)
    ensures forall x :: x in r <==> x in s && InFilter(x, filter)
  {
    match filter
    case All =>
      Seqs.FilterKeepsAll((x: Subscription) => InFilter(x, filter), s);
      s
    case ByStatus(status) => Seqs.Filter((x: Subscription) => x.status == status, s)
  }

  /** The query the search compares with: lower-cased, then trimmed. */
  function SearchQuery(q: string): (query: string)
    ensures query == [] <==> AllWhitespace(q)
    ensures NoCapitals(query)
  {
    var lower := ToLower(q);
    LowerKeepsWhitespace(q);
    TrimEmptyIffAllWhitespace(lower);
    TrimKeepsNoCapitals(lower);
    Trim(lower)
  }

  /** The text test: the lower-cased name contains the query, or the notes
      are present, non-empty and contain it once lower-cased. */
  predicate Matches(sub: Subscription, query: string)
    ensures query == [] ==> Matches(sub, query)
  {
    Contains(ToLower(sub.clientName), query)
    || (sub.notes.Some? && sub.notes.value != "" && Contains(ToLower(sub.notes.value), query))
  }

  /** Whether a record passes the search box: a blank box passes everything. */
  predicate InSearch(sub: Subscription, q: string)
    ensures AllWhitespace(q) ==> InSearch(sub, q)
    ensures Contains(ToLower(sub.clientName), SearchQuery(q)) ==> InSearch(sub, q)
  {
    TrimEmptyIffAllWhitespace(q);
    Trim(q) == [] || Matches(sub, SearchQuery(q))
  }

  /** The search step. */
  function SearchFiltered(s: seq<Subscription>, q: string): (r: seq<Subscription>)
    ensures forall x :: x in r <==> x in s && InSearch(x, q)
  {
    if Trim(q) != [] then Seqs.Filter((x: Subscription) => Matches(x, SearchQuery(q)), s)
    else s
  }

  /** `getFilteredSubscriptions`: the card filter, then the search. */
  function FilteredSubscriptions(s: seq<Subscription>, filter: FilterType, q: string): (r: seq<Subscription>)
    ensures forall x :: x in r <==> x in s && InFilter(x, filter) && InSearch(x, q)
  {
    SearchFiltered(StatusFiltered(s, filter), q)
  }

  /** The card-filter step is a filter by `InFilter`. */
  lemma StatusFilteredIsFilter(s: seq<Subscription>, filter: FilterType)
    ensures StatusFiltered(s, filter) == Seqs.Filter((x: Subscription) => InFilter(x, filter), s)
  {
    match filter
    case All =>
      Seqs.FilterKeepsAll((x: Subscription) => InFilter(x, filter), s);
    case ByStatus(status) =>
      Seqs.FilterAgrees((x: Subscription) => x.status == status, (x: Subscription) => InFilter(x, filter), s);
  }

  /** The search step is a filter by `InSearch`. */
  lemma SearchFilteredIsFilter(s: seq<Subscription>, q: string)
    ensures SearchFiltered(s, q) == Seqs.Filter((x: Subscription) => InSearch(x, q), s)
  {
    if Trim(q) != [] {
      Seqs.FilterAgrees((x: Subscription) => Matches(x, SearchQuery(q)), (x: Subscription) => InSearch(x, q), s);
    } else {
      Seqs.FilterKeepsAll((x: Subscription) => InSearch(x, q), s);
    }
  }

  /** The two steps are one filter by the conjunction of the two tests, so
      the result keeps the input's order and multiplicities. */
  lemma FilteredIsConjunction(s: seq<Subscription>, filter: FilterType, q: string)
    ensures FilteredSubscriptions(s, filter, q)
      == Seqs.Filter((x: Subscription) => InFilter(x, filter) && InSearch(x, q), s)
  {
    var byFilter := (x: Subscription) => InFilter(x, filter);
    var bySearch := (x: Subscription) => InSearch(x, q);
    var both := (x: Subscription) => InFilter(x, filter) && InSearch(x, q);
    StatusFilteredIsFilter(s, filter);
    SearchFilteredIsFilter(StatusFiltered(s, filter), q);
    Seqs.FilterThenFilter(byFilter, bySearch, both, s);
  }

  /** The result is a subsequence of the list. */
  lemma FilteredIsSubsequence(s: seq<Subscription>, filter: FilterType, q: string)
    ensures Seqs.IsSubsequence(FilteredSubscriptions(s, filter, q), s)
  {
    FilteredIsConjunction(s, filter, q);
    Seqs.FilterIsSubsequence((x: Subscription) => InFilter(x, filter) && InSearch(x, q), s);
  }

  /** With 'all' and a blank search box the list is shown unchanged; a box
      holding only whitespace is blank. */
  lemma BlankSearchAppliesNoFilter(s: seq<Subscription>, filter: FilterType, q: string)
    requires AllWhitespace(q)
    ensures FilteredSubscriptions(s, filter, q) == StatusFiltered(s, filter)
    ensures FilteredSubscriptions(s, All, q) == s
  {
    TrimEmptyIffAllWhitespace(q);
  }

  /** A status filter keeps each record with that status as many times as
      the list holds it, and no other record. */
  lemma StatusFilterExactly(s: seq<Subscription>, status: Status)
    ensures forall x ::
              multiset(StatusFiltered(s, ByStatus(status)))[x] == if x.status == status then multiset(s)[x] else 0
  {
    var keep := (x: Subscription) => x.status == status;
    assert forall x :: multiset(Seqs.Filter(keep, s))[x] == if keep(x) then multiset(s)[x] else 0;
  }

  /** A search that every record of the list passes changes nothing: the
      result is the card filter's output, in order and with repetitions. */
  lemma SearchPassedByAllKeepsFilter(s: seq<Subscription>, filter: FilterType, q: string)
    requires forall x :: x in s ==> InSearch(x, q)
    ensures FilteredSubscriptions(s, filter, q) == StatusFiltered(s, filter)
  {
    var t := StatusFiltered(s, filter);
    SearchFilteredIsFilter(t, q);
    Seqs.FilterKeepsAll((x: Subscription) => InSearch(x, q), t);
  }

  /** ASCII lower-casing does not create or remove whitespace. */
  lemma LowerKeepsWhitespace(q: string)
    ensures AllWhitespace(ToLower(q)) <==> AllWhitespace(q)
  {
    var l := ToLower(q);
    if AllWhitespace(q) {
      forall i | 0 <= i < |l| ensures IsWhitespace(l[i]) {
        assert l[i] == LowerChar(q[i]);
      }
    }
    if AllWhitespace(l) {
      forall i | 0 <= i < |q| ensures IsWhitespace(q[i]) {
        assert l[i] == LowerChar(q[i]);
        assert IsWhitespace(l[i]);
      }
    }
  }

  /** Lower-casing twice is lower-casing once. */
  lemma ToLowerIdempotent(q: string)
    ensures ToLower(ToLower(q)) == ToLower(q)
  {
  }

  /** The search ignores the case of the query's ASCII letters. */
  lemma SearchIgnoresQueryCase(s: seq<Subscription>, filter: FilterType, q: string)
    ensures FilteredSubscriptions(s, filter, ToLower(q)) == FilteredSubscriptions(s, filter, q)
  {
    SearchStepIgnoresQueryCase(StatusFiltered(s, filter), q);
  }

  /** The search step alone ignores the case of the query: the box is blank
      for both or for neither, and both compare with the same query. */
  lemma SearchStepIgnoresQueryCase(s: seq<Subscription>, q: string)
    ensures SearchFiltered(s, ToLower(q)) == SearchFiltered(s, q)
  {
    LowerKeepsWhitespace(q);
    TrimEmptyIffAllWhitespace(q);
    TrimEmptyIffAllWhitespace(ToLower(q));
    assert (Trim(ToLower(q)) == []) == (Trim(q) == []);
    ToLowerIdempotent(q);
    assert SearchQuery(ToLower(q)) == SearchQuery(q);
  }

  class Page {
    var activeTab: Tab
    var editing: Option<Subscription>
    var activeFilter: FilterType
    var searchQuery: string

    /** The page's initial state: dashboard tab, no edit target, 'all', no search. */
    constructor ()
      ensures activeTab == DashboardTab && editing.None? && activeFilter == All && searchQuery == ""
    {
      activeTab := DashboardTab;
      editing := None;
      activeFilter := All;
      searchQuery := "";
    }

    /** The list every view shows. */
    function Filtered(store: Store.SubscriptionStore): (r: seq<Subscription>)
      reads this, store
      ensures forall x :: x in r <==> x in store.subscriptions && InFilter(x, activeFilter) && InSearch(x, searchQuery)
    {
      FilteredSubscriptions(store.subscriptions, activeFilter, searchQuery)
    }

    /** `handleAddSubscription`: the add, whatever its outcome, then back
        to the dashboard tab. */
    method HandleAddSubscription(store: Store.SubscriptionStore, form: SubscriptionFormData, now: int, reply: Result<string, string>)
      modifies this`activeTab, store`subscriptions
      ensures activeTab == DashboardTab
      ensures store.user.None? || reply.Failure? ==> store.subscriptions == old(store.subscriptions)
      ensures store.user.Some? && reply.Success? ==>
        store.subscriptions == [Store.InsertedRecord(reply.value, form, now)] + old(store.subscriptions)
    {
      var _ := store.AddSubscription(form, now, reply);
      activeTab := DashboardTab;
    }

    /** `handleEditSubscription`: opens the edit dialog on a record. */
    method HandleEditSubscription(sub: Subscription)
      modifies this`editing
      ensures editing == Some(sub)
    {
      editing := Some(sub);
    }

    /** `handleUpdateSubscription`: only with an edit target; writes the form
        to the target's id and closes the dialog. */
    method HandleUpdateSubscription(store: Store.SubscriptionStore, form: SubscriptionFormData, now: int, reply: Result<(), string>)
      modifies this`editing, store`subscriptions
      ensures editing.None?
      ensures old(editing).None? || store.user.None? || reply.Failure? ==>
        store.subscriptions == old(store.subscriptions)
      ensures old(editing).Some? && store.user.Some? && reply.Success? ==>
        store.subscriptions == Store.ReplaceById(old(store.subscriptions), old(editing).value.id, form, now)
    {
      if editing.Some? {
        store.UpdateSubscription(editing.value.id, form, now, reply);
        editing := None;
      }
    }

    /** `handleDeleteSubscription`. */
    method HandleDeleteSubscription(store: Store.SubscriptionStore, id: string, reply: Result<(), string>)
      modifies store`subscriptions
      ensures store.user.None? || reply.Failure? ==> store.subscriptions == old(store.subscriptions)
      ensures store.user.Some? && reply.Success? ==> store.subscriptions == Store.RemoveById(old(store.subscriptions), id)
    {
      store.DeleteSubscription(id, reply);
    }

    /** Closing or cancelling the edit dialog drops the edit target. */
    method CloseEditDialog()
      modifies this`editing
      ensures editing.None?
    {
      editing := None;
    }

    method HandleFilterChange(filter: FilterType)
      modifies this`activeFilter
      ensures activeFilter == filter
    {
      activeFilter := filter;
    }

    method HandleSearchChange(q: string)
      modifies this`searchQuery
      ensures searchQuery == q
    {
      searchQuery := q;
    }

    /** `handleClearSearch`: empties the search box, which then filters nothing. */
    method HandleClearSearch(store: Store.SubscriptionStore)
      modifies this`searchQuery
      ensures searchQuery == ""
      ensures Filtered(store) == StatusFiltered(store.subscriptions, activeFilter)
    {
      searchQuery := "";
      BlankSearchAppliesNoFilter(store.subscriptions, activeFilter, searchQuery);
    }
  }
}
