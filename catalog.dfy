/** The public event catalogue (src/pages/Events.tsx): a case-insensitive
    search over title and description and-ed with a category filter, pages of
    twelve events, and the page state the search, the category buttons and
    the pager change. */
module Catalog {
  import opened Wrappers
  import opened Strings
  import opened EventData
  import opened Remote
  import Lists

  const EventsPerPage := 12

  /** The category sentinel that means "no category restriction". */
  const AllTypes := "All"

  /** The category buttons, in the order they are shown. */

  // ---------------------------------------------------------------------------
  // Filtering

  /** The search term, lower-cased, occurs in the lower-cased title or description. */
  predicate MatchesSearch(e: Event, term: string) {
    || Includes(ToLower(e.title), ToLower(term))
    || Includes(ToLower(e.description), ToLower(term))
  }

  /** The category test: anything passes "All", otherwise the type must be equal. */
  predicate MatchesType(e: Event, selected: string) {
    selected == AllTypes || e.eventType == selected
  }

  /** `filteredEvents`: the loaded events that pass both tests, in their order. */
  function FilterEvents(events: seq<Event>, term: string, selected: string): (r: seq<Event>)
    ensures forall e :: e in r <==> e in events && MatchesSearch(e, term) && MatchesType(e, selected)
    ensures forall e :: multiset(r)[e] == if MatchesSearch(e, term) && MatchesType(e, selected) then multiset(events)[e] else 0
    ensures Lists.IsSubsequence(r, events)
  {
    Lists.Filter(events, (e: Event) => MatchesSearch(e, term) && MatchesType(e, selected))
  }

  /** An empty search term matches every event. */
  lemma EmptySearchMatchesAll(e: Event)
    ensures MatchesSearch(e, "")
  {
  }

  /** Search terms that differ only in letter case match the same events. */
  lemma SearchIgnoresCase(e: Event, t1: string, t2: string)
    requires ToLower(t1) == ToLower(t2)
    ensures MatchesSearch(e, t1) == MatchesSearch(e, t2)
  {
  }

  /** The search never looks at the event's type. */
  lemma SearchIgnoresType(e: Event, t: string, term: string)
    ensures MatchesSearch(e.(eventType := t), term) == MatchesSearch(e, term)
  {
  }

  /** With the search cleared and the category "All" the filter keeps every
      loaded event: Clear Filters shows the whole catalogue. */
  lemma ClearedFiltersKeepAll(events: seq<Event>)
    ensures FilterEvents(events, "", AllTypes) == events
  {
    Lists.FilterAcceptingAll(events, (e: Event) => MatchesSearch(e, "") && MatchesType(e, AllTypes));
  }

  /** Category "All" is the same as having no category filter. */
  lemma AllTypesIsNoTypeFilter(events: seq<Event>, term: string)
    ensures FilterEvents(events, term, AllTypes) == Lists.Filter(events, (e: Event) => MatchesSearch(e, term))
  {
    Lists.FilterCongruent(events,
      (e: Event) => MatchesSearch(e, term) && MatchesType(e, AllTypes),
      (e: Event) => MatchesSearch(e, term));
  }

  /** Filtering an already filtered list with the same search and category
      changes nothing. */
  lemma FilterEventsIdempotent(events: seq<Event>, term: string, selected: string)
    ensures FilterEvents(FilterEvents(events, term, selected), term, selected) == FilterEvents(events, term, selected)
  {
    Lists.FilterIdempotent(events, (e: Event) => MatchesSearch(e, term) && MatchesType(e, selected));
  }

  // ---------------------------------------------------------------------------
  // Pagination

  /** `Math.ceil(n / 12)`: the fewest pages of twelve that hold `n` events. */
  function TotalPages(n: nat): (r: nat)
    ensures r * EventsPerPage >= n
    ensures r > 0 ==> (r - 1) * EventsPerPage < n
  {
    (n + EventsPerPage - 1) / EventsPerPage
  }

  /** `list.slice((page - 1) * 12, (page - 1) * 12 + 12)`: never more than
      twelve items, and for a page between 1 and the page count a non-empty
      run that starts at `(page - 1) * 12` and stops at `page * 12` or at the
      end of the list. */
  function Page<T>(list: seq<T>, page: int): (r: seq<T>)
    ensures |r| <= EventsPerPage
    ensures 1 <= page <= TotalPages(|list|) ==>
              |r| > 0 && r == list[(page - 1) * EventsPerPage..Lists.Min(page * EventsPerPage, |list|)]
  {
    var start := (page - 1) * EventsPerPage;
    Lists.Slice(list, start, start + EventsPerPage)
  }

  /** Pages 1 to `k`, one after the other. */
  function PagesUpTo<T>(list: seq<T>, k: nat): seq<T> {
    if k == 0 then [] else PagesUpTo(list, k - 1) + Page(list, k)
  }

  /** The first `k` pages are the first `k * 12` items (or all of them). */
  lemma {:induction false} PagesUpToIsPrefix<T>(list: seq<T>, k: nat)
    requires k <= TotalPages(|list|)
    ensures PagesUpTo(list, k) == list[..Lists.Min(k * EventsPerPage, |list|)]
  {
    if k > 0 {
      PagesUpToIsPrefix(list, k - 1);
      var a := (k - 1) * EventsPerPage;
      var b := Lists.Min(k * EventsPerPage, |list|);
      assert Lists.Min(a, |list|) == a;
      assert list[..a] + list[a..b] == list[..b];
    }
  }

  /** Reading every page in order gives back the filtered list exactly. */
  lemma PagesReassemble<T>(list: seq<T>)
    ensures PagesUpTo(list, TotalPages(|list|)) == list
  {
    PagesUpToIsPrefix(list, TotalPages(|list|));
  }

  /** A page past the last one is empty. */
  lemma PagePastEndIsEmpty<T>(list: seq<T>, page: int)
    requires page > TotalPages(|list|)
    ensures Page(list, page) == []
  {
  }

  // ---------------------------------------------------------------------------
  // Page state

  /** The catalogue page after its one fetch of the `events` table. */
  class EventsPage {
    var searchTerm: string
    var selectedType: string
    var currentPage: int
    /** `dbEvents`: the mapped rows, or `null` after an error or an empty answer. */
    var dbEvents: Option<seq<Event>>
    var loadingEvents: bool

    /** `allEvents = dbEvents ?? []`. */
    function AllEvents(): seq<Event>
      reads this
    {
      dbEvents.GetOr([])
    }

    function Filtered(): seq<Event>
      reads this
    {
      FilterEvents(AllEvents(), searchTerm, selectedType)
    }

    function Pages(): nat
      reads this
    {
      TotalPages(|Filtered()|)
    }

    /** The current page is the first one or one that exists. */
    ghost predicate Valid()
      reads this
    {
      currentPage == 1 || 1 <= currentPage <= Pages()
    }

    /** `currentEvents`: the current page's slice of the filtered events; it
        is never empty while some event matches. */
    function CurrentEvents(): (r: seq<Event>)
      reads this
      requires Valid()
      ensures |r| <= EventsPerPage
      ensures Filtered() != [] ==> r != []
      ensures Filtered() != [] ==>
                r == Filtered()[(currentPage - 1) * EventsPerPage..Lists.Min(currentPage * EventsPerPage, |Filtered()|)]
    {
      Page(Filtered(), currentPage)
    }

    /** The pager is rendered under a non-empty grid of more than one page:
        on a valid page, exactly when nothing is loading and the filtered
        events fill more than one page. */
    predicate PagerShown(): (b: bool)
      reads this
      ensures Valid() ==> (b <==> !loadingEvents && Pages() > 1)
    {
      !loadingEvents && Page(Filtered(), currentPage) != [] && Pages() > 1
    }

    /** Previous is disabled on page 1: on a valid page, exactly when there
        is no page before the current one. */
    predicate PreviousDisabled(): (b: bool)
      reads this
      ensures Valid() ==> (b <==> Page(Filtered(), currentPage - 1) == [])
    {
      currentPage == 1
    }

    /** Next is disabled on the last page: on a valid page of a non-empty
        list, exactly when there is no page after the current one. */
    predicate NextDisabled(): (b: bool)
      reads this
      ensures Valid() && Filtered() != [] ==> (b <==> Page(Filtered(), currentPage + 1) == [])
    {
      currentPage == Pages()
    }

    /** The page once the fetch issued at mount has answered. */
    constructor (response: Fetch<EventRow>)
      ensures Valid()
      ensures searchTerm == "" && selectedType == AllTypes && currentPage == 1
      ensures dbEvents == match response
                          case Rows(data) =>
                            var fetched := Lists.Map(data.GetOr([]), MapRow);
                            if fetched == [] then None else Some(fetched)
                          case _ => None
      ensures loadingEvents == response.FetchThrew?
    {
      searchTerm := "";
      selectedType := AllTypes;
      currentPage := 1;
      match response
      case Rows(data) =>
        var fetched := Lists.Map(data.GetOr([]), MapRow);
        dbEvents := if fetched == [] then None else Some(fetched);
        loadingEvents := false;
      case FetchErr(_) =>
        dbEvents := None;
        loadingEvents := false;
      case FetchThrew =>
        dbEvents := None;
        loadingEvents := true;
    }

    /** Typing in the search box; a changed term sends the page back to 1. */
    method SetSearchTerm(t: string)
      requires Valid()
      modifies this
      ensures Valid()
      ensures searchTerm == t && selectedType == old(selectedType)
      ensures dbEvents == old(dbEvents) && loadingEvents == old(loadingEvents)
      ensures currentPage == if t == old(searchTerm) then old(currentPage) else 1
    {
      if t != searchTerm {
        searchTerm := t;
        currentPage := 1;
      }
    }

    /** A category button; a changed category sends the page back to 1. */
    method SelectType(t: string)
      requires Valid()
      modifies this
      ensures Valid()
      ensures selectedType == t && searchTerm == old(searchTerm)
      ensures dbEvents == old(dbEvents) && loadingEvents == old(loadingEvents)
      ensures currentPage == if t == old(selectedType) then old(currentPage) else 1
    {
      if t != selectedType {
        selectedType := t;
        currentPage := 1;
      }
    }

    /** The Clear Filters button is part of the "No events found" panel,
        which is shown on a valid page exactly when nothing is loading and no
        event matches. */
    predicate ClearFiltersShown(): (b: bool)
      reads this
      ensures Valid() ==> (b <==> !loadingEvents && Filtered() == [])
    {
      !loadingEvents && Page(Filtered(), currentPage) == []
    }

    /** Clear Filters: search "" and category "All", after which every loaded
        event is listed. Without the button nothing happens. */
    method ClearFilters()
      requires Valid()
      modifies this
      ensures Valid()
      ensures dbEvents == old(dbEvents) && loadingEvents == old(loadingEvents)
      ensures old(ClearFiltersShown()) ==>
                && searchTerm == "" && selectedType == AllTypes
                && currentPage == (if old(searchTerm) == "" && old(selectedType) == AllTypes then old(currentPage) else 1)
                && Filtered() == AllEvents()
      ensures !old(ClearFiltersShown()) ==>
                searchTerm == old(searchTerm) && selectedType == old(selectedType) && currentPage == old(currentPage)
    {
      if ClearFiltersShown() {
        SetSearchTerm("");
        SelectType(AllTypes);
        ClearedFiltersKeepAll(AllEvents());
      }
    }

    /** Previous: one page back, unless the button is absent or disabled. */
    method ClickPrevious()
      requires Valid()
      modifies this`currentPage
      ensures Valid()
      ensures currentPage == if old(PagerShown()) && !old(PreviousDisabled()) then old(currentPage) - 1 else old(currentPage)
    {
      if PagerShown() && !PreviousDisabled() {
        currentPage := currentPage - 1;
      }
    }

    /** Next: one page on, unless the button is absent or disabled. */
    method ClickNext()
      requires Valid()
      modifies this`currentPage
      ensures Valid()
      ensures currentPage == if old(PagerShown()) && !old(NextDisabled()) then old(currentPage) + 1 else old(currentPage)
    {
      if PagerShown() && !NextDisabled() {
        currentPage := currentPage + 1;
      }
    }

    /** A numbered page button; buttons exist for pages 1 to the page count. */
    method ClickPage(page: int)
      requires Valid()
      modifies this`currentPage
      ensures Valid()
      ensures currentPage == if old(PagerShown()) && 1 <= page <= old(Pages()) then page else old(currentPage)
    {
      if PagerShown() && 1 <= page <= Pages() {
        currentPage := page;
      }
    }
  }
}
