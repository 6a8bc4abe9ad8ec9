/** The public supplier listing: the store's suppliers narrowed by a
    free-text search, a location and a minimum rating, shown six to a page
    with previous / numbered / next controls. */
module SupplierListing {
  import opened Options
  import opened Entities
  import opened Text
  import opened Seqs
  import MockStore

  const ItemsPerPage: nat := 6

  /** The three filter inputs. An empty search or location, and no rating
      choice (the "Todas as avaliações" option), switch that filter off. The
      rating options are 4.5, 4.0, 3.5 and 3.0, held in hundredths. */
  datatype Filters = Filters(search: string, location: string, minRating: Option<Hundredths>)

  const NoFilters: Filters := Filters("", "", None)

  /** The search term occurs, ignoring case, in the name, the location or
      one of the specialties. */
  predicate MatchesSearch(s: Supplier, term: string) {
    var t := LowerStr(term);
    || Includes(LowerStr(s.name), t)
    || Includes(LowerStr(s.location), t)
    || exists i :: 0 <= i < |s.specialties| && Includes(LowerStr(s.specialties[i]), t)
  }

  /** The chosen location occurs, ignoring case, in the supplier's location. */
  predicate MatchesLocation(s: Supplier, location: string) {
    Includes(LowerStr(s.location), LowerStr(location))
  }

  /** A supplier passes every filter that is switched on. */
  predicate Passes(s: Supplier, f: Filters) {
    && (f.search == "" || MatchesSearch(s, f.search))
    && (f.location == "" || MatchesLocation(s, f.location))
    && (f.minRating.None? || s.rating >= f.minRating.value)
  }

  /** One filtering step that only runs when its input is set. */
  function Stage(s: seq<Supplier>, on: bool, keep: Supplier -> bool): seq<Supplier> {
    if on then Filter(s, keep) else s
  }

  function BySearch(f: Filters): Supplier -> bool {
    (s: Supplier) => MatchesSearch(s, f.search)
  }

  function ByLocation(f: Filters): Supplier -> bool {
    (s: Supplier) => MatchesLocation(s, f.location)
  }

  function ByRating(f: Filters): Supplier -> bool {
    (s: Supplier) => f.minRating.Some? && s.rating >= f.minRating.value
  }

  /** The search and location steps. */
  function SearchThenLocation(list: seq<Supplier>, f: Filters): seq<Supplier> {
    Stage(Stage(list, f.search != "", BySearch(f)), f.location != "", ByLocation(f))
  }

  /** The filter effect: search, then location, then rating, each skipped
      when its input is empty. The three steps amount to one filter by
      `Passes`. */
  function Visible(list: seq<Supplier>, f: Filters): (r: seq<Supplier>)
    ensures r == Filter(list, PassesAll(f))
  {
    StagesAreOneFilter(list, f);
    Stage(SearchThenLocation(list, f), f.minRating.Some?, ByRating(f))
  }

  function PassesAll(f: Filters): Supplier -> bool {
    (s: Supplier) => Passes(s, f)
  }

  /** A skipped step is a filter by a predicate that always holds. */
  lemma StageIsFilter(s: seq<Supplier>, on: bool, keep: Supplier -> bool, q: Supplier -> bool)
    requires forall x :: q(x) == (!on || keep(x))
    ensures Stage(s, on, keep) == Filter(s, q)
  {
    if on {
      FilterExt(s, keep, q);
    } else {
      FilterAll(s, q);
    }
  }

  /** Passing the search and location filters. */
  predicate PassesFirstTwo(s: Supplier, f: Filters) {
    (f.search == "" || MatchesSearch(s, f.search)) && (f.location == "" || MatchesLocation(s, f.location))
  }

  lemma FirstTwoStages(list: seq<Supplier>, f: Filters)
    ensures SearchThenLocation(list, f) == Filter(list, (s: Supplier) => PassesFirstTwo(s, f))
  {
    var q1 := (s: Supplier) => f.search == "" || MatchesSearch(s, f.search);
    var q2 := (s: Supplier) => f.location == "" || MatchesLocation(s, f.location);
    var a := Stage(list, f.search != "", BySearch(f));
    StageIsFilter(list, f.search != "", BySearch(f), q1);
    StageIsFilter(a, f.location != "", ByLocation(f), q2);
    FilterFilter(list, q1, q2, (s: Supplier) => PassesFirstTwo(s, f));
  }

  /** The three steps together are one filter by `Passes`: the visible list
      is the full list with the failing suppliers removed, in the original
      order, so exactly the suppliers that pass every active filter are
      shown. */
  lemma StagesAreOneFilter(list: seq<Supplier>, f: Filters)
    ensures Stage(SearchThenLocation(list, f), f.minRating.Some?, ByRating(f)) == Filter(list, PassesAll(f))
  {
    var q12 := (s: Supplier) => PassesFirstTwo(s, f);
    var q3 := (s: Supplier) => f.minRating.None? || s.rating >= f.minRating.value;
    FirstTwoStages(list, f);
    StageIsFilter(SearchThenLocation(list, f), f.minRating.Some?, ByRating(f), q3);
    FilterFilter(list, q12, q3, PassesAll(f));
  }

  lemma VisibleIsOneFilter(list: seq<Supplier>, f: Filters)
    ensures IsSubsequence(Visible(list, f), list)
    ensures forall i :: 0 <= i < |Visible(list, f)| ==> Visible(list, f)[i] in list && Passes(Visible(list, f)[i], f)
    ensures forall i :: 0 <= i < |list| && Passes(list[i], f) ==> list[i] in Visible(list, f)
    ensures forall s :: multiset(Visible(list, f))[s] == if Passes(s, f) then multiset(list)[s] else 0
  {
    FilterIsSubsequence(list, PassesAll(f));
    FilterMultiset(list, PassesAll(f));
  }

  /** With every filter off the whole list is visible. */
  lemma NoFiltersShowAll(list: seq<Supplier>)
    ensures Visible(list, NoFilters) == list
  {
  }

  /** An empty search term would match every supplier anyway, so skipping
      the empty search changes nothing. */
  lemma EmptySearchMatchesAll(s: Supplier)
    ensures MatchesSearch(s, "")
  {
    IncludesEmpty(LowerStr(s.name));
  }

  /** Search ignores case in the term. */
  lemma SearchIgnoresTermCase(s: Supplier, term: string)
    ensures MatchesSearch(s, term) <==> MatchesSearch(s, LowerStr(term))
  {
    LowerStrIdempotent(term);
  }

  /** `Math.ceil(n / itemsPerPage)`. */
  function TotalPages(n: nat): (r: nat)
    ensures r == 0 <==> n == 0
    ensures n <= ItemsPerPage * r
    ensures r > 0 ==> ItemsPerPage * (r - 1) < n
  {
    (n + ItemsPerPage - 1) / ItemsPerPage
  }

  /** `Array.prototype.slice(start, end)`: a negative bound counts from the
      end, every bound is clamped to the list, and an end before the start
      gives the empty list. */
  function Slice<T>(s: seq<T>, start: int, end: int): (r: seq<T>)
    ensures 0 <= start <= end ==>
      r == s[(if start < |s| then start else |s|)..(if end < |s| then end else |s|)]
    ensures |r| <= |s|
  {
    var b := Clamp(start, |s|);
    var e := Clamp(end, |s|);
    if b < e then s[b..e] else []
  }

  /** A slice bound resolved against a list of length `n`. */
  function Clamp(i: int, n: nat): (r: nat)
    ensures r <= n
    ensures 0 <= i ==> r == (if i < n then i else n)
  {
    if i < 0 then (if n + i < 0 then 0 else n + i) else if i < n then i else n
  }

  /** The entries shown on page `page` (counted from 1). */
  function PageItems<T>(list: seq<T>, page: int): (r: seq<T>)
    requires page >= 1
    ensures |r| <= ItemsPerPage
    ensures page <= TotalPages(|list|) ==> r != []
    ensures page > TotalPages(|list|) ==> r == []
  {
    var last := page * ItemsPerPage;
    Slice(list, last - ItemsPerPage, last)
  }

  /** Pages 1 to k laid end to end. */
  function FirstPages<T>(list: seq<T>, k: nat): seq<T>
    decreases k
  {
    if k == 0 then [] else FirstPages(list, k - 1) + PageItems(list, k)
  }

  lemma {:induction false} FirstPagesArePrefix<T>(list: seq<T>, k: nat)
    ensures FirstPages(list, k) == list[..if ItemsPerPage * k < |list| then ItemsPerPage * k else |list|]
    decreases k
  {
    if k > 0 {
      FirstPagesArePrefix(list, k - 1);
    }
  }

  /** The pages, in order, are exactly the visible list: every entry is
      shown on exactly one page. */
  lemma PagesCoverList<T>(list: seq<T>)
    ensures FirstPages(list, TotalPages(|list|)) == list
  {
    FirstPagesArePrefix(list, TotalPages(|list|));
  }

  /** The page an entry is shown on. */
  lemma EntryPage<T>(list: seq<T>, i: nat)
    requires i < |list|
    ensures var p := i / ItemsPerPage + 1;
      && 1 <= p <= TotalPages(|list|)
      && PageItems(list, p)[i % ItemsPerPage] == list[i]
  {
  }

  /** `Math.max(prev - 1, 1)`. */
  function Prev(page: int): (r: int)
    ensures r >= 1
    ensures page > 1 ==> r == page - 1
    ensures page <= 1 ==> r == 1
  {
    if page - 1 > 1 then page - 1 else 1
  }

  /** `Math.min(prev + 1, totalPages)`. */
  function Next(page: int, total: nat): (r: int)
    ensures r <= total
    ensures page < total ==> r == page + 1
    ensures page >= total ==> r == total
  {
    if page + 1 < total then page + 1 else total
  }

  lemma NextThenPrev(page: int, total: nat)
    requires 1 <= page < total
    ensures Prev(Next(page, total)) == page
  {
  }

  lemma PrevThenNext(page: int, total: nat)
    requires 1 < page <= total
    ensures Next(Prev(page), total) == page
  {
  }

  /** The listing once loaded: all suppliers, the filter inputs and the
      current page. */
  datatype Listing = Listing(all: seq<Supplier>, filters: Filters, page: int)

  function Shown(l: Listing): seq<Supplier> {
    Visible(l.all, l.filters)
  }

  function Pages(l: Listing): nat {
    TotalPages(|Shown(l)|)
  }

  /** What the visitor can do: set the filter inputs, or press one of the
      page controls (rendered only when there is more than one page).
      Setting the inputs to the values they already hold changes no state,
      so the filter effect does not run again. */
  datatype Event = Refilter(filters: Filters) | PrevPage | NextPage | GotoPage(page: int)

  /** One event. A filter change re-runs the filter and goes back to page 1.
      Page controls do nothing when they are not rendered; a numbered button
      exists only for 1..totalPages. */
  function Step(l: Listing, e: Event): (r: Listing)
    ensures r.all == l.all
    ensures e.Refilter? ==> r.filters == e.filters
    ensures e.Refilter? && e.filters != l.filters ==> r.page == 1
    ensures e.Refilter? && e.filters == l.filters ==> r == l
    ensures !e.Refilter? ==> r.filters == l.filters
    ensures !e.Refilter? && Pages(l) <= 1 ==> r == l
    ensures Pages(l) > 1 && e.PrevPage? ==> r.page == Prev(l.page)
    ensures Pages(l) > 1 && e.NextPage? ==> r.page == Next(l.page, Pages(l))
    ensures Pages(l) > 1 && e.GotoPage? && 1 <= e.page <= Pages(l) ==> r.page == e.page
    ensures e.GotoPage? && !(1 <= e.page <= Pages(l)) ==> r == l
  {
    match e
    case Refilter(f) => if f == l.filters then l else l.(filters := f, page := 1)
    case PrevPage => if Pages(l) > 1 then l.(page := Prev(l.page)) else l
    case NextPage => if Pages(l) > 1 then l.(page := Next(l.page, Pages(l))) else l
    case GotoPage(k) => if Pages(l) > 1 && 1 <= k <= Pages(l) then l.(page := k) else l
  }

  /** The page is at least 1 and, once there is a page to show, at most the
      number of pages. With nothing to show the page stays 1 ("Página 1 de 0"). */
  predicate PageInRange(l: Listing) {
    1 <= l.page && (l.page <= Pages(l) || l.page == 1)
  }

  /** Loading: `initializeData()` and then `getSuppliers()`; the listing
      starts unfiltered on page 1. Loading never changes what the store's
      getters return. */
  function Load(st: MockStore.Store): (r: (MockStore.Store, Listing))
    ensures r.1 == Listing(MockStore.GetSuppliers(st), NoFilters, 1)
    ensures MockStore.GetSuppliers(r.0) == MockStore.GetSuppliers(st)
    ensures MockStore.GetCategories(r.0) == MockStore.GetCategories(st)
    ensures MockStore.GetUsers(r.0) == MockStore.GetUsers(st)
  {
    var st1 := MockStore.InitializeData(st);
    (st1, Listing(MockStore.GetSuppliers(st1), NoFilters, 1))
  }

  function Run(l: Listing, es: seq<Event>): Listing
    decreases |es|
  {
    if es == [] then l else Run(Step(l, es[0]), es[1..])
  }

  /** No sequence of events takes the page out of range, starting from a
      fresh load. */
  lemma {:induction false} RunKeepsPageInRange(l: Listing, es: seq<Event>)
    requires PageInRange(l)
    ensures PageInRange(Run(l, es))
    decreases |es|
  {
    if es != [] {
      StepKeepsPageInRange(l, es[0]);
      RunKeepsPageInRange(Step(l, es[0]), es[1..]);
    }
  }

  lemma StepKeepsPageInRange(l: Listing, e: Event)
    requires PageInRange(l)
    ensures PageInRange(Step(l, e))
  {
  }

  lemma LoadStartsInRange(st: MockStore.Store)
    ensures PageInRange(Load(st).1)
  {
  }

  /** `[...new Set(values)]`: each value once, in order of first appearance. */
  function Dedup(values: seq<string>): (r: seq<string>)
    ensures Distinct(r)
    ensures forall x :: x in r <==> x in values
    decreases |values|
  {
    if values == [] then []
    else
      var d := Dedup(values[..|values| - 1]);
      var x := values[|values| - 1];
      assert values == values[..|values| - 1] + [x];
      if x in d then d else d + [x]
  }

  /** The location choices offered in the location filter. */
  method Locations(list: seq<Supplier>) returns (r: seq<string>)
    ensures r == Dedup(LocationsOf(list))
    ensures Distinct(r)
    ensures forall i :: 0 <= i < |list| ==> list[i].location in r
    ensures forall i :: 0 <= i < |r| ==> exists j :: 0 <= j < |list| && list[j].location == r[i]
  {
    var all := LocationsOf(list);
    r := [];
    var seen: set<string> := {};
    var i := 0;
    while i < |list|
      invariant 0 <= i <= |list|
      invariant r == Dedup(all[..i])
      invariant seen == set x | x in r
    {
      assert all[..i + 1][..i] == all[..i];
      if list[i].location !in seen {
        r := r + [list[i].location];
        seen := seen + {list[i].location};
      }
      i := i + 1;
    }
    assert all[..|list|] == all;
    forall k | 0 <= k < |r|
      ensures exists j :: 0 <= j < |list| && list[j].location == r[k]
    {
      assert r[k] in all;
      var j :| 0 <= j < |all| && all[j] == r[k];
      assert list[j].location == r[k];
    }
  }

  function LocationsOf(list: seq<Supplier>): (r: seq<string>)
    ensures |r| == |list| && forall i :: 0 <= i < |list| ==> r[i] == list[i].location
  {
    seq(|list|, i requires 0 <= i < |list| => list[i].location)
  }
}
