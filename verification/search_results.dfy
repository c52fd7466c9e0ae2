/**
  The search results view: the request parameters it sends, the defaults it
  applies to the response, where a clicked card navigates, the previous/next
  page buttons and the window of page numbers shown between them.
 */
module SearchResults {
  import opened Common
  import opened Dict
  import opened Routes
  import opened Payload

  // ---------------------------------------------------------------------------
  // Request parameters

  /** `filters?.type === 'person'`. */
  predicate IsPersonSearch(filters: Option<Filters>) {
    filters.Some? && filters.value.kind == Some(Str("person"))
  }

  /** The value a parameter gets from a filter field: the field when truthy, else nothing. */
  function Forwarded(filters: Option<Filters>, field: FilterField): Option<Value> {
    var v := Field(filters, field);
    if Truthy(v) then v else None
  }

  const SearchParamNames: set<string> := {"query", "page", "type", "year", "sort_by", "min_rating", "genre"}

  /**
    The parameters of `GET /tmdb/search`: query and page always; type, year
    and genre copied, sortBy renamed sort_by and minRating renamed min_rating,
    each only when truthy.
   */
  function RequestParams(payload: SearchPayload, p: int): (r: Dict<Value>)
    ensures DistinctKeys(r)
    ensures Lookup(r, "query") == Some(Str(payload.query))
    ensures Lookup(r, "page") == Some(Int(p))
    ensures Lookup(r, "type") == Forwarded(payload.filters, TypeField)
    ensures Lookup(r, "year") == Forwarded(payload.filters, YearField)
    ensures Lookup(r, "sort_by") == Forwarded(payload.filters, SortByField)
    ensures Lookup(r, "min_rating") == Forwarded(payload.filters, MinRatingField)
    ensures Lookup(r, "genre") == Forwarded(payload.filters, GenreField)
    ensures forall k :: k !in SearchParamNames ==> Lookup(r, k) == None
  {
    var f := payload.filters;
    var d0: Dict<Value> := [("query", Str(payload.query)), ("page", Int(p))];
    var d1 := PutForwarded(d0, f, "type", TypeField);
    var d2 := PutForwarded(d1, f, "year", YearField);
    var d3 := PutForwarded(d2, f, "sort_by", SortByField);
    var d4 := PutForwarded(d3, f, "min_rating", MinRatingField);
    var d5 := PutForwarded(d4, f, "genre", GenreField);
    forall k | k !in {"type", "year", "sort_by", "min_rating", "genre"}
      ensures Lookup(d5, k) == Lookup(d0, k)
    {
      ForwardedKeepsOthers(d0, f, "type", TypeField, k);
      ForwardedKeepsOthers(d1, f, "year", YearField, k);
      ForwardedKeepsOthers(d2, f, "sort_by", SortByField, k);
      ForwardedKeepsOthers(d3, f, "min_rating", MinRatingField, k);
      ForwardedKeepsOthers(d4, f, "genre", GenreField, k);
    }
    assert d0[1..] == [("page", Int(p))];
    assert Lookup(d0, "page") == Some(Int(p));
    ForwardedKeepsOthers(d1, f, "year", YearField, "type");
    ForwardedKeepsOthers(d2, f, "sort_by", SortByField, "type");
    ForwardedKeepsOthers(d3, f, "min_rating", MinRatingField, "type");
    ForwardedKeepsOthers(d4, f, "genre", GenreField, "type");
    ForwardedKeepsOthers(d2, f, "sort_by", SortByField, "year");
    ForwardedKeepsOthers(d3, f, "min_rating", MinRatingField, "year");
    ForwardedKeepsOthers(d4, f, "genre", GenreField, "year");
    ForwardedKeepsOthers(d3, f, "min_rating", MinRatingField, "sort_by");
    ForwardedKeepsOthers(d4, f, "genre", GenreField, "sort_by");
    ForwardedKeepsOthers(d4, f, "genre", GenreField, "min_rating");
    assert Lookup(d0, "type") == None by { assert Lookup(d0[1..], "type") == None; }
    assert Lookup(d1, "year") == None by {
      assert Lookup(d0[1..], "year") == None;
      ForwardedKeepsOthers(d0, f, "type", TypeField, "year");
    }
    assert Lookup(d2, "sort_by") == None by {
      assert Lookup(d0[1..], "sort_by") == None;
      ForwardedKeepsOthers(d0, f, "type", TypeField, "sort_by");
      ForwardedKeepsOthers(d1, f, "year", YearField, "sort_by");
    }
    assert Lookup(d3, "min_rating") == None by {
      assert Lookup(d0[1..], "min_rating") == None;
      ForwardedKeepsOthers(d0, f, "type", TypeField, "min_rating");
      ForwardedKeepsOthers(d1, f, "year", YearField, "min_rating");
      ForwardedKeepsOthers(d2, f, "sort_by", SortByField, "min_rating");
    }
    assert Lookup(d4, "genre") == None by {
      assert Lookup(d0[1..], "genre") == None;
      ForwardedKeepsOthers(d0, f, "type", TypeField, "genre");
      ForwardedKeepsOthers(d1, f, "year", YearField, "genre");
      ForwardedKeepsOthers(d2, f, "sort_by", SortByField, "genre");
      ForwardedKeepsOthers(d3, f, "min_rating", MinRatingField, "genre");
    }
    forall k | k !in SearchParamNames
      ensures Lookup(d0, k) == None
    {
      assert Lookup(d0[1..], k) == None;
    }
    d5
  }

  /** `if (filters.x) params[key] = filters.x`. */
  function PutForwarded(d: Dict<Value>, filters: Option<Filters>, key: string, field: FilterField): (r: Dict<Value>)
    ensures DistinctKeys(d) ==> DistinctKeys(r)
    ensures Truthy(Field(filters, field)) ==> Lookup(r, key) == Field(filters, field)
    ensures !Truthy(Field(filters, field)) ==> r == d
  {
    var v := Field(filters, field);
    if Truthy(v) then Put(d, key, v.value) else d
  }

  lemma ForwardedKeepsOthers(d: Dict<Value>, filters: Option<Filters>, key: string, field: FilterField, other: string)
    requires other != key
    ensures Lookup(PutForwarded(d, filters, key, field), other) == Lookup(d, other)
  {
    if Truthy(Field(filters, field)) {
      PutKeepsOthers(d, key, Field(filters, field).value, other);
    }
  }

  // ---------------------------------------------------------------------------
  // Response defaults

  /** The fields of the search response the view reads; any may be missing. */
  datatype SearchResponse = SearchResponse(
    results: Option<seq<Item>>,
    totalPages: Option<int>,
    totalResults: Option<int>)

  datatype ResultsView = ResultsView(results: seq<Item>, totalPages: int, totalResults: int)

  /** `results || []`, `total_pages || 1`, `total_results || 0`. */
  function ApplyResponse(resp: SearchResponse): (v: ResultsView)
    ensures v.results == resp.results.GetOr([])
    ensures v.totalPages != 0
    ensures resp.totalPages.None? || resp.totalPages == Some(0) ==> v.totalPages == 1
    ensures resp.totalPages.Some? && resp.totalPages.value != 0 ==> v.totalPages == resp.totalPages.value
    ensures resp.totalResults.Some? ==> v.totalResults == resp.totalResults.value
    ensures resp.totalResults.None? ==> v.totalResults == 0
  {
    ResultsView(
      resp.results.GetOr([]),
      if resp.totalPages.Some? && resp.totalPages.value != 0 then resp.totalPages.value else 1,
      resp.totalResults.GetOr(0))
  }

  // ---------------------------------------------------------------------------
  // Card navigation

  /**
    `/person/{id}` for a person row or during a person search; otherwise
    `/tv/{id}` for a TV-looking row and `/movie/{id}` for the rest.
   */
  function CardRoute(item: Item, personSearch: bool): (r: string)
    ensures ParsePath(r).Some? && ParsePath(r).value.1 == item.id
    ensures ParsePath(r).value.0 == Person <==> item.mediaType == Some("person") || personSearch
    ensures ParsePath(r).value.0 == Tv <==> item.mediaType != Some("person") && !personSearch && ListedAsTv(item)
  {
    var k := if item.mediaType == Some("person") || personSearch then Person
             else if ListedAsTv(item) then Tv
             else Movie;
    ParsePathComplete(k, item.id);
    Path(k, item.id)
  }

  // ---------------------------------------------------------------------------
  // Previous / next

  /** `if (page > 1) setPage(page - 1)`. */
  function PrevPage(page: int): int {
    if page > 1 then page - 1 else page
  }

  /** `if (page < totalPages) setPage(page + 1)`. */
  function NextPage(page: int, totalPages: int): int {
    if page < totalPages then page + 1 else page
  }

  /** From a page in range, both buttons stay in range; at an edge the page does not move. */
  lemma PrevNextStayInRange(page: int, totalPages: int)
    requires 1 <= page <= totalPages
    ensures 1 <= PrevPage(page) <= totalPages
    ensures 1 <= NextPage(page, totalPages) <= totalPages
    ensures PrevPage(page) == page <==> page == 1
    ensures NextPage(page, totalPages) == page <==> page == totalPages
    ensures page > 1 ==> NextPage(PrevPage(page), totalPages) == page
    ensures page < totalPages ==> PrevPage(NextPage(page, totalPages)) == page
  {
  }

  // ---------------------------------------------------------------------------
  // Page-number window

  datatype PageEntry = Number(n: int) | Ellipsis

  const MaxVisible := 7

  /** Consecutive page numbers lo, lo + 1, …, hi (empty when hi < lo). */
  function Run(lo: int, hi: int): (r: seq<PageEntry>)
    ensures |r| == if hi < lo then 0 else hi - lo + 1
    ensures forall i :: 0 <= i < |r| ==> r[i] == Number(lo + i)
    decreases hi - lo
  {
    if lo > hi then [] else [Number(lo)] + Run(lo + 1, hi)
  }

  function LeadingGap(page: int): seq<PageEntry> {
    if page > 3 then [Ellipsis] else []
  }

  function TrailingGap(page: int, totalPages: int): seq<PageEntry> {
    if page < totalPages - 2 then [Ellipsis] else []
  }

  function WindowStart(page: int): int { Max(2, page - 1) }

  function WindowEnd(page: int, totalPages: int): int { Min(totalPages - 1, page + 1) }

  /** `getPageNumbers()`. */
  function PageNumbers(page: int, totalPages: int): seq<PageEntry> {
    if totalPages <= MaxVisible then Run(1, totalPages)
    else
      [Number(1)] + LeadingGap(page)
      + Run(WindowStart(page), WindowEnd(page, totalPages))
      + TrailingGap(page, totalPages) + [Number(totalPages)]
  }

  /** The page numbers listed in an entry sequence. */
  predicate Lists(r: seq<PageEntry>, n: int) {
    Number(n) in r
  }

  /** The numeric entries strictly increase from left to right. */
  predicate Increasing(r: seq<PageEntry>) {
    forall i, j :: 0 <= i < j < |r| && r[i].Number? && r[j].Number? ==> r[i].n < r[j].n
  }

  /**
    Adjacent numbers are consecutive pages, and an ellipsis stands between two
    numbers and hides at least one page: nothing is skipped silently and no
    ellipsis is empty.
   */
  predicate GapsMarked(r: seq<PageEntry>) {
    && (forall i :: 0 <= i < |r| - 1 && r[i].Number? && r[i + 1].Number? ==> r[i + 1].n == r[i].n + 1)
    && (forall i :: 0 <= i < |r| && r[i].Ellipsis? ==>
          0 < i < |r| - 1 && r[i - 1].Number? && r[i + 1].Number? && r[i + 1].n > r[i - 1].n + 1)
  }

  /** Up to seven pages, all of them are listed in order and no ellipsis appears. */
  lemma SmallPageCount(page: int, totalPages: int)
    requires 0 <= totalPages <= MaxVisible
    ensures var r := PageNumbers(page, totalPages);
      |r| == totalPages && forall i :: 0 <= i < |r| ==> r[i] == Number(i + 1)
  {
  }

  /** Beyond seven pages, the first entry is page 1 and the last is the last page. */
  lemma LargePageCountEnds(page: int, totalPages: int)
    requires totalPages > MaxVisible
    ensures var r := PageNumbers(page, totalPages);
      |r| >= 2 && r[0] == Number(1) && r[|r| - 1] == Number(totalPages)
  {
  }

  /** Size of the leading gap, the window and the trailing gap of the large-count layout. */
  function LeadLen(page: int): nat { if page > 3 then 1 else 0 }
  function TrailLen(page: int, totalPages: int): nat { if page < totalPages - 2 then 1 else 0 }

  /** The entry at position i of the large-count layout, stated positionally. */
  function LargeEntry(page: int, totalPages: int, i: int): PageEntry {
    var l := LeadLen(page);
    var s := WindowStart(page);
    var m := WindowEnd(page, totalPages) - s + 1;
    if i == 0 then Number(1)
    else if i <= l then Ellipsis
    else if i <= l + m then Number(s + (i - 1 - l))
    else if i <= l + m + TrailLen(page, totalPages) then Ellipsis
    else Number(totalPages)
  }

  lemma LargeLayout(page: int, totalPages: int)
    requires MaxVisible < totalPages && 1 <= page <= totalPages
    ensures var s := WindowStart(page); var e := WindowEnd(page, totalPages);
      && 2 <= s <= e <= totalPages - 1 && e - s <= 2
      && (page > 3 ==> s == page - 1 && s > 2) && (page <= 3 ==> s == 2)
      && (page < totalPages - 2 ==> e == page + 1 && e < totalPages - 1) && (page >= totalPages - 2 ==> e == totalPages - 1)
    ensures var r := PageNumbers(page, totalPages);
      && |r| == 2 + LeadLen(page) + (WindowEnd(page, totalPages) - WindowStart(page) + 1) + TrailLen(page, totalPages)
      && forall i :: 0 <= i < |r| ==> r[i] == LargeEntry(page, totalPages, i)
  {
    var r := PageNumbers(page, totalPages);
    var lead := LeadingGap(page);
    var mid := Run(WindowStart(page), WindowEnd(page, totalPages));
    var trail := TrailingGap(page, totalPages);
    assert r == [Number(1)] + lead + mid + trail + [Number(totalPages)];
    forall i | 0 <= i < |r|
      ensures r[i] == LargeEntry(page, totalPages, i)
    {
      if 0 < i <= |lead| {
        assert r[i] == lead[i - 1];
      } else if |lead| < i <= |lead| + |mid| {
        assert r[i] == mid[i - 1 - |lead|];
      } else if |lead| + |mid| < i < |r| - 1 {
        assert r[i] == trail[i - 1 - |lead| - |mid|];
      }
    }
  }

  /** For a current page in range, at most seven entries, all numbers within 1..totalPages. */
  lemma PageWindowBounded(page: int, totalPages: int)
    requires 1 <= page <= totalPages
    ensures var r := PageNumbers(page, totalPages);
      && |r| <= MaxVisible
      && (forall i :: 0 <= i < |r| && r[i].Number? ==> 1 <= r[i].n <= totalPages)
  {
    if totalPages > MaxVisible {
      LargeLayout(page, totalPages);
    }
  }

  /** For a current page in range, the numbers strictly increase from left to right. */
  lemma PageWindowIncreasing(page: int, totalPages: int)
    requires 1 <= page <= totalPages
    ensures Increasing(PageNumbers(page, totalPages))
  {
    if totalPages > MaxVisible {
      LargeLayout(page, totalPages);
    }
  }

  /** For a current page in range, the current page and its neighbours in range are listed. */
  lemma PageWindowListsNeighbours(page: int, totalPages: int)
    requires 1 <= page <= totalPages
    ensures var r := PageNumbers(page, totalPages);
      && Lists(r, page)
      && (page > 1 ==> Lists(r, page - 1))
      && (page < totalPages ==> Lists(r, page + 1))
  {
    if totalPages <= MaxVisible {
      SmallListsAll(page, totalPages);
    } else {
      LargeListsWindow(page, totalPages);
      assert Shown(page, totalPages, page);
      assert page > 1 ==> Shown(page, totalPages, page - 1);
      assert page < totalPages ==> Shown(page, totalPages, page + 1);
    }
  }

  /** Up to seven pages, every page is listed. */
  lemma SmallListsAll(page: int, totalPages: int)
    requires 0 <= totalPages <= MaxVisible
    ensures forall q :: 1 <= q <= totalPages ==> Lists(PageNumbers(page, totalPages), q)
  {
    var r := PageNumbers(page, totalPages);
    SmallPageCount(page, totalPages);
    forall q | 1 <= q <= totalPages
      ensures Lists(r, q)
    {
      assert r[q - 1] == Number(q);
    }
  }

  /** The pages the large-count layout lists: the first, the last and the window. */
  predicate Shown(page: int, totalPages: int, q: int) {
    q == 1 || q == totalPages || WindowStart(page) <= q <= WindowEnd(page, totalPages)
  }

  /** Beyond seven pages, the first and last page and every page of the window are listed. */
  lemma LargeListsWindow(page: int, totalPages: int)
    requires MaxVisible < totalPages && 1 <= page <= totalPages
    ensures forall q :: Shown(page, totalPages, q) ==> Lists(PageNumbers(page, totalPages), q)
  {
    var r := PageNumbers(page, totalPages);
    LargeLayout(page, totalPages);
    var l := LeadLen(page);
    var s := WindowStart(page);
    var e := WindowEnd(page, totalPages);
    forall q | s <= q <= e
      ensures Lists(r, q)
    {
      assert r[1 + l + (q - s)] == Number(q);
    }
    assert r[0] == Number(1);
    assert r[|r| - 1] == Number(totalPages);
  }

  /** For a current page in range, every hidden run of pages is marked by one ellipsis and no ellipsis is empty. */
  lemma PageWindowGapsMarked(page: int, totalPages: int)
    requires 1 <= page <= totalPages
    ensures GapsMarked(PageNumbers(page, totalPages))
  {
    if totalPages > MaxVisible {
      LargeLayout(page, totalPages);
    }
  }

  /**
    Beyond seven pages, a leading ellipsis appears exactly when the current
    page is past 3 and a trailing one exactly when it is before totalPages - 2.
   */
  lemma EllipsisPlacement(page: int, totalPages: int)
    requires MaxVisible < totalPages && 1 <= page <= totalPages
    ensures var r := PageNumbers(page, totalPages);
      && |r| >= 3
      && (r[1] == Ellipsis <==> page > 3)
      && (r[|r| - 2] == Ellipsis <==> page < totalPages - 2)
  {
    LargeLayout(page, totalPages);
  }
}
