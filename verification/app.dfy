/**
  The classic list view: the popular list or the results of a search, with
  a page counter. Its state, the parameters of the search request, and how
  a search, a popular fetch, the page buttons and a clear change the state.
  The page counter also drives a fetch of the popular list whenever it
  changes, whether or not a search is showing.
 */
module App {
  import opened Common
  import opened Strings
  import opened Dict
  import opened Routes
  import opened Payload
  import SearchBox
  import opened SearchResults

  datatype AppState = AppState(movies: seq<Item>, page: int, query: string, isSearch: bool)

  const Start := AppState([], 1, "", false)

  /** How a request to the backend ended: its `results` field, or an error. */
  datatype Fetched = Fetched(results: Option<seq<Item>>) | FetchFailed

  // ---------------------------------------------------------------------------
  // Page buttons

  /** Prev: one page back, never below page 1. */
  function Prev(s: AppState): (r: AppState)
    ensures r.page >= 1
    ensures s.page > 1 ==> r.page == s.page - 1
    ensures s.page <= 1 ==> r.page == 1
    ensures r == s.(page := r.page)
  {
    s.(page := Max(1, s.page - 1))
  }

  /** Next: one page on, with no upper bound. */
  function Next(s: AppState): (r: AppState)
    ensures r.page == s.page + 1 && r == s.(page := r.page)
  {
    s.(page := s.page + 1)
  }

  /** Prev undoes Next, and Next undoes Prev away from the first page. */
  lemma PrevNextInverse(s: AppState)
    ensures s.page >= 1 ==> Prev(Next(s)) == s
    ensures s.page >= 2 ==> Next(Prev(s)) == s
  {
  }

  /** The page counter changed, so the popular list of the new page is fetched. */
  predicate PageEffectFires(before: AppState, after: AppState) {
    before.page != after.page
  }

  // ---------------------------------------------------------------------------
  // Fetching

  /** The parameters of `GET /tmdb/popular`. */
  function PopularParams(p: int): (r: Dict<Value>)
    ensures Lookup(r, "page") == Some(Int(p)) && |r| == 1
  {
    [("page", Int(p))]
  }

  /** A popular fetch shows its results, or an empty list when they are missing; a failure changes nothing. */
  function FetchPopular(s: AppState, response: Fetched): (r: AppState)
    ensures response.FetchFailed? ==> r == s
    ensures response.Fetched? ==> r == s.(movies := response.results.GetOr([]))
  {
    match response
    case Fetched(results) => s.(movies := results.GetOr([]))
    case FetchFailed => s
  }

  /** The parameters of `GET /tmdb/search`: query and page, then type and year when truthy. */
  function SearchParams(payload: SearchPayload, p: int): (r: Dict<Value>)
    ensures DistinctKeys(r)
    ensures Lookup(r, "query") == Some(Str(payload.query))
    ensures Lookup(r, "page") == Some(Int(p))
    ensures Lookup(r, "type") == Forwarded(payload.filters, TypeField)
    ensures Lookup(r, "year") == Forwarded(payload.filters, YearField)
    ensures forall k :: k !in {"query", "page", "type", "year"} ==> Lookup(r, k) == None
  {
    var d0: Dict<Value> := [("query", Str(payload.query)), ("page", Int(p))];
    assert d0[1..] == [("page", Int(p))];
    assert DistinctKeys(d0);
    assert Lookup(d0, "page") == Some(Int(p));
    var t := Forwarded(payload.filters, TypeField);
    var y := Forwarded(payload.filters, YearField);
    var d1 := if t.Some? then Put(d0, "type", t.value) else d0;
    var d2 := if y.Some? then Put(d1, "year", y.value) else d1;
    forall k | k != "type" ensures Lookup(d1, k) == Lookup(d0, k) {
      if t.Some? { PutKeepsOthers(d0, "type", t.value, k); }
    }
    forall k | k != "year" ensures Lookup(d2, k) == Lookup(d1, k) {
      if y.Some? { PutKeepsOthers(d1, "year", y.value, k); }
    }
    assert Lookup(d0, "type") == None by { assert Lookup(d0[1..], "type") == None; }
    assert Lookup(d0, "year") == None by { assert Lookup(d0[1..], "year") == None; }
    forall k | k !in {"query", "page", "type", "year"} ensures Lookup(d0, k) == None {
      assert Lookup(d0[1..], k) == None;
    }
    d2
  }

  /**
    A search: the query is shown and search mode is on before the request
    goes out, so they hold even when it fails; a successful response replaces
    the list (empty when results are missing) and moves the counter to p.
   */
  function DoSearch(s: AppState, payload: SearchPayload, p: int, response: Fetched): (r: AppState)
    ensures r.isSearch && r.query == payload.query
    ensures response.FetchFailed? ==> r.movies == s.movies && r.page == s.page
    ensures response.Fetched? ==> r.movies == response.results.GetOr([]) && r.page == p
  {
    var shown := s.(isSearch := true, query := payload.query);
    match response
    case Fetched(results) => shown.(movies := results.GetOr([]), page := p)
    case FetchFailed => shown
  }

  /** The counter after a successful search is the page that was requested. */
  lemma SearchPageRequested(s: AppState, payload: SearchPayload, p: int, results: Option<seq<Item>>)
    ensures Lookup(SearchParams(payload, p), "page") == Some(Int(DoSearch(s, payload, p, Fetched(results)).page))
  {
  }

  /**
    A search that moves the counter also sets off the popular fetch for the
    new page; if that response lands last it replaces the search results
    while search mode stays on.
   */
  lemma SearchThenPageEffect(s: AppState, payload: SearchPayload, p: int, results: seq<Item>, popular: seq<Item>)
    requires s.page != p
    ensures var searched := DoSearch(s, payload, p, Fetched(Some(results)));
      PageEffectFires(s, searched)
      && FetchPopular(searched, Fetched(Some(popular))).movies == popular
      && FetchPopular(searched, Fetched(Some(popular))).isSearch
  {
  }

  /** Clear: search mode off, query blank, counter back to 1; the popular list of page 1 is then fetched. */
  function Clear(s: AppState): (r: AppState)
    ensures !r.isSearch && r.query == "" && r.page == 1
    ensures r.movies == s.movies
  {
    s.(isSearch := false, query := "", page := 1)
  }

  /** A clear followed by its page-1 fetch ends in the start state with the popular list shown. */
  lemma ClearThenFetch(s: AppState, popular: Option<seq<Item>>)
    ensures FetchPopular(Clear(s), Fetched(popular)) == Start.(movies := popular.GetOr([]))
  {
  }

  // ---------------------------------------------------------------------------
  // From the search box

  /**
    A submitted search box reaches the backend with the trimmed query, the
    selected type when it is not empty, and the year only when it is a
    non-zero number.
   */
  lemma SubmittedSearchParams(f: SearchBox.Form, p: int)
    requires SearchBox.Submit(f).Submitted?
    ensures var params := SearchParams(SearchBox.Submit(f).payload, p);
      Lookup(params, "query") == Some(Str(Trim(f.q)))
      && Lookup(params, "type") == (if f.kind != "" then Some(Str(f.kind)) else None)
      && (Lookup(params, "year").Some? <==> AllDigits(f.year) && f.year != "" && ParseDigits(f.year) != 0)
  {
  }
}
