/**
  The backend's metadata proxy: every endpoint makes one GET request to the
  metadata API with the server's API key added to its parameters, and passes
  the JSON body through. The search endpoint picks the upstream path from
  the requested type, and for TV searches with a year filters the results by
  first-air date itself.

  The HTTP client is a parameter (`fetch`): the model says which request is
  made and what is done with the answer, not how the answer is obtained.
 */
module Tmdb {
  import opened Common
  import opened Strings
  import opened Dict

  const TmdbBase := "https://api.themoviedb.org/3"

  /** A JSON document; objects keep their key order. */
  datatype Json =
    | Null
    | Bool(b: bool)
    | Num(n: int)
    | Text(s: string)
    | Array(items: seq<Json>)
    | Object(fields: Dict<Json>)

  /** A GET request: URL and query parameters. */
  datatype Request = Request(url: string, params: Dict<Value>)

  /** What the metadata API answered; `body` is None when the body is not JSON. */
  datatype Answer = Answer(status: int, body: Option<Json>, text: string)

  /**
    Why an endpoint fails: the API key is not configured (a server error),
    the upstream status is passed on with its body text as detail, or the
    answer does not have the shape the code reads (a server error).
   */
  datatype TmdbError =
    | MissingApiKey
    | UpstreamStatus(status: int, detail: string)
    | Malformed

  /** The request `tmdb_get` sends: the caller's parameters plus `api_key`. */
  function RequestFor(apiKey: string, path: string, params: Option<Dict<Value>>): (req: Request)
    ensures TmdbBase <= req.url && req.url[|TmdbBase|..] == path
    ensures Lookup(req.params, "api_key") == Some(Str(apiKey))
    ensures params.Some? && DistinctKeys(params.value) ==> DistinctKeys(req.params)
    ensures params.None? ==> req.params == [("api_key", Str(apiKey))]
  {
    Request(TmdbBase + path, Put(params.GetOr([]), "api_key", Str(apiKey)))
  }

  /** Parameters other than `api_key` reach the upstream request unchanged. */
  lemma RequestKeepsParams(apiKey: string, path: string, params: Dict<Value>, k: string)
    requires k != "api_key"
    ensures Lookup(RequestFor(apiKey, path, Some(params)).params, k) == Lookup(params, k)
  {
    PutKeepsOthers(params, "api_key", Str(apiKey), k);
  }

  /** `tmdb_get`: fails without an API key, passes a non-200 status on, returns the JSON body. */
  function TmdbGet(apiKey: Option<string>, path: string, params: Option<Dict<Value>>,
                   fetch: Request -> Answer): (r: Result<Json, TmdbError>)
    ensures !Present(apiKey) ==> r == Failure(MissingApiKey)
    ensures Present(apiKey) ==>
      var a := fetch(RequestFor(apiKey.value, path, params));
      && (a.status != 200 ==> r == Failure(UpstreamStatus(a.status, a.text)))
      && (a.status == 200 && a.body.Some? ==> r == Success(a.body.value))
      && (a.status == 200 && a.body.None? ==> r == Failure(Malformed))
  {
    if !Present(apiKey) then Failure(MissingApiKey)
    else
      var a := fetch(RequestFor(apiKey.value, path, params));
      if a.status != 200 then Failure(UpstreamStatus(a.status, a.text))
      else if a.body.None? then Failure(Malformed)
      else Success(a.body.value)
  }

  /** Without an API key no request is made: the outcome does not depend on the client. */
  lemma NoKeyNoRequest(path: string, params: Option<Dict<Value>>, f1: Request -> Answer, f2: Request -> Answer)
    ensures TmdbGet(None, path, params, f1) == TmdbGet(None, path, params, f2)
    ensures TmdbGet(Some(""), path, params, f1) == TmdbGet(Some(""), path, params, f2)
  {
  }

  // ---------------------------------------------------------------------------
  // Endpoints

  /** An upstream call: the path below the API base and the caller's parameters. */
  datatype Call = Call(path: string, params: Option<Dict<Value>>)

  function Run(apiKey: Option<string>, c: Call, fetch: Request -> Answer): Result<Json, TmdbError> {
    TmdbGet(apiKey, c.path, c.params, fetch)
  }

  /** `GET /popular?page=`. */
  function PopularCall(page: int): (c: Call)
    ensures c.path == "/movie/popular"
    ensures c.params.Some? && Lookup(c.params.value, "page") == Some(Int(page)) && |c.params.value| == 1
  {
    Call("/movie/popular", Some([("page", Int(page))]))
  }

  /** The popular list reaches the API as `/movie/popular` with the page and then the key, nothing else. */
  lemma PopularRequest(apiKey: string, page: int)
    ensures var c := PopularCall(page);
      RequestFor(apiKey, c.path, c.params) == Request(TmdbBase + "/movie/popular", [("page", Int(page)), ("api_key", Str(apiKey))])
  {
    var c := PopularCall(page);
    var req := RequestFor(apiKey, c.path, c.params);
    assert req.url[|TmdbBase|..] == "/movie/popular";
    assert req.url == TmdbBase + "/movie/popular";
  }

  /** `GET /movie/{movie_id}`: no parameters besides the key. */
  function MovieDetailsCall(movieId: int): (c: Call)
    ensures c.params.None?
    ensures "/movie/" <= c.path && c.path[|"/movie/"|..] == IntToString(movieId)
  {
    Call("/movie/" + IntToString(movieId), None)
  }

  /** `GET /image_base`: the metadata API's configuration, with no parameters. */
  function ImageBaseCall(): (c: Call)
    ensures c.path == "/configuration" && c.params.None?
  {
    Call("/configuration", None)
  }

  /** How a search is served: one upstream call, then optionally a first-air-year filter. */
  datatype SearchPlan = SearchPlan(call: Call, yearFilter: Option<int>)

  /** A year parameter is truthy when given and not zero. */
  predicate YearGiven(year: Option<int>) {
    year.Some? && year.value != 0
  }

  /**
    `GET /search`: `/search/movie` (with `year` when given) for type movie,
    `/search/tv` for type tv (filtering by year afterwards when given),
    `/search/multi` otherwise; query and page are always forwarded.
   */
  function PlanSearch(query: string, page: int, kind: Option<string>, year: Option<int>): (p: SearchPlan)
    ensures p.call.path == (if kind == Some("movie") then "/search/movie"
                            else if kind == Some("tv") then "/search/tv"
                            else "/search/multi")
    ensures p.call.params.Some?
    ensures Lookup(p.call.params.value, "query") == Some(Str(query))
    ensures Lookup(p.call.params.value, "page") == Some(Int(page))
    ensures Lookup(p.call.params.value, "year") ==
      (if kind == Some("movie") && YearGiven(year) then Some(Int(year.value)) else None)
    ensures p.yearFilter == (if kind == Some("tv") && YearGiven(year) then year else None)
    ensures DistinctKeys(p.call.params.value)
  {
    var params: Dict<Value> := [("query", Str(query)), ("page", Int(page))];
    assert Lookup(params, "year") == None by {
      assert "query" != "year" && "page" != "year";
      assert params[1..] == [("page", Int(page))];
      assert params[1..][1..] == [];
      assert Lookup(params[1..][1..], "year") == None;
    }
    if kind == Some("movie") then
      var withYear := PutIf(params, YearGiven(year), "year", Int(year.GetOr(0)));
      assert YearGiven(year) ==> Lookup(withYear, "query") == Some(Str(query)) by {
        if YearGiven(year) { PutKeepsOthers(params, "year", Int(year.value), "query"); }
      }
      assert YearGiven(year) ==> Lookup(withYear, "page") == Some(Int(page)) by {
        if YearGiven(year) { PutKeepsOthers(params, "year", Int(year.value), "page"); }
      }
      SearchPlan(Call("/search/movie", Some(withYear)), None)
    else if kind == Some("tv") then
      SearchPlan(Call("/search/tv", Some(params)), if YearGiven(year) then year else None)
    else
      SearchPlan(Call("/search/multi", Some(params)), None)
  }

  // ---------------------------------------------------------------------------
  // First-air-year filter

  /** `r.get('first_air_date', '')` as a string, or None when that raises or is not a string. */
  function DateOf(item: Json): Option<string> {
    match item
    case Object(fields) =>
      var date: Option<Json> := Lookup(fields, "first_air_date");
      (match date
       case None => Some("")
       case Some(Text(s)) => Some(s)
       case Some(_) => None)
    case _ => None
  }

  /** The item's first-air date starts with the year's decimal form. */
  predicate AiredIn(item: Json, prefix: string)
    requires DateOf(item).Some?
  {
    prefix <= DateOf(item).value
  }

  predicate WellFormed(items: seq<Json>) {
    forall i :: 0 <= i < |items| ==> DateOf(items[i]).Some?
  }

  /** xs is xs with some elements left out, order kept. */
  predicate Subsequence(xs: seq<Json>, ys: seq<Json>) {
    if |xs| == 0 then true
    else if |ys| == 0 then false
    else if xs[0] == ys[0] then Subsequence(xs[1..], ys[1..])
    else Subsequence(xs, ys[1..])
  }

  /** The list comprehension: keeps the items aired in the year; fails on the first unreadable item. */
  function KeepAired(items: seq<Json>, prefix: string): (r: Result<seq<Json>, TmdbError>)
    ensures r.Success? <==> WellFormed(items)
    ensures r.Failure? ==> r.error == Malformed
    ensures r.Success? ==> Subsequence(r.value, items)
    ensures r.Success? ==> forall x :: x in r.value ==> DateOf(x).Some? && AiredIn(x, prefix)
    ensures r.Success? ==> forall i :: 0 <= i < |items| && AiredIn(items[i], prefix) ==> items[i] in r.value
    decreases |items|
  {
    if |items| == 0 then Success([])
    else if DateOf(items[0]).None? then Failure(Malformed)
    else
      match KeepAired(items[1..], prefix)
      case Failure(e) =>
        assert !DateOf(items[1..][FirstBad(items[1..])]).Some?;
        Failure(e)
      case Success(rest) =>
        assert forall i :: 1 <= i < |items| ==> items[i] == items[1..][i - 1];
        if AiredIn(items[0], prefix) then Success([items[0]] + rest)
        else Success(rest)
  }

  /** The filter keeps every aired item as often as it occurs, and drops every other item. */
  lemma {:induction false} KeepAiredCounts(items: seq<Json>, prefix: string)
    requires WellFormed(items)
    ensures forall x ::
      multiset(KeepAired(items, prefix).value)[x] == (if x in items && AiredIn(x, prefix) then multiset(items)[x] else 0)
    decreases |items|
  {
    if |items| > 0 {
      var tail := items[1..];
      assert WellFormed(tail) by {
        forall i | 0 <= i < |tail| ensures DateOf(tail[i]).Some? { assert tail[i] == items[i + 1]; }
      }
      KeepAiredCounts(tail, prefix);
      var rest := KeepAired(tail, prefix).value;
      assert items == [items[0]] + tail;
      assert multiset(items) == multiset{items[0]} + multiset(tail);
      if AiredIn(items[0], prefix) {
        assert KeepAired(items, prefix).value == [items[0]] + rest;
        assert multiset([items[0]] + rest) == multiset{items[0]} + multiset(rest);
      } else {
        assert KeepAired(items, prefix).value == rest;
      }
      forall x
        ensures multiset(KeepAired(items, prefix).value)[x] == (if x in items && AiredIn(x, prefix) then multiset(items)[x] else 0)
      {
        if x != items[0] {
          assert x in items <==> x in tail;
        }
      }
    }
  }

  /** The position of an unreadable item, when there is one. */
  function FirstBad(items: seq<Json>): (i: nat)
    requires !WellFormed(items)
    ensures i < |items| && DateOf(items[i]).None?
  {
    if DateOf(items[0]).None? then 0
    else
      assert !WellFormed(items[1..]) by {
        var j :| 0 <= j < |items| && DateOf(items[j]).None?;
        assert items[1..][j - 1] == items[j];
      }
      1 + FirstBad(items[1..])
  }

  /** `results.get('results', [])` iterated: a list, or an empty object or string; anything else raises. */
  function ResultItems(v: Option<Json>): Option<seq<Json>> {
    match v
    case None => Some([])
    case Some(Array(items)) => Some(items)
    case Some(Object(fields)) => if |fields| == 0 then Some([]) else None
    case Some(Text(s)) => if |s| == 0 then Some([]) else None
    case Some(_) => None
  }

  /** Replaces `results` by the items aired in `year`; the body must be an object. */
  function FilterByYear(body: Json, year: int): (r: Result<Json, TmdbError>)
    ensures r.Failure? ==> r.error == Malformed
    ensures r.Success? <==>
      body.Object? && ResultItems(Lookup(body.fields, "results")).Some?
      && WellFormed(ResultItems(Lookup(body.fields, "results")).value)
    ensures r.Success? ==> r.value.Object?
    ensures r.Success? ==>
      Lookup(r.value.fields, "results")
        == Some(Array(KeepAired(ResultItems(Lookup(body.fields, "results")).value, IntToString(year)).value))
  {
    match body
    case Object(fields) =>
      var results: Option<Json> := Lookup(fields, "results");
      (match ResultItems(results)
       case None => Failure(Malformed)
       case Some(items) =>
         match KeepAired(items, IntToString(year))
         case Failure(e) => Failure(e)
         case Success(kept) => Success(Object(Put(fields, "results", Array(kept)))))
    case _ => Failure(Malformed)
  }

  /** The filter touches nothing but `results`, and keeps the key order. */
  lemma FilterKeepsOtherFields(fields: Dict<Json>, year: int, k: string)
    requires k != "results"
    requires FilterByYear(Object(fields), year).Success?
    ensures Lookup(FilterByYear(Object(fields), year).value.fields, k) == Lookup(fields, k)
    ensures "results" in Keys(fields) ==> Keys(FilterByYear(Object(fields), year).value.fields) == Keys(fields)
  {
    var items := ResultItems(Lookup(fields, "results")).value;
    var kept := KeepAired(items, IntToString(year)).value;
    PutKeepsOthers(fields, "results", Array(kept), k);
  }

  /** `GET /search`: the planned call, then the year filter if the plan has one. */
  function Search(apiKey: Option<string>, query: string, page: int, kind: Option<string>, year: Option<int>,
                  fetch: Request -> Answer): (r: Result<Json, TmdbError>)
    ensures var p := PlanSearch(query, page, kind, year);
      && (p.yearFilter.None? ==> r == Run(apiKey, p.call, fetch))
      && (p.yearFilter.Some? && Run(apiKey, p.call, fetch).Failure? ==> r == Run(apiKey, p.call, fetch))
      && (p.yearFilter.Some? && Run(apiKey, p.call, fetch).Success? ==>
            r == FilterByYear(Run(apiKey, p.call, fetch).value, p.yearFilter.value))
    // Every search but a TV search with a year is the planned call's answer, untouched.
    ensures !(kind == Some("tv") && YearGiven(year)) ==>
      r == Run(apiKey, PlanSearch(query, page, kind, year).call, fetch)
    // An upstream failure always reaches the caller.
    ensures Run(apiKey, PlanSearch(query, page, kind, year).call, fetch).Failure? ==>
      r == Run(apiKey, PlanSearch(query, page, kind, year).call, fetch)
    // A TV search with a year answers with the upstream results that aired in that year.
    ensures kind == Some("tv") && YearGiven(year) && r.Success? ==>
      && Run(apiKey, PlanSearch(query, page, kind, year).call, fetch).Success?
      && Run(apiKey, PlanSearch(query, page, kind, year).call, fetch).value.Object?
      && r.value.Object?
      && Lookup(r.value.fields, "results") == Some(Array(KeepAired(
           ResultItems(Lookup(Run(apiKey, PlanSearch(query, page, kind, year).call, fetch).value.fields, "results")).value,
           IntToString(year.value)).value))
  {
    var p := PlanSearch(query, page, kind, year);
    var res := Run(apiKey, p.call, fetch);
    match p.yearFilter
    case None => res
    case Some(y) => if res.Failure? then res else FilterByYear(res.value, y)
  }

  /**
    A TV search with a year answers with the upstream `/search/tv` body whose
    results are exactly the upstream results that first aired in that year,
    in their upstream order.
   */
  lemma {:induction false} TvYearSearchFilters(apiKey: Option<string>, query: string, page: int, year: int, fetch: Request -> Answer)
    requires year != 0
    ensures PlanSearch(query, page, Some("tv"), Some(year)).call.path == "/search/tv"
    ensures Search(apiKey, query, page, Some("tv"), Some(year), fetch).Success? ==>
      var call := PlanSearch(query, page, Some("tv"), Some(year)).call;
      var up := Run(apiKey, call, fetch);
      var r := Search(apiKey, query, page, Some("tv"), Some(year), fetch).value;
      && up.Success? && up.value.Object? && r.Object?
      && ResultItems(Lookup(up.value.fields, "results")).Some?
      && var items := ResultItems(Lookup(up.value.fields, "results")).value;
         && Lookup(r.fields, "results").Some? && Lookup(r.fields, "results").value.Array?
         && var kept := Lookup(r.fields, "results").value.items;
            && Subsequence(kept, items)
            && (forall x :: x in kept ==> DateOf(x).Some? && AiredIn(x, IntToString(year)))
            && (forall x :: x in items ==>
                  DateOf(x).Some? && multiset(kept)[x] == (if AiredIn(x, IntToString(year)) then multiset(items)[x] else 0))
  {
    if Search(apiKey, query, page, Some("tv"), Some(year), fetch).Success? {
      var call := PlanSearch(query, page, Some("tv"), Some(year)).call;
      var up := Run(apiKey, call, fetch);
      var items := ResultItems(Lookup(up.value.fields, "results")).value;
      var k := KeepAired(items, IntToString(year));
      assert k.Success?;
      KeepAiredCounts(items, IntToString(year));
    }
  }
}
