/**
  The search box: a query field, a type select (`movie` at first) and a year
  field. Submitting hands a search request to the listener and retitles the
  document; clearing resets the fields and the title.
 */
module SearchBox {
  import opened Common
  import opened Strings
  import opened Payload

  /** The three fields as typed; `kind` is the type select's value. */
  datatype Form = Form(q: string, kind: string, year: string)

  const Blank := Form("", "movie", "")

  const AppName := "AnyVod"
  const TitlePrefix := "AnyVod - "

  /**
    `Number(year)` for the value of the year input: an integer for a string
    of digits, NaN for anything else; the empty field gives no year at all.
   */
  function YearNumber(year: string): (r: Option<Value>)
    ensures r.None? <==> year == ""
    ensures r.Some? ==> (r.value.Int? <==> AllDigits(year))
    ensures r.Some? && r.value.Int? ==> r.value.i >= 0
    ensures year != "" && AllDigits(year) ==> r == Some(Int(ParseDigits(year)))
  {
    if year == "" then None
    else if AllDigits(year) then Some(Int(ParseDigits(year)))
    else Some(NaN)
  }

  /** A year written in decimal reads back as that number. */
  lemma YearRoundTrip(n: nat)
    ensures YearNumber(NatToString(n)) == Some(Int(n))
  {
  }

  /** The document title for a query: the app name and the query with its first character upper-cased. */
  function SearchTitle(query: string): (r: string)
    ensures |r| == |TitlePrefix| + |query|
    ensures r[..|TitlePrefix|] == TitlePrefix
    ensures query != [] ==> r[|TitlePrefix|] == UpperChar(query[0]) && r[|TitlePrefix| + 1..] == query[1..]
  {
    if query == [] then TitlePrefix
    else TitlePrefix + [UpperChar(query[0])] + query[1..]
  }

  /** What a submit does: nothing for a blank query, else a request and a new title. */
  datatype Submission = Ignored | Submitted(payload: SearchPayload, title: string)

  function Submit(f: Form): (r: Submission)
    ensures r.Ignored? <==> Trim(f.q) == ""
    ensures r.Submitted? ==> r.payload.query == Trim(f.q) && r.title == SearchTitle(Trim(f.q))
    ensures r.Submitted? ==> r.payload.filters == Some(Filters(Some(Str(f.kind)), YearNumber(f.year), None, None, None))
  {
    var query := Trim(f.q);
    if query == "" then Ignored
    else Submitted(SearchPayload(query, Some(Filters(Some(Str(f.kind)), YearNumber(f.year), None, None, None))), SearchTitle(query))
  }

  /** Submitting the query that was sent gives the same request again. */
  lemma SubmitIdempotent(f: Form)
    requires Submit(f).Submitted?
    ensures Submit(f.(q := Submit(f).payload.query)) == Submit(f)
  {
    TrimIdempotent(f.q);
  }

  /** The state a clear leaves: blank fields and the bare app title; the listener is then notified. */
  datatype Cleared = Cleared(form: Form, title: string)

  function Clear(f: Form): (r: Cleared)
    ensures r.form.q == "" && r.form.year == "" && r.form.kind == "movie"
    ensures r.title == AppName
  {
    Cleared(Blank, AppName)
  }

  /** After a clear a submit does nothing, until a query is typed again. */
  lemma SubmitAfterClear(f: Form)
    ensures Submit(Clear(f).form).Ignored?
  {
  }
}
