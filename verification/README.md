# AnyVod core in Dafny

AnyVod is a video-on-demand front end over a small backend. The backend
proxies the TMDB metadata API (`/tmdb/...`) and builds vidsrc player embed
URLs (`/vidsrc/embed/...`). The React front end shows a home page with a
random hero banner and category rows, a search box and its results grid with
a pager, title pages (trailer, seasons, cast, similar titles), lazily loaded
TMDB images and schema.org structured data.

This project models the decision logic of that core as pure functions over
immutable datatypes, one module per source component:

- `Routes`: API result rows and the route strings the views navigate to,
  with a route parser as partner.
- `SearchResults`, `SearchBox`, `App`: the search flow, from the search box
  to the request parameters, the response defaults, the card routes and the
  page window.
- `Vidsrc`: `build_embed_url` and the two embed endpoints. A query-string
  reader is the partner of the query builder.
- `Tmdb`: `tmdb_get`, the popular, details and search endpoints, and the
  client-side year filter of TV searches, with every Python failure as an
  error value.
- `Cors`: the allowed-origin list and the Render origin regex.
- `OptimizedImage`: image URLs, the `srcset` and the load/view/error state
  machine of the lazy image.
- `VideoSchema`: the JSON-LD object. An ISO 8601 duration reader is the
  partner of the duration writer.
- `MoviePage`, `Home`, `CategoryRow`: the title page, the hero banner and a
  category row.
- Shared helpers: `Common` (option, result, JavaScript/Python scalar values
  and their truthiness), `Strings`, `Dict` (insertion-ordered dictionaries).

The model replaces I/O with inputs:

- An HTTP call is a `fetch` function parameter, or a `Fetched`/`Answer`
  value.
- An environment variable is an `Option<string>` (None when unset).
- `Math.random()` is a real `u` in [0, 1).
- `new Date().toISOString()` is a `nowIso` string.
- A navigation or a document-title change is a returned string.

Absent and empty strings are both falsy in the views, as in JavaScript.

Two things the proofs show about the code as written:

- The `origins = ["*"]` fallback in `main.py` can never run, because the
  production origin is always appended first (`Cors.NeverWildcard`).
- In `build_embed_url`, the `tmdb=`/`imdb=` query entries can never be
  written, because the query form is only reached when both ids are falsy
  (`Vidsrc.TargetOf`).

## Model

| member | source | states |
|---|---|---|
| Routes.KindOf | frontend/src/components/SearchResults.jsx:55-64 | reading a route segment gives back exactly the kind whose name it is, and nothing for any other segment |
| Routes.ParsePathComplete | frontend/src/components/SearchResults.jsx:55-64 | every `/{kind}/{id}` route the views build parses back to its kind and id |
| Routes.ParsePathSound | frontend/src/components/SearchResults.jsx:55-64 | only built routes parse: a route that parses is the one built from its kind and id |
| Routes.PathInjective | frontend/src/components/SearchResults.jsx:55-64 | two titles of different kind or id never share a route |
| SearchResults.RequestParams | frontend/src/components/SearchResults.jsx:30-39 | query and page always; type, year and genre copied, sortBy sent as sort_by and minRating as min_rating, each exactly when the filter value is truthy; no other key; no key twice |
| SearchResults.ApplyResponse | frontend/src/components/SearchResults.jsx:44-46 | results default to the empty list, a missing or zero total_pages to 1, a missing total_results to 0; present values are kept |
| SearchResults.CardRoute | frontend/src/components/SearchResults.jsx:52-66 | the route names the item's id; it is a person route iff the row is a person or the search was for people; otherwise a TV route iff the row says tv, or has a first-air date and no release date |
| SearchResults.PrevNextStayInRange | frontend/src/components/SearchResults.jsx:68-76 | from a page in 1..totalPages both buttons stay in range; Prev stays put only on page 1 and Next only on the last page; away from the edges each undoes the other |
| SearchResults.SmallPageCount | frontend/src/components/SearchResults.jsx:88-91 | with at most 7 pages the pager lists every page 1..totalPages in order and no ellipsis |
| SearchResults.LargePageCountEnds | frontend/src/components/SearchResults.jsx:93-114 | with more than 7 pages the pager starts with page 1 and ends with the last page |
| SearchResults.LargeLayout | frontend/src/components/SearchResults.jsx:93-114 | with more than 7 pages the pager is: 1, an ellipsis when page > 3, the pages from max(2, page-1) to min(last-1, page+1), an ellipsis when page < last-2, then the last page |
| SearchResults.PageWindowBounded | frontend/src/components/SearchResults.jsx:84-117 | the pager shows at most 7 entries and every number in it is a page between 1 and totalPages |
| SearchResults.PageWindowIncreasing | frontend/src/components/SearchResults.jsx:84-117 | the page numbers shown are strictly increasing |
| SearchResults.PageWindowListsNeighbours | frontend/src/components/SearchResults.jsx:101-106 | the first page, the last page, the current page and its in-range neighbours are always listed |
| SearchResults.PageWindowGapsMarked | frontend/src/components/SearchResults.jsx:96-110 | two adjacent numbers are consecutive pages, and an ellipsis always sits between two numbers and hides at least one page |
| SearchResults.EllipsisPlacement | frontend/src/components/SearchResults.jsx:96-110 | with more than 7 pages there is a leading ellipsis iff page > 3 and a trailing one iff page < totalPages - 2 |
| SearchBox.YearNumber | frontend/src/components/Search.jsx:15 | an empty year field sends no year; a string of digits is sent as that number; any other text is sent as NaN |
| SearchBox.YearRoundTrip | frontend/src/components/Search.jsx:15 | a year written in decimal is read back as the same number |
| SearchBox.SearchTitle | frontend/src/components/Search.jsx:13 | the title is "AnyVod - " followed by the query with only its first character upper-cased |
| SearchBox.Submit | frontend/src/components/Search.jsx:8-16 | a submit is ignored iff the trimmed query is empty; otherwise it sends the trimmed query with the selected type and the year number, and sets the title for the trimmed query |
| SearchBox.SubmitIdempotent | frontend/src/components/Search.jsx:10-15 | submitting the query that was sent produces the same request and title again |
| SearchBox.Clear | frontend/src/components/Search.jsx:18-24 | clearing empties the query and year, resets the type to movie and restores the bare app title |
| SearchBox.SubmitAfterClear | frontend/src/components/Search.jsx:4-24 | right after a clear a submit does nothing |
| App.Prev | frontend/src/App.jsx:62 | Prev moves one page back but never below 1, and changes nothing else |
| App.Next | frontend/src/App.jsx:64 | Next moves one page on, with no upper bound, and changes nothing else |
| App.PrevNextInverse | frontend/src/App.jsx:62-64 | Prev undoes Next from any page, and Next undoes Prev from page 2 on |
| App.PopularParams | frontend/src/App.jsx:23 | the popular request carries exactly one parameter, the page |
| App.FetchPopular | frontend/src/App.jsx:21-29 | a successful popular fetch shows its results, or an empty list when they are missing; a failed fetch changes nothing |
| App.SearchParams | frontend/src/App.jsx:36-40 | the classic search sends query and page, type and year only when truthy, and no other key |
| App.DoSearch | frontend/src/App.jsx:31-48 | search mode and the query are set even when the request fails; a successful search shows its results and moves to the requested page |
| App.SearchPageRequested | frontend/src/App.jsx:36-43 | after a successful search the page counter equals the page that was requested |
| App.SearchThenPageEffect | frontend/src/App.jsx:17-43 | a search that changes the page also fires the popular fetch, whose results can replace the search results while search mode stays on |
| App.Clear | frontend/src/App.jsx:57 | clearing leaves search mode, blanks the query and goes back to page 1 |
| App.ClearThenFetch | frontend/src/App.jsx:57 | a clear followed by its page-1 popular fetch ends in the start state showing the popular list |
| App.SubmittedSearchParams | frontend/src/App.jsx:36-40 | a submitted search box reaches the backend with the trimmed query, the type when it is non-empty, and a year iff the field holds a non-zero number |
| Vidsrc.QueryPairs | backend/app/routers/vidsrc.py:26-38 | each query key carries its option's value exactly when that option is truthy (ids, language, subtitles) or not None (autoplay, autonext); keys appear in emission order |
| Vidsrc.TargetOf | backend/app/routers/vidsrc.py:19-46 | a truthy tmdb id wins over imdb; the query form is used only without either id and never holds a tmdb or imdb entry; the episode suffix is added iff the kind is tv, season and episode are given and an id is present |
| Vidsrc.BuildMatchesTarget | backend/app/routers/vidsrc.py:15-48 | the URL builder equals the rendering of the target just described |
| Vidsrc.UrlStartsWithBase | backend/app/routers/vidsrc.py:17 | every embed URL starts with `https://{domain}/embed/{kind}` |
| Vidsrc.IdFormIgnoresQueryOptions | backend/app/routers/vidsrc.py:20-23 | once an id is present, language, subtitles, autoplay and autonext have no effect on the URL |
| Vidsrc.EpisodeNeedsTvAndId | backend/app/routers/vidsrc.py:42-46 | for a movie, or without an id, season and episode have no effect on the URL |
| Vidsrc.QueryIgnoresEpisode | backend/app/routers/vidsrc.py:26-38 | the query entries never depend on season or episode |
| Vidsrc.TvEpisodeForm | backend/app/routers/vidsrc.py:43-46 | a tv URL with an id, season and episode is `{base}/{id}/{season}-{episode}` |
| Vidsrc.QueryRoundTrip | backend/app/routers/vidsrc.py:26-40 | splitting the query string on `&` and `=` gives back every key and value in order, provided no value contains `&` |
| Vidsrc.EmbedMovie | backend/app/routers/vidsrc.py:51-55 | the movie endpoint renders the movie target and never adds an episode suffix or an autonext entry |
| Vidsrc.EmbedTv | backend/app/routers/vidsrc.py:58-61 | the tv endpoint renders the tv target of all its options |
| Tmdb.RequestFor | backend/app/routers/tmdb/Tmdb.py:16-21 | the URL is the API base followed by the path; api_key is always set to the key; without params api_key is the only parameter |
| Tmdb.RequestKeepsParams | backend/app/routers/tmdb/Tmdb.py:20 | every caller parameter other than api_key reaches the request unchanged |
| Tmdb.TmdbGet | backend/app/routers/tmdb/Tmdb.py:15-25 | a missing or empty key fails before any request; a non-200 status fails with that status and text; a 200 answer yields its JSON body, and an unreadable body fails |
| Tmdb.NoKeyNoRequest | backend/app/routers/tmdb/Tmdb.py:18-19 | without a key the outcome does not depend on the HTTP client at all |
| Tmdb.PopularCall | backend/app/routers/tmdb/Tmdb.py:28-30 | the popular endpoint asks for `/movie/popular` with only the page |
| Tmdb.PopularRequest | backend/app/routers/tmdb/Tmdb.py:28-30 | the popular request goes to the API base plus `/movie/popular` with the page and then the key |
| Tmdb.MovieDetailsCall | backend/app/routers/tmdb/Tmdb.py:33-35 | the details endpoint asks for `/movie/{id}` with no parameters |
| Tmdb.PlanSearch | backend/app/routers/tmdb/Tmdb.py:41-64 | type movie searches `/search/movie`, type tv `/search/tv`, anything else `/search/multi`; a truthy year is sent only for movies, and for tv it becomes the client-side filter |
| Tmdb.KeepAired | backend/app/routers/tmdb/Tmdb.py:58 | the filter fails iff some item is not an object or has a first-air date that is not text; otherwise it keeps, in order, exactly the items whose date starts with the year |
| Tmdb.KeepAiredCounts | backend/app/routers/tmdb/Tmdb.py:58 | an item aired in the year is kept as many times as it occurs; any other item is not kept at all |
| Tmdb.FilterByYear | backend/app/routers/tmdb/Tmdb.py:58 | filtering fails iff the body is not an object whose results field is a list of well-formed items; on success the results field holds exactly the items the year filter keeps, in order |
| Tmdb.FilterKeepsOtherFields | backend/app/routers/tmdb/Tmdb.py:58 | filtering replaces only the results field: every other field and the order of the keys are kept |
| Tmdb.Search | backend/app/routers/tmdb/Tmdb.py:41-64 | a movie search, a kindless search and a TV search without a truthy year answer exactly what the planned upstream call answers; an upstream failure always reaches the caller; a successful TV search with a year has as `results` the upstream results kept by `KeepAired` for that year, whose meaning `Tmdb.TvYearSearchFilters` and `Tmdb.KeepAiredCounts` state |
| Tmdb.TvYearSearchFilters | backend/app/routers/tmdb/Tmdb.py:51-59 | a tv search with a year calls `/search/tv`; when it succeeds it returns, in upstream order, exactly the upstream results whose first-air date starts with the year, each as often as upstream lists it |
| Tmdb.ImageBaseCall | backend/app/routers/tmdb/Tmdb.py:67-70 | the image-base endpoint asks for `/configuration` with no parameters |
| Cors.ListedOrigins | backend/app/main.py:11 | the listed origins are trimmed, and there are never more of them than pieces |
| Cors.NonBlankPositionsExact | backend/app/main.py:11 | the positions taken from the setting are exactly the pieces that are not blank once trimmed, in increasing order |
| Cors.ListedAtPositions | backend/app/main.py:11 | the k-th listed origin is the k-th non-blank piece, trimmed: the list keeps the setting's order and holds nothing else |
| Cors.ListedKeepsEntries | backend/app/main.py:11 | every piece that is not blank after trimming is listed, trimmed |
| Cors.ListedOfTrimmed | backend/app/main.py:11 | a list of trimmed, non-blank origins is kept as it is |
| Cors.ListedRoundTrip | backend/app/main.py:10-11 | a comma-joined list of trimmed origins without commas reads back as the same list |
| Cors.Origins | backend/app/main.py:10-29 | the configured origins come first, then the four development origins when the environment is development (the default), and the production origin always comes last |
| Cors.NeverWildcard | backend/app/main.py:24-29 | the wildcard fallback never takes effect |
| Cors.FixedOriginsOffRender | backend/app/main.py:16-24 | neither a development origin nor the production origin mentions onrender.com |
| Cors.RegexFromListed | backend/app/main.py:10-38 | with the origins configured at start-up, the Render regex is allowed iff some origin listed in `FRONTEND_ORIGIN` mentions onrender.com |
| OptimizedImage.TypeOf | frontend/src/components/OptimizedImage.jsx:39 | backdrop, profile and still select their own size table; every other type name falls back to poster |
| OptimizedImage.SizeToken | frontend/src/components/OptimizedImage.jsx:40 | small, large and original select their own entry of the table, and every other size falls back to medium |
| OptimizedImage.ImageUrl | frontend/src/components/OptimizedImage.jsx:37-42 | there is a URL iff the path is non-empty, and it starts with the TMDB image base |
| OptimizedImage.ImageUrlRoundTrip | frontend/src/components/OptimizedImage.jsx:7-42 | the size token and the path can be read back out of the URL |
| OptimizedImage.SrcSet | frontend/src/components/OptimizedImage.jsx:47-57 | a missing or empty path gives the empty string; otherwise the small, medium and large candidates, each `{url} {width}w`, joined by `, ` |
| OptimizedImage.Width | frontend/src/components/OptimizedImage.jsx:53 | a declared width is positive, and a token without digits, or with only zeros, declares 500 |
| OptimizedImage.SrcSetMatchesImageUrls | frontend/src/components/OptimizedImage.jsx:47-57 | the srcset has three candidates: the small, medium and large URLs of the same image |
| OptimizedImage.SrcSetWidthsIncreasing | frontend/src/components/OptimizedImage.jsx:7-32 | for every image type the declared widths grow strictly from small to large |
| OptimizedImage.SrcSetOmitsOriginal | frontend/src/components/OptimizedImage.jsx:50-51 | the original-size URL is never a candidate |
| OptimizedImage.WidthAfterLetter | frontend/src/components/OptimizedImage.jsx:53 | the width of a token like `w342` or `h632` is the number after its letter |
| OptimizedImage.PosterWidths | frontend/src/components/OptimizedImage.jsx:8-13 | the poster widths are 185, 342 and 500 |
| OptimizedImage.BackdropWidths | frontend/src/components/OptimizedImage.jsx:14-19 | the backdrop widths are 300, 780 and 1280 |
| OptimizedImage.ProfileWidths | frontend/src/components/OptimizedImage.jsx:20-25 | the profile widths are 45, 185 and 632 |
| OptimizedImage.StillWidths | frontend/src/components/OptimizedImage.jsx:26-31 | the still widths are 185, 300 and 500 |
| OptimizedImage.ImageSource | frontend/src/components/OptimizedImage.jsx:85-87 | with a TMDB path the image source is the CDN URL that reads back to the size token chosen for this type and size and to the path itself; without one it is the plain src |
| OptimizedImage.SourceSet | frontend/src/components/OptimizedImage.jsx:90 | there is a srcset iff there is a TMDB path, and it is the small, medium and large candidates of that path and type, each with its width, joined by ", " |
| OptimizedImage.SourceAmongCandidates | frontend/src/components/OptimizedImage.jsx:85-90 | unless the original size is asked for, the image's own source is the small, medium or large candidate of its srcset, by the size asked for, medium for any other size |
| OptimizedImage.Init | frontend/src/components/OptimizedImage.jsx:78-80 | an image starts neither loaded nor failed, and in view iff it has priority |
| OptimizedImage.Step | frontend/src/components/OptimizedImage.jsx:93-135 | no event clears a flag; loaded or failed becomes true exactly through its own event on an image that was being loaded; an intersecting entry puts the image in view, and only it or a mount without an observer to wait for does |
| OptimizedImage.RunMonotone | frontend/src/components/OptimizedImage.jsx:93-139 | with the props fixed, over any sequence of events flags only turn on, and a loaded image is always in view and has a source |
| OptimizedImage.PriorityAlwaysInView | frontend/src/components/OptimizedImage.jsx:79-96 | a priority image is in view from the first render on, whatever happens |
| OptimizedImage.NoSourceNeverLoads | frontend/src/components/OptimizedImage.jsx:139 | an image without a source never becomes loaded |
| OptimizedImage.NeverBlank | frontend/src/components/OptimizedImage.jsx:137-138 | with the props fixed, in every reachable state the placeholder or the image is shown |
| OptimizedImage.RunIsReplay | frontend/src/components/OptimizedImage.jsx:62-80 | a run with fixed props is the replay of renders that all receive those props |
| OptimizedImage.ReplayLoadedInView | frontend/src/components/OptimizedImage.jsx:78-138 | whatever the props do between renders, the loaded and error flags are never cleared and a loaded image was in view |
| OptimizedImage.BlankAfterSourceLost | frontend/src/components/OptimizedImage.jsx:137-138 | a loaded image re-rendered without `tmdbPath` or `src` shows neither the placeholder nor the image |
| OptimizedImage.NeverBlankAcrossRenders | frontend/src/components/OptimizedImage.jsx:137-138 | when the placeholder also covers a render without a source, the wrapper is never blank, whatever the props do between renders |
| OptimizedImage.ErrorIsFinal | frontend/src/components/OptimizedImage.jsx:132-139 | after an error the placeholder stays and the image is never rendered again |
| OptimizedImage.MountWithoutObserver | frontend/src/components/OptimizedImage.jsx:94-103 | with priority, no element or no IntersectionObserver, mounting puts the image in view at once |
| VideoSchema.JsRem | frontend/src/components/VideoSchema.jsx:44 | JavaScript's remainder: as Dafny's for a non-negative dividend; for a negative one the negated remainder of the negated dividend, between -divisor and 0 |
| VideoSchema.FloorDiv60 | frontend/src/components/VideoSchema.jsx:43 | the hours are the floor of the minutes over 60 |
| VideoSchema.DurationRoundTrip | frontend/src/components/VideoSchema.jsx:42-46 | the ISO 8601 duration of a positive number of minutes reads back as that number |
| VideoSchema.DurationShape | frontend/src/components/VideoSchema.jsx:45 | under an hour the duration is `PT{m}M`; otherwise it is `PT{h}H{m}M` |
| VideoSchema.DatePart | frontend/src/components/VideoSchema.jsx:38 | the default upload date is a prefix of the current timestamp with no `T` in it |
| VideoSchema.DatePartStopsAtT | frontend/src/components/VideoSchema.jsx:38 | the default upload date stops exactly at the first `T` of the timestamp |
| VideoSchema.BuildSchema | frontend/src/components/VideoSchema.jsx:29-100 | there is a schema iff name, description and thumbnail are truthy; it is a graph with a Movie node iff the type is movie; it has episode data iff the type is tv with truthy season and episode numbers; it carries the fields, the upload date or today's date, a duration that reads back to the minutes, and the URLs only when truthy |
| VideoSchema.DescriptionBounded | frontend/src/components/VideoSchema.jsx:36 | the description is the first at most 200 characters of the given one, and kept whole when it is short enough |
| MoviePage.FindFirst | frontend/src/components/MoviePage.jsx:67-68 | `find` returns the first video passing the test, or nothing when no video passes |
| MoviePage.PickTrailer | frontend/src/components/MoviePage.jsx:66-68 | no video is picked iff none is on YouTube; the pick is the first YouTube trailer, or the first YouTube video when there is no YouTube trailer |
| MoviePage.TrailerKey | frontend/src/components/MoviePage.jsx:66-71 | a key is kept iff some video is on YouTube, and it is the picked video's key |
| MoviePage.YouTubeEmbedSrc | frontend/src/components/MoviePage.jsx:7-9 | there is an embed iff the key is truthy, and its source is the YouTube embed prefix, then exactly the key, then exactly the fixed suffix |
| MoviePage.EmbedKeyRoundTrip | frontend/src/components/MoviePage.jsx:9 | a key without `?` can be read back out of its embed source |
| MoviePage.TrailerAfterFetch | frontend/src/components/MoviePage.jsx:28-71 | when a title's details arrive the key becomes the picked YouTube video's key; a title with no YouTube video keeps the key held before |
| MoviePage.StaleTrailer | frontend/src/components/MoviePage.jsx:316-321 | after following a similar title that has no videos, the previous title's trailer is still embedded |
| MoviePage.TrailerForTitle | frontend/src/components/MoviePage.jsx:28-71 | starting from no key, a title gets the picked YouTube video's key, and none without a YouTube video |
| MoviePage.TrailerShown | frontend/src/components/MoviePage.jsx:159-162 | with the key cleared per title, the trailer section shows iff this title's picked video is on YouTube with a non-empty key |
| MoviePage.RouteKindDecidesPage | frontend/src/components/MoviePage.jsx:34-35 | on a title route the page is a TV page iff the route is a TV route |
| MoviePage.SeasonButtons | frontend/src/components/MoviePage.jsx:167-173 | season buttons appear iff it is a TV page with more than 0 seasons; they are exactly 1 through the season count, in increasing order |
| MoviePage.EpisodeOverview | frontend/src/components/MoviePage.jsx:218-222 | an empty overview is not shown; one over 150 characters is cut to 150 plus `...`; a shorter one is kept |
| MoviePage.CastTrack | frontend/src/components/MoviePage.jsx:235-273 | the track holds the first at most 30 cast members, rendered twice in a row |
| MoviePage.CastRoute | frontend/src/components/MoviePage.jsx:254 | a cast card leads to the person page of that person |
| MoviePage.SimilarShown | frontend/src/components/MoviePage.jsx:312 | the first at most 12 similar titles are shown |
| MoviePage.SimilarRoute | frontend/src/components/MoviePage.jsx:316-320 | a similar title leads to its id's TV route iff it says tv, has a first-air date but no release date, or has a name but no title; otherwise to its movie route |
| MoviePage.SimilarAgreesWhenTitled | frontend/src/components/MoviePage.jsx:318 | for a row with a title the similar-title test agrees with the list views' TV test |
| MoviePage.PlayRoute | frontend/src/components/MoviePage.jsx:147 | play leads to `/player` followed by the page's title route |
| MoviePage.CastScroll | frontend/src/components/MoviePage.jsx:88-95 | the cast arrows scroll 600 pixels, left for `left` and right otherwise |
| Home.HeroIndex | frontend/src/components/Home.jsx:33 | the random index always falls among the first at most five trending titles |
| Home.PickHero | frontend/src/components/Home.jsx:32-33 | there is a hero iff trending is non-empty, and it is one of the first five trending titles |
| Home.ListedTvIsHeroTv | frontend/src/components/Home.jsx:35 | every row the list views treat as TV is also a TV hero |
| Home.HeroTvWithReleaseDate | frontend/src/components/Home.jsx:35 | the converse fails: a row with both dates is a TV hero but a movie card |
| Home.HeroDetailsPath | frontend/src/components/Home.jsx:36 | the hero's details are requested from `/tmdb` followed by its title route |
| Home.HeroYear | frontend/src/components/Home.jsx:88 | the year is shown iff there is a release or first-air date; it is the part of that date before the first `-`: a `-`-free prefix followed by `-` or by the end of the date |
| Home.YearOfDate | frontend/src/components/Home.jsx:88 | a date `{y}-{rest}` shows year y |
| Home.GenreLine | frontend/src/components/Home.jsx:90-94 | the genre line is shown iff there is at least one genre |
| Home.GenreLineShape | frontend/src/components/Home.jsx:92 | the line names the first one, two or three genres separated by " • " and ignores the rest |
| Home.HeroOverview | frontend/src/components/Home.jsx:97-99 | an overview over 200 characters is cut to 200 plus `...`; a shorter one is kept |
| Home.Background | frontend/src/components/Home.jsx:76-80 | the banner background is the large backdrop image iff there is a backdrop path, else `none` |
| Home.PlayRoute | frontend/src/components/Home.jsx:61-65 | play leads to the hero's player route; there is none without a hero |
| Home.InfoRoute | frontend/src/components/Home.jsx:67-71 | more info leads to the hero's title route; there is none without a hero |
| Home.PlayIsPlayerOfInfo | frontend/src/components/Home.jsx:61-71 | both buttons lead to the same title: play is `/player` followed by the more-info route |
| CategoryRow.Cards | frontend/src/components/CategoryRow.jsx:25-39 | the row renders iff the list is present and non-empty, with one card per item, in order |
| CategoryRow.CardRoute | frontend/src/components/CategoryRow.jsx:15-23 | a card leads to its id's TV route iff the row says tv, or has a first-air date and no release date; otherwise to its movie route; never to a person |
| CategoryRow.RoutesLikeSearchResults | frontend/src/components/CategoryRow.jsx:15-23 | the row routes as the search results do for non-person rows; a person row goes to a title page where the search results go to the person page |
| CategoryRow.ScrollAmount | frontend/src/components/CategoryRow.jsx:8-13 | the arrows scroll 800 pixels, left for `left` and right otherwise |

## Left out

- `backend/app/routers/tmdb/Search.py` is not part of this model. It is not mounted by the backend, and `/tmdb/search` is served by `Tmdb.py`.
- The `latest_*` listing proxies of `vidsrc.py` are left out. They only forward a page to an upstream URL.
- `PersonPage`, `PlayerPage`, `MovieDetails` and `MovieList` are not part of this model.
- Responses are inputs to the model, whether or not the backend here can produce them. `Tmdb.py` defines only `/popular`, `/movie/{id}`, `/search` and `/image_base` (lines 28-70), while the frontend also requests `/tmdb/trending/all/day` (Home.jsx:27), `/tmdb/tv/{id}` (Home.jsx:36, MoviePage.jsx:50), `/tmdb/{movie|tv}/{id}/similar` (MoviePage.jsx:57-58), `/tmdb/tv/{id}/season/{n}` (MoviePage.jsx:80) and the category listings `/tmdb/tv/popular`, `/tmdb/movie/top_rated` and the like (Home.jsx:43-47; `/movie/top_rated` reaches `/movie/{id}` with a non-integer id). `/tmdb/movie/{id}` sends no `append_to_response` (Tmdb.py:33-35), so its answer carries no `videos` or `credits`. Against this backend, Home's first request fails and the catch at Home.jsx:56 leaves the hero and every row empty, and no trailer or cast is ever set on a title page. The model of Home, the category rows and the title page describes what they do with the answers a fuller backend would give.
- The `Promise.all` over the category requests (Home.jsx:41-48) is left out, as is the concurrency of requests generally.
- HTTP is not modelled. `requests`/`axios` calls are a `fetch` function parameter or a response value. The 10-second timeout and network errors other than a status are left out.
- React effects, their timing and cleanup are not modelled. The DOM, `scrollTo`/`scrollBy`, `alert` and `console` are left out too. The document title is a returned value, and the JSON-LD `<script>` injection is the returned schema.
- For a single search the order is fixed: `setPage(p)` runs only after the search response (App.jsx:42-43), so the popular fetch it triggers lands after the search results, which is the order `App.SearchThenPageEffect` states. Interleavings with other clicks (a second search, a page change or a clear while a request is pending) are left out.
- Routes.Item: title and person ids, here and in the Home and MoviePage routes, are assumed to be present non-negative integers (`nat`). In the source a row without an id navigates to `/movie/undefined` (CategoryRow.jsx:21, MoviePage.jsx:320); such routes are not modelled.
- The `handlePageJump` button of the search results only sets the page, and it is not modelled separately.
- Rating display (`toFixed`) and other purely presentational markup are left out.
- `Math.random()` is the parameter `u`, and `new Date()` is the parameter `nowIso`.
- Strings.IsSpace: trimming removes exactly six characters: space, tab, line feed, carriage return, vertical tab (0x0B) and form feed (0x0C). Python's `str.strip` in `main.py` also removes the separators 0x1C–0x1F, which JavaScript's `trim` keeps; one predicate serves both, so 0x1C–0x1F are dropped from it. Unicode spaces (such as U+00A0 and U+2028) are left out for both languages.
- Upper/lower case mapping is ASCII only. JavaScript and Python also map non-ASCII letters.
- OptimizedImage.TypeOf: inherited object keys of the size table (such as `constructor`) are not modelled as type names.
- OptimizedImage.SizeToken: inherited object keys (such as `toString`) are not modelled as sizes; every size other than small, medium, large and original falls back to medium.
- Home.HeroOverview, MoviePage.EpisodeOverview, VideoSchema.BuildSchema, VideoSchema.DescriptionBounded and SearchBox.SearchTitle: strings are sequences of characters, while JavaScript's `length`, `slice` and `charAt` count UTF-16 code units. A cut can split a surrogate pair in JavaScript but never does here.
- SearchBox.YearNumber: `Number()` of text with signs, decimals, exponents or surrounding spaces is modelled as NaN rather than as the number JavaScript would read.
- VideoSchema.BuildSchema: a duration is modelled as a whole number of minutes. Fractional durations are left out.
- MoviePage.PickTrailer: a video's `type` and `site` are assumed to be strings. In the source the regex tests coerce other values with `String()`, so a missing `site` is tested as "undefined" and the video is skipped.
- OptimizedImage.RunMonotone, OptimizedImage.NeverBlank, OptimizedImage.PriorityAlwaysInView, OptimizedImage.NoSourceNeverLoads, OptimizedImage.ErrorIsFinal: stated for an image whose props stay the same for its lifetime. Renders with changing props are `OptimizedImage.Replay`; under them a loaded image can lose its source, and the blank wrapper this gives is logged under "## Findings".
- The CORS middleware itself, and how it matches the regex against a request origin, are left out. Only the configuration it receives is modelled.

## Findings

| source | as written | input that shows it | evidently intended | confidence | as-written member | corrected member |
|---|---|---|---|---|---|---|
| frontend/src/components/MoviePage.jsx:66-71 | the trailer key starts empty once (line 28) and is only ever set, never cleared, when a title's details arrive | with a backend that answers title details with `videos` and serves `/similar` (this repository's `Tmdb.py` does neither): on the page of a title with trailer `abc`, follow a similar title (lines 316-321) that has no videos; the page is reused and `abc` stays embedded | each title shows its own trailer or none | medium, not executed | MoviePage.TrailerAfterFetch, with the counterexample MoviePage.StaleTrailer | MoviePage.TrailerForTitle, with MoviePage.TrailerShown proved of it |
| frontend/src/components/OptimizedImage.jsx:137-138 | the placeholder shows while the image is not loaded or has failed, and the image while it is in view with a truthy source; `isLoaded` is never reset when the props change | a caller re-renders an image that has loaded from `tmdbPath` `/a.jpg` with `tmdbPath` and `src` both falsy: neither the placeholder nor an image is rendered | the placeholder covers a render that has nothing to show | low, not executed | OptimizedImage.ShowPlaceholder and OptimizedImage.ShouldLoadImage, with the counterexample OptimizedImage.BlankAfterSourceLost | OptimizedImage.ShowPlaceholderWithoutSource, with OptimizedImage.NeverBlankAcrossRenders proved of it |
