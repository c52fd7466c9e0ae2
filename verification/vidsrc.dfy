/**
  The embed-URL endpoints of the backend: `build_embed_url` and its movie and
  TV wrappers. The URL is `https://{domain}/embed/{kind}` followed by either
  an id path (`/{id}`, or `/{id}/{season}-{episode}` for a TV episode) or,
  when no id is given, an optional query string.

  `BuildEmbedUrl` follows the code statement by statement; `Target` and
  `Render` are an independent, structured reading of the same decision, and
  `BuildMatchesTarget` proves the two agree.
 */
module Vidsrc {
  import opened Common
  import opened Strings
  import opened Dict

  /** Used when `VIDSRC_EMBED_DOMAIN` is not set. */
  const DefaultDomain := "vidsrc-embed.ru"

  /** `os.getenv("VIDSRC_EMBED_DOMAIN", default)`: an empty setting stays empty. */
  function EmbedDomain(env: Option<string>): string {
    env.GetOr(DefaultDomain)
  }

  /** The keyword arguments of `build_embed_url`; `None` when not passed. */
  datatype EmbedOptions = EmbedOptions(
    tmdb: Option<string>,
    imdb: Option<string>,
    season: Option<int>,
    episode: Option<int>,
    dsLang: Option<string>,
    subUrl: Option<string>,
    autoplay: Option<int>,
    autonext: Option<int>)

  function Base(domain: string, kind: string): string {
    "https://" + domain + "/embed/" + kind
  }

  /** `tmdb or imdb`. */
  function IdPart(o: EmbedOptions): Option<string> {
    OrElse(o.tmdb, o.imdb)
  }

  /** The TV-episode suffix applies: kind tv and both season and episode given (0 included). */
  predicate WantsEpisode(kind: string, o: EmbedOptions) {
    kind == "tv" && o.season.Some? && o.episode.Some?
  }

  // ---------------------------------------------------------------------------
  // Query string

  /** The query keys `build_embed_url` may emit, in the order it emits them. */
  datatype QueryKey = TmdbKey | ImdbKey | LangKey | SubKey | AutoplayKey | AutonextKey

  function KeyName(k: QueryKey): (name: string)
    ensures '=' !in name && '&' !in name
  {
    match k
    case TmdbKey => "tmdb"
    case ImdbKey => "imdb"
    case LangKey => "ds_lang"
    case SubKey => "sub_url"
    case AutoplayKey => "autoplay"
    case AutonextKey => "autonext"
  }

  function Rank(k: QueryKey): nat {
    match k
    case TmdbKey => 0
    case ImdbKey => 1
    case LangKey => 2
    case SubKey => 3
    case AutoplayKey => 4
    case AutonextKey => 5
  }

  /**
    The value each key carries, if it is emitted at all: the four string
    options when truthy, autoplay and autonext whenever given (0 included).
   */
  function Expected(o: EmbedOptions, k: QueryKey): Option<string> {
    match k
    case TmdbKey => if Present(o.tmdb) then o.tmdb else None
    case ImdbKey => if Present(o.imdb) then o.imdb else None
    case LangKey => if Present(o.dsLang) then o.dsLang else None
    case SubKey => if Present(o.subUrl) then o.subUrl else None
    case AutoplayKey => if o.autoplay.Some? then Some(IntToString(o.autoplay.value)) else None
    case AutonextKey => if o.autonext.Some? then Some(IntToString(o.autonext.value)) else None
  }

  type Query = seq<(QueryKey, string)>

  /** The value of the first entry with key k. */
  function ValueOf(q: Query, k: QueryKey): Option<string> {
    if |q| == 0 then None
    else if q[0].0 == k then Some(q[0].1)
    else ValueOf(q[1..], k)
  }

  /** Keys appear in strictly increasing emission order (so each at most once). */
  predicate RankOrdered(q: Query) {
    forall i, j :: 0 <= i < j < |q| ==> Rank(q[i].0) < Rank(q[j].0)
  }

  /** `if value: query.append(f"{key}={value}")`, one step of the query builder. */
  function Step(o: EmbedOptions, q: Query, k: QueryKey): Query {
    match Expected(o, k)
    case Some(v) => q + [(k, v)]
    case None => q
  }

  /** After the steps for every key ranked below `next`, exactly those keys carry their values, in order. */
  predicate BuiltUpTo(o: EmbedOptions, q: Query, next: nat) {
    && RankOrdered(q)
    && (forall i :: 0 <= i < |q| ==> Rank(q[i].0) < next)
    && (forall x :: ValueOf(q, x) == if Rank(x) < next then Expected(o, x) else None)
  }

  lemma {:induction false} ValueOfAppend(q: Query, k: QueryKey, v: string, other: QueryKey)
    ensures ValueOf(q + [(k, v)], other)
      == if ValueOf(q, other).Some? then ValueOf(q, other) else if other == k then Some(v) else None
    decreases |q|
  {
    if |q| > 0 {
      assert (q + [(k, v)])[1..] == q[1..] + [(k, v)];
      ValueOfAppend(q[1..], k, v, other);
    }
  }

  lemma StepKeepsBuilt(o: EmbedOptions, q: Query, k: QueryKey)
    requires BuiltUpTo(o, q, Rank(k))
    ensures BuiltUpTo(o, Step(o, q, k), Rank(k) + 1)
  {
    match Expected(o, k)
    case None =>
    case Some(v) =>
      var r := q + [(k, v)];
      forall x ensures ValueOf(r, x) == if Rank(x) < Rank(k) + 1 then Expected(o, x) else None {
        ValueOfAppend(q, k, v, x);
      }
  }

  /** The query entries of `build_embed_url`, before rendering. */
  function QueryPairs(o: EmbedOptions): (r: Query)
    ensures forall k :: ValueOf(r, k) == Expected(o, k)
    ensures RankOrdered(r)
  {
    var q0 := Step(o, [], TmdbKey);
    var q1 := Step(o, q0, ImdbKey);
    var q2 := Step(o, q1, LangKey);
    var q3 := Step(o, q2, SubKey);
    var q4 := Step(o, q3, AutoplayKey);
    var q5 := Step(o, q4, AutonextKey);
    StepKeepsBuilt(o, [], TmdbKey);
    StepKeepsBuilt(o, q0, ImdbKey);
    StepKeepsBuilt(o, q1, LangKey);
    StepKeepsBuilt(o, q2, SubKey);
    StepKeepsBuilt(o, q3, AutoplayKey);
    StepKeepsBuilt(o, q4, AutonextKey);
    q5
  }

  /** `f"{key}={value}"`. */
  function Entry(pair: (QueryKey, string)): string {
    KeyName(pair.0) + "=" + pair.1
  }

  function Entries(q: Query): seq<string> {
    seq(|q|, i requires 0 <= i < |q| => Entry(q[i]))
  }

  function QueryEntries(o: EmbedOptions): seq<string> {
    Entries(QueryPairs(o))
  }

  /** Reads one `key=value` entry back, splitting at the first '='. */
  function SplitEntry(e: string): (string, string) {
    if '=' in e then
      var i := IndexOf(e, '=');
      (e[..i], e[i + 1..])
    else (e, "")
  }

  /** Reads a query string back into its (key, value) pairs. */
  function ParseQuery(qs: string): seq<(string, string)> {
    if qs == "" then []
    else
      var parts := Split(qs, '&');
      seq(|parts|, i requires 0 <= i < |parts| => SplitEntry(parts[i]))
  }

  /** The entries with their keys written out as names. */
  function Named(q: Query): seq<(string, string)> {
    seq(|q|, i requires 0 <= i < |q| => (KeyName(q[i].0), q[i].1))
  }

  // ---------------------------------------------------------------------------
  // The URL

  /** `build_embed_url`, statement by statement. */
  function BuildEmbedUrl(domain: string, kind: string, o: EmbedOptions): string {
    var base := Base(domain, kind);
    var url :=
      if Present(o.tmdb) then base + "/" + o.tmdb.value
      else if Present(o.imdb) then base + "/" + o.imdb.value
      else
        var qs := Join(QueryEntries(o), "&");
        if qs != "" then base + "?" + qs else base;
    if WantsEpisode(kind, o) && Present(IdPart(o)) then
      base + "/" + IdPart(o).value + "/" + IntToString(o.season.value) + "-" + IntToString(o.episode.value)
    else url
  }

  /** What the URL addresses: a title by id (optionally one episode of it), or a query. */
  datatype Target =
    | ById(id: string, episode: Option<(int, int)>)
    | ByQuery(pairs: Query)

  /** The decision `build_embed_url` makes, stated on its own. */
  function TargetOf(kind: string, o: EmbedOptions): (t: Target)
    ensures Present(o.tmdb) ==> t.ById? && t.id == o.tmdb.value
    ensures !Present(o.tmdb) && Present(o.imdb) ==> t.ById? && t.id == o.imdb.value
    ensures !Present(o.tmdb) && !Present(o.imdb) ==> t.ByQuery?
    ensures t.ById? ==> (t.episode.Some? <==> WantsEpisode(kind, o))
    ensures t.ById? && t.episode.Some? ==> t.episode.value == (o.season.value, o.episode.value)
    ensures t.ByQuery? ==> ValueOf(t.pairs, TmdbKey) == None && ValueOf(t.pairs, ImdbKey) == None
  {
    var id := IdPart(o);
    if Present(id) then
      ById(id.value, if WantsEpisode(kind, o) then Some((o.season.value, o.episode.value)) else None)
    else ByQuery(QueryPairs(o))
  }

  function Render(base: string, t: Target): string {
    match t
    case ById(id, None) => base + "/" + id
    case ById(id, Some((s, e))) => base + "/" + id + "/" + IntToString(s) + "-" + IntToString(e)
    case ByQuery(pairs) =>
      var entries := Entries(pairs);
      if |entries| == 0 then base else base + "?" + Join(entries, "&")
  }

  lemma JoinNonEmpty(parts: seq<string>, sep: string)
    requires |parts| >= 1 && parts[0] != ""
    ensures Join(parts, sep) != ""
  {
    assert parts[0] <= Join(parts, sep);
  }

  /** The statement-by-statement builder and the structured reading agree on every input. */
  lemma BuildMatchesTarget(domain: string, kind: string, o: EmbedOptions)
    ensures BuildEmbedUrl(domain, kind, o) == Render(Base(domain, kind), TargetOf(kind, o))
  {
    var entries := QueryEntries(o);
    if |entries| > 0 {
      assert entries[0] == Entry(QueryPairs(o)[0]);
      JoinNonEmpty(entries, "&");
    }
  }

  /** Every URL starts with `https://{domain}/embed/{kind}`. */
  lemma UrlStartsWithBase(domain: string, kind: string, o: EmbedOptions)
    ensures Base(domain, kind) <= BuildEmbedUrl(domain, kind, o)
  {
    BuildMatchesTarget(domain, kind, o);
    RenderExtendsBase(Base(domain, kind), TargetOf(kind, o));
  }

  lemma RenderExtendsBase(base: string, t: Target)
    ensures base <= Render(base, t)
  {
  }

  /** With an id, the language, subtitle and autoplay options do not reach the URL. */
  lemma IdFormIgnoresQueryOptions(domain: string, kind: string, o1: EmbedOptions, o2: EmbedOptions)
    requires o1.tmdb == o2.tmdb && o1.imdb == o2.imdb && o1.season == o2.season && o1.episode == o2.episode
    requires Present(IdPart(o1))
    ensures BuildEmbedUrl(domain, kind, o1) == BuildEmbedUrl(domain, kind, o2)
  {
    BuildMatchesTarget(domain, kind, o1);
    BuildMatchesTarget(domain, kind, o2);
  }

  /** Season and episode change nothing for a movie or when no id is given. */
  lemma EpisodeNeedsTvAndId(domain: string, kind: string, o: EmbedOptions, season: Option<int>, episode: Option<int>)
    requires kind != "tv" || !Present(IdPart(o))
    ensures BuildEmbedUrl(domain, kind, o) == BuildEmbedUrl(domain, kind, o.(season := season, episode := episode))
  {
    var o2 := o.(season := season, episode := episode);
    BuildMatchesTarget(domain, kind, o);
    BuildMatchesTarget(domain, kind, o2);
    if !Present(IdPart(o)) {
      QueryIgnoresEpisode(o, o2);
    }
  }

  /** The query entries do not depend on season or episode. */
  lemma QueryIgnoresEpisode(o1: EmbedOptions, o2: EmbedOptions)
    requires o2 == o1.(season := o2.season, episode := o2.episode)
    ensures QueryPairs(o1) == QueryPairs(o2)
  {
    assert forall k :: Expected(o1, k) == Expected(o2, k);
  }

  /** A TV episode with an id is exactly `base/{id}/{season}-{episode}`. */
  lemma TvEpisodeForm(domain: string, o: EmbedOptions)
    requires WantsEpisode("tv", o) && Present(IdPart(o))
    ensures BuildEmbedUrl(domain, "tv", o)
      == Base(domain, "tv") + "/" + IdPart(o).value + "/" + IntToString(o.season.value) + "-" + IntToString(o.episode.value)
  {
  }

  lemma SplitEntryOfEntry(pair: (QueryKey, string))
    ensures SplitEntry(Entry(pair)) == (KeyName(pair.0), pair.1)
  {
    var name := KeyName(pair.0);
    var e := Entry(pair);
    assert e == name + ['='] + pair.1;
    IndexOfAfterPrefix(name, '=', pair.1);
    assert e[..|name|] == name;
    assert e[|name| + 1..] == pair.1;
  }

  lemma NoCharInIntString(i: int, c: char)
    requires !IsDigit(c) && c != '-'
    ensures c !in IntToString(i)
  {
  }

  /**
    The query string reads back as exactly the parameters that produced it,
    provided the free-text values (language, subtitle URL) hold no '&'.
   */
  lemma QueryRoundTrip(o: EmbedOptions)
    requires o.dsLang.Some? ==> '&' !in o.dsLang.value
    requires o.subUrl.Some? ==> '&' !in o.subUrl.value
    requires o.tmdb.Some? ==> '&' !in o.tmdb.value
    requires o.imdb.Some? ==> '&' !in o.imdb.value
    ensures ParseQuery(Join(QueryEntries(o), "&")) == Named(QueryPairs(o))
  {
    var pairs := QueryPairs(o);
    var entries := QueryEntries(o);
    if |entries| > 0 {
      EntriesReadBack(o);
      assert entries[0] == Entry(pairs[0]);
      JoinNonEmpty(entries, "&");
      SplitJoin(entries, '&');
    }
  }

  /** Each entry holds no '&' and splits back into its own (key, value) pair. */
  lemma EntriesReadBack(o: EmbedOptions)
    requires o.dsLang.Some? ==> '&' !in o.dsLang.value
    requires o.subUrl.Some? ==> '&' !in o.subUrl.value
    requires o.tmdb.Some? ==> '&' !in o.tmdb.value
    requires o.imdb.Some? ==> '&' !in o.imdb.value
    ensures forall i :: 0 <= i < |QueryEntries(o)| ==>
      '&' !in QueryEntries(o)[i] && SplitEntry(QueryEntries(o)[i]) == Named(QueryPairs(o))[i]
  {
    var pairs := QueryPairs(o);
    var entries := QueryEntries(o);
    if o.autoplay.Some? { NoCharInIntString(o.autoplay.value, '&'); }
    if o.autonext.Some? { NoCharInIntString(o.autonext.value, '&'); }
    forall i | 0 <= i < |entries|
      ensures '&' !in entries[i] && SplitEntry(entries[i]) == Named(pairs)[i]
    {
      ValueOfUnique(pairs, i);
      assert '&' !in pairs[i].1;
      SplitEntryOfEntry(pairs[i]);
    }
  }

  /** In a rank-ordered query the entry at position i is the one a lookup of its key finds. */
  lemma {:induction false} ValueOfUnique(q: Query, i: int)
    requires RankOrdered(q) && 0 <= i < |q|
    ensures ValueOf(q, q[i].0) == Some(q[i].1)
  {
    if i > 0 {
      assert Rank(q[0].0) < Rank(q[i].0);
      assert RankOrdered(q[1..]) by {
        forall a, b | 0 <= a < b < |q[1..]| ensures Rank(q[1..][a].0) < Rank(q[1..][b].0) {
          assert q[1..][a] == q[a + 1] && q[1..][b] == q[b + 1];
        }
      }
      ValueOfUnique(q[1..], i - 1);
      assert q[1..][i - 1] == q[i];
    }
  }

  // ---------------------------------------------------------------------------
  // Endpoints

  /** The JSON body of both endpoints: a single `embed_url` field. */
  datatype EmbedResponse = EmbedResponse(embedUrl: string)

  function MovieOptions(tmdb: Option<string>, imdb: Option<string>, dsLang: Option<string>,
                        subUrl: Option<string>, autoplay: Option<int>): EmbedOptions {
    EmbedOptions(tmdb, imdb, None, None, dsLang, subUrl, autoplay, None)
  }

  /** `GET /embed/movie`: never forwards season, episode or autonext. */
  function EmbedMovie(domain: string, tmdb: Option<string>, imdb: Option<string>, dsLang: Option<string>,
                      subUrl: Option<string>, autoplay: Option<int>): (r: EmbedResponse)
    ensures var t := TargetOf("movie", MovieOptions(tmdb, imdb, dsLang, subUrl, autoplay));
      && r.embedUrl == Render(Base(domain, "movie"), t)
      && (t.ById? ==> t.episode.None?)
      && (t.ByQuery? ==> ValueOf(t.pairs, AutonextKey) == None)
  {
    var o := MovieOptions(tmdb, imdb, dsLang, subUrl, autoplay);
    BuildMatchesTarget(domain, "movie", o);
    EmbedResponse(BuildEmbedUrl(domain, "movie", o))
  }

  /** `GET /embed/tv`: forwards every option. */
  function EmbedTv(domain: string, tmdb: Option<string>, imdb: Option<string>, dsLang: Option<string>,
                   season: Option<int>, episode: Option<int>, subUrl: Option<string>,
                   autoplay: Option<int>, autonext: Option<int>): (r: EmbedResponse)
    ensures r.embedUrl == Render(Base(domain, "tv"),
      TargetOf("tv", EmbedOptions(tmdb, imdb, season, episode, dsLang, subUrl, autoplay, autonext)))
  {
    var o := EmbedOptions(tmdb, imdb, season, episode, dsLang, subUrl, autoplay, autonext);
    BuildMatchesTarget(domain, "tv", o);
    EmbedResponse(BuildEmbedUrl(domain, "tv", o))
  }
}
