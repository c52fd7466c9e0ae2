/**
  The home page hero banner: which trending title becomes the hero, whether
  it is TV, the year, genre line and overview shown on it, its backdrop, and
  the routes of its Play and More Info buttons.
 */
module Home {
  import opened Common
  import opened Strings
  import opened Routes
  import OptimizedImage

  // ---------------------------------------------------------------------------
  // Picking the hero

  /**
    `Math.floor(u * Math.min(5, len))`, with `u` the value `Math.random()`
    returned; `Math.random()` always lies in [0, 1).
   */
  function HeroIndex(u: real, len: nat): (i: int)
    requires 0.0 <= u < 1.0
    ensures len > 0 ==> 0 <= i < Min(5, len)
    ensures len == 0 ==> i == 0
  {
    Scale(u, Min(5, len)).Floor
  }

  /** `u * n` for u in [0, 1): never negative, and below n when n is positive. */
  function Scale(u: real, n: nat): (x: real)
    requires 0.0 <= u < 1.0
    ensures 0.0 <= x
    ensures n > 0 ==> x < n as real
    ensures n == 0 ==> x == 0.0
  {
    ScaleBelow(u, n);
    u * (n as real)
  }

  lemma ScaleBelow(u: real, n: nat)
    requires 0.0 <= u < 1.0
    ensures 0.0 <= u * (n as real)
    ensures n > 0 ==> u * (n as real) < n as real
    ensures n == 0 ==> u * (n as real) == 0.0
  {
    var m := n as real;
    assert (1.0 - u) * m >= 0.0;
    if n > 0 {
      assert (1.0 - u) * m > 0.0;
    }
  }

  /** The trending title chosen as hero; none when trending is empty. */
  function PickHero(trending: seq<Item>, u: real): (r: Option<Item>)
    requires 0.0 <= u < 1.0
    ensures r.Some? <==> |trending| > 0
    ensures r.Some? ==> exists i :: 0 <= i < Min(5, |trending|) && trending[i] == r.value
  {
    if |trending| > 0 then
      var i := HeroIndex(u, |trending|);
      Some(trending[i])
    else None
  }

  /** The hero's TV test: the row says TV, or it has a first-air date; the release date is not consulted. */
  predicate HeroIsTv(item: Item) {
    item.mediaType == Some("tv") || Present(item.firstAirDate)
  }

  /** Every row the list views treat as TV is a TV hero. */
  lemma ListedTvIsHeroTv(item: Item)
    requires ListedAsTv(item)
    ensures HeroIsTv(item)
  {
  }

  /** The converse fails: a row with both dates is a TV hero but a movie card. */
  lemma HeroTvWithReleaseDate(item: Item)
    requires item.mediaType == None && Present(item.firstAirDate) && Present(item.releaseDate)
    ensures HeroIsTv(item) && !ListedAsTv(item)
  {
  }

  /** The details request for the hero: `/tmdb/{tv|movie}/{id}`. */
  function HeroDetailsPath(item: Item): (r: string)
    ensures |r| > 5 && r[..5] == "/tmdb"
    ensures ParsePath(r[5..]) == Some((if HeroIsTv(item) then Tv else Movie, item.id))
  {
    var k := if HeroIsTv(item) then Tv else Movie;
    ParsePathComplete(k, item.id);
    "/tmdb" + Path(k, item.id)
  }

  // ---------------------------------------------------------------------------
  // The banner

  /** The hero: the fetched details with the TV flag computed from the trending row. */
  datatype Hero = Hero(
    id: nat,
    isTv: bool,
    releaseDate: Option<string>,
    firstAirDate: Option<string>,
    genres: Option<seq<string>>,     // the genre names
    overview: Option<string>,
    backdropPath: Option<string>)

  /** The year: the text before the first '-' of the release date, else of the first-air date. */
  function HeroYear(h: Hero): (r: Option<string>)
    ensures r.Some? <==> OrElse(h.releaseDate, h.firstAirDate).Some?
    ensures r.Some? ==> r.value <= OrElse(h.releaseDate, h.firstAirDate).value && '-' !in r.value
    ensures r.Some? && |r.value| < |OrElse(h.releaseDate, h.firstAirDate).value| ==>
      OrElse(h.releaseDate, h.firstAirDate).value[|r.value|] == '-'
  {
    match OrElse(h.releaseDate, h.firstAirDate)
    case Some(date) => Some(Split(date, '-')[0])
    case None => None
  }

  /** A date `{y}-{rest}` with no '-' in y gives year y. */
  lemma YearOfDate(h: Hero, y: string, rest: string)
    requires '-' !in y
    requires OrElse(h.releaseDate, h.firstAirDate) == Some(y + "-" + rest)
    ensures HeroYear(h) == Some(y)
  {
    SplitAfterPrefix(y, '-', rest);
  }

  const GenreSeparator := " • "

  /** The genre line: the first three genre names joined by " • "; none without genres. */
  function GenreLine(h: Hero): (r: Option<string>)
    ensures r.Some? <==> h.genres.Some? && |h.genres.value| > 0
  {
    if h.genres.Some? && |h.genres.value| > 0 then Some(Join(Take(h.genres.value, 3), GenreSeparator))
    else None
  }

  /** The line names one, two or three genres and ignores the rest. */
  lemma GenreLineShape(h: Hero)
    requires h.genres.Some? && |h.genres.value| > 0
    ensures var g := h.genres.value;
      GenreLine(h) == Some(
        if |g| == 1 then g[0]
        else if |g| == 2 then g[0] + GenreSeparator + g[1]
        else g[0] + GenreSeparator + g[1] + GenreSeparator + g[2])
  {
    var g := h.genres.value;
    var t := Take(g, 3);
    var sep := GenreSeparator;
    if |g| == 2 {
      assert t[1..] == [g[1]];
      assert Join(t, sep) == g[0] + sep + g[1];
    } else if |g| >= 3 {
      assert t[1..][1..] == [g[2]];
      assert Join(t[1..], sep) == g[1] + sep + g[2];
      assert Join(t, sep) == g[0] + sep + (g[1] + sep + g[2]);
      assert g[0] + sep + (g[1] + sep + g[2]) == g[0] + sep + g[1] + sep + g[2];
    }
  }

  /** The banner overview: over 200 characters it is cut to 200 plus an ellipsis. */
  function HeroOverview(h: Hero): (r: Option<string>)
    ensures r.Some? <==> h.overview.Some?
    ensures r.Some? && |h.overview.value| <= 200 ==> r == h.overview
    ensures r.Some? && |h.overview.value| > 200 ==> r.value == h.overview.value[..200] + "..."
    ensures r.Some? ==> |r.value| <= 203
  {
    if Present(h.overview) && |h.overview.value| > 200 then Some(Ellipsize(h.overview.value, 200))
    else h.overview
  }

  /** The banner background: the large backdrop image when there is a backdrop path, else `none`. */
  function Background(hero: Option<Hero>): (r: string)
    ensures r != "none" <==> hero.Some? && Present(hero.value.backdropPath)
    ensures r != "none" ==> r == "url(" + OptimizedImage.ImageUrl(hero.value.backdropPath, "backdrop", "large").value + ")"
  {
    if hero.Some? && Present(hero.value.backdropPath) then
      "url(" + OptimizedImage.ImageUrl(hero.value.backdropPath, "backdrop", "large").value + ")"
    else "none"
  }

  /** Play: `/player/{tv|movie}/{id}`; nothing without a hero. */
  function PlayRoute(hero: Option<Hero>): (r: Option<string>)
    ensures r.Some? <==> hero.Some?
    ensures r.Some? ==> "/player" <= r.value
    ensures r.Some? ==> ParsePath(r.value[7..]) == Some((if hero.value.isTv then Tv else Movie, hero.value.id))
  {
    match hero
    case None => None
    case Some(h) =>
      var k := if h.isTv then Tv else Movie;
      ParsePathComplete(k, h.id);
      Some(PlayerPath(k, h.id))
  }

  /** More Info: `/{tv|movie}/{id}`; nothing without a hero. */
  function InfoRoute(hero: Option<Hero>): (r: Option<string>)
    ensures r.Some? <==> hero.Some?
    ensures r.Some? ==> ParsePath(r.value) == Some((if hero.value.isTv then Tv else Movie, hero.value.id))
  {
    match hero
    case None => None
    case Some(h) =>
      var k := if h.isTv then Tv else Movie;
      ParsePathComplete(k, h.id);
      Some(Path(k, h.id))
  }

  /** The two buttons lead to the player and the detail page of the same title. */
  lemma PlayIsPlayerOfInfo(hero: Option<Hero>)
    requires hero.Some?
    ensures PlayRoute(hero).value == "/player" + InfoRoute(hero).value
  {
  }
}
