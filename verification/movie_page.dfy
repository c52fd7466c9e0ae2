/**
  The title page: which video becomes the trailer and how it is embedded,
  whether the page is a TV page, the season buttons, the episode overview
  cut, how many cast members and similar titles are shown, and where a click
  on a similar title or the play button leads.
 */
module MoviePage {
  import opened Common
  import opened Strings
  import opened Routes

  // ---------------------------------------------------------------------------
  // Trailer

  /** One entry of the details' `videos.results`; `kind` is the video's `type`. */
  datatype Video = Video(kind: string, site: string, key: Option<string>)

  /** `/youtube/i.test(v.site)`. */
  predicate OnYouTube(v: Video) {
    ContainsIgnoreCase(v.site, "youtube")
  }

  /** `/trailer/i.test(v.type) && /youtube/i.test(v.site)`. */
  predicate YouTubeTrailer(v: Video) {
    ContainsIgnoreCase(v.kind, "trailer") && OnYouTube(v)
  }

  /** The test of the first search (`trailersOnly`) or of the fallback search. */
  predicate Wanted(v: Video, trailersOnly: bool) {
    if trailersOnly then YouTubeTrailer(v) else OnYouTube(v)
  }

  /** i is the position of the first video that passes the test. */
  predicate FirstWanted(videos: seq<Video>, i: int, trailersOnly: bool) {
    0 <= i < |videos| && Wanted(videos[i], trailersOnly)
    && forall j :: 0 <= j < i ==> !Wanted(videos[j], trailersOnly)
  }

  /** `videos.findIndex(test)`, as an option. */
  function FindFirst(videos: seq<Video>, trailersOnly: bool): (r: Option<nat>)
    ensures r.Some? ==> FirstWanted(videos, r.value, trailersOnly)
    ensures r.None? ==> forall j :: 0 <= j < |videos| ==> !Wanted(videos[j], trailersOnly)
    decreases |videos|
  {
    if |videos| == 0 then None
    else if Wanted(videos[0], trailersOnly) then Some(0)
    else
      match FindFirst(videos[1..], trailersOnly)
      case Some(i) => Some(i + 1)
      case None => None
  }

  /** The first YouTube trailer, or failing that the first YouTube video. */
  function PickTrailer(videos: seq<Video>): (r: Option<Video>)
    ensures r.None? <==> forall j :: 0 <= j < |videos| ==> !OnYouTube(videos[j])
    ensures r.Some? ==> exists i :: FirstWanted(videos, i, YouTubeTrailer(r.value)) && videos[i] == r.value
    ensures r.Some? && !YouTubeTrailer(r.value) ==> forall j :: 0 <= j < |videos| ==> !YouTubeTrailer(videos[j])
  {
    match FindFirst(videos, true)
    case Some(i) => Some(videos[i])
    case None =>
      match FindFirst(videos, false)
      case Some(i) => Some(videos[i])
      case None => None
  }

  lemma LowerYouTube()
    ensures Lower("youtube") == "youtube"
  {
  }

  /**
    The trailer key the page keeps: the chosen video's key, when its site
    (lower-cased) mentions YouTube. `videos` is `videos.results`, when given.
   */
  function TrailerKey(videos: Option<seq<Video>>): (r: Option<Option<string>>)
    ensures var vs := videos.GetOr([]);
      r.Some? <==> exists j :: 0 <= j < |vs| && OnYouTube(vs[j])
    ensures r.Some? ==> r == Some(PickTrailer(videos.GetOr([])).value.key)
  {
    LowerYouTube();
    match PickTrailer(videos.GetOr([]))
    case Some(v) => if Contains(Lower(v.site), "youtube") then Some(v.key) else None
    case None => None
  }

  const EmbedPrefix := "https://www.youtube.com/embed/"
  const EmbedSuffix := "?autoplay=0&rel=0"

  /** The iframe source of the trailer embed; nothing is rendered for an empty key. */
  function YouTubeEmbedSrc(key: Option<string>): (r: Option<string>)
    ensures r.Some? <==> Present(key)
    ensures r.Some? ==> EmbedPrefix <= r.value && |r.value| == |EmbedPrefix| + |key.value| + |EmbedSuffix|
    ensures r.Some? ==> r.value[|EmbedPrefix|..|EmbedPrefix| + |key.value|] == key.value
    ensures r.Some? ==> r.value[|EmbedPrefix| + |key.value|..] == EmbedSuffix
  {
    if Present(key) then Some(EmbedPrefix + key.value + EmbedSuffix) else None
  }

  /** The video key written into an embed source (the text between the prefix and the first '?'). */
  function EmbeddedKey(src: string): Option<string> {
    if EmbedPrefix <= src && '?' in src[|EmbedPrefix|..] then
      var rest := src[|EmbedPrefix|..];
      Some(rest[..IndexOf(rest, '?')])
    else None
  }

  /** A key without '?' can be read back out of its embed source. */
  lemma EmbedKeyRoundTrip(key: string)
    requires key != [] && '?' !in key
    ensures EmbeddedKey(YouTubeEmbedSrc(Some(key)).value) == Some(key)
  {
    var src := EmbedPrefix + key + EmbedSuffix;
    assert src[|EmbedPrefix|..] == key + ['?'] + EmbedSuffix[1..];
    IndexOfAfterPrefix(key, '?', EmbedSuffix[1..]);
    assert (key + ['?'] + EmbedSuffix[1..])[..|key|] == key;
  }

  /**
    The trailer key held once a title's details arrive, given the key held
    before: the page replaces it only when it picks a YouTube video, so a
    title without one keeps the key of the title shown before it.
   */
  function TrailerAfterFetch(prev: Option<string>, videos: Option<seq<Video>>): (r: Option<string>)
    ensures (forall j :: 0 <= j < |videos.GetOr([])| ==> !OnYouTube(videos.GetOr([])[j])) ==> r == prev
    ensures (exists j :: 0 <= j < |videos.GetOr([])| && OnYouTube(videos.GetOr([])[j])) ==>
      r == PickTrailer(videos.GetOr([])).value.key
  {
    match TrailerKey(videos)
    case Some(k) => k
    case None => prev
  }

  /**
    Following a similar title reuses the page, and the previous title's
    trailer stays on screen for a title that has no videos at all.
   */
  lemma StaleTrailer()
    ensures TrailerAfterFetch(Some("abc"), Some([])) == Some("abc")
    ensures YouTubeEmbedSrc(TrailerAfterFetch(Some("abc"), Some([]))).Some?
  {
  }

  /** The trailer key of a title, starting from no key as a fresh page does. */
  function TrailerForTitle(videos: Option<seq<Video>>): (r: Option<string>)
    ensures (forall j :: 0 <= j < |videos.GetOr([])| ==> !OnYouTube(videos.GetOr([])[j])) ==> r.None?
    ensures (exists j :: 0 <= j < |videos.GetOr([])| && OnYouTube(videos.GetOr([])[j])) ==>
      r == PickTrailer(videos.GetOr([])).value.key
  {
    TrailerAfterFetch(None, videos)
  }

  /**
    With the key cleared for every title, the trailer section shows an embed
    exactly when this title's chosen video is on YouTube with a non-empty key,
    whatever was shown before.
   */
  lemma TrailerShown(videos: Option<seq<Video>>)
    ensures YouTubeEmbedSrc(TrailerForTitle(videos)).Some? <==>
      PickTrailer(videos.GetOr([])).Some? && Present(PickTrailer(videos.GetOr([])).value.key)
  {
  }

  // ---------------------------------------------------------------------------
  // Page kind and seasons

  /** The page is a TV page when its path contains `/tv/`. */
  predicate PageIsTv(path: string) {
    Contains(path, "/tv/")
  }

  /** The page path of a TV show or movie detail route is classified by its kind. */
  lemma RouteKindDecidesPage(k: Kind, id: nat)
    requires k != Person
    ensures PageIsTv(Path(k, id)) <==> k == Tv
  {
    var digits := NatToString(id);
    var p := Path(k, id);
    if k == Tv {
      assert p == "/tv/" + digits;
    } else {
      assert p == "/movie/" + digits;
      ContainsIff(p, "/tv/");
      forall i | 0 <= i <= |p| - 4
        ensures !OccursAt(p, "/tv/", i)
      {
        NoTvAt(digits, i);
      }
    }
  }

  /** No position of a movie route holds `/tv/`. */
  lemma NoTvAt(digits: string, i: int)
    requires AllDigits(digits)
    requires 0 <= i <= |digits| + 3
    ensures ("/movie/" + digits)[i..i + 4] != "/tv/"
  {
    var p := "/movie/" + digits;
    if i == 0 {
      assert p[i..i + 4][1] == 'm';
    } else if i <= 5 {
      assert p[i..i + 4][0] == p[i] && p[i] != '/';
    } else {
      assert p[i..i + 4][1] == p[i + 1] == digits[i - 6];
    }
  }

  /** The season buttons: 1 through `number_of_seasons` on a TV page with seasons. */
  function SeasonButtons(isTv: bool, seasons: Option<int>): (r: seq<int>)
    ensures r != [] <==> isTv && seasons.Some? && seasons.value > 0
    ensures forall s :: s in r <==> isTv && seasons.Some? && 1 <= s <= seasons.value
    ensures forall i, j :: 0 <= i < j < |r| ==> r[i] < r[j]
  {
    if isTv && seasons.Some? && seasons.value > 0 then
      var r := seq(seasons.value, i requires 0 <= i < seasons.value => i + 1);
      forall s | 1 <= s <= seasons.value
        ensures s in r
      {
        assert r[s - 1] == s;
      }
      r
    else []
  }

  /** An episode overview: cut to 150 characters plus an ellipsis when longer; nothing when empty. */
  function EpisodeOverview(overview: Option<string>): (r: Option<string>)
    ensures r.Some? <==> Present(overview)
    ensures r.Some? ==> |r.value| <= 153
    ensures r.Some? && |overview.value| <= 150 ==> r.value == overview.value
    ensures r.Some? && |overview.value| > 150 ==> overview.value[..150] + "..." == r.value
  {
    if Present(overview) then Some(Ellipsize(overview.value, 150)) else None
  }

  // ---------------------------------------------------------------------------
  // Cast and similar titles

  /**
    The cast cards in the scrolling track: the first 30 members, rendered
    twice in a row; nothing when the cast is missing or empty.
   */
  function CastTrack<T>(cast: Option<seq<T>>): (r: seq<T>)
    ensures cast.None? ==> r == []
    ensures cast.Some? ==> |r| == 2 * Min(30, |cast.value|)
    ensures var n := |r| / 2;
      n <= 30 && r[..n] == r[n..] && (cast.Some? ==> r[..n] <= cast.value)
  {
    match cast
    case None => []
    case Some(c) =>
      var shown := Take(c, 30);
      var r := shown + shown;
      assert r[..|shown|] == shown && r[|shown|..] == shown;
      r
  }

  /** A cast card links to the person page. */
  function CastRoute(personId: nat): (r: string)
    ensures ParsePath(r) == Some((Person, personId))
  {
    ParsePathComplete(Person, personId);
    Path(Person, personId)
  }

  /** The similar titles shown: the first 12. */
  function SimilarShown<T>(similar: seq<T>): (r: seq<T>)
    ensures |r| == Min(12, |similar|) && r <= similar
  {
    Take(similar, 12)
  }

  /**
    The TV test for a similar title: the list views' test, or a name
    without a title.
   */
  predicate SimilarIsTv(item: Item) {
    ListedAsTv(item) || (!Present(item.title) && Present(item.name))
  }

  /** Where a click on a similar title leads. */
  function SimilarRoute(item: Item): (r: string)
    ensures ParsePath(r).Some? && ParsePath(r).value.1 == item.id
    ensures ParsePath(r).value.0 == Tv <==>
      item.mediaType == Some("tv")
      || (Present(item.firstAirDate) && !Present(item.releaseDate))
      || (!Present(item.title) && Present(item.name))
    ensures ParsePath(r).value.0 != Person
  {
    var k := if SimilarIsTv(item) then Tv else Movie;
    ParsePathComplete(k, item.id);
    Path(k, item.id)
  }

  /**
    The similar-title test only adds cases to the list views' test: a row
    with a title is classified as they classify it.
   */
  lemma SimilarAgreesWhenTitled(item: Item)
    requires Present(item.title)
    ensures SimilarIsTv(item) <==> ListedAsTv(item)
  {
  }

  /** The play button: `/player/{tv|movie}/{id}` after the page kind. */
  function PlayRoute(isTv: bool, id: nat): (r: string)
    ensures "/player" <= r
    ensures ParsePath(r[7..]) == Some((if isTv then Tv else Movie, id))
  {
    var k := if isTv then Tv else Movie;
    ParsePathComplete(k, id);
    PlayerPath(k, id)
  }

  /** The cast arrows scroll by 600 pixels, to the left for `left`. */
  function CastScroll(direction: string): (r: int)
    ensures r == -600 <==> direction == "left"
    ensures r == -600 || r == 600
  {
    if direction == "left" then -600 else 600
  }
}
