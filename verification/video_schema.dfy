/**
  The structured-data block the `VideoSchema` component puts in the document
  head: a schema.org VideoObject, turned into a TVEpisode for an episode, or
  paired with a Movie node in a two-node graph for a movie. The component
  removes any earlier block before adding this one; the movie branch adds
  its block without a cleanup, so that block stays after the component goes.
  The `duration` prop is read as a number of minutes.
 */
module VideoSchema {
  import opened Common
  import opened Strings

  /** The component's props; `kind` is the `type` prop, `movie` when not passed. */
  datatype Props = Props(
    name: Option<string>,
    description: Option<string>,
    thumbnailUrl: Option<string>,
    uploadDate: Option<string>,
    duration: Option<int>,          // minutes
    contentUrl: Option<string>,
    embedUrl: Option<string>,
    kind: Option<string>,
    seasonNumber: Option<int>,
    episodeNumber: Option<int>,
    seriesName: Option<string>)

  /** A number prop is truthy when given and not zero. */
  predicate NumberTruthy(n: Option<int>) {
    n.Some? && n.value != 0
  }

  function KindOf(p: Props): string {
    p.kind.GetOr("movie")
  }

  /** The episode part of a TVEpisode node: `episodeNumber` and `partOfSeason`. */
  datatype Episode = Episode(episodeNumber: int, seasonNumber: int, seriesName: string)

  /** The VideoObject node; its `@type` is TVEpisode exactly when `episode` is set. */
  datatype VideoNode = VideoNode(
    name: string,
    description: string,
    thumbnailUrl: string,
    uploadDate: string,
    duration: Option<string>,
    contentUrl: Option<string>,
    embedUrl: Option<string>,
    episode: Option<Episode>)

  function TypeName(v: VideoNode): string {
    if v.episode.Some? then "TVEpisode" else "VideoObject"
  }

  /** The Movie node of the movie graph; `dateCreated` is the raw upload-date prop. */
  datatype MovieNode = MovieNode(name: string, description: string, image: string, dateCreated: Option<string>)

  datatype Schema =
    | Single(video: VideoNode)
    | Graph(video: VideoNode, movie: MovieNode)   // `@graph: [video, movie]`

  // ---------------------------------------------------------------------------
  // Duration

  /** JavaScript `%` on integers: the remainder takes the sign of the dividend. */
  function JsRem(a: int, b: int): (r: int)
    requires b > 0
    ensures a >= 0 ==> r == a % b
    ensures a < 0 ==> -b < r <= 0
    ensures a < 0 ==> r == -((-a) % b)
  {
    if a >= 0 then a % b else -((-a) % b)
  }

  /** `Math.floor(d / 60)` on an integer d. */
  function FloorDiv60(d: int): (h: int)
    ensures h * 60 <= d < h * 60 + 60
  {
    d / 60
  }

  /** ISO 8601 duration for a truthy number of minutes: `PT{h}H{m}M`, or `PT{m}M` below an hour. */
  function FormatDuration(d: int): string {
    var hours := FloorDiv60(d);
    var minutes := JsRem(d, 60);
    if hours > 0 then "PT" + IntToString(hours) + "H" + IntToString(minutes) + "M"
    else "PT" + IntToString(minutes) + "M"
  }

  /** Reads `PT{h}H{m}M` or `PT{m}M` (canonical decimals) back into minutes. */
  function ParseDuration(s: string): Option<int> {
    if |s| >= 3 && s[..2] == "PT" && s[|s| - 1] == 'M' then ParseClock(s[2..|s| - 1]) else None
  }

  /** `{h}H{m}` or `{m}`, in minutes. */
  function ParseClock(inner: string): Option<int> {
    match SplitAtH(inner)
    case Some((h, m)) => HoursAndMinutes(h, m)
    case None => Minutes(inner)
  }

  function HoursAndMinutes(h: string, m: string): Option<int> {
    if Canonical(h) && Canonical(m) then Some(ParseDigits(h) * 60 + ParseDigits(m)) else None
  }

  function Minutes(m: string): Option<int> {
    if Canonical(m) then Some(ParseDigits(m)) else None
  }

  /** The text before and after the first 'H', if there is one. */
  function SplitAtH(inner: string): Option<(string, string)> {
    if 'H' in inner then
      var i := IndexOf(inner, 'H');
      Some((inner[..i], inner[i + 1..]))
    else None
  }

  lemma NoLetterInNat(n: nat, c: char)
    requires !IsDigit(c)
    ensures c !in NatToString(n)
  {
  }

  /** A positive duration reads back to the same number of minutes. */
  lemma DurationRoundTrip(d: int)
    ensures d > 0 ==> ParseDuration(FormatDuration(d)) == Some(d)
  {
    if d >= 60 {
      var hs := NatToString(d / 60);
      var ms := NatToString(d % 60);
      assert FormatDuration(d) == "PT" + hs + "H" + ms + "M";
      ParseHoursForm(hs, ms);
      assert ParseDigits(hs) * 60 + ParseDigits(ms) == d;
    } else if d > 0 {
      MinutesRoundTrip(d);
      assert FormatDuration(d) == "PT" + NatToString(d) + "M";
    }
  }

  lemma ParseHoursForm(hs: string, ms: string)
    requires Canonical(hs) && Canonical(ms)
    ensures ParseDuration("PT" + hs + "H" + ms + "M") == Some(ParseDigits(hs) * 60 + ParseDigits(ms))
  {
    var s := "PT" + hs + "H" + ms + "M";
    var inner := hs + ['H'] + ms;
    assert s == "PT" + inner + "M";
    assert s[2..|s| - 1] == inner;
    ParseClockHours(hs, ms);
  }

  lemma ParseClockHours(hs: string, ms: string)
    requires Canonical(hs) && Canonical(ms)
    ensures ParseClock(hs + ['H'] + ms) == Some(ParseDigits(hs) * 60 + ParseDigits(ms))
  {
    var inner := hs + ['H'] + ms;
    SplitAtHAfterDigits(hs, ms);
    ClockOfSplit(inner, hs, ms);
    ClockValue(hs, ms);
  }

  lemma ClockValue(hs: string, ms: string)
    requires Canonical(hs) && Canonical(ms)
    ensures HoursAndMinutes(hs, ms) == Some(ParseDigits(hs) * 60 + ParseDigits(ms))
  {
  }

  lemma ClockOfSplit(inner: string, hs: string, ms: string)
    requires SplitAtH(inner) == Some((hs, ms))
    ensures ParseClock(inner) == HoursAndMinutes(hs, ms)
  {
  }

  lemma SplitAtHAfterDigits(hs: string, ms: string)
    requires Canonical(hs)
    ensures SplitAtH(hs + ['H'] + ms) == Some((hs, ms))
  {
    var inner := hs + ['H'] + ms;
    assert 'H' !in hs;
    IndexOfAfterPrefix(hs, 'H', ms);
    assert inner[..|hs|] == hs;
    assert inner[|hs| + 1..] == ms;
  }

  lemma MinutesRoundTrip(m: nat)
    ensures ParseDuration("PT" + NatToString(m) + "M") == Some(m)
  {
    var ms := NatToString(m);
    var s := "PT" + ms + "M";
    assert s[2..|s| - 1] == ms;
    NoLetterInNat(m, 'H');
  }

  /** Below an hour only minutes are written; from an hour on the minutes stay under 60. */
  lemma DurationShape(d: int)
    requires d > 0
    ensures d < 60 ==> FormatDuration(d) == "PT" + NatToString(d) + "M"
    ensures d >= 60 ==> FormatDuration(d) == "PT" + NatToString(d / 60) + "H" + NatToString(d % 60) + "M"
  {
  }

  // ---------------------------------------------------------------------------
  // The block

  /** The date part of an ISO timestamp (`toISOString().split('T')[0]`). */
  function DatePart(iso: string): (r: string)
    ensures r <= iso && 'T' !in r
  {
    Split(iso, 'T')[0]
  }

  /** The date part stops exactly at the first 'T', or is the whole timestamp when there is none. */
  lemma DatePartStopsAtT(iso: string)
    ensures |DatePart(iso)| < |iso| ==> iso[|DatePart(iso)|] == 'T'
  {
    var parts := Split(iso, 'T');
    assert Join(parts, ['T']) == iso;
    if |parts| > 1 {
      assert Join(parts, ['T']) == parts[0] + ['T'] + Join(parts[1..], ['T']);
    }
  }

  /**
    The block for the given props, with `nowIso` the current time as an ISO
    timestamp; none unless name, description and thumbnail are all non-empty.
   */
  function BuildSchema(p: Props, nowIso: string): (r: Option<Schema>)
    ensures r.Some? <==> Present(p.name) && Present(p.description) && Present(p.thumbnailUrl)
    ensures r.Some? ==> (r.value.Graph? <==> KindOf(p) == "movie")
    ensures r.Some? ==> (r.value.video.episode.Some? <==>
      KindOf(p) == "tv" && NumberTruthy(p.seasonNumber) && NumberTruthy(p.episodeNumber))
    ensures r.Some? && r.value.Graph? ==> TypeName(r.value.video) == "VideoObject"
    ensures r.Some? ==> (r.value.video.name == p.name.value
      && r.value.video.description == Take(p.description.value, 200)
      && r.value.video.thumbnailUrl == p.thumbnailUrl.value)
    ensures r.Some? ==> r.value.video.uploadDate == (if Present(p.uploadDate) then p.uploadDate.value else DatePart(nowIso))
    ensures r.Some? ==> (r.value.video.duration.Some? <==> NumberTruthy(p.duration))
    ensures r.Some? && r.value.video.duration.Some? && p.duration.value > 0 ==>
      ParseDuration(r.value.video.duration.value) == p.duration
    ensures r.Some? && r.value.video.episode.Some? ==>
      r.value.video.episode.value == Episode(p.episodeNumber.value, p.seasonNumber.value, OrElse(p.seriesName, p.name).value)
    ensures r.Some? ==> (r.value.video.contentUrl == (if Present(p.contentUrl) then p.contentUrl else None)
      && r.value.video.embedUrl == (if Present(p.embedUrl) then p.embedUrl else None))
    ensures r.Some? && r.value.Graph? ==>
      r.value.movie == MovieNode(r.value.video.name, r.value.video.description, r.value.video.thumbnailUrl, p.uploadDate)
  {
    if !Present(p.name) || !Present(p.description) || !Present(p.thumbnailUrl) then None
    else
      var name := p.name.value;
      var description := Take(p.description.value, 200);
      var duration := if NumberTruthy(p.duration) then Some(FormatDuration(p.duration.value)) else None;
      DurationRoundTrip(p.duration.GetOr(0));
      var episode :=
        if KindOf(p) == "tv" && NumberTruthy(p.seasonNumber) && NumberTruthy(p.episodeNumber) then
          Some(Episode(p.episodeNumber.value, p.seasonNumber.value, OrElse(p.seriesName, p.name).value))
        else None;
      var video := VideoNode(
        name,
        description,
        p.thumbnailUrl.value,
        if Present(p.uploadDate) then p.uploadDate.value else DatePart(nowIso),
        duration,
        if Present(p.contentUrl) then p.contentUrl else None,
        if Present(p.embedUrl) then p.embedUrl else None,
        episode);
      if KindOf(p) == "movie" then
        Some(Graph(video, MovieNode(name, description, p.thumbnailUrl.value, p.uploadDate)))
      else Some(Single(video))
  }

  /** The description is cut to its first 200 characters, never extended. */
  lemma DescriptionBounded(p: Props, nowIso: string)
    requires BuildSchema(p, nowIso).Some?
    ensures var v := BuildSchema(p, nowIso).value.video;
      |v.description| <= 200 && v.description <= p.description.value
      && (|p.description.value| <= 200 ==> v.description == p.description.value)
  {
  }
}
