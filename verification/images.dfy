/**
  The lazily loading image component: how it picks a CDN URL and a
  responsive source set for a metadata-API image path, and the three flags
  (loaded, in view, failed) that decide whether the placeholder and the real
  image are shown.
 */
module OptimizedImage {
  import opened Common
  import opened Strings

  const ImageBase := "https://image.tmdb.org/t/p/"

  datatype ImageType = Poster | Backdrop | Profile | Still

  /** The size tokens of one image type. */
  datatype SizeTable = SizeTable(small: string, medium: string, large: string, original: string)

  /** Unknown type names fall back to the poster table. */
  function TypeOf(name: string): (t: ImageType)
    ensures name == "backdrop" <==> t == Backdrop
    ensures name == "profile" <==> t == Profile
    ensures name == "still" <==> t == Still
  {
    if name == "backdrop" then Backdrop
    else if name == "profile" then Profile
    else if name == "still" then Still
    else Poster
  }

  function Table(t: ImageType): SizeTable {
    match t
    case Poster => SizeTable("w185", "w342", "w500", "original")
    case Backdrop => SizeTable("w300", "w780", "w1280", "original")
    case Profile => SizeTable("w45", "w185", "h632", "original")
    case Still => SizeTable("w185", "w300", "w500", "original")
  }

  /** `sizeConfig[size] || sizeConfig.medium`. */
  function SizeToken(table: SizeTable, size: string): (token: string)
    ensures token in {table.small, table.medium, table.large, table.original}
    ensures size == "small" ==> token == table.small
    ensures size == "large" ==> token == table.large
    ensures size == "original" ==> token == table.original
    ensures size !in {"small", "large", "original"} ==> token == table.medium
  {
    if size == "small" then table.small
    else if size == "large" then table.large
    else if size == "original" then table.original
    else table.medium
  }

  /** No size token of any table contains '/'. */
  lemma TokensHaveNoSlash(t: ImageType, size: string)
    ensures '/' !in SizeToken(Table(t), size)
  {
  }

  /** `getTMDBImageUrl`: nothing for a missing or empty path. */
  function ImageUrl(path: Option<string>, typeName: string, size: string): (r: Option<string>)
    ensures r.Some? <==> Present(path)
    ensures r.Some? ==> ImageBase <= r.value
  {
    if !Present(path) then None
    else Some(ImageBase + SizeToken(Table(TypeOf(typeName)), size) + path.value + ".webp")
  }

  /** Reads a CDN URL back into its size token and image path. */
  function ParseImageUrl(url: string): Option<(string, string)> {
    if ImageBase <= url && |url| >= |ImageBase| + 5 && url[|url| - 5..] == ".webp" then
      var mid := url[|ImageBase|..|url| - 5];
      if '/' in mid then
        var i := IndexOf(mid, '/');
        Some((mid[..i], mid[i..]))
      else None
    else None
  }

  /** A URL built for a path starting with '/' (as the metadata API returns them) reads back to its token and path. */
  lemma ImageUrlRoundTrip(path: string, typeName: string, size: string)
    requires |path| >= 1 && path[0] == '/'
    ensures ParseImageUrl(ImageUrl(Some(path), typeName, size).value)
      == Some((SizeToken(Table(TypeOf(typeName)), size), path))
  {
    var token := SizeToken(Table(TypeOf(typeName)), size);
    TokensHaveNoSlash(TypeOf(typeName), size);
    var url := ImageBase + token + path + ".webp";
    var mid := token + path;
    assert url[|ImageBase|..|url| - 5] == mid;
    assert url[|url| - 5..] == ".webp";
    assert mid == token + ['/'] + path[1..];
    IndexOfAfterPrefix(token, '/', path[1..]);
    assert mid[..|token|] == token;
    assert mid[|token|..] == path;
  }

  // ---------------------------------------------------------------------------
  // Source set

  /** The digits of a token, other characters dropped (`value.replace(/\D/g, '')`). */
  function DigitsOf(s: string): (d: string)
    ensures AllDigits(d)
  {
    if |s| == 0 then []
    else (if IsDigit(s[0]) then [s[0]] else []) + DigitsOf(s[1..])
  }

  /** `parseInt(digits) || 500`: no digits, or zero, give 500. */
  function Width(token: string): (w: nat)
    ensures w > 0
    ensures DigitsOf(token) == [] || ParseDigits(DigitsOf(token)) == 0 ==> w == 500
  {
    var d := DigitsOf(token);
    if d == [] || ParseDigits(d) == 0 then 500 else ParseDigits(d)
  }

  /** One source-set candidate: a URL and the width it is declared for. */
  datatype Candidate = Candidate(url: string, width: nat)

  /** Every size of the table except `original`, in table order. */
  function Candidates(path: string, t: ImageType): seq<Candidate> {
    var table := Table(t);
    seq(3, i requires 0 <= i < 3 =>
      var token := if i == 0 then table.small else if i == 1 then table.medium else table.large;
      Candidate(ImageBase + token + path + ".webp", Width(token)))
  }

  function RenderCandidate(c: Candidate): string {
    c.url + " " + NatToString(c.width) + "w"
  }

  /** `getTMDBSrcSet`: empty for a missing or empty path. */
  function SrcSet(path: Option<string>, typeName: string): (r: string)
    ensures !Present(path) ==> r == ""
    ensures Present(path) ==>
      var cs := Candidates(path.value, TypeOf(typeName));
      r == RenderCandidate(cs[0]) + ", " + RenderCandidate(cs[1]) + ", " + RenderCandidate(cs[2])
  {
    if !Present(path) then ""
    else
      var cs := Candidates(path.value, TypeOf(typeName));
      var parts := seq(|cs|, i requires 0 <= i < |cs| => RenderCandidate(cs[i]));
      assert parts[1..][1..] == [parts[2]];
      assert Join(parts[1..], ", ") == parts[1] + ", " + parts[2];
      Join(parts, ", ")
  }

  /** The source set offers the small, medium and large URLs of `ImageUrl` for the same path and type. */
  lemma SrcSetMatchesImageUrls(path: string, typeName: string)
    requires path != ""
    ensures var cs := Candidates(path, TypeOf(typeName));
      && |cs| == 3
      && cs[0].url == ImageUrl(Some(path), typeName, "small").value
      && cs[1].url == ImageUrl(Some(path), typeName, "medium").value
      && cs[2].url == ImageUrl(Some(path), typeName, "large").value
  {
    var table := Table(TypeOf(typeName));
    assert SizeToken(table, "small") == table.small;
    assert SizeToken(table, "medium") == table.medium;
    assert SizeToken(table, "large") == table.large;
  }

  /** The declared widths grow strictly from small to large, for every image type. */
  lemma SrcSetWidthsIncreasing(path: string, t: ImageType)
    ensures var cs := Candidates(path, t);
      cs[0].width < cs[1].width < cs[2].width
  {
    match t
    case Poster => PosterWidths();
    case Backdrop => BackdropWidths();
    case Profile => ProfileWidths();
    case Still => StillWidths();
  }

  /** The original size is never offered in the source set. */
  lemma SrcSetOmitsOriginal(path: string, typeName: string, i: int)
    requires path != "" && 0 <= i < 3
    ensures Candidates(path, TypeOf(typeName))[i].url != ImageUrl(Some(path), typeName, "original").value
  {
    var t := TypeOf(typeName);
    var token := if i == 0 then Table(t).small else if i == 1 then Table(t).medium else Table(t).large;
    var u := Candidates(path, t)[i].url;
    var o := ImageBase + "original" + path + ".webp";
    assert u == ImageBase + token + path + ".webp";
    assert o[|ImageBase|] == 'o';
    assert u[|ImageBase|] == token[0];
  }

  lemma {:induction false} DigitsOfDigits(d: string)
    requires AllDigits(d)
    ensures DigitsOf(d) == d
  {
    if |d| > 0 {
      DigitsOfDigits(d[1..]);
    }
  }

  /** A letter followed by a positive decimal number declares that number as its width. */
  lemma WidthAfterLetter(c: char, d: string)
    requires !IsDigit(c) && AllDigits(d) && ParseDigits(d) > 0
    ensures Width([c] + d) == ParseDigits(d)
  {
    var s := [c] + d;
    assert s[0] == c && s[1..] == d;
    assert DigitsOf(s) == DigitsOf(d);
    DigitsOfDigits(d);
    assert d != [];
  }

  lemma ParseTwo(a: char, b: char)
    requires IsDigit(a) && IsDigit(b)
    ensures ParseDigits([a, b]) == DigitValue(a) * 10 + DigitValue(b)
  {
    assert [a, b][..1] == [a];
    assert [a][..0] == [];
    assert ParseDigits([a]) == DigitValue(a);
  }

  lemma ParseThree(a: char, b: char, d: char)
    requires IsDigit(a) && IsDigit(b) && IsDigit(d)
    ensures ParseDigits([a, b, d]) == DigitValue(a) * 100 + DigitValue(b) * 10 + DigitValue(d)
  {
    assert [a, b, d][..2] == [a, b];
    ParseTwo(a, b);
  }

  lemma ParseFour(a: char, b: char, d: char, e: char)
    requires IsDigit(a) && IsDigit(b) && IsDigit(d) && IsDigit(e)
    ensures ParseDigits([a, b, d, e]) == DigitValue(a) * 1000 + DigitValue(b) * 100 + DigitValue(d) * 10 + DigitValue(e)
  {
    assert [a, b, d, e][..3] == [a, b, d];
    ParseThree(a, b, d);
  }

  /** The width of a letter and two digits. */
  lemma WidthOfTwo(c: char, a: char, b: char)
    requires !IsDigit(c) && IsDigit(a) && IsDigit(b) && a != '0'
    ensures Width([c, a, b]) == DigitValue(a) * 10 + DigitValue(b)
  {
    ParseTwo(a, b);
    assert [c, a, b] == [c] + [a, b];
    WidthAfterLetter(c, [a, b]);
  }

  /** The width of a letter and three digits. */
  lemma WidthOfThree(c: char, a: char, b: char, d: char)
    requires !IsDigit(c) && IsDigit(a) && IsDigit(b) && IsDigit(d) && a != '0'
    ensures Width([c, a, b, d]) == DigitValue(a) * 100 + DigitValue(b) * 10 + DigitValue(d)
  {
    ParseThree(a, b, d);
    assert [c, a, b, d] == [c] + [a, b, d];
    WidthAfterLetter(c, [a, b, d]);
  }

  /** The width of a letter and four digits. */
  lemma WidthOfFour(c: char, a: char, b: char, d: char, e: char)
    requires !IsDigit(c) && IsDigit(a) && IsDigit(b) && IsDigit(d) && IsDigit(e) && a != '0'
    ensures Width([c, a, b, d, e]) == DigitValue(a) * 1000 + DigitValue(b) * 100 + DigitValue(d) * 10 + DigitValue(e)
  {
    ParseFour(a, b, d, e);
    assert [c, a, b, d, e] == [c] + [a, b, d, e];
    WidthAfterLetter(c, [a, b, d, e]);
  }

  lemma PosterWidths()
    ensures Width("w185") == 185 && Width("w342") == 342 && Width("w500") == 500
  {
    WidthOfThree('w', '1', '8', '5');
    WidthOfThree('w', '3', '4', '2');
    WidthOfThree('w', '5', '0', '0');
  }

  lemma BackdropWidths()
    ensures Width("w300") == 300 && Width("w780") == 780 && Width("w1280") == 1280
  {
    WidthOfThree('w', '3', '0', '0');
    WidthOfThree('w', '7', '8', '0');
    WidthOfFour('w', '1', '2', '8', '0');
  }

  lemma ProfileWidths()
    ensures Width("w45") == 45 && Width("w185") == 185 && Width("h632") == 632
  {
    WidthOfTwo('w', '4', '5');
    WidthOfThree('w', '1', '8', '5');
    WidthOfThree('h', '6', '3', '2');
  }

  lemma StillWidths()
    ensures Width("w185") == 185 && Width("w300") == 300 && Width("w500") == 500
  {
    WidthOfThree('w', '1', '8', '5');
    WidthOfThree('w', '3', '0', '0');
    WidthOfThree('w', '5', '0', '0');
  }

  // ---------------------------------------------------------------------------
  // Component

  /** `tmdbPath ? getTMDBImageUrl(...) : src`. */
  function ImageSource(tmdbPath: Option<string>, typeName: string, size: string, src: Option<string>): (r: Option<string>)
    ensures Present(tmdbPath) ==> Present(r) && ImageBase <= r.value
    // The CDN URL reads back to the chosen size of this type and the path itself.
    ensures Present(tmdbPath) && tmdbPath.value[0] == '/' ==>
      ParseImageUrl(r.value) == Some((SizeToken(Table(TypeOf(typeName)), size), tmdbPath.value))
    ensures !Present(tmdbPath) ==> r == src
  {
    if Present(tmdbPath) then
      assert tmdbPath.value[0] == '/' ==>
        ParseImageUrl(ImageUrl(tmdbPath, typeName, size).value)
          == Some((SizeToken(Table(TypeOf(typeName)), size), tmdbPath.value)) by {
        if tmdbPath.value[0] == '/' {
          ImageUrlRoundTrip(tmdbPath.value, typeName, size);
        }
      }
      ImageUrl(tmdbPath, typeName, size)
    else src
  }

  /** `tmdbPath ? getTMDBSrcSet(...) : undefined`. */
  function SourceSet(tmdbPath: Option<string>, typeName: string): (r: Option<string>)
    ensures r.Some? <==> Present(tmdbPath)
    ensures r.Some? ==>
      var cs := Candidates(tmdbPath.value, TypeOf(typeName));
      r.value == RenderCandidate(cs[0]) + ", " + RenderCandidate(cs[1]) + ", " + RenderCandidate(cs[2])
  {
    if Present(tmdbPath) then Some(SrcSet(tmdbPath, typeName)) else None
  }

  /**
    Unless the original size is asked for, the image's own source is one of
    the candidates its source set offers: the small, medium or large one.
   */
  lemma SourceAmongCandidates(tmdbPath: Option<string>, typeName: string, size: string, src: Option<string>)
    requires Present(tmdbPath) && size != "original"
    ensures var cs := Candidates(tmdbPath.value, TypeOf(typeName));
      ImageSource(tmdbPath, typeName, size, src).value ==
        (if size == "small" then cs[0].url else if size == "large" then cs[2].url else cs[1].url)
  {
    SrcSetMatchesImageUrls(tmdbPath.value, typeName);
  }

  datatype ImageState = ImageState(isLoaded: bool, isInView: bool, hasError: bool)

  /** The initial state: only a priority image counts as in view. */
  function Init(priority: bool): (s: ImageState)
    ensures !s.isLoaded && !s.hasError
    ensures s.isInView <==> priority
  {
    ImageState(false, priority, false)
  }

  /** What the component renders from its state and whether its source is truthy. */
  predicate ShowPlaceholder(s: ImageState) {
    !s.isLoaded || s.hasError
  }

  predicate ShouldLoadImage(s: ImageState, hasSrc: bool) {
    s.isInView && hasSrc && !s.hasError
  }

  datatype Event =
    | Mount(hasElement: bool, observerSupported: bool)   // the observer effect runs
    | Intersect(isIntersecting: bool)                    // the observer reports an entry
    | Loaded                                             // the <img> fires load
    | Errored                                            // the <img> fires error

  /**
    One event. Load and error can only come from a rendered <img>, so they
    are ignored while the image is not rendered.
   */
  function Step(s: ImageState, priority: bool, hasSrc: bool, e: Event): (r: ImageState)
    ensures s.isLoaded ==> r.isLoaded
    ensures s.isInView ==> r.isInView
    ensures s.hasError ==> r.hasError
    ensures r.isLoaded && !s.isLoaded ==> e == Loaded && ShouldLoadImage(s, hasSrc)
    ensures r.hasError && !s.hasError ==> e == Errored && ShouldLoadImage(s, hasSrc)
    ensures e == Loaded && ShouldLoadImage(s, hasSrc) ==> r.isLoaded
    ensures e == Errored && ShouldLoadImage(s, hasSrc) ==> r.hasError
    ensures e == Intersect(true) ==> r.isInView
    ensures r.isInView && !s.isInView ==>
      e == Intersect(true) || (e.Mount? && (priority || !e.hasElement || !e.observerSupported))
  {
    match e
    case Mount(hasElement, observerSupported) =>
      if priority || !hasElement || !observerSupported then s.(isInView := true) else s
    case Intersect(isIntersecting) =>
      if isIntersecting then s.(isInView := true) else s
    case Loaded =>
      if ShouldLoadImage(s, hasSrc) then s.(isLoaded := true) else s
    case Errored =>
      if ShouldLoadImage(s, hasSrc) then s.(hasError := true) else s
  }

  function Run(s: ImageState, priority: bool, hasSrc: bool, events: seq<Event>): ImageState
    decreases |events|
  {
    if |events| == 0 then s
    else Run(Step(s, priority, hasSrc, events[0]), priority, hasSrc, events[1..])
  }

  /** A loaded image was in view and had a source. */
  predicate Consistent(s: ImageState, hasSrc: bool) {
    s.isLoaded ==> s.isInView && hasSrc
  }

  /** Flags only ever turn on, and every reachable state is consistent. */
  lemma {:induction false} RunMonotone(s: ImageState, priority: bool, hasSrc: bool, events: seq<Event>)
    requires Consistent(s, hasSrc)
    ensures var r := Run(s, priority, hasSrc, events);
      && (s.isLoaded ==> r.isLoaded)
      && (s.isInView ==> r.isInView)
      && (s.hasError ==> r.hasError)
      && Consistent(r, hasSrc)
    decreases |events|
  {
    if |events| > 0 {
      RunMonotone(Step(s, priority, hasSrc, events[0]), priority, hasSrc, events[1..]);
    }
  }

  /** A priority image is in view from the first render on, whatever happens. */
  lemma PriorityAlwaysInView(hasSrc: bool, events: seq<Event>)
    ensures Run(Init(true), true, hasSrc, events).isInView
  {
    RunMonotone(Init(true), true, hasSrc, events);
  }

  /** An image without a source never loads. */
  lemma NoSourceNeverLoads(priority: bool, events: seq<Event>)
    ensures !Run(Init(priority), priority, false, events).isLoaded
  {
    RunMonotone(Init(priority), priority, false, events);
  }

  /** The wrapper is never blank: when the placeholder is hidden, the image is rendered. */
  lemma NeverBlank(priority: bool, hasSrc: bool, events: seq<Event>)
    ensures var s := Run(Init(priority), priority, hasSrc, events);
      ShowPlaceholder(s) || ShouldLoadImage(s, hasSrc)
  {
    RunMonotone(Init(priority), priority, hasSrc, events);
  }

  /** After an error the placeholder stays and the image is gone for good. */
  lemma ErrorIsFinal(s: ImageState, priority: bool, hasSrc: bool, events: seq<Event>)
    requires Consistent(s, hasSrc) && s.hasError
    ensures var r := Run(s, priority, hasSrc, events);
      ShowPlaceholder(r) && !ShouldLoadImage(r, hasSrc)
  {
    RunMonotone(s, priority, hasSrc, events);
  }

  // ---------------------------------------------------------------------------
  // Renders with changing props

  /**
    One render: the props it receives (`priority`, and whether `tmdbPath` or
    `src` gives a truthy source), then one event. The state survives a change
    of props; a change of `priority` re-runs the observer effect, which is a
    `Mount` event in the same tick.
   */
  datatype Tick = Tick(priority: bool, hasSrc: bool, event: Event)

  function Replay(s: ImageState, ticks: seq<Tick>): ImageState
    decreases |ticks|
  {
    if |ticks| == 0 then s
    else Replay(Step(s, ticks[0].priority, ticks[0].hasSrc, ticks[0].event), ticks[1..])
  }

  /** The same props on every tick. */
  function Constant(priority: bool, hasSrc: bool, events: seq<Event>): (ticks: seq<Tick>)
    ensures |ticks| == |events|
    ensures forall i :: 0 <= i < |ticks| ==> ticks[i] == Tick(priority, hasSrc, events[i])
  {
    seq(|events|, i requires 0 <= i < |events| => Tick(priority, hasSrc, events[i]))
  }

  /** A run with fixed props is a replay whose every tick carries those props. */
  lemma {:induction false} RunIsReplay(s: ImageState, priority: bool, hasSrc: bool, events: seq<Event>)
    ensures Run(s, priority, hasSrc, events) == Replay(s, Constant(priority, hasSrc, events))
    decreases |events|
  {
    if |events| > 0 {
      assert Constant(priority, hasSrc, events)[1..] == Constant(priority, hasSrc, events[1..]);
      RunIsReplay(Step(s, priority, hasSrc, events[0]), priority, hasSrc, events[1..]);
    }
  }

  /** Whatever the props do, flags only turn on and a loaded image was in view. */
  lemma {:induction false} ReplayLoadedInView(s: ImageState, ticks: seq<Tick>)
    requires s.isLoaded ==> s.isInView
    ensures var r := Replay(s, ticks);
      && (s.isLoaded ==> r.isLoaded)
      && (s.hasError ==> r.hasError)
      && (r.isLoaded ==> r.isInView)
    decreases |ticks|
  {
    if |ticks| > 0 {
      ReplayLoadedInView(Step(s, ticks[0].priority, ticks[0].hasSrc, ticks[0].event), ticks[1..]);
    }
  }

  /**
    As written, a loaded image that is re-rendered without a source shows
    neither the placeholder nor the image: the wrapper is blank.
   */
  lemma BlankAfterSourceLost()
    ensures var s := Replay(Init(true), [Tick(true, true, Loaded)]);
      s.isLoaded && !ShowPlaceholder(s) && !ShouldLoadImage(s, false)
  {
    var s1 := Step(Init(true), true, true, Loaded);
    assert s1.isLoaded;
    assert Replay(Init(true), [Tick(true, true, Loaded)]) == Replay(s1, []);
  }

  /** The placeholder also covers a render that has no source to show. */
  predicate ShowPlaceholderWithoutSource(s: ImageState, hasSrc: bool) {
    ShowPlaceholder(s) || !hasSrc
  }

  /** With that placeholder the wrapper is never blank, whatever the props do between renders. */
  lemma NeverBlankAcrossRenders(priority: bool, ticks: seq<Tick>, hasSrc: bool)
    ensures var s := Replay(Init(priority), ticks);
      ShowPlaceholderWithoutSource(s, hasSrc) || ShouldLoadImage(s, hasSrc)
  {
    ReplayLoadedInView(Init(priority), ticks);
  }

  /** Without an observer to wait for, mounting puts the image in view at once. */
  lemma MountWithoutObserver(s: ImageState, priority: bool, hasSrc: bool, hasElement: bool, observerSupported: bool)
    requires priority || !hasElement || !observerSupported
    ensures Step(s, priority, hasSrc, Mount(hasElement, observerSupported)).isInView
  {
  }
}
