/**
  One horizontally scrolling row of titles on the home page: whether it is
  rendered at all, where a click on a card leads, and how far the arrows
  scroll.
 */
module CategoryRow {
  import opened Common
  import opened Routes
  import SearchResults

  /** The row is rendered only for a present, non-empty list of items. */
  predicate Rendered(items: Option<seq<Item>>) {
    items.Some? && |items.value| > 0
  }

  /** The cards the row renders, one per item and in order; none when the row is not rendered. */
  function Cards(items: Option<seq<Item>>): (r: seq<string>)
    ensures r != [] <==> Rendered(items)
    ensures Rendered(items) ==> |r| == |items.value|
    ensures Rendered(items) ==> forall i :: 0 <= i < |r| ==> r[i] == CardRoute(items.value[i])
  {
    if Rendered(items) then seq(|items.value|, i requires 0 <= i < |items.value| => CardRoute(items.value[i]))
    else []
  }

  /** A click on a card: `/tv/{id}` for a TV-looking row, `/movie/{id}` for every other row. */
  function CardRoute(item: Item): (r: string)
    ensures ParsePath(r).Some? && ParsePath(r).value.1 == item.id
    ensures ParsePath(r).value.0 == Tv <==>
      item.mediaType == Some("tv") || (Present(item.firstAirDate) && !Present(item.releaseDate))
    ensures ParsePath(r).value.0 != Person
  {
    var k := if ListedAsTv(item) then Tv else Movie;
    ParsePathComplete(k, item.id);
    Path(k, item.id)
  }

  /**
    The row routes as the search results do, except that it never routes to
    a person: a person row goes to a title page where the results go to the
    person page.
   */
  lemma RoutesLikeSearchResults(item: Item)
    ensures item.mediaType != Some("person") ==> CardRoute(item) == SearchResults.CardRoute(item, false)
    ensures item.mediaType == Some("person") ==>
      ParsePath(CardRoute(item)).value.0 != Person && ParsePath(SearchResults.CardRoute(item, false)).value.0 == Person
  {
    var a := CardRoute(item);
    var b := SearchResults.CardRoute(item, false);
    if item.mediaType != Some("person") {
      ParsePathSound(a, ParsePath(a).value.0, item.id);
      ParsePathSound(b, ParsePath(b).value.0, item.id);
    }
  }

  /** The arrows scroll by 800 pixels, to the left for `left` and to the right otherwise. */
  function ScrollAmount(direction: string): (r: int)
    ensures r == -800 <==> direction == "left"
    ensures r == -800 || r == 800
  {
    if direction == "left" then -800 else 800
  }
}
