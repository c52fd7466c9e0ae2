/**
  Titles as the metadata API returns them, and the route strings the views
  navigate to: `/{movie|tv|person}/{id}` and `/player/{movie|tv}/{id}`.
  A route parser is given as the partner of the route builder: every built
  route parses back to its kind and id, and only built routes parse.
 */
module Routes {
  import opened Common
  import opened Strings

  /**
    One result row of the metadata API (a movie, a TV show or a person); the
    fields the decision functions look at. Absent and empty strings are both
    falsy in the views.
   */
  datatype Item = Item(
    id: nat,
    mediaType: Option<string>,
    title: Option<string>,
    name: Option<string>,
    releaseDate: Option<string>,
    firstAirDate: Option<string>)

  /**
    The list views' TV test: the row says it is TV, or it has a first-air
    date and no release date.
   */
  predicate ListedAsTv(item: Item) {
    item.mediaType == Some("tv") || (Present(item.firstAirDate) && !Present(item.releaseDate))
  }

  datatype Kind = Movie | Tv | Person

  function KindName(k: Kind): string {
    match k
    case Movie => "movie"
    case Tv => "tv"
    case Person => "person"
  }

  function KindOf(name: string): (r: Option<Kind>)
    ensures r.Some? ==> KindName(r.value) == name
    ensures forall k :: KindName(k) == name ==> r == Some(k)
  {
    if name == "movie" then Some(Movie)
    else if name == "tv" then Some(Tv)
    else if name == "person" then Some(Person)
    else None
  }

  /** `/{kind}/{id}`. */
  function Path(k: Kind, id: nat): string {
    "/" + KindName(k) + "/" + NatToString(id)
  }

  /** Every built route parses back to its kind and id. */
  lemma ParsePathComplete(k: Kind, id: nat)
    ensures ParsePath(Path(k, id)) == Some((k, id))
  {
    var name := KindName(k);
    var digits := NatToString(id);
    var r := Path(k, id);
    assert r[1..] == name + ['/'] + digits;
    IndexOfAfterPrefix(name, '/', digits);
    assert (name + ['/'] + digits)[..|name|] == name;
    assert (name + ['/'] + digits)[|name| + 1..] == digits;
  }

  /** `/player/{kind}/{id}`. */
  function PlayerPath(k: Kind, id: nat): string {
    "/player" + Path(k, id)
  }

  /** Reads a route `/{kind}/{id}` with a canonical decimal id. */
  function ParsePath(s: string): Option<(Kind, nat)> {
    if |s| >= 1 && s[0] == '/' && '/' in s[1..] then
      var rest := s[1..];
      var i := IndexOf(rest, '/');
      var digits := rest[i + 1..];
      match KindOf(rest[..i])
      case Some(k) => if Canonical(digits) then Some((k, ParseDigits(digits))) else None
      case None => None
    else None
  }

  /** Only built routes parse, so a route string determines its kind and id. */
  lemma ParsePathSound(s: string, k: Kind, id: nat)
    requires ParsePath(s) == Some((k, id))
    ensures Path(k, id) == s
  {
    var rest := s[1..];
    var i := IndexOf(rest, '/');
    var name := rest[..i];
    var digits := rest[i + 1..];
    assert KindOf(name) == Some(k) && KindName(k) == name;
    assert Canonical(digits) && id == ParseDigits(digits);
    CanonicalIsNatToString(digits);
    assert NatToString(id) == digits;
    SplitAround(rest, i);
    Reassemble(s, name, digits);
  }

  lemma SplitAround(s: string, i: int)
    requires 0 <= i < |s|
    ensures s == s[..i] + [s[i]] + s[i + 1..]
  {
  }

  lemma Reassemble(s: string, name: string, digits: string)
    requires |s| > 0 && s[0] == '/' && s[1..] == name + "/" + digits
    ensures s == "/" + name + "/" + digits
  {
    assert s == [s[0]] + s[1..];
  }

  /** Different (kind, id) pairs give different routes. */
  lemma PathInjective(k1: Kind, id1: nat, k2: Kind, id2: nat)
    requires Path(k1, id1) == Path(k2, id2)
    ensures k1 == k2 && id1 == id2
  {
    ParsePathComplete(k1, id1);
    ParsePathComplete(k2, id2);
  }
}
