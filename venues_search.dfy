/** The `GET /api/venues/search` route: its parameter checks, the upstream
    `searchPlaces` request, and the venue records it makes from the places
    Foursquare returns. The upstream reply is a parameter. */
module VenueSearchRoute {
  import opened Wrappers
  import opened Text
  import opened JsNumber
  import opened Places

  /** The arguments of the upstream call. `radius` is `parseInt` of the
      text, `None` for NaN. */
  datatype SearchCall = SearchCall(query: string, ll: string, radius: Option<int>, limit: int)

  /** One venue of the reply. `coordinates` members may be undefined. */
  datatype FoundVenue = FoundVenue(
    fsqPlaceId: Option<string>,
    name: Option<string>,
    address: string,
    category: string,
    distance: real,
    lat: Option<real>,
    lng: Option<real>,
    tel: Option<string>,
    email: Option<string>,
    website: Option<string>,
    rating: Option<real>)

  datatype SearchReply =
    | SearchFailed(status: int, error: string)
    | Venues(venues: seq<FoundVenue>)

  /** The checks before the call: the coordinates first, then the query. */
  function Check(q: Option<string>, lat: Option<string>, lng: Option<string>): Option<SearchReply> {
    if !Truthy(lat) || !Truthy(lng) then Some(SearchFailed(400, "Latitude and longitude are required"))
    else if !Truthy(q) then Some(SearchFailed(400, "Search query is required"))
    else None
  }

  /** The upstream call made once the checks pass: the radius text defaults
      to `'5000'`, and at most 10 places are asked for. */
  function Call(q: Option<string>, lat: Option<string>, lng: Option<string>, radius: Option<string>): (r: SearchCall)
    requires Check(q, lat, lng).None?
    ensures r.limit == 10 && r.query == q.value
    ensures !Truthy(radius) ==> r.radius == Some(5000)
  {
    var text := if Truthy(radius) then radius.value else "5000";
    DefaultRadius();
    SearchCall(q.value, lat.value + "," + lng.value, ParseInt(text), 10)
  }

  /** `parseInt('5000')` is 5000. */
  lemma DefaultRadius()
    ensures ParseInt("5000") == Some(5000)
  {
    var s := "5000";
    assert AllDigits(s);
    assert s[..3] == "500" && "500"[..2] == "50" && "50"[..1] == "5" && "5"[..0] == "";
    assert DigitsValue(s) == 5000;
    ParseIntOfUnsigned(s);
  }

  /** JavaScript `a || b` on optional numbers: `0` is falsy. */
  function OrNumber(a: Option<real>, b: Option<real>): (r: Option<real>)
    ensures a.Some? && a.value != 0.0 ==> r == a
    ensures !(a.Some? && a.value != 0.0) ==> r == b
  {
    if a.Some? && a.value != 0.0 then a else b
  }

  /** `||` over a chain of candidate strings ending in a default. */
  function FirstTruthy(cands: seq<Option<string>>, fallback: string): (r: string)
    ensures r == fallback || exists i :: 0 <= i < |cands| && Truthy(cands[i]) && r == cands[i].value
  {
    if cands == [] then fallback else TextOr(cands[0], FirstTruthy(cands[1..], fallback))
  }

  /** With no truthy candidate the default is used. */
  lemma {:induction false} FirstTruthyDefault(cands: seq<Option<string>>, fallback: string)
    requires forall i :: 0 <= i < |cands| ==> !Truthy(cands[i])
    ensures FirstTruthy(cands, fallback) == fallback
  {
    if cands != [] {
      FirstTruthyDefault(cands[1..], fallback);
    }
  }

  /** Otherwise the chain yields the value of its first truthy candidate. */
  lemma {:induction false} FirstTruthyFirst(cands: seq<Option<string>>, fallback: string, k: nat)
    requires k < |cands| && Truthy(cands[k])
    requires forall j :: 0 <= j < k ==> !Truthy(cands[j])
    ensures FirstTruthy(cands, fallback) == cands[k].value
    decreases k
  {
    if k > 0 {
      FirstTruthyFirst(cands[1..], fallback, k - 1);
    }
  }

  /** The `address` candidates. */
  function AddressCands(p: Place): seq<Option<string>> {
    var loc := LocationOr(p.location);
    [loc.formattedAddress, loc.address, loc.crossStreet]
  }

  /** The `category` candidates: `categories?.[0]?.name`, then its icon prefix. */
  function CategoryCands(p: Place): seq<Option<string>> {
    if p.categories != [] && p.categories[0].Some?
    then [p.categories[0].value.name, p.categories[0].value.iconPrefix]
    else []
  }

  /** The record made from one place. */
  function ToVenue(p: Place): FoundVenue {
    var dropOff := if p.dropOff.Some? then p.dropOff.value else LatLng(None, None);
    var loc := LocationOr(p.location);
    FoundVenue(
      p.fsqPlaceId,
      p.name,
      FirstTruthy(AddressCands(p), "Address not available"),
      FirstTruthy(CategoryCands(p), "No category"),
      if p.distance.Some? && p.distance.value != 0.0 then p.distance.value else 0.0,
      OrNumber(p.latitude, OrNumber(dropOff.latitude, loc.latitude)),
      OrNumber(p.longitude, OrNumber(dropOff.longitude, loc.longitude)),
      if Truthy(p.tel) then p.tel else None,
      if Truthy(p.email) then p.email else None,
      if Truthy(p.website) then p.website else None,
      if p.rating.Some? && p.rating.value != 0.0 then p.rating else None)
  }

  function ToVenues(ps: seq<Place>): (r: seq<FoundVenue>)
    ensures |r| == |ps|
    ensures forall i :: 0 <= i < |ps| ==> r[i] == ToVenue(ps[i])
  {
    if ps == [] then [] else [ToVenue(ps[0])] + ToVenues(ps[1..])
  }

  /** The reply for a request and the upstream `results` (`None` when
      missing). */
  function Reply(q: Option<string>, lat: Option<string>, lng: Option<string>,
                 upstream: Option<seq<Place>>): SearchReply
  {
    var check := Check(q, lat, lng);
    if check.Some? then check.value
    else if upstream.None? then SearchFailed(500, "Failed to fetch venues")
    else Venues(ToVenues(upstream.value))
  }

  /** The replies in their order: missing coordinates before a missing query,
      a missing upstream list as `500`, and otherwise exactly one venue per
      place, in the same order. */
  lemma ReplyCases(q: Option<string>, lat: Option<string>, lng: Option<string>, upstream: Option<seq<Place>>)
    ensures var r := Reply(q, lat, lng, upstream);
      ((!Truthy(lat) || !Truthy(lng)) ==> r == SearchFailed(400, "Latitude and longitude are required"))
      && (Truthy(lat) && Truthy(lng) && !Truthy(q) ==> r == SearchFailed(400, "Search query is required"))
      && (Truthy(lat) && Truthy(lng) && Truthy(q) && upstream.None? ==> r == SearchFailed(500, "Failed to fetch venues"))
      && (r.Venues? <==> Truthy(lat) && Truthy(lng) && Truthy(q) && upstream.Some?)
      && (r.Venues? ==> (|r.venues| == |upstream.value|
            && forall i :: 0 <= i < |r.venues| ==> r.venues[i] == ToVenue(upstream.value[i])))
  {
  }

  /** The defaults of a venue: the address and category are never empty and
      fall back to their placeholder texts exactly when no candidate is
      given; a missing or zero distance is 0; the contact fields are null
      unless non-empty. */
  lemma VenueDefaults(p: Place)
    ensures var v := ToVenue(p);
      v.address != "" && v.category != ""
      && (Truthy(LocationOr(p.location).formattedAddress) ==> v.address == LocationOr(p.location).formattedAddress.value)
      && ((forall i :: 0 <= i < 3 ==> !Truthy(AddressCands(p)[i])) ==> v.address == "Address not available")
      && ((forall i :: 0 <= i < |CategoryCands(p)| ==> !Truthy(CategoryCands(p)[i])) ==> v.category == "No category")
      && (p.distance.None? ==> v.distance == 0.0)
      && (p.distance.Some? ==> v.distance == p.distance.value)
      && (v.tel.Some? <==> Truthy(p.tel)) && (v.email.Some? <==> Truthy(p.email))
      && (v.website.Some? <==> Truthy(p.website))
      && v.fsqPlaceId == p.fsqPlaceId && v.name == p.name
  {
    var ac := AddressCands(p);
    if forall i :: 0 <= i < 3 ==> !Truthy(ac[i]) {
      FirstTruthyDefault(ac, "Address not available");
    }
    var cc := CategoryCands(p);
    if forall i :: 0 <= i < |cc| ==> !Truthy(cc[i]) {
      FirstTruthyDefault(cc, "No category");
    }
  }
}
