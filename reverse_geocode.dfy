/** The `GET /api/reverse-geocode` route: the label it makes from the first
    place Foursquare returns for a coordinate pair. The upstream reply and
    `Number(x).toFixed(3)` are parameters. */
module ReverseGeocodeRoute {
  import opened Wrappers
  import opened Text
  import opened JsNumber
  import opened Places

  datatype ReverseReply =
    | ReverseFailed(status: int, error: string)
    | Label(text: string)

  /** `Array.isArray(results) ? results[0] : null`, then `first?.location || {}`. */
  function FirstLocation(upstream: Option<seq<Option<Place>>>): Location {
    if upstream.Some? && |upstream.value| > 0 && upstream.value[0].Some?
    then LocationOr(upstream.value[0].value.location)
    else LocationOr(None)
  }

  /** The six label candidates, in order of preference. */
  function LabelParts(loc: Location): seq<Option<string>> {
    [loc.formattedAddress, loc.address, loc.locality, loc.region, loc.postcode, loc.country]
  }

  /** `parts[0] || parts.slice(1).join(", ") || fallback`. */
  function ChooseLabel(parts: seq<string>, fallback: string): string {
    if |parts| > 0 && parts[0] != "" then parts[0]
    else
      var rest := if |parts| > 1 then Join(parts[1..], ", ") else "";
      if rest != "" then rest else fallback
  }

  /** The reply: `400` when either parameter is absent (an empty one passes);
      otherwise the label, with `fixed` standing for `Number(x).toFixed(3)`. */
  function Reply(lat: Option<string>, lng: Option<string>, upstream: Option<seq<Option<Place>>>,
                 fixed: Num -> string): ReverseReply
  {
    if lat.None? || lng.None? then ReverseFailed(400, "Missing lat/lng")
    else
      var parts := PresentParts(LabelParts(FirstLocation(upstream)));
      Label(ChooseLabel(parts, fixed(ToNumber(lat.value)) + ", " + fixed(ToNumber(lng.value))))
  }

  /** The `slice(1).join` branch is dead on the parts the route builds: they
      are all non-empty, so the label is the first part when there is one and
      the coordinate text otherwise. */
  lemma JoinBranchUnreached(parts: seq<string>, fallback: string)
    requires forall x :: x in parts ==> x != ""
    ensures ChooseLabel(parts, fallback) == if parts != [] then parts[0] else fallback
  {
    if parts != [] {
      assert parts[0] in parts;
    }
  }

  /** The first kept part is the first candidate that is a non-empty string. */
  lemma {:induction false} FirstPresentPart(ps: seq<Option<string>>, i: int)
    requires 0 <= i < |ps| && Truthy(ps[i])
    requires forall j :: 0 <= j < i ==> !Truthy(ps[j])
    ensures PresentParts(ps) != [] && PresentParts(ps)[0] == ps[i].value
  {
    if i > 0 {
      FirstPresentPart(ps[1..], i - 1);
    }
  }

  /** With no non-empty candidate nothing is kept. */
  lemma NoPresentPart(ps: seq<Option<string>>)
    requires forall j :: 0 <= j < |ps| ==> !Truthy(ps[j])
    ensures PresentParts(ps) == []
  {
    PresentPartsOfAbsent(ps);
  }

  /** The label is the first non-empty of the formatted address, address,
      locality, region, postcode and country of the first result, and the
      coordinate text when there is none, also when the result list is
      empty or not a list. */
  lemma LabelIsFirstPresent(lat: string, lng: string, upstream: Option<seq<Option<Place>>>,
                            fixed: Num -> string, i: int)
    requires var ps := LabelParts(FirstLocation(upstream));
      0 <= i < |ps| && Truthy(ps[i]) && forall j :: 0 <= j < i ==> !Truthy(ps[j])
    ensures Reply(Some(lat), Some(lng), upstream, fixed) == Label(LabelParts(FirstLocation(upstream))[i].value)
  {
    var ps := LabelParts(FirstLocation(upstream));
    FirstPresentPart(ps, i);
    JoinBranchUnreached(PresentParts(ps), fixed(ToNumber(lat)) + ", " + fixed(ToNumber(lng)));
  }

  lemma CoordinateFallback(lat: string, lng: string, upstream: Option<seq<Option<Place>>>, fixed: Num -> string)
    requires var ps := LabelParts(FirstLocation(upstream)); forall j :: 0 <= j < |ps| ==> !Truthy(ps[j])
    ensures Reply(Some(lat), Some(lng), upstream, fixed) == Label(fixed(ToNumber(lat)) + ", " + fixed(ToNumber(lng)))
  {
    NoPresentPart(LabelParts(FirstLocation(upstream)));
  }

  /** No result, or a `results` that is not a list, gives the coordinate text. */
  lemma NoResultCoordinates(lat: string, lng: string, upstream: Option<seq<Option<Place>>>, fixed: Num -> string)
    requires upstream.None? || upstream.value == []
    ensures Reply(Some(lat), Some(lng), upstream, fixed) == Label(fixed(ToNumber(lat)) + ", " + fixed(ToNumber(lng)))
  {
    assert FirstLocation(upstream) == LocationOr(None);
    EmptyLocationNoParts();
    CoordinateFallback(lat, lng, upstream, fixed);
  }

  lemma EmptyLocationNoParts()
    ensures var ps := LabelParts(LocationOr(None)); forall j :: 0 <= j < |ps| ==> !Truthy(ps[j])
  {
  }

  /** Only the first result counts: what follows it never changes the label. */
  lemma OnlyFirstResult(lat: Option<string>, lng: Option<string>, first: Option<Place>,
                        rest1: seq<Option<Place>>, rest2: seq<Option<Place>>, fixed: Num -> string)
    ensures Reply(lat, lng, Some([first] + rest1), fixed) == Reply(lat, lng, Some([first] + rest2), fixed)
  {
  }

  lemma MissingCoordinate(lat: Option<string>, lng: Option<string>, upstream: Option<seq<Option<Place>>>, fixed: Num -> string)
    ensures Reply(lat, lng, upstream, fixed).ReverseFailed? <==> lat.None? || lng.None?
    ensures lat.None? || lng.None? ==> Reply(lat, lng, upstream, fixed) == ReverseFailed(400, "Missing lat/lng")
  {
  }
}
