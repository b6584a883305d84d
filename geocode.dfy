/** The `GET /api/geocode` route: the forward-geocoding request it makes and
    how it turns the places Foursquare returns into `{ fsq_place_id, name,
    address, lat, lng }` matches. The upstream reply is a parameter. */
module GeocodeRoute {
  import opened Wrappers
  import opened Text
  import opened JsNumber
  import opened Places

  /** A match before the coordinate filter; `lat`/`lng` may still be null. */
  datatype GeoMatch = GeoMatch(
    fsqPlaceId: Option<string>,
    name: Option<string>,
    address: Option<string>,
    lat: Option<real>,
    lng: Option<real>)

  /** The arguments of the upstream `geocodeAddress` call. */
  datatype GeocodeCall = GeocodeCall(query: string, ll: Option<string>, limit: Num)

  datatype GeocodeReply =
    | GeocodeFailed(status: int, error: string)
    | GeocodeResults(results: seq<GeoMatch>)

  /** `Number(searchParams.get("limit") || 5)`. */
  function LimitOf(limit: Option<string>): (r: Num)
    ensures !Truthy(limit) ==> r == Finite(5.0)
  {
    if Truthy(limit) then ToNumber(limit.value) else Finite(5.0)
  }

  /** The upstream call, or none when `q` is missing or empty. */
  function Call(q: Option<string>, limit: Option<string>, ll: Option<string>): (r: Option<GeocodeCall>)
    ensures r.Some? <==> Truthy(q)
  {
    if !Truthy(q) then None else Some(GeocodeCall(q.value, ll, Min(LimitOf(limit), 10.0)))
  }

  /** The upstream limit defaults to 5, is never above 10, and is NaN only
      when the given limit is not a number. */
  lemma CallLimit(q: string, limit: Option<string>, ll: Option<string>)
    requires q != ""
    ensures var c := Call(Some(q), limit, ll);
      c.Some? && c.value.query == q && c.value.ll == ll
      && (!Truthy(limit) ==> c.value.limit == Finite(5.0))
      && (c.value.limit.Finite? ==> c.value.limit.v <= 10.0)
      && (c.value.limit.NaN? <==> LimitOf(limit).NaN?)
      && (LimitOf(limit).Finite? && LimitOf(limit).v <= 10.0 ==> c.value.limit == LimitOf(limit))
  {
  }

  /** `a ?? b ?? c` for the three places coordinates can be found. */
  function FirstNonNull(a: Option<real>, b: Option<real>, c: Option<real>): (r: Option<real>)
    ensures r.None? <==> a.None? && b.None? && c.None?
    ensures r.Some? ==> r == a || (a.None? && r == b) || (a.None? && b.None? && r == c)
  {
    Coalesce(a, Coalesce(b, c))
  }

  function Latitude(p: Place): Option<real> {
    FirstNonNull(MainLatitude(p),
                 if p.dropOff.Some? then p.dropOff.value.latitude else None,
                 LocationOr(p.location).latitude)
  }

  function Longitude(p: Place): Option<real> {
    FirstNonNull(MainLongitude(p),
                 if p.dropOff.Some? then p.dropOff.value.longitude else None,
                 LocationOr(p.location).longitude)
  }

  /** The five address parts, in the order they are joined. */
  function AddressParts(loc: Location): seq<Option<string>> {
    [loc.address, loc.locality, loc.region, loc.postcode, loc.country]
  }

  /** `loc.formatted_address || (parts.length ? parts.join(", ") : null) || null`. */
  function Address(loc: Location): Option<string> {
    var parts := PresentParts(AddressParts(loc));
    var joined := if |parts| > 0 then Some(Join(parts, ", ")) else None;
    OrElse(loc.formattedAddress, OrElse(joined, None))
  }

  /** A join of non-empty parts is non-empty and starts with the first part. */
  lemma JoinStartsWithFirst(parts: seq<string>, sep: string)
    requires parts != [] && parts[0] != ""
    ensures Join(parts, sep) != "" && parts[0] <= Join(parts, sep)
  {
  }

  /** The address is the formatted address when there is one; otherwise the
      joined parts, which begin with the first non-empty part; and null only
      when neither exists. It is never the empty string. */
  lemma AddressChoice(loc: Location)
    ensures var a := Address(loc); var parts := PresentParts(AddressParts(loc));
      (Truthy(loc.formattedAddress) ==> a == loc.formattedAddress)
      && (!Truthy(loc.formattedAddress) && parts != [] ==> a.Some? && parts[0] <= a.value)
      && (a.None? <==> !Truthy(loc.formattedAddress) && parts == [])
      && (a.None? || a.value != "")
  {
    var parts := PresentParts(AddressParts(loc));
    if parts != [] {
      assert parts[0] in parts;
      JoinStartsWithFirst(parts, ", ");
    }
  }

  /** The mapping of one upstream entry (`venue?.x`, so a null entry has
      every member null). */
  function Match(v: Option<Place>): GeoMatch {
    if v.None? then GeoMatch(None, None, None, None, None)
    else
      var p := v.value;
      GeoMatch(p.fsqPlaceId, p.name, Address(LocationOr(p.location)), Latitude(p), Longitude(p))
  }

  function MapMatches(vs: seq<Option<Place>>): (r: seq<GeoMatch>)
    ensures |r| == |vs|
    ensures forall i :: 0 <= i < |vs| ==> r[i] == Match(vs[i])
  {
    if vs == [] then [] else [Match(vs[0])] + MapMatches(vs[1..])
  }

  predicate Located(m: GeoMatch) {
    m.lat.Some? && m.lng.Some?
  }

  /** `.filter(v => v.lat != null && v.lng != null)`. */
  function KeepLocated(ms: seq<GeoMatch>): (r: seq<GeoMatch>)
    ensures |r| <= |ms|
    ensures forall m :: m in r <==> m in ms && Located(m)
  {
    if ms == [] then []
    else (if Located(ms[0]) then [ms[0]] else []) + KeepLocated(ms[1..])
  }

  /** The filter keeps the order: filtering a concatenation concatenates the
      filtered parts. */
  lemma {:induction false} KeepLocatedConcat(a: seq<GeoMatch>, b: seq<GeoMatch>)
    ensures KeepLocated(a + b) == KeepLocated(a) + KeepLocated(b)
  {
    if a == [] {
      assert a + b == b;
    } else {
      assert (a + b)[0] == a[0] && (a + b)[1..] == a[1..] + b;
      KeepLocatedConcat(a[1..], b);
    }
  }

  /** The reply: `400` without a query; otherwise the located matches, in
      upstream order, cut to `limit` by `slice(0, limit)`. A non-array
      `results` (`upstream == None`) counts as no results. */
  function Reply(q: Option<string>, limit: Option<string>, upstream: Option<seq<Option<Place>>>): GeocodeReply {
    if !Truthy(q) then GeocodeFailed(400, "Missing query")
    else
      var results := if upstream.Some? then upstream.value else [];
      GeocodeResults(Slice(KeepLocated(MapMatches(results)), LimitOf(limit)))
  }

  /** The reply's matches all have coordinates, come from upstream entries,
      are a prefix of all located matches, and number at most 5 when no
      limit is given and at most the given limit otherwise. */
  lemma ReplyMatches(q: Option<string>, limit: Option<string>, upstream: Option<seq<Option<Place>>>)
    ensures var r := Reply(q, limit, upstream);
      var rs := if upstream.Some? then upstream.value else [];
      (r.GeocodeFailed? <==> !Truthy(q))
      && (r.GeocodeFailed? ==> r == GeocodeFailed(400, "Missing query"))
      && (r.GeocodeResults? ==>
            (upstream.None? ==> r.results == [])
            && (forall m :: m in r.results ==> Located(m))
            && (forall m :: m in r.results ==> exists i :: 0 <= i < |rs| && m == Match(rs[i]))
            && r.results <= KeepLocated(MapMatches(rs))
            && (!Truthy(limit) ==> |r.results| <= 5)
            && (LimitOf(limit).Finite? && LimitOf(limit).v >= 0.0 ==> |r.results| <= Truncate(LimitOf(limit).v)))
  {
    var r := Reply(q, limit, upstream);
    var rs := if upstream.Some? then upstream.value else [];
    if r.GeocodeResults? {
      var all := MapMatches(rs);
      forall m | m in r.results
        ensures exists i :: 0 <= i < |rs| && m == Match(rs[i])
      {
        assert m in KeepLocated(all);
        var i :| 0 <= i < |all| && all[i] == m;
      }
    }
  }

  /** When every entry is located and at most `limit` come back, the reply is
      every entry, in upstream order. */
  lemma {:induction false} AllLocatedKept(ms: seq<GeoMatch>)
    requires forall i :: 0 <= i < |ms| ==> Located(ms[i])
    ensures KeepLocated(ms) == ms
  {
    if ms != [] {
      AllLocatedKept(ms[1..]);
    }
  }
}
