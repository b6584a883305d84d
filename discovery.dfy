/** The ranking stage of the discovery routes on event rows: attach the
    distance from the caller's point to each venue, keep the rows within the
    radius, sort ascending by distance with unknown distances last. */
module Discovery {
  import opened Wrappers
  import opened Records
  import opened Ranking

  /** The great-circle distance in metres between two points, left
      uninterpreted: `(lat1, lon1, lat2, lon2)`. */
  type DistanceFn = (real, real, real, real) -> real

  /** `{ ...e, distance: d }` where `d` is known only when the venue has both coordinates. */
  function WithDistance(r: Row, lat: real, lon: real, dist: DistanceFn): Row {
    var v := r.event.venue;
    r.(distance := if v.lat.Some? && v.lon.Some? then Some(dist(lat, lon, v.lat.value, v.lon.value)) else None)
  }

  function AttachDistances(rows: seq<Row>, lat: real, lon: real, dist: DistanceFn): (r: seq<Row>)
    ensures |r| == |rows| && forall i :: 0 <= i < |rows| ==> r[i] == WithDistance(rows[i], lat, lon, dist)
    ensures forall i :: 0 <= i < |rows| ==>
      r[i].event == rows[i].event && r[i].enrollmentCount == rows[i].enrollmentCount
      && r[i].isEnrolled == rows[i].isEnrolled
      && (r[i].distance.Some? <==> rows[i].event.venue.lat.Some? && rows[i].event.venue.lon.Some?)
  {
    seq(|rows|, i requires 0 <= i < |rows| => WithDistance(rows[i], lat, lon, dist))
  }

  function RowDistance(r: Row): Option<real> {
    r.distance
  }

  function RowKey(r: Row): Key {
    KeyOf(r.distance)
  }

  /** The rows within `radius` (all of them when it is null), before sorting. */
  function InRange(rows: seq<Row>, lat: real, lon: real, radius: Option<real>, dist: DistanceFn): seq<Row> {
    WithinRadius(AttachDistances(rows, lat, lon, dist), RowDistance, radius)
  }

  /** The `map` / `filter` / `sort` chain. */
  function Rank(rows: seq<Row>, lat: real, lon: real, radius: Option<real>, dist: DistanceFn): seq<Row> {
    SortBy(InRange(rows, lat, lon, radius, dist), RowKey)
  }

  /** What ranking returns: rows of the input with their distance attached, no
      more of them than came in, each within the radius when one is given, in
      ascending order of distance with unknown distances last. */
  lemma RankProperties(rows: seq<Row>, lat: real, lon: real, radius: Option<real>, dist: DistanceFn)
    ensures var r := Rank(rows, lat, lon, radius, dist);
      |r| <= |rows|
      && (forall x :: x in r ==> exists i :: 0 <= i < |rows| && x == WithDistance(rows[i], lat, lon, dist))
      && (radius.Some? ==> forall x :: x in r ==> x.distance.Some? && x.distance.value <= radius.value)
      && SortedBy(r, RowKey)
  {
    var a := AttachDistances(rows, lat, lon, dist);
    var f := InRange(rows, lat, lon, radius, dist);
    var r := SortBy(f, RowKey);
    SortSorted(f, RowKey);
    forall x | x in r
      ensures x in f
    {
      assert x in multiset(r);
    }
    forall x | x in f
      ensures exists i :: 0 <= i < |rows| && x == WithDistance(rows[i], lat, lon, dist)
    {
      assert x in a;
      var i :| 0 <= i < |a| && a[i] == x;
    }
  }

  /** What ranking guarantees holds of every prefix of its output, as
      `slice(0, limit)` takes. */
  lemma RankPrefix(rows: seq<Row>, lat: real, lon: real, radius: Option<real>, dist: DistanceFn, r: seq<Row>)
    requires r <= Rank(rows, lat, lon, radius, dist)
    ensures forall x :: x in r ==> exists i :: 0 <= i < |rows| && x == WithDistance(rows[i], lat, lon, dist)
    ensures radius.Some? ==> forall x :: x in r ==> x.distance.Some? && x.distance.value <= radius.value
    ensures SortedBy(r, RowKey)
  {
    var ranked := Rank(rows, lat, lon, radius, dist);
    RankProperties(rows, lat, lon, radius, dist);
    forall x | x in r
      ensures x in ranked
    {
      var j :| 0 <= j < |r| && r[j] == x;
      assert ranked[j] == x;
    }
    forall i, j | 0 <= i < j < |r|
      ensures KeyLe(RowKey(r[i]), RowKey(r[j]))
    {
      assert r[i] == ranked[i] && r[j] == ranked[j];
    }
  }

  /** Ties keep their incoming order (the SQL `date_time DESC` order): for
      every distance, the rows with that distance appear in the output in the
      order they had among the rows within range. */
  lemma RankKeepsTies(rows: seq<Row>, lat: real, lon: real, radius: Option<real>, dist: DistanceFn, k: Key)
    ensures WithKey(Rank(rows, lat, lon, radius, dist), RowKey, k)
         == WithKey(InRange(rows, lat, lon, radius, dist), RowKey, k)
  {
    SortStable(InRange(rows, lat, lon, radius, dist), RowKey, k);
  }

  /** Nothing within range is lost: every input row whose distance passes the
      radius test is in the output. */
  lemma RankComplete(rows: seq<Row>, lat: real, lon: real, radius: Option<real>, dist: DistanceFn, i: int)
    requires 0 <= i < |rows|
    requires var d := WithDistance(rows[i], lat, lon, dist).distance;
      radius.Some? ==> d.Some? && d.value <= radius.value
    ensures WithDistance(rows[i], lat, lon, dist) in Rank(rows, lat, lon, radius, dist)
  {
    var a := AttachDistances(rows, lat, lon, dist);
    var x := WithDistance(rows[i], lat, lon, dist);
    assert a[i] == x;
    WithinRadiusComplete(a, RowDistance, radius, x);
    var f := InRange(rows, lat, lon, radius, dist);
    assert x in multiset(f);
  }
}
