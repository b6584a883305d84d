/** The rules of the events page: the date presets the `dates` parameter
    selects, the count of active filters, the local update after an
    enrollment change, and reading coordinates from the `ll` parameter.
    Days are whole local days numbered from 1970-01-01; the `YYYY-MM-DD`
    rendering of a day is not modelled. */
module EventsPage {
  import opened Wrappers
  import opened Text
  import opened Records

  /** `Date.getDay()` of a day: 0 is Sunday and 6 is Saturday (1970-01-01 was
      a Thursday). */
  function Weekday(day: int): (r: int)
    ensures 0 <= r < 7
  {
    (day + 4) % 7
  }

  lemma WeekdayShift(day: int, k: nat)
    ensures Weekday(day + k) == (Weekday(day) + k) % 7
  {
  }

  /** A date range from `from` to `to`, both whole days. */
  datatype DateRange = DateRange(from: int, to: int)

  /** `computeDatePreset`: the range a preset selects. The page moves its
      `Date` objects by whole days; here a day is its number. */
  function DatePreset(preset: Option<string>, today: int): (r: Option<DateRange>)
    ensures preset == Some("today") ==> r == Some(DateRange(today, today))
    ensures preset == Some("tomorrow") ==> r == Some(DateRange(today + 1, today + 1))
    ensures preset == Some("weekend") ==>
      r.Some? && Weekday(r.value.from) == 6 && today <= r.value.from <= today + 6
      && r.value.to == r.value.from + 1 && Weekday(r.value.to) == 0
      && (forall d :: today <= d < r.value.from ==> Weekday(d) != 6)
    ensures preset == Some("next_week") ==>
      r.Some? && Weekday(r.value.from) == 1 && today + 1 <= r.value.from <= today + 7
      && r.value.to == r.value.from + 6
      && (forall d :: today < d < r.value.from ==> Weekday(d) != 1)
    ensures preset !in {Some("today"), Some("tomorrow"), Some("weekend"), Some("next_week")} ==> r.None?
  {
    if preset == Some("today") then
      Some(DateRange(today, today))
    else if preset == Some("tomorrow") then
      Some(DateRange(today + 1, today + 1))
    else if preset == Some("weekend") then
      var sat := today + (6 - Weekday(today) + 7) % 7;
      WeekendFrom(today);
      Some(DateRange(sat, sat + 1))
    else if preset == Some("next_week") then
      var diffToMon := if (8 - Weekday(today)) % 7 == 0 then 7 else (8 - Weekday(today)) % 7;
      NextWeekFrom(today);
      Some(DateRange(today + diffToMon, today + diffToMon + 6))
    else
      None
  }

  /** The Saturday `weekend` starts on is the first one from `t` on. */
  lemma WeekendFrom(t: int)
    ensures var sat := t + (6 - Weekday(t) + 7) % 7;
      Weekday(sat) == 6 && t <= sat <= t + 6 && Weekday(sat + 1) == 0
      && (forall d :: t <= d < sat ==> Weekday(d) != 6)
  {
    var diff := (6 - Weekday(t) + 7) % 7;
    WeekdayShift(t, diff);
    WeekdayShift(t, diff + 1);
    forall d | t <= d < t + diff
      ensures Weekday(d) != 6
    {
      WeekdayShift(t, d - t);
    }
  }

  /** The Monday `next_week` starts on is the first one after `t`. */
  lemma NextWeekFrom(t: int)
    ensures var diff := if (8 - Weekday(t)) % 7 == 0 then 7 else (8 - Weekday(t)) % 7;
      Weekday(t + diff) == 1 && 1 <= diff <= 7
      && (forall d :: t < d < t + diff ==> Weekday(d) != 1)
  {
    var diff := if (8 - Weekday(t)) % 7 == 0 then 7 else (8 - Weekday(t)) % 7;
    WeekdayShift(t, diff);
    forall d | t < d < t + diff
      ensures Weekday(d) != 1
    {
      WeekdayShift(t, d - t);
    }
  }

  // ---------------------------------------------------------------------
  // Active filters

  /** A value of the filter object: a string, a number or null. */
  datatype FilterValue = Str(s: string) | Num(n: real) | NullValue

  datatype Filters = Filters(
    category: FilterValue,
    venueCategory: FilterValue,
    dateFrom: FilterValue,
    dateTo: FilterValue,
    capacityMin: FilterValue,
    capacityMax: FilterValue,
    searchQuery: FilterValue,
    radius: FilterValue)

  /** `Object.values(filters)`, in declaration order. */
  function Values(f: Filters): seq<FilterValue> {
    [f.category, f.venueCategory, f.dateFrom, f.dateTo, f.capacityMin, f.capacityMax, f.searchQuery, f.radius]
  }

  /** `value !== "" && value !== null && value !== 5000 && value !== "all"`. */
  predicate Counted(v: FilterValue) {
    v != Str("") && v != NullValue && v != Num(5000.0) && v != Str("all")
  }

  function CountCounted(vs: seq<FilterValue>): (r: nat)
    ensures r <= |vs|
  {
    if vs == [] then 0 else (if Counted(vs[0]) then 1 else 0) + CountCounted(vs[1..])
  }

  function ActiveCount(f: Filters): nat {
    CountCounted(Values(f))
  }

  /** The filter state when the page opens and after "clear". */
  const CLEARED := Filters(Str("all"), Str(""), Str(""), Str(""), Str(""), Str(""), Str(""), Num(5000.0))

  lemma {:induction false} CountNone(vs: seq<FilterValue>)
    requires forall i :: 0 <= i < |vs| ==> !Counted(vs[i])
    ensures CountCounted(vs) == 0
  {
    if vs != [] {
      CountNone(vs[1..]);
    }
  }

  lemma {:induction false} CountSome(vs: seq<FilterValue>, i: int)
    requires 0 <= i < |vs| && Counted(vs[i])
    ensures CountCounted(vs) > 0
  {
    if i > 0 {
      CountSome(vs[1..], i - 1);
    }
  }

  /** The count is at most 8, is 0 exactly when every value is one of the
      neutral ones, and so is 0 for the cleared filters. */
  lemma ActiveCountFacts(f: Filters)
    ensures ActiveCount(f) <= 8
    ensures ActiveCount(f) == 0 <==> forall i :: 0 <= i < 8 ==> !Counted(Values(f)[i])
    ensures ActiveCount(CLEARED) == 0
  {
    var vs := Values(f);
    if forall i :: 0 <= i < 8 ==> !Counted(vs[i]) {
      CountNone(vs);
    } else {
      var i :| 0 <= i < 8 && Counted(vs[i]);
      CountSome(vs, i);
    }
    CountNone(Values(CLEARED));
  }

  /** Typing a search adds one to the count unless the text is empty or is
      `"all"`, which the neutral-value test also skips. */
  lemma SearchQueryCount(f: Filters, q: string)
    ensures ActiveCount(f.(searchQuery := Str(q)))
         == ActiveCount(f.(searchQuery := Str(""))) + (if q != "" && q != "all" then 1 else 0)
  {
    var a, b := Values(f.(searchQuery := Str(q))), Values(f.(searchQuery := Str("")));
    assert a[..6] == b[..6] && a[7..] == b[7..];
    CountSplit(a, 6);
    CountSplit(b, 6);
    CountSplit(a[6..], 1);
    CountSplit(b[6..], 1);
    assert a[6..][1..] == a[7..] && b[6..][1..] == b[7..];
    assert a[6..][..1] == [Str(q)] && b[6..][..1] == [Str("")];
  }

  lemma {:induction false} CountSplit(vs: seq<FilterValue>, k: int)
    requires 0 <= k <= |vs|
    ensures CountCounted(vs) == CountCounted(vs[..k]) + CountCounted(vs[k..])
  {
    if k > 0 {
      CountSplit(vs[1..], k - 1);
      assert vs[..k][1..] == vs[1..][..k - 1];
      assert vs[k..] == vs[1..][k - 1..];
    }
  }

  // ---------------------------------------------------------------------
  // Enrollment change

  /** `events.map(e => e.event_id === id ? { ...e, is_enrolled: on ? 1 : 0 } : e)`. */
  function SetEnrolled(rows: seq<Row>, id: EventId, on: bool): (r: seq<Row>)
    ensures |r| == |rows|
    ensures forall i :: 0 <= i < |rows| ==>
      r[i] == if rows[i].event.id == id then rows[i].(isEnrolled := if on then 1 else 0) else rows[i]
  {
    if rows == [] then []
    else
      [if rows[0].event.id == id then rows[0].(isEnrolled := if on then 1 else 0) else rows[0]]
      + SetEnrolled(rows[1..], id, on)
  }

  /** The last change for an id is the one that counts, and changes for
      different ids do not interfere. */
  lemma SetEnrolledOverride(rows: seq<Row>, id: EventId, a: bool, b: bool)
    ensures SetEnrolled(SetEnrolled(rows, id, a), id, b) == SetEnrolled(rows, id, b)
  {
  }

  lemma SetEnrolledCommute(rows: seq<Row>, id1: EventId, id2: EventId, a: bool, b: bool)
    requires id1 != id2
    ensures SetEnrolled(SetEnrolled(rows, id1, a), id2, b) == SetEnrolled(SetEnrolled(rows, id2, b), id1, a)
  {
  }

  /** Only the matching rows change, and only in their `is_enrolled` flag. */
  lemma SetEnrolledOnlyFlag(rows: seq<Row>, id: EventId, on: bool)
    ensures var r := SetEnrolled(rows, id, on);
      forall i :: 0 <= i < |rows| ==>
        r[i].event == rows[i].event && r[i].enrollmentCount == rows[i].enrollmentCount
        && r[i].distance == rows[i].distance
        && (r[i].isEnrolled == 1 <==> (rows[i].event.id == id && on) || (rows[i].event.id != id && rows[i].isEnrolled == 1))
  {
  }

  // ---------------------------------------------------------------------
  // Coordinates from `ll`

  /** Where the page takes its coordinates from: the two parts of `ll`
      (trimmed), nowhere (an `ll` with a comma but an empty part), or the
      saved location. */
  datatype CoordSource = FromUrl(lat: string, lng: string) | Ignored | FromStorage

  function LlCoords(ll: Option<string>): CoordSource {
    if Truthy(ll) && Contains(ll.value, [',']) then
      var parts := Split(ll.value, ',');
      assert |parts| >= 2 by { ContainsChar(ll.value, ','); }
      if parts[0] != "" && parts[1] != "" then FromUrl(Trim(parts[0]), Trim(parts[1])) else Ignored
    else FromStorage
  }

  lemma SplitAtSeparator(a: string, b: string, sep: char)
    requires sep !in a
    ensures Split(a + [sep] + b, sep) == [a] + Split(b, sep)
  {
    var s := a + [sep] + b;
    assert s[..|a|] == a && s[|a| + 1..] == b;
    IndexOfFirst(s, sep, |a|);
  }

  /** `lat,lng` gives those two texts trimmed, whenever neither is empty. */
  lemma LlRoundTrip(lat: string, lng: string)
    requires lat != "" && lng != "" && ',' !in lat && ',' !in lng
    ensures LlCoords(Some(lat + "," + lng)) == FromUrl(Trim(lat), Trim(lng))
  {
    var v := lat + "," + lng;
    SplitPair(lat, lng);
    CommaInPair(lat, lng);
    assert Truthy(Some(v)) by { assert |v| > 0; }
    LlCoordsOfParts(v, lat, lng);
  }

  lemma LlCoordsOfParts(v: string, a: string, b: string)
    requires Truthy(Some(v)) && Contains(v, [',']) && Split(v, ',') == [a, b]
    ensures LlCoords(Some(v)) == if a != "" && b != "" then FromUrl(Trim(a), Trim(b)) else Ignored
  {
  }

  lemma SplitPair(lat: string, lng: string)
    requires ',' !in lat && ',' !in lng
    ensures Split(lat + "," + lng, ',') == [lat, lng]
  {
    assert lat + "," + lng == lat + [','] + lng;
    SplitAtSeparator(lat, lng, ',');
    SplitWithout(lng, ',');
  }

  lemma CommaInPair(lat: string, lng: string)
    ensures Contains(lat + "," + lng, [','])
  {
    var s := lat + "," + lng;
    assert s[|lat|] == ',';
    ContainsChar(s, ',');
  }

  lemma SplitWithout(s: string, sep: char)
    requires sep !in s
    ensures Split(s, sep) == [s]
  {
  }

  /** Without a comma the saved location is used; with an empty part nothing
      is set. */
  lemma LlFallbacks(ll: string, lng: string)
    requires ',' !in lng
    ensures ',' !in ll ==> LlCoords(Some(ll)) == FromStorage
    ensures LlCoords(Some("," + lng)) == Ignored
  {
    ContainsChar(ll, ',');
    var s := "," + lng;
    assert s == [] + [','] + lng;
    SplitAtSeparator([], lng, ',');
    ContainsChar(s, ',');
    assert s[0] == ',';
  }
}
