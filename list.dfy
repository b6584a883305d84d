/** The `GET /api/events/list` route: reading the query string, which events
    it lists, the venue enrichment applied to each fetched row, and the
    ranking and limit applied at the end. */
module ListRoute {
  import opened Wrappers
  import opened Text
  import opened SqlText
  import opened JsNumber
  import opened Records
  import opened Places
  import opened Ranking
  import opened Discovery
  import opened Categories
  import opened SqlValues

  /** The query-string parameters the route reads; `None` when absent. */
  datatype Query = Query(
    ll: Option<string>,
    radius: Option<string>,
    limit: Option<string>,
    inviteCode: Option<string>,
    q: Option<string>,
    eventCategory: Option<string>)

  /** `toNumber(value)`: null when absent or when `Number(value)` is not finite. */
  function ToNumberOrNull(value: Option<string>): (r: Option<real>)
    ensures value.None? ==> r.None?
    ensures r.Some? <==> value.Some? && ToNumber(value.value).Finite?
    ensures r.Some? ==> Finite(r.value) == ToNumber(value.value)
  {
    if value.None? then None
    else match ToNumber(value.value)
      case Finite(v) => Some(v)
      case _ => None
  }

  /** An integer written out reads back as itself. */
  lemma ToNumberOrNullOfInt(n: int)
    ensures ToNumberOrNull(Some(IntToString(n))) == Some(n as real)
  {
    ToNumberOfIntToString(n);
  }

  /** `ll` = `"lat,lon"`: exactly two comma-separated parts, each read with
      `toNumber`; anything else gives no point. */
  function ParseLl(ll: Option<string>): (r: (Option<real>, Option<real>))
    ensures !Truthy(ll) ==> r == (None, None)
    ensures Truthy(ll) && |Split(ll.value, ',')| != 2 ==> r == (None, None)
  {
    if !Truthy(ll) then (None, None)
    else
      var parts := Split(ll.value, ',');
      if |parts| == 2 then (ToNumberOrNull(Some(parts[0])), ToNumberOrNull(Some(parts[1])))
      else (None, None)
  }

  lemma NoCommaInIntToString(n: int)
    ensures ',' !in IntToString(n)
  {
    var d := NatToString(if n < 0 then -n else n);
    assert forall i :: 0 <= i < |d| ==> IsDigit(d[i]);
    if n < 0 {
      assert IntToString(n) == "-" + d;
      assert forall i :: 1 <= i < |IntToString(n)| ==> IntToString(n)[i] == d[i - 1];
    }
  }

  /** A point written as `"lat,lon"` with integer coordinates reads back as
      that point. */
  lemma ParseLlOfInts(lat: int, lon: int)
    ensures ParseLl(Some(IntToString(lat) + "," + IntToString(lon))) == (Some(lat as real), Some(lon as real))
  {
    var a, b := IntToString(lat), IntToString(lon);
    var s := a + "," + b;
    NoCommaInIntToString(lat);
    NoCommaInIntToString(lon);
    assert s[|a|] == ',' && s[..|a|] == a && s[|a| + 1..] == b;
    assert ',' !in s[..|a|];
    assert IndexOf(s, ',') == Some(|a|);
    assert IndexOf(b, ',').None?;
    assert Split(b, ',') == [b];
    assert Split(s, ',') == [a, b];
    ToNumberOrNullOfInt(lat);
    ToNumberOrNullOfInt(lon);
  }

  // Which events are listed.

  /** The base clause with its two optional alternatives, each of which also
      excludes past events: upcoming public events, upcoming events whose
      invite code is the one given, and the caller's own upcoming events. */
  predicate ListVisible(auth: Option<UserId>, inviteCode: Option<string>, now: int, e: Event) {
    e.dateTime > now
    && (e.kind == Public
        || (Truthy(inviteCode) && e.inviteCode == inviteCode)
        || (auth.Some? && e.hostId == auth.value))
  }

  /** The events the route means to list: visible, with a title containing
      `q` when one is given, and of `category` (the normalised
      `event_category`) when one is recognised. */
  predicate ListSelected(auth: Option<UserId>, query: Query, category: Option<string>, now: int, e: Event) {
    ListVisible(auth, query.inviteCode, now, e)
    && (Truthy(query.q) ==> Like(e.title, "%" + query.q.value + "%"))
    && (category.Some? ==> e.eventCategory == category)
  }

  /** The clause the route builds, as a tree rather than as text. */
  datatype Pred =
    | PublicUpcoming                // type = 'public' AND date_time > now
    | InviteUpcoming(code: string)  // (invite_code = ? AND date_time > now)
    | HostUpcoming(host: UserId)    // (host_id = ? AND date_time > now)
    | AnyOf(left: Pred, right: Pred)
    | AllOf(left: Pred, right: Pred)
    | TitleLike(pattern: string)    // title LIKE ?
    | CategoryIs(category: string)  // event_category = ?

  predicate Eval(p: Pred, now: int, e: Event) {
    match p
    case PublicUpcoming => e.kind == Public && e.dateTime > now
    case InviteUpcoming(c) => e.inviteCode == Some(c) && e.dateTime > now
    case HostUpcoming(h) => e.hostId == h && e.dateTime > now
    case AnyOf(l, r) => Eval(l, now, e) || Eval(r, now, e)
    case AllOf(l, r) => Eval(l, now, e) && Eval(r, now, e)
    case TitleLike(t) => Like(e.title, t)
    case CategoryIs(c) => e.eventCategory == Some(c)
  }

  /** The builder, with each `where = ...` step building the tree: it selects
      exactly the events the route means to list. */
  method BuildListFilter(auth: Option<UserId>, query: Query, eventCategory: Option<string>) returns (p: Pred)
    ensures forall now, e :: Eval(p, now, e) <==> ListSelected(auth, query, eventCategory, now, e)
  {
    p := PublicUpcoming;
    if Truthy(query.inviteCode) {
      p := AnyOf(p, InviteUpcoming(query.inviteCode.value));
    }
    assert forall now, e :: Eval(p, now, e) <==>
      (e.dateTime > now && (e.kind == Public || (Truthy(query.inviteCode) && e.inviteCode == query.inviteCode)));
    if auth.Some? {
      p := AnyOf(p, HostUpcoming(auth.value));
    }
    assert forall now, e :: Eval(p, now, e) <==> ListVisible(auth, query.inviteCode, now, e);
    if Truthy(query.q) {
      p := AllOf(p, TitleLike("%" + query.q.value + "%"));
    }
    assert forall now, e :: Eval(p, now, e) <==>
      ListVisible(auth, query.inviteCode, now, e) && (Truthy(query.q) ==> Like(e.title, "%" + query.q.value + "%"));
    if eventCategory.Some? {
      p := AllOf(p, CategoryIs(eventCategory.value));
    }
  }

  /** Past events are never listed, whatever the parameters. */
  lemma ListedAreUpcoming(auth: Option<UserId>, query: Query, category: Option<string>, now: int, e: Event)
    requires ListSelected(auth, query, category, now, e)
    ensures e.dateTime > now
  {
  }

  /** A private event is listed only with its own invite code or to its host. */
  lemma PrivateNeedsInviteOrHost(auth: Option<UserId>, query: Query, category: Option<string>, now: int, e: Event)
    requires e.kind == Private && ListSelected(auth, query, category, now, e)
    ensures (Truthy(query.inviteCode) && e.inviteCode == query.inviteCode)
         || (auth.Some? && e.hostId == auth.value)
  {
  }

  /** Without a search or category, every upcoming public event is listed. */
  lemma PublicUpcomingListed(auth: Option<UserId>, query: Query, now: int, e: Event)
    requires e.kind == Public && e.dateTime > now
    requires !Truthy(query.q) && !Truthy(query.eventCategory)
    ensures ListSelected(auth, query, Normalize(query.eventCategory), now, e)
  {
  }

  /** The title search is a case-insensitive contains-match for a term
      without wildcard characters. */
  lemma TitleSearchMeansContains(auth: Option<UserId>, query: Query, category: Option<string>, now: int, e: Event)
    requires Truthy(query.q) && NoWildcards(query.q.value)
    ensures ListSelected(auth, query, category, now, e) <==>
      ListVisible(auth, query.inviteCode, now, e)
      && Contains(Lower(e.title), Lower(query.q.value))
      && (category.Some? ==> e.eventCategory == category)
  {
    ContainsPattern(e.title, query.q.value);
  }

  // The clause as the route writes it: text. The base text starts with
  // `WHERE`, and the search and category steps wrap the whole text, keyword
  // included, in parentheses.

  const BASE_WHERE: string := "WHERE " + "type = 'public' AND date_time > datetime('now')"
  const INVITE_ALTERNATIVE: string := " OR (invite_code = ? AND date_time > datetime('now'))"
  const HOST_ALTERNATIVE: string := " OR (host_id = ? AND date_time > datetime('now'))"

  lemma PrefixOfConcat(p: string, a: string, b: string)
    requires p <= a
    ensures p <= a + b
  {
    assert (a + b)[..|p|] == a[..|p|];
  }

  /** What SQLite accepts after `FROM events e` in these queries: nothing, or
      a `WHERE` clause, or the `ORDER BY` clause. */
  predicate ClauseAfterFrom(w: string) {
    w == "" || "WHERE " <= w || "ORDER BY " <= w
  }

  /** The `where` string as the route builds it. Whenever a search or a
      recognised category is given, the text starts with `(` and is not a
      clause SQLite accepts after `FROM events e`, so the query fails and the
      route answers 500; otherwise it is a `WHERE` clause. */
  method WhereTextAsWritten(auth: Option<UserId>, query: Query, eventCategory: Option<string>) returns (where: string)
    ensures Truthy(query.q) || eventCategory.Some? ==> |where| > 0 && where[0] == '(' && !ClauseAfterFrom(where)
    ensures !Truthy(query.q) && eventCategory.None? ==> ClauseAfterFrom(where)
  {
    where := BASE_WHERE;
    PrefixOfConcat("WHERE ", "WHERE ", "type = 'public' AND date_time > datetime('now')");
    if Truthy(query.inviteCode) {
      PrefixOfConcat("WHERE ", where, INVITE_ALTERNATIVE);
      where := where + INVITE_ALTERNATIVE;
    }
    if auth.Some? {
      PrefixOfConcat("WHERE ", where, HOST_ALTERNATIVE);
      where := where + HOST_ALTERNATIVE;
    }
    if Truthy(query.q) {
      where := "(" + where + ") AND title LIKE ?";
    }
    if eventCategory.Some? {
      where := "(" + where + ") AND event_category = ?";
    }
  }

  /** The concrete case: `?q=music` makes the route fail. */
  lemma SearchFailsAsWrittenExample()
    ensures !ClauseAfterFrom("(" + BASE_WHERE + ") AND title LIKE ?")
  {
    assert ("(" + BASE_WHERE + ") AND title LIKE ?")[0] == '(';
  }

  // The binding as written. The signed-in query's select list holds the
  // first `?` (`ee2.user_id = ?`, for `is_enrolled`), but the values are
  // bound as `[...params, authedUserId]`, the invite code first. This
  // matters for the queries that run, those without `q` and without a
  // recognised category.

  /** The placeholders of a query that runs. */
  datatype Slot = EnrolledSlot | InviteSlot | HostSlot

  /** The placeholders in the order of the query text. */
  function ListSlots(auth: Option<UserId>, inviteCode: Option<string>): seq<Slot> {
    (if auth.Some? then [EnrolledSlot] else [])
    + (if Truthy(inviteCode) then [InviteSlot] else [])
    + (if auth.Some? then [HostSlot] else [])
  }

  /** The values the route binds, in order: the pushed parameters, then the
      user id. */
  function ListBound(auth: Option<UserId>, inviteCode: Option<string>): seq<Param> {
    (if Truthy(inviteCode) then [TextParam(inviteCode.value)] else [])
    + (if auth.Some? then [UserParam(auth.value)] else [])
    + (if auth.Some? then [UserParam(auth.value)] else [])
  }

  /** The value the first placeholder `s` receives, by position. */
  function ValueAt(slots: seq<Slot>, values: seq<Param>, s: Slot): Option<Param> {
    if slots == [] || values == [] then None
    else if slots[0] == s then Some(values[0])
    else ValueAt(slots[1..], values[1..], s)
  }

  function SlotValue(auth: Option<UserId>, inviteCode: Option<string>, s: Slot): Option<Param> {
    ValueAt(ListSlots(auth, inviteCode), ListBound(auth, inviteCode), s)
  }

  /** What each placeholder receives as written: one value per placeholder;
      signed in with an invite code, `is_enrolled` gets the code and the
      invite test the user id; otherwise each gets its own value. */
  lemma ListBindingAsWritten(auth: Option<UserId>, inviteCode: Option<string>)
    ensures |ListSlots(auth, inviteCode)| == |ListBound(auth, inviteCode)|
    ensures auth.Some? && Truthy(inviteCode) ==>
      SlotValue(auth, inviteCode, EnrolledSlot) == Some(TextParam(inviteCode.value))
      && SlotValue(auth, inviteCode, InviteSlot) == Some(UserParam(auth.value))
      && SlotValue(auth, inviteCode, HostSlot) == Some(UserParam(auth.value))
    ensures auth.None? || !Truthy(inviteCode) ==>
      SlotValue(auth, inviteCode, EnrolledSlot) == (if auth.Some? then Some(UserParam(auth.value)) else None)
      && SlotValue(auth, inviteCode, InviteSlot) == (if Truthy(inviteCode) then Some(TextParam(inviteCode.value)) else None)
      && SlotValue(auth, inviteCode, HostSlot) == (if auth.Some? then Some(UserParam(auth.value)) else None)
  {
    var slots, values := ListSlots(auth, inviteCode), ListBound(auth, inviteCode);
    if auth.Some? && Truthy(inviteCode) {
      var c, u := TextParam(inviteCode.value), UserParam(auth.value);
      assert slots == [EnrolledSlot, InviteSlot, HostSlot] && values == [c, u, u];
      assert slots[1..] == [InviteSlot, HostSlot] && values[1..] == [u, u];
      assert slots[1..][1..] == [HostSlot] && values[1..][1..] == [u];
      assert ValueAt(slots[1..][1..], values[1..][1..], HostSlot) == Some(u);
      assert ValueAt(slots[1..], values[1..], HostSlot) == Some(u) && ValueAt(slots[1..], values[1..], InviteSlot) == Some(u);
      assert ValueAt(slots, values, EnrolledSlot) == Some(c);
    } else if auth.Some? {
      var u := UserParam(auth.value);
      assert slots == [EnrolledSlot, HostSlot] && values == [u, u];
      assert slots[1..] == [HostSlot] && values[1..] == [u];
      assert slots[1..][1..] == [] && values[1..][1..] == [];
      assert ValueAt(slots[1..][1..], values[1..][1..], InviteSlot) == None;
      assert ValueAt(slots[1..], values[1..], HostSlot) == Some(u) && ValueAt(slots[1..], values[1..], InviteSlot) == None;
      assert ValueAt(slots, values, EnrolledSlot) == Some(u);
    } else if Truthy(inviteCode) {
      assert slots == [InviteSlot] && values == [TextParam(inviteCode.value)];
      assert slots[1..] == [] && values[1..] == [];
      assert ValueAt(slots[1..], values[1..], HostSlot) == None && ValueAt(slots[1..], values[1..], EnrolledSlot) == None;
      assert ValueAt(slots, values, InviteSlot) == Some(TextParam(inviteCode.value));
    } else {
      assert slots == [] && values == [];
    }
  }

  /** The events a query that runs lists as written: the alternatives of
      `ListVisible`, each comparing its column with the value its
      placeholder receives. */
  predicate ListVisibleAsWritten(auth: Option<UserId>, inviteCode: Option<string>, now: int, e: Event, mixed: Mixed) {
    var invite := SlotValue(auth, inviteCode, InviteSlot);
    var host := SlotValue(auth, inviteCode, HostSlot);
    e.dateTime > now
    && (e.kind == Public
        || (Truthy(inviteCode) && invite.Some? && TextCompare(Equal, e.inviteCode, invite.value, mixed))
        || (auth.Some? && host.Some? && IntCompare(Equal, Some(e.hostId), host.value, mixed)))
  }

  /** `is_enrolled` as written: the enrollments in the event whose user id
      equals the value the select list's placeholder receives. */
  function EnrolledAsWritten(enrollments: set<(EventId, UserId)>, id: EventId, auth: Option<UserId>, inviteCode: Option<string>,
                             mixed: Mixed): nat {
    var v := SlotValue(auth, inviteCode, EnrolledSlot);
    if auth.None? || v.None? then 0
    else |set p | p in enrollments && p.0 == id && IntCompare(Equal, Some(p.1), v.value, mixed)|
  }

  /** Anonymous, or signed in without an invite code, the query as written
      lists `ListVisible` and counts the caller's own enrollment. */
  lemma ListAsWrittenAgrees(auth: Option<UserId>, inviteCode: Option<string>, now: int, e: Event,
                            enrollments: set<(EventId, UserId)>, mixed: Mixed)
    requires auth.None? || !Truthy(inviteCode)
    ensures ListVisibleAsWritten(auth, inviteCode, now, e, mixed) == ListVisible(auth, inviteCode, now, e)
    ensures auth.None? ==> EnrolledAsWritten(enrollments, e.id, auth, inviteCode, mixed) == 0
    ensures auth.Some? ==>
      EnrolledAsWritten(enrollments, e.id, auth, inviteCode, mixed) == |set p | p in enrollments && p.0 == e.id && p.1 == auth.value|
  {
    ListBindingAsWritten(auth, inviteCode);
    if auth.Some? {
      SameKindCompare(e.hostId, auth.value, None, "", mixed);
      forall p | p in enrollments
        ensures IntCompare(Equal, Some(p.1), UserParam(auth.value), mixed) <==> p.1 == auth.value
      {
        SameKindCompare(p.1, auth.value, None, "", mixed);
      }
      assert SlotValue(auth, inviteCode, EnrolledSlot) == Some(UserParam(auth.value));
      assert (set p | p in enrollments && p.0 == e.id && IntCompare(Equal, Some(p.1), UserParam(auth.value), mixed))
          == (set p | p in enrollments && p.0 == e.id && p.1 == auth.value);
    } else if Truthy(inviteCode) {
      SameKindCompare(0, 0, e.inviteCode, inviteCode.value, mixed);
    }
  }

  /** Signed in with an invite code, the query as written tests the invite
      code against the user id's digits, and counts as the caller's
      enrollments those whose user id equals the code: none, for a code
      that cannot be read as a number. */
  lemma ListAsWrittenShifted(u: UserId, inviteCode: Option<string>, now: int, e: Event,
                             enrollments: set<(EventId, UserId)>, mixed: Mixed)
    requires Truthy(inviteCode)
    ensures ListVisibleAsWritten(Some(u), inviteCode, now, e, mixed) <==>
      e.dateTime > now && (e.kind == Public || e.inviteCode == Some(IntToString(u)) || e.hostId == u)
    ensures NeverNumeric(inviteCode.value) ==> EnrolledAsWritten(enrollments, e.id, Some(u), inviteCode, mixed) == 0
  {
    ListBindingAsWritten(Some(u), inviteCode);
    UserIdAgainstText(e.inviteCode, u, mixed);
    SameKindCompare(e.hostId, u, None, "", mixed);
    if NeverNumeric(inviteCode.value) {
      var mine := set p | p in enrollments && p.0 == e.id && IntCompare(Equal, Some(p.1), TextParam(inviteCode.value), mixed);
      forall p | p in enrollments
        ensures !IntCompare(Equal, Some(p.1), TextParam(inviteCode.value), mixed)
      {
        TextNeverEqualsInteger(p.1, inviteCode.value, mixed);
      }
      assert mine == {};
    }
  }

  /** The concrete case: user 7 opens the list with `invite_code=ABC`. An
      upcoming private event with that code, hosted by someone else, is
      meant to be listed and is not; a public event user 7 is enrolled in
      comes back with `is_enrolled` 0. */
  lemma InviteAsWrittenExample(mixed: Mixed)
    ensures var e := Event("e1", 2, "Party", None, None, Venue(None, None, None, None, None), None, Private, 100, None, Some("ABC"));
      ListVisible(Some(7), Some("ABC"), 0, e) && !ListVisibleAsWritten(Some(7), Some("ABC"), 0, e, mixed)
    ensures var f := Event("e2", 2, "Fair", None, None, Venue(None, None, None, None, None), None, Public, 100, None, None);
      |set p | p in {("e2", 7)} && p.0 == f.id && p.1 == 7| == 1
      && EnrolledAsWritten({("e2", 7)}, f.id, Some(7), Some("ABC"), mixed) == 0
  {
    var e := Event("e1", 2, "Party", None, None, Venue(None, None, None, None, None), None, Private, 100, None, Some("ABC"));
    var f := Event("e2", 2, "Fair", None, None, Venue(None, None, None, None, None), None, Public, 100, None, None);
    assert IntToString(7) == "7";
    assert "ABC"[0] == 'A';
    ListAsWrittenShifted(7, Some("ABC"), 0, e, {("e2", 7)}, mixed);
    ListAsWrittenShifted(7, Some("ABC"), 0, f, {("e2", 7)}, mixed);
    assert (set p | p in {("e2", 7)} && p.0 == f.id && p.1 == 7) == {("e2", 7)};
  }

  // Upcoming as written: `date_time > datetime('now')` compares TEXT. The
  // stored time is `YYYY-MM-DDTHH:MM` and `datetime('now')` is
  // `YYYY-MM-DD HH:MM:SS`; on the same day they first differ at the
  // separator, and `'T'` sorts after `' '`.

  /** As written, an event counts as upcoming for its whole day, at any hour
      before or after its time. */
  lemma UpcomingAsWrittenWholeDay(day: string, hm: string, hms: string)
    ensures !TextLe(day + "T" + hm, day + " " + hms)
  {
    var a, b := day + "T" + hm, day + " " + hms;
    assert a[..|day|] == day == b[..|day|];
    TextLeCommonHead(a, b, |day|);
    assert a[|day|..][0] == 'T' && b[|day|..][0] == ' ';
  }

  /** The concrete case: at 20:00 an event that began at 08:00 the same day
      is still upcoming as written. */
  lemma UpcomingAsWrittenExample()
    ensures !TextLe("2025-01-10T08:00", "2025-01-10 20:00:00")
  {
    UpcomingAsWrittenWholeDay("2025-01-10", "08:00", "20:00:00");
    assert "2025-01-10" + "T" + "08:00" == "2025-01-10T08:00";
    assert "2025-01-10" + " " + "20:00:00" == "2025-01-10 20:00:00";
  }

  // Venue enrichment.

  /** Some venue column is null. */
  predicate NeedsVenue(v: Venue) {
    !VenueComplete(v)
  }

  /** The nested `place` object of a payload, when there is one. */
  function Inner(d: Place): Option<Place> {
    d.place
  }

  function InnerName(d: Place): Option<string> {
    if d.place.Some? then d.place.value.name else None
  }

  function InnerLatitude(d: Place): Option<real> {
    if d.place.Some? then d.place.value.latitude else None
  }

  function InnerLongitude(d: Place): Option<real> {
    if d.place.Some? then d.place.value.longitude else None
  }

  function InnerCategoryName(d: Place): Option<string> {
    if d.place.Some? then FirstCategoryName(d.place.value.categories) else None
  }

  /** `details.location || details.place?.location || {}`. */
  function DetailsLocation(d: Place): Location {
    if d.location.Some? then d.location.value
    else if d.place.Some? then LocationOr(d.place.value.location)
    else LocationOr(None)
  }

  /** The address the details give: the formatted address, the address line,
      or the present parts joined with `", "`, the first of them that is not
      empty. */
  function DetailsAddress(d: Place): Option<string> {
    var loc := DetailsLocation(d);
    var parts := PresentParts([loc.address, loc.locality, loc.region, loc.postcode, loc.country]);
    OrElse(loc.formattedAddress, OrElse(loc.addressLine, if parts != [] then Some(Join(parts, ", ")) else None))
  }

  /** The venue after enrichment: each column takes the value the details
      give when they give one, and keeps the stored value otherwise; a stored
      empty address becomes null (`|| null`). */
  function MergeVenue(v: Venue, d: Place): (r: Venue)
    ensures Coalesce(d.name, InnerName(d)).Some? ==> r.name == Coalesce(d.name, InnerName(d))
    ensures Coalesce(d.name, InnerName(d)).None? ==> r.name == v.name
    ensures Truthy(DetailsAddress(d)) ==> r.address == DetailsAddress(d)
    ensures !Truthy(DetailsAddress(d)) ==> r.address == (if Truthy(v.address) then v.address else None)
    ensures r.lat == Coalesce(Coalesce(MainLatitude(d), d.latitude), Coalesce(InnerLatitude(d), v.lat))
    ensures r.lon == Coalesce(Coalesce(MainLongitude(d), d.longitude), Coalesce(InnerLongitude(d), v.lon))
    ensures r.category == Coalesce(FirstCategoryName(d.categories), Coalesce(InnerCategoryName(d), v.category))
  {
    Venue(
      Coalesce(Coalesce(d.name, InnerName(d)), v.name),
      OrElse(DetailsAddress(d), OrElse(v.address, None)),
      Coalesce(Coalesce(Coalesce(MainLatitude(d), d.latitude), InnerLatitude(d)), v.lat),
      Coalesce(Coalesce(Coalesce(MainLongitude(d), d.longitude), InnerLongitude(d)), v.lon),
      Coalesce(Coalesce(FirstCategoryName(d.categories), InnerCategoryName(d)), v.category))
  }

  /** Something null before is filled now. */
  predicate ShouldPersist(before: Venue, after: Venue) {
    (before.name.None? && after.name.Some?)
    || (before.address.None? && after.address.Some?)
    || (before.lat.None? && after.lat.Some?)
    || (before.lon.None? && after.lon.Some?)
    || (before.category.None? && after.category.Some?)
  }

  /** Merging never loses a value: a column the stored row has stays filled,
      except an empty stored address that the details do not replace. */
  lemma MergeKeepsFilled(v: Venue, d: Place)
    ensures var r := MergeVenue(v, d);
      (v.name.Some? ==> r.name.Some?) && (Truthy(v.address) ==> Truthy(r.address))
      && (v.lat.Some? ==> r.lat.Some?) && (v.lon.Some? ==> r.lon.Some?)
      && (v.category.Some? ==> r.category.Some?)
  {
  }

  /** Merging details that carry nothing keeps the stored venue (with an
      empty address read as null), and then nothing is persisted. */
  lemma MergeOfEmptyDetails(v: Venue, d: Place)
    requires d.name.None? && d.location.None? && d.main.None? && d.latitude.None? && d.longitude.None?
    requires d.categories == [] && d.place.None?
    ensures MergeVenue(v, d) == v.(address := if Truthy(v.address) then v.address else None)
    ensures !ShouldPersist(v, MergeVenue(v, d))
  {
    var loc := DetailsLocation(d);
    PresentPartsOfAbsent([loc.address, loc.locality, loc.region, loc.postcode, loc.country]);
  }

  /** Merging the same details twice changes nothing more, and the second
      merge has nothing to persist. */
  lemma MergeIdempotent(v: Venue, d: Place)
    ensures MergeVenue(MergeVenue(v, d), d) == MergeVenue(v, d)
    ensures !ShouldPersist(MergeVenue(v, d), MergeVenue(MergeVenue(v, d), d))
  {
  }

  /** What enrichment does with one row, given the result of the details
      fetch for its place id (`None` when the fetch gave nothing). */
  datatype Outcome = Unchanged | Enriched(venue: Venue, persist: bool)

  function EnrichDecision(e: Event, details: Option<Place>): (r: Outcome)
    ensures !NeedsVenue(e.venue) || !Truthy(e.fsqPlaceId) ==> r == Unchanged
    ensures details.None? || details.value.error ==> r == Unchanged
    ensures r.Enriched? ==> (r.venue == MergeVenue(e.venue, details.value)
                              && r.persist == ShouldPersist(e.venue, r.venue))
  {
    if !NeedsVenue(e.venue) || !Truthy(e.fsqPlaceId) then Unchanged
    else if details.None? || details.value.error then Unchanged
    else
      var v := MergeVenue(e.venue, details.value);
      Enriched(v, ShouldPersist(e.venue, v))
  }

  /** Persisting happens only for rows that needed a venue, and only when the
      merge filled a column that was null. */
  lemma PersistOnlyFills(e: Event, details: Option<Place>)
    requires EnrichDecision(e, details).Enriched? && EnrichDecision(e, details).persist
    ensures NeedsVenue(e.venue) && Truthy(e.fsqPlaceId)
    ensures var v := EnrichDecision(e, details).venue;
      (e.venue.name.None? && v.name.Some?) || (e.venue.address.None? && v.address.Some?)
      || (e.venue.lat.None? && v.lat.Some?) || (e.venue.lon.None? && v.lon.Some?)
      || (e.venue.category.None? && v.category.Some?)
  {
  }

  /** The row the response carries for an outcome. */
  function ApplyOutcome(r: Row, o: Outcome): (s: Row)
    ensures s.event.id == r.event.id && s.enrollmentCount == r.enrollmentCount && s.isEnrolled == r.isEnrolled
    ensures o.Unchanged? ==> s == r
    ensures o.Enriched? ==> s.event == r.event.(venue := o.venue)
  {
    match o
    case Unchanged => r
    case Enriched(v, _) => r.(event := r.event.(venue := v))
  }

  /** The ranking and `slice(0, limit)` steps at the end of the route. */
  function Respond(rows: seq<Row>, query: Query, dist: DistanceFn): seq<Row> {
    var (lat, lon) := ParseLl(query.ll);
    var radius := ToNumberOrNull(query.radius);
    var limit := ToNumberOrNull(query.limit);
    var ranked := if lat.Some? && lon.Some? then Rank(rows, lat.value, lon.value, radius, dist) else rows;
    if limit.Some? && limit.value > 0.0 then Slice(ranked, Finite(limit.value)) else ranked
  }

  /** The response: at most `limit` rows (rounded down) when a positive limit
      is given; the fetched rows in order when no point is given; otherwise
      ranked rows within the radius, sorted by distance. */
  lemma RespondProperties(rows: seq<Row>, query: Query, dist: DistanceFn)
    ensures var r := Respond(rows, query, dist);
      var limit := ToNumberOrNull(query.limit);
      var (lat, lon) := ParseLl(query.ll);
      var radius := ToNumberOrNull(query.radius);
      (limit.Some? && limit.value > 0.0 ==> |r| <= Truncate(limit.value))
      && (lat.None? || lon.None? ==> r <= rows)
      && (lat.Some? && lon.Some? ==>
            (forall x :: x in r ==> exists i :: 0 <= i < |rows| && x == WithDistance(rows[i], lat.value, lon.value, dist))
            && (radius.Some? ==> forall x :: x in r ==> x.distance.Some? && x.distance.value <= radius.value)
            && SortedBy(r, RowKey))
  {
    var ll := ParseLl(query.ll);
    var r := Respond(rows, query, dist);
    if ll.0.Some? && ll.1.Some? {
      RankPrefix(rows, ll.0.value, ll.1.value, ToNumberOrNull(query.radius), dist, r);
    }
  }
}
