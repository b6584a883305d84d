/** The `POST /api/events/create` route as a decision and a record: which
    reply a request gets, and the `events` row it inserts. The insert itself
    is `EventStore.Create`. */
module CreateRoute {
  import opened Wrappers
  import opened Text
  import opened Records
  import opened Places
  import opened Categories
  import opened Tables

  /** The JSON body after destructuring; absent members are `None`.
      `dateTime` is the `date_time` text read as a time, `None` when absent
      or empty. */
  datatype CreateBody = CreateBody(
    title: Option<string>,
    description: Option<string>,
    dateTime: Option<int>,
    kind: Option<string>,
    fsqPlaceId: Option<string>,
    capacity: Option<int>,
    inviteCode: Option<string>,
    eventCategory: Option<string>)

  /** The `type` column's `CHECK (type IN ('public','private'))`. */
  function TypeOf(t: string): (r: Option<EventType>)
    ensures r == Some(Public) <==> t == "public"
    ensures r == Some(Private) <==> t == "private"
  {
    if t == "public" then Some(Public) else if t == "private" then Some(Private) else None
  }

  /** All four required members are present and non-empty. */
  predicate HasRequired(b: CreateBody) {
    Truthy(b.title) && b.dateTime.Some? && Truthy(b.kind) && Truthy(b.fsqPlaceId)
  }

  /** The checks in their order: the token, the required members, the
      category; then the `INSERT`, which fails with `500` when the `CHECK`
      on `type` rejects the value or the generated id is already a key. */
  function CreateReply(events: seq<Event>, auth: Auth, b: CreateBody, newId: EventId): Reply {
    if auth.Rejected? then Reply(401, Some(auth.message))
    else if !HasRequired(b) then Reply(400, Some("Missing required fields"))
    else if Truthy(b.eventCategory) && Normalize(b.eventCategory).None? then Reply(400, Some("Invalid event_category"))
    else if TypeOf(b.kind.value).None? || newId in Ids(events) then Reply(500, Some("Server error"))
    else OK
  }

  /** The five venue columns taken from the place details (`details || {}`):
      the name when non-empty, the formatted address or else the address,
      the main geocode, and the first category's name. */
  function CreateVenue(details: Option<Place>): Venue {
    if details.None? then Venue(None, None, None, None, None)
    else
      var d := details.value;
      var loc := LocationOr(d.location);
      Venue(
        if Truthy(d.name) then d.name else None,
        OrElse(loc.formattedAddress, OrElse(loc.address, None)),
        MainLatitude(d),
        MainLongitude(d),
        FirstCategoryName(d.categories))
  }

  /** `chosenCategory`: the canonical category, or null when none is given. */
  function ChosenCategory(b: CreateBody): Option<string> {
    if Truthy(b.eventCategory) then Normalize(b.eventCategory) else None
  }

  /** The category check with its `normalizeCategory` call: whether the
      given category (if any) is accepted, and the category to store. */
  method ChooseCategory(b: CreateBody) returns (accepted: bool, chosenCategory: Option<string>)
    ensures accepted <==> !Truthy(b.eventCategory) || Normalize(b.eventCategory).Some?
    ensures accepted ==> chosenCategory == ChosenCategory(b)
  {
    chosenCategory := None;
    if Truthy(b.eventCategory) {
      var normalized := NormalizeCategory(b.eventCategory);
      if normalized.None? {
        return false, None;
      }
      chosenCategory := normalized;
    }
    accepted := true;
  }

  /** The inserted row. */
  function NewEvent(host: UserId, b: CreateBody, details: Option<Place>, newId: EventId): Event
    requires HasRequired(b) && TypeOf(b.kind.value).Some?
  {
    Event(
      newId,
      host,
      b.title.value,
      Some(if Truthy(b.description) then b.description.value else ""),
      b.fsqPlaceId,
      CreateVenue(details),
      ChosenCategory(b),
      TypeOf(b.kind.value).value,
      b.dateTime.value,
      b.capacity,
      if Truthy(b.inviteCode) then b.inviteCode else None)
  }

  /** A request is accepted exactly when the caller is authenticated, the
      required members are present, the category (when given) is recognised,
      the type is one the schema allows, and the id is new. The time is not
      among the checks: a past `date_time` is accepted. */
  lemma CreateAccepted(events: seq<Event>, auth: Auth, b: CreateBody, newId: EventId, t: int)
    ensures var r := CreateReply(events, auth, b, newId);
      (r.status == 200 <==>
        auth.Verified? && HasRequired(b)
        && (Truthy(b.eventCategory) ==> Normalize(b.eventCategory).Some?)
        && (b.kind == Some("public") || b.kind == Some("private"))
        && newId !in Ids(events))
      && (auth.Rejected? ==> r.status == 401)
      && (auth.Verified? && !HasRequired(b) ==> r == Reply(400, Some("Missing required fields")))
      && (b.dateTime.Some? ==> CreateReply(events, auth, b.(dateTime := Some(t)), newId) == r)
  {
  }

  /** The inserted row: the fresh id, the caller as host, the description
      defaulting to `""`, the canonical category or null, the capacity as
      given (`?? null`), and an empty invite code stored as null. */
  lemma NewEventFields(host: UserId, b: CreateBody, details: Option<Place>, newId: EventId)
    requires HasRequired(b) && TypeOf(b.kind.value).Some?
    ensures var e := NewEvent(host, b, details, newId);
      e.id == newId && e.hostId == host && e.title == b.title.value
      && e.description == Some(if Truthy(b.description) then b.description.value else "")
      && (e.eventCategory.None? || e.eventCategory.value in EVENT_CATEGORIES)
      && (!Truthy(b.eventCategory) ==> e.eventCategory.None?)
      && (Truthy(b.eventCategory) ==> e.eventCategory == Normalize(b.eventCategory))
      && (b.kind == Some("public") <==> e.kind == Public)
      && e.dateTime == b.dateTime.value && e.capacity == b.capacity
      && (e.inviteCode.Some? <==> Truthy(b.inviteCode))
      && (details.None? ==> e.venue == Venue(None, None, None, None, None))
  {
    if Truthy(b.eventCategory) {
      var n := Normalize(b.eventCategory);
      assert n == FirstMatch(EVENT_CATEGORIES, Lower(Trim(b.eventCategory.value)));
    }
  }

  /** An accepted insert keeps the tables consistent: the id is new, so no
      enrollment names it and the new event has none. */
  lemma CreateKeepsConsistent(events: seq<Event>, enrollments: set<Enrollment>, auth: Auth,
                              b: CreateBody, details: Option<Place>, newId: EventId)
    requires Consistent(events, enrollments)
    requires CreateReply(events, auth, b, newId).status == 200
    ensures auth.Verified? && HasRequired(b) && TypeOf(b.kind.value).Some?
    ensures Consistent(events + [NewEvent(auth.id, b, details, newId)], enrollments)
  {
    var e := NewEvent(auth.id, b, details, newId);
    var after := events + [e];
    assert UniqueIds(after) by {
      forall i, j | 0 <= i < j < |after|
        ensures after[i].id != after[j].id
      {
        if j == |events| {
          assert after[i] in events;
        }
      }
    }
    assert Ids(after) == Ids(events) + {newId} by {
      forall x | x in after ensures x in events || x == e {}
      assert e in after;
      forall x | x in events ensures x in after {}
    }
    assert EnrolledIn(enrollments, newId) == {};
  }
}
