/** The database behind the API routes as one object whose tables the
    routes read and update: each route that writes is a method that either
    answers with an error and changes nothing, or makes its one insert,
    delete or update. */
module Store {
  import opened Wrappers
  import opened Text
  import opened Records
  import opened Places
  import opened Ranking
  import opened Discovery
  import opened Categories
  import opened Tables
  import opened Enrollments
  import opened CreateRoute
  import opened RegisterRoute
  import FilterRoute
  import ListRoute
  import SqlValues

  // The read of `POST /api/events/filter`.

  /** The rows the filter query returns: the selected events as rows, latest
      first, cut by `LIMIT`. */
  function FilterFetched(events: seq<Event>, enrollments: set<Enrollment>, user: Option<UserId>, b: FilterRoute.Body): seq<Row> {
    var selected := Filter(events, (e: Event) => FilterRoute.Selected(user, b, e));
    FilterRoute.SqlLimit(OrderByDateDesc(RowsFor(selected, enrollments, user)), FilterRoute.Limit(b))
  }

  /** The rows the filter query returns as the route binds its values:
      the same query, with each WHERE placeholder receiving the value
      `BindingAsWritten` gives it. `is_enrolled` and `LIMIT` receive their
      own values. */
  function FilterFetchedAsWritten(events: seq<Event>, enrollments: set<Enrollment>, user: Option<UserId>,
                                  b: FilterRoute.Body, mixed: SqlValues.Mixed): seq<Row> {
    var selected := Filter(events, (e: Event) => FilterRoute.SelectedAsWritten(user, b, e, mixed));
    FilterRoute.SqlLimit(OrderByDateDesc(RowsFor(selected, enrollments, user)), FilterRoute.Limit(b))
  }

  /** The concrete case at the level of the table: with one public concert
      in `Music`, user 7 asking for `Music` gets it from the corrected query
      and nothing as written. */
  lemma FilterAsWrittenEmptyExample(mixed: SqlValues.Mixed)
    ensures var b := FilterRoute.Body(None, None, Undefined, Some("Music"), None, None, None, None, None, None, None);
      var e := Event("e1", 2, "Concert", None, None, Venue(None, None, None, None, None), Some("Music"), Public, 0, None, None);
      |FilterFetched([e], {}, Some(7), b)| == 1 && FilterFetchedAsWritten([e], {}, Some(7), b, mixed) == []
  {
    var b := FilterRoute.Body(None, None, Undefined, Some("Music"), None, None, None, None, None, None, None);
    var e := Event("e1", 2, "Concert", None, None, Venue(None, None, None, None, None), Some("Music"), Public, 0, None, None);
    FilterRoute.CategoryAsWrittenExample(mixed);
    assert Filter([e], (x: Event) => FilterRoute.Selected(Some(7), b, x)) == [e];
    assert Filter([e], (x: Event) => FilterRoute.SelectedAsWritten(Some(7), b, x, mixed)) == [];
    OrderByDateDescFacts(RowsFor([e], {}, Some(7)));
    OrderByDateDescFacts(RowsFor([], {}, Some(7)));
  }

  /** Every row the filter route returns is a stored event that the body
      selects, and it comes from the `limit` latest selected events: the
      radius is applied after the SQL `LIMIT`, so the rows returned are the
      nearest among the latest, not the nearest overall. */
  lemma FilterPostFacts(events: seq<Event>, enrollments: set<Enrollment>, user: Option<UserId>,
                        b: FilterRoute.Body, dist: DistanceFn)
    ensures var latest := OrderByDateDesc(RowsFor(Filter(events, (e: Event) => FilterRoute.Selected(user, b, e)), enrollments, user));
      var fetched := FilterFetched(events, enrollments, user, b);
      var r := FilterRoute.Respond(fetched, b, dist);
      fetched <= latest
      && (FilterRoute.Limit(b) >= 0 ==> |r| <= FilterRoute.Limit(b))
      && forall x :: x in r ==>
           x.event in events && FilterRoute.Selected(user, b, x.event)
           && exists y :: y in fetched && y.event == x.event
  {
    var p := (e: Event) => FilterRoute.Selected(user, b, e);
    var fetched := FilterFetched(events, enrollments, user, b);
    LatestRowsFacts(events, p, enrollments, user, FilterRoute.Limit(b));
    FilterRoute.RespondProperties(fetched, b, dist);
    RespondKeepsEvents(fetched, b, dist);
  }

  /** The rows of a query `SELECT ... WHERE p ORDER BY date_time DESC LIMIT
      n` are stored events satisfying `p`, taken from the front of the
      date order. */
  lemma LatestRowsFacts(events: seq<Event>, p: Event -> bool, enrollments: set<Enrollment>, user: Option<UserId>, n: int)
    ensures var latest := OrderByDateDesc(RowsFor(Filter(events, p), enrollments, user));
      var fetched := FilterRoute.SqlLimit(latest, n);
      fetched <= latest && forall y :: y in fetched ==> y.event in events && p(y.event)
  {
    var selected := Filter(events, p);
    var rows := RowsFor(selected, enrollments, user);
    var latest := OrderByDateDesc(rows);
    var fetched := FilterRoute.SqlLimit(latest, n);
    OrderByDateDescFacts(rows);
    forall y | y in fetched
      ensures y.event in events && p(y.event)
    {
      assert y in latest;
      assert y in multiset(latest);
      assert y in rows;
      var i :| 0 <= i < |rows| && rows[i] == y;
      assert selected[i] in selected;
    }
  }

  /** Ranking and cutting only attach distances: every returned row carries
      the event of a fetched row. */
  lemma RespondKeepsEvents(fetched: seq<Row>, b: FilterRoute.Body, dist: DistanceFn)
    requires FilterRoute.Limit(b) >= 0 ==> |fetched| <= FilterRoute.Limit(b)
    ensures forall x :: x in FilterRoute.Respond(fetched, b, dist) ==> exists y :: y in fetched && y.event == x.event
  {
    var r := FilterRoute.Respond(fetched, b, dist);
    FilterRoute.RespondProperties(fetched, b, dist);
    forall x | x in r
      ensures exists y :: y in fetched && y.event == x.event
    {
      if b.latitude.Some? && b.longitude.Some? {
        var i :| 0 <= i < |fetched| && x == WithDistance(fetched[i], b.latitude.value, b.longitude.value, dist);
        assert fetched[i] in fetched;
      } else {
        assert x in fetched;
      }
    }
  }

  // The read and the write-back of `GET /api/events/list`.

  /** The rows the list query returns, latest first. */
  function ListFetched(events: seq<Event>, enrollments: set<Enrollment>, user: Option<UserId>,
                       query: ListRoute.Query, category: Option<string>, now: int): seq<Row> {
    var selected := Filter(events, (e: Event) => ListRoute.ListSelected(user, query, category, now, e));
    OrderByDateDesc(RowsFor(selected, enrollments, user))
  }

  /** The rows as written, with `is_enrolled` counted against the value
      its placeholder receives. */
  function ListRowsAsWritten(selected: seq<Event>, enrollments: set<Enrollment>, user: Option<UserId>,
                             inviteCode: Option<string>, mixed: SqlValues.Mixed): seq<Row> {
    seq(|selected|, i requires 0 <= i < |selected| =>
      Row(selected[i], Count(enrollments, selected[i].id),
          ListRoute.EnrolledAsWritten(enrollments, selected[i].id, user, inviteCode, mixed), None))
  }

  /** The list query as written: `None` when its text is not accepted (a
      search or a recognised category), else the rows of the query with its
      values bound as the route binds them. */
  function ListFetchedAsWritten(events: seq<Event>, enrollments: set<Enrollment>, user: Option<UserId>,
                                query: ListRoute.Query, category: Option<string>, now: int, mixed: SqlValues.Mixed): Option<seq<Row>> {
    if Truthy(query.q) || category.Some? then None
    else
      var selected := Filter(events, (e: Event) => ListRoute.ListVisibleAsWritten(user, query.inviteCode, now, e, mixed));
      Some(OrderByDateDesc(ListRowsAsWritten(selected, enrollments, user, query.inviteCode, mixed)))
  }

  /** The list query as written fails with a search or a category, and
      otherwise returns what `ListFetched` describes unless the caller is
      signed in and gives an invite code. */
  lemma ListFetchedAsWrittenAgrees(events: seq<Event>, enrollments: set<Enrollment>, user: Option<UserId>,
                                   query: ListRoute.Query, category: Option<string>, now: int, mixed: SqlValues.Mixed)
    ensures Truthy(query.q) || category.Some? ==> ListFetchedAsWritten(events, enrollments, user, query, category, now, mixed).None?
    ensures !Truthy(query.q) && category.None? && (user.None? || !Truthy(query.inviteCode)) ==>
      ListFetchedAsWritten(events, enrollments, user, query, category, now, mixed) == Some(ListFetched(events, enrollments, user, query, category, now))
  {
    if !Truthy(query.q) && category.None? && (user.None? || !Truthy(query.inviteCode)) {
      forall e: Event
        ensures ListRoute.ListVisibleAsWritten(user, query.inviteCode, now, e, mixed) == ListRoute.ListSelected(user, query, category, now, e)
      {
        ListRoute.ListAsWrittenAgrees(user, query.inviteCode, now, e, enrollments, mixed);
      }
      FilterSame(events, (e: Event) => ListRoute.ListVisibleAsWritten(user, query.inviteCode, now, e, mixed),
                 (e: Event) => ListRoute.ListSelected(user, query, category, now, e));
      var selected := Filter(events, (e: Event) => ListRoute.ListSelected(user, query, category, now, e));
      var asWritten := ListRowsAsWritten(selected, enrollments, user, query.inviteCode, mixed);
      var rows := RowsFor(selected, enrollments, user);
      forall i | 0 <= i < |selected|
        ensures asWritten[i] == rows[i]
      {
        ListRoute.ListAsWrittenAgrees(user, query.inviteCode, now, selected[i], enrollments, mixed);
        RowForCounts(selected[i], enrollments, user);
      }
      assert asWritten == rows;
    }
  }

  /** The details fetched for a row's place id (`fetchFsqPlace`), as a
      function of the id; nothing without an id. */
  function DetailsFor(e: Event, fetch: string -> Option<Place>): Option<Place> {
    if Truthy(e.fsqPlaceId) then fetch(e.fsqPlaceId.value) else None
  }

  function OutcomeFor(r: Row, fetch: string -> Option<Place>): ListRoute.Outcome {
    ListRoute.EnrichDecision(r.event, DetailsFor(r.event, fetch))
  }

  /** The enriched rows, one per fetched row, in order. */
  function Enrich(rows: seq<Row>, fetch: string -> Option<Place>): (r: seq<Row>)
    ensures |r| == |rows|
    ensures forall i :: 0 <= i < |rows| ==> r[i] == ListRoute.ApplyOutcome(rows[i], OutcomeFor(rows[i], fetch))
  {
    seq(|rows|, i requires 0 <= i < |rows| => ListRoute.ApplyOutcome(rows[i], OutcomeFor(rows[i], fetch)))
  }

  /** `UPDATE events SET venue_... = ? WHERE event_id = ?`. */
  function SetVenue(events: seq<Event>, id: EventId, v: Venue): (r: seq<Event>)
    ensures |r| == |events|
    ensures forall i :: 0 <= i < |events| ==> r[i] == if events[i].id == id then events[i].(venue := v) else events[i]
    ensures forall i :: 0 <= i < |events| ==>
      r[i].id == events[i].id && r[i].(venue := events[i].venue) == events[i]
      && r[i].venue == (if events[i].id == id then v else events[i].venue)
  {
    seq(|events|, i requires 0 <= i < |events| => if events[i].id == id then events[i].(venue := v) else events[i])
  }

  /** The update one row causes: only when the merge filled a null column
      and the update does not fail. */
  function Persist(events: seq<Event>, r: Row, fetch: string -> Option<Place>, writeFails: EventId -> bool): seq<Event> {
    var o := OutcomeFor(r, fetch);
    if o.Enriched? && o.persist && !writeFails(r.event.id) then SetVenue(events, r.event.id, o.venue) else events
  }

  /** The table after the updates of `rows`, in order. */
  function WriteBack(events: seq<Event>, rows: seq<Row>, fetch: string -> Option<Place>, writeFails: EventId -> bool): seq<Event>
    decreases |rows|
  {
    if rows == [] then events
    else Persist(WriteBack(events, rows[..|rows| - 1], fetch, writeFails), rows[|rows| - 1], fetch, writeFails)
  }

  /** One more row of the write-back is one more `Persist`. */
  lemma WriteBackStep(events: seq<Event>, rows: seq<Row>, i: nat, fetch: string -> Option<Place>,
                      writeFails: EventId -> bool)
    requires i < |rows|
    ensures WriteBack(events, rows[..i + 1], fetch, writeFails)
         == Persist(WriteBack(events, rows[..i], fetch, writeFails), rows[i], fetch, writeFails)
  {
    assert rows[..i + 1][..i] == rows[..i];
  }

  /** One more row of the enrichment is one more outcome at the end. */
  lemma EnrichStep(rows: seq<Row>, i: nat, fetch: string -> Option<Place>)
    requires i < |rows|
    ensures Enrich(rows[..i + 1], fetch)
         == Enrich(rows[..i], fetch) + [ListRoute.ApplyOutcome(rows[i], OutcomeFor(rows[i], fetch))]
  {
    var a := Enrich(rows[..i + 1], fetch);
    var b := Enrich(rows[..i], fetch) + [ListRoute.ApplyOutcome(rows[i], OutcomeFor(rows[i], fetch))];
    assert |a| == |b|;
    forall k | 0 <= k < |a|
      ensures a[k] == b[k]
    {
      assert rows[..i + 1][k] == rows[k];
    }
  }

  /** The two tables differ at most in venues. */
  predicate SameButVenues(a: seq<Event>, b: seq<Event>) {
    |a| == |b| && forall i :: 0 <= i < |a| ==> b[i] == a[i].(venue := b[i].venue)
  }

  /** The write-back changes no column but the five venue columns. */
  lemma {:induction false} WriteBackOnlyVenues(events: seq<Event>, rows: seq<Row>, fetch: string -> Option<Place>,
                                              writeFails: EventId -> bool)
    ensures SameButVenues(events, WriteBack(events, rows, fetch, writeFails))
    decreases |rows|
  {
    if rows != [] {
      WriteBackOnlyVenues(events, rows[..|rows| - 1], fetch, writeFails);
    }
  }

  /** An event whose row did not lead to a persisted merge is left as it was. */
  lemma {:induction false} WriteBackOnlyPersisted(events: seq<Event>, rows: seq<Row>, fetch: string -> Option<Place>,
                                                 writeFails: EventId -> bool, i: int)
    requires 0 <= i < |events|
    requires forall r :: r in rows && r.event.id == events[i].id ==>
               var o := OutcomeFor(r, fetch); !(o.Enriched? && o.persist && !writeFails(r.event.id))
    ensures |WriteBack(events, rows, fetch, writeFails)| == |events|
    ensures WriteBack(events, rows, fetch, writeFails)[i] == events[i]
    decreases |rows|
  {
    if rows != [] {
      var front := rows[..|rows| - 1];
      assert forall r :: r in front ==> r in rows;
      assert rows[|rows| - 1] in rows;
      WriteBackOnlyPersisted(events, front, fetch, writeFails, i);
    }
  }

  /** Changing venues only keeps the tables consistent. */
  lemma ConsistentIgnoresVenues(a: seq<Event>, b: seq<Event>, enrollments: set<Enrollment>)
    requires SameButVenues(a, b) && Consistent(a, enrollments)
    ensures Consistent(b, enrollments)
  {
    assert Ids(a) == Ids(b) by {
      forall x | x in Ids(a) ensures x in Ids(b) {
        var e :| e in a && e.id == x;
        var i :| 0 <= i < |a| && a[i] == e;
        assert b[i] in b;
      }
      forall x | x in Ids(b) ensures x in Ids(a) {
        var e :| e in b && e.id == x;
        var i :| 0 <= i < |b| && b[i] == e;
        assert a[i] in a;
      }
    }
    forall e | e in b
      ensures exists d :: d in a && d.id == e.id && d.hostId == e.hostId && d.capacity == e.capacity
    {
      var i :| 0 <= i < |b| && b[i] == e;
      assert a[i] in a;
    }
    assert UniqueIds(b) by {
      forall i, j | 0 <= i < j < |b| ensures b[i].id != b[j].id {
        assert b[i].id == a[i].id && b[j].id == a[j].id;
      }
    }
  }

  /** The database: the three tables, the next `AUTOINCREMENT` id for
      `users`, and the time `datetime('now')` reads. */
  class EventStore {
    var events: seq<Event>
    var enrollments: set<Enrollment>
    var users: seq<User>
    var nextUserId: int
    var now: int

    ghost predicate Valid()
      reads this
    {
      Consistent(events, enrollments) && UsersConsistent(users, nextUserId)
    }

    /** An empty database at time `now`. */
    constructor(now: int)
      ensures Valid()
      ensures events == [] && enrollments == {} && users == [] && nextUserId == 1 && this.now == now
    {
      events := [];
      enrollments := {};
      users := [];
      nextUserId := 1;
      this.now := now;
    }

    /** `POST /api/enrollments/enroll`: the checks in order, then the insert. */
    method Enroll(auth: Auth, eventId: Option<string>, inviteCode: Option<string>) returns (reply: Reply)
      modifies this
      ensures reply == EnrollReply(old(events), old(enrollments), now, auth, eventId, inviteCode)
      ensures reply.status == 200 ==> auth.Verified? && eventId.Some?
                                      && enrollments == old(enrollments) + {(eventId.value, auth.id)}
      ensures reply.status != 200 ==> enrollments == old(enrollments)
      ensures events == old(events) && users == old(users) && nextUserId == old(nextUserId) && now == old(now)
      ensures old(Valid()) ==> Valid()
    {
      if auth.Rejected? {
        return Reply(401, Some(auth.message));
      }
      if !Truthy(eventId) {
        return Reply(400, Some("Missing event_id"));
      }
      var userId := auth.id;
      var event := FindUpcoming(events, eventId.value, now);
      if event.None? {
        return Reply(404, Some("Event not found or has expired"));
      }
      if event.value.hostId == userId {
        return Reply(400, Some("Host cannot enroll in own event"));
      }
      if event.value.kind == Private {
        if !Truthy(inviteCode) || inviteCode != event.value.inviteCode {
          return Reply(403, Some("Invalid or missing invite code"));
        }
      }
      if (eventId.value, userId) in enrollments {
        return Reply(409, Some("Already enrolled"));
      }
      if event.value.capacity.Some? {
        var enrolledCount := Count(enrollments, eventId.value);
        if enrolledCount >= event.value.capacity.value {
          return Reply(409, Some("Event is full"));
        }
      }
      if Valid() {
        EnrollKeepsConsistent(events, enrollments, now, auth, eventId, inviteCode);
      }
      enrollments := enrollments + {(eventId.value, userId)};
      return OK;
    }

    /** `POST /api/enrollments/unenroll`: the delete, then its change count. */
    method Unenroll(auth: Auth, eventId: Option<string>) returns (reply: Reply)
      modifies this
      ensures reply == UnenrollReply(old(enrollments), auth, eventId)
      ensures reply.status == 200 ==> auth.Verified? && eventId.Some?
                                      && enrollments == old(enrollments) - {(eventId.value, auth.id)}
      ensures reply.status != 200 ==> enrollments == old(enrollments)
      ensures events == old(events) && users == old(users) && nextUserId == old(nextUserId) && now == old(now)
      ensures old(Valid()) ==> Valid()
    {
      if auth.Rejected? {
        return Reply(401, Some(auth.message));
      }
      if !Truthy(eventId) {
        return Reply(400, Some("Missing event_id"));
      }
      var pair := (eventId.value, auth.id);
      var changes := if pair in enrollments then 1 else 0;
      if Valid() {
        RemoveKeepsConsistent(events, enrollments, pair);
      }
      enrollments := enrollments - {pair};
      if changes == 0 {
        return Reply(404, Some("Not enrolled"));
      }
      return OK;
    }

    /** The two deletes of the cleanup route, with their change counts. */
    method Sweep() returns (deletedEvents: nat, deletedEnrollments: nat)
      modifies this
      ensures events == Survivors(old(events), now)
      ensures enrollments == Attached(old(enrollments), events)
      ensures deletedEvents == |old(events)| - |events|
      ensures deletedEnrollments == |old(enrollments)| - |enrollments|
      ensures users == old(users) && nextUserId == old(nextUserId) && now == old(now)
      ensures old(Valid()) ==> Valid()
    {
      if Valid() {
        SweepKeepsConsistent(events, enrollments, now);
      }
      var before := events;
      events := Survivors(events, now);
      deletedEvents := |before| - |events|;
      var enrolledBefore := enrollments;
      enrollments := Attached(enrollments, events);
      assert enrolledBefore == enrollments + (enrolledBefore - enrollments);
      deletedEnrollments := |enrolledBefore| - |enrollments|;
    }

    /** `POST /api/events/cleanup`: the sweep, for an authenticated caller. */
    method CleanupPost(auth: Auth) returns (reply: Reply, deletedEvents: nat, deletedEnrollments: nat)
      modifies this
      ensures auth.Rejected? ==> reply == Reply(401, Some(auth.message))
                                 && events == old(events) && enrollments == old(enrollments)
      ensures auth.Verified? ==> reply == OK && events == Survivors(old(events), now)
                                 && enrollments == Attached(old(enrollments), events)
                                 && deletedEvents == |old(events)| - |events|
                                 && deletedEnrollments == |old(enrollments)| - |enrollments|
      ensures users == old(users) && nextUserId == old(nextUserId) && now == old(now)
      ensures old(Valid()) ==> Valid()
    {
      if auth.Rejected? {
        return Reply(401, Some(auth.message)), 0, 0;
      }
      deletedEvents, deletedEnrollments := Sweep();
      reply := OK;
    }

    /** `GET /api/events/cleanup`: the same sweep without a token. */
    method CleanupGet() returns (reply: Reply, deletedEvents: nat, deletedEnrollments: nat)
      modifies this
      ensures reply == OK
      ensures events == Survivors(old(events), now)
      ensures enrollments == Attached(old(enrollments), events)
      ensures deletedEvents == |old(events)| - |events|
      ensures deletedEnrollments == |old(enrollments)| - |enrollments|
      ensures users == old(users) && nextUserId == old(nextUserId) && now == old(now)
      ensures old(Valid()) ==> Valid()
    {
      deletedEvents, deletedEnrollments := Sweep();
      reply := OK;
    }

    /** `GET /api/events/my`: the caller's upcoming events, latest first. */
    method MyEvents(auth: Auth) returns (reply: Reply, rows: seq<Row>)
      ensures auth.Rejected? ==> reply == Reply(401, Some(auth.message)) && rows == []
      ensures auth.Verified? ==> reply == OK && rows == HostedRows(events, enrollments, auth.id, now)
    {
      if auth.Rejected? {
        return Reply(401, Some(auth.message)), [];
      }
      rows := HostedRows(events, enrollments, auth.id, now);
      reply := OK;
    }

    /** `POST /api/events/create` with the place details fetched for the
        body's place id and the id `randomUUID` produced. */
    method Create(auth: Auth, b: CreateBody, details: Option<Place>, newId: EventId) returns (reply: Reply)
      modifies this
      ensures reply == CreateReply(old(events), auth, b, newId)
      ensures reply.status == 200 ==> auth.Verified? && HasRequired(b) && TypeOf(b.kind.value).Some?
                                      && events == old(events) + [NewEvent(auth.id, b, details, newId)]
      ensures reply.status != 200 ==> events == old(events)
      ensures enrollments == old(enrollments) && users == old(users) && nextUserId == old(nextUserId) && now == old(now)
      ensures old(Valid()) ==> Valid()
    {
      if auth.Rejected? {
        return Reply(401, Some(auth.message));
      }
      if !HasRequired(b) {
        return Reply(400, Some("Missing required fields"));
      }
      var accepted, chosenCategory := ChooseCategory(b);
      if !accepted {
        return Reply(400, Some("Invalid event_category"));
      }
      if TypeOf(b.kind.value).None? || newId in Ids(events) {
        return Reply(500, Some("Server error"));
      }
      var e := NewEvent(auth.id, b, details, newId);
      assert e.eventCategory == chosenCategory;
      if Valid() {
        CreateKeepsConsistent(events, enrollments, auth, b, details, newId);
      }
      events := events + [e];
      return OK;
    }

    /** `POST /api/users/register` with the password hash as a function. */
    method Register(username: Option<string>, email: Option<string>, password: Option<string>, hash: string -> string)
      returns (reply: Reply, registered: Option<Registered>)
      modifies this
      ensures reply == RegisterReply(old(users), username, email, password)
      ensures reply.status == 200 ==>
        Truthy(username) && Truthy(email) && Truthy(password)
        && users == old(users) + [NewUser(old(nextUserId), username.value, email.value, password.value, hash)]
        && nextUserId == old(nextUserId) + 1
        && registered == Some(RegisteredReply(users[|users| - 1]))
      ensures reply.status != 200 ==> users == old(users) && nextUserId == old(nextUserId) && registered.None?
      ensures events == old(events) && enrollments == old(enrollments) && now == old(now)
      ensures old(Valid()) ==> Valid()
    {
      if !Truthy(username) || !Truthy(email) || !Truthy(password) {
        return Reply(400, Some("Missing required fields")), None;
      }
      if EmailTaken(users, email.value) {
        return Reply(400, Some("User already exists")), None;
      }
      if UsernameTaken(users, username.value) {
        return Reply(500, Some("Server error")), None;
      }
      var hashed := hash(password.value);
      var user := User(nextUserId, username.value, email.value, hashed);
      if Valid() {
        RegisterKeepsConsistent(users, nextUserId, username, email, password, hash);
      }
      users := users + [user];
      nextUserId := nextUserId + 1;
      registered := Some(RegisteredReply(user));
      reply := OK;
    }

    /** `POST /api/events/filter`: build the conditions, run the query, rank
        and cut. Nothing is written. */
    method FilterPost(auth: Auth, b: FilterRoute.Body, dist: DistanceFn) returns (rows: seq<Row>, total: nat)
      ensures rows == FilterRoute.Respond(FilterFetched(events, enrollments, UserOf(auth), b), b, dist)
      ensures total == |rows|
    {
      var user := UserOf(auth);
      var conditions, params := FilterRoute.BuildConditions(user, b);
      FilterSame(events, (e: Event) => FilterRoute.Where(conditions, params, e), (e: Event) => FilterRoute.Selected(user, b, e));
      var matched := Filter(events, (e: Event) => FilterRoute.Where(conditions, params, e));
      var fetched := FilterRoute.SqlLimit(OrderByDateDesc(RowsFor(matched, enrollments, user)), FilterRoute.Limit(b));
      rows := FilterRoute.Respond(fetched, b, dist);
      total := |rows|;
    }

    /** `POST /api/events/filter` with its values bound as written: the
        WHERE clause receives `WhereValues`. Anonymous callers, and signed-in
        callers asking for no filter, get what `FilterPost` answers. */
    method FilterPostAsWritten(auth: Auth, b: FilterRoute.Body, dist: DistanceFn, mixed: SqlValues.Mixed)
      returns (rows: seq<Row>, total: nat)
      ensures rows == FilterRoute.Respond(FilterFetchedAsWritten(events, enrollments, UserOf(auth), b, mixed), b, dist)
      ensures UserOf(auth).None? || FilterRoute.FilterParameters(b) == [] ==>
        rows == FilterRoute.Respond(FilterFetched(events, enrollments, UserOf(auth), b), b, dist)
      ensures total == |rows|
    {
      var user := UserOf(auth);
      var conditions, params := FilterRoute.BuildConditions(user, b);
      var bound := FilterRoute.BoundValues(user, params, FilterRoute.Limit(b));
      var whereValues := bound[FilterRoute.SelectPlaceholders(user)..FilterRoute.SelectPlaceholders(user) + |params|];
      FilterSame(events, (e: Event) => FilterRoute.WhereBound(conditions, whereValues, e, mixed),
                 (e: Event) => FilterRoute.SelectedAsWritten(user, b, e, mixed));
      if user.None? || FilterRoute.FilterParameters(b) == [] {
        forall e: Event
          ensures FilterRoute.WhereBound(conditions, whereValues, e, mixed) == FilterRoute.Selected(user, b, e)
        {
          FilterRoute.AsWrittenAgreesUnshifted(user, b, e, mixed);
        }
        FilterSame(events, (e: Event) => FilterRoute.WhereBound(conditions, whereValues, e, mixed),
                   (e: Event) => FilterRoute.Selected(user, b, e));
      }
      var matched := Filter(events, (e: Event) => FilterRoute.WhereBound(conditions, whereValues, e, mixed));
      var fetched := FilterRoute.SqlLimit(OrderByDateDesc(RowsFor(matched, enrollments, user)), FilterRoute.Limit(b));
      rows := FilterRoute.Respond(fetched, b, dist);
      total := |rows|;
    }

    /** The enrichment of the fetched rows, one at a time: each row's
        outcome is added to the response, and a merge that filled a null
        column is written back unless the update fails. */
    method EnrichAndPersist(candidates: seq<Row>, fetch: string -> Option<Place>, writeFails: EventId -> bool)
      returns (enriched: seq<Row>)
      modifies this
      ensures enriched == Enrich(candidates, fetch)
      ensures events == WriteBack(old(events), candidates, fetch, writeFails)
      ensures enrollments == old(enrollments) && users == old(users) && nextUserId == old(nextUserId) && now == old(now)
      ensures old(Valid()) ==> Valid()
    {
      ghost var start := events;
      ghost var wasValid := Valid();
      enriched := [];
      for i := 0 to |candidates|
        invariant enriched == Enrich(candidates[..i], fetch)
        invariant events == WriteBack(start, candidates[..i], fetch, writeFails)
        invariant enrollments == old(enrollments) && users == old(users) && nextUserId == old(nextUserId) && now == old(now)
      {
        var row := candidates[i];
        var outcome := OutcomeFor(row, fetch);
        enriched := enriched + [ListRoute.ApplyOutcome(row, outcome)];
        WriteBackStep(start, candidates, i, fetch, writeFails);
        EnrichStep(candidates, i, fetch);
        if outcome.Enriched? && outcome.persist && !writeFails(row.event.id) {
          events := SetVenue(events, row.event.id, outcome.venue);
        }
      }
      assert candidates[..|candidates|] == candidates;
      WriteBackOnlyVenues(start, candidates, fetch, writeFails);
      if wasValid {
        ConsistentIgnoresVenues(start, events, enrollments);
      }
    }

    /** `GET /api/events/list`: build the filter, run the query, enrich each
        row, persist the merges that filled a null column (a failed update is
        ignored), then rank and cut. */
    method ListGet(auth: Auth, query: ListRoute.Query, dist: DistanceFn,
                   fetch: string -> Option<Place>, writeFails: EventId -> bool) returns (rows: seq<Row>)
      modifies this
      ensures var fetched := ListFetched(old(events), enrollments, UserOf(auth), query, Normalize(query.eventCategory), now);
        rows == ListRoute.Respond(Enrich(fetched, fetch), query, dist)
        && events == WriteBack(old(events), fetched, fetch, writeFails)
      ensures enrollments == old(enrollments) && users == old(users) && nextUserId == old(nextUserId) && now == old(now)
      ensures old(Valid()) ==> Valid()
    {
      var user := UserOf(auth);
      var clock := now;
      var eventCategory := NormalizeCategory(query.eventCategory);
      var p := ListRoute.BuildListFilter(user, query, eventCategory);
      FilterSame(events, (e: Event) => ListRoute.Eval(p, clock, e),
                 (e: Event) => ListRoute.ListSelected(user, query, eventCategory, clock, e));
      var candidates := OrderByDateDesc(RowsFor(Filter(events, (e: Event) => ListRoute.Eval(p, clock, e)), enrollments, user));
      var enriched := EnrichAndPersist(candidates, fetch, writeFails);
      rows := ListRoute.Respond(enriched, query, dist);
    }
  }
}
