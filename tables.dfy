/** The three SQLite tables as values, the reads the routes make of them,
    and the consistency the schema and the routes maintain between them. */
module Tables {
  import opened Wrappers
  import opened Records
  import opened Ranking

  /** An `event_enrollments` row, reduced to its `UNIQUE(event_id, user_id)`
      key: a set of pairs cannot hold the same pair twice. */
  type Enrollment = (EventId, UserId)

  /** The result of `verifyToken`: the reason it failed, or the decoded id. */
  datatype Auth = Rejected(message: string) | Verified(id: UserId)

  /** `isAuthed ? auth.decoded.id : null`. */
  function UserOf(a: Auth): (r: Option<UserId>)
    ensures r.Some? <==> a.Verified?
    ensures a.Verified? ==> r.value == a.id
  {
    if a.Verified? then Some(a.id) else None
  }

  /** What a route answers: the HTTP status and, for an error, its `error` text. */
  datatype Reply = Reply(status: int, error: Option<string>)

  const OK: Reply := Reply(200, None)

  // Reading the tables.

  /** The events of `s` satisfying `p`, in table order. */
  function Filter(s: seq<Event>, p: Event -> bool): (r: seq<Event>)
    ensures |r| <= |s|
    ensures forall x :: x in r <==> x in s && p(x)
  {
    if s == [] then [] else (if p(s[0]) then [s[0]] else []) + Filter(s[1..], p)
  }

  /** Filtering keeps everything when everything passes. */
  lemma {:induction false} FilterAll(s: seq<Event>, p: Event -> bool)
    requires forall x :: x in s ==> p(x)
    ensures Filter(s, p) == s
  {
    if s != [] {
      assert s[0] in s;
      assert forall x :: x in s[1..] ==> x in s;
      FilterAll(s[1..], p);
      assert s == [s[0]] + s[1..];
    }
  }

  /** A filter depends only on what its test says about the elements. */
  lemma {:induction false} FilterSame(s: seq<Event>, p: Event -> bool, q: Event -> bool)
    requires forall x :: x in s ==> p(x) == q(x)
    ensures Filter(s, p) == Filter(s, q)
  {
    if s != [] {
      assert s[0] in s;
      assert forall x :: x in s[1..] ==> x in s;
      FilterSame(s[1..], p, q);
    }
  }

  /** Filtering an event table keeps its keys unique. */
  lemma {:induction false} FilterKeepsUniqueIds(events: seq<Event>, p: Event -> bool)
    requires UniqueIds(events)
    ensures UniqueIds(Filter(events, p))
  {
    if events != [] {
      var tail := events[1..];
      assert UniqueIds(tail) by {
        forall i, j | 0 <= i < j < |tail|
          ensures tail[i].id != tail[j].id
        {
          assert tail[i] == events[i + 1] && tail[j] == events[j + 1];
        }
      }
      FilterKeepsUniqueIds(tail, p);
      var rest := Filter(tail, p);
      forall x | x in rest
        ensures x.id != events[0].id
      {
        var k :| 0 <= k < |tail| && tail[k] == x;
        assert events[k + 1] == x;
      }
      var r := Filter(events, p);
      if p(events[0]) {
        assert r == [events[0]] + rest;
        forall i, j | 0 <= i < j < |r|
          ensures r[i].id != r[j].id
        {
          if i == 0 {
            assert r[j] == rest[j - 1] && r[j] in rest;
          } else {
            assert r[i] == rest[i - 1] && r[j] == rest[j - 1];
          }
        }
      }
    }
  }

  /** Two rows with the same key are the same row. */
  lemma SameIdSameEvent(events: seq<Event>, a: Event, b: Event)
    requires UniqueIds(events) && a in events && b in events && a.id == b.id
    ensures a == b
  {
    var i :| 0 <= i < |events| && events[i] == a;
    var j :| 0 <= j < |events| && events[j] == b;
  }

  /** `SELECT * FROM events WHERE event_id = ? AND date_time > datetime('now')`. */
  function FindUpcoming(events: seq<Event>, id: EventId, now: int): (r: Option<Event>)
    ensures r.Some? ==> r.value in events && r.value.id == id && r.value.dateTime > now
    ensures r.None? ==> forall e :: e in events && e.id == id ==> e.dateTime <= now
  {
    if events == [] then None
    else if events[0].id == id && events[0].dateTime > now then Some(events[0])
    else FindUpcoming(events[1..], id, now)
  }

  /** The enrollments of one event. */
  function EnrolledIn(enrollments: set<Enrollment>, id: EventId): set<Enrollment> {
    set p | p in enrollments && p.0 == id
  }

  /** `SELECT COUNT(*) FROM event_enrollments WHERE event_id = ?`. */
  function Count(enrollments: set<Enrollment>, id: EventId): nat {
    |EnrolledIn(enrollments, id)|
  }

  /** Adding a pair raises the count of its own event by one when the pair is
      new, and leaves every other count alone. */
  lemma CountAdd(enrollments: set<Enrollment>, p: Enrollment, id: EventId)
    ensures Count(enrollments + {p}, id) == Count(enrollments, id) + (if p.0 == id && p !in enrollments then 1 else 0)
  {
    if p.0 == id && p !in enrollments {
      assert EnrolledIn(enrollments + {p}, id) == EnrolledIn(enrollments, id) + {p};
    } else {
      assert EnrolledIn(enrollments + {p}, id) == EnrolledIn(enrollments, id);
    }
  }

  /** Removing enrollments never raises a count. */
  lemma CountSubset(a: set<Enrollment>, b: set<Enrollment>, id: EventId)
    requires a <= b
    ensures Count(a, id) <= Count(b, id)
  {
    var x, y := EnrolledIn(a, id), EnrolledIn(b, id);
    assert y == x + (y - x) && x * (y - x) == {};
  }

  /** What the schema and the routes keep true of the events and enrollment
      tables: `event_id` is a key, every enrollment names a stored event, no
      host is enrolled in their own event, and an event with a capacity has
      no more enrollments than it (or none at all). */
  ghost predicate Consistent(events: seq<Event>, enrollments: set<Enrollment>) {
    UniqueIds(events)
    && (forall p :: p in enrollments ==> p.0 in Ids(events))
    && (forall e :: e in events ==> (e.id, e.hostId) !in enrollments)
    && (forall e :: e in events && e.capacity.Some? ==>
          Count(enrollments, e.id) == 0 || Count(enrollments, e.id) <= e.capacity.value)
  }

  // The rows the listing routes return.

  /** A listing row: the event, its enrollment count, and the caller's own
      enrollment count, which is 0 or 1 because of the `UNIQUE` key and 0
      for an anonymous caller. */
  function RowFor(e: Event, enrollments: set<Enrollment>, user: Option<UserId>): Row {
    Row(e, Count(enrollments, e.id), if user.Some? && (e.id, user.value) in enrollments then 1 else 0, None)
  }

  /** A row's `is_enrolled` is the SQL count of the caller's enrollments in
      the event (0 for an anonymous caller), and its `enrollment_count` the
      count of all enrollments in it. */
  lemma RowForCounts(e: Event, enrollments: set<Enrollment>, user: Option<UserId>)
    ensures var r := RowFor(e, enrollments, user);
      r.event == e && r.enrollmentCount == |set p | p in enrollments && p.0 == e.id|
      && (user.None? ==> r.isEnrolled == 0)
      && (user.Some? ==> r.isEnrolled == |set p | p in enrollments && p.0 == e.id && p.1 == user.value|)
      && r.isEnrolled <= 1
  {
    if user.Some? {
      var mine := set p | p in enrollments && p.0 == e.id && p.1 == user.value;
      if (e.id, user.value) in enrollments {
        assert mine == {(e.id, user.value)};
      } else {
        assert mine == {};
      }
    }
  }

  function RowsFor(events: seq<Event>, enrollments: set<Enrollment>, user: Option<UserId>): (r: seq<Row>)
    ensures |r| == |events| && forall i :: 0 <= i < |events| ==> r[i] == RowFor(events[i], enrollments, user)
  {
    seq(|events|, i requires 0 <= i < |events| => RowFor(events[i], enrollments, user))
  }

  /** `ORDER BY date_time DESC` as a sort on the negated time. */
  function DateKey(r: Row): Key {
    Known(-(r.event.dateTime as real))
  }

  function OrderByDateDesc(rows: seq<Row>): seq<Row> {
    SortBy(rows, DateKey)
  }

  /** The ordering is a permutation of its input, latest first. */
  lemma OrderByDateDescFacts(rows: seq<Row>)
    ensures var r := OrderByDateDesc(rows);
      multiset(r) == multiset(rows) && |r| == |rows|
      && forall i, j :: 0 <= i < j < |r| ==> r[i].event.dateTime >= r[j].event.dateTime
  {
    var r := OrderByDateDesc(rows);
    SortSorted(rows, DateKey);
    forall i, j | 0 <= i < j < |r|
      ensures r[i].event.dateTime >= r[j].event.dateTime
    {
      assert KeyLe(DateKey(r[i]), DateKey(r[j]));
    }
  }

  /** A row of `GET /api/events/my`: `1 AS is_enrolled` for every row. */
  function HostRow(e: Event, enrollments: set<Enrollment>): Row {
    Row(e, Count(enrollments, e.id), 1, None)
  }

  /** The host's upcoming events, latest first. */
  function HostedRows(events: seq<Event>, enrollments: set<Enrollment>, host: UserId, now: int): seq<Row> {
    var hosted := Filter(events, (e: Event) => e.hostId == host && e.dateTime > now);
    OrderByDateDesc(seq(|hosted|, i requires 0 <= i < |hosted| => HostRow(hosted[i], enrollments)))
  }

  /** Exactly the caller's upcoming events are returned, each once with its
      enrollment count and `is_enrolled` 1, latest first. */
  lemma HostedRowsExact(events: seq<Event>, enrollments: set<Enrollment>, host: UserId, now: int)
    ensures var r := HostedRows(events, enrollments, host, now);
      (forall x :: x in r <==> x.event in events && x.event.hostId == host && x.event.dateTime > now
                               && x == HostRow(x.event, enrollments))
      && (forall i, j :: 0 <= i < j < |r| ==> r[i].event.dateTime >= r[j].event.dateTime)
  {
    var hosted := Filter(events, (e: Event) => e.hostId == host && e.dateTime > now);
    var rows := seq(|hosted|, i requires 0 <= i < |hosted| => HostRow(hosted[i], enrollments));
    var r := HostedRows(events, enrollments, host, now);
    OrderByDateDescFacts(rows);
    forall x: Row
      ensures x in r <==> x in rows
    {
      assert x in r <==> x in multiset(r);
      assert x in rows <==> x in multiset(rows);
    }
    forall x | x in rows
      ensures x.event in hosted && x == HostRow(x.event, enrollments)
    {
      var i :| 0 <= i < |rows| && rows[i] == x;
    }
    forall x: Row | x.event in hosted && x == HostRow(x.event, enrollments)
      ensures x in rows
    {
      var i :| 0 <= i < |hosted| && hosted[i] == x.event;
      assert rows[i] == x;
    }
  }

  // The expiry sweep.

  /** `DELETE FROM events WHERE date_time <= datetime('now')` keeps these. */
  function Survivors(events: seq<Event>, now: int): (r: seq<Event>)
    ensures |r| <= |events|
    ensures forall e :: e in r <==> e in events && e.dateTime > now
  {
    Filter(events, (e: Event) => e.dateTime > now)
  }

  /** `DELETE FROM event_enrollments WHERE event_id NOT IN (SELECT event_id
      FROM events)` keeps these. */
  function Attached(enrollments: set<Enrollment>, events: seq<Event>): (r: set<Enrollment>)
    ensures r <= enrollments
    ensures forall p :: p in r <==> p in enrollments && p.0 in Ids(events)
  {
    set p | p in enrollments && p.0 in Ids(events)
  }

  /** After a sweep no past event and no orphan enrollment is left, and every
      upcoming event and every enrollment of a surviving event is kept. */
  lemma SweepResult(events: seq<Event>, enrollments: set<Enrollment>, now: int)
    ensures var es := Survivors(events, now); var en := Attached(enrollments, es);
      (forall e :: e in es ==> e.dateTime > now)
      && (forall e :: e in events && e.dateTime > now ==> e in es)
      && (forall p :: p in en ==> p.0 in Ids(es))
      && (forall p :: p in enrollments && p.0 in Ids(es) ==> p in en)
  {
  }

  /** A second sweep at the same time removes nothing. */
  lemma SweepIdempotent(events: seq<Event>, enrollments: set<Enrollment>, now: int)
    ensures var es := Survivors(events, now); var en := Attached(enrollments, es);
      Survivors(es, now) == es && Attached(en, es) == en
  {
    var es := Survivors(events, now);
    FilterAll(es, (e: Event) => e.dateTime > now);
  }

  /** The sweep keeps the tables consistent. */
  lemma SweepKeepsConsistent(events: seq<Event>, enrollments: set<Enrollment>, now: int)
    requires Consistent(events, enrollments)
    ensures var es := Survivors(events, now); Consistent(es, Attached(enrollments, es))
  {
    var es := Survivors(events, now);
    var en := Attached(enrollments, es);
    FilterKeepsUniqueIds(events, (e: Event) => e.dateTime > now);
    forall e | e in es && e.capacity.Some?
      ensures Count(en, e.id) == 0 || Count(en, e.id) <= e.capacity.value
    {
      CountSubset(en, enrollments, e.id);
    }
  }
}
