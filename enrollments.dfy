/** The `POST /api/enrollments/enroll` and `POST /api/enrollments/unenroll`
    routes as decisions on the tables: which reply each request gets. The
    table updates themselves are `EventStore.Enroll` and
    `EventStore.Unenroll`. */
module Enrollments {
  import opened Wrappers
  import opened Text
  import opened Records
  import opened Tables

  /** The checks of the enroll route, in their order; `OK` means the pair is
      inserted. */
  function EnrollReply(events: seq<Event>, enrollments: set<Enrollment>, now: int,
                       auth: Auth, eventId: Option<string>, inviteCode: Option<string>): Reply
  {
    if auth.Rejected? then Reply(401, Some(auth.message))
    else if !Truthy(eventId) then Reply(400, Some("Missing event_id"))
    else
      var found := FindUpcoming(events, eventId.value, now);
      if found.None? then Reply(404, Some("Event not found or has expired"))
      else
        var e := found.value;
        if e.hostId == auth.id then Reply(400, Some("Host cannot enroll in own event"))
        else if e.kind == Private && (!Truthy(inviteCode) || inviteCode != e.inviteCode)
        then Reply(403, Some("Invalid or missing invite code"))
        else if (eventId.value, auth.id) in enrollments then Reply(409, Some("Already enrolled"))
        else if e.capacity.Some? && Count(enrollments, eventId.value) >= e.capacity.value
        then Reply(409, Some("Event is full"))
        else OK
  }

  /** The invite-code check: a public event admits any code, a private one
      only its own, non-empty code. */
  predicate InviteAdmits(e: Event, inviteCode: Option<string>) {
    e.kind == Public || (Truthy(inviteCode) && inviteCode == e.inviteCode)
  }

  /** The condition under which an enrollment is accepted, stated on the
      event the id names. */
  predicate MayEnroll(e: Event, enrollments: set<Enrollment>, now: int, user: UserId, inviteCode: Option<string>) {
    e.dateTime > now
    && e.hostId != user
    && InviteAdmits(e, inviteCode)
    && (e.id, user) !in enrollments
    && (e.capacity.Some? ==> Count(enrollments, e.id) < e.capacity.value)
  }

  /** An enrollment is accepted exactly when the caller is authenticated, an
      event id is given, and the stored event with that id is upcoming, not
      hosted by the caller, open to the caller's invite code when private,
      not yet joined by the caller, and not full. No other reply is `200`. */
  lemma EnrollAccepted(events: seq<Event>, enrollments: set<Enrollment>, now: int,
                       auth: Auth, eventId: Option<string>, inviteCode: Option<string>)
    requires UniqueIds(events)
    ensures var r := EnrollReply(events, enrollments, now, auth, eventId, inviteCode);
      (r.status == 200 <==>
        auth.Verified? && Truthy(eventId)
        && exists e :: e in events && e.id == eventId.value && MayEnroll(e, enrollments, now, auth.id, inviteCode))
      && (r.status == 200 || r.error.Some?)
  {
    var r := EnrollReply(events, enrollments, now, auth, eventId, inviteCode);
    if auth.Verified? && Truthy(eventId) {
      var found := FindUpcoming(events, eventId.value, now);
      if e :| e in events && e.id == eventId.value && MayEnroll(e, enrollments, now, auth.id, inviteCode) {
        assert found.Some?;
        SameIdSameEvent(events, e, found.value);
      }
    }
  }

  /** The rejections, each with its status and text, in the order the route
      checks them: the token before the body, the host check before the
      invite code, the duplicate check before the capacity check. */
  lemma EnrollRejections(events: seq<Event>, enrollments: set<Enrollment>, now: int,
                         auth: Auth, eventId: Option<string>, inviteCode: Option<string>)
    ensures var r := EnrollReply(events, enrollments, now, auth, eventId, inviteCode);
      var found := if Truthy(eventId) then FindUpcoming(events, eventId.value, now) else None;
      (auth.Rejected? ==> r == Reply(401, Some(auth.message)))
      && (auth.Verified? && !Truthy(eventId) ==> r == Reply(400, Some("Missing event_id")))
      && ((auth.Verified? && Truthy(eventId) && (forall e :: e in events && e.id == eventId.value ==> e.dateTime <= now))
          ==> r == Reply(404, Some("Event not found or has expired")))
      && ((auth.Verified? && found.Some? && found.value.hostId == auth.id)
          ==> r == Reply(400, Some("Host cannot enroll in own event")))
      && ((auth.Verified? && found.Some? && found.value.hostId != auth.id && !InviteAdmits(found.value, inviteCode))
          ==> r == Reply(403, Some("Invalid or missing invite code")))
      && ((auth.Verified? && found.Some? && found.value.hostId != auth.id && InviteAdmits(found.value, inviteCode)
           && (eventId.value, auth.id) in enrollments)
          ==> r == Reply(409, Some("Already enrolled")))
      && ((auth.Verified? && found.Some? && found.value.hostId != auth.id && InviteAdmits(found.value, inviteCode)
           && (eventId.value, auth.id) !in enrollments
           && found.value.capacity.Some? && Count(enrollments, eventId.value) >= found.value.capacity.value)
          ==> r == Reply(409, Some("Event is full")))
  {
    if auth.Verified? && Truthy(eventId) && (forall e :: e in events && e.id == eventId.value ==> e.dateTime <= now) {
      assert FindUpcoming(events, eventId.value, now).None?;
    }
  }

  /** A public event ignores the invite code: any two codes get the same reply. */
  lemma PublicIgnoresInviteCode(events: seq<Event>, enrollments: set<Enrollment>, now: int,
                                auth: Auth, eventId: Option<string>, code1: Option<string>, code2: Option<string>)
    requires Truthy(eventId)
    requires var found := FindUpcoming(events, eventId.value, now); found.Some? && found.value.kind == Public
    ensures EnrollReply(events, enrollments, now, auth, eventId, code1)
         == EnrollReply(events, enrollments, now, auth, eventId, code2)
  {
  }

  /** An accepted enrollment keeps the tables consistent: the new pair names a
      stored event, its user is not the host, and the count it raises stays
      within the capacity. */
  lemma EnrollKeepsConsistent(events: seq<Event>, enrollments: set<Enrollment>, now: int,
                              auth: Auth, eventId: Option<string>, inviteCode: Option<string>)
    requires Consistent(events, enrollments)
    requires EnrollReply(events, enrollments, now, auth, eventId, inviteCode).status == 200
    ensures auth.Verified? && eventId.Some?
    ensures Consistent(events, enrollments + {(eventId.value, auth.id)})
  {
    var id, u := eventId.value, auth.id;
    var e0 := FindUpcoming(events, id, now).value;
    var after := enrollments + {(id, u)};
    assert id in Ids(events) by { assert e0 in events; }
    forall e | e in events
      ensures (e.id, e.hostId) !in after
    {
      if e.id == id {
        SameIdSameEvent(events, e, e0);
      }
    }
    forall e | e in events && e.capacity.Some?
      ensures Count(after, e.id) == 0 || Count(after, e.id) <= e.capacity.value
    {
      CountAdd(enrollments, (id, u), e.id);
      if e.id == id {
        SameIdSameEvent(events, e, e0);
      }
    }
  }

  /** The unenroll route: the token, the event id, then the `DELETE`, whose
      change count decides between `200` and `404`. */
  function UnenrollReply(enrollments: set<Enrollment>, auth: Auth, eventId: Option<string>): Reply {
    if auth.Rejected? then Reply(401, Some(auth.message))
    else if !Truthy(eventId) then Reply(400, Some("Missing event_id"))
    else if (eventId.value, auth.id) !in enrollments then Reply(404, Some("Not enrolled"))
    else OK
  }

  /** Unenrolling succeeds exactly when the caller holds that enrollment:
      there is no check of the event's time, host or privacy, so a past event
      can be left. */
  lemma UnenrollAccepted(enrollments: set<Enrollment>, auth: Auth, eventId: Option<string>)
    ensures var r := UnenrollReply(enrollments, auth, eventId);
      (r.status == 200 <==> auth.Verified? && Truthy(eventId) && (eventId.value, auth.id) in enrollments)
      && (auth.Rejected? ==> r.status == 401)
      && (auth.Verified? && !Truthy(eventId) ==> r.status == 400)
      && ((auth.Verified? && Truthy(eventId) && (eventId.value, auth.id) !in enrollments)
          ==> r == Reply(404, Some("Not enrolled")))
  {
  }

  /** Removing any enrollment keeps the tables consistent. */
  lemma RemoveKeepsConsistent(events: seq<Event>, enrollments: set<Enrollment>, p: Enrollment)
    requires Consistent(events, enrollments)
    ensures Consistent(events, enrollments - {p})
  {
    forall e | e in events && e.capacity.Some?
      ensures Count(enrollments - {p}, e.id) == 0 || Count(enrollments - {p}, e.id) <= e.capacity.value
    {
      CountSubset(enrollments - {p}, enrollments, e.id);
    }
  }

  /** Enrolling and then unenrolling gives back the enrollments there were. */
  lemma EnrollThenUnenroll(events: seq<Event>, enrollments: set<Enrollment>, now: int,
                           auth: Auth, eventId: Option<string>, inviteCode: Option<string>)
    requires EnrollReply(events, enrollments, now, auth, eventId, inviteCode).status == 200
    ensures auth.Verified? && eventId.Some?
    ensures var after := enrollments + {(eventId.value, auth.id)};
      UnenrollReply(after, auth, eventId) == OK && after - {(eventId.value, auth.id)} == enrollments
  {
  }
}
