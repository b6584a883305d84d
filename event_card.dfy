/** The event card: who counts as the host, which button it shows and in
    what state, the lines under the title, and the requests of its two
    buttons. The card shows a row as the listing routes return it. */
module EventCard {
  import opened Wrappers
  import opened Text
  import opened Records
  import opened TimeUtils
  import EventsPage

  /** `user && event && Number(event.host_id) === Number(user.id)`; `user` is
      the signed-in user's id. */
  predicate IsHost(row: Row, user: Option<UserId>) {
    user.Some? && row.event.hostId == user.value
  }

  datatype ButtonKind = EnrollButton | UnenrollButton

  datatype ActionButton = ActionButton(kind: ButtonKind, disabled: bool, text: string)

  /** What the card shows. `distanceShown` stands for the
      `(distance / 1000).toFixed(1)` line. */
  datatype CardView = CardView(
    edit: bool,
    action: Option<ActionButton>,
    date: DateInfo,
    venueLine: Option<string>,
    going: nat,
    distanceShown: bool)

  /** `venue_name || "Venue"`, followed by ` • address` when there is one;
      no line when neither is given. */
  function VenueLine(v: Venue): Option<string> {
    if Truthy(v.name) || Truthy(v.address) then
      Some((if Truthy(v.name) then v.name.value else "Venue")
           + (if Truthy(v.address) then " • " + v.address.value else ""))
    else None
  }

  /** The enroll/unenroll button of a guest: `Unenroll` when enrolled, else
      `Enroll`; disabled while its request runs or once the event is past. */
  function ActionOf(row: Row, info: DateInfo, enrolling: bool, unenrolling: bool): (b: ActionButton)
    ensures b.kind == UnenrollButton <==> row.isEnrolled > 0
    ensures b.kind == UnenrollButton ==>
      b.disabled == (unenrolling || info.isExpired)
      && b.text == (if unenrolling then "Unenrolling..." else "Unenroll")
    ensures b.kind == EnrollButton ==>
      b.disabled == (enrolling || info.isExpired)
      && b.text == (if enrolling then "Enrolling..." else if info.isExpired then "Expired" else "Enroll")
  {
    if row.isEnrolled > 0 then
      ActionButton(UnenrollButton, unenrolling || info.isExpired, if unenrolling then "Unenrolling..." else "Unenroll")
    else
      ActionButton(EnrollButton, enrolling || info.isExpired,
                   if enrolling then "Enrolling..." else if info.isExpired then "Expired" else "Enroll")
  }

  /** The card for `row` at time `now`. */
  function Card(row: Row, user: Option<UserId>, showEnroll: bool, enrolling: bool, unenrolling: bool,
                now: int): (c: CardView)
    ensures c.edit <==> IsHost(row, user)
    ensures c.action.Some? <==> showEnroll && !IsHost(row, user)
    ensures c.action.Some? ==> c.action.value == ActionOf(row, c.date, enrolling, unenrolling)
    ensures c.date == FormatEventDate(At(row.event.dateTime), now)
    ensures c.going == row.enrollmentCount && (c.distanceShown <==> row.distance.Some?)
  {
    var info := FormatEventDate(At(row.event.dateTime), now);
    CardView(
      IsHost(row, user),
      if showEnroll && !IsHost(row, user) then Some(ActionOf(row, info, enrolling, unenrolling)) else None,
      info,
      VenueLine(row.event.venue),
      row.enrollmentCount,
      row.distance.Some?)
  }

  /** A host gets the edit button and never an enroll button; and a past
      event's button is always disabled, an idle enroll button reading
      `Expired`. */
  lemma HostAndExpiry(row: Row, user: Option<UserId>, showEnroll: bool, enrolling: bool, unenrolling: bool, now: int)
    ensures var c := Card(row, user, showEnroll, enrolling, unenrolling, now);
      (IsHost(row, user) ==> c.edit && c.action.None?)
      && (row.event.dateTime < now && c.action.Some? ==> c.action.value.disabled)
      && (row.event.dateTime < now && c.action.Some? && c.action.value.kind == EnrollButton && !enrolling
          ==> c.action.value.text == "Expired")
      && (row.event.dateTime >= now && c.action.Some? && !enrolling && !unenrolling ==> !c.action.value.disabled)
  {
    var info := FormatEventDate(At(row.event.dateTime), now);
    assert info.isExpired <==> row.event.dateTime < now;
  }

  /** The venue line is there when either column is filled, starts with the
      name or with `Venue`, and mentions the address only when there is one. */
  lemma VenueLineFacts(v: Venue)
    ensures var l := VenueLine(v);
      (l.Some? <==> Truthy(v.name) || Truthy(v.address))
      && (Truthy(v.name) && l.Some? ==> v.name.value <= l.value)
      && (!Truthy(v.name) && l.Some? ==> "Venue" <= l.value)
      && (!Truthy(v.address) && l.Some? ==> l.value == (if Truthy(v.name) then v.name.value else "Venue"))
  {
  }

  // ---------------------------------------------------------------------
  // Buttons

  datatype CardRequest =
    | AskToSignIn(message: string)
    | PostEnrollment(path: string, eventId: EventId)

  /** `handleEnroll` and `handleUnenroll` up to the request. */
  function EnrollRequest(row: Row, token: Option<string>, enroll: bool): (r: CardRequest)
    ensures !Truthy(token) ==> r.AskToSignIn?
    ensures Truthy(token) ==> r == PostEnrollment(
      if enroll then "/api/enrollments/enroll" else "/api/enrollments/unenroll", row.event.id)
  {
    if !Truthy(token) then AskToSignIn(if enroll then "Please log in to enroll" else "Please log in to manage enrollment")
    else PostEnrollment(if enroll then "/api/enrollments/enroll" else "/api/enrollments/unenroll", row.event.id)
  }

  /** After a successful enroll the page marks the row and its card turns the
      button into `Unenroll`; after an unenroll it turns back to `Enroll`. */
  lemma {:induction false} ButtonFlips(rows: seq<Row>, i: int, user: Option<UserId>, on: bool, now: int)
    requires 0 <= i < |rows| && !IsHost(rows[i], user)
    ensures var r := EventsPage.SetEnrolled(rows, rows[i].event.id, on);
      var c := Card(r[i], user, true, false, false, now);
      c.action.Some? && (c.action.value.kind == UnenrollButton <==> on)
  {
    var r := EventsPage.SetEnrolled(rows, rows[i].event.id, on);
    assert r[i] == rows[i].(isEnrolled := if on then 1 else 0);
    assert !IsHost(r[i], user);
  }
}
