/** The edit-event overlay: how its form is filled from an event, the checks
    before the `PUT`, and the guard and request of the delete button. */
module EditOverlay {
  import opened Wrappers
  import opened Text
  import opened JsNumber
  import opened Records
  import opened Routing

  /** The members of the event the overlay is opened on. `dateTime` is the
      `date_time` text. */
  datatype OverlayEvent = OverlayEvent(
    id: EventId,
    title: Option<string>,
    description: Option<string>,
    eventCategory: Option<string>,
    kind: Option<string>,
    dateTime: Option<string>,
    capacity: Option<int>,
    inviteCode: Option<string>)

  datatype EditForm = EditForm(
    title: string,
    description: string,
    eventCategory: string,
    kind: string,
    dateTime: string,
    capacity: string,
    inviteCode: string)

  const BLANK_FORM := EditForm("", "", "", "public", "", "", "")

  /** The effect filling the form when the overlay is open on an event; `iso`
      is `new Date(event.date_time).toISOString()`, of which the first 16
      characters (`YYYY-MM-DDTHH:MM`) are kept. */
  function Init(prev: EditForm, e: Option<OverlayEvent>, isOpen: bool, iso: string): (r: EditForm)
    ensures !(e.Some? && isOpen) ==> r == prev
  {
    if e.Some? && isOpen then
      var ev := e.value;
      EditForm(
        TextOr(ev.title, ""),
        TextOr(ev.description, ""),
        TextOr(ev.eventCategory, ""),
        TextOr(ev.kind, "public"),
        if Truthy(ev.dateTime) then Take(iso, 16) else "",
        if ev.capacity.Some? then IntToString(ev.capacity.value) else "",
        TextOr(ev.inviteCode, ""))
    else prev
  }

  /** What the filled form holds: every present text as given and `""` for a
      missing one, a type that is never empty, a date that is the start of
      the ISO text with at most 16 characters, and a capacity text that
      parses back to the capacity (also a capacity of 0, whose text `"0"` is
      not empty) and is empty only without a capacity. */
  lemma InitFields(prev: EditForm, e: OverlayEvent, iso: string)
    ensures var r := Init(prev, Some(e), true, iso);
      (Truthy(e.title) ==> r.title == e.title.value) && (!Truthy(e.title) ==> r.title == "")
      && (Truthy(e.eventCategory) ==> r.eventCategory == e.eventCategory.value)
      && r.kind != "" && (!Truthy(e.kind) ==> r.kind == "public")
      && r.dateTime <= iso && |r.dateTime| <= 16 && (r.dateTime == "" <==> !Truthy(e.dateTime) || iso == "")
      && (e.capacity.Some? ==> ParseInt(r.capacity) == e.capacity && r.capacity != "")
      && (e.capacity.None? ==> r.capacity == "")
  {
    if e.capacity.Some? {
      ParseIntOfIntToString(e.capacity.value);
      var n := e.capacity.value;
      var m: nat := if n < 0 then -n else n;
      assert NatToString(m) != [];
    }
  }

  // ---------------------------------------------------------------------
  // Save

  datatype EditOutcome =
    | EditRejected(message: string)
    | EditSignIn
    | EditRequest(m: HttpMethod, segment: string, body: EditForm)

  /** `handleSubmit`: the title (all white space is empty after `trim`), the
      category and the date, then the token. A request goes out exactly when
      all pass; it is the `PUT` of the event's own route and carries the form
      as it stands, untrimmed. */
  function HandleSubmit(f: EditForm, e: OverlayEvent, token: Option<string>): (r: EditOutcome)
    ensures r.EditRequest? <==> !AllWhite(f.title) && f.eventCategory != "" && f.dateTime != "" && Truthy(token)
    ensures r.EditRequest? ==>
      r.body == f && r.m == Put
      && (e.id !in STATIC_SEGMENTS ==> ResolveEvents(r.m, r.segment) == Handled(EventPut(e.id)))
    ensures AllWhite(f.title) ==> r == EditRejected("Title is required")
    ensures !AllWhite(f.title) && f.eventCategory == "" ==> r == EditRejected("Event category is required")
    ensures !AllWhite(f.title) && f.eventCategory != "" && f.dateTime == "" ==> r == EditRejected("Date and time is required")
  {
    if AllWhite(f.title) then EditRejected("Title is required")
    else if f.eventCategory == "" then EditRejected("Event category is required")
    else if f.dateTime == "" then EditRejected("Date and time is required")
    else if !Truthy(token) then EditSignIn
    else EditRequest(Put, e.id, f)
  }

  /** Opening the overlay on a complete event and saving it unchanged sends
      the filled form. */
  lemma SaveUnchanged(prev: EditForm, e: OverlayEvent, iso: string, token: string)
    requires Truthy(e.title) && !AllWhite(e.title.value) && Truthy(e.eventCategory) && Truthy(e.dateTime)
    requires iso != "" && token != "" && e.id !in STATIC_SEGMENTS
    ensures var f := Init(prev, Some(e), true, iso);
      HandleSubmit(f, e, Some(token)) == EditRequest(Put, e.id, f)
  {
    InitFields(prev, e, iso);
  }

  // ---------------------------------------------------------------------
  // Delete

  datatype DeleteOutcome =
    | NoDelete
    | DeleteSignIn
    | DeleteRequest(m: HttpMethod, segment: string, eventId: EventId)

  /** `handleDelete`: nothing without an event or without confirmation, a
      prompt to sign in without a token, and otherwise
      `POST /api/events/delete` with the id in the body. Among the routes of
      this model that path is the `[id]` route with the id `"delete"`, whose
      `route.js` exports no `POST`, so the request is refused; the `DELETE`
      that route does export is not what the overlay sends. */
  function HandleDelete(e: Option<OverlayEvent>, confirmed: bool, token: Option<string>): (r: DeleteOutcome)
    ensures r == NoDelete <==> e.None? || !confirmed
    ensures e.Some? && confirmed && !Truthy(token) ==> r == DeleteSignIn
    ensures r.DeleteRequest? <==> e.Some? && confirmed && Truthy(token)
    ensures r.DeleteRequest? ==>
      r.eventId == e.value.id && r.m == Post && r.segment == "delete"
      && ResolveEvents(r.m, r.segment) == MethodNotAllowed
  {
    if e.None? || !confirmed then NoDelete
    else if !Truthy(token) then DeleteSignIn
    else DeleteRequest(Post, "delete", e.value.id)
  }
}
