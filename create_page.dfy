/** The create-event page: the guards of its two searches, resetting the
    venue search, and the checks and request body of its submit. Page state
    is a value; each handler is a function from the old state to the new
    one (React's `setState(prev => ...)`). */
module CreatePage {
  import opened Wrappers
  import opened Text
  import opened JsNumber
  import CreateRoute

  /** The form. `fsqPlaceId` is `None` when a venue without an id was
      picked. */
  datatype FormData = FormData(
    title: string,
    description: string,
    fsqPlaceId: Option<string>,
    eventCategory: string,
    kind: string,
    dateTime: string,
    capacity: string,
    inviteCode: string)

  /** The venue-search panel; the result lists are kept as their lengths'
      worth of opaque entries. */
  datatype VenueSearch = VenueSearch(
    query: string,
    locationQuery: string,
    latitude: string,
    longitude: string,
    radius: string,
    venueCount: nat,
    showResults: bool,
    suggestionCount: nat,
    showLocationSuggestions: bool)

  datatype PageState = PageState(form: FormData, search: VenueSearch)

  const INITIAL := PageState(
    FormData("", "", Some(""), "", "public", "", "", ""),
    VenueSearch("", "", "", "", "5000", 0, false, 0, false))

  // ---------------------------------------------------------------------
  // Location suggestions

  datatype SuggestAction = ClearSuggestions | FetchSuggestions(q: string, limit: int)

  /** `searchLocationSuggestions`: a query that is all white space (empty
      after `trim`) or one character long clears the list; the length test
      is on the untrimmed text. */
  function SuggestLocations(query: string): (r: SuggestAction)
    ensures r.FetchSuggestions? <==> !AllWhite(query) && |query| >= 2
    ensures r.FetchSuggestions? ==> r == FetchSuggestions(Trim(query), 5) && Trim(query) != ""
  {
    TrimEnds(query);
    if AllWhite(query) || |query| < 2 then ClearSuggestions
    else FetchSuggestions(Trim(query), 5)
  }

  /** What clearing does to the panel. */
  function ApplySuggest(s: VenueSearch, a: SuggestAction): VenueSearch {
    if a.ClearSuggestions? then s.(suggestionCount := 0, showLocationSuggestions := false) else s
  }

  /** Because the length test counts the padding, a single letter with a
      space around it is searched, while the letter alone is not. */
  lemma PaddedLetterSearched(c: char)
    requires !IsWhite(c)
    ensures SuggestLocations([c]) == ClearSuggestions
    ensures SuggestLocations([' ', c]) == FetchSuggestions([c], 5)
  {
    var s := [' ', c];
    assert !AllWhite(s) by { assert !IsWhite(s[1]); }
    TrimPadded(c);
  }

  lemma TrimPadded(c: char)
    requires !IsWhite(c)
    ensures Trim([' ', c]) == [c]
  {
    var s := [' ', c];
    assert s[1..] == [c];
    assert TrimStart(s) == TrimStart([c]) == [c];
    assert TrimEnd([c]) == [c];
  }

  // ---------------------------------------------------------------------
  // Venue search

  datatype VenueAction =
    | Warn(message: string)
    | SearchRequest(q: string, lat: string, lng: string, radius: string)

  /** `searchVenues`: the query is checked before the coordinates. */
  function SearchVenues(s: VenueSearch): (r: VenueAction)
    ensures r.SearchRequest? <==> !AllWhite(s.query) && s.latitude != "" && s.longitude != ""
    ensures AllWhite(s.query) ==> r == Warn("Please enter a search query")
    ensures !AllWhite(s.query) && (s.latitude == "" || s.longitude == "") ==>
      r == Warn("Please set a location first using 'Use My Location' or enter a location query")
    ensures r.SearchRequest? ==> r == SearchRequest(Trim(s.query), s.latitude, s.longitude, s.radius)
  {
    if AllWhite(s.query) then Warn("Please enter a search query")
    else if s.latitude == "" || s.longitude == "" then
      Warn("Please set a location first using 'Use My Location' or enter a location query")
    else SearchRequest(Trim(s.query), s.latitude, s.longitude, s.radius)
  }

  /** `clearVenueSearch`: the venue id, both queries, the coordinates and the
      result lists are reset; the radius and the rest of the form stay. */
  function ClearVenueSearch(p: PageState): (r: PageState)
    ensures r.form == p.form.(fsqPlaceId := Some(""))
    ensures r.search.query == "" && r.search.locationQuery == ""
    ensures r.search.latitude == "" && r.search.longitude == ""
    ensures r.search.venueCount == 0 && r.search.suggestionCount == 0
    ensures !r.search.showResults && !r.search.showLocationSuggestions
    ensures r.search.radius == p.search.radius
  {
    PageState(
      p.form.(fsqPlaceId := Some("")),
      p.search.(query := "", locationQuery := "", latitude := "", longitude := "",
                showResults := false, venueCount := 0, suggestionCount := 0,
                showLocationSuggestions := false))
  }

  // ---------------------------------------------------------------------
  // Submit

  /** The body posted to `/api/events/create`. */
  datatype RequestBody = RequestBody(
    title: string,
    description: string,
    fsqPlaceId: string,
    eventCategory: string,
    kind: string,
    dateTime: string,
    capacity: Option<int>,
    inviteCode: Option<string>)

  datatype SubmitOutcome = Rejected(message: string) | Send(body: RequestBody)

  /** `formData.capacity ? parseInt(formData.capacity) : null`; a NaN is sent
      as `null` by `JSON.stringify`. */
  function CapacityOf(text: string): (r: Option<int>)
    ensures text == "" ==> r.None?
  {
    if text == "" then None else ParseInt(text)
  }

  function BodyOf(f: FormData): RequestBody
    requires f.fsqPlaceId.Some?
  {
    RequestBody(
      Trim(f.title), Trim(f.description), Trim(f.fsqPlaceId.value), f.eventCategory, f.kind,
      f.dateTime, CapacityOf(f.capacity),
      if Trim(f.inviteCode) != "" then Some(Trim(f.inviteCode)) else None)
  }

  /** `handleSubmit`; `!s.trim()` is written as "all white space" (see
      `Text.TrimEnds`). `selected` is `new Date(formData.date_time)` (`None`
      for an invalid date) and `now` the current time. The checks run in
      order and the first failure stops the submit; a request is sent
      exactly when all pass. A date that does not parse compares as NaN and
      so passes the future check. */
  function HandleSubmit(f: FormData, now: int, selected: Option<int>): (r: SubmitOutcome)
    ensures AllWhite(f.title) ==> r == Rejected("Event title is required")
    ensures !AllWhite(f.title) && (f.fsqPlaceId.None? || AllWhite(f.fsqPlaceId.value))
      ==> r == Rejected("Please search for and select a venue")
    ensures r.Send? <==>
      !AllWhite(f.title) && f.fsqPlaceId.Some? && !AllWhite(f.fsqPlaceId.value)
      && f.eventCategory != "" && f.dateTime != ""
      && (selected.None? || selected.value > now)
    ensures r.Send? ==> f.fsqPlaceId.Some? && r.body == BodyOf(f)
    ensures !AllWhite(f.title) && f.fsqPlaceId.Some? && !AllWhite(f.fsqPlaceId.value) && f.eventCategory == ""
      ==> r == Rejected("Event category is required")
    ensures r.Rejected? && r.message == "Event date and time is required" <==>
      !AllWhite(f.title) && f.fsqPlaceId.Some? && !AllWhite(f.fsqPlaceId.value)
      && f.eventCategory != "" && f.dateTime == ""
    ensures r.Rejected? && r.message == "Event date and time must be in the future" <==>
      !AllWhite(f.title) && f.fsqPlaceId.Some? && !AllWhite(f.fsqPlaceId.value)
      && f.eventCategory != "" && f.dateTime != "" && selected.Some? && selected.value <= now
  {
    if AllWhite(f.title) then Rejected("Event title is required")
    else if f.fsqPlaceId.None? || AllWhite(f.fsqPlaceId.value) then Rejected("Please search for and select a venue")
    else if f.eventCategory == "" then Rejected("Event category is required")
    else if f.dateTime == "" then Rejected("Event date and time is required")
    else if selected.Some? && selected.value <= now then
      Rejected("Event date and time must be in the future")
    else Send(BodyOf(f))
  }

  /** What a sent body holds: the trimmed, non-empty title and venue id, the
      category and the date text as typed, and an invite code that is
      either absent or non-empty. */
  lemma SentBody(f: FormData, now: int, selected: Option<int>)
    requires HandleSubmit(f, now, selected).Send?
    ensures var b := HandleSubmit(f, now, selected).body;
      b.title == Trim(f.title) != "" && b.fsqPlaceId == Trim(f.fsqPlaceId.value) != ""
      && b.eventCategory == f.eventCategory != "" && b.dateTime == f.dateTime != "" && b.kind == f.kind
      && (b.inviteCode.None? || b.inviteCode.value != "")
  {
    TrimEnds(f.title);
    TrimEnds(f.fsqPlaceId.value);
  }

  /** The body's members after trimming have no surrounding white space. */
  lemma BodyTrimmed(f: FormData)
    requires f.fsqPlaceId.Some?
    ensures var b := BodyOf(f);
      b.title == Trim(b.title) && b.fsqPlaceId == Trim(b.fsqPlaceId) && b.description == Trim(b.description)
  {
    TrimIdempotent(f.title);
    TrimIdempotent(f.fsqPlaceId.value);
    TrimIdempotent(f.description);
  }

  /** A capacity typed as digits is sent as that number; none is sent when
      the box is empty. */
  lemma CapacityDigits(digits: string)
    requires digits != [] && AllDigits(digits)
    ensures CapacityOf(digits) == Some(DigitsValue(digits) as int)
  {
    ParseIntOfUnsigned(digits);
  }

  /** How the route sees the body, with `time` its reading of the date text. */
  function ServerView(b: RequestBody, time: Option<int>): CreateRoute.CreateBody {
    CreateRoute.CreateBody(
      Some(b.title), Some(b.description), if b.dateTime == "" then None else time,
      Some(b.kind), Some(b.fsqPlaceId), b.capacity, b.inviteCode, Some(b.eventCategory))
  }

  /** Every body the page sends has the members the route requires, as long
      as the route reads its date and the type is set. */
  lemma SentBodyHasRequired(f: FormData, now: int, selected: Option<int>, time: int)
    requires f.kind != "" && HandleSubmit(f, now, selected).Send?
    ensures CreateRoute.HasRequired(ServerView(HandleSubmit(f, now, selected).body, Some(time)))
  {
    var b := HandleSubmit(f, now, selected).body;
    SentBody(f, now, selected);
    var v := ServerView(b, Some(time));
    assert v.title == Some(b.title) && v.kind == Some(b.kind) && v.fsqPlaceId == Some(b.fsqPlaceId);
    assert v.dateTime == Some(time);
  }

  /** Clearing the venue search blocks a new venue search and makes a submit
      with a title stop at the venue check. */
  lemma ClearBlocksVenue(p: PageState, now: int, selected: Option<int>)
    requires !AllWhite(p.form.title)
    ensures var c := ClearVenueSearch(p);
      SearchVenues(c.search) == Warn("Please enter a search query")
      && HandleSubmit(c.form, now, selected) == Rejected("Please search for and select a venue")
      && ClearVenueSearch(c) == c
  {
  }
}
