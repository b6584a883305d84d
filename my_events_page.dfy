/** The "my events" page: its two lists (hosted and enrolled), the first
    load, the local update after an enrollment change, and opening and
    closing the edit overlay. Page state is a value and each handler a
    function from the old state to the new one. */
module MyEventsPage {
  import opened Wrappers
  import opened Text
  import opened Records
  import EventsPage

  datatype Tab = Hosted | Enrolled

  datatype PageState = PageState(
    hosted: seq<Row>,
    enrolled: seq<Row>,
    loading: bool,
    activeTab: Tab,
    editing: Option<Row>,
    overlayOpen: bool)

  const INITIAL := PageState([], [], true, Hosted, None, false)

  /** A list reply: a failed request (or a body that is not JSON), or the
      `events` member, `None` when it is not an array. */
  datatype ListReply = ListFailed | ListOk(events: Option<seq<Row>>)

  /** `Array.isArray(x) ? x : []`. */
  function ListOf(r: ListReply): seq<Row>
    requires r.ListOk?
  {
    if r.events.Some? then r.events.value else []
  }

  /** `load`: without a token both lists are emptied; otherwise both lists
      are set only when both requests succeed, and are left as they were
      when either fails. Loading ends in every case. */
  function Load(p: PageState, token: Option<string>, hostedReply: ListReply, enrolledReply: ListReply): (r: PageState)
    ensures !r.loading
    ensures !Truthy(token) ==> r.hosted == [] && r.enrolled == []
    ensures Truthy(token) && (hostedReply.ListFailed? || enrolledReply.ListFailed?) ==>
      r.hosted == p.hosted && r.enrolled == p.enrolled
    ensures Truthy(token) && hostedReply.ListOk? && enrolledReply.ListOk? ==>
      r.hosted == ListOf(hostedReply) && r.enrolled == ListOf(enrolledReply)
    ensures r.activeTab == p.activeTab && r.editing == p.editing && r.overlayOpen == p.overlayOpen
  {
    if !Truthy(token) then p.(hosted := [], enrolled := [], loading := false)
    else if hostedReply.ListFailed? || enrolledReply.ListFailed? then p.(loading := false)
    else p.(hosted := ListOf(hostedReply), enrolled := ListOf(enrolledReply), loading := false)
  }

  /** `loadHostedEvents`, run after an edit: only the hosted list, and only
      with a token and a successful reply. */
  function ReloadHosted(p: PageState, token: Option<string>, reply: ListReply): (r: PageState)
    ensures r.enrolled == p.enrolled && r.loading == p.loading
    ensures r.hosted == (if Truthy(token) && reply.ListOk? then ListOf(reply) else p.hosted)
  {
    if Truthy(token) && reply.ListOk? then p.(hosted := ListOf(reply)) else p
  }

  /** `handleEnrollmentChange`: the same update on both lists. */
  function EnrollmentChange(p: PageState, id: EventId, on: bool): (r: PageState)
    ensures r.hosted == EventsPage.SetEnrolled(p.hosted, id, on)
    ensures r.enrolled == EventsPage.SetEnrolled(p.enrolled, id, on)
    ensures r.loading == p.loading && r.editing == p.editing && r.overlayOpen == p.overlayOpen
  {
    p.(hosted := EventsPage.SetEnrolled(p.hosted, id, on), enrolled := EventsPage.SetEnrolled(p.enrolled, id, on))
  }

  /** Both lists keep their lengths and their other events; every row of the
      event, in either list, has its flag set to 1 or 0. */
  lemma EnrollmentChangeFacts(p: PageState, id: EventId, on: bool)
    ensures var r := EnrollmentChange(p, id, on);
      |r.hosted| == |p.hosted| && |r.enrolled| == |p.enrolled|
      && (forall i :: 0 <= i < |p.hosted| && p.hosted[i].event.id != id ==> r.hosted[i] == p.hosted[i])
      && (forall i :: 0 <= i < |p.enrolled| && p.enrolled[i].event.id != id ==> r.enrolled[i] == p.enrolled[i])
      && (forall i :: 0 <= i < |r.hosted| && r.hosted[i].event.id == id ==> r.hosted[i].isEnrolled == (if on then 1 else 0))
      && (forall i :: 0 <= i < |r.enrolled| && r.enrolled[i].event.id == id ==> r.enrolled[i].isEnrolled == (if on then 1 else 0))
  {
  }

  /** `handleEditEvent`. */
  function EditEvent(p: PageState, row: Row): (r: PageState)
    ensures r.editing == Some(row) && r.overlayOpen
    ensures r.hosted == p.hosted && r.enrolled == p.enrolled
  {
    p.(editing := Some(row), overlayOpen := true)
  }

  /** The overlay's `onClose`. */
  function CloseOverlay(p: PageState): (r: PageState)
    ensures r.editing.None? && !r.overlayOpen
    ensures r.hosted == p.hosted && r.enrolled == p.enrolled
  {
    p.(editing := None, overlayOpen := false)
  }

  /** Opening and closing the overlay leaves the page as it was before, when
      no overlay was open. */
  lemma EditThenClose(p: PageState, row: Row)
    requires p.editing.None? && !p.overlayOpen
    ensures CloseOverlay(EditEvent(p, row)) == p
  {
  }
}
