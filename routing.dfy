/** Which handler a request under `/api/events/` reaches. The folders
    `cleanup`, `create`, `filter`, `list` and `my` are static segments and
    win over the dynamic `[id]` folder, which takes every other segment as
    the event id. A folder answers only the methods its `route.js` exports;
    any other method is `405 Method Not Allowed`. */
module Routing {
  import opened Wrappers

  datatype HttpMethod = Get | Post | Put | Delete

  datatype Handler =
    | CleanupPost | CleanupGet | CreatePost | FilterPost | ListGet | MyGet
    | EventGet(id: string) | EventPut(id: string) | EventDelete(id: string)

  datatype Resolution = Handled(handler: Handler) | MethodNotAllowed

  const STATIC_SEGMENTS: set<string> := {"cleanup", "create", "filter", "list", "my"}

  /** The handler for `method /api/events/<segment>`. */
  function ResolveEvents(m: HttpMethod, segment: string): (r: Resolution)
    ensures segment !in STATIC_SEGMENTS ==>
      (r.Handled? <==> m != Post)
      && (m == Get ==> r == Handled(EventGet(segment)))
      && (m == Put ==> r == Handled(EventPut(segment)))
      && (m == Delete ==> r == Handled(EventDelete(segment)))
  {
    if segment == "cleanup" then
      (if m == Post then Handled(CleanupPost) else if m == Get then Handled(CleanupGet) else MethodNotAllowed)
    else if segment == "create" then (if m == Post then Handled(CreatePost) else MethodNotAllowed)
    else if segment == "filter" then (if m == Post then Handled(FilterPost) else MethodNotAllowed)
    else if segment == "list" then (if m == Get then Handled(ListGet) else MethodNotAllowed)
    else if segment == "my" then (if m == Get then Handled(MyGet) else MethodNotAllowed)
    else
      match m
      case Get => Handled(EventGet(segment))
      case Put => Handled(EventPut(segment))
      case Delete => Handled(EventDelete(segment))
      case Post => MethodNotAllowed
  }

  /** A static folder never reaches an event handler, whatever the method. */
  lemma StaticWins(m: HttpMethod, segment: string)
    requires segment in STATIC_SEGMENTS
    ensures var r := ResolveEvents(m, segment);
      r.MethodNotAllowed? || !(r.handler.EventGet? || r.handler.EventPut? || r.handler.EventDelete?)
  {
  }
}
