/** The rows of the `events`, `users` and `event_enrollments` tables, the
    rows the event routes return, and the place payloads Foursquare sends. */
module Records {
  import opened Wrappers

  /** `event_id`: a UUID text. */
  type EventId = string

  /** `users.id`: an integer key. */
  type UserId = int

  /** The `type` column, restricted by its `CHECK` constraint. */
  datatype EventType = Public | Private

  /** The five venue columns, each nullable. */
  datatype Venue = Venue(
    name: Option<string>,
    address: Option<string>,
    lat: Option<real>,
    lon: Option<real>,
    category: Option<string>)

  /** A row of `events`; `dateTime` is the event's wall-clock time in seconds. */
  datatype Event = Event(
    id: EventId,
    hostId: UserId,
    title: string,
    description: Option<string>,
    fsqPlaceId: Option<string>,
    venue: Venue,
    eventCategory: Option<string>,
    kind: EventType,
    dateTime: int,
    capacity: Option<int>,
    inviteCode: Option<string>)

  /** A row of `users`; `password` holds the stored hash. */
  datatype User = User(id: UserId, username: string, email: string, password: string)

  /** An event as the listing routes return it: the row, the number of
      enrollments, the caller's own enrollment count, and the distance the
      ranking stage attached (none before ranking or when unknown). */
  datatype Row = Row(event: Event, enrollmentCount: nat, isEnrolled: nat, distance: Option<real>)

  /** Whether all five venue columns are filled. */
  predicate VenueComplete(v: Venue) {
    v.name.Some? && v.address.Some? && v.lat.Some? && v.lon.Some? && v.category.Some?
  }

  /** Event ids are the primary key of `events`. */
  predicate UniqueIds(events: seq<Event>) {
    forall i, j :: 0 <= i < j < |events| ==> events[i].id != events[j].id
  }

  function Ids(events: seq<Event>): set<EventId> {
    set e | e in events :: e.id
  }
}

/** The fields of Foursquare place payloads the routes read. Absent and null
    members are both `None`; a `categories` member that is not an array is the
    empty list, which every reader treats the same way. */
module Places {
  import opened Wrappers

  datatype LatLng = LatLng(latitude: Option<real>, longitude: Option<real>)

  datatype Location = Location(
    formattedAddress: Option<string>,
    addressLine: Option<string>,
    address: Option<string>,
    crossStreet: Option<string>,
    locality: Option<string>,
    region: Option<string>,
    postcode: Option<string>,
    country: Option<string>,
    latitude: Option<real>,
    longitude: Option<real>)

  /** An entry of `categories`, which may itself be null. */
  datatype Category = Category(name: Option<string>, iconPrefix: Option<string>)

  /** A place. `place` is the nested `place` object some detail responses
      carry; `error` is whether the payload has a truthy `error` member. */
  datatype Place = Place(
    fsqPlaceId: Option<string>,
    name: Option<string>,
    location: Option<Location>,
    main: Option<LatLng>,
    dropOff: Option<LatLng>,
    latitude: Option<real>,
    longitude: Option<real>,
    categories: seq<Option<Category>>,
    distance: Option<real>,
    tel: Option<string>,
    email: Option<string>,
    website: Option<string>,
    rating: Option<real>,
    place: Option<Place>,
    error: bool)

  /** `loc.x` for `loc = p.location || {}`: the location, or one with every member absent. */
  function LocationOr(p: Option<Location>): Location {
    if p.Some? then p.value
    else Location(None, None, None, None, None, None, None, None, None, None)
  }

  /** `categories[0]?.name` when `categories` is a non-empty array, else null. */
  function FirstCategoryName(cats: seq<Option<Category>>): Option<string> {
    if cats != [] && cats[0].Some? then cats[0].value.name else None
  }

  function MainLatitude(p: Place): Option<real> {
    if p.main.Some? then p.main.value.latitude else None
  }

  function MainLongitude(p: Place): Option<real> {
    if p.main.Some? then p.main.value.longitude else None
  }
}
