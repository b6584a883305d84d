# Eventium — a Dafny model of its discovery, store and client rules

Eventium is a Next.js application for finding, hosting and joining local
events, backed by SQLite and the Foursquare Places API. This project models
its core in Dafny 4.11 and proves properties of the model:

- **Discovery.** The two listing routes are modelled: `POST /api/events/filter`
  (`filter.dfy`) and `GET /api/events/list` (`list.dfy`). For each the model
  gives the clause the route builds and what it selects, the enrichment of
  rows from place details, and the write-back of venues. Ranking by distance
  is shared by both (`discovery.dfy`, `ranking.dfy`): the radius filter,
  then a stable sort with unknown distances last, then the limit.
- **The store.** The database is a class `Store.EventStore`. Its fields are
  the `events`, `event_enrollments` and `users` tables, the next
  `AUTOINCREMENT` id and the clock. Its methods are the routes that read or
  write the tables:
  - enroll and unenroll;
  - the two cleanup routes;
  - my events, create and register;
  - filter and list.
  Each method states its reply and its whole new state, and keeps the
  schema's invariants (`Valid`). The table operations are functions in
  `tables.dfy`. The route decisions are functions in `enrollments.dfy`,
  `create_route.dfy` and `register_route.dfy`.
- **Server helpers.**
  - `normalizeCategory` and the 40 categories (`categories.dfy`);
  - `isEventExpired` and `formatEventDate` (`time_utils.dfy`);
  - the geocode, reverse-geocode and venue-search proxies (`geocode.dfy`,
    `reverse_geocode.dfy`, `venues_search.dfy`);
  - how `/api/events/<segment>` picks between the static folders and the
    `[id]` route (`routing.dfy`).
- **Client rules.**
  - the Navbar's history, labels, initials and suggestions (`navbar.dfy`);
  - the events page's filter count, date presets, `ll` parsing and
    enrollment update (`events_page.dfy`);
  - the dashboard statistics and chart series (`dashboard.dfy`);
  - the create page's checks and request body (`create_page.dfy`);
  - the edit overlay (`edit_overlay.dfy`);
  - the event card (`event_card.dfy`);
  - the my-events page (`my_events_page.dfy`).
  Each is a pure function from the old page state and the inputs to the new
  state or the request sent. The loops of the dashboard's series and of
  `normalizeCategory` are methods with loop invariants.

The JavaScript value operations the code relies on have their own modules:
`Number(s)`, `parseInt`, `String(n)`, `slice`, `Math.round` (`js_number.dfy`);
`trim`, `toLowerCase`, `includes`, `split`, `join` and truthiness (`text.dfy`);
and SQLite's `LIKE` and TEXT ordering (`sql_text.dfy`).

Modelling choices:
- Times are integer seconds, or day numbers on the client.
- Distances come from a parameter `dist`, which stands for the haversine
  function.
- The places API is a parameter `fetch`, from place id to the details.
- Authentication is the value `Auth` (`Rejected(message)` or `Verified(id)`),
  the result of `verifyToken`.

`src/app/lib/auth.js` is not part of this model.

## Model

| member | source | states |
|---|---|---|
| FilterRoute.BuildConditions | src/app/api/events/filter/route.js:51-121 | The visibility condition comes first: public only for anonymous callers, public or hosted by the caller otherwise. The parameter list has exactly one value per placeholder. The conjunction of the conditions selects exactly the events `Selected` describes. |
| FilterRoute.PushSearch | src/app/api/events/filter/route.js:63-73 | Adding the search condition (when the trimmed query is non-empty) keeps the placeholder count right and extends the selection by the search test. |
| FilterRoute.PushCategory | src/app/api/events/filter/route.js:76-81 | Adds exact category equality unless the category is empty or `"all"`, keeping the selection invariant. |
| FilterRoute.PushVenueCategory | src/app/api/events/filter/route.js:84-92 | Adds the two `LIKE` venue-category disjuncts for a non-blank value, keeping the selection invariant. |
| FilterRoute.PushDates | src/app/api/events/filter/route.js:95-105 | Adds the `dateFrom`/`dateTo` bounds when given, keeping the selection invariant. |
| FilterRoute.PushCapacity | src/app/api/events/filter/route.js:108-118 | Adds `capacity >= min` / `capacity <= max` for non-empty bounds, ending at exactly `Selected`. |
| FilterRoute.WhereSnoc | src/app/api/events/filter/route.js:121 | Joining one more condition with `AND` adds its placeholders, and the clause holds exactly when the old clause and the new condition hold. |
| FilterRoute.SelectedVisibility | src/app/api/events/filter/route.js:55-60 | Anonymous callers see only public events; signed-in callers see public events and their own. Under the clause's own parameters (anonymous callers, or as corrected; see Findings). |
| FilterRoute.SelectedIgnoresExpiryAndInvites | src/app/api/events/filter/route.js:51-121 | No condition reads the invite code, and without date filters none reads the time, so past and private-by-code events are not filtered out by them. |
| FilterRoute.SelectedReadsColumns | src/app/api/events/filter/route.js:51-121 | Selection depends only on type, host, title, description, category, venue category and capacity, and on the time only with a date filter. |
| FilterRoute.BlankSearchIgnored | src/app/api/events/filter/route.js:63 | A whitespace-only search query selects the same events as no query. |
| FilterRoute.SearchMeansContains | src/app/api/events/filter/route.js:63-73 | For a term without wildcards, the search holds exactly when the title or description contains it, ignoring ASCII case; the starts-with disjuncts add nothing. Under the clause's own parameters (anonymous callers, or as corrected; see Findings). |
| FilterRoute.VenueCategoryMeansContains | src/app/api/events/filter/route.js:84-92 | The venue-category filter is a case-insensitive contains test on the trimmed value; a null venue category never matches. Under the clause's own parameters (anonymous callers, or as corrected; see Findings). |
| FilterRoute.CategoryMeansEquality | src/app/api/events/filter/route.js:76-81 | The category filter is exact equality when the value is non-empty and not `"all"`, and lets everything through otherwise. Under the clause's own parameters (anonymous callers, or as corrected; see Findings). |
| FilterRoute.NullCapacityFailsBounds | src/app/api/events/filter/route.js:108-118 | An event without a capacity is never selected once a capacity bound is given. |
| FilterRoute.DateBoundsCoverWholeDays | src/app/api/events/filter/route.js:95-105 | Corrected bounds: `dateFrom` includes its whole day from the first second, and `dateTo` includes its whole day up to the last second and nothing after. |
| FilterRoute.DateToAsWrittenExcludesItsDay | src/app/api/events/filter/route.js:101-105 | As written, the stored `YYYY-MM-DDTHH:MM` text of any event on the `dateTo` day compares above `dateTo + " 23:59:59"`, so the event is excluded. |
| FilterRoute.DateToAsWrittenExample | src/app/api/events/filter/route.js:101-105 | An event at `2025-01-10T18:00` fails `dateTo = "2025-01-10"`. |
| FilterRoute.ConditionsKinded | src/app/api/events/filter/route.js:51-118 | The built parameters hold exactly one value per placeholder, and each is of the kind its condition expects: the user id for `host_id`, texts for the search and categories, times for the dates, numbers for the capacities. |
| FilterRoute.WhereBoundAgrees | src/app/api/events/filter/route.js:51-121 | Bound to values of the kinds it expects, the clause, compared as SQLite compares, means exactly the built conditions. |
| FilterRoute.FilterParametersHoldNoUserId | src/app/api/events/filter/route.js:63-118 | No filter block pushes a user id; only the visibility block does. |
| FilterRoute.BindingAsWritten | src/app/api/events/filter/route.js:157-184 | As bound, there is one value per placeholder and `LIMIT` gets the limit. Anonymous, the WHERE clause gets the built parameters. Signed in, `is_enrolled` gets the user id, and the WHERE clause gets the filter values followed by the user id, each one place to the left of its own placeholder. |
| FilterRoute.AsWrittenAgreesUnshifted | src/app/api/events/filter/route.js:157-184 | For anonymous callers, and for signed-in callers asking for no filter, the query as bound selects what the built conditions mean. |
| FilterRoute.SearchAsWrittenDropsPrivate | src/app/api/events/filter/route.js:55-170 | As bound, a signed-in caller with a search term gets no private event, not even their own, because `host_id` is compared with `%term%`. |
| FilterRoute.CategoryAsWrittenShifted | src/app/api/events/filter/route.js:76-170 | As bound, a signed-in caller with only a category filter gets only events whose category is the user id's digits; for a category name that is not numeric, exactly the public ones among them. |
| FilterRoute.CategoryAsWrittenExample | src/app/api/events/filter/route.js:76-170 | User 7 asking for `Music`: a public `Music` concert is selected by the built conditions and not by the query as bound. |
| FilterRoute.SqlLimit | src/app/api/events/filter/route.js:166-170 | `LIMIT n` returns a prefix of the rows, of at most `n` rows when `n` is not negative. |
| FilterRoute.RespondProperties | src/app/api/events/filter/route.js:198-224 | The response has at most `limit` rows. Without coordinates it is a prefix of the fetched rows. With coordinates every row is a fetched row with its distance attached, within the radius unless the radius is null, and sorted by distance with unknowns last. |
| Discovery.AttachDistances | src/app/api/events/filter/route.js:203-209 | Attaching distances keeps every row's event and counts; a row has a distance exactly when its venue has both coordinates. |
| Discovery.RankProperties | src/app/api/events/list/route.js:206-220 | Ranking returns no more rows than it got; each is an input row with its distance, within the radius when one is given, in ascending distance with unknown distances last. |
| Discovery.RankKeepsTies | src/app/api/events/list/route.js:211-216 | Rows with equal distance keep the order the query gave them (the sort is stable). |
| Discovery.RankComplete | src/app/api/events/list/route.js:210 | Every input row that passes the radius test is in the ranked output. |
| Ranking.CompareConsistent | src/app/api/events/filter/route.js:211-216 | The comparator says "not after" exactly when the key order does, is antisymmetric in sign, and is zero exactly for equal keys. |
| Ranking.KeyLeTotal | src/app/api/events/filter/route.js:211-216 | The distance order is total and antisymmetric. |
| Ranking.KeyLeTransitive | src/app/api/events/filter/route.js:211-216 | The distance order is transitive. |
| Ranking.Insert | src/app/api/events/filter/route.js:211-216 | One insertion step of the sort adds exactly the one element. |
| Ranking.SortBy | src/app/api/events/filter/route.js:211-216 | The sort returns a permutation of its input. |
| Ranking.SortSorted | src/app/api/events/filter/route.js:211-216 | The sort's output is in key order. |
| Ranking.SortStable | src/app/api/events/filter/route.js:211-216 | For every key the elements with that key keep their input order. |
| Ranking.SortOfSorted | src/app/api/events/filter/route.js:211-216 | Sorting sorted input changes nothing. |
| Ranking.WithinRadius | src/app/api/events/filter/route.js:210 | The radius filter keeps only input elements with a known distance within the radius, and everything when the radius is null. |
| Ranking.WithinRadiusComplete | src/app/api/events/filter/route.js:210 | Nothing that passes the radius test is dropped. |
| ListRoute.ToNumberOrNull | src/app/api/events/list/route.js:35-39 | Null when absent or when `Number(value)` is not finite, and the finite value otherwise. |
| ListRoute.ToNumberOrNullOfInt | src/app/api/events/list/route.js:35-39 | An integer written out reads back as itself. |
| ListRoute.ParseLl | src/app/api/events/list/route.js:69-77 | No point without `ll` or when `ll` does not split into exactly two parts. |
| ListRoute.ParseLlOfInts | src/app/api/events/list/route.js:69-77 | `"lat,lon"` with integer coordinates reads back as that point. |
| ListRoute.BuildListFilter | src/app/api/events/list/route.js:82-107 | Corrected clause: it selects exactly the visible upcoming events (public, private with the given invite code, or the caller's own, each excluding past events), with the title search and the recognised category as well. |
| ListRoute.ListedAreUpcoming | src/app/api/events/list/route.js:82-95 | A listed event is never in the past. |
| ListRoute.PrivateNeedsInviteOrHost | src/app/api/events/list/route.js:86-95 | A listed private event has the invite code given or is hosted by the caller. |
| ListRoute.PublicUpcomingListed | src/app/api/events/list/route.js:83 | Without search or category every upcoming public event is listed. |
| ListRoute.TitleSearchMeansContains | src/app/api/events/list/route.js:98-101 | `q` without wildcards is a case-insensitive contains test on the title. |
| ListRoute.WhereTextAsWritten | src/app/api/events/list/route.js:82-107 | As written, whenever `q` or a recognised category is given, the `where` text starts with `(`, which SQLite does not accept after `FROM events e`; otherwise it is a valid `WHERE` clause. |
| ListRoute.SearchFailsAsWrittenExample | src/app/api/events/list/route.js:98-101 | `?q=music` produces a clause SQLite rejects. |
| ListRoute.ListBindingAsWritten | src/app/api/events/list/route.js:86-121 | As bound, there is one value per placeholder. Signed in with an invite code, `is_enrolled` gets the code and the invite test gets the user id; otherwise every placeholder gets its own value. |
| ListRoute.ListAsWrittenAgrees | src/app/api/events/list/route.js:82-121 | Anonymous, or signed in without an invite code, the query as bound lists exactly the visible upcoming events and counts the caller's own enrollment (none when anonymous). |
| ListRoute.ListAsWrittenShifted | src/app/api/events/list/route.js:82-121 | Signed in with an invite code, the query as bound admits a private event by the invite code equal to the user id's digits instead of the code given, and for a non-numeric code reports `is_enrolled` 0 on every row. |
| ListRoute.InviteAsWrittenExample | src/app/api/events/list/route.js:86-121 | User 7 with `invite_code=ABC`: an upcoming private event with that code is meant to be listed and is not, and a public event user 7 is enrolled in comes back with `is_enrolled` 0 instead of 1. |
| ListRoute.UpcomingAsWrittenWholeDay | src/app/api/events/list/route.js:83-93 | As written, `date_time > datetime('now')` holds for an event at any time of the current day, because the stored `YYYY-MM-DDTHH:MM` text and the `YYYY-MM-DD HH:MM:SS` clock text first differ at the separator. |
| ListRoute.UpcomingAsWrittenExample | src/app/api/events/list/route.js:83-93 | At 20:00 an event that began at 08:00 the same day still compares as upcoming. |
| ListRoute.MergeKeepsFilled | src/app/api/events/list/route.js:155-175 | Merging never empties a filled column, except an empty stored address that the details do not replace. |
| ListRoute.MergeOfEmptyDetails | src/app/api/events/list/route.js:155-183 | Empty details keep the stored venue and trigger no write. |
| ListRoute.MergeIdempotent | src/app/api/events/list/route.js:155-183 | Merging the same details twice changes nothing more, and the second merge writes nothing. |
| ListRoute.EnrichDecision | src/app/api/events/list/route.js:139-183 | Rows with a complete venue or without a place id stay unchanged, as do rows whose fetch fails or returns an error. Otherwise the venue is the merge, and it is persisted exactly when the merge filled a null column. |
| ListRoute.PersistOnlyFills | src/app/api/events/list/route.js:178-195 | A write happens only for rows that needed a venue and had a place id, and only when a null column was filled. |
| ListRoute.ApplyOutcome | src/app/api/events/list/route.js:155-199 | The response row keeps its id and counts; only the venue columns change, and only for an enriched row. |
| ListRoute.RespondProperties | src/app/api/events/list/route.js:204-225 | At most `limit` rows (rounded down) when the limit is positive. Without a point the rows keep their order. With a point the rows are ranked, within the radius, and sorted by distance. |
| Store.FilterPostFacts | src/app/api/events/filter/route.js:157-224 | Every returned row is a stored event that the body selects. The fetched rows are a prefix of all selected rows, latest first, so the radius applies to the `limit` latest events, not to the nearest ones. This is the query with its values bound to their own placeholders, the corrected binding of the third Findings row; `Store.EventStore.FilterPostAsWritten` models the binding as written. |
| Store.FilterAsWrittenEmptyExample | src/app/api/events/filter/route.js:157-184 | On a table holding one public `Music` concert, user 7 asking for `Music` gets that row from the corrected query and no row from the query as bound. |
| Store.ListFetchedAsWrittenAgrees | src/app/api/events/list/route.js:82-121 | The list query as written fails for a search or a recognised category; otherwise it returns the corrected rows, including `is_enrolled`, unless the caller is signed in and gives an invite code. |
| Store.LatestRowsFacts | src/app/api/events/filter/route.js:159-166 | A `WHERE p ORDER BY date_time DESC LIMIT n` query returns a prefix of the date-ordered rows of stored events satisfying `p`. |
| Store.RespondKeepsEvents | src/app/api/events/filter/route.js:198-224 | Ranking and cutting keep the fetched rows' events. |
| Store.SetVenue | src/app/api/events/list/route.js:185-195 | The `UPDATE ... WHERE event_id = ?` keeps every row's id and every column but the venue; the venue becomes the new one exactly on the rows with that id. |
| Store.WriteBackOnlyVenues | src/app/api/events/list/route.js:185-195 | The write-back changes no column other than the five venue columns. |
| Store.WriteBackOnlyPersisted | src/app/api/events/list/route.js:178-195 | An event whose row did not lead to a persisted merge is left as it was. |
| Store.ConsistentIgnoresVenues | src/app/lib/db.js:34-53 | Changing venues alone keeps the tables consistent. |
| Store.EventStore.constructor | src/app/lib/db.js:23-108 | An empty database satisfies the invariants. |
| Store.EventStore.Enroll | src/app/api/enrollments/enroll/route.js:5-76 | The reply is the route's decision. A `200` inserts exactly the caller's pair; any other reply changes nothing. Nothing else changes, and the invariants are kept. |
| Store.EventStore.Unenroll | src/app/api/enrollments/unenroll/route.js:5-36 | A `200` removes exactly the caller's pair; any other reply changes nothing. |
| Store.EventStore.Sweep | src/app/api/events/cleanup/route.js:15-24 | Past events are deleted, then orphaned enrollments, and the change counts are the numbers removed. |
| Store.EventStore.CleanupPost | src/app/api/events/cleanup/route.js:5-37 | `401` without a valid token and no change; otherwise the sweep and `200`. |
| Store.EventStore.CleanupGet | src/app/api/events/cleanup/route.js:40-67 | The same sweep without a token check. |
| Store.EventStore.MyEvents | src/app/api/events/my/route.js:5-30 | `401` without a token; otherwise exactly the caller's upcoming events, latest first. |
| Store.EventStore.Create | src/app/api/events/create/route.js:8-72 | A `200` appends exactly the new event built from the body and the place details; any other reply changes nothing. |
| Store.EventStore.Register | src/app/api/users/register/route.js:5-56 | A `200` appends the new user with the next id and the hashed password and returns that user's public fields and token; any other reply changes nothing. |
| Store.EventStore.FilterPost | src/app/api/events/filter/route.js:25-249 | The rows returned are the route's response to the selected rows, and `total` is their number. This is the corrected route: `dateTo` is bounded by the end of its day (first Findings row), and every value is bound to its own placeholder (third Findings row). |
| Store.EventStore.FilterPostAsWritten | src/app/api/events/filter/route.js:25-249 | The route with its values bound as written: its rows are the response to the rows of the query as bound, and they equal `FilterPost`'s for anonymous callers and for signed-in callers asking for no filter. |
| Store.EventStore.EnrichAndPersist | src/app/api/events/list/route.js:152-199 | The enriched rows are `Enrich` of the candidates; the table changes exactly by the write-back of the merges that filled a null column. |
| Store.EventStore.ListGet | src/app/api/events/list/route.js:54-234 | The rows are the ranked and cut enrichment of the listed rows; the table changes only by the write-back; the invariants are kept. This is the corrected route: the filter is `BuildListFilter` (second Findings row) and every value is bound to its own placeholder (fourth Findings row). As written, the route answers `500` whenever `q` or a recognised category is given, and a signed-in caller's invite code lands on the wrong placeholder. |
| Tables.Filter | src/app/api/events/filter/route.js:157-184 | The events satisfying the test, and only those. |
| Tables.FilterAll | src/app/api/events/filter/route.js:157-184 | When every event passes, filtering keeps them all. |
| Tables.FilterSame | src/app/api/events/filter/route.js:157-184 | Two tests that agree on the table give the same rows. |
| Tables.FilterKeepsUniqueIds | src/app/lib/db.js:36 | Filtered rows keep the primary key unique. |
| Tables.FindUpcoming | src/app/api/enrollments/enroll/route.js:19-25 | The event found has the id and is upcoming; when none is found, every event with the id is past. |
| Tables.CountAdd | src/app/api/enrollments/enroll/route.js:50-69 | A new pair raises the count of its event by one and leaves the others alone. |
| Tables.CountSubset | src/app/api/enrollments/unenroll/route.js:19-23 | Removing enrollments never raises a count. |
| Tables.RowForCounts | src/app/api/events/filter/route.js:160-175 | `enrollment_count` is the number of the event's enrollments. `is_enrolled` is the number of the caller's enrollments in it: 0 for an anonymous caller, and never above 1. |
| Tables.OrderByDateDescFacts | src/app/api/events/filter/route.js:165 | `ORDER BY date_time DESC` is a permutation with later events first. |
| Tables.HostedRowsExact | src/app/api/events/my/route.js:14-23 | Exactly the host's upcoming events, each once, with its count and `is_enrolled` 1, latest first. |
| Tables.Survivors | src/app/api/events/cleanup/route.js:15-18 | Exactly the upcoming events survive. |
| Tables.Attached | src/app/api/events/cleanup/route.js:21-24 | Exactly the enrollments of stored events survive. |
| Tables.SweepResult | src/app/api/events/cleanup/route.js:15-24 | No past event and no orphan is left, and every upcoming event and every enrollment of a survivor is kept. |
| Tables.SweepIdempotent | src/app/api/events/cleanup/route.js:40-67 | A second sweep at the same time removes nothing. |
| Tables.SweepKeepsConsistent | src/app/api/events/cleanup/route.js:15-24 | The sweep keeps the tables consistent. |
| Enrollments.EnrollAccepted | src/app/api/enrollments/enroll/route.js:8-69 | `200` exactly when the caller is authenticated and has given an id of an upcoming event that is not theirs, whose invite code matches when it is private, that they have not joined, and that is not full. Every other reply carries an error. |
| Enrollments.EnrollRejections | src/app/api/enrollments/enroll/route.js:8-60 | The replies, in order: `401` with the token's message; `400` "Missing event_id"; `404` for a missing or past event; `400` for the host; `403` for a missing or wrong invite code on a private event; `409` "Already enrolled" once the invite check passes, public or private; `409` "Event is full" when the count has reached the capacity. |
| Enrollments.PublicIgnoresInviteCode | src/app/api/enrollments/enroll/route.js:33-37 | The invite code does not affect a public event's reply. |
| Enrollments.EnrollKeepsConsistent | src/app/api/enrollments/enroll/route.js:28-69 | An accepted enrollment keeps the tables consistent: a stored event, not the host, within capacity. |
| Enrollments.UnenrollAccepted | src/app/api/enrollments/unenroll/route.js:7-29 | `200` exactly when the caller holds the enrollment, with no check of time, host or privacy; `401`, `400` and `404` "Not enrolled" otherwise. |
| Enrollments.RemoveKeepsConsistent | src/app/api/enrollments/unenroll/route.js:19-23 | Removing an enrollment keeps the tables consistent. |
| Enrollments.EnrollThenUnenroll | src/app/api/enrollments/unenroll/route.js:19-29 | Enrolling and then unenrolling succeeds and restores the enrollments. |
| CreateRoute.TypeOf | src/app/lib/db.js:47 | The `CHECK` accepts exactly `"public"` and `"private"`. |
| CreateRoute.ChooseCategory | src/app/api/events/create/route.js:25-32 | The category check passes exactly when no category is given or it normalizes, and the stored category is the canonical one or null. |
| CreateRoute.CreateAccepted | src/app/api/events/create/route.js:11-65 | `200` exactly when authenticated, the required fields are present, the category (if given) is recognised, the type is allowed and the id is new. `401` and `400` otherwise. The time is never checked. |
| CreateRoute.NewEventFields | src/app/api/events/create/route.js:35-65 | The new row: the fresh id, the caller as host, the description defaulting to `""`, the canonical category or null, the type, the time and the capacity as given, an empty invite code stored as null, and venue columns from the details. |
| CreateRoute.CreateKeepsConsistent | src/app/api/events/create/route.js:44-65 | An accepted insert keeps the tables consistent. |
| RegisterRoute.RegisterAccepted | src/app/api/users/register/route.js:11-48 | `200` exactly when all three fields are given and both the e-mail and the username are new; `400` for a missing field or an existing e-mail. |
| RegisterRoute.RegisterKeepsConsistent | src/app/lib/db.js:23-31 | An accepted registration keeps ids, usernames and e-mails unique. |
| Categories.FirstMatch | src/app/lib/categories.js:47-49 | The first entry whose lower-case form is the target, or none when no entry has it. |
| Categories.Search | src/app/lib/categories.js:47-49 | The loop with its early return finds `FirstMatch`. |
| Categories.NormalizeCategory | src/app/lib/categories.js:44-51 | A missing or empty value gives null. Otherwise the result is the canonical entry equal to the trimmed value, ignoring case. |
| Categories.CategoriesDistinctIgnoringCase | src/app/lib/categories.js:1-42 | The 40 entries stay distinct when case is ignored, so a match is unique. |
| Categories.CaseVariantNormalizes | src/app/lib/categories.js:44-51 | Any case or padding variant of an entry normalizes to it. |
| Categories.CanonicalFixed | src/app/lib/categories.js:44-51 | Canonical entries normalize to themselves. |
| Categories.NormalizeIdempotent | src/app/lib/categories.js:44-51 | Normalizing twice is normalizing once. |
| Categories.CategoryTrimmed | src/app/lib/categories.js:1-42 | No entry has surrounding white space. |
| TimeUtils.FormatEventDate | src/app/lib/utils.js:16-30 | A missing date is `TBD` and not expired. Otherwise it shows the localized date and is expired exactly when `isEventExpired` holds. |
| TimeUtils.ExpiryBoundary | src/app/lib/utils.js:8-13 | An event exactly at `now` is not expired; one a second earlier is. |
| TimeUtils.ExpiryMonotone | src/app/lib/utils.js:8-13 | Once expired, always expired. |
| GeocodeRoute.LimitOf | src/app/api/geocode/route.js:13 | The limit defaults to 5. |
| GeocodeRoute.Call | src/app/api/geocode/route.js:11-16 | An upstream call is made exactly when `q` is given. |
| GeocodeRoute.CallLimit | src/app/api/geocode/route.js:13-16 | The upstream limit is 5 by default, never above 10, equal to the given one when that is at most 10, and NaN only for a non-number. |
| GeocodeRoute.FirstNonNull | src/app/api/geocode/route.js:20-29 | `a ?? b ?? c`: the first present coordinate. |
| GeocodeRoute.AddressChoice | src/app/api/geocode/route.js:30-35 | The formatted address when there is one, otherwise the joined parts starting with the first present part. Null only when neither exists, and never `""`. |
| GeocodeRoute.MapMatches | src/app/api/geocode/route.js:18-39 | One match per upstream entry, in order. |
| GeocodeRoute.KeepLocated | src/app/api/geocode/route.js:40 | Exactly the matches with both coordinates. |
| GeocodeRoute.KeepLocatedConcat | src/app/api/geocode/route.js:40 | The filter keeps the upstream order. |
| GeocodeRoute.ReplyMatches | src/app/api/geocode/route.js:7-41 | `400` "Missing query" exactly without `q`. Otherwise the reply is a prefix of the located matches of upstream entries: at most 5 by default, at most the limit otherwise, and nothing for a non-array result. |
| GeocodeRoute.AllLocatedKept | src/app/api/geocode/route.js:40-41 | When every entry is located, all of them are kept. |
| ReverseGeocodeRoute.JoinBranchUnreached | src/app/api/reverse-geocode/route.js:17 | The parts are never empty, so the `slice(1).join` branch is never taken. |
| ReverseGeocodeRoute.FirstPresentPart | src/app/api/reverse-geocode/route.js:16 | The first kept part is the first non-empty candidate. |
| ReverseGeocodeRoute.LabelIsFirstPresent | src/app/api/reverse-geocode/route.js:15-18 | The label is the first non-empty candidate among formatted address, address, locality, region, postcode and country. |
| ReverseGeocodeRoute.CoordinateFallback | src/app/api/reverse-geocode/route.js:17-18 | Without a candidate the label is the coordinate text. |
| ReverseGeocodeRoute.NoResultCoordinates | src/app/api/reverse-geocode/route.js:15-18 | No result, or a non-array result, gives the coordinate text. |
| ReverseGeocodeRoute.OnlyFirstResult | src/app/api/reverse-geocode/route.js:15 | Results after the first never change the label. |
| ReverseGeocodeRoute.MissingCoordinate | src/app/api/reverse-geocode/route.js:10-12 | `400` "Missing lat/lng" exactly when either parameter is absent. |
| VenueSearchRoute.Call | src/app/api/venues/search/route.js:10-28 | The upstream call asks for 10 places for the query, with the radius defaulting to 5000. |
| VenueSearchRoute.DefaultRadius | src/app/api/venues/search/route.js:10 | `parseInt('5000')` is 5000. |
| VenueSearchRoute.FirstTruthyFirst | src/app/api/venues/search/route.js:42-43 | A chain of JavaScript ors yields the value of its first truthy candidate. |
| VenueSearchRoute.FirstTruthyDefault | src/app/api/venues/search/route.js:42-43 | A chain of JavaScript ors with no truthy candidate yields the default. |
| VenueSearchRoute.ToVenues | src/app/api/venues/search/route.js:37-61 | One venue per place, in order. |
| VenueSearchRoute.ReplyCases | src/app/api/venues/search/route.js:12-61 | `400` for missing coordinates before a missing query; `500` for a missing upstream list; otherwise one venue per place, in order. |
| VenueSearchRoute.VenueDefaults | src/app/api/venues/search/route.js:37-61 | Address and category are never empty and fall back to their placeholders without a candidate; the distance defaults to 0; the contact fields are null unless non-empty. |
| Routing.ResolveEvents | src/app/components/EditEventOverlay.jsx:104-111 | A segment that is not a static folder, such as the overlay's `delete`, reaches the `[id]` handlers for `GET`, `PUT` and `DELETE`, and a `POST` to it is refused: no route among the modelled files accepts it. |
| Routing.StaticWins | src/app/api/events/cleanup/route.js:5-40 | A static folder never reaches an event handler. |
| Navbar.Without | src/app/components/Navbar.js:296 | `filter(h => h !== q)` keeps exactly the other entries. |
| Navbar.NonEmpty | src/app/components/Navbar.js:296 | `filter(Boolean)` keeps exactly the non-empty entries. |
| Navbar.HistoryUpdate | src/app/components/Navbar.js:296 | At most 5 non-empty entries. The query comes first when non-empty and appears once. The other entries keep their old order, and no entry is new except the query. |
| Navbar.HistoryStartsWithQuery | src/app/components/Navbar.js:296 | A non-empty query heads the history. |
| Navbar.HistoryRepeat | src/app/components/Navbar.js:296 | Repeating a search leaves the history unchanged. |
| Navbar.LocationLabel | src/app/components/Navbar.js:52-58 | A label over 40 characters is cut to 40 plus `...`; a shorter one is shown whole; without a label the coordinates are shown. |
| Navbar.InitialsChoice | src/app/components/Navbar.js:302 | One or two characters: the username's first two in upper case, else the e-mail's, else `U`. |
| Navbar.Matching | src/app/components/Navbar.js:166 | Exactly the categories containing the needle, ignoring case. |
| Navbar.CategorySuggestionsFacts | src/app/components/Navbar.js:150-191 | None for blank input, and none in the venues and events modes. Otherwise canonical categories containing the trimmed input, in list order, at most 8 in the categories mode and 6 in aggregate mode, and all of them when they fit. |
| Navbar.MergeOrder | src/app/components/Navbar.js:204 | At most 12 suggestions: events before categories before venues. With at most 6 of each of the first two, only venues are cut. |
| Navbar.SearchEffects | src/app/components/Navbar.js:280-300 | Without coordinates only the location menu opens. Otherwise the URL carries `ll`, and carries `q` exactly when the trimmed query is non-empty; the history starts with that query and holds at most 5. |
| EventsPage.Weekday | src/app/events/page.js:219 | `getDay()` is between 0 and 6. |
| EventsPage.DatePreset | src/app/events/page.js:199-234 | `today` and `tomorrow` are single days. `weekend` is the next Saturday (today included) and the Sunday after. `next_week` is the first Monday after today through the Sunday after it. Anything else gives no range. |
| EventsPage.CountCounted | src/app/events/page.js:111-113 | The count is at most the number of values. |
| EventsPage.ActiveCountFacts | src/app/events/page.js:111-113 | At most 8. It is 0 exactly when every value is neutral, and so 0 for the cleared filters. |
| EventsPage.SearchQueryCount | src/app/events/page.js:111-113 | A search adds one unless it is `""` or `"all"`. |
| EventsPage.SetEnrolled | src/app/events/page.js:117-125 | Only the rows of the event change, and only their flag, to 1 or 0. |
| EventsPage.LlCoords | src/app/events/page.js:59-65 | Coordinates come from the URL's two trimmed parts, from storage without a comma, and from nowhere when a part is empty. |
| EventsPage.LlRoundTrip | src/app/events/page.js:59-65 | `lat,lng` gives the two texts back, trimmed. |
| EventsPage.LlFallbacks | src/app/events/page.js:59-65 | Without a comma the saved location is used; with an empty part nothing is set. |
| Dashboard.CalculateStats | src/app/dashboard/page.js:124-136 | The number of events and the sum of their counts. The average is that sum divided by the number of events, rounded half up (0 without events). Also the number of upcoming events, at most the total. |
| Dashboard.TotalConcat | src/app/dashboard/page.js:126 | The sum adds up over a split. |
| Dashboard.AverageAtMostMax | src/app/dashboard/page.js:124-136 | The average never exceeds the largest count. |
| Dashboard.CategoryBreakdown | src/app/dashboard/page.js:254-257 | Enrolled is the count. With the capacity defaulting to 100, enrolled plus available is the larger of count and capacity, and available is 0 exactly when the event is full. |
| Dashboard.ConstantSeries | src/app/dashboard/page.js:147-161 | The loop builds the series with the current count on every day. |
| Dashboard.CountSeries | src/app/dashboard/page.js:164-179 | The loop builds the series of per-day enrollment counts. |
| Dashboard.EnrollmentTrend | src/app/dashboard/page.js:142-182 | The trend is the constant series without history and the counted series with it. |
| Dashboard.MonthlyEvents | src/app/dashboard/page.js:185-248 | All zeros without a selected event; otherwise like the trend over its own number of days. |
| Dashboard.ChartData | src/app/dashboard/page.js:138-260 | Nothing without a selected event; otherwise the trend, the breakdown and the monthly series. |
| Dashboard.TrendShape | src/app/dashboard/page.js:142-182 | `days` consecutive days ending today, each with the current count (no history) or its own count. |
| Dashboard.TrendSumBound | src/app/dashboard/page.js:164-179 | The counted series never sums to more than the history holds. |
| Dashboard.SumOverBound | src/app/dashboard/page.js:164-179 | Over increasing days each entry is counted at most once. |
| CreatePage.SuggestLocations | src/app/events/create/page.js:126-134 | A fetch for the trimmed query is made exactly when the query is not blank and, untrimmed, at least 2 long. |
| CreatePage.PaddedLetterSearched | src/app/events/create/page.js:127 | One letter is not searched; one letter with a space before it is. |
| CreatePage.SearchVenues | src/app/events/create/page.js:206-219 | The query is checked before the coordinates, each with its message; a request for the trimmed query exactly when both pass. |
| CreatePage.ClearVenueSearch | src/app/events/create/page.js:278-291 | The venue id, queries, coordinates and results are reset; the radius and the rest of the form stay. |
| CreatePage.CapacityOf | src/app/events/create/page.js:349 | No capacity for an empty box. |
| CreatePage.HandleSubmit | src/app/events/create/page.js:300-351 | The checks, in order, each with its message: title, venue, category, date, future. The body is sent exactly when all pass, and it is the trimmed form. |
| CreatePage.SentBody | src/app/events/create/page.js:342-351 | A sent body has a trimmed non-empty title and venue id, the category and date as typed, and an invite code absent or non-empty. |
| CreatePage.BodyTrimmed | src/app/events/create/page.js:343-345 | The sent texts have no surrounding white space. |
| CreatePage.CapacityDigits | src/app/events/create/page.js:349 | A capacity of digits is sent as that number. |
| CreatePage.SentBodyHasRequired | src/app/api/events/create/route.js:20-22 | Every body the page sends passes the route's required-field check. |
| CreatePage.ClearBlocksVenue | src/app/events/create/page.js:278-311 | After a clear, the venue search warns, a submit stops at the venue check, and clearing again changes nothing. |
| EditOverlay.Init | src/app/components/EditEventOverlay.jsx:26-37 | The form is left alone unless the overlay is open on an event. |
| EditOverlay.InitFields | src/app/components/EditEventOverlay.jsx:26-37 | Present texts as given and `""` otherwise; the type is never empty; the date is the first 16 characters of the ISO text; the capacity text parses back to the capacity, 0 included. |
| EditOverlay.HandleSubmit | src/app/components/EditEventOverlay.jsx:40-88 | Title, category, date, then token, each with its message. A `PUT` of the untrimmed form to the event's own route exactly when all pass. |
| EditOverlay.SaveUnchanged | src/app/components/EditEventOverlay.jsx:26-73 | Opening on a complete event and saving unchanged sends the filled form. |
| EditOverlay.HandleDelete | src/app/components/EditEventOverlay.jsx:94-111 | Nothing without an event or confirmation; a sign-in prompt without a token; otherwise `POST /api/events/delete`, which no route among the modelled files accepts. |
| EventCard.ActionOf | src/app/components/EventCard.js:94-103 | `Unenroll` exactly when enrolled. Each button is disabled while its request runs or once the event is past, with the texts of its states. |
| EventCard.Card | src/app/components/EventCard.js:80-137 | The edit button exactly for the host; the action button exactly for a non-host with enrolling shown; the formatted date, the count and the distance line. |
| EventCard.HostAndExpiry | src/app/components/EventCard.js:88-103 | A host never gets an action button. A past event's button is disabled and an idle enroll button reads `Expired`; an upcoming idle button is enabled. |
| EventCard.VenueLineFacts | src/app/components/EventCard.js:125-128 | A line exactly when a name or address is given: it starts with the name or `Venue`, and mentions the address only when there is one. |
| EventCard.EnrollRequest | src/app/components/EventCard.js:18-60 | A sign-in prompt without a token; otherwise a post to the enroll or unenroll route with the event id. |
| EventCard.ButtonFlips | src/app/events/page.js:117-125 | After the page marks a row, the card shows `Unenroll` exactly when it was marked enrolled. |
| MyEventsPage.Load | src/app/events/my/page.js:22-49 | Without a token both lists are emptied. When either request fails both lists are kept. Otherwise both are set, with a non-array read as empty. Loading always ends. |
| MyEventsPage.ReloadHosted | src/app/events/my/page.js:86-100 | Only the hosted list changes, and only with a token and a successful reply. |
| MyEventsPage.EnrollmentChange | src/app/events/my/page.js:68-84 | Both lists get the same update as the events page. |
| MyEventsPage.EditEvent | src/app/events/my/page.js:58-61 | The overlay opens on the row and leaves the lists alone. |
| MyEventsPage.CloseOverlay | src/app/events/my/page.js:179-182 | The overlay closes and forgets the row. |

## Left out

- Distance: the haversine formula becomes the parameter `dist`, because it is floating point. Facts about distances (non-negativity, symmetry) are not assumed.
- Foursquare and the HTTP calls become parameters: `fetch` for `fetchFsqPlace`, and the upstream reply values for the proxies. Timeouts, headers and API keys are not modelled.
- `verifyToken` becomes the value `Auth`. The JWT signature, `bcrypt` and `randomUUID` become the `Auth` value, a `hash` function and a `newId` parameter. `src/app/lib/auth.js` is not part of this model.
- SQL becomes its meaning. The text of queries is modelled only for the `where` string of the list route, where the text is what goes wrong. The binding of values to placeholders is modelled for the filter and list queries.
- SQLite's comparisons of a column with a value of another kind are modelled where the model knows both texts: a user id against a TEXT column compares as its digits, and a text that cannot be a number against an INTEGER column sorts above every integer. Where the result turns on a rendering the model leaves abstract (a number or a date against a TEXT column, numeric-looking text against an INTEGER column), it becomes the parameter `mixed`, and every fact about the binding as written holds for all `mixed`.
- Dates are integer seconds, or day numbers on the client. The routes store `date_time` text and compare it with `datetime('now')` text; that text comparison is modelled only for the `dateTo` finding and the upcoming finding, and elsewhere the model compares instants. Time zones are not modelled.
- Concurrency: `Promise.all` over the rows is modelled one row at a time. The debounce timers, the race between the capacity check and the insert, and automatic cleanup timers (`AutoCleanup`) are not modelled.
- Console logging, and the filter route's `filters` and `debug` echo in its response.
- Exceptions thrown by the database or by `fetch`: these give `500`, and only the constraint failures are modelled (primary key, `UNIQUE` username, `CHECK` on type).
- `toLocaleString`, `toLocaleDateString`, `toFixed` and `toISOString` are parameters or opaque values, because they depend on the locale and on floating point.
- Case conversion covers ASCII letters only.
- `Number(s)` reads decimal literals and `Infinity`; exponent, hexadecimal, binary and octal forms give NaN in the model.
- The legacy `events-app` copy of the routes is not modelled, because the application serves `src/app`.
- The `[id]` route's bodies (`GET`, `PUT`, `DELETE` of one event, in `src/app/api/events/[id]/route.js`) are not part of this model; only the methods it exports are used, for routing.
- `/api/enrollments/my` is not part of this model.
- React rendering, effects and toasts: page state is a value, and each handler is a function from the old state to the new one.
- Ties of `ORDER BY date_time DESC` are taken in table order, because SQLite leaves their order open.
- The venue search's hours, popularity, price, stats, features and photos fields are not modelled.
- Dashboard chart labels are the day numbers.
- Store.EventStore.FilterPost: follows the corrected `dateTo` bound and the corrected binding (see Findings); the text comparison of `dateTo` is modelled only by `FilterRoute.DateToAsWrittenExcludesItsDay`, and the binding as written by `Store.EventStore.FilterPostAsWritten`.
- Store.FilterPostFacts: is stated for the corrected binding; for signed-in callers with a filter the route as written selects `FilterRoute.SelectedAsWritten` instead, see `Store.EventStore.FilterPostAsWritten`.
- Store.EventStore.ListGet: follows the corrected `where` clause and the corrected binding (see Findings); the `500` that the route gives as written for a search or category is modelled by `ListRoute.WhereTextAsWritten`, and the binding as written by `Store.ListFetchedAsWritten` with `Store.ListFetchedAsWrittenAgrees`.
- The list binding as written is modelled only for queries without `q` and without a recognised category, because the others fail on their `where` text before any value is bound.
- EventCard.IsHost: compares ids as integers, without modelling the `Number()` coercion of a host id stored as text.
- EventCard.Card: takes `enrollment_count` from the row, which always carries one, so the `?? 0` default is not modelled.

## Findings

| source | as written | input that shows it | evidently intended | confidence | as-written member | corrected member |
|---|---|---|---|---|---|---|
| src/app/api/events/filter/route.js:101-105 | `date_time <= ?` is compared as text against `dateTo + " 23:59:59"`, while the create form stores `YYYY-MM-DDTHH:MM`, and `T` sorts after a space | `dateTo = "2025-01-10"` and an event at `2025-01-10T18:00`: the event is excluded | `dateTo` includes the whole day | medium, not executed | FilterRoute.DateToAsWrittenExcludesItsDay | FilterRoute.DateBoundsCoverWholeDays |
| src/app/api/events/list/route.js:98-107 | the search and category steps wrap a `where` string that already starts with `WHERE` in parentheses, giving `(WHERE ...) AND title LIKE ?`, which is not valid SQL, so the route answers `500` | `GET /api/events/list?q=music` | the base clause and the extra condition joined with `AND` under one `WHERE` | high, not executed | ListRoute.WhereTextAsWritten | ListRoute.BuildListFilter |
| src/app/api/events/filter/route.js:159-170 | the signed-in query's select list holds the first `?` (`ee2.user_id = ?`), but the values are bound as `[...params, authedUserId, limit]`, so with any filter the select list takes the user id pushed for `host_id`, `host_id` takes the first filter value, and every later WHERE placeholder the value after its own | user 7 posts `{category: "Music"}`: `host_id = 'Music'` and `event_category = '7'`, so a public `Music` concert is not returned | bind `[authedUserId, ...params, limit]` | high, not executed | Store.FilterAsWrittenEmptyExample | Store.EventStore.FilterPost |
| src/app/api/events/list/route.js:111-121 | the signed-in query's select list holds the first `?`, but the values are bound as `[...params, authedUserId]`, so with an invite code `ee2.user_id` takes the code and `invite_code` takes the user id | user 7 opens `GET /api/events/list?invite_code=ABC`: a private event with code `ABC` is not listed, and `is_enrolled` is 0 on every row | bind `[authedUserId, ...params]` | high, not executed | ListRoute.InviteAsWrittenExample | Store.EventStore.ListGet |
| src/app/api/events/list/route.js:83-93 | `date_time > datetime('now')` compares the stored `YYYY-MM-DDTHH:MM` text with `YYYY-MM-DD HH:MM:SS`; on the same day `T` sorts after the space, so an event stays upcoming until its day ends (the same comparison is in src/app/api/enrollments/enroll/route.js:22, src/app/api/events/my/route.js:20 and, as `<=`, src/app/api/events/cleanup/route.js:17) | at `2025-01-10 20:00:00` an event stored as `2025-01-10T08:00` is still listed | compare the event's instant with the current one | medium, not executed | ListRoute.UpcomingAsWrittenExample | ListRoute.ListedAreUpcoming |
