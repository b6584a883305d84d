/** The `POST /api/events/filter` route: the condition and parameter builder,
    what the resulting `WHERE` clause selects, and the ranking and limit
    applied to the fetched rows. */
module FilterRoute {
  import opened Wrappers
  import opened Text
  import opened SqlText
  import opened JsNumber
  import opened Records
  import opened Ranking
  import opened Discovery
  import opened SqlValues

  /** The JSON body after destructuring. `radius` keeps the difference
      between absent (default 5000) and null (no radius test). String members
      that are absent default to `""`, which behaves as null does, so both are
      `None`. Dates are calendar days (`YYYY-MM-DD`) as day numbers; `limit`
      is the integer the body carries, absent meaning the default 50. */
  datatype Body = Body(
    latitude: Option<real>,
    longitude: Option<real>,
    radius: Field<real>,
    category: Option<string>,
    venueCategory: Option<string>,
    dateFrom: Option<int>,
    dateTo: Option<int>,
    capacityMin: Option<string>,
    capacityMax: Option<string>,
    searchQuery: Option<string>,
    limit: Option<int>)

  const DEFAULT_RADIUS: real := 5000.0
  const DEFAULT_LIMIT: int := 50
  const SECONDS_PER_DAY: int := 86400

  /** The first and last second of a calendar day. */
  function DayStart(d: int): int {
    d * SECONDS_PER_DAY
  }

  function DayEnd(d: int): int {
    d * SECONDS_PER_DAY + SECONDS_PER_DAY - 1
  }

  /** The conditions the route can push, in the order it pushes them. */
  datatype Cond =
    | PublicOnly          // type = 'public'
    | PublicOrHost        // (type = 'public' OR host_id = ?)
    | SearchText          // (title LIKE ? OR description LIKE ? OR title LIKE ? OR description LIKE ?)
    | CategoryEquals      // event_category = ?
    | VenueCategoryLike   // (venue_category LIKE ? OR venue_category LIKE ?)
    | DateAtLeast         // date_time >= ?
    | DateAtMost          // date_time <= ?
    | CapacityAtLeast     // capacity >= ?
    | CapacityAtMost      // capacity <= ?

  /** The number of `?` placeholders in each condition's text. */
  function Placeholders(c: Cond): nat {
    match c
    case PublicOnly => 0
    case SearchText => 4
    case VenueCategoryLike => 2
    case _ => 1
  }

  function TotalPlaceholders(cs: seq<Cond>): nat {
    if cs == [] then 0 else TotalPlaceholders(cs[..|cs| - 1]) + Placeholders(cs[|cs| - 1])
  }

  /** `col LIKE p` on a nullable column: null never matches. */
  predicate LikeOpt(col: Option<string>, p: string) {
    col.Some? && Like(col.value, p)
  }

  /** `(title LIKE p1 OR description LIKE p2 OR title LIKE p3 OR description LIKE p4)`. */
  predicate SearchMatches(title: string, description: Option<string>, p1: string, p2: string, p3: string, p4: string) {
    Like(title, p1) || LikeOpt(description, p2) || Like(title, p3) || LikeOpt(description, p4)
  }

  /** `(venue_category LIKE p1 OR venue_category LIKE p2)`. */
  predicate VenueCategoryMatches(category: Option<string>, p1: string, p2: string) {
    LikeOpt(category, p1) || LikeOpt(category, p2)
  }

  /** `capacity >= n` and `capacity <= n`: a null capacity or a null (NaN)
      bound fails; an infinite bound compares as one. */
  predicate CapacityGe(cap: Option<int>, n: Num) {
    cap.Some? && match n
      case NaN => false
      case Infinity(positive) => !positive
      case Finite(v) => cap.value as real >= v
  }

  predicate CapacityLe(cap: Option<int>, n: Num) {
    cap.Some? && match n
      case NaN => false
      case Infinity(positive) => positive
      case Finite(v) => cap.value as real <= v
  }

  /** What one condition means for an event, given the parameters bound to
      its placeholders. */
  predicate Holds(c: Cond, ps: seq<Param>, e: Event) {
    match c
    case PublicOnly => e.kind == Public
    case PublicOrHost => |ps| == 1 && ps[0].UserParam? && (e.kind == Public || e.hostId == ps[0].u)
    case SearchText =>
      |ps| == 4 && ps[0].TextParam? && ps[1].TextParam? && ps[2].TextParam? && ps[3].TextParam?
      && SearchMatches(e.title, e.description, ps[0].s, ps[1].s, ps[2].s, ps[3].s)
    case CategoryEquals => |ps| == 1 && ps[0].TextParam? && e.eventCategory == Some(ps[0].s)
    case VenueCategoryLike =>
      |ps| == 2 && ps[0].TextParam? && ps[1].TextParam?
      && VenueCategoryMatches(e.venue.category, ps[0].s, ps[1].s)
    case DateAtLeast => |ps| == 1 && ps[0].TimeParam? && e.dateTime >= ps[0].t
    case DateAtMost => |ps| == 1 && ps[0].TimeParam? && e.dateTime <= ps[0].t
    case CapacityAtLeast => |ps| == 1 && ps[0].NumParam? && CapacityGe(e.capacity, ps[0].n)
    case CapacityAtMost => |ps| == 1 && ps[0].NumParam? && CapacityLe(e.capacity, ps[0].n)
  }

  /** `WHERE c1 AND c2 AND ...`: every condition holds, each reading its own
      parameters from the list in order. */
  predicate Where(cs: seq<Cond>, ps: seq<Param>, e: Event) {
    if cs == [] then true
    else
      var k := Placeholders(cs[|cs| - 1]);
      |ps| >= k && Where(cs[..|cs| - 1], ps[..|ps| - k], e) && Holds(cs[|cs| - 1], ps[|ps| - k..], e)
  }

  lemma WhereSnoc(cs: seq<Cond>, ps: seq<Param>, c: Cond, qs: seq<Param>)
    requires |qs| == Placeholders(c)
    ensures TotalPlaceholders(cs + [c]) == TotalPlaceholders(cs) + Placeholders(c)
    ensures forall e :: Where(cs + [c], ps + qs, e) <==> Where(cs, ps, e) && Holds(c, qs, e)
  {
    assert (cs + [c])[..|cs|] == cs;
    assert (ps + qs)[..|ps|] == ps && (ps + qs)[|ps|..] == qs;
  }

  // Conditions evaluated on whatever values their placeholders receive,
  // of the kind they are meant for or not.

  /** The kind of value each condition's placeholders are meant to receive. */
  predicate KindOf(c: Cond, p: Param) {
    match c
    case PublicOnly => false
    case PublicOrHost => p.UserParam?
    case SearchText => p.TextParam?
    case CategoryEquals => p.TextParam?
    case VenueCategoryLike => p.TextParam?
    case DateAtLeast => p.TimeParam?
    case DateAtMost => p.TimeParam?
    case CapacityAtLeast => p.NumParam?
    case CapacityAtMost => p.NumParam?
  }

  predicate Kinded(c: Cond, ps: seq<Param>) {
    |ps| == Placeholders(c) && forall i :: 0 <= i < |ps| ==> KindOf(c, ps[i])
  }

  /** What one condition means for an event, given the values bound to its
      placeholders, compared as SQLite compares them. */
  predicate HoldsBound(c: Cond, ps: seq<Param>, e: Event, mixed: Mixed) {
    match c
    case PublicOnly => e.kind == Public
    case PublicOrHost => |ps| == 1 && (e.kind == Public || IntCompare(Equal, Some(e.hostId), ps[0], mixed))
    case SearchText =>
      |ps| == 4
      && (TextCompare(LikeMatch, Some(e.title), ps[0], mixed) || TextCompare(LikeMatch, e.description, ps[1], mixed)
          || TextCompare(LikeMatch, Some(e.title), ps[2], mixed) || TextCompare(LikeMatch, e.description, ps[3], mixed))
    case CategoryEquals => |ps| == 1 && TextCompare(Equal, e.eventCategory, ps[0], mixed)
    case VenueCategoryLike =>
      |ps| == 2
      && (TextCompare(LikeMatch, e.venue.category, ps[0], mixed) || TextCompare(LikeMatch, e.venue.category, ps[1], mixed))
    case DateAtLeast => |ps| == 1 && TimeCompare(AtLeast, e.dateTime, ps[0], mixed)
    case DateAtMost => |ps| == 1 && TimeCompare(AtMost, e.dateTime, ps[0], mixed)
    case CapacityAtLeast => |ps| == 1 && IntCompare(AtLeast, e.capacity, ps[0], mixed)
    case CapacityAtMost => |ps| == 1 && IntCompare(AtMost, e.capacity, ps[0], mixed)
  }

  /** Values of the intended kinds mean what `Holds` says. */
  lemma HoldsBoundKinded(c: Cond, ps: seq<Param>, e: Event, mixed: Mixed)
    requires Kinded(c, ps)
    ensures HoldsBound(c, ps, e, mixed) == Holds(c, ps, e)
  {
    if c == SearchText {
      assert KindOf(c, ps[0]) && KindOf(c, ps[1]) && KindOf(c, ps[2]) && KindOf(c, ps[3]);
    } else if c == VenueCategoryLike {
      assert KindOf(c, ps[0]) && KindOf(c, ps[1]);
    } else if c != PublicOnly {
      assert KindOf(c, ps[0]);
    }
  }

  /** `WHERE c1 AND c2 AND ...` on the values its placeholders receive. */
  predicate WhereBound(cs: seq<Cond>, ps: seq<Param>, e: Event, mixed: Mixed) {
    if cs == [] then true
    else
      var k := Placeholders(cs[|cs| - 1]);
      |ps| >= k && WhereBound(cs[..|cs| - 1], ps[..|ps| - k], e, mixed) && HoldsBound(cs[|cs| - 1], ps[|ps| - k..], e, mixed)
  }

  /** Every condition's placeholders receive values of the intended kinds. */
  predicate WellKinded(cs: seq<Cond>, ps: seq<Param>) {
    if cs == [] then ps == []
    else
      var k := Placeholders(cs[|cs| - 1]);
      |ps| >= k && WellKinded(cs[..|cs| - 1], ps[..|ps| - k]) && Kinded(cs[|cs| - 1], ps[|ps| - k..])
  }

  /** Bound to values of the intended kinds, the clause means `Where`. */
  lemma {:induction false} WhereBoundAgrees(cs: seq<Cond>, ps: seq<Param>, e: Event, mixed: Mixed)
    requires WellKinded(cs, ps)
    ensures WhereBound(cs, ps, e, mixed) == Where(cs, ps, e)
    decreases |cs|
  {
    if cs != [] {
      var k := Placeholders(cs[|cs| - 1]);
      WhereBoundAgrees(cs[..|cs| - 1], ps[..|ps| - k], e, mixed);
      HoldsBoundKinded(cs[|cs| - 1], ps[|ps| - k..], e, mixed);
    }
  }

  // What the body asks for, clause by clause; each is `true` when the body
  // does not ask for it.

  /** The trimmed search term, when the query is present and not blank. */
  function SearchTerm(q: Option<string>): Option<string> {
    if Truthy(q) && Trim(q.value) != "" then Some(Trim(q.value)) else None
  }

  /** The event category to match exactly, unless empty or `"all"`. */
  function CategoryFilter(c: Option<string>): Option<string> {
    if Truthy(c) && c.value != "all" then c else None
  }

  /** A capacity bound is applied unless it is `""`, null or absent. */
  function CapacityBound(s: Option<string>): Option<Num> {
    if s.Some? && s.value != "" then Some(ToNumber(s.value)) else None
  }

  predicate Visible(auth: Option<UserId>, e: Event) {
    e.kind == Public || (auth.Some? && e.hostId == auth.value)
  }

  predicate SearchOk(q: Option<string>, e: Event) {
    var t := SearchTerm(q);
    t.Some? ==> SearchMatches(e.title, e.description, "%" + t.value + "%", "%" + t.value + "%", t.value + "%", t.value + "%")
  }

  predicate CategoryOk(c: Option<string>, e: Event) {
    CategoryFilter(c).Some? ==> e.eventCategory == CategoryFilter(c)
  }

  predicate VenueCategoryOk(v: Option<string>, e: Event) {
    var t := SearchTerm(v);
    t.Some? ==> VenueCategoryMatches(e.venue.category, "%" + t.value + "%", t.value + "%")
  }

  predicate DateFromOk(d: Option<int>, e: Event) {
    d.Some? ==> e.dateTime >= DayStart(d.value)
  }

  predicate DateToOk(d: Option<int>, e: Event) {
    d.Some? ==> e.dateTime <= DayEnd(d.value)
  }

  predicate CapacityMinOk(s: Option<string>, e: Event) {
    CapacityBound(s).Some? ==> CapacityGe(e.capacity, CapacityBound(s).value)
  }

  predicate CapacityMaxOk(s: Option<string>, e: Event) {
    CapacityBound(s).Some? ==> CapacityLe(e.capacity, CapacityBound(s).value)
  }

  // The events the body selects, built up in the order the route pushes its
  // conditions.

  predicate AfterSearch(auth: Option<UserId>, b: Body, e: Event) {
    Visible(auth, e) && SearchOk(b.searchQuery, e)
  }

  predicate AfterCategory(auth: Option<UserId>, b: Body, e: Event) {
    AfterSearch(auth, b, e) && CategoryOk(b.category, e)
  }

  predicate AfterVenueCategory(auth: Option<UserId>, b: Body, e: Event) {
    AfterCategory(auth, b, e) && VenueCategoryOk(b.venueCategory, e)
  }

  predicate AfterDates(auth: Option<UserId>, b: Body, e: Event) {
    AfterVenueCategory(auth, b, e) && DateFromOk(b.dateFrom, e) && DateToOk(b.dateTo, e)
  }

  /** The events the body selects. */
  predicate Selected(auth: Option<UserId>, b: Body, e: Event) {
    AfterDates(auth, b, e) && CapacityMinOk(b.capacityMin, e) && CapacityMaxOk(b.capacityMax, e)
  }

  /** The search condition with its four parameters means `SearchOk`. */
  lemma HoldsSearch(qs: seq<Param>, t: string, e: Event)
    requires qs == [TextParam("%" + t + "%"), TextParam("%" + t + "%"), TextParam(t + "%"), TextParam(t + "%")]
    ensures Holds(SearchText, qs, e) == SearchMatches(e.title, e.description, "%" + t + "%", "%" + t + "%", t + "%", t + "%")
  {
  }

  lemma HoldsVenueCategory(qs: seq<Param>, t: string, e: Event)
    requires qs == [TextParam("%" + t + "%"), TextParam(t + "%")]
    ensures Holds(VenueCategoryLike, qs, e) == VenueCategoryMatches(e.venue.category, "%" + t + "%", t + "%")
  {
  }

  lemma HoldsCapacity(b: Body, e: Event)
    ensures b.capacityMin.Some? && b.capacityMin.value != "" ==>
      (Holds(CapacityAtLeast, [NumParam(ToNumber(b.capacityMin.value))], e) <==> CapacityMinOk(b.capacityMin, e))
    ensures b.capacityMax.Some? && b.capacityMax.value != "" ==>
      (Holds(CapacityAtMost, [NumParam(ToNumber(b.capacityMax.value))], e) <==> CapacityMaxOk(b.capacityMax, e))
  {
    if b.capacityMin.Some? && b.capacityMin.value != "" {
      HoldsAtLeast(ToNumber(b.capacityMin.value), e);
    }
    if b.capacityMax.Some? && b.capacityMax.value != "" {
      HoldsAtMost(ToNumber(b.capacityMax.value), e);
    }
  }

  lemma HoldsAtLeast(n: Num, e: Event)
    ensures Holds(CapacityAtLeast, [NumParam(n)], e) <==> CapacityGe(e.capacity, n)
  {
  }

  lemma HoldsAtMost(n: Num, e: Event)
    ensures Holds(CapacityAtMost, [NumParam(n)], e) <==> CapacityLe(e.capacity, n)
  {
  }

  // What each block of the builder pushes, as text and values: the
  // binding of the query depends on these lists, not only on their meaning.

  /** The conditions one block pushes and their parameters. */
  datatype Part = Part(conds: seq<Cond>, params: seq<Param>)

  function VisibilityPart(auth: Option<UserId>): Part {
    if auth.Some? then Part([PublicOrHost], [UserParam(auth.value)]) else Part([PublicOnly], [])
  }

  function SearchPart(b: Body): Part {
    TermSearchPart(SearchTerm(b.searchQuery))
  }

  function TermSearchPart(t: Option<string>): Part {
    if t.Some?
    then Part([SearchText], [TextParam("%" + t.value + "%"), TextParam("%" + t.value + "%"), TextParam(t.value + "%"), TextParam(t.value + "%")])
    else Part([], [])
  }

  function CategoryPart(b: Body): Part {
    if Truthy(b.category) && b.category.value != "all" then Part([CategoryEquals], [TextParam(b.category.value)]) else Part([], [])
  }

  function VenueCategoryPart(b: Body): Part {
    TermVenueCategoryPart(SearchTerm(b.venueCategory))
  }

  function TermVenueCategoryPart(t: Option<string>): Part {
    if t.Some? then Part([VenueCategoryLike], [TextParam("%" + t.value + "%"), TextParam(t.value + "%")]) else Part([], [])
  }

  function DateFromPart(b: Body): Part {
    if b.dateFrom.Some? then Part([DateAtLeast], [TimeParam(DayStart(b.dateFrom.value))]) else Part([], [])
  }

  function DateToPart(b: Body): Part {
    if b.dateTo.Some? then Part([DateAtMost], [TimeParam(DayEnd(b.dateTo.value))]) else Part([], [])
  }

  function CapacityMinPart(b: Body): Part {
    if b.capacityMin.Some? && b.capacityMin.value != "" then Part([CapacityAtLeast], [NumParam(ToNumber(b.capacityMin.value))]) else Part([], [])
  }

  function CapacityMaxPart(b: Body): Part {
    if b.capacityMax.Some? && b.capacityMax.value != "" then Part([CapacityAtMost], [NumParam(ToNumber(b.capacityMax.value))]) else Part([], [])
  }

  /** The conditions the builder pushes, in order. */
  function Conditions(auth: Option<UserId>, b: Body): seq<Cond> {
    VisibilityPart(auth).conds + SearchPart(b).conds + CategoryPart(b).conds + VenueCategoryPart(b).conds
    + DateFromPart(b).conds + DateToPart(b).conds + CapacityMinPart(b).conds + CapacityMaxPart(b).conds
  }

  /** The parameters the builder pushes, in order. */
  function Parameters(auth: Option<UserId>, b: Body): seq<Param> {
    VisibilityPart(auth).params + SearchPart(b).params + CategoryPart(b).params + VenueCategoryPart(b).params
    + DateFromPart(b).params + DateToPart(b).params + CapacityMinPart(b).params + CapacityMaxPart(b).params
  }

  /** The parameters of the filter blocks, after the visibility one. */
  function FilterParameters(b: Body): seq<Param> {
    SearchPart(b).params + CategoryPart(b).params + VenueCategoryPart(b).params
    + DateFromPart(b).params + DateToPart(b).params + CapacityMinPart(b).params + CapacityMaxPart(b).params
  }

  lemma ConcatHead<T>(a: seq<T>, b: seq<T>, c: seq<T>, d: seq<T>, e: seq<T>, f: seq<T>, g: seq<T>, h: seq<T>)
    ensures a + b + c + d + e + f + g + h == a + (b + c + d + e + f + g + h)
  {
  }

  lemma ParametersSplit(auth: Option<UserId>, b: Body)
    ensures Parameters(auth, b) == VisibilityPart(auth).params + FilterParameters(b)
  {
    ConcatHead(VisibilityPart(auth).params, SearchPart(b).params, CategoryPart(b).params, VenueCategoryPart(b).params,
               DateFromPart(b).params, DateToPart(b).params, CapacityMinPart(b).params, CapacityMaxPart(b).params);
  }

  predicate NoUserIds(ps: seq<Param>) {
    forall p :: p in ps ==> !p.UserParam?
  }

  lemma NoUserIdsConcat(a: seq<Param>, b: seq<Param>)
    requires NoUserIds(a) && NoUserIds(b)
    ensures NoUserIds(a + b)
  {
  }

  /** No filter block binds a user id. */
  lemma FilterParametersHoldNoUserId(b: Body)
    ensures NoUserIds(FilterParameters(b))
  {
    var s, c, v, df, dt, cmin, cmax := SearchPart(b).params, CategoryPart(b).params, VenueCategoryPart(b).params,
      DateFromPart(b).params, DateToPart(b).params, CapacityMinPart(b).params, CapacityMaxPart(b).params;
    TermPartsHoldNoUserId(SearchTerm(b.searchQuery), SearchTerm(b.venueCategory));
    OtherPartsHoldNoUserId(b);
    NumPartHoldsNoUserId(CapacityAtLeast, CapacityBound(b.capacityMin));
    NumPartHoldsNoUserId(CapacityAtMost, CapacityBound(b.capacityMax));
    assert NoUserIds(cmin) && NoUserIds(cmax);
    NoUserIdsConcat(s, c);
    NoUserIdsConcat(s + c, v);
    NoUserIdsConcat(s + c + v, df);
    NoUserIdsConcat(s + c + v + df, dt);
    NoUserIdsConcat(s + c + v + df + dt, cmin);
    NoUserIdsConcat(s + c + v + df + dt + cmin, cmax);
  }

  lemma TermPartsHoldNoUserId(t: Option<string>, u: Option<string>)
    ensures NoUserIds(TermSearchPart(t).params) && NoUserIds(TermVenueCategoryPart(u).params)
  {
  }

  lemma OtherPartsHoldNoUserId(b: Body)
    ensures NoUserIds(CategoryPart(b).params) && NoUserIds(DateFromPart(b).params) && NoUserIds(DateToPart(b).params)
  {
  }

  lemma NumPartHoldsNoUserId(c: Cond, n: Option<Num>)
    ensures n.Some? ==> NoUserIds([NumParam(n.value)])
  {
  }

  predicate PartKinded(p: Part) {
    (p.conds == [] && p.params == []) || (|p.conds| == 1 && Kinded(p.conds[0], p.params))
  }

  lemma WellKindedPart(cs: seq<Cond>, ps: seq<Param>, p: Part)
    requires WellKinded(cs, ps) && |ps| == TotalPlaceholders(cs) && PartKinded(p)
    ensures WellKinded(cs + p.conds, ps + p.params) && |ps + p.params| == TotalPlaceholders(cs + p.conds)
  {
    if p.conds == [] {
      assert cs + p.conds == cs && ps + p.params == ps;
    } else {
      assert (cs + p.conds)[..|cs|] == cs;
      assert (ps + p.params)[..|ps|] == ps && (ps + p.params)[|ps|..] == p.params;
    }
  }

  /** Each placeholder of the builder's conditions has a parameter of the
      intended kind. */
  lemma PartsKinded(auth: Option<UserId>, b: Body)
    ensures PartKinded(VisibilityPart(auth)) && PartKinded(SearchPart(b)) && PartKinded(CategoryPart(b))
    ensures PartKinded(VenueCategoryPart(b)) && PartKinded(DateFromPart(b)) && PartKinded(DateToPart(b))
    ensures PartKinded(CapacityMinPart(b)) && PartKinded(CapacityMaxPart(b))
  {
    TermPartsKinded(SearchTerm(b.searchQuery), SearchTerm(b.venueCategory));
    CapacityPartsKinded(b);
    OtherPartsKinded(auth, b);
  }

  lemma OtherPartsKinded(auth: Option<UserId>, b: Body)
    ensures PartKinded(VisibilityPart(auth)) && PartKinded(CategoryPart(b))
    ensures PartKinded(DateFromPart(b)) && PartKinded(DateToPart(b))
  {
  }

  lemma CapacityPartsKinded(b: Body)
    ensures PartKinded(CapacityMinPart(b)) && PartKinded(CapacityMaxPart(b))
  {
    NumPartKinded(CapacityAtLeast, CapacityBound(b.capacityMin));
    NumPartKinded(CapacityAtMost, CapacityBound(b.capacityMax));
  }

  lemma NumPartKinded(c: Cond, n: Option<Num>)
    requires c == CapacityAtLeast || c == CapacityAtMost
    ensures n.Some? ==> PartKinded(Part([c], [NumParam(n.value)]))
  {
  }

  lemma TermPartsKinded(t: Option<string>, u: Option<string>)
    ensures PartKinded(TermSearchPart(t)) && PartKinded(TermVenueCategoryPart(u))
  {
  }

  lemma ConditionsKinded(auth: Option<UserId>, b: Body)
    ensures WellKinded(Conditions(auth, b), Parameters(auth, b))
    ensures |Parameters(auth, b)| == TotalPlaceholders(Conditions(auth, b))
  {
    PartsKinded(auth, b);
    var v := VisibilityPart(auth);
    assert [] + v.conds == v.conds && [] + v.params == v.params;
    WellKindedPart([], [], v);
    WellKindedPart(v.conds, v.params, SearchPart(b));
    var c1, p1 := v.conds + SearchPart(b).conds, v.params + SearchPart(b).params;
    WellKindedPart(c1, p1, CategoryPart(b));
    var c2, p2 := c1 + CategoryPart(b).conds, p1 + CategoryPart(b).params;
    WellKindedPart(c2, p2, VenueCategoryPart(b));
    var c3, p3 := c2 + VenueCategoryPart(b).conds, p2 + VenueCategoryPart(b).params;
    WellKindedPart(c3, p3, DateFromPart(b));
    var c4, p4 := c3 + DateFromPart(b).conds, p3 + DateFromPart(b).params;
    WellKindedPart(c4, p4, DateToPart(b));
    var c5, p5 := c4 + DateToPart(b).conds, p4 + DateToPart(b).params;
    WellKindedPart(c5, p5, CapacityMinPart(b));
    var c6, p6 := c5 + CapacityMinPart(b).conds, p5 + CapacityMinPart(b).params;
    WellKindedPart(c6, p6, CapacityMaxPart(b));
  }

  // One method per block of the builder; each pushes its condition and
  // parameters when the body asks for that filter.

  method PushSearch(auth: Option<UserId>, b: Body, cs: seq<Cond>, ps: seq<Param>) returns (conditions: seq<Cond>, params: seq<Param>)
    requires cs != [] && |ps| == TotalPlaceholders(cs)
    requires forall e :: Where(cs, ps, e) <==> Visible(auth, e)
    ensures conditions != [] && conditions[0] == cs[0] && |params| == TotalPlaceholders(conditions)
    ensures forall e :: Where(conditions, params, e) <==> AfterSearch(auth, b, e)
    ensures conditions == cs + SearchPart(b).conds && params == ps + SearchPart(b).params
  {
    conditions, params := cs, ps;
    if Truthy(b.searchQuery) && Trim(b.searchQuery.value) != "" {
      var t := Trim(b.searchQuery.value);
      var qs := [TextParam("%" + t + "%"), TextParam("%" + t + "%"), TextParam(t + "%"), TextParam(t + "%")];
      WhereSnoc(cs, ps, SearchText, qs);
      conditions, params := cs + [SearchText], ps + qs;
      assert SearchTerm(b.searchQuery) == Some(t);
      forall e
        ensures Where(conditions, params, e) <==> AfterSearch(auth, b, e)
      {
        HoldsSearch(qs, t, e);
      }
    }
  }

  method PushCategory(auth: Option<UserId>, b: Body, cs: seq<Cond>, ps: seq<Param>) returns (conditions: seq<Cond>, params: seq<Param>)
    requires cs != [] && |ps| == TotalPlaceholders(cs)
    requires forall e :: Where(cs, ps, e) <==> AfterSearch(auth, b, e)
    ensures conditions != [] && conditions[0] == cs[0] && |params| == TotalPlaceholders(conditions)
    ensures forall e :: Where(conditions, params, e) <==> AfterCategory(auth, b, e)
    ensures conditions == cs + CategoryPart(b).conds && params == ps + CategoryPart(b).params
  {
    conditions, params := cs, ps;
    if Truthy(b.category) && b.category.value != "all" {
      var qs := [TextParam(b.category.value)];
      WhereSnoc(cs, ps, CategoryEquals, qs);
      conditions, params := cs + [CategoryEquals], ps + qs;
    }
  }

  method PushVenueCategory(auth: Option<UserId>, b: Body, cs: seq<Cond>, ps: seq<Param>) returns (conditions: seq<Cond>, params: seq<Param>)
    requires cs != [] && |ps| == TotalPlaceholders(cs)
    requires forall e :: Where(cs, ps, e) <==> AfterCategory(auth, b, e)
    ensures conditions != [] && conditions[0] == cs[0] && |params| == TotalPlaceholders(conditions)
    ensures forall e :: Where(conditions, params, e) <==> AfterVenueCategory(auth, b, e)
    ensures conditions == cs + VenueCategoryPart(b).conds && params == ps + VenueCategoryPart(b).params
  {
    conditions, params := cs, ps;
    if Truthy(b.venueCategory) && Trim(b.venueCategory.value) != "" {
      var t := Trim(b.venueCategory.value);
      var qs := [TextParam("%" + t + "%"), TextParam(t + "%")];
      WhereSnoc(cs, ps, VenueCategoryLike, qs);
      conditions, params := cs + [VenueCategoryLike], ps + qs;
      assert SearchTerm(b.venueCategory) == Some(t);
      forall e
        ensures Where(conditions, params, e) <==> AfterVenueCategory(auth, b, e)
      {
        HoldsVenueCategory(qs, t, e);
      }
    }
  }

  method PushDates(auth: Option<UserId>, b: Body, cs: seq<Cond>, ps: seq<Param>) returns (conditions: seq<Cond>, params: seq<Param>)
    requires cs != [] && |ps| == TotalPlaceholders(cs)
    requires forall e :: Where(cs, ps, e) <==> AfterVenueCategory(auth, b, e)
    ensures conditions != [] && conditions[0] == cs[0] && |params| == TotalPlaceholders(conditions)
    ensures forall e :: Where(conditions, params, e) <==> AfterDates(auth, b, e)
    ensures conditions == cs + DateFromPart(b).conds + DateToPart(b).conds
    ensures params == ps + DateFromPart(b).params + DateToPart(b).params
  {
    conditions, params := cs, ps;
    if b.dateFrom.Some? {
      var qs := [TimeParam(DayStart(b.dateFrom.value))];
      WhereSnoc(cs, ps, DateAtLeast, qs);
      conditions, params := cs + [DateAtLeast], ps + qs;
      assert DateFromPart(b) == Part([DateAtLeast], qs);
    } else {
      assert DateFromPart(b) == Part([], []);
      assert cs + [] == cs && ps + [] == ps;
    }
    assert forall e :: Where(conditions, params, e) <==> AfterVenueCategory(auth, b, e) && DateFromOk(b.dateFrom, e);
    assert conditions == cs + DateFromPart(b).conds && params == ps + DateFromPart(b).params;
    var cs1, ps1 := conditions, params;
    if b.dateTo.Some? {
      var qs := [TimeParam(DayEnd(b.dateTo.value))];
      WhereSnoc(cs1, ps1, DateAtMost, qs);
      conditions, params := cs1 + [DateAtMost], ps1 + qs;
      assert DateToPart(b) == Part([DateAtMost], qs);
    } else {
      assert DateToPart(b) == Part([], []);
      assert cs1 + [] == cs1 && ps1 + [] == ps1;
    }
  }

  method PushCapacity(auth: Option<UserId>, b: Body, cs: seq<Cond>, ps: seq<Param>) returns (conditions: seq<Cond>, params: seq<Param>)
    requires cs != [] && |ps| == TotalPlaceholders(cs)
    requires forall e :: Where(cs, ps, e) <==> AfterDates(auth, b, e)
    ensures conditions != [] && conditions[0] == cs[0] && |params| == TotalPlaceholders(conditions)
    ensures forall e :: Where(conditions, params, e) <==> Selected(auth, b, e)
    ensures conditions == cs + CapacityMinPart(b).conds + CapacityMaxPart(b).conds
    ensures params == ps + CapacityMinPart(b).params + CapacityMaxPart(b).params
  {
    conditions, params := cs, ps;
    if b.capacityMin.Some? && b.capacityMin.value != "" {
      var qs := [NumParam(ToNumber(b.capacityMin.value))];
      WhereSnoc(cs, ps, CapacityAtLeast, qs);
      conditions, params := cs + [CapacityAtLeast], ps + qs;
      assert CapacityMinPart(b) == Part([CapacityAtLeast], qs);
      forall e
        ensures Where(conditions, params, e) <==> AfterDates(auth, b, e) && CapacityMinOk(b.capacityMin, e)
      {
        HoldsCapacity(b, e);
      }
    } else {
      assert CapacityMinPart(b) == Part([], []);
      assert cs + [] == cs && ps + [] == ps;
    }
    assert forall e :: Where(conditions, params, e) <==> AfterDates(auth, b, e) && CapacityMinOk(b.capacityMin, e);
    assert conditions == cs + CapacityMinPart(b).conds && params == ps + CapacityMinPart(b).params;
    var cs1, ps1 := conditions, params;
    if b.capacityMax.Some? && b.capacityMax.value != "" {
      var qs := [NumParam(ToNumber(b.capacityMax.value))];
      WhereSnoc(cs1, ps1, CapacityAtMost, qs);
      conditions, params := cs1 + [CapacityAtMost], ps1 + qs;
      assert CapacityMaxPart(b) == Part([CapacityAtMost], qs);
      forall e
        ensures Where(conditions, params, e) <==> Selected(auth, b, e)
      {
        HoldsCapacity(b, e);
      }
    } else {
      assert CapacityMaxPart(b) == Part([], []);
      assert cs1 + [] == cs1 && ps1 + [] == ps1;
    }
  }

  /** The builder: pushes the visibility condition, then one condition per
      filter the body asks for, each with exactly as many parameters as it has
      placeholders. The clause it produces selects exactly `Selected`. */
  method BuildConditions(auth: Option<UserId>, b: Body) returns (conditions: seq<Cond>, params: seq<Param>)
    ensures conditions != [] && conditions[0] == (if auth.Some? then PublicOrHost else PublicOnly)
    ensures |params| == TotalPlaceholders(conditions)
    ensures forall e :: Where(conditions, params, e) <==> Selected(auth, b, e)
    ensures conditions == Conditions(auth, b) && params == Parameters(auth, b)
  {
    if auth.Some? {
      conditions, params := [PublicOrHost], [UserParam(auth.value)];
    } else {
      conditions, params := [PublicOnly], [];
    }
    WhereSnoc([], [], conditions[0], params);
    assert [] + [conditions[0]] == conditions && [] + params == params;
    conditions, params := PushSearch(auth, b, conditions, params);
    conditions, params := PushCategory(auth, b, conditions, params);
    conditions, params := PushVenueCategory(auth, b, conditions, params);
    conditions, params := PushDates(auth, b, conditions, params);
    conditions, params := PushCapacity(auth, b, conditions, params);
  }

  /** Anonymous callers see public events only; signed-in callers see public
      events and the events they host. */
  lemma SelectedVisibility(auth: Option<UserId>, b: Body, e: Event)
    requires Selected(auth, b, e)
    ensures auth.None? ==> e.kind == Public
    ensures auth.Some? ==> e.kind == Public || e.hostId == auth.value
  {
  }

  /** The route never looks at expiry or invite codes: changing an event's
      invite code, or its time when no date filter is given, does not change
      whether it is selected. */
  lemma SelectedIgnoresExpiryAndInvites(auth: Option<UserId>, b: Body, e: Event, t: int, code: Option<string>)
    ensures Selected(auth, b, e) == Selected(auth, b, e.(inviteCode := code))
    ensures b.dateFrom.None? && b.dateTo.None? ==> Selected(auth, b, e) == Selected(auth, b, e.(dateTime := t))
  {
    SelectedReadsColumns(auth, b, e, e.(inviteCode := code));
    if b.dateFrom.None? && b.dateTo.None? {
      SelectedReadsColumns(auth, b, e, e.(dateTime := t));
    }
  }

  /** Selection reads only the kind, host, title, description, category,
      venue category and capacity columns, and the time for date filters. */
  lemma SelectedReadsColumns(auth: Option<UserId>, b: Body, e: Event, f: Event)
    requires e.kind == f.kind && e.hostId == f.hostId && e.title == f.title && e.description == f.description
    requires e.eventCategory == f.eventCategory && e.venue.category == f.venue.category && e.capacity == f.capacity
    requires b.dateFrom.Some? || b.dateTo.Some? ==> e.dateTime == f.dateTime
    ensures Selected(auth, b, e) == Selected(auth, b, f)
  {
    SearchReadsColumns(b.searchQuery, e, f);
    VenueCategoryReadsColumns(b.venueCategory, e, f);
    CapacityReadsColumns(b, e, f);
  }

  lemma SearchReadsColumns(q: Option<string>, e: Event, f: Event)
    requires e.title == f.title && e.description == f.description
    ensures SearchOk(q, e) == SearchOk(q, f)
  {
  }

  lemma VenueCategoryReadsColumns(v: Option<string>, e: Event, f: Event)
    requires e.venue.category == f.venue.category
    ensures VenueCategoryOk(v, e) == VenueCategoryOk(v, f)
  {
  }

  lemma CapacityReadsColumns(b: Body, e: Event, f: Event)
    requires e.capacity == f.capacity
    ensures CapacityMinOk(b.capacityMin, e) == CapacityMinOk(b.capacityMin, f)
    ensures CapacityMaxOk(b.capacityMax, e) == CapacityMaxOk(b.capacityMax, f)
  {
  }

  /** A blank or whitespace-only search query adds no clause. */
  lemma BlankSearchIgnored(auth: Option<UserId>, b: Body, e: Event)
    requires b.searchQuery.Some? && AllWhite(b.searchQuery.value)
    ensures Selected(auth, b, e) == Selected(auth, b.(searchQuery := None), e)
  {
    TrimEnds(b.searchQuery.value);
  }

  /** A search term without wildcard characters matches when the title or the
      description contains it, ignoring ASCII case: the starts-with disjuncts
      add nothing. */
  lemma SearchMeansContains(q: Option<string>, e: Event)
    requires SearchTerm(q).Some? && NoWildcards(SearchTerm(q).value)
    ensures var t := SearchTerm(q).value;
      SearchOk(q, e) <==>
        Contains(Lower(e.title), Lower(t))
        || (e.description.Some? && Contains(Lower(e.description.value), Lower(t)))
  {
    var t := SearchTerm(q).value;
    ContainsPattern(e.title, t);
    PrefixPatternRedundant(e.title, t);
    if e.description.Some? {
      ContainsPattern(e.description.value, t);
      PrefixPatternRedundant(e.description.value, t);
    }
  }

  /** The venue category filter is a contains-match of the trimmed value; its
      prefix disjunct is redundant, and a null venue category never matches. */
  lemma VenueCategoryMeansContains(v: Option<string>, e: Event)
    requires SearchTerm(v).Some? && NoWildcards(SearchTerm(v).value)
    ensures var t := SearchTerm(v).value;
      VenueCategoryOk(v, e) <==>
        e.venue.category.Some? && Contains(Lower(e.venue.category.value), Lower(t))
  {
    var t := SearchTerm(v).value;
    if e.venue.category.Some? {
      ContainsPattern(e.venue.category.value, t);
      PrefixPatternRedundant(e.venue.category.value, t);
    }
  }

  /** The category filter is exact equality, applied unless the value is
      empty or `"all"`. */
  lemma CategoryMeansEquality(c: Option<string>, e: Event)
    ensures Truthy(c) && c.value != "all" ==> (CategoryOk(c, e) <==> e.eventCategory == c)
    ensures !Truthy(c) || c.value == "all" ==> CategoryOk(c, e)
  {
  }

  /** An event with no capacity fails every capacity bound that is given. */
  lemma NullCapacityFailsBounds(b: Body, e: Event)
    requires e.capacity.None?
    requires CapacityBound(b.capacityMin).Some? || CapacityBound(b.capacityMax).Some?
    ensures !Selected(None, b, e) && forall u :: !Selected(Some(u), b, e)
  {
  }

  /** The date bounds: `dateFrom` is inclusive from the first second of its
      day, `dateTo` inclusive to the last second of its day. */
  lemma DateBoundsCoverWholeDays(d: int, t: int)
    ensures DateFromOk(Some(d), Event("", 0, "", None, None, Venue(None, None, None, None, None), None, Public, t, None, None))
        <==> t >= DayStart(d)
    ensures DayStart(d) <= t <= DayEnd(d) ==> DateToOk(Some(d), Event("", 0, "", None, None, Venue(None, None, None, None, None), None, Public, t, None, None))
    ensures t > DayEnd(d) ==> !DateToOk(Some(d), Event("", 0, "", None, None, Venue(None, None, None, None, None), None, Public, t, None, None))
  {
  }

  // The `dateTo` bound as written: the stored `date_time` is the text of a
  // `datetime-local` input, `YYYY-MM-DDTHH:MM`, and the bound is the text
  // `dateTo + " 23:59:59"`, compared as TEXT.

  /** How the create form stores an event time. */
  function StoredDateTime(day: string, hm: string): string {
    day + "T" + hm
  }

  /** The `dateTo` parameter as the route writes it. */
  function DateToParamAsWritten(day: string): string {
    day + " 23:59:59"
  }

  /** As written, `date_time <= dateTo + " 23:59:59"` is false for every event
      on the `dateTo` day itself, because `'T'` sorts after `' '`. */
  lemma DateToAsWrittenExcludesItsDay(day: string, hm: string)
    ensures !TextLe(StoredDateTime(day, hm), DateToParamAsWritten(day))
  {
    var a, b := StoredDateTime(day, hm), DateToParamAsWritten(day);
    assert a[..|day|] == day == b[..|day|];
    TextLeCommonHead(a, b, |day|);
    assert a[|day|..][0] == 'T' && b[|day|..][0] == ' ';
  }

  /** The concrete case: an event at 18:00 on 2025-01-10 fails `dateTo = "2025-01-10"`. */
  lemma DateToAsWrittenExample()
    ensures !TextLe("2025-01-10T18:00", DateToParamAsWritten("2025-01-10"))
  {
    DateToAsWrittenExcludesItsDay("2025-01-10", "18:00");
    assert StoredDateTime("2025-01-10", "18:00") == "2025-01-10T18:00";
  }

  /** The radius the ranking uses: the default when absent, none when null. */
  function Radius(b: Body): Option<real> {
    match b.radius
    case Undefined => Some(DEFAULT_RADIUS)
    case Null => None
    case Given(r) => Some(r)
  }

  function Limit(b: Body): int {
    if b.limit.Some? then b.limit.value else DEFAULT_LIMIT
  }

  /** SQLite `LIMIT n`: a negative `n` means no limit. */
  function SqlLimit<T>(rows: seq<T>, n: int): (r: seq<T>)
    ensures r <= rows
    ensures n >= 0 ==> |r| <= n
  {
    if n < 0 then rows else Take(rows, n)
  }

  // The binding as written. The signed-in query's select list holds the
  // first `?` (`ee2.user_id = ?`, for `is_enrolled`), and `LIMIT ?` the last,
  // but the values are bound as `[...params, authedUserId, limit]`: the
  // select list takes the first WHERE value, and each WHERE placeholder the
  // value after its own, the last of them the user id.

  /** The values the route binds, in order. */
  function BoundValues(auth: Option<UserId>, params: seq<Param>, limit: int): seq<Param> {
    params + (if auth.Some? then [UserParam(auth.value)] else []) + [NumParam(Finite(limit as real))]
  }

  /** The placeholders of the select list, before the WHERE clause. */
  function SelectPlaceholders(auth: Option<UserId>): nat {
    if auth.Some? then 1 else 0
  }

  /** The values the WHERE clause's placeholders receive. */
  function WhereValues(auth: Option<UserId>, params: seq<Param>, limit: int): seq<Param> {
    BoundValues(auth, params, limit)[SelectPlaceholders(auth)..SelectPlaceholders(auth) + |params|]
  }

  /** The events the route as written selects: the built clause on the
      values its placeholders receive. */
  predicate SelectedAsWritten(auth: Option<UserId>, b: Body, e: Event, mixed: Mixed) {
    WhereBound(Conditions(auth, b), WhereValues(auth, Parameters(auth, b), Limit(b)), e, mixed)
  }

  /** What each placeholder receives as written. There is one value per
      placeholder and `LIMIT` gets the limit. Anonymous, the WHERE clause
      gets the built parameters. Signed in, `is_enrolled` gets the visibility
      block's user id (so it is right), and the WHERE clause gets the filter
      values followed by the user id: one place to the left. */
  lemma BindingAsWritten(auth: Option<UserId>, b: Body)
    ensures var bound := BoundValues(auth, Parameters(auth, b), Limit(b));
      |bound| == SelectPlaceholders(auth) + TotalPlaceholders(Conditions(auth, b)) + 1
      && bound[|bound| - 1] == NumParam(Finite(Limit(b) as real))
      && (auth.None? ==> WhereValues(auth, Parameters(auth, b), Limit(b)) == Parameters(auth, b))
      && (auth.Some? ==>
            bound[0] == UserParam(auth.value)
            && WhereValues(auth, Parameters(auth, b), Limit(b)) == FilterParameters(b) + [UserParam(auth.value)])
  {
    ConditionsKinded(auth, b);
    ParametersSplit(auth, b);
    var ps := Parameters(auth, b);
    var bound := BoundValues(auth, ps, Limit(b));
    if auth.Some? {
      assert ps == [UserParam(auth.value)] + FilterParameters(b);
      assert bound == [UserParam(auth.value)] + (FilterParameters(b) + [UserParam(auth.value)]) + [NumParam(Finite(Limit(b) as real))];
    } else {
      assert ps == FilterParameters(b);
      assert bound == ps + [NumParam(Finite(Limit(b) as real))];
    }
  }

  /** When no value shifts onto another placeholder (anonymous callers, or
      a signed-in body asking for no filter), the route as written selects
      what the built clause means. */
  lemma AsWrittenAgreesUnshifted(auth: Option<UserId>, b: Body, e: Event, mixed: Mixed)
    requires auth.None? || FilterParameters(b) == []
    ensures SelectedAsWritten(auth, b, e, mixed) == Where(Conditions(auth, b), Parameters(auth, b), e)
  {
    BindingAsWritten(auth, b);
    ParametersSplit(auth, b);
    ConditionsKinded(auth, b);
    if auth.Some? {
      assert FilterParameters(b) + [UserParam(auth.value)] == Parameters(auth, b);
    }
    WhereBoundAgrees(Conditions(auth, b), Parameters(auth, b), e, mixed);
  }

  /** The first condition of a clause is met by the values of its own
      placeholders, the first ones. */
  lemma {:induction false} WhereBoundHead(cs: seq<Cond>, ps: seq<Param>, e: Event, mixed: Mixed)
    requires cs != [] && |ps| == TotalPlaceholders(cs)
    requires WhereBound(cs, ps, e, mixed)
    ensures Placeholders(cs[0]) <= |ps| && HoldsBound(cs[0], ps[..Placeholders(cs[0])], e, mixed)
    decreases |cs|
  {
    var k := Placeholders(cs[|cs| - 1]);
    if |cs| == 1 {
      assert cs[..0] == [];
      assert ps[|ps| - k..] == ps[..Placeholders(cs[0])];
    } else {
      var cs1, ps1 := cs[..|cs| - 1], ps[..|ps| - k];
      WhereBoundHead(cs1, ps1, e, mixed);
      assert cs1[0] == cs[0];
      assert ps1[..Placeholders(cs[0])] == ps[..Placeholders(cs[0])];
    }
  }

  /** Signed in with a search term, the route as written drops every
      private event, the caller's own included: the visibility condition
      `host_id = ?` receives the text `%term%`, which no integer equals. */
  lemma SearchAsWrittenDropsPrivate(u: UserId, b: Body, e: Event, mixed: Mixed)
    requires SearchTerm(b.searchQuery).Some? && e.kind == Private
    ensures !SelectedAsWritten(Some(u), b, e, mixed)
  {
    var auth := Some(u);
    var t := SearchTerm(b.searchQuery).value;
    var first := TextParam("%" + t + "%");
    BindingAsWritten(auth, b);
    ConditionsKinded(auth, b);
    var cs, ws := Conditions(auth, b), WhereValues(auth, Parameters(auth, b), Limit(b));
    assert cs[0] == PublicOrHost;
    assert ws[0] == FilterParameters(b)[0] == first;
    assert ("%" + t + "%")[0] == '%';
    TextNeverEqualsInteger(e.hostId, "%" + t + "%", mixed);
    if SelectedAsWritten(auth, b, e, mixed) {
      WhereBoundHead(cs, ws, e, mixed);
    }
  }

  /** Signed in with only a category filter, the route as written compares
      `event_category` with the user id's digits, and `host_id` with the
      category name. */
  lemma CategoryAsWrittenShifted(u: UserId, b: Body, e: Event, mixed: Mixed)
    requires CategoryFilter(b.category).Some? && SearchTerm(b.searchQuery).None? && SearchTerm(b.venueCategory).None?
    requires b.dateFrom.None? && b.dateTo.None? && CapacityBound(b.capacityMin).None? && CapacityBound(b.capacityMax).None?
    ensures SelectedAsWritten(Some(u), b, e, mixed) ==> e.eventCategory == Some(IntToString(u))
    ensures NeverNumeric(b.category.value) ==>
      (SelectedAsWritten(Some(u), b, e, mixed) <==> e.kind == Public && e.eventCategory == Some(IntToString(u)))
  {
    var c := b.category.value;
    CategoryOnlyBinding(u, b);
    CategoryClauseMeaning(c, u, e, mixed);
    assert SelectedAsWritten(Some(u), b, e, mixed)
      == WhereBound([PublicOrHost, CategoryEquals], [TextParam(c), UserParam(u)], e, mixed);
  }

  /** The two-condition clause with the category name on `host_id` and the
      user id on `event_category`. */
  lemma CategoryClauseMeaning(c: string, u: UserId, e: Event, mixed: Mixed)
    ensures WhereBound([PublicOrHost, CategoryEquals], [TextParam(c), UserParam(u)], e, mixed) ==> e.eventCategory == Some(IntToString(u))
    ensures NeverNumeric(c) ==>
      (WhereBound([PublicOrHost, CategoryEquals], [TextParam(c), UserParam(u)], e, mixed) <==> e.kind == Public && e.eventCategory == Some(IntToString(u)))
  {
    CategoryClauseBound(c, u, e, mixed);
    UserIdAgainstText(e.eventCategory, u, mixed);
    if NeverNumeric(c) {
      TextNeverEqualsInteger(e.hostId, c, mixed);
    }
  }

  /** With only a category filter, the clause and the values its
      placeholders receive as written. */
  lemma CategoryOnlyBinding(u: UserId, b: Body)
    requires CategoryFilter(b.category).Some? && SearchTerm(b.searchQuery).None? && SearchTerm(b.venueCategory).None?
    requires b.dateFrom.None? && b.dateTo.None? && CapacityBound(b.capacityMin).None? && CapacityBound(b.capacityMax).None?
    ensures Conditions(Some(u), b) == [PublicOrHost, CategoryEquals]
    ensures WhereValues(Some(u), Parameters(Some(u), b), Limit(b)) == [TextParam(b.category.value), UserParam(u)]
  {
    var none := Part([], []);
    assert SearchPart(b) == none && VenueCategoryPart(b) == none;
    assert DateFromPart(b) == none && DateToPart(b) == none;
    assert CapacityMinPart(b) == none && CapacityMaxPart(b) == none;
    assert CategoryPart(b) == Part([CategoryEquals], [TextParam(b.category.value)]);
    BindingAsWritten(Some(u), b);
    assert FilterParameters(b) == [TextParam(b.category.value)];
  }

  /** The two-condition clause on the two values it receives. */
  lemma CategoryClauseBound(c: string, u: UserId, e: Event, mixed: Mixed)
    ensures WhereBound([PublicOrHost, CategoryEquals], [TextParam(c), UserParam(u)], e, mixed)
      <==> HoldsBound(PublicOrHost, [TextParam(c)], e, mixed) && HoldsBound(CategoryEquals, [UserParam(u)], e, mixed)
  {
    var cs, ws := [PublicOrHost, CategoryEquals], [TextParam(c), UserParam(u)];
    assert Placeholders(CategoryEquals) == 1 && Placeholders(PublicOrHost) == 1;
    assert cs[..1] == [PublicOrHost] && ws[..1] == [TextParam(c)] && ws[1..] == [UserParam(u)];
    assert WhereBound(cs, ws, e, mixed)
      == (WhereBound([PublicOrHost], [TextParam(c)], e, mixed) && HoldsBound(CategoryEquals, [UserParam(u)], e, mixed));
    assert [PublicOrHost][..0] == [] && [TextParam(c)][..0] == [] && [TextParam(c)][0..] == [TextParam(c)];
    assert WhereBound([PublicOrHost], [TextParam(c)], e, mixed) == HoldsBound(PublicOrHost, [TextParam(c)], e, mixed);
  }

  /** The concrete case: user 7 asks for category `Music`. A public concert
      in `Music` is selected, but not as written, since its category is not
      `"7"`. */
  lemma CategoryAsWrittenExample(mixed: Mixed)
    ensures var b := Body(None, None, Undefined, Some("Music"), None, None, None, None, None, None, None);
      var e := Event("e1", 2, "Concert", None, None, Venue(None, None, None, None, None), Some("Music"), Public, 0, None, None);
      Selected(Some(7), b, e) && !SelectedAsWritten(Some(7), b, e, mixed)
  {
    var b := Body(None, None, Undefined, Some("Music"), None, None, None, None, None, None, None);
    var e := Event("e1", 2, "Concert", None, None, Venue(None, None, None, None, None), Some("Music"), Public, 0, None, None);
    assert SearchTerm(None) == None && CategoryFilter(b.category) == Some("Music") && CapacityBound(None) == None;
    assert Selected(Some(7), b, e);
    assert IntToString(7) == "7";
    CategoryAsWrittenShifted(7, b, e, mixed);
  }

  /** The steps after the query: rank when both coordinates are given, then
      `slice(0, limit)` when `limit` is positive. */
  function Respond(rows: seq<Row>, b: Body, dist: DistanceFn): seq<Row> {
    var ranked :=
      if b.latitude.Some? && b.longitude.Some?
      then Rank(rows, b.latitude.value, b.longitude.value, Radius(b), dist)
      else rows;
    var n := Limit(b);
    if n > 0 then Take(ranked, n) else ranked
  }

  /** The response of the route for the rows the query returned (already cut
      to `limit` by SQL): no more than `limit` rows, each a fetched row (with
      its distance when ranked), within the radius unless the radius is null,
      and sorted by distance with unknown distances last. */
  lemma RespondProperties(rows: seq<Row>, b: Body, dist: DistanceFn)
    requires Limit(b) >= 0 ==> |rows| <= Limit(b)
    ensures var r := Respond(rows, b, dist);
      (Limit(b) >= 0 ==> |r| <= Limit(b))
      && (b.latitude.None? || b.longitude.None? ==> r <= rows)
      && (b.latitude.Some? && b.longitude.Some? ==>
            (forall x :: x in r ==> exists i :: 0 <= i < |rows| && x == WithDistance(rows[i], b.latitude.value, b.longitude.value, dist))
            && (Radius(b).Some? ==> forall x :: x in r ==> x.distance.Some? && x.distance.value <= Radius(b).value)
            && SortedBy(r, RowKey))
  {
    if b.latitude.Some? && b.longitude.Some? {
      RankPrefix(rows, b.latitude.value, b.longitude.value, Radius(b), dist, Respond(rows, b, dist));
    }
  }
}
