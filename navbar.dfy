/** The rules inside the navigation bar: the recent-search history, the
    shortened location label, the avatar initials, the category and merged
    search suggestions, and what submitting a search does. Rendering, the
    storage reads and writes and the debounce timers are not modelled; the
    stored history and location are parameters and the new ones are results. */
module Navbar {
  import opened Wrappers
  import opened Text
  import opened Categories

  /** `a` is `b` with some elements left out, the rest in their order. */
  predicate IsSubseq<T(==)>(a: seq<T>, b: seq<T>)
    decreases |b|
  {
    a == [] || (b != [] && ((a[0] == b[0] && IsSubseq(a[1..], b[1..])) || IsSubseq(a, b[1..])))
  }

  lemma {:induction false} SubseqRefl<T>(a: seq<T>)
    ensures IsSubseq(a, a)
  {
    if a != [] {
      SubseqRefl(a[1..]);
    }
  }

  lemma {:induction false} SubseqTrans<T>(a: seq<T>, b: seq<T>, c: seq<T>)
    requires IsSubseq(a, b) && IsSubseq(b, c)
    ensures IsSubseq(a, c)
    decreases |c|
  {
    if a != [] {
      if b[0] == c[0] && IsSubseq(b[1..], c[1..]) {
        if a[0] == b[0] && IsSubseq(a[1..], b[1..]) {
          SubseqTrans(a[1..], b[1..], c[1..]);
        } else {
          SubseqTrans(a, b[1..], c[1..]);
        }
      } else {
        SubseqTrans(a, b, c[1..]);
      }
    }
  }

  /** A prefix is a subsequence. */
  lemma {:induction false} PrefixSubseq<T>(a: seq<T>, b: seq<T>)
    requires a <= b
    ensures IsSubseq(a, b)
  {
    if a != [] {
      assert a[1..] <= b[1..];
      PrefixSubseq(a[1..], b[1..]);
    }
  }

  /** The elements of a prefix are elements of the whole. */
  lemma PrefixMembers<T>(a: seq<T>, b: seq<T>)
    requires a <= b
    ensures forall x :: x in a ==> x in b
  {
    assert a == b[..|a|];
  }

  // ---------------------------------------------------------------------
  // Recent searches

  /** `hist.filter((h) => h !== q)`. */
  function Without(hist: seq<string>, q: string): (r: seq<string>)
    ensures forall x :: x in r <==> x in hist && x != q
  {
    if hist == [] then [] else (if hist[0] != q then [hist[0]] else []) + Without(hist[1..], q)
  }

  /** `.filter(Boolean)` on strings: the empty string is dropped. */
  function NonEmpty(s: seq<string>): (r: seq<string>)
    ensures forall x :: x in r <==> x in s && x != ""
  {
    if s == [] then [] else (if s[0] != "" then [s[0]] else []) + NonEmpty(s[1..])
  }

  lemma {:induction false} WithoutSubseq(hist: seq<string>, q: string)
    ensures IsSubseq(Without(hist, q), hist)
  {
    if hist != [] {
      WithoutSubseq(hist[1..], q);
      var rest := Without(hist[1..], q);
      if hist[0] != q {
        assert Without(hist, q) == [hist[0]] + rest;
        assert ([hist[0]] + rest)[1..] == rest;
      } else {
        assert Without(hist, q) == rest;
        if rest != [] {
          assert IsSubseq(rest, hist);
        }
      }
    }
  }

  lemma {:induction false} NonEmptySubseq(s: seq<string>)
    ensures IsSubseq(NonEmpty(s), s)
  {
    if s != [] {
      NonEmptySubseq(s[1..]);
      var rest := NonEmpty(s[1..]);
      if s[0] != "" {
        assert NonEmpty(s) == [s[0]] + rest;
        assert ([s[0]] + rest)[1..] == rest;
      } else {
        assert NonEmpty(s) == rest;
      }
    }
  }

  lemma {:induction false} WithoutAbsent(s: seq<string>, q: string)
    requires q !in s
    ensures Without(s, q) == s
  {
    if s != [] {
      WithoutAbsent(s[1..], q);
      assert s == [s[0]] + s[1..];
    }
  }

  lemma {:induction false} NonEmptyOfNonEmpty(s: seq<string>)
    requires "" !in s
    ensures NonEmpty(s) == s
  {
    if s != [] {
      NonEmptyOfNonEmpty(s[1..]);
      assert s == [s[0]] + s[1..];
    }
  }

  /** The history written by a search for `q` (already trimmed):
      `[q, ...hist.filter((h) => h !== q)].filter(Boolean).slice(0, 5)`. */
  function UpdateHistory(q: string, hist: seq<string>): seq<string> {
    Take(NonEmpty([q] + Without(hist, q)), 5)
  }

  /** The history after a search holds at most five non-empty entries, starts
      with the query when it is non-empty and holds no other copy of it, and
      keeps the other entries in their old order. */
  lemma HistoryUpdate(q: string, hist: seq<string>)
    ensures var r := UpdateHistory(q, hist);
      |r| <= 5 && "" !in r
      && (q != "" ==> r != [] && r[0] == q && q !in r[1..])
      && (q == "" ==> IsSubseq(r, hist))
      && (q != "" ==> IsSubseq(r[1..], hist))
      && (forall x :: x in r ==> x == q || x in hist)
  {
    var w := Without(hist, q);
    var all := NonEmpty([q] + w);
    var r := Take(all, 5);
    WithoutSubseq(hist, q);
    PrefixSubseq(r, all);
    PrefixMembers(r, all);
    if q != "" {
      assert all == [q] + NonEmpty(w) by {
        assert ([q] + w)[0] == q && ([q] + w)[1..] == w;
      }
      assert r[1..] <= NonEmpty(w);
      PrefixSubseq(r[1..], NonEmpty(w));
      NonEmptySubseq(w);
      SubseqTrans(r[1..], NonEmpty(w), w);
      SubseqTrans(r[1..], w, hist);
      forall x | x in r[1..] ensures x != q {
        assert x in NonEmpty(w);
      }
    } else {
      assert all == NonEmpty(w) by {
        assert ([q] + w)[0] == "" && ([q] + w)[1..] == w;
      }
      NonEmptySubseq(w);
      SubseqTrans(r, NonEmpty(w), w);
      SubseqTrans(r, w, hist);
    }
  }

  lemma HistoryStartsWithQuery(q: string, hist: seq<string>)
    requires q != ""
    ensures [q] <= UpdateHistory(q, hist)
  {
    assert ([q] + Without(hist, q))[1..] == Without(hist, q);
    assert NonEmpty([q] + Without(hist, q))[0] == q;
  }

  /** Searching for the same query again leaves the history as it is. */
  lemma HistoryRepeat(q: string, hist: seq<string>)
    ensures UpdateHistory(q, UpdateHistory(q, hist)) == UpdateHistory(q, hist)
  {
    var w := NonEmpty(Without(hist, q));
    var h1 := UpdateHistory(q, hist);
    if q != "" {
      assert NonEmpty([q] + Without(hist, q)) == [q] + w by {
        assert ([q] + Without(hist, q))[1..] == Without(hist, q);
      }
      var t := Take(w, 4);
      assert h1 == [q] + t;
      PrefixMembers(t, w);
      assert q !in t && "" !in t;
      assert Without(h1, q) == t by {
        assert h1[0] == q && h1[1..] == t;
        WithoutAbsent(t, q);
      }
      NonEmptyOfNonEmpty(t);
      assert NonEmpty([q] + t) == [q] + t by {
        assert ([q] + t)[1..] == t;
      }
    } else {
      assert NonEmpty([q] + Without(hist, q)) == w by {
        assert ([q] + Without(hist, q))[1..] == Without(hist, q);
      }
      PrefixMembers(h1, w);
      assert "" !in h1;
      WithoutAbsent(h1, q);
      NonEmptyOfNonEmpty(h1);
      assert NonEmpty([q] + h1) == h1 by {
        assert ([q] + h1)[1..] == h1;
      }
    }
  }

  // ---------------------------------------------------------------------
  // Location label

  /** `label && label.length > 40 ? label.slice(0, 40) + "..." : label`,
      with `text` for the label. */
  function ShortLabel(text: Option<string>): Option<string> {
    if Truthy(text) && |text.value| > 40 then Some(text.value[..40] + "...") else text
  }

  /** The label shown (and stored) for a saved location: the shortened
      label, or the coordinate text `coords` when there is no label. */
  function ShownLocation(text: Option<string>, coords: string): string {
    var t := ShortLabel(text);
    if Truthy(t) then t.value else coords
  }

  /** A label longer than 40 characters is cut to its first 40 followed by
      `...`; a non-empty shorter label is shown whole; without a label the
      coordinates are shown. */
  lemma LocationLabel(text: Option<string>, coords: string)
    ensures var s := ShownLocation(text, coords);
      (Truthy(text) && |text.value| > 40 ==> |s| == 43 && s == text.value[..40] + "..." && text.value[..40] <= s)
      && (Truthy(text) && |text.value| <= 40 ==> s == text.value)
      && (!Truthy(text) ==> s == coords)
      && (Truthy(text) ==> |s| <= 43)
  {
  }

  // ---------------------------------------------------------------------
  // Initials

  datatype NavUser = NavUser(username: Option<string>, email: Option<string>)

  /** `s?.slice(0, 2)?.toUpperCase()`. */
  function FirstTwoUpper(s: Option<string>): Option<string> {
    if s.None? then None else Some(Upper(Take(s.value, 2)))
  }

  /** `user?.username?.slice(0, 2)?.toUpperCase() || user?.email?... || "U"`. */
  function Initials(user: Option<NavUser>): string {
    if user.None? then "U"
    else
      var a := FirstTwoUpper(user.value.username);
      var b := FirstTwoUpper(user.value.email);
      if Truthy(a) then a.value else if Truthy(b) then b.value else "U"
  }

  /** The initials are never empty and at most two characters: the first two
      of the username in upper case, else of the e-mail address, else `U`. */
  lemma InitialsChoice(user: Option<NavUser>)
    ensures var r := Initials(user);
      r != [] && |r| <= 2
      && (user.None? ==> r == "U")
      && (user.Some? && Truthy(user.value.username) ==>
            r == Upper(Take(user.value.username.value, 2)) && |r| == (if |user.value.username.value| >= 2 then 2 else 1))
      && (user.Some? && !Truthy(user.value.username) && Truthy(user.value.email) ==>
            r == Upper(Take(user.value.email.value, 2)))
      && (user.Some? && !Truthy(user.value.username) && !Truthy(user.value.email) ==> r == "U")
  {
  }

  // ---------------------------------------------------------------------
  // Suggestions

  /** `cats.filter(c => c.toLowerCase().includes(needle))`. */
  function Matching(cats: seq<string>, needle: string): (r: seq<string>)
    ensures forall c :: c in r <==> c in cats && Contains(Lower(c), needle)
  {
    if cats == [] then []
    else (if Contains(Lower(cats[0]), needle) then [cats[0]] else []) + Matching(cats[1..], needle)
  }

  lemma {:induction false} MatchingSubseq(cats: seq<string>, needle: string)
    ensures IsSubseq(Matching(cats, needle), cats)
  {
    if cats != [] {
      MatchingSubseq(cats[1..], needle);
      var rest := Matching(cats[1..], needle);
      if Contains(Lower(cats[0]), needle) {
        assert Matching(cats, needle) == [cats[0]] + rest;
        assert ([cats[0]] + rest)[1..] == rest;
      } else {
        assert Matching(cats, needle) == rest;
      }
    }
  }

  /** The search modes of the bar; `Aggregate` is no mode selected. */
  datatype Mode = VenuesMode | CategoriesMode | EventsMode | Aggregate

  /** How many categories a mode shows: 8 in the categories mode, 6 beside
      events and venues when no mode is selected, and none in the venues and
      events modes, which offer geocode results and events only. */
  function CategoryCap(mode: Mode): nat {
    match mode
    case CategoriesMode => 8
    case Aggregate => 6
    case VenuesMode => 0
    case EventsMode => 0
  }

  /** The category suggestions for the input `val`: none for blank input,
      otherwise the case-insensitive matches of the trimmed input, in list
      order, cut to the mode's cap. */
  function CategorySuggestions(val: string, mode: Mode): seq<string> {
    if IsBlank(val) then [] else Take(Matching(EVENT_CATEGORIES, Lower(Trim(val))), CategoryCap(mode))
  }

  /** Category suggestions are canonical categories containing the trimmed
      input ignoring case, in list order; at most 8 in the categories mode,
      6 in aggregate mode and none in the venues and events modes; and every
      match is offered when there are no more than that. */
  lemma CategorySuggestionsFacts(val: string, mode: Mode)
    ensures var r := CategorySuggestions(val, mode);
      |r| <= CategoryCap(mode) && CategoryCap(mode) <= 8
      && (mode == Aggregate ==> |r| <= 6)
      && (mode == VenuesMode || mode == EventsMode ==> r == [])
      && (forall c :: c in r ==> c in EVENT_CATEGORIES && Contains(Lower(c), Lower(Trim(val))))
      && IsSubseq(r, EVENT_CATEGORIES)
      && (IsBlank(val) ==> r == [])
      && (!IsBlank(val) && |Matching(EVENT_CATEGORIES, Lower(Trim(val)))| <= CategoryCap(mode) ==>
            forall c :: c in EVENT_CATEGORIES && Contains(Lower(c), Lower(Trim(val))) ==> c in r)
  {
    var r := CategorySuggestions(val, mode);
    if !IsBlank(val) {
      var m := Matching(EVENT_CATEGORIES, Lower(Trim(val)));
      MatchingSubseq(EVENT_CATEGORIES, Lower(Trim(val)));
      PrefixSubseq(r, m);
      SubseqTrans(r, m, EVENT_CATEGORIES);
      assert forall c :: c in r ==> c in m;
    }
  }

  datatype Kind = EventHit | CategoryHit | VenueHit

  datatype Suggestion = Suggestion(kind: Kind, key: string, title: string)

  function Rank(k: Kind): nat {
    match k
    case EventHit => 0
    case CategoryHit => 1
    case VenueHit => 2
  }

  predicate AllOfKind(s: seq<Suggestion>, k: Kind) {
    forall i :: 0 <= i < |s| ==> s[i].kind == k
  }

  /** `[...events, ...categories, ...venues].slice(0, 12)`. */
  function Merge(events: seq<Suggestion>, cats: seq<Suggestion>, venues: seq<Suggestion>): seq<Suggestion> {
    Take(events + cats + venues, 12)
  }

  /** Merged suggestions number at most 12, events come before categories and
      categories before venues; with the aggregate caps of 6 events and 6
      categories none of those two is dropped, so only venues are cut. */
  lemma MergeOrder(events: seq<Suggestion>, cats: seq<Suggestion>, venues: seq<Suggestion>)
    requires AllOfKind(events, EventHit) && AllOfKind(cats, CategoryHit) && AllOfKind(venues, VenueHit)
    ensures var r := Merge(events, cats, venues);
      |r| <= 12
      && (forall i, j :: 0 <= i < j < |r| ==> Rank(r[i].kind) <= Rank(r[j].kind))
      && (|events| <= 6 && |cats| <= 6 ==> r[..|events| + |cats|] == events + cats)
  {
    var all := events + cats + venues;
    assert forall i :: 0 <= i < |all| ==>
      Rank(all[i].kind) == (if i < |events| then 0 else if i < |events| + |cats| then 1 else 2);
  }

  // ---------------------------------------------------------------------
  // Submitting a search

  datatype SearchEffect =
    | OpenLocationMenu
    | Navigate(params: seq<(string, string)>, history: seq<string>)

  /** `handleSearch`: without saved coordinates only the location menu opens;
      otherwise the trimmed query (from the overlay input when the overlay is
      open) and the coordinates `ll` ("lat,lng") become the `/events` query,
      and the history is updated. */
  function HandleSearch(ll: Option<string>, overlayOpen: bool, searchInput: string, searchQuery: string,
                        hist: seq<string>): SearchEffect
  {
    if ll.None? then OpenLocationMenu
    else
      var q := Trim(if overlayOpen then searchInput else searchQuery);
      Navigate((if q != "" then [("q", q)] else []) + [("ll", ll.value)], UpdateHistory(q, hist))
  }

  /** Without coordinates nothing is navigated to and no history is written;
      with them the URL always carries `ll`, carries `q` exactly when the
      trimmed query is non-empty, and the new history starts with that query. */
  lemma SearchEffects(ll: Option<string>, overlayOpen: bool, searchInput: string, searchQuery: string,
                      hist: seq<string>)
    ensures var e := HandleSearch(ll, overlayOpen, searchInput, searchQuery, hist);
      var q := Trim(if overlayOpen then searchInput else searchQuery);
      (ll.None? <==> e == OpenLocationMenu)
      && (e.Navigate? ==>
            (q == "" ==> e.params == [("ll", ll.value)])
            && (q != "" ==> e.params == [("q", q), ("ll", ll.value)] && [q] <= e.history)
            && |e.history| <= 5)
  {
    if ll.Some? {
      var q := Trim(if overlayOpen then searchInput else searchQuery);
      SearchNavigates(ll.value, q, hist);
    }
  }

  lemma SearchNavigates(ll: string, q: string, hist: seq<string>)
    ensures var e := Navigate((if q != "" then [("q", q)] else []) + [("ll", ll)], UpdateHistory(q, hist));
      (q == "" ==> e.params == [("ll", ll)])
      && (q != "" ==> e.params == [("q", q), ("ll", ll)] && [q] <= e.history)
      && |e.history| <= 5
  {
    HistoryUpdate(q, hist);
    if q != "" {
      HistoryStartsWithQuery(q, hist);
    }
  }
}
