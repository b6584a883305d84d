/** The fixed list of event categories and the look-up that turns a
    user-supplied category into its canonical spelling. */
module Categories {
  import opened Wrappers
  import opened Text

  const EVENT_CATEGORIES: seq<string> := [
    "Conferences", "Trade Shows", "Seminars", "Workshops", "Product Launches",
    "Company Parties", "Networking Events", "Weddings", "Birthday Parties", "Anniversaries",
    "Festivals", "Concerts", "Art Exhibitions", "Charity Events", "Sports Competitions",
    "Marathons", "Educational Events", "Religious Gatherings", "Political Rallies", "Community Fairs",
    "Award Ceremonies", "Fashion Shows", "Hybrid Events", "Virtual Events", "Galas",
    "Film Screenings", "Book Signings", "Car Shows", "Food and Wine Tastings", "Parades",
    "Comedy Shows", "Theater Performances", "Meetups", "Retreats", "Fundraisers",
    "Open Houses", "Career Fairs", "Town Halls", "Science Fairs", "Grand Openings"
  ]

  /** The first entry of `cats` whose lower-case form is `target`. */
  function FirstMatch(cats: seq<string>, target: string): (r: Option<string>)
    ensures r.Some? ==> r.value in cats && Lower(r.value) == target
    ensures r.None? ==> forall c :: c in cats ==> Lower(c) != target
  {
    if cats == [] then None
    else if Lower(cats[0]) == target then Some(cats[0])
    else FirstMatch(cats[1..], target)
  }

  /** What `normalizeCategory` returns: nothing for a missing or empty value,
      otherwise the canonical category equal to the trimmed value ignoring case. */
  function Normalize(value: Option<string>): Option<string> {
    if !Truthy(value) then None else FirstMatch(EVENT_CATEGORIES, Lower(Trim(value.value)))
  }

  /** The `for (const cat of ...)` search with its early return. */
  method Search(cats: seq<string>, target: string) returns (r: Option<string>)
    ensures r == FirstMatch(cats, target)
  {
    for i := 0 to |cats|
      invariant FirstMatch(cats, target) == FirstMatch(cats[i..], target)
    {
      if Lower(cats[i]) == target {
        return Some(cats[i]);
      }
      assert cats[i..][1..] == cats[i + 1..];
    }
    return None;
  }

  /** `normalizeCategory`: a missing or empty value gives nothing; otherwise the
      value is trimmed, lower-cased and looked up. */
  method NormalizeCategory(value: Option<string>) returns (r: Option<string>)
    ensures r == Normalize(value)
    ensures !Truthy(value) ==> r.None?
    ensures r.Some? ==> r.value in EVENT_CATEGORIES && Lower(r.value) == Lower(Trim(value.value))
  {
    if !Truthy(value) {
      return None;
    }
    r := Search(EVENT_CATEGORIES, Lower(Trim(value.value)));
  }

  /** Three facts that already tell the 40 entries apart, packed in one number:
      the length and the first and fifth characters in lower case. */
  function Signature(c: string): int {
    if |c| < 5 then 0 else |c| * 1000000 + (LowerChar(c[0]) as int) * 1000 + LowerChar(c[4]) as int
  }

  /** The signatures of the entries of `EVENT_CATEGORIES`, in the same order. */
  const SIGNATURES: seq<int> := [
    11099101, 11116101, 8115110, 9119115, 16112117, 15099097, 17110111, 8119105,
    16098104, 13097118, 9102105, 8099101, 15097101, 14099105, 19115116, 9109116,
    18101097, 20114103, 17112116, 15099117, 16097100, 13102105, 13104105, 14118117,
    5103115, 15102032, 13098032, 9099115, 22102032, 7112100, 12099100, 20116116,
    7109117, 8114101, 11102114, 11111032, 12099101, 10116032, 13115110, 14103100
  ]

  /** The position in `EVENT_CATEGORIES` of the entry with signature `k`. */
  function SignatureIndex(k: int): int {
    if k == 11099101 then 0  // Conferences
    else if k == 11116101 then 1  // Trade Shows
    else if k == 8115110 then 2  // Seminars
    else if k == 9119115 then 3  // Workshops
    else if k == 16112117 then 4  // Product Launches
    else if k == 15099097 then 5  // Company Parties
    else if k == 17110111 then 6  // Networking Events
    else if k == 8119105 then 7  // Weddings
    else if k == 16098104 then 8  // Birthday Parties
    else if k == 13097118 then 9  // Anniversaries
    else if k == 9102105 then 10  // Festivals
    else if k == 8099101 then 11  // Concerts
    else if k == 15097101 then 12  // Art Exhibitions
    else if k == 14099105 then 13  // Charity Events
    else if k == 19115116 then 14  // Sports Competitions
    else if k == 9109116 then 15  // Marathons
    else if k == 18101097 then 16  // Educational Events
    else if k == 20114103 then 17  // Religious Gatherings
    else if k == 17112116 then 18  // Political Rallies
    else if k == 15099117 then 19  // Community Fairs
    else if k == 16097100 then 20  // Award Ceremonies
    else if k == 13102105 then 21  // Fashion Shows
    else if k == 13104105 then 22  // Hybrid Events
    else if k == 14118117 then 23  // Virtual Events
    else if k == 5103115 then 24  // Galas
    else if k == 15102032 then 25  // Film Screenings
    else if k == 13098032 then 26  // Book Signings
    else if k == 9099115 then 27  // Car Shows
    else if k == 22102032 then 28  // Food and Wine Tastings
    else if k == 7112100 then 29  // Parades
    else if k == 12099100 then 30  // Comedy Shows
    else if k == 20116116 then 31  // Theater Performances
    else if k == 7109117 then 32  // Meetups
    else if k == 8114101 then 33  // Retreats
    else if k == 11102114 then 34  // Fundraisers
    else if k == 11111032 then 35  // Open Houses
    else if k == 12099101 then 36  // Career Fairs
    else if k == 10116032 then 37  // Town Halls
    else if k == 13115110 then 38  // Science Fairs
    else if k == 14103100 then 39  // Grand Openings
    else -1
  }

  /** The signatures of the entries, ten at a time. */
  lemma SignaturesListedA()
    ensures forall i :: 0 <= i < 10 ==> Signature(EVENT_CATEGORIES[i]) == SIGNATURES[i]
  {
  }

  lemma SignaturesListedB()
    ensures forall i :: 10 <= i < 20 ==> Signature(EVENT_CATEGORIES[i]) == SIGNATURES[i]
  {
  }

  lemma SignaturesListedC()
    ensures forall i :: 20 <= i < 30 ==> Signature(EVENT_CATEGORIES[i]) == SIGNATURES[i]
  {
  }

  lemma SignaturesListedD()
    ensures forall i :: 30 <= i < 40 ==> Signature(EVENT_CATEGORIES[i]) == SIGNATURES[i]
  {
  }

  lemma SignaturesListed()
    ensures |SIGNATURES| == |EVENT_CATEGORIES|
    ensures forall i :: 0 <= i < |EVENT_CATEGORIES| ==> Signature(EVENT_CATEGORIES[i]) == SIGNATURES[i]
  {
    SignaturesListedA();
    SignaturesListedB();
    SignaturesListedC();
    SignaturesListedD();
  }

  lemma SignatureIdentifiesEntry()
    ensures forall i :: 0 <= i < |SIGNATURES| ==> SignatureIndex(SIGNATURES[i]) == i
  {
  }

  /** Names that agree ignoring case have the same signature. */
  lemma SignatureIgnoresCase(a: string, b: string)
    ensures Lower(a) == Lower(b) ==> Signature(a) == Signature(b)
  {
    if Lower(a) == Lower(b) && |a| >= 5 {
      assert Lower(a)[0] == Lower(b)[0] && Lower(a)[4] == Lower(b)[4];
    }
  }

  /** The 40 entries differ from each other even ignoring case, so the first
      match of a search is the only one. */
  lemma CategoriesDistinctIgnoringCase()
    ensures forall i, j :: 0 <= i < j < |EVENT_CATEGORIES| ==> Lower(EVENT_CATEGORIES[i]) != Lower(EVENT_CATEGORIES[j])
  {
    SignaturesListed();
    SignatureIdentifiesEntry();
    forall i, j | 0 <= i < j < |EVENT_CATEGORIES|
      ensures Lower(EVENT_CATEGORIES[i]) != Lower(EVENT_CATEGORIES[j])
    {
      SignatureIgnoresCase(EVENT_CATEGORIES[i], EVENT_CATEGORIES[j]);
    }
  }

  /** A search finds the entry at `i` when no earlier entry has the same
      lower-case form. */
  lemma {:induction false} FirstMatchAt(cats: seq<string>, i: int)
    requires 0 <= i < |cats|
    requires forall j :: 0 <= j < i ==> Lower(cats[j]) != Lower(cats[i])
    ensures FirstMatch(cats, Lower(cats[i])) == Some(cats[i])
  {
    if i > 0 {
      assert Lower(cats[0]) != Lower(cats[i]);
      FirstMatchAt(cats[1..], i - 1);
    }
  }

  predicate Lettered(c: string) {
    c != [] && 'A' <= c[0] <= 'Z' && 'a' <= c[|c| - 1] <= 'z'
  }

  lemma CategoriesLetteredA()
    ensures forall i :: 0 <= i < 20 ==> Lettered(EVENT_CATEGORIES[i])
  {
  }

  lemma CategoriesLetteredB()
    ensures forall i :: 20 <= i < 40 ==> Lettered(EVENT_CATEGORIES[i])
  {
  }

  /** Every entry starts with a capital letter and ends with a small one. */
  lemma CategoriesLettered()
    ensures forall i :: 0 <= i < |EVENT_CATEGORIES| ==> Lettered(EVENT_CATEGORIES[i])
  {
    CategoriesLetteredA();
    CategoriesLetteredB();
  }

  /** So trimming keeps every entry. */
  lemma CategoryTrimmed(c: string)
    requires c in EVENT_CATEGORIES
    ensures Trim(c) == c
  {
    CategoriesLettered();
    TrimKeeps(c);
  }

  /** Any spelling of a canonical category that differs only in case and in
      surrounding white space normalizes to that category. */
  lemma CaseVariantNormalizes(v: string, c: string)
    requires c in EVENT_CATEGORIES
    requires Lower(Trim(v)) == Lower(c)
    ensures Normalize(Some(v)) == Some(c)
  {
    CategoriesDistinctIgnoringCase();
    var i :| 0 <= i < |EVENT_CATEGORIES| && EVENT_CATEGORIES[i] == c;
    FirstMatchAt(EVENT_CATEGORIES, i);
    assert v != "" by {
      CategoriesLettered();
      assert |Trim(v)| == |c| > 0;
    }
  }

  /** Canonical categories are left as they are. */
  lemma CanonicalFixed(c: string)
    requires c in EVENT_CATEGORIES
    ensures Normalize(Some(c)) == Some(c)
  {
    CategoryTrimmed(c);
    CaseVariantNormalizes(c, c);
  }

  /** Normalizing twice is normalizing once. */
  lemma NormalizeIdempotent(value: Option<string>)
    ensures Normalize(Normalize(value)) == Normalize(value)
  {
    if Normalize(value).Some? {
      CanonicalFixed(Normalize(value).value);
    }
  }
}
