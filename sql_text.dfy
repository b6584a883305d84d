/** The two SQLite text operations the routes rely on: the `LIKE` operator
    (`%` and `_` wildcards, ASCII case folded, no ESCAPE clause) and the
    default BINARY ordering of TEXT values. */
module SqlText {
  import opened Text

  predicate IsWildcard(c: char) {
    c == '%' || c == '_'
  }

  /** A term that holds no wildcard character, so that it only matches itself. */
  predicate NoWildcards(t: string) {
    forall i :: 0 <= i < |t| ==> !IsWildcard(t[i])
  }

  /** Pattern matching with `%` (any run of characters) and `_` (one
      character), comparing the characters exactly. */
  function Matches(s: string, p: string): bool
    decreases |s| + |p|
  {
    if p == [] then s == []
    else if p[0] == '%' then Matches(s, p[1..]) || (s != [] && Matches(s[1..], p))
    else if p[0] == '_' then s != [] && Matches(s[1..], p[1..])
    else s != [] && s[0] == p[0] && Matches(s[1..], p[1..])
  }

  /** SQLite `s LIKE p`: ASCII letters match either case. */
  predicate Like(s: string, p: string) {
    Matches(Lower(s), Lower(p))
  }

  /** A pattern of one `%` matches everything. */
  lemma {:induction false} PercentMatchesAll(s: string)
    ensures Matches(s, "%")
    decreases |s|
  {
    if s != [] {
      PercentMatchesAll(s[1..]);
    } else {
      assert "%"[1..] == [];
    }
  }

  /** A wildcard-free literal at the head of a pattern must be a prefix of the text. */
  lemma {:induction false} LiteralHead(s: string, t: string, p: string)
    requires NoWildcards(t)
    ensures Matches(s, t + p) <==> t <= s && Matches(s[|t|..], p)
    decreases |t|
  {
    if t != [] {
      assert (t + p)[0] == t[0];
      assert (t + p)[1..] == t[1..] + p;
      if s != [] {
        LiteralHead(s[1..], t[1..], p);
        if |t| <= |s| { assert s[1..][|t| - 1..] == s[|t|..]; }
        assert t <= s <==> t[0] == s[0] && t[1..] <= s[1..];
      }
    } else {
      assert t + p == p;
    }
  }

  /** A leading `%` lets the rest of the pattern match any suffix of the text. */
  lemma {:induction false} LeadingPercent(s: string, p: string)
    ensures Matches(s, "%" + p) <==> exists i {:trigger s[i..]} :: 0 <= i <= |s| && Matches(s[i..], p)
    decreases |s|
  {
    assert ("%" + p)[0] == '%' && ("%" + p)[1..] == p;
    assert s[0..] == s;
    if s != [] {
      LeadingPercent(s[1..], p);
      if Matches(s, "%" + p) && !Matches(s, p) {
        var j :| 0 <= j <= |s[1..]| && Matches(s[1..][j..], p);
        assert s[1..][j..] == s[j + 1..];
      }
      if exists i {:trigger s[i..]} :: 0 <= i <= |s| && Matches(s[i..], p) {
        var i :| 0 <= i <= |s| && Matches(s[i..], p);
        if i > 0 { assert s[1..][i - 1..] == s[i..]; }
      }
    }
  }

  /** With exact character comparison, `%t%` is a contains test and `t%` a
      starts-with test. */
  lemma ContainsPatternExact(s: string, t: string)
    requires NoWildcards(t)
    ensures Matches(s, "%" + t + "%") <==> Contains(s, t)
    ensures Matches(s, t + "%") <==> t <= s
  {
    LiteralHead(s, t, "%");
    if t <= s { PercentMatchesAll(s[|t|..]); }
    assert "%" + t + "%" == "%" + (t + "%");
    LeadingPercent(s, t + "%");
    forall i | 0 <= i <= |s|
      ensures Matches(s[i..], t + "%") <==> t <= s[i..]
    {
      LiteralHead(s[i..], t, "%");
      if t <= s[i..] { PercentMatchesAll(s[i..][|t|..]); }
    }
  }

  lemma LowerKeepsNoWildcards(t: string)
    requires NoWildcards(t)
    ensures NoWildcards(Lower(t))
  {
  }

  /** `col LIKE '%t%'` holds exactly when the text contains `t`, ignoring
      ASCII case; `col LIKE 't%'` exactly when the text starts with `t`. */
  lemma ContainsPattern(s: string, t: string)
    requires NoWildcards(t)
    ensures Like(s, "%" + t + "%") <==> Contains(Lower(s), Lower(t))
    ensures Like(s, t + "%") <==> Lower(t) <= Lower(s)
  {
    LowerKeepsNoWildcards(t);
    LowerConcat("%" + t, "%");
    LowerConcat("%", t);
    LowerConcat(t, "%");
    assert Lower("%") == "%";
    ContainsPatternExact(Lower(s), Lower(t));
  }

  /** A starts-with match is also a contains match, so adding the prefix
      disjunct to a contains disjunct changes nothing. */
  lemma PrefixPatternRedundant(s: string, t: string)
    requires NoWildcards(t)
    ensures Like(s, t + "%") ==> Like(s, "%" + t + "%")
  {
    ContainsPattern(s, t);
    if Lower(t) <= Lower(s) { PrefixContains(Lower(s), Lower(t)); }
  }

  /** SQLite's BINARY collation on TEXT: code-point order, a proper prefix first. */
  predicate TextLe(a: string, b: string)
    decreases |a|
  {
    if a == [] then true
    else if b == [] then false
    else if a[0] != b[0] then a[0] < b[0]
    else TextLe(a[1..], b[1..])
  }

  /** Comparing two strings with a common head comes down to comparing what follows it. */
  lemma {:induction false} TextLeCommonHead(a: string, b: string, k: nat)
    requires k <= |a| && k <= |b| && a[..k] == b[..k]
    ensures TextLe(a, b) == TextLe(a[k..], b[k..])
    decreases k
  {
    if k > 0 {
      assert a[0] == a[..k][0] == b[..k][0] == b[0];
      assert a[1..][..k - 1] == a[..k][1..] == b[..k][1..] == b[1..][..k - 1];
      TextLeCommonHead(a[1..], b[1..], k - 1);
      assert a[1..][k - 1..] == a[k..] && b[1..][k - 1..] == b[k..];
    }
  }
}
