/** String helpers with JavaScript's meaning: `trim`, ASCII case mapping,
    `includes`, `startsWith`, `join`, and truthiness of optional strings. */
module Text {
  import opened Wrappers

  /** The characters JavaScript's `String.prototype.trim` removes: white space
      and line terminators. */
  predicate IsWhite(c: char) {
    c == ' ' || c == '\t' || c == '\n' || c == '\r' || c == '\U{000B}' || c == '\U{000C}'
    || c == '\U{00A0}' || c == '\U{FEFF}' || c == '\U{1680}' || ('\U{2000}' <= c <= '\U{200A}')
    || c == '\U{2028}' || c == '\U{2029}' || c == '\U{202F}' || c == '\U{205F}' || c == '\U{3000}'
  }

  predicate AllWhite(s: string) {
    forall i :: 0 <= i < |s| ==> IsWhite(s[i])
  }

  /** `s` with its leading white space removed. */
  function TrimStart(s: string): (r: string)
    ensures |r| <= |s| && r == s[|s| - |r|..]
  {
    if s == [] || !IsWhite(s[0]) then s else TrimStart(s[1..])
  }

  /** `s` with its trailing white space removed. */
  function TrimEnd(s: string): (r: string)
    ensures |r| <= |s| && r == s[..|r|]
  {
    if s == [] || !IsWhite(s[|s| - 1]) then s else TrimEnd(s[..|s| - 1])
  }

  /** What `TrimStart` removes is white space, and what it keeps does not
      start with white space. */
  lemma TrimStartFacts(s: string)
    ensures var r := TrimStart(s);
      (forall i :: 0 <= i < |s| - |r| ==> IsWhite(s[i])) && (r != [] ==> !IsWhite(r[0]))
  {
    TrimStartRemoved(s);
    TrimStartFirst(s);
  }

  lemma {:induction false} TrimStartRemoved(s: string)
    ensures var r := TrimStart(s); forall i :: 0 <= i < |s| - |r| ==> IsWhite(s[i])
  {
    if s != [] && IsWhite(s[0]) {
      var r := TrimStart(s[1..]);
      TrimStartRemoved(s[1..]);
      forall i | 0 < i < |s| - |r|
        ensures IsWhite(s[i])
      {
        assert s[i] == s[1..][i - 1];
      }
    }
  }

  lemma {:induction false} TrimStartFirst(s: string)
    ensures var r := TrimStart(s); r != [] ==> !IsWhite(r[0])
  {
    if s != [] && IsWhite(s[0]) {
      TrimStartFirst(s[1..]);
    }
  }

  /** What `TrimEnd` removes is white space, and what it keeps does not end
      with white space. */
  lemma TrimEndFacts(s: string)
    ensures var r := TrimEnd(s);
      (forall i :: |r| <= i < |s| ==> IsWhite(s[i])) && (r != [] ==> !IsWhite(r[|r| - 1]))
  {
    TrimEndRemoved(s);
    TrimEndLast(s);
  }

  lemma {:induction false} TrimEndRemoved(s: string)
    ensures var r := TrimEnd(s); forall i :: |r| <= i < |s| ==> IsWhite(s[i])
  {
    if s != [] && IsWhite(s[|s| - 1]) {
      var r := TrimEnd(s[..|s| - 1]);
      TrimEndRemoved(s[..|s| - 1]);
      forall i | |r| <= i < |s| - 1
        ensures IsWhite(s[i])
      {
        assert s[i] == s[..|s| - 1][i];
      }
    }
  }

  lemma {:induction false} TrimEndLast(s: string)
    ensures var r := TrimEnd(s); r != [] ==> !IsWhite(r[|r| - 1])
  {
    if s != [] && IsWhite(s[|s| - 1]) {
      TrimEndLast(s[..|s| - 1]);
    }
  }

  /** JavaScript `s.trim()`: `s` without its leading and trailing white space. */
  function Trim(s: string): (r: string)
    ensures |r| <= |s|
  {
    TrimEnd(TrimStart(s))
  }

  /** What trimming leaves: the ends are not white space, and nothing is left
      exactly when `s` is all white space. */
  lemma TrimEnds(s: string)
    ensures var r := Trim(s);
      (r != [] ==> !IsWhite(r[0]) && !IsWhite(r[|r| - 1]))
      && (r == [] <==> AllWhite(s))
  {
    TrimNotWhiteAtEnds(s);
    if AllWhite(s) {
      TrimEmptyWhenWhite(s);
    }
    if Trim(s) == [] {
      TrimEmptyOnlyWhenWhite(s);
    }
  }

  lemma TrimNotWhiteAtEnds(s: string)
    ensures var r := Trim(s); r != [] ==> !IsWhite(r[0]) && !IsWhite(r[|r| - 1])
  {
    var t := TrimStart(s);
    var r := TrimEnd(t);
    if r != [] {
      TrimStartFirst(s);
      TrimEndLast(t);
      PrefixStart(t, r);
    }
  }


  lemma PrefixStart(t: string, r: string)
    requires r != [] && |r| <= |t| && r == t[..|r|] && (t != [] ==> !IsWhite(t[0]))
    ensures !IsWhite(r[0])
  {
    assert r[0] == t[0];
  }

  lemma TrimEmptyWhenWhite(s: string)
    requires AllWhite(s)
    ensures Trim(s) == []
  {
    var t := TrimStart(s);
    TrimStartFacts(s);
    if t != [] {
      assert false;
    }
  }

  lemma TrimEmptyOnlyWhenWhite(s: string)
    requires Trim(s) == []
    ensures AllWhite(s)
  {
    var t := TrimStart(s);
    TrimStartFacts(s);
    TrimEndFacts(t);
    if t != [] {
      assert false;
    }
  }

  /** Trimming keeps a string whose ends are not white space. */
  lemma TrimKeeps(s: string)
    requires s != [] && !IsWhite(s[0]) && !IsWhite(s[|s| - 1])
    ensures Trim(s) == s
  {
  }

  /** Trimming twice is trimming once. */
  lemma TrimIdempotent(s: string)
    ensures Trim(Trim(s)) == Trim(s)
  {
    var r := Trim(s);
    if r != [] {
      TrimNotWhiteAtEnds(s);
      TrimKeeps(r);
    } else {
      assert Trim(r) == [] by { assert TrimStart(r) == []; }
    }
  }

  /** A string is blank when trimming leaves nothing (`!s.trim()`). */
  predicate IsBlank(s: string) {
    Trim(s) == ""
  }

  /** ASCII upper-case letters map to lower case; every other character is kept. */
  function LowerChar(c: char): char {
    if 'A' <= c <= 'Z' then (c as int + 32) as char else c
  }

  function UpperChar(c: char): char {
    if 'a' <= c <= 'z' then (c as int - 32) as char else c
  }

  /** JavaScript `s.toLowerCase()`, for the ASCII letters. */
  function Lower(s: string): (r: string)
    ensures |r| == |s| && forall i :: 0 <= i < |s| ==> r[i] == LowerChar(s[i])
  {
    seq(|s|, i requires 0 <= i < |s| => LowerChar(s[i]))
  }

  /** JavaScript `s.toUpperCase()`, for the ASCII letters. */
  function Upper(s: string): (r: string)
    ensures |r| == |s| && forall i :: 0 <= i < |s| ==> r[i] == UpperChar(s[i])
  {
    seq(|s|, i requires 0 <= i < |s| => UpperChar(s[i]))
  }

  lemma LowerIdempotent(s: string)
    ensures Lower(Lower(s)) == Lower(s)
  {
  }

  lemma LowerConcat(a: string, b: string)
    ensures Lower(a + b) == Lower(a) + Lower(b)
  {
    assert Lower(a + b) == Lower(a) + Lower(b);
  }

  /** JavaScript `s.includes(t)`: `t` occurs in `s` at some offset. */
  predicate Contains(s: string, t: string) {
    exists i {:trigger s[i..]} :: 0 <= i <= |s| && t <= s[i..]
  }

  /** Every string that starts with `t` contains `t`. */
  lemma PrefixContains(s: string, t: string)
    requires t <= s
    ensures Contains(s, t)
  {
    assert s[0..] == s;
  }

  /** JavaScript truthiness of an optional string: present and non-empty. */
  predicate Truthy(o: Option<string>) {
    o.Some? && o.value != ""
  }

  /** JavaScript `a || b` on optional strings. */
  function OrElse(a: Option<string>, b: Option<string>): (r: Option<string>)
    ensures Truthy(a) ==> r == a
    ensures !Truthy(a) ==> r == b
  {
    if Truthy(a) then a else b
  }

  /** JavaScript `x || fallback` on an optional string and a string. */
  function TextOr(x: Option<string>, fallback: string): (r: string)
    ensures Truthy(x) ==> r == x.value
    ensures !Truthy(x) ==> r == fallback
  {
    if Truthy(x) then x.value else fallback
  }

  /** The truthy strings of `parts`, in order (`parts.filter(Boolean)`). */
  function PresentParts(parts: seq<Option<string>>): (r: seq<string>)
    ensures forall x :: x in r ==> x != "" && Some(x) in parts
    ensures |r| <= |parts|
  {
    if parts == [] then []
    else (if Truthy(parts[0]) then [parts[0].value] else []) + PresentParts(parts[1..])
  }

  /** Nothing is kept when no part is a non-empty string. */
  lemma {:induction false} PresentPartsOfAbsent(parts: seq<Option<string>>)
    requires forall i :: 0 <= i < |parts| ==> !Truthy(parts[i])
    ensures PresentParts(parts) == []
  {
    if parts != [] {
      PresentPartsOfAbsent(parts[1..]);
    }
  }

  /** JavaScript `parts.join(sep)`. */
  function Join(parts: seq<string>, sep: string): string {
    if parts == [] then ""
    else if |parts| == 1 then parts[0]
    else parts[0] + sep + Join(parts[1..], sep)
  }

  /** The position of the first `c` in `s`, if any. */
  function IndexOf(s: string, c: char): (r: Option<nat>)
    ensures r.Some? ==> r.value < |s| && s[r.value] == c && c !in s[..r.value]
    ensures r.None? ==> c !in s
  {
    if s == [] then None
    else if s[0] == c then Some(0)
    else
      var r := IndexOf(s[1..], c);
      if r.None? then None
      else
        assert s[..r.value + 1] == [s[0]] + s[1..][..r.value];
        Some(r.value + 1)
  }

  /** `IndexOf` finds the first occurrence. */
  lemma {:induction false} IndexOfFirst(s: string, c: char, k: int)
    requires 0 <= k < |s| && s[k] == c && c !in s[..k]
    ensures IndexOf(s, c) == Some(k)
  {
    if k > 0 {
      assert s[..k][0] == s[0];
      assert s[1..][..k - 1] == s[..k][1..];
      IndexOfFirst(s[1..], c, k - 1);
    }
  }

  /** JavaScript `s.split(sep)` for a one-character separator: the pieces
      between the separators, in order. */
  function Split(s: string, sep: char): (r: seq<string>)
    ensures |r| >= 1
    ensures forall k :: 0 <= k < |r| ==> sep !in r[k]
  {
    match IndexOf(s, sep)
    case None => [s]
    case Some(i) => [s[..i]] + Split(s[i + 1..], sep)
  }

  /** Joining the pieces of a split with the separator gives the string back. */
  lemma {:induction false} JoinSplit(s: string, sep: char)
    ensures Join(Split(s, sep), [sep]) == s
  {
    match IndexOf(s, sep)
    case None =>
    case Some(i) =>
      var rest := Split(s[i + 1..], sep);
      var r := [s[..i]] + rest;
      assert r[0] == s[..i] && r[1..] == rest;
      assert Join(r, [sep]) == s[..i] + [sep] + Join(rest, [sep]);
      JoinSplit(s[i + 1..], sep);
      assert s == s[..i] + [sep] + s[i + 1..];
  }

  /** `s.includes(c)` for a single character. */
  lemma ContainsChar(s: string, c: char)
    ensures Contains(s, [c]) <==> c in s
  {
    if c in s {
      var i :| 0 <= i < |s| && s[i] == c;
      assert [c] <= s[i..];
    }
    if Contains(s, [c]) {
      var i :| 0 <= i <= |s| && [c] <= s[i..];
      assert s[i] == c;
    }
  }

  /** The first `n` elements of `s`, or all of them (JavaScript `slice(0, n)`
      for `n >= 0`). */
  function Take<T>(s: seq<T>, n: int): (r: seq<T>)
    ensures |r| == if n < 0 then 0 else if n < |s| then n else |s|
    ensures r <= s
  {
    if n <= 0 then [] else if n < |s| then s[..n] else s
  }
}
