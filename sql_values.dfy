/** Values bound to the `?` placeholders of a query, and how SQLite compares
    a column with a bound value, including one of another kind than the
    column's (a text bound against an INTEGER column, an integer against a
    TEXT column), as happens when a value lands on the wrong placeholder. */
module SqlValues {
  import opened Wrappers
  import opened SqlText
  import opened JsNumber
  import opened Records

  /** A bound parameter: a user id, a text, an event time (the model's
      stand-in for a date text), or a JavaScript number; a NaN number is
      bound as SQL null. */
  datatype Param = UserParam(u: UserId) | TextParam(s: string) | TimeParam(t: int) | NumParam(n: Num)

  /** The comparisons the queries make between a column and a placeholder. */
  datatype Op = Equal | LikeMatch | AtLeast | AtMost

  /** A column value met by a placeholder: an integer, a text, or an event
      time (whose stored text the model leaves abstract). */
  datatype Cell = IntCell(i: int) | TextCell(s: string) | TimeCell(t: int)

  /** SQLite's verdict on a comparison that turns on a text rendering the
      model leaves abstract: a number or a date met by a TEXT or date
      column, or a text that may read as a number met by an INTEGER column.
      All facts stated about bound values hold for every such verdict. */
  type Mixed = (Op, Cell, Param) -> bool

  predicate IsNull(p: Param) {
    p.NumParam? && p.n.NaN?
  }

  /** A character that can occur in a numeric literal SQLite reads from a
      text (digits, signs, point, exponent, surrounding white space). */
  predicate NumericChar(c: char) {
    ('0' <= c <= '9') || c == '+' || c == '-' || c == '.' || c == 'e' || c == 'E'
    || c == ' ' || c == '\t' || c == '\n' || c == '\r' || c == '\U{000B}' || c == '\U{000C}'
  }

  /** A text SQLite cannot read as a number: empty, or holding a character
      that no numeric literal has. Such a text keeps its TEXT class against
      an INTEGER column. */
  predicate NeverNumeric(s: string) {
    s == [] || exists i :: 0 <= i < |s| && !NumericChar(s[i])
  }

  /** The text a bound value has against a TEXT column or under LIKE: a text
      as itself, an integer as its decimal form (the column's TEXT affinity
      converts it). Numbers and dates are left to `Mixed`. */
  function BoundText(p: Param): (r: Option<string>)
    ensures p.TextParam? ==> r == Some(p.s)
    ensures p.UserParam? ==> r == Some(IntToString(p.u))
    ensures p.TimeParam? || p.NumParam? ==> r.None?
  {
    match p
    case TextParam(s) => Some(s)
    case UserParam(u) => Some(IntToString(u))
    case _ => None
  }

  /** `col = ?` or `col LIKE ?` on a nullable TEXT column: null on either
      side never matches. */
  predicate TextCompare(op: Op, col: Option<string>, p: Param, mixed: Mixed) {
    col.Some? && !IsNull(p)
    && if BoundText(p).Some? then
         (if op == LikeMatch then Like(col.value, BoundText(p).value) else col.value == BoundText(p).value)
       else mixed(op, TextCell(col.value), p)
  }

  /** `x = n`, `x >= n`, `x <= n` for an integer `x` and a JavaScript number:
      NaN is null and fails, an infinity compares as one. */
  predicate NumCompare(op: Op, x: int, n: Num) {
    match n
    case NaN => false
    case Infinity(positive) => (op == AtLeast && !positive) || (op == AtMost && positive)
    case Finite(v) =>
      (op == Equal && x as real == v) || (op == AtLeast && x as real >= v) || (op == AtMost && x as real <= v)
  }

  /** `col = ?`, `col >= ?` or `col <= ?` on a nullable INTEGER column.
      Numbers compare numerically. A text that cannot be a number, and a
      date text, stay TEXT, and SQLite orders every integer below every
      text: only `<=` holds. */
  predicate IntCompare(op: Op, col: Option<int>, p: Param, mixed: Mixed) {
    col.Some? && match p
      case UserParam(u) => NumCompare(op, col.value, Finite(u as real))
      case NumParam(n) => NumCompare(op, col.value, n)
      case TimeParam(_) => op == AtMost
      case TextParam(s) => if NeverNumeric(s) then op == AtMost else mixed(op, IntCell(col.value), p)
  }

  /** `col >= ?` or `col <= ?` on the NOT NULL date column. */
  predicate TimeCompare(op: Op, t: int, p: Param, mixed: Mixed) {
    match p
    case TimeParam(b) => (op == AtLeast && t >= b) || (op == AtMost && t <= b) || (op == Equal && t == b)
    case _ => !IsNull(p) && mixed(op, TimeCell(t), p)
  }

  /** A user id against an INTEGER column, and a text against a TEXT
      column, compare as the values themselves. */
  lemma SameKindCompare(x: int, u: UserId, col: Option<string>, s: string, mixed: Mixed)
    ensures IntCompare(Equal, Some(x), UserParam(u), mixed) <==> x == u
    ensures TextCompare(Equal, col, TextParam(s), mixed) <==> col == Some(s)
    ensures TextCompare(LikeMatch, col, TextParam(s), mixed) <==> col.Some? && Like(col.value, s)
  {
  }

  /** A text that cannot be a number never equals an integer column's value. */
  lemma TextNeverEqualsInteger(x: int, s: string, mixed: Mixed)
    requires NeverNumeric(s)
    ensures !IntCompare(Equal, Some(x), TextParam(s), mixed)
  {
  }

  /** A user id met by a TEXT column compares as its decimal digits. */
  lemma UserIdAgainstText(col: Option<string>, u: UserId, mixed: Mixed)
    ensures TextCompare(Equal, col, UserParam(u), mixed) <==> col == Some(IntToString(u))
  {
  }
}
