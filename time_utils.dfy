/** The expiry helpers shared by the pages: whether an event's time has
    passed, and the date label of an event card. */
module TimeUtils {
  import opened Wrappers

  /** An event's `date_time` as the helpers see it: missing (or empty), text
      that does not parse as a date, or a parsed instant in seconds. */
  datatype DateInput = Missing | Unparsable | At(t: int)

  /** `isEventExpired`: a missing date is never expired; otherwise the event
      is expired exactly when its instant is strictly before `now`. An
      unparsable date compares as NaN and so is not expired either. */
  predicate IsEventExpired(d: DateInput, now: int) {
    match d
    case Missing => false
    case Unparsable => false
    case At(t) => t < now
  }

  /** The visible form of a date: "TBD", or the locale rendering of the
      instant (the rendering itself is not modelled). */
  datatype Label = Tbd | Localized(d: DateInput)

  datatype DateInfo = DateInfo(formatted: Label, isExpired: bool, date: Option<DateInput>)

  /** `formatEventDate`. */
  function FormatEventDate(d: DateInput, now: int): (r: DateInfo)
    ensures d.Missing? ==> r == DateInfo(Tbd, false, None)
    ensures !d.Missing? ==> r.formatted == Localized(d) && r.date == Some(d)
    ensures r.isExpired == IsEventExpired(d, now)
  {
    if d.Missing? then DateInfo(Tbd, false, None)
    else DateInfo(Localized(d), d.At? && d.t < now, Some(d))
  }

  /** An event exactly at `now` is not expired, one a second earlier is. */
  lemma ExpiryBoundary(t: int)
    ensures !IsEventExpired(At(t), t)
    ensures IsEventExpired(At(t - 1), t)
  {
  }

  /** Expiry is monotone in time: once expired, an event stays expired. */
  lemma ExpiryMonotone(d: DateInput, now: int, later: int)
    requires now <= later && IsEventExpired(d, now)
    ensures IsEventExpired(d, later)
  {
  }
}
