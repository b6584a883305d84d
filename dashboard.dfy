/** The host dashboard's figures: the summary statistics over the host's
    events, the enrolled/available breakdown of the selected event, and the
    day-by-day series of the two charts. Days are whole local days; the
    chart label of a day (`toLocaleDateString`) is not modelled, the day
    number stands for it. */
module Dashboard {
  import opened Wrappers
  import opened JsNumber
  import opened TimeUtils

  /** The members of a row of `/api/events/my` the dashboard reads. */
  datatype HostEvent = HostEvent(enrollmentCount: Option<nat>, capacity: Option<nat>, dateTime: DateInput)

  datatype Stats = Stats(totalEvents: nat, totalEnrollments: nat, averageEnrollments: nat, upcomingEvents: nat)

  /** `event.enrollment_count || 0`. */
  function CountOf(e: HostEvent): nat {
    e.enrollmentCount.GetOr(0)
  }

  /** The `reduce` summing the counts. */
  function TotalEnrollments(evs: seq<HostEvent>): nat {
    if evs == [] then 0 else CountOf(evs[0]) + TotalEnrollments(evs[1..])
  }

  /** `new Date(event.date_time) > new Date()`: false for a date that does not
      parse. */
  predicate IsUpcoming(e: HostEvent, now: int) {
    e.dateTime.At? && e.dateTime.t > now
  }

  function UpcomingCount(evs: seq<HostEvent>, now: int): (r: nat)
    ensures r <= |evs|
  {
    if evs == [] then 0 else (if IsUpcoming(evs[0], now) then 1 else 0) + UpcomingCount(evs[1..], now)
  }

  /** `calculateStats`: the number of events, the sum of their counts, that
      sum divided by the number of events and rounded half up
      (`Math.round`), or 0 without events, and the number of events still
      ahead. */
  function CalculateStats(evs: seq<HostEvent>, now: int): (s: Stats)
    ensures s.totalEvents == |evs| && s.totalEnrollments == TotalEnrollments(evs)
    ensures |evs| == 0 ==> s.averageEnrollments == 0 && s.totalEnrollments == 0
    ensures |evs| > 0 ==>
      (2 * s.averageEnrollments - 1) * |evs| <= 2 * s.totalEnrollments < (2 * s.averageEnrollments + 1) * |evs|
    ensures s.upcomingEvents == UpcomingCount(evs, now) <= s.totalEvents
  {
    var total := TotalEnrollments(evs);
    Stats(|evs|, total, if |evs| > 0 then RoundRatio(total, |evs|) else 0, UpcomingCount(evs, now))
  }

  /** The total adds up over a split of the list. */
  lemma {:induction false} TotalConcat(a: seq<HostEvent>, b: seq<HostEvent>)
    ensures TotalEnrollments(a + b) == TotalEnrollments(a) + TotalEnrollments(b)
  {
    if a == [] {
      assert a + b == b;
    } else {
      assert (a + b)[0] == a[0] && (a + b)[1..] == a[1..] + b;
      TotalConcat(a[1..], b);
    }
  }

  /** Counts bounded by `m` sum to at most `m` per event. */
  lemma {:induction false} TotalBounded(evs: seq<HostEvent>, m: nat)
    requires forall i :: 0 <= i < |evs| ==> CountOf(evs[i]) <= m
    ensures TotalEnrollments(evs) <= |evs| * m
  {
    if evs != [] {
      TotalBounded(evs[1..], m);
    }
  }

  /** The average never exceeds the largest count. */
  lemma AverageAtMostMax(evs: seq<HostEvent>, now: int, m: nat)
    requires forall i :: 0 <= i < |evs| ==> CountOf(evs[i]) <= m
    ensures CalculateStats(evs, now).averageEnrollments <= m
  {
    var s := CalculateStats(evs, now);
    if |evs| > 0 {
      TotalBounded(evs, m);
      RoundedAtMost(s.averageEnrollments, s.totalEnrollments, |evs|, m);
    }
  }

  /** A ratio rounded half up stays within a bound on the ratio itself. */
  lemma RoundedAtMost(r: int, total: int, n: int, m: int)
    requires n > 0 && (2 * r - 1) * n <= 2 * total && total <= n * m
    ensures r <= m
  {
    assert 2 * (n * m) == (2 * m) * n;
    MulCancel(2 * r - 1, 2 * m, n);
  }

  lemma MulCancel(a: int, b: int, n: int)
    requires n > 0 && a * n <= b * n
    ensures a <= b
  {
    assert (b - a) * n == b * n - a * n;
  }

  /** Fewer events are ahead as time goes on. */
  lemma {:induction false} UpcomingDecreases(evs: seq<HostEvent>, now: int, later: int)
    requires now <= later
    ensures UpcomingCount(evs, later) <= UpcomingCount(evs, now)
  {
    if evs != [] {
      UpcomingDecreases(evs[1..], now, later);
    }
  }

  // ---------------------------------------------------------------------
  // Breakdown of the selected event

  datatype Breakdown = Breakdown(enrolled: nat, available: nat)

  /** `Math.max(0, (capacity || 100) - (enrollment_count || 0))`: a missing or
      zero capacity counts as 100. */
  function CategoryBreakdown(e: HostEvent): (b: Breakdown)
    ensures b.enrolled == CountOf(e)
    ensures var cap := if e.capacity.Some? && e.capacity.value != 0 then e.capacity.value else 100;
      b.enrolled + b.available == (if b.enrolled > cap then b.enrolled else cap)
      && (b.available == 0 <==> b.enrolled >= cap)
  {
    var cap := if e.capacity.Some? && e.capacity.value != 0 then e.capacity.value else 100;
    var free := cap - CountOf(e);
    Breakdown(CountOf(e), if free > 0 then free else 0)
  }

  // ---------------------------------------------------------------------
  // Day series

  /** One point of a chart: the day and its value. */
  datatype Point = Point(day: int, total: nat)

  /** The number of history entries on `day`; `None` is an `enrolled_at`
      that does not parse, which matches no day. */
  function CountOn(history: seq<Option<int>>, day: int): (r: nat)
    ensures r <= |history|
  {
    if history == [] then 0 else (if history[0] == Some(day) then 1 else 0) + CountOn(history[1..], day)
  }

  /** The series a chart shows: `days` points (none when `days <= 0`), from
      `days - 1` days ago up to today, each holding `value(day)`. */
  function Series(days: int, today: int, value: int -> nat): (r: seq<Point>)
    ensures |r| == if days > 0 then days else 0
  {
    var n := if days > 0 then days else 0;
    seq(n, k => Point(today - (n - 1 - k), value(today - (n - 1 - k))))
  }

  /** The series of `generateEnrollmentTrend`: the current count on every day
      when there is no history, else the number of enrollments of each day. */
  function TrendSpec(days: int, today: int, history: seq<Option<int>>, current: nat): seq<Point> {
    if history == [] then Series(days, today, _ => current)
    else Series(days, today, d => CountOn(history, d))
  }

  /** The loop `for (let i = days - 1; i >= 0; i--)` pushing one point per day. */
  method ConstantSeries(days: int, today: int, current: nat) returns (data: seq<Point>)
    ensures data == Series(days, today, _ => current)
  {
    data := [];
    var i := days - 1;
    ghost var n := if days > 0 then days else 0;
    while i >= 0
      invariant days <= 0 ==> i == days - 1 && data == []
      invariant days > 0 ==> -1 <= i < n && |data| == n - 1 - i
      invariant forall k :: 0 <= k < |data| ==> data[k] == Point(today - (n - 1 - k), current)
    {
      var date := today - i;
      data := data + [Point(date, current)];
      i := i - 1;
    }
  }

  method CountSeries(days: int, today: int, history: seq<Option<int>>) returns (data: seq<Point>)
    ensures data == Series(days, today, d => CountOn(history, d))
  {
    data := [];
    var i := days - 1;
    ghost var n := if days > 0 then days else 0;
    while i >= 0
      invariant days <= 0 ==> i == days - 1 && data == []
      invariant days > 0 ==> -1 <= i < n && |data| == n - 1 - i
      invariant forall k :: 0 <= k < |data| ==> data[k] == Point(today - (n - 1 - k), CountOn(history, today - (n - 1 - k)))
    {
      var date := today - i;
      var onDate := CountOn(history, date);
      data := data + [Point(date, onDate)];
      i := i - 1;
    }
  }

  /** `generateEnrollmentTrend`. */
  method EnrollmentTrend(days: int, today: int, history: seq<Option<int>>, selected: HostEvent)
    returns (data: seq<Point>)
    ensures data == TrendSpec(days, today, history, CountOf(selected))
  {
    if history == [] {
      data := ConstantSeries(days, today, CountOf(selected));
    } else {
      data := CountSeries(days, today, history);
    }
  }

  /** `generateMonthlyEvents`: the same series, with zeros when no event is
      selected (a branch the caller never reaches, see `ChartData`). */
  method MonthlyEvents(days: int, today: int, history: seq<Option<int>>, selected: Option<HostEvent>)
    returns (data: seq<Point>)
    ensures selected.None? ==> data == Series(days, today, _ => 0)
    ensures selected.Some? ==> data == TrendSpec(days, today, history, CountOf(selected.value))
  {
    if selected.None? {
      data := ConstantSeries(days, today, 0);
    } else {
      data := EnrollmentTrend(days, today, history, selected.value);
    }
  }

  datatype Charts = Charts(enrollmentTrend: seq<Point>, categoryBreakdown: Option<Breakdown>, monthlyEvents: seq<Point>)

  /** `getChartData`: nothing without a selected event, else the two series
      for their periods and the breakdown. */
  method ChartData(selected: Option<HostEvent>, trendDays: int, monthlyDays: int, today: int,
                   history: seq<Option<int>>) returns (c: Charts)
    ensures selected.None? ==> c == Charts([], None, [])
    ensures selected.Some? ==>
      c == Charts(TrendSpec(trendDays, today, history, CountOf(selected.value)),
                  Some(CategoryBreakdown(selected.value)),
                  TrendSpec(monthlyDays, today, history, CountOf(selected.value)))
  {
    if selected.None? {
      return Charts([], None, []);
    }
    var trend := EnrollmentTrend(trendDays, today, history, selected.value);
    var monthly := MonthlyEvents(monthlyDays, today, history, selected);
    c := Charts(trend, Some(CategoryBreakdown(selected.value)), monthly);
  }

  /** The series has `days` points on consecutive days, the last one today,
      and with no history every point is the current count. */
  lemma TrendShape(days: int, today: int, history: seq<Option<int>>, current: nat)
    ensures var r := TrendSpec(days, today, history, current);
      |r| == (if days > 0 then days else 0)
      && (forall k :: 0 < k < |r| ==> r[k].day == r[k - 1].day + 1)
      && (|r| > 0 ==> r[|r| - 1].day == today)
      && (history == [] ==> forall k :: 0 <= k < |r| ==> r[k].total == current)
      && (history != [] ==> forall k :: 0 <= k < |r| ==> r[k].total == CountOn(history, r[k].day))
  {
  }

  function SumTotals(points: seq<Point>): nat {
    if points == [] then 0 else points[0].total + SumTotals(points[1..])
  }

  function Days(points: seq<Point>): seq<int> {
    seq(|points|, k requires 0 <= k < |points| => points[k].day)
  }

  /** How often `x` appears among `days`. */
  function Hits(x: Option<int>, days: seq<int>): nat {
    if days == [] then 0 else (if x == Some(days[0]) then 1 else 0) + Hits(x, days[1..])
  }

  /** The sum of the day counts over `days`. */
  function SumOver(history: seq<Option<int>>, days: seq<int>): nat {
    if days == [] then 0 else CountOn(history, days[0]) + SumOver(history, days[1..])
  }

  predicate Increasing(days: seq<int>) {
    forall i, j :: 0 <= i < j < |days| ==> days[i] < days[j]
  }

  lemma {:induction false} HitsAtMostOne(x: Option<int>, days: seq<int>)
    requires Increasing(days)
    ensures Hits(x, days) <= 1
  {
    if days != [] {
      HitsAtMostOne(x, days[1..]);
      if x == Some(days[0]) {
        HitsNone(x, days[1..]);
      }
    }
  }

  lemma {:induction false} HitsNone(x: Option<int>, days: seq<int>)
    requires forall i :: 0 <= i < |days| ==> x != Some(days[i])
    ensures Hits(x, days) == 0
  {
    if days != [] {
      HitsNone(x, days[1..]);
    }
  }

  /** Taking off the first history entry takes off its hits. */
  lemma {:induction false} SumOverStep(history: seq<Option<int>>, days: seq<int>)
    requires history != []
    ensures SumOver(history, days) == Hits(history[0], days) + SumOver(history[1..], days)
  {
    if days != [] {
      SumOverStep(history, days[1..]);
    }
  }

  /** Over distinct days each enrollment is counted at most once. */
  lemma {:induction false} SumOverBound(history: seq<Option<int>>, days: seq<int>)
    requires Increasing(days)
    ensures SumOver(history, days) <= |history|
  {
    if history == [] {
      SumOverEmpty(days);
    } else {
      SumOverStep(history, days);
      HitsAtMostOne(history[0], days);
      SumOverBound(history[1..], days);
    }
  }

  lemma {:induction false} SumOverEmpty(days: seq<int>)
    ensures SumOver([], days) == 0
  {
    if days != [] {
      SumOverEmpty(days[1..]);
    }
  }

  lemma {:induction false} SumTotalsOfCounts(points: seq<Point>, history: seq<Option<int>>)
    requires forall k :: 0 <= k < |points| ==> points[k].total == CountOn(history, points[k].day)
    ensures SumTotals(points) == SumOver(history, Days(points))
  {
    if points != [] {
      assert Days(points)[1..] == Days(points[1..]);
      SumTotalsOfCounts(points[1..], history);
    }
  }

  /** With a history, the points of a series sum to at most the number of
      enrollments in it: no enrollment is counted on two days. */
  lemma TrendSumBound(days: int, today: int, history: seq<Option<int>>, current: nat)
    requires history != []
    ensures SumTotals(TrendSpec(days, today, history, current)) <= |history|
  {
    var r := TrendSpec(days, today, history, current);
    TrendShape(days, today, history, current);
    SumTotalsOfCounts(r, history);
    var ds := Days(r);
    assert Increasing(ds) by {
      forall i, j | 0 <= i < j < |ds|
        ensures ds[i] < ds[j]
      {
      }
    }
    SumOverBound(history, ds);
  }
}
