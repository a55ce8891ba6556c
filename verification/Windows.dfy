/** Working windows: when a staff member can work at a branch, as real instants. */
module Windows {
  import opened Intervals
  import opened Sorting
  import opened Spans
  import opened Calendar
  import opened Weekly
  import opened Schedules

  datatype WindowsInput = WindowsInput(
    zone: Zone, opening: WeeklyHours, closed: set<int>, plan: Plan, timeOff: seq<Span>)
  {
    ghost predicate Valid() { zone.Valid() && HoursValid() }

    ghost predicate HoursValid() { Weekly.Valid(opening) && plan.Valid() }

    /** t is within x, read as wall-clock times on the date. */
    predicate Within(date: int, x: DayInterval, t: int) {
      zone.At(date, x.start) <= t < zone.At(date, x.start + x.minutes)
    }

    /** The branch is open at t: within an opening interval of some date, any date. */
    ghost predicate Open(t: int) {
      exists date, x: DayInterval :: x.On(Weekday(date)) in opening.intervals && Within(date, x, t)
    }

    /** t is within an interval the schedule starts on some date. */
    ghost predicate Scheduled(t: int) {
      exists date, x: DayInterval :: plan.Starts(date, x) && Within(date, x, t)
    }

    /** The plain formula: open and scheduled, on no closed date, in no time off. */
    ghost predicate Working(t: int) {
      Open(t) && Scheduled(t) && zone.DateOf(t) !in closed && !In(t, timeOff)
    }

    /** The list is the working instants of [from, to), in normal form. */
    ghost predicate AreWindows(from: int, to: int, windows: seq<Span>) {
      Separated(windows) && forall t :: In(t, windows) <==> from <= t < to && Working(t)
    }

    /** Starting a day early and ending on the last day loses nothing: only those
        dates' intervals can reach into [from, to). */
    lemma DateInReach(date: int, x: DayInterval, t: int, from: int, to: int)
      requires zone.Valid() && from <= t < to
      requires 0 <= x.start && x.start + x.minutes <= 2 * MINUTES_PER_DAY
      requires Within(date, x, t)
      ensures zone.DateOf(from) - 1 <= date <= zone.DateOf(to)
    {
      assert zone.Cuts(date * MINUTES_PER_DAY + x.start, date);
      assert zone.Cuts(date * MINUTES_PER_DAY + (x.start + x.minutes), date + 2);
      assert zone.Midnight(date) <= t < zone.Midnight(date + 2);
      if date + 2 <= zone.DateOf(from) { zone.MidnightsInOrder(date + 2, zone.DateOf(from)); }
      if zone.DateOf(to) + 1 <= date { zone.MidnightsInOrder(zone.DateOf(to) + 1, date); }
    }
  }

  /** The windows are determined: two lists that both are the windows are equal. */
  lemma WindowsUnique(input: WindowsInput, from: int, to: int, v: seq<Span>, w: seq<Span>)
    requires input.AreWindows(from, to, v) && input.AreWindows(from, to, w)
    ensures v == w
  {
    NormalFormUnique(v, w);
  }

  /** t is within an opening interval of a date the loop has passed. */
  ghost predicate OpenUpTo(input: WindowsInput, first: int, d: int, t: int) {
    exists date :: first <= date < d && OpenOn(input, date, t)
  }

  ghost predicate ScheduledUpTo(input: WindowsInput, first: int, d: int, t: int) {
    exists date :: first <= date < d && ScheduledOn(input, date, t)
  }

  ghost predicate ClosedUpTo(input: WindowsInput, first: int, d: int, t: int) {
    exists date :: first <= date < d && ClosedOn(input, date, t)
  }

  predicate ClosedOn(input: WindowsInput, date: int, t: int) {
    date in input.closed && input.zone.Midnight(date) <= t < input.zone.Midnight(date + 1)
  }

  /** One of the two inner loops: a date's intervals as spans. */
  method AppendDay(spans: seq<Span>, input: WindowsInput, date: int, xs: seq<DayInterval>) returns (out: seq<Span>)
    ensures forall t :: In(t, out) <==> In(t, spans) || exists x :: x in xs && input.Within(date, x, t)
  {
    out := spans;
    for n := 0 to |xs|
      invariant forall t :: In(t, out) <==> In(t, spans) || exists x :: x in xs[..n] && input.Within(date, x, t)
    {
      ghost var before := out;
      out := AppendSpan(out, input.zone.At(date, xs[n].start), input.zone.At(date, xs[n].start + xs[n].minutes));
      assert xs[..n + 1] == xs[..n] + [xs[n]];
      assert forall t :: In(t, out) <==> In(t, before) || input.Within(date, xs[n], t);
    }
    assert xs[..|xs|] == xs;
  }

  method ExpandOpening(input: WindowsInput, date: int, open: seq<Span>) returns (out: seq<Span>)
    ensures forall t :: In(t, out) <==> In(t, open) || OpenOn(input, date, t)
  {
    var xs := StartingOn(input.opening, Weekday(date));
    out := AppendDay(open, input, date, xs);
  }

  method ExpandSchedule(input: WindowsInput, date: int, work: seq<Span>) returns (out: seq<Span>)
    ensures forall t :: In(t, out) <==> In(t, work) || ScheduledOn(input, date, t)
  {
    var xs := StartingByPlan(input.plan, date);
    out := AppendDay(work, input, date, xs);
  }

  method ExpandClosure(input: WindowsInput, date: int, closed: seq<Span>) returns (out: seq<Span>)
    ensures forall t :: In(t, out) <==> In(t, closed) || ClosedOn(input, date, t)
  {
    out := closed;
    if date in input.closed {
      out := AppendSpan(closed, input.zone.At(date, 0), input.zone.At(date + 1, 0));
    }
  }

  /** The loop over dates: opening, schedule and closures as spans. */
  method Expand(input: WindowsInput, first: int, last: int)
    returns (open: seq<Span>, work: seq<Span>, closed: seq<Span>)
    requires first <= last
    ensures forall t :: In(t, open) <==> OpenUpTo(input, first, last + 1, t)
    ensures forall t :: In(t, work) <==> ScheduledUpTo(input, first, last + 1, t)
    ensures forall t :: In(t, closed) <==> ClosedUpTo(input, first, last + 1, t)
  {
    open, work, closed := [], [], [];
    var d := first;
    while d <= last
      invariant first <= d <= last + 1
      invariant forall t :: In(t, open) <==> OpenUpTo(input, first, d, t)
      invariant forall t :: In(t, work) <==> ScheduledUpTo(input, first, d, t)
      invariant forall t :: In(t, closed) <==> ClosedUpTo(input, first, d, t)
      decreases last - d
    {
      OneMoreDate(input, first, d);
      open := ExpandOpening(input, d, open);
      work := ExpandSchedule(input, d, work);
      closed := ExpandClosure(input, d, closed);
      d := d + 1;
    }
  }

  ghost predicate OpenOn(input: WindowsInput, date: int, t: int) {
    exists x: DayInterval :: x.On(Weekday(date)) in input.opening.intervals && input.Within(date, x, t)
  }

  ghost predicate ScheduledOn(input: WindowsInput, date: int, t: int) {
    exists x: DayInterval :: input.plan.Starts(date, x) && input.Within(date, x, t)
  }

  lemma OneMoreDate(input: WindowsInput, first: int, d: int)
    requires first <= d
    ensures forall t :: OpenUpTo(input, first, d + 1, t) <==> OpenUpTo(input, first, d, t) || OpenOn(input, d, t)
    ensures forall t :: ScheduledUpTo(input, first, d + 1, t) <==>
              ScheduledUpTo(input, first, d, t) || ScheduledOn(input, d, t)
    ensures forall t :: ClosedUpTo(input, first, d + 1, t) <==> ClosedUpTo(input, first, d, t) || ClosedOn(input, d, t)
  {
  }

  /** Over the range, the enumerated dates say what all dates say. */
  lemma ReachSuffices(input: WindowsInput, from: int, to: int, t: int)
    requires input.Valid() && from <= t < to
    ensures var first, past := input.zone.DateOf(from) - 1, input.zone.DateOf(to) + 1;
            && (OpenUpTo(input, first, past, t) <==> input.Open(t))
            && (ScheduledUpTo(input, first, past, t) <==> input.Scheduled(t))
            && (ClosedUpTo(input, first, past, t) <==> input.zone.DateOf(t) in input.closed)
  {
    if date, x: DayInterval :| x.On(Weekday(date)) in input.opening.intervals && input.Within(date, x, t) {
      assert x.On(Weekday(date)).WellFormed();
      input.DateInReach(date, x, t, from, to);
      assert OpenOn(input, date, t);
    }
    if date, x: DayInterval :| input.plan.Starts(date, x) && input.Within(date, x, t) {
      assert x.ValidTimes() by { assert date !in input.plan.overrides ==> x.On(Weekday(date)).WellFormed(); }
      input.DateInReach(date, x, t, from, to);
      assert ScheduledOn(input, date, t);
    }
    input.zone.DateIs(t, input.zone.DateOf(t));
    if date :| ClosedOn(input, date, t) { input.zone.DateIs(t, date); }
    assert input.zone.DateOf(t) in input.closed ==> ClosedOn(input, input.zone.DateOf(t), t);
    input.zone.DatesInOrder(from, t);
    input.zone.DatesInOrder(t, to);
  }

  /** normalize on a slice nobody else holds. */
  method NormalizeOwn(spans: seq<Span>) returns (out: seq<Span>)
    ensures Separated(out) && SamePoints(out, spans)
  {
    var own := Clone(spans);
    out := Normalize(own);
  }

  /** timeOff is the caller's slice behind input.timeOff: it is cloned before it is
      sorted, so nothing of the caller's changes. */
  method WorkingWindows(input: WindowsInput, timeOff: array<Span>, from: int, to: int) returns (windows: seq<Span>)
    requires input.Valid() && timeOff[..] == input.timeOff
    ensures input.AreWindows(from, to, windows)
  {
    if to <= from {
      return [];
    }
    var first, last := input.zone.DateOf(from) - 1, input.zone.DateOf(to);
    input.zone.DatesInOrder(from, to);
    var open, work, closed := Expand(input, first, last);
    var a := NormalizeOwn(open);
    var b := NormalizeOwn(work);
    var c := NormalizeOwn(closed);
    var clone := Clone(timeOff[..]);
    var o := Normalize(clone);
    windows := Intersect(a, b);
    windows := Subtract(windows, c);
    windows := Subtract(windows, o);
    windows := Clip(windows, from, to);
    forall t | from <= t < to ensures In(t, windows) <==> input.Working(t) {
      ReachSuffices(input, from, to, t);
    }
  }
}
