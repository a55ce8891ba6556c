/** A barber's schedule at one branch: a weekly template and date overrides. */
module Schedules {
  import opened Wrappers
  import opened Intervals
  import opened Sorting
  import opened Slices
  import opened Calendar
  import opened Weekly

  const MAX_OVERRIDES := 400

  datatype SetError = TooManyOverrides | ScheduleClash | BadOverride(error: Weekly.Error)

  datatype DayInterval = DayInterval(start: int, minutes: int) {
    function On(day: int): WeeklyInterval { WeeklyInterval(day, start, minutes) }

    predicate ValidTimes() { On(0).ValidTimes() }

    function Minutes(): Interval { Interval(start, start + minutes) }
  }

  /** What the schedule says, whichever object or row holds it. */
  datatype Plan = Plan(weekly: WeeklyHours, overrides: map<int, seq<DayInterval>>) {

    /** x starts on the date: by its override if it has one, else by the template. */
    predicate Starts(date: int, x: DayInterval) {
      if date in overrides then x in overrides[date] else x.On(Weekday(date)) in weekly.intervals
    }

    ghost predicate Valid() {
      && Weekly.Valid(weekly)
      && forall date, x :: date in overrides && x in overrides[date] ==> x.ValidTimes()
    }
  }

  /** An override replaces what starts on its date, and on no other; an empty one is a
      day off. */
  lemma OverrideReplacesDate(p: Plan, date: int, xs: seq<DayInterval>, d: int, x: DayInterval)
    ensures Plan(p.weekly, p.overrides[date := xs]).Starts(d, x) <==> if d == date then x in xs else p.Starts(d, x)
    ensures !Plan(p.weekly, p.overrides[date := []]).Starts(date, x)
    ensures Plan(p.weekly, map[]).Starts(d, x) <==> x.On(Weekday(d)) in p.weekly.intervals
  {
  }

  function DaysOf(s: seq<WeeklyInterval>, day: int): seq<DayInterval> {
    var those := Filter(OnDay(day), s);
    seq(|those|, i requires 0 <= i < |those| => DayInterval(those[i].start, those[i].minutes))
  }

  lemma DaysOfMembers(s: seq<WeeklyInterval>, day: int)
    ensures forall x: DayInterval :: x in DaysOf(s, day) <==> x.On(day) in s
  {
    FilterMembers(OnDay(day), s);
    var those := Filter(OnDay(day), s);
    forall x: DayInterval ensures x in DaysOf(s, day) <==> x.On(day) in s {
      if x.On(day) in s {
        assert OnDay(day)(x.On(day)) && x.On(day) in those;
        var i :| 0 <= i < |those| && those[i] == x.On(day);
        assert DaysOf(s, day)[i] == x;
      }
      if i :| 0 <= i < |those| && DaysOf(s, day)[i] == x { assert those[i] in those && those[i] == x.On(day); }
    }
  }

  method StartingOn(w: WeeklyHours, day: int) returns (out: seq<DayInterval>)
    ensures out == DaysOf(w.intervals, day)
    ensures forall x: DayInterval :: x in out <==> x.On(day) in w.intervals
  {
    out := [];
    for n := 0 to |w.intervals|
      invariant out == DaysOf(w.intervals[..n], day)
    {
      var i := w.intervals[n];
      FilterStep(OnDay(day), w.intervals, n);
      if i.day == day {
        out := out + [DayInterval(i.start, i.minutes)];
      }
    }
    assert w.intervals[..|w.intervals|] == w.intervals;
    DaysOfMembers(w.intervals, day);
  }

  /** What IntervalsStarting answers. */
  method StartingByPlan(plan: Plan, date: int) returns (out: seq<DayInterval>)
    ensures forall x: DayInterval :: x in out <==> plan.Starts(date, x)
  {
    if date in plan.overrides {
      return plan.overrides[date];
    }
    out := StartingOn(plan.weekly, Weekday(date));
  }

  predicate DayStartsNoLater(a: DayInterval, b: DayInterval) { a.start <= b.start }

  function Sundays(s: seq<DayInterval>): seq<WeeklyInterval> { seq(|s|, i requires 0 <= i < |s| => s[i].On(0)) }

  /** One date's intervals, in plain words. */
  ghost predicate AcceptableDay(s: seq<DayInterval>) {
    && |s| <= MAX_PER_DAY
    && (forall i :: 0 <= i < |s| ==> s[i].ValidTimes())
    && forall i, j :: 0 <= i < j < |s| ==> !s[i].Minutes().Overlaps(s[j].Minutes())
  }

  lemma {:induction false} AllOnSunday(s: seq<WeeklyInterval>)
    requires forall i :: 0 <= i < |s| ==> s[i].day == 0
    ensures forall day :: PerDay(s, day) == if day == 0 then |s| else 0
    decreases |s|
  {
    if s != [] { AllOnSunday(s[..|s| - 1]); }
    forall day ensures PerDay(s, day) == if day == 0 then |s| else 0 {
      assert s != [] ==> PerDay(s, day) == PerDay(s[..|s| - 1], day) + if s[|s| - 1].day == day then 1 else 0;
    }
  }

  lemma SundayCopies(x: DayInterval, y: DayInterval, k: int, l: int)
    requires x.ValidTimes() && y.ValidTimes()
    ensures x.On(0).Copy(k).Overlaps(y.On(0).Copy(l)) <==> k == l && x.Minutes().Overlaps(y.Minutes())
  {
  }

  /** The weekly rules on a single day come to the plain ones. */
  lemma DayRules(s: seq<DayInterval>)
    ensures Acceptable(Sundays(s)) <==> AcceptableDay(s)
  {
    var w := Sundays(s);
    AllOnSunday(w);
    assert PerDay(w, 0) == |s|;
    assert forall i :: 0 <= i < |s| ==> (w[i].WellFormed() <==> s[i].ValidTimes());
    if forall i :: 0 <= i < |s| ==> s[i].ValidTimes() {
      if DisjointForever(w) {
        forall i, j | 0 <= i < j < |s| ensures !s[i].Minutes().Overlaps(s[j].Minutes()) {
          assert !w[i].Copy(0).Overlaps(w[j].Copy(0));
          SundayCopies(s[i], s[j], 0, 0);
        }
      }
      if forall i, j :: 0 <= i < j < |s| ==> !s[i].Minutes().Overlaps(s[j].Minutes()) {
        forall i, j, k, l | 0 <= i < |w| && 0 <= j < |w| && (i != j || k != l)
          ensures !w[i].Copy(k).Overlaps(w[j].Copy(l))
        {
          SundayCopies(s[i], s[j], k, l);
          assert j < i ==> !s[j].Minutes().Overlaps(s[i].Minutes());
        }
      }
    }
  }

  ghost predicate SortedDay(out: seq<DayInterval>, intervals: seq<DayInterval>) {
    multiset(out) == multiset(intervals) && SortedBy(DayStartsNoLater, out)
  }

  /** What an error says is wrong with a date's intervals. */
  ghost predicate DayFault(s: seq<DayInterval>, e: Weekly.Error) {
    match e
    case InvalidWeekday => false
    case InvalidInterval => exists x :: x in s && !x.ValidTimes()
    case TooManyIntervals => |s| > MAX_PER_DAY
    case OverlappingIntervals => exists i, j :: 0 <= i < j < |s| && s[i].Minutes().Overlaps(s[j].Minutes())
  }

  lemma SundayFault(s: seq<DayInterval>, e: Weekly.Error)
    requires e == InvalidWeekday ==> exists i :: i in Sundays(s) && !i.ValidDay()
    requires e == InvalidInterval ==> exists i :: i in Sundays(s) && !i.ValidTimes()
    requires e == TooManyIntervals ==> exists day :: PerDay(Sundays(s), day) > MAX_PER_DAY
    requires e == OverlappingIntervals ==>
             (forall i :: i in Sundays(s) ==> i.WellFormed()) && !DisjointForever(Sundays(s))
    ensures DayFault(s, e)
  {
    var w := Sundays(s);
    match e
    case InvalidWeekday => assert false;
    case InvalidInterval =>
      var n :| 0 <= n < |w| && !w[n].ValidTimes();
      assert s[n] in s;
    case TooManyIntervals => AllOnSunday(w);
    case OverlappingIntervals =>
      var i, j, k, l :| 0 <= i < |w| && 0 <= j < |w| && (i != j || k != l) && w[i].Copy(k).Overlaps(w[j].Copy(l));
      assert w[i] in w && w[j] in w;
      SundayCopies(s[i], s[j], k, l);
      assert if i < j then s[i].Minutes().Overlaps(s[j].Minutes()) else s[j].Minutes().Overlaps(s[i].Minutes());
  }

  method CheckDayIntervals(intervals: seq<DayInterval>) returns (r: Result<seq<DayInterval>, Weekly.Error>)
    ensures r.Ok? <==> AcceptableDay(intervals)
    ensures r.Err? ==> DayFault(intervals, r.error)
    ensures r.Ok? ==> SortedDay(r.value, intervals)
  {
    var weekly := [];
    for n := 0 to |intervals|
      invariant weekly == Sundays(intervals[..n])
    {
      weekly := weekly + [WeeklyInterval(0, intervals[n].start, intervals[n].minutes)];
    }
    assert intervals[..|intervals|] == intervals;
    DayRules(intervals);
    var checked := NewWeeklyHours(weekly);
    if checked.Err? {
      SundayFault(intervals, checked.error);
      return Err(checked.error);
    }
    var out := Clone(intervals);
    SortFunc(out, DayStartsNoLater);
    return Ok(out[..]);
  }

  /** Set's first loop: the same person's templates at their other branches. */
  method ClashesElsewhere(weekly: WeeklyHours, elsewhere: seq<WeeklyHours>) returns (clash: bool)
    requires Weekly.Valid(weekly) && forall i :: 0 <= i < |elsewhere| ==> Weekly.Valid(elsewhere[i])
    ensures clash <==> exists i :: 0 <= i < |elsewhere| && HoursMeet(weekly, elsewhere[i])
  {
    for i := 0 to |elsewhere|
      invariant forall k :: 0 <= k < i ==> !HoursMeet(weekly, elsewhere[k])
    {
      clash := Weekly.Overlaps(weekly, elsewhere[i]);
      if clash {
        return;
      }
    }
    return false;
  }

  /** Date by date the same intervals, sorted. */
  ghost predicate SortedCopy(checked: map<int, seq<DayInterval>>, overrides: map<int, seq<DayInterval>>) {
    checked.Keys == overrides.Keys && forall date :: date in overrides ==> SortedDay(checked[date], overrides[date])
  }

  ghost predicate AcceptableOverrides(overrides: map<int, seq<DayInterval>>) {
    forall date :: date in overrides ==> AcceptableDay(overrides[date])
  }

  /** Ranging over a map yields its keys in no particular order. */
  method AnyOf(dates: set<int>) returns (date: int)
    requires dates != {}
    ensures date in dates
  {
    SomeMember(dates);
    date :| date in dates;
  }

  lemma SomeMember(dates: set<int>)
    ensures dates != {} ==> exists date :: date in dates
  {
    if forall date :: date !in dates {
      assert dates == {};
    }
  }

  /** Set's second loop: the map of overrides, walked in no particular order. */
  method CheckOverrides(overrides: map<int, seq<DayInterval>>)
    returns (r: Result<map<int, seq<DayInterval>>, Weekly.Error>)
    ensures r.Ok? <==> AcceptableOverrides(overrides)
    ensures r.Err? ==> exists date :: date in overrides && DayFault(overrides[date], r.error)
    ensures r.Ok? ==> SortedCopy(r.value, overrides)
  {
    var checked: map<int, seq<DayInterval>> := map[];
    var left := overrides.Keys;
    while left != {}
      invariant left <= overrides.Keys && checked.Keys == overrides.Keys - left
      invariant forall date :: date in checked ==> AcceptableDay(overrides[date])
      invariant forall date :: date in checked ==> SortedDay(checked[date], overrides[date])
    {
      var date := AnyOf(left);
      var ivs := CheckDayIntervals(overrides[date]);
      if ivs.Err? {
        return Err(ivs.error);
      }
      checked := checked[date := ivs.value];
      left := left - {date};
    }
    return Ok(checked);
  }

  lemma CheckedTimesValid(checked: map<int, seq<DayInterval>>, overrides: map<int, seq<DayInterval>>)
    requires SortedCopy(checked, overrides) && AcceptableOverrides(overrides)
    ensures forall date, x :: date in checked && x in checked[date] ==> x.ValidTimes()
  {
    forall date, x | date in checked && x in checked[date] ensures x.ValidTimes() {
      PermutationMembers(checked[date], overrides[date]);
      assert AcceptableDay(overrides[date]) && x in overrides[date];
    }
  }

  class BarberSchedule {
    var weekly: WeeklyHours
    var overrides: map<int, seq<DayInterval>>
    var version: nat
    var updatedAt: int

    ghost function AsPlan(): Plan
      reads this
    {
      Plan(weekly, overrides)
    }

    constructor ()
      ensures AsPlan() == Plan(WeeklyHours([]), map[]) && AsPlan().Valid() && version == 0
    {
      weekly, overrides, version, updatedAt := WeeklyHours([]), map[], 0, 0;
    }

    constructor Rehydrate(plan: Plan, version: nat, updatedAt: int)
      ensures AsPlan() == plan && this.version == version && this.updatedAt == updatedAt
    {
      this.weekly, this.overrides, this.version, this.updatedAt := plan.weekly, plan.overrides, version, updatedAt;
    }

    /** Which changes are refused, with which error. */
    method Set(weekly: WeeklyHours, overrides: map<int, seq<DayInterval>>, elsewhere: seq<WeeklyHours>, now: int)
      returns (err: Option<SetError>)
      requires Weekly.Valid(weekly) && forall i :: 0 <= i < |elsewhere| ==> Weekly.Valid(elsewhere[i])
      modifies this
      ensures err == Some(TooManyOverrides) <==> |overrides| > MAX_OVERRIDES
      ensures err == Some(ScheduleClash) <==>
              |overrides| <= MAX_OVERRIDES && exists i :: 0 <= i < |elsewhere| && HoursMeet(weekly, elsewhere[i])
      ensures err.None? || err.value.BadOverride? ==>
              (err.None? <==> AcceptableOverrides(overrides))
      ensures err.Some? && err.value.BadOverride? ==>
              exists date :: date in overrides && DayFault(overrides[date], err.value.error)
      ensures err.Some? ==> unchanged(this)
      ensures err.None? ==>
              && this.weekly == weekly && SortedCopy(this.overrides, overrides) && AsPlan().Valid()
              && version == old(version) + 1 && updatedAt == DbTime(now)
    {
      if |overrides| > MAX_OVERRIDES {
        return Some(TooManyOverrides);
      }
      var clash := ClashesElsewhere(weekly, elsewhere);
      if clash {
        return Some(ScheduleClash);
      }
      var checked := CheckOverrides(overrides);
      if checked.Err? {
        return Some(BadOverride(checked.error));
      }
      CheckedTimesValid(checked.value, overrides);
      this.weekly, this.overrides := weekly, checked.value;
      version := version + 1;
      updatedAt := DbTime(now);
      return None;
    }

    method IntervalsStarting(date: int) returns (out: seq<DayInterval>)
      ensures forall x: DayInterval :: x in out <==> AsPlan().Starts(date, x)
    {
      out := StartingByPlan(Plan(weekly, overrides), date);
    }
  }
}
