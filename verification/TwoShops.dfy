/** One person, several branches: whether two schedules can put them in two shops
    at once. */
module TwoShops {
  import opened Wrappers
  import opened Intervals
  import opened Calendar
  import opened Weekly
  import opened Schedules
  import opened Windows

  const MAX_INT32 := 0x7fff_ffff

  datatype Row = Row(plan: Plan, version: nat)

  /** One person's stored schedules, by branch. */
  type Stored = map<int, Row>

  /** NotSaved: the next version does not fit its 32-bit column. */
  datatype UpdateError = VersionConflict | NotSet(error: SetError) | NotSaved

  /** A schedule never saved is empty, of version 0. */
  function RowOf(s: Stored, branch: int): Row {
    if branch in s then s[branch] else Row(Plan(WeeklyHours([]), map[]), 0)
  }

  ghost predicate AllValid(s: Stored) { forall b :: b in s ==> s[b].plan.Valid() }

  ghost predicate TemplatesApart(s: Stored) {
    && AllValid(s)
    && forall b, c :: b in s && c in s && b != c ==> !HoursMeet(s[b].plan.weekly, s[c].plan.weekly)
  }

  /** What one update may do to the stored schedules. */
  ghost predicate Updates(s: Stored, branch: int, s': Stored) {
    || s' == s
    || (&& branch in s' && s' == s[branch := s'[branch]] && s'[branch].plan.Valid()
        && s'[branch].version == (if branch in s then s[branch].version else 0) + 1 <= MAX_INT32
        && forall c :: c in s && c != branch ==> !HoursMeet(s'[branch].plan.weekly, s[c].plan.weekly))
  }

  /** The caller saw another version than the one stored. */
  predicate Conflict(s: Stored, branch: int, expected: int) {
    expected < 0 || expected > MAX_INT32 || expected != if branch in s then s[branch].version else 0
  }

  /** For its own faults, or for a clash with another branch's template. */
  ghost predicate Refused(s: Stored, branch: int, weekly: WeeklyHours, overrides: map<int, seq<DayInterval>>) {
    || |overrides| > MAX_OVERRIDES || !AcceptableOverrides(overrides)
    || exists c :: c in s && c != branch && HoursMeet(weekly, s[c].plan.weekly)
  }

  /** Schedules.Update around Set: under the person's lock, Set gets the templates
      of all their other branches, and an error saves nothing. */
  method UpdateSchedule(
      s: Stored, branch: int, expected: int, weekly: WeeklyHours, overrides: map<int, seq<DayInterval>>, now: int)
    returns (s': Stored, err: Option<UpdateError>)
    requires AllValid(s) && Weekly.Valid(weekly)
    ensures Updates(s, branch, s')
    ensures err == Some(VersionConflict) <==> Conflict(s, branch, expected)
    ensures err == Some(NotSaved) <==>
            !Conflict(s, branch, expected) && !Refused(s, branch, weekly, overrides) && expected == MAX_INT32
    ensures err.Some? && err.value.NotSet? <==> !Conflict(s, branch, expected) && Refused(s, branch, weekly, overrides)
    ensures err.Some? ==> s' == s
    ensures err.None? ==>
            && branch in s' && s'[branch].plan.weekly == weekly && SortedCopy(s'[branch].plan.overrides, overrides)
            && s'[branch].version == expected + 1
  {
    var row := RowOf(s, branch);
    if expected < 0 || expected > MAX_INT32 || row.version != expected {
      return s, Some(VersionConflict);
    }
    var elsewhere := Elsewhere(s, branch);
    var schedule := new BarberSchedule.Rehydrate(row.plan, row.version, 0);
    var failed := schedule.Set(weekly, overrides, elsewhere, now);
    if failed.Some? {
      return s, Some(NotSet(failed.value));
    }
    if schedule.version > MAX_INT32 {
      return s, Some(NotSaved);
    }
    s' := s[branch := Row(Plan(schedule.weekly, schedule.overrides), schedule.version)];
    err := None;
  }

  /** hoursElsewhere: the templates at all the other branches. */
  method Elsewhere(s: Stored, branch: int) returns (elsewhere: seq<WeeklyHours>)
    requires AllValid(s)
    ensures forall i :: 0 <= i < |elsewhere| ==>
              Weekly.Valid(elsewhere[i]) && exists c :: c in s && c != branch && elsewhere[i] == s[c].plan.weekly
    ensures forall c :: c in s && c != branch ==> s[c].plan.weekly in elsewhere
  {
    elsewhere := [];
    var left := s.Keys - {branch};
    while left != {}
      invariant left <= s.Keys - {branch}
      invariant forall i :: 0 <= i < |elsewhere| ==>
                  Weekly.Valid(elsewhere[i]) && exists c :: c in s && c != branch && elsewhere[i] == s[c].plan.weekly
      invariant forall c :: c in s && c != branch && c !in left ==> s[c].plan.weekly in elsewhere
    {
      var c := AnyOf(left);
      assert s[c].plan.Valid();
      elsewhere := elsewhere + [s[c].plan.weekly];
      left := left - {c};
    }
  }

  lemma UpdateKeepsApart(s: Stored, branch: int, s': Stored)
    requires TemplatesApart(s) && Updates(s, branch, s')
    ensures TemplatesApart(s')
  {
  }

  /** Schedules over time, from none at all, one update at a time. */
  ghost predicate IsRun(run: seq<Stored>, branches: seq<int>) {
    && |run| == |branches| + 1 && run[0] == map[]
    && forall i :: 0 <= i < |branches| ==> Updates(run[i], branches[i], run[i + 1])
  }

  /** In every run of updates the templates stay apart. */
  lemma {:induction false} TemplatesStayApart(run: seq<Stored>, branches: seq<int>, n: nat)
    requires IsRun(run, branches) && n < |run|
    ensures TemplatesApart(run[n])
  {
    if n > 0 {
      TemplatesStayApart(run, branches, n - 1);
      UpdateKeepsApart(run[n - 1], branches[n - 1], run[n]);
    }
  }

  /** Some instant is scheduled in both shops. */
  ghost predicate ShareAnInstant(a: WindowsInput, b: WindowsInput) { exists t :: a.Scheduled(t) && b.Scheduled(t) }

  /** x on the date in the one shop and y on the other date in the other take a
      common stretch of real time. */
  predicate Overlap(a: WindowsInput, date: int, x: DayInterval, b: WindowsInput, other: int, y: DayInterval) {
    Later(a.zone.At(date, x.start), b.zone.At(other, y.start))
    < Earlier(a.zone.At(date, x.start + x.minutes), b.zone.At(other, y.start + y.minutes))
  }

  lemma OverlapIsShared(a: WindowsInput, date: int, x: DayInterval, b: WindowsInput, other: int, y: DayInterval)
    ensures Overlap(a, date, x, b, other, y) <==> exists t :: a.Within(date, x, t) && b.Within(other, y, t)
  {
    if Overlap(a, date, x, b, other, y) {
      var t := Later(a.zone.At(date, x.start), b.zone.At(other, y.start));
      assert a.Within(date, x, t) && b.Within(other, y, t);
    }
  }

  ghost predicate PlansOverlap(a: WindowsInput, b: WindowsInput) {
    exists date, x: DayInterval, other, y: DayInterval ::
      a.plan.Starts(date, x) && b.plan.Starts(other, y) && Overlap(a, date, x, b, other, y)
  }

  /** In any two zones: someone is in two shops at one instant exactly when two
      intervals that start on some dates overlap in real time. */
  lemma SharedInstantIsOverlap(a: WindowsInput, b: WindowsInput)
    ensures ShareAnInstant(a, b) <==> PlansOverlap(a, b)
  {
    if t :| a.Scheduled(t) && b.Scheduled(t) {
      var date, x: DayInterval :| a.plan.Starts(date, x) && a.Within(date, x, t);
      var other, y: DayInterval :| b.plan.Starts(other, y) && b.Within(other, y, t);
      OverlapIsShared(a, date, x, b, other, y);
    }
    if PlansOverlap(a, b) {
      var date, x: DayInterval, other, y: DayInterval :|
        a.plan.Starts(date, x) && b.plan.Starts(other, y) && Overlap(a, date, x, b, other, y);
      OverlapIsShared(a, date, x, b, other, y);
      var t :| a.Within(date, x, t) && b.Within(other, y, t);
      assert a.Scheduled(t) && b.Scheduled(t);
    }
  }

  /** x on the date, moved by `shift` minutes, and y on the other overlap on the wall
      clock. */
  predicate Clash(date: int, x: DayInterval, other: int, y: DayInterval, shift: int) {
    var (s, t) := (date * MINUTES_PER_DAY + x.start + shift, other * MINUTES_PER_DAY + y.start);
    s < t + y.minutes && t < s + x.minutes
  }

  ghost predicate PlansMeet(p: Plan, q: Plan, shift: int) {
    exists date, x: DayInterval, other, y: DayInterval ::
      p.Starts(date, x) && q.Starts(other, y) && Clash(date, x, other, y, shift)
  }

  lemma StartsValid(p: Plan, date: int, x: DayInterval)
    requires p.Valid() && p.Starts(date, x)
    ensures x.ValidTimes()
  {
  }

  // Zones a fixed distance apart.

  /** When a's clock reads p, b's reads p + shift, and neither ever stops or goes back. */
  ghost predicate InStep(a: Zone, b: Zone, shift: int) {
    b.Steady() && forall p :: a.wall(p) == b.wall(p + shift)
  }

  lemma FixedInStep(a: Zone, b: Zone, m: int, n: int)
    requires a == FixedZone(m) && b == FixedZone(n)
    ensures InStep(a, b, n - m)
  {
  }

  lemma StretchesInStep(a: Zone, b: Zone, s: int, end: int, t: int, until: int, shift: int)
    requires InStep(a, b, shift) && s < end && t < until
    ensures Later(a.wall(s), b.wall(t)) < Earlier(a.wall(end), b.wall(until)) <==> s + shift < until && t < end + shift
  {
    assert a.wall(s) == b.wall(s + shift) && a.wall(end) == b.wall(end + shift);
  }

  lemma OverlapIsClash(a: WindowsInput, date: int, x: DayInterval, b: WindowsInput, other: int, y: DayInterval,
      shift: int)
    requires InStep(a.zone, b.zone, shift) && x.ValidTimes() && y.ValidTimes()
    ensures Overlap(a, date, x, b, other, y) <==> Clash(date, x, other, y, shift)
  {
    var (s, t) := (date * MINUTES_PER_DAY + x.start, other * MINUTES_PER_DAY + y.start);
    StretchesInStep(a.zone, b.zone, s, date * MINUTES_PER_DAY + (x.start + x.minutes),
                    t, other * MINUTES_PER_DAY + (y.start + y.minutes), shift);
  }

  /** In two such zones, whoever is in two shops at once has two schedules that clash
      on the wall clock, the one moved by the distance; and the other way round. */
  lemma SharedInstantIsClash(a: WindowsInput, b: WindowsInput, shift: int)
    requires a.plan.Valid() && b.plan.Valid() && InStep(a.zone, b.zone, shift)
    ensures ShareAnInstant(a, b) <==> PlansMeet(a.plan, b.plan, shift)
  {
    SharedInstantIsOverlap(a, b);
    forall date, x: DayInterval, other, y: DayInterval | a.plan.Starts(date, x) && b.plan.Starts(other, y)
      ensures Overlap(a, date, x, b, other, y) <==> Clash(date, x, other, y, shift)
    {
      StartsValid(a.plan, date, x);
      StartsValid(b.plan, other, y);
      OverlapIsClash(a, date, x, b, other, y, shift);
    }
  }

  /** So between fixed offsets: exactly when started intervals clash after moving the
      one by the difference of the offsets. */
  lemma FixedZonesClash(a: WindowsInput, b: WindowsInput, m: int, n: int)
    requires a.plan.Valid() && b.plan.Valid() && a.zone == FixedZone(m) && b.zone == FixedZone(n)
    ensures ShareAnInstant(a, b) <==> PlansMeet(a.plan, b.plan, n - m)
  {
    FixedInStep(a.zone, b.zone, m, n);
    SharedInstantIsClash(a, b, n - m);
  }

  /** In some pair of weeks the two are on at the same time, the first one moved. */
  ghost predicate MeetBy(a: WeeklyInterval, b: WeeklyInterval, shift: int) {
    exists k, l :: MovedOverlaps(a.Copy(k), b.Copy(l), shift)
  }

  predicate MovedOverlaps(c: Interval, d: Interval, shift: int) { Interval(c.start + shift, c.end + shift).Overlaps(d) }

  ghost predicate HoursMeetBy(w: WeeklyHours, o: WeeklyHours, shift: int) {
    exists i, j :: 0 <= i < |w.intervals| && 0 <= j < |o.intervals| && MeetBy(w.intervals[i], o.intervals[j], shift)
  }

  lemma ClashIsWeekly(p: Plan, q: Plan, date: int, x: DayInterval, other: int, y: DayInterval, shift: int)
    requires date !in p.overrides && other !in q.overrides
    requires p.Starts(date, x) && q.Starts(other, y) && Clash(date, x, other, y, shift)
    ensures HoursMeetBy(p.weekly, q.weekly, shift)
  {
    var a, b := x.On(Weekday(date)), y.On(Weekday(other));
    assert MovedOverlaps(a.Copy(date / 7), b.Copy(other / 7), shift);
    var i :| 0 <= i < |p.weekly.intervals| && p.weekly.intervals[i] == a;
    var j :| 0 <= j < |q.weekly.intervals| && q.weekly.intervals[j] == b;
    assert MeetBy(p.weekly.intervals[i], q.weekly.intervals[j], shift);
  }

  lemma DateOfWeek(week: int, day: int)
    requires 0 <= day <= 6
    ensures Weekday(7 * week + day) == day
  {
  }

  lemma CopiesClash(a: WeeklyInterval, k: int, b: WeeklyInterval, l: int, shift: int)
    requires MovedOverlaps(a.Copy(k), b.Copy(l), shift)
    ensures Clash(7 * k + a.day, DayInterval(a.start, a.minutes), 7 * l + b.day, DayInterval(b.start, b.minutes), shift)
  {
  }

  lemma CopyStarts(p: Plan, a: WeeklyInterval, week: int)
    requires p.overrides == map[] && a in p.weekly.intervals && a.ValidDay()
    ensures p.Starts(7 * week + a.day, DayInterval(a.start, a.minutes))
  {
    DateOfWeek(week, a.day);
    assert DayInterval(a.start, a.minutes).On(a.day) == a;
  }

  lemma WeeklyIsClash(p: Plan, q: Plan, shift: int)
    requires p.Valid() && q.Valid() && p.overrides == map[] && q.overrides == map[]
    requires HoursMeetBy(p.weekly, q.weekly, shift)
    ensures PlansMeet(p, q, shift)
  {
    var i, j :| 0 <= i < |p.weekly.intervals| && 0 <= j < |q.weekly.intervals|
                && MeetBy(p.weekly.intervals[i], q.weekly.intervals[j], shift);
    var a, b := p.weekly.intervals[i], q.weekly.intervals[j];
    var k, l :| MovedOverlaps(a.Copy(k), b.Copy(l), shift);
    CopiesClash(a, k, b, l, shift);
    CopyStarts(p, a, k);
    CopyStarts(q, b, l);
  }

  /** Without overrides: exactly when the templates meet, the one moved by the
      distance between the zones. Set compares them unmoved. */
  lemma TemplatesDecide(a: WindowsInput, b: WindowsInput, shift: int)
    requires a.plan.Valid() && b.plan.Valid() && InStep(a.zone, b.zone, shift)
    requires a.plan.overrides == map[] && b.plan.overrides == map[]
    ensures ShareAnInstant(a, b) <==> HoursMeetBy(a.plan.weekly, b.plan.weekly, shift)
  {
    SharedInstantIsClash(a, b, shift);
    if PlansMeet(a.plan, b.plan, shift) {
      var date, x: DayInterval, other, y: DayInterval :|
        a.plan.Starts(date, x) && b.plan.Starts(other, y) && Clash(date, x, other, y, shift);
      ClashIsWeekly(a.plan, b.plan, date, x, other, y, shift);
    }
    if HoursMeetBy(a.plan.weekly, b.plan.weekly, shift) { WeeklyIsClash(a.plan, b.plan, shift); }
  }

  lemma UnmovedIsMeeting(w: WeeklyHours, o: WeeklyHours)
    ensures HoursMeetBy(w, o, 0) <==> HoursMeet(w, o)
  {
    forall a: WeeklyInterval, b: WeeklyInterval ensures MeetBy(a, b, 0) <==> MeetSomeWeek(a, b) {
      if k, l :| MovedOverlaps(a.Copy(k), b.Copy(l), 0) { assert a.Copy(k).Overlaps(b.Copy(l)); }
      if k, l :| a.Copy(k).Overlaps(b.Copy(l)) { assert MovedOverlaps(a.Copy(k), b.Copy(l), 0); }
    }
  }

  // Which zones make Set's comparison enough.

  /** Schedules start and end on these wall-clock minutes. */
  predicate Mark(p: int) { p % STEP == 0 }

  /** On every mark the two clocks agree, and from one mark to the next neither goes
      back in real time: no stretch of the wall clock is skipped. */
  ghost predicate SameClock(a: Zone, b: Zone) {
    forall p :: Mark(p) ==> Agree(a, b, p)
  }

  predicate Agree(a: Zone, b: Zone, p: int) { a.wall(p) == b.wall(p) && a.wall(p) <= a.wall(p + STEP) }

  lemma SteadyKeepsTime(z: Zone)
    requires z.Steady()
    ensures SameClock(z, z)
  {
  }

  /** A zone whose clock changes once agrees with itself unless it skips more than a step. */
  lemma ChangingKeepsTime(minutes: int, date: int, minute: int, shift: int)
    requires Mark(minute) && Mark(shift)
    ensures var z := ChangingZone(minutes, date, minute, shift); SameClock(z, z) <==> shift <= STEP
  {
    var z, p := ChangingZone(minutes, date, minute, shift), date * MINUTES_PER_DAY + minute + shift - STEP;
    MarkOfDay(date, minute);
    if shift > STEP {
      assert Mark(p) && !Agree(z, z, p);
    }
  }

  lemma {:induction false} MarksInOrder(a: Zone, b: Zone, p: int, q: int)
    requires SameClock(a, b) && Mark(p) && Mark(q) && p <= q
    ensures a.wall(p) <= a.wall(q) == b.wall(q)
    decreases q - p
  {
    assert Agree(a, b, q);
    if p < q {
      MarksInOrder(a, b, p, q - STEP);
      assert Agree(a, b, q - STEP);
    }
  }

  lemma MarkOfDay(date: int, minute: int)
    requires Mark(minute)
    ensures Mark(date * MINUTES_PER_DAY + minute)
  {
    assert date * MINUTES_PER_DAY + minute == STEP * (MINUTES_PER_DAY / STEP * date + minute / STEP);
  }

  /** Overlap and clash, in wall-clock minutes counted from date 0. */
  lemma StretchesMeet(a: Zone, b: Zone, s: int, end: int, t: int, until: int)
    requires SameClock(a, b) && Mark(s) && Mark(end) && Mark(t) && Mark(until)
    requires Later(a.wall(s), b.wall(t)) < Earlier(a.wall(end), b.wall(until))
    ensures s < until && t < end
  {
    if end <= t { MarksInOrder(a, b, end, t); }
    if until <= s {
      MarksInOrder(a, b, until, s);
      MarksInOrder(a, b, until, until);
    }
  }

  lemma OverlapThenClash(a: WindowsInput, date: int, x: DayInterval, b: WindowsInput, other: int, y: DayInterval)
    requires SameClock(a.zone, b.zone) && x.ValidTimes() && y.ValidTimes() && Overlap(a, date, x, b, other, y)
    ensures Clash(date, x, other, y, 0)
  {
    var (s, t) := (date * MINUTES_PER_DAY + x.start, other * MINUTES_PER_DAY + y.start);
    MarkOfDay(date, x.start);
    MarkOfDay(date, x.start + x.minutes);
    MarkOfDay(other, y.start);
    MarkOfDay(other, y.start + y.minutes);
    StretchesMeet(a.zone, b.zone, s, date * MINUTES_PER_DAY + (x.start + x.minutes),
                  t, other * MINUTES_PER_DAY + (y.start + y.minutes));
  }

  /** An override of one branch overlaps what the other has on that date, the day
      before or the day after. Set does not look at this. */
  ghost predicate OverrideOverlap(a: WindowsInput, b: WindowsInput) {
    exists date, x: DayInterval, other, y: DayInterval ::
      && date in a.plan.overrides && x in a.plan.overrides[date] && date - 1 <= other <= date + 1
      && b.plan.Starts(other, y) && Overlap(a, date, x, b, other, y)
  }

  lemma OverrideOverlapIsShared(a: WindowsInput, b: WindowsInput)
    requires OverrideOverlap(a, b)
    ensures ShareAnInstant(a, b) && ShareAnInstant(b, a)
  {
    var date, x: DayInterval, other, y: DayInterval :|
      && date in a.plan.overrides && x in a.plan.overrides[date] && date - 1 <= other <= date + 1
      && b.plan.Starts(other, y) && Overlap(a, date, x, b, other, y);
    assert a.plan.Starts(date, x);
    SharedInstantIsOverlap(a, b);
    assert ShareAnInstant(a, b);
  }

  lemma OverlapNeedsOverride(a: WindowsInput, b: WindowsInput, date: int, x: DayInterval, other: int, y: DayInterval)
    requires a.plan.Valid() && b.plan.Valid() && SameClock(a.zone, b.zone) && !HoursMeet(a.plan.weekly, b.plan.weekly)
    requires a.plan.Starts(date, x) && b.plan.Starts(other, y) && Overlap(a, date, x, b, other, y)
    ensures OverrideOverlap(a, b) || OverrideOverlap(b, a)
  {
    StartsValid(a.plan, date, x);
    StartsValid(b.plan, other, y);
    OverlapThenClash(a, date, x, b, other, y);
    assert date - 1 <= other <= date + 1 && Overlap(b, other, y, a, date, x);
    if date !in a.plan.overrides && other !in b.plan.overrides {
      ClashIsWeekly(a.plan, b.plan, date, x, other, y, 0);
      UnmovedIsMeeting(a.plan.weekly, b.plan.weekly);
    }
  }

  /** Where the clocks agree and Set has kept the templates apart, someone is in two
      shops exactly when an override overlaps. */
  lemma OverridesDecide(a: WindowsInput, b: WindowsInput)
    requires a.plan.Valid() && b.plan.Valid() && SameClock(a.zone, b.zone) && !HoursMeet(a.plan.weekly, b.plan.weekly)
    ensures ShareAnInstant(a, b) <==> OverrideOverlap(a, b) || OverrideOverlap(b, a)
  {
    SharedInstantIsOverlap(a, b);
    if PlansOverlap(a, b) {
      var date, x: DayInterval, other, y: DayInterval :|
        a.plan.Starts(date, x) && b.plan.Starts(other, y) && Overlap(a, date, x, b, other, y);
      OverlapNeedsOverride(a, b, date, x, other, y);
    }
    if OverrideOverlap(a, b) { OverrideOverlapIsShared(a, b); }
    if OverrideOverlap(b, a) { OverrideOverlapIsShared(b, a); }
  }

  /** The promise: apart templates, no overrides and clocks that agree, and the windows
      at the two branches share no instant, over any ranges. */
  lemma NeverInTwoShops(
      a: WindowsInput, b: WindowsInput, from: int, to: int, from': int, to': int, v: seq<Span>, w: seq<Span>)
    requires a.plan.Valid() && b.plan.Valid() && SameClock(a.zone, b.zone) && !HoursMeet(a.plan.weekly, b.plan.weekly)
    requires a.plan.overrides == map[] && b.plan.overrides == map[]
    requires a.AreWindows(from, to, v) && b.AreWindows(from', to', w)
    ensures forall t :: !(In(t, v) && In(t, w))
  {
    OverridesDecide(a, b);
    forall t ensures !(In(t, v) && In(t, w)) {
      assert In(t, v) && In(t, w) ==> a.Scheduled(t) && b.Scheduled(t);
    }
  }

  /** Over every run of updates: any two of the person's branches that have no
      overrides, and clocks that agree, have windows that share no instant. */
  lemma NeverInTwoShopsInAnyRun(
      run: seq<Stored>, branches: seq<int>, n: nat, b: int, c: int, one: WindowsInput, two: WindowsInput,
      from: int, to: int, from': int, to': int, v: seq<Span>, w: seq<Span>)
    requires IsRun(run, branches) && n < |run| && b in run[n] && c in run[n] && b != c
    requires one.plan == run[n][b].plan && two.plan == run[n][c].plan && SameClock(one.zone, two.zone)
    requires one.plan.overrides == map[] && two.plan.overrides == map[]
    requires one.AreWindows(from, to, v) && two.AreWindows(from', to', w)
    ensures forall t :: !(In(t, v) && In(t, w))
  {
    TemplatesStayApart(run, branches, n);
    NeverInTwoShops(one, two, from, to, from', to', v, w);
  }

  ghost predicate WorkInBoth(a: WindowsInput, b: WindowsInput) { exists t :: a.Working(t) && b.Working(t) }

  /** Two schedules without overrides that Set lets pass. */
  ghost predicate LetPass(a: WindowsInput, b: WindowsInput, za: Zone, zb: Zone) {
    && a.HoursValid() && b.HoursValid() && a.zone == za && b.zone == zb
    && a.plan.overrides == map[] && b.plan.overrides == map[] && !HoursMeet(a.plan.weekly, b.plan.weekly)
  }

  /** In these zones Set's comparison keeps everybody out of two shops. */
  ghost predicate SetSuffices(za: Zone, zb: Zone) {
    forall a, b :: LetPass(a, b, za, zb) ==> !WorkInBoth(a, b)
  }

  /** What is asked of real zones here, wherever their clocks change: they are within a
      day of UTC, and a day later on the clock is later. */
  ghost predicate Real(z: Zone) { forall p :: RealAt(z, p) }

  predicate RealAt(z: Zone, p: int) {
    z.wall(p) < z.wall(p + MINUTES_PER_DAY) && -DAY < z.wall(p) - p * MINUTE < DAY
  }

  /** A branch that opens once a week, with someone who works just then. */
  function Once(z: Zone, i: WeeklyInterval): WindowsInput {
    WindowsInput(z, WeeklyHours([i]), {}, Plan(WeeklyHours([i]), map[]), [])
  }

  lemma OnceIsValid(z: Zone, i: WeeklyInterval)
    requires i.WellFormed()
    ensures Once(z, i).HoursValid()
  {
  }

  lemma OnceWorks(z: Zone, i: WeeklyInterval, date: int, t: int)
    requires Weekday(date) == i.day && z.At(date, i.start) <= t < z.At(date, i.start + i.minutes)
    ensures Once(z, i).Working(t)
  {
    var x, one := DayInterval(i.start, i.minutes), Once(z, i);
    assert x.On(Weekday(date)) == i && i in one.opening.intervals;
    assert one.plan.Starts(date, x) && one.Within(date, x, t);
  }

  lemma OncePasses(za: Zone, zb: Zone, i: WeeklyInterval, j: WeeklyInterval)
    requires i.WellFormed() && j.WellFormed() && NeverMeet(i, j)
    ensures LetPass(Once(za, i), Once(zb, j), za, zb)
  {
    OnceIsValid(za, i);
    OnceIsValid(zb, j);
  }

  /** One pair of intervals that never meet on the clock but do in real time is enough
      to show that Set's comparison is not. */
  lemma ShowsOtherwise(za: Zone, zb: Zone, i: WeeklyInterval, j: WeeklyInterval, date: int, other: int)
    requires i.WellFormed() && j.WellFormed() && NeverMeet(i, j)
    requires Weekday(date) == i.day && Weekday(other) == j.day
    requires Later(za.At(date, i.start), zb.At(other, j.start))
             < Earlier(za.At(date, i.start + i.minutes), zb.At(other, j.start + j.minutes))
    ensures !SetSuffices(za, zb)
  {
    OncePasses(za, zb, i, j);
    var t := Later(za.At(date, i.start), zb.At(other, j.start));
    OnceWorks(za, i, date, t);
    OnceWorks(zb, j, other, t);
    assert WorkInBoth(Once(za, i), Once(zb, j));
  }

  /** The whole day from the wall-clock minute on. */
  function DayFrom(p: int): WeeklyInterval {
    WeeklyInterval(Weekday(p / MINUTES_PER_DAY), p % MINUTES_PER_DAY, MINUTES_PER_DAY)
  }

  /** Its place in the week is that of the minute. */
  lemma PlaceInWeek(p: int) returns (week: int)
    ensures p == DayFrom(p).WeekStart() + week * MINUTES_PER_WEEK
  {
    var date := p / MINUTES_PER_DAY;
    week := date / 7;
    assert p == date * MINUTES_PER_DAY + p % MINUTES_PER_DAY && date == 7 * week + date % 7;
  }

  lemma DaysApart(p: int, q: int)
    requires MINUTES_PER_DAY <= q - p <= MINUTES_PER_WEEK - MINUTES_PER_DAY
    ensures NeverMeet(DayFrom(p), DayFrom(q))
  {
    var i, j := DayFrom(p), DayFrom(q);
    var m := PlaceInWeek(p);
    var n := PlaceInWeek(q);
    forall k, l ensures !i.Copy(k).Overlaps(j.Copy(l)) { CopiesApart(i, j, p, q, k - m, l - n, k, l); }
  }

  lemma CopiesApart(i: WeeklyInterval, j: WeeklyInterval, p: int, q: int, m: int, n: int, k: int, l: int)
    requires MINUTES_PER_DAY <= q - p <= MINUTES_PER_WEEK - MINUTES_PER_DAY
    requires i.minutes == j.minutes == MINUTES_PER_DAY
    requires p == i.WeekStart() + (k - m) * MINUTES_PER_WEEK && q == j.WeekStart() + (l - n) * MINUTES_PER_WEEK
    ensures !i.Copy(k).Overlaps(j.Copy(l))
  {
    assert i.Copy(k).start == p + m * MINUTES_PER_WEEK && j.Copy(l).start == q + n * MINUTES_PER_WEEK;
  }

  lemma DayReads(z: Zone, p: int)
    ensures var date := p / MINUTES_PER_DAY;
            && z.At(date, p % MINUTES_PER_DAY) == z.wall(p)
            && z.At(date, p % MINUTES_PER_DAY + MINUTES_PER_DAY) == z.wall(p + MINUTES_PER_DAY)
  {
    assert p == p / MINUTES_PER_DAY * MINUTES_PER_DAY + p % MINUTES_PER_DAY;
  }

  lemma DayIsWellFormed(p: int)
    requires Mark(p)
    ensures DayFrom(p).WellFormed()
  {
    assert p % MINUTES_PER_DAY == STEP * (p / STEP - MINUTES_PER_DAY / STEP * (p / MINUTES_PER_DAY));
  }

  /** A mark that the one clock reaches only after the other has reached the same or the
      next: a day's work up to the one, and a day's from the other on. */
  lemma EarlierMarkClashes(za: Zone, zb: Zone, p: int, q: int)
    requires Real(za) && Real(zb) && Mark(p) && Mark(q) && p <= q <= p + STEP && zb.wall(q) < za.wall(p)
    ensures !SetSuffices(za, zb)
  {
    var before := p - MINUTES_PER_DAY;
    assert RealAt(za, before) && RealAt(zb, q) && RealAt(zb, q + MINUTES_PER_DAY);
    DayIsWellFormed(before);
    DayIsWellFormed(q);
    DayReads(za, before);
    DayReads(zb, q);
    DaysApart(before, q);
    ShowsOtherwise(za, zb, DayFrom(before), DayFrom(q), before / MINUTES_PER_DAY, q / MINUTES_PER_DAY);
  }

  lemma SufficesEitherWay(za: Zone, zb: Zone)
    requires SetSuffices(za, zb)
    ensures SetSuffices(zb, za)
  {
    forall a, b | LetPass(a, b, zb, za) ensures !WorkInBoth(a, b) {
      MeetingIsMutual(a.plan.weekly, b.plan.weekly);
      assert LetPass(b, a, za, zb) && !WorkInBoth(b, a);
    }
  }

  lemma MeetingIsMutual(w: WeeklyHours, o: WeeklyHours)
    ensures HoursMeet(w, o) <==> HoursMeet(o, w)
  {
  }

  lemma SameDayApart(i: WeeklyInterval, j: WeeklyInterval, k: int, l: int)
    requires i.WellFormed() && j.WellFormed() && i.day == j.day && i.End() <= j.start && j.End() <= MINUTES_PER_DAY
    ensures !i.Copy(k).Overlaps(j.Copy(l))
  {
  }

  lemma AgreeingClocksSuffice(za: Zone, zb: Zone)
    requires SameClock(za, zb)
    ensures SetSuffices(za, zb)
  {
    forall a, b | LetPass(a, b, za, zb) ensures !WorkInBoth(a, b) {
      OverridesDecide(a, b);
      assert forall t :: a.Working(t) && b.Working(t) ==> a.Scheduled(t) && b.Scheduled(t);
    }
  }

  lemma OtherClocksDoNot(za: Zone, zb: Zone)
    requires Real(za) && Real(zb) && !SameClock(za, zb)
    ensures !SetSuffices(za, zb)
  {
    var p :| Mark(p) && !Agree(za, zb, p);
    if zb.wall(p) < za.wall(p) {
      EarlierMarkClashes(za, zb, p, p);
    } else if za.wall(p) < zb.wall(p) {
      EarlierMarkClashes(zb, za, p, p);
      if SetSuffices(za, zb) { SufficesEitherWay(za, zb); }
    } else {
      SkippedMarkClashes(za, zb, p);
    }
  }

  lemma SkippedMarkClashes(za: Zone, zb: Zone, p: int)
    requires Real(za) && Real(zb) && Mark(p) && za.wall(p) == zb.wall(p) && za.wall(p) > za.wall(p + STEP)
    ensures !SetSuffices(za, zb)
  {
    var q := p + STEP;
    if zb.wall(q) < za.wall(p) {
      EarlierMarkClashes(za, zb, p, q);
    } else {
      EarlierMarkClashes(zb, za, q, q);
      if SetSuffices(za, zb) { SufficesEitherWay(za, zb); }
    }
  }

  /** For any two real zones, Set's comparison keeps everybody out of two shops if and
      only if the clocks agree on every mark and skip nothing. */
  lemma ZonesDecide(za: Zone, zb: Zone)
    requires Real(za) && Real(zb)
    ensures SetSuffices(za, zb) <==> SameClock(za, zb)
  {
    if SameClock(za, zb) { AgreeingClocksSuffice(za, zb); } else { OtherClocksDoNot(za, zb); }
  }

  lemma FixedIsReal(m: int)
    requires -MINUTES_PER_DAY < m < MINUTES_PER_DAY
    ensures Real(FixedZone(m))
  {
  }

  /** Between fixed offsets: if and only if they are the same. */
  lemma OffsetsDecide(m: int, n: int)
    requires -MINUTES_PER_DAY < m < MINUTES_PER_DAY && -MINUTES_PER_DAY < n < MINUTES_PER_DAY
    ensures SetSuffices(FixedZone(m), FixedZone(n)) <==> m == n
  {
    FixedIsReal(m);
    FixedIsReal(n);
    ZonesDecide(FixedZone(m), FixedZone(n));
    assert Mark(0);
    if SameClock(FixedZone(m), FixedZone(n)) { assert Agree(FixedZone(m), FixedZone(n), 0); }
    if m == n { SteadyKeepsTime(FixedZone(m)); }
  }

  // Inputs at which the promise fails.

  /** Sunday, from the minute on, for an hour. */
  function SundayHour(minute: int): WeeklyInterval { WeeklyInterval(0, minute, 60) }

  lemma HoursApart(minute: int, later: int)
    requires SundayHour(minute).WellFormed() && SundayHour(later).WellFormed() && minute + 60 <= later <= 23 * 60
    ensures NeverMeet(SundayHour(minute), SundayHour(later))
  {
    forall k, l ensures !SundayHour(minute).Copy(k).Overlaps(SundayHour(later).Copy(l)) {
      SameDayApart(SundayHour(minute), SundayHour(later), k, l);
    }
  }

  function InRiyadh(): WindowsInput { Once(FixedZone(180), SundayHour(540)) }

  function InDubai(): WindowsInput { Once(FixedZone(240), SundayHour(600)) }

  lemma BothAtSix()
    ensures InRiyadh().Working(6 * HOUR) && InDubai().Working(6 * HOUR)
  {
    OnceWorks(FixedZone(180), SundayHour(540), 0, 6 * HOUR);
    OnceWorks(FixedZone(240), SundayHour(600), 0, 6 * HOUR);
  }

  lemma BothPass()
    ensures LetPass(InRiyadh(), InDubai(), FixedZone(180), FixedZone(240))
  {
    HoursApart(540, 600);
    OncePasses(FixedZone(180), FixedZone(240), SundayHour(540), SundayHour(600));
  }

  /** 09:00 to 10:00 in Riyadh and 10:00 to 11:00 in Dubai are the same hour. */
  lemma DifferentZonesClash(from: int, to: int, from': int, to': int, v: seq<Span>, w: seq<Span>)
    requires from <= 6 * HOUR < to && from' <= 6 * HOUR < to'
    requires InRiyadh().AreWindows(from, to, v) && InDubai().AreWindows(from', to', w)
    ensures InRiyadh().Valid() && InDubai().Valid() && LetPass(InRiyadh(), InDubai(), FixedZone(180), FixedZone(240))
    ensures In(6 * HOUR, v) && In(6 * HOUR, w)
  {
    FixedZoneValid(180);
    FixedZoneValid(240);
    BothAtSix();
    BothPass();
  }

  /** The clock goes from 02:00 to 03:00 on date 0, three hours ahead of UTC before. */
  function SpringZone(): Zone { ChangingZone(180, 0, 120, 60) }

  /** 01:50 to 02:50, mostly skipped that day, lasts into the hour from 03:00 on. */
  lemma SkippedHourClashes(from: int, to: int, from': int, to': int, v: seq<Span>, w: seq<Span>)
    requires from <= -HOUR < to && from' <= -HOUR < to'
    requires var (a, b) := (Once(SpringZone(), SundayHour(110)), Once(SpringZone(), SundayHour(180)));
             a.AreWindows(from, to, v) && b.AreWindows(from', to', w)
    ensures var (a, b) := (Once(SpringZone(), SundayHour(110)), Once(SpringZone(), SundayHour(180)));
            a.Valid() && b.Valid() && LetPass(a, b, SpringZone(), SpringZone())
    ensures In(-HOUR, v) && In(-HOUR, w)
  {
    ChangingZoneValid(180, 0, 120, 60);
    HoursApart(110, 180);
    OncePasses(SpringZone(), SpringZone(), SundayHour(110), SundayHour(180));
    OnceWorks(SpringZone(), SundayHour(110), 0, -HOUR);
    OnceWorks(SpringZone(), SundayHour(180), 0, -HOUR);
  }

  /** 09:00 to 10:00 on date 0, and nothing else. */
  function OneMorning(): Plan { Plan(WeeklyHours([]), map[0 := [DayInterval(540, 60)]]) }

  lemma OneMorningAccepted()
    ensures AcceptableOverrides(OneMorning().overrides) && OneMorning().Valid()
    ensures OneMorning().Starts(0, DayInterval(540, 60))
  {
  }

  /** The same override is accepted at a second branch: overrides are not compared. */
  lemma OverridesAreNotCompared(b: int, c: int)
    requires b != c
    ensures var one := map[b := Row(OneMorning(), 1)];
            var two := map[b := Row(OneMorning(), 1), c := Row(OneMorning(), 1)];
            && Updates(map[], b, one) && Updates(one, c, two)
            && !Refused(one, c, OneMorning().weekly, OneMorning().overrides)
  {
    OneMorningAccepted();
    var one := map[b := Row(OneMorning(), 1)];
    assert one[c := Row(OneMorning(), 1)] == map[b := Row(OneMorning(), 1), c := Row(OneMorning(), 1)];
  }

  /** A branch open all Sunday, and someone there that one morning. */
  function OpenSundays(z: Zone): WindowsInput {
    WindowsInput(z, WeeklyHours([WeeklyInterval(0, 0, MINUTES_PER_DAY)]), {}, OneMorning(), [])
  }

  /** And then the person is in two shops at once: the morning is in the windows of both. */
  lemma OverridesCanClash(z: Zone, from: int, to: int, from': int, to': int, v: seq<Span>, w: seq<Span>)
    requires z.Valid() && z.Steady()
    requires var t := z.At(0, 540); from <= t < to && from' <= t < to'
    requires OpenSundays(z).AreWindows(from, to, v) && OpenSundays(z).AreWindows(from', to', w)
    ensures OpenSundays(z).Valid() && In(z.At(0, 540), v) && In(z.At(0, 540), w)
  {
    OneMorningAccepted();
    var a, t := OpenSundays(z), z.At(0, 540);
    var day, x := DayInterval(0, MINUTES_PER_DAY), DayInterval(540, 60);
    assert day.On(Weekday(0)) in a.opening.intervals && a.Within(0, day, t);
    assert a.plan.Starts(0, x) && a.Within(0, x, t);
  }
}
