/** Repeating weekly hours: which lists are accepted, and when two weeks clash. */
module Weekly {
  import opened Wrappers
  import opened Intervals
  import opened Sorting
  import opened Slices
  import opened Calendar

  const MINUTES_PER_WEEK := 7 * MINUTES_PER_DAY
  const STEP := 5
  const MAX_PER_DAY := 4

  datatype Error = InvalidWeekday | InvalidInterval | TooManyIntervals | OverlappingIntervals

  /** Starts on `day` (0 is Sunday) and may run past midnight. */
  datatype WeeklyInterval = WeeklyInterval(day: int, start: int, minutes: int) {
    function End(): int { start + minutes }

    function WeekStart(): int { day * MINUTES_PER_DAY + start }

    predicate ValidDay() { 0 <= day <= 6 }

    predicate ValidTimes() {
      && 0 <= start < MINUTES_PER_DAY && start % STEP == 0
      && STEP <= minutes <= MINUTES_PER_DAY && minutes % STEP == 0
    }

    predicate WellFormed() { ValidDay() && ValidTimes() }

    /** The stretch of wall-clock minutes it takes in one particular week. */
    function Copy(week: int): Interval {
      Interval(WeekStart() + week * MINUTES_PER_WEEK, WeekStart() + week * MINUTES_PER_WEEK + minutes)
    }
  }

  datatype WeeklyHours = WeeklyHours(intervals: seq<WeeklyInterval>)

  /** In some pair of weeks the two are on at the same time. */
  ghost predicate MeetSomeWeek(a: WeeklyInterval, b: WeeklyInterval) {
    exists k, l :: a.Copy(k).Overlaps(b.Copy(l))
  }

  ghost predicate NeverMeet(a: WeeklyInterval, b: WeeklyInterval) { !MeetSomeWeek(a, b) }

  /** Repeated over all weeks, no two different copies overlap. */
  ghost predicate DisjointForever(s: seq<WeeklyInterval>) {
    forall i, j, k, l :: 0 <= i < |s| && 0 <= j < |s| && (i != j || k != l) ==> !s[i].Copy(k).Overlaps(s[j].Copy(l))
  }

  function OnDay(day: int): WeeklyInterval -> bool { (x: WeeklyInterval) => x.day == day }

  function PerDay(s: seq<WeeklyInterval>, day: int): nat { CountIf(OnDay(day), s) }

  lemma PerDayGrows(s: seq<WeeklyInterval>, n: nat)
    requires n < |s|
    ensures forall day :: PerDay(s[..n + 1], day) == PerDay(s[..n], day) + if s[n].day == day then 1 else 0
    ensures forall day :: PerDay(s[..n + 1], day) <= PerDay(s, day)
  {
    assert s[..n + 1][..n] == s[..n] && s == s[..n + 1] + s[n + 1..];
    forall day ensures PerDay(s[..n + 1], day) <= PerDay(s, day) {
      CountConcat(OnDay(day), s[..n + 1], s[n + 1..]);
    }
  }

  /** What NewWeeklyHours promises to accept. */
  ghost predicate Acceptable(s: seq<WeeklyInterval>) {
    && (forall i :: 0 <= i < |s| ==> s[i].WellFormed())
    && (forall day :: PerDay(s, day) <= MAX_PER_DAY)
    && DisjointForever(s)
  }

  ghost predicate Valid(w: WeeklyHours) {
    && (forall i :: 0 <= i < |w.intervals| ==> w.intervals[i].WellFormed())
    && DisjointForever(w.intervals)
  }

  predicate WeekStartsNoLater(a: WeeklyInterval, b: WeeklyInterval) { a.WeekStart() <= b.WeekStart() }

  /** The next interval's start, the first one's a week later after the last. */
  function NextStart(s: seq<WeeklyInterval>, n: nat): int
    requires n < |s|
  {
    if n == |s| - 1 then s[0].WeekStart() + MINUTES_PER_WEEK else s[n + 1].WeekStart()
  }

  predicate ClearAt(s: seq<WeeklyInterval>, n: nat)
    requires n < |s|
  {
    s[n].WeekStart() + s[n].minutes <= NextStart(s, n)
  }

  /** What the code compares: each interval's end with the next one's start. */
  ghost predicate NeighboursClear(s: seq<WeeklyInterval>) {
    |s| > 1 ==> forall n :: 0 <= n < |s| ==> ClearAt(s, n)
  }

  lemma {:induction false} NeighboursReach(s: seq<WeeklyInterval>, i: nat, j: nat)
    requires NeighboursClear(s) && forall n :: 0 <= n < |s| ==> s[n].WellFormed()
    requires i < j < |s|
    ensures s[i].WeekStart() + s[i].minutes <= s[j].WeekStart()
    decreases j
  {
    assert ClearAt(s, j - 1);
    if i < j - 1 { NeighboursReach(s, i, j - 1); }
  }

  /** Sorted neighbours clear, the wrap-around included, is all weeks clear. */
  lemma NeighboursSuffice(s: seq<WeeklyInterval>)
    requires forall n :: 0 <= n < |s| ==> s[n].WellFormed()
    requires SortedBy(WeekStartsNoLater, s)
    ensures NeighboursClear(s) <==> DisjointForever(s)
  {
    if NeighboursClear(s) { ClearIsDisjoint(s); }
    if DisjointForever(s) { DisjointIsClear(s); }
  }

  lemma ClearIsDisjoint(s: seq<WeeklyInterval>)
    requires forall n :: 0 <= n < |s| ==> s[n].WellFormed()
    requires SortedBy(WeekStartsNoLater, s) && NeighboursClear(s)
    ensures DisjointForever(s)
  {
    forall i, j, k, l | 0 <= i < |s| && 0 <= j < |s| && (i != j || k != l)
      ensures !s[i].Copy(k).Overlaps(s[j].Copy(l))
    {
      if i < j {
        CopiesClear(s, i, j, k, l);
      } else if j < i {
        CopiesClear(s, j, i, l, k);
      } else {
        OwnCopiesClear(s[i], k, l);
      }
    }
  }

  lemma OwnCopiesClear(a: WeeklyInterval, k: int, l: int)
    requires a.WellFormed() && k != l
    ensures !a.Copy(k).Overlaps(a.Copy(l))
  {
  }

  lemma DisjointIsClear(s: seq<WeeklyInterval>)
    requires forall n :: 0 <= n < |s| ==> s[n].WellFormed()
    requires SortedBy(WeekStartsNoLater, s) && DisjointForever(s)
    ensures NeighboursClear(s)
  {
    forall n | 0 <= n < |s| && |s| > 1 ensures ClearAt(s, n) {
      if n == |s| - 1 {
        assert !s[n].Copy(0).Overlaps(s[0].Copy(1));
      } else {
        assert !s[n].Copy(0).Overlaps(s[n + 1].Copy(0));
        assert WeekStartsNoLater(s[n], s[n + 1]);
      }
    }
  }

  lemma CopiesClear(s: seq<WeeklyInterval>, i: nat, j: nat, k: int, l: int)
    requires forall n :: 0 <= n < |s| ==> s[n].WellFormed()
    requires SortedBy(WeekStartsNoLater, s) && NeighboursClear(s)
    requires i < j < |s|
    ensures !s[i].Copy(k).Overlaps(s[j].Copy(l))
  {
    NeighboursReach(s, i, j);
    assert ClearAt(s, |s| - 1);
    if j < |s| - 1 { NeighboursReach(s, j, |s| - 1); }
    assert s[0].WeekStart() <= s[i].WeekStart() by { assert i > 0 ==> WeekStartsNoLater(s[0], s[i]); }
    assert s[j].WeekStart() + s[j].minutes <= s[i].WeekStart() + MINUTES_PER_WEEK;
    if k < l {
      assert k * MINUTES_PER_WEEK + MINUTES_PER_WEEK <= l * MINUTES_PER_WEEK;
    } else if l < k {
      assert l * MINUTES_PER_WEEK + MINUTES_PER_WEEK <= k * MINUTES_PER_WEEK;
    }
  }

  /** Being disjoint over all weeks says nothing about the order of the list. */
  lemma DisjointPermuted(s: seq<WeeklyInterval>, t: seq<WeeklyInterval>)
    requires multiset(s) == multiset(t)
    requires forall n :: 0 <= n < |s| ==> s[n].WellFormed()
    requires DisjointForever(s)
    ensures DisjointForever(t)
  {
    PermutationMembers(s, t);
    var apart := (a: WeeklyInterval, b: WeeklyInterval) => forall k, l :: !a.Copy(k).Overlaps(b.Copy(l));
    assert Pairwise(apart, s);
    PairwisePermuted(apart, s, t);
    forall i, j, k, l | 0 <= i < |t| && 0 <= j < |t| && (i != j || k != l)
      ensures !t[i].Copy(k).Overlaps(t[j].Copy(l))
    {
      if i != j {
        assert apart(t[i], t[j]);
      } else {
        assert t[i] in s;
      }
    }
  }

  lemma AcceptablePermuted(s: seq<WeeklyInterval>, t: seq<WeeklyInterval>)
    requires multiset(s) == multiset(t)
    requires Acceptable(s)
    ensures Acceptable(t)
  {
    PermutationMembers(s, t);
    forall i | 0 <= i < |t| ensures t[i].WellFormed() { assert t[i] in s; }
    forall day ensures PerDay(t, day) <= MAX_PER_DAY {
      CountPermuted(OnDay(day), s, t);
      assert PerDay(s, day) <= MAX_PER_DAY;
    }
    DisjointPermuted(s, t);
  }

  /** The first loop: each interval on its own, and how many start per day. */
  method CheckEach(sorted: seq<WeeklyInterval>) returns (bad: Option<Error>)
    ensures bad.None? <==>
            && (forall i :: 0 <= i < |sorted| ==> sorted[i].WellFormed())
            && (forall day :: PerDay(sorted, day) <= MAX_PER_DAY)
    ensures bad == Some(InvalidWeekday) ==> exists i :: i in sorted && !i.ValidDay()
    ensures bad == Some(InvalidInterval) ==> exists i :: i in sorted && !i.ValidTimes()
    ensures bad == Some(TooManyIntervals) ==> exists day :: PerDay(sorted, day) > MAX_PER_DAY
    ensures bad != Some(OverlappingIntervals)
  {
    var perDay: map<int, nat> := map[];
    for n := 0 to |sorted|
      invariant forall i :: 0 <= i < n ==> sorted[i].WellFormed()
      invariant forall day :: PerDay(sorted[..n], day) == if day in perDay then perDay[day] else 0
      invariant forall day :: day in perDay ==> perDay[day] <= MAX_PER_DAY
    {
      var i := sorted[n];
      assert i in sorted;
      if i.day < 0 || i.day > 6 {
        return Some(InvalidWeekday);
      }
      if i.start < 0 || i.start >= MINUTES_PER_DAY || i.start % STEP != 0 ||
         i.minutes < STEP || i.minutes > MINUTES_PER_DAY || i.minutes % STEP != 0 {
        return Some(InvalidInterval);
      }
      PerDayGrows(sorted, n);
      perDay := perDay[i.day := (if i.day in perDay then perDay[i.day] else 0) + 1];
      if perDay[i.day] > MAX_PER_DAY {
        assert PerDay(sorted[..n + 1], i.day) <= PerDay(sorted, i.day);
        return Some(TooManyIntervals);
      }
    }
    assert sorted[..|sorted|] == sorted;
    return None;
  }

  lemma WrapAround(n: nat, size: nat)
    requires n < size
    ensures (n + 1) % size == if n == size - 1 then 0 else n + 1
  {
  }

  /** The second loop. */
  method CheckNeighbours(sorted: seq<WeeklyInterval>) returns (clear: bool)
    ensures clear <==> NeighboursClear(sorted)
  {
    for n := 0 to |sorted|
      invariant |sorted| > 1 ==> forall m :: 0 <= m < n ==> ClearAt(sorted, m)
    {
      WrapAround(n, |sorted|);
      var cur, next := sorted[n], sorted[(n + 1) % |sorted|];
      var end, nextStart := cur.WeekStart() + cur.minutes, next.WeekStart();
      if n == |sorted| - 1 {
        nextStart := nextStart + MINUTES_PER_WEEK;
      }
      assert nextStart == NextStart(sorted, n);
      if |sorted| > 1 && end > nextStart {
        assert !ClearAt(sorted, n);
        return false;
      }
    }
    return true;
  }

  method NewWeeklyHours(intervals: seq<WeeklyInterval>) returns (r: Result<WeeklyHours, Error>)
    ensures r.Ok? <==> Acceptable(intervals)
    ensures r.Ok? ==> multiset(r.value.intervals) == multiset(intervals)
    ensures r.Ok? ==> Valid(r.value) && SortedBy(WeekStartsNoLater, r.value.intervals)
    ensures r == Err(InvalidWeekday) ==> exists i :: i in intervals && !i.ValidDay()
    ensures r == Err(InvalidInterval) ==> exists i :: i in intervals && !i.ValidTimes()
    ensures r == Err(TooManyIntervals) ==> exists day :: PerDay(intervals, day) > MAX_PER_DAY
    ensures r == Err(OverlappingIntervals) ==>
            (forall i :: i in intervals ==> i.WellFormed()) && !DisjointForever(intervals)
  {
    var buffer := Clone(intervals);
    SortFunc(buffer, WeekStartsNoLater);
    var sorted := buffer[..];
    SameVerdict(intervals, sorted);
    var bad := CheckEach(sorted);
    if bad.Some? {
      return Err(bad.value);
    }
    NeighboursSuffice(sorted);
    var clear := CheckNeighbours(sorted);
    if !clear {
      return Err(OverlappingIntervals);
    }
    return Ok(WeeklyHours(sorted));
  }

  /** Sorting first does not change the verdict, nor what any error says. */
  lemma SameVerdict(intervals: seq<WeeklyInterval>, sorted: seq<WeeklyInterval>)
    requires multiset(intervals) == multiset(sorted)
    ensures Acceptable(intervals) <==> Acceptable(sorted)
    ensures forall i :: i in intervals <==> i in sorted
    ensures forall day :: PerDay(intervals, day) == PerDay(sorted, day)
    ensures (forall i :: 0 <= i < |sorted| ==> sorted[i].WellFormed()) ==>
            (DisjointForever(intervals) <==> DisjointForever(sorted))
  {
    PermutationMembers(intervals, sorted);
    forall day ensures PerDay(intervals, day) == PerDay(sorted, day) {
      CountPermuted(OnDay(day), intervals, sorted);
    }
    if Acceptable(intervals) { AcceptablePermuted(intervals, sorted); }
    if Acceptable(sorted) { AcceptablePermuted(sorted, intervals); }
    if forall i :: 0 <= i < |sorted| ==> sorted[i].WellFormed() {
      forall i | 0 <= i < |intervals| ensures intervals[i].WellFormed() { assert intervals[i] in sorted; }
      if DisjointForever(intervals) { DisjointPermuted(intervals, sorted); }
      if DisjointForever(sorted) { DisjointPermuted(sorted, intervals); }
    }
  }

  /** Both starts lie in one week and neither lasts longer than a day, so only
      neighbouring weeks can meet: three shifts decide. */
  lemma ThreeShiftsDecide(a: WeeklyInterval, b: WeeklyInterval)
    requires a.WellFormed() && b.WellFormed()
    ensures MeetSomeWeek(a, b) <==> exists k :: -1 <= k <= 1 && a.Copy(0).Overlaps(b.Copy(k))
  {
    if k, l :| a.Copy(k).Overlaps(b.Copy(l)) {
      ShiftBack(a, b, k, l);
    }
  }

  lemma ShiftBack(a: WeeklyInterval, b: WeeklyInterval, k: int, l: int)
    requires a.WellFormed() && b.WellFormed() && a.Copy(k).Overlaps(b.Copy(l))
    ensures -1 <= l - k <= 1 && a.Copy(0).Overlaps(b.Copy(l - k))
  {
  }

  /** Some interval of one week is on at the same time as one of the other. */
  ghost predicate HoursMeet(w: WeeklyHours, o: WeeklyHours) {
    exists i, j :: 0 <= i < |w.intervals| && 0 <= j < |o.intervals| && MeetSomeWeek(w.intervals[i], o.intervals[j])
  }

  /** The innermost loop: one pair, at the three shifts. */
  method MeetAtAShift(a: WeeklyInterval, b: WeeklyInterval) returns (r: bool)
    requires a.WellFormed() && b.WellFormed()
    ensures r <==> MeetSomeWeek(a, b)
  {
    ThreeShiftsDecide(a, b);
    var start, other := a.WeekStart(), b.WeekStart();
    var shifts := [-MINUTES_PER_WEEK, 0, MINUTES_PER_WEEK];
    for n := 0 to 3
      invariant forall k :: -1 <= k < n - 1 ==> !a.Copy(0).Overlaps(b.Copy(k))
    {
      var shift := shifts[n];
      if start < other + shift + b.minutes && other + shift < start + a.minutes {
        assert a.Copy(0).Overlaps(b.Copy(n - 1));
        return true;
      }
    }
    return false;
  }

  method Overlaps(w: WeeklyHours, o: WeeklyHours) returns (r: bool)
    requires Valid(w) && Valid(o)
    ensures r <==> HoursMeet(w, o)
  {
    for i := 0 to |w.intervals|
      invariant forall p, q :: 0 <= p < i && 0 <= q < |o.intervals| ==> NeverMeet(w.intervals[p], o.intervals[q])
    {
      for j := 0 to |o.intervals|
        invariant forall q :: 0 <= q < j ==> NeverMeet(w.intervals[i], o.intervals[q])
      {
        var meet := MeetAtAShift(w.intervals[i], o.intervals[j]);
        if meet {
          return true;
        }
      }
    }
    return false;
  }

  /** Go's remainder takes the sign of the dividend. */
  function GoMod(a: int, b: int): int
    requires b > 0
  {
    if a >= 0 then a % b else -(-a % b)
  }

  function IntervalFromClock(day: int, opens: int, closes: int): WeeklyInterval {
    var minutes := GoMod(GoMod(closes - opens, MINUTES_PER_DAY) + MINUTES_PER_DAY, MINUTES_PER_DAY);
    WeeklyInterval(day, opens, if minutes == 0 then MINUTES_PER_DAY else minutes)
  }

  function Clock(i: WeeklyInterval): (int, int) {
    if i.End() == MINUTES_PER_DAY then (i.start, MINUTES_PER_DAY) else (i.start, GoMod(i.End(), MINUTES_PER_DAY))
  }

  /** The remainder taken twice brings any difference of two clock times into a day. */
  lemma Wrapped(a: int)
    requires -MINUTES_PER_DAY <= a <= MINUTES_PER_DAY
    ensures GoMod(GoMod(a, MINUTES_PER_DAY) + MINUTES_PER_DAY, MINUTES_PER_DAY) ==
            if a == -MINUTES_PER_DAY || a == MINUTES_PER_DAY then 0 else if a < 0 then a + MINUTES_PER_DAY else a
  {
    assert GoMod(a, MINUTES_PER_DAY) == if a == -MINUTES_PER_DAY || a == MINUTES_PER_DAY then 0 else a;
  }

  /** Printing an interval's clock times and reading them back gives the interval. */
  lemma ClockThenInterval(i: WeeklyInterval)
    requires 0 <= i.start < MINUTES_PER_DAY && 0 < i.minutes <= MINUTES_PER_DAY
    ensures var (opens, closes) := Clock(i); IntervalFromClock(i.day, opens, closes) == i
  {
    var closes := Clock(i).1;
    assert closes == if i.End() <= MINUTES_PER_DAY then i.End() else i.End() - MINUTES_PER_DAY;
    Wrapped(closes - i.start);
  }

  /** Reading clock times and printing them gives them back, midnight as 24:00. */
  lemma IntervalThenClock(day: int, opens: int, closes: int)
    requires 0 <= opens < MINUTES_PER_DAY && 0 <= closes <= MINUTES_PER_DAY
    ensures var i := IntervalFromClock(day, opens, closes);
            && 0 < i.minutes <= MINUTES_PER_DAY
            && Clock(i) == (opens, if closes == 0 then MINUTES_PER_DAY else closes)
  {
    Wrapped(closes - opens);
    var end := IntervalFromClock(day, opens, closes).End();
    assert end == if closes > opens then closes else closes + MINUTES_PER_DAY;
    assert closes > 0 && end != MINUTES_PER_DAY ==> GoMod(end, MINUTES_PER_DAY) == closes;
  }
}
