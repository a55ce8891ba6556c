/** Dates, wall clocks and time zones. */
module Calendar {
  import opened Intervals

  const MINUTES_PER_DAY := 24 * 60

  /** A date is the number of days since some Sunday, so AddDays is addition and
      Compare is integer comparison. */
  function Weekday(date: int): int { date % 7 }

  /** As the database keeps an instant: UTC, to the microsecond. */
  function DbTime(t: int): (r: int)
    ensures r <= t < r + 1000 && r % 1000 == 0
  {
    t - t % 1000
  }

  /** A branch's time zone. `wall` is what time.Date answers for a wall-clock
      minute (counted from midnight of date 0); `offset` is how many minutes the
      local clock is ahead at an instant. */
  datatype Zone = Zone(wall: int -> int, offset: int -> int) {

    /** The local clock's reading, on the same scale as instants. */
    function Local(t: int): int { t + offset(t) * MINUTE }

    function DateOf(t: int): int { Local(t) / DAY }

    /** Date.At: minutes past 24:00 run on into the next day. */
    function At(date: int, minute: int): int { wall(date * MINUTES_PER_DAY + minute) }

    function Midnight(date: int): int { At(date, 0) }

    /** The zones covered: whole-minute offsets, and every date a single stretch of
        instants from its midnight to the next. Clock changes are allowed, except
        so near midnight that a date would begin twice or its start be skipped, and
        no date lasts longer than 48 hours. */
    ghost predicate Valid() { WholeMinutes() && MidnightsCut() && DatesWhole() && DatesShort() }

    ghost predicate WholeMinutes() { forall m :: wall(m) % MINUTE == 0 }

    ghost predicate MidnightsCut() { forall m, d :: Cuts(m, d) }

    predicate Cuts(m: int, d: int) {
      && (m <= d * MINUTES_PER_DAY ==> wall(m) <= Midnight(d))
      && (m >= d * MINUTES_PER_DAY ==> wall(m) >= Midnight(d))
    }

    ghost predicate DatesWhole() { forall t :: Midnight(DateOf(t)) <= t < Midnight(DateOf(t) + 1) }

    ghost predicate DatesShort() { forall d :: Midnight(d + 1) - Midnight(d) <= 2 * DAY }

    /** No clock change at all moves the wall clock back or makes it stop. */
    ghost predicate Steady() {
      forall m, n :: m < n ==> wall(m) < wall(n)
    }

    lemma MidnightsInOrder(d: int, e: int)
      requires Valid() && d <= e
      ensures Midnight(d) <= Midnight(e)
    {
      assert Cuts(d * MINUTES_PER_DAY + 0, e);
    }

    lemma DateIs(t: int, d: int)
      requires Valid()
      ensures DateOf(t) == d <==> Midnight(d) <= t < Midnight(d + 1)
    {
      if DateOf(t) < d { MidnightsInOrder(DateOf(t) + 1, d); }
      if DateOf(t) > d { MidnightsInOrder(d + 1, DateOf(t)); }
    }

    lemma DatesInOrder(t: int, u: int)
      requires Valid() && t <= u
      ensures DateOf(t) <= DateOf(u)
    {
      if DateOf(u) < DateOf(t) { MidnightsInOrder(DateOf(u) + 1, DateOf(t)); }
    }
  }

  /** A zone without clock changes, such as Asia/Riyadh. */
  function FixedZone(minutes: int): Zone {
    Zone(m => (m - minutes) * MINUTE, t => minutes)
  }

  lemma FixedZoneValid(minutes: int)
    ensures FixedZone(minutes).Valid() && FixedZone(minutes).Steady()
  {
    var z := FixedZone(minutes);
    assert z.WholeMinutes() && z.Steady();
    assert z.MidnightsCut() by {
      forall m, d ensures z.Cuts(m, d) { FixedCuts(minutes, m, d); }
    }
    assert z.DatesWhole() by {
      forall t ensures z.Midnight(z.DateOf(t)) <= t < z.Midnight(z.DateOf(t) + 1) { FixedDate(minutes, t); }
    }
    assert z.DatesShort() by {
      forall d ensures z.Midnight(d + 1) - z.Midnight(d) <= 2 * DAY { FixedCuts(minutes, 0, d); }
    }
  }

  lemma FixedCuts(minutes: int, m: int, d: int)
    ensures var z := FixedZone(minutes); z.Cuts(m, d) && z.Midnight(d + 1) - z.Midnight(d) == DAY
  {
  }

  lemma FixedDate(minutes: int, t: int)
    ensures var z := FixedZone(minutes); z.Midnight(z.DateOf(t)) <= t < z.Midnight(z.DateOf(t) + 1)
  {
  }

  lemma DayHolds(reading: int)
    ensures reading / DAY * DAY <= reading < (reading / DAY + 1) * DAY
  {
  }

  /** A zone whose clock moves by `shift` minutes when it reaches `minute` of
      `date`: forward (a skipped stretch, read with the old offset) or back (a
      repeated one, whose first pass is answered). */
  function ChangingZone(minutes: int, date: int, minute: int, shift: int): Zone {
    var at := date * MINUTES_PER_DAY + minute;
    Zone(m => if m < at + Later(shift, 0) then (m - minutes) * MINUTE else (m - minutes - shift) * MINUTE,
         t => if t < (at - minutes) * MINUTE then minutes else minutes + shift)
  }

  /** Clock changes that keep away from midnight are within what is proved. */
  lemma ChangingZoneValid(minutes: int, date: int, minute: int, shift: int)
    requires Later(0, -shift) < minute && minute + 2 * Later(shift, 0) <= MINUTES_PER_DAY
    ensures ChangingZone(minutes, date, minute, shift).Valid()
  {
    ChangingWholeMinutes(minutes, date, minute, shift);
    ChangingMidnightsCut(minutes, date, minute, shift);
    ChangingDatesWhole(minutes, date, minute, shift);
    ChangingDatesShort(minutes, date, minute, shift);
  }

  lemma ChangingDatesShort(minutes: int, date: int, minute: int, shift: int)
    requires Later(0, -shift) < minute && minute + 2 * Later(shift, 0) <= MINUTES_PER_DAY
    ensures ChangingZone(minutes, date, minute, shift).DatesShort()
  {
    var z := ChangingZone(minutes, date, minute, shift);
    forall d ensures z.Midnight(d + 1) - z.Midnight(d) <= 2 * DAY {
      ChangingMidnight(minutes, date, minute, shift, 0, d);
      ChangingMidnight(minutes, date, minute, shift, 0, d + 1);
    }
  }

  lemma ChangingWholeMinutes(minutes: int, date: int, minute: int, shift: int)
    ensures ChangingZone(minutes, date, minute, shift).WholeMinutes()
  {
  }

  lemma ChangingMidnightsCut(minutes: int, date: int, minute: int, shift: int)
    requires Later(0, -shift) < minute && minute + 2 * Later(shift, 0) <= MINUTES_PER_DAY
    ensures ChangingZone(minutes, date, minute, shift).MidnightsCut()
  {
    var z := ChangingZone(minutes, date, minute, shift);
    forall m, d ensures z.Cuts(m, d) {
      ChangingMidnight(minutes, date, minute, shift, m, d);
    }
  }

  lemma ChangingDatesWhole(minutes: int, date: int, minute: int, shift: int)
    requires Later(0, -shift) < minute && minute + 2 * Later(shift, 0) <= MINUTES_PER_DAY
    ensures ChangingZone(minutes, date, minute, shift).DatesWhole()
  {
    var z := ChangingZone(minutes, date, minute, shift);
    forall t ensures z.Midnight(z.DateOf(t)) <= t < z.Midnight(z.DateOf(t) + 1) {
      ChangingDate(minutes, date, minute, shift, t);
    }
  }

  lemma ChangingMidnight(minutes: int, date: int, minute: int, shift: int, m: int, d: int)
    requires Later(0, -shift) < minute && minute + 2 * Later(shift, 0) <= MINUTES_PER_DAY
    ensures var z := ChangingZone(minutes, date, minute, shift);
            && z.Midnight(d) == (d * MINUTES_PER_DAY - minutes - if d <= date then 0 else shift) * MINUTE
            && z.Cuts(m, d)
  {
  }

  lemma ChangingDate(minutes: int, date: int, minute: int, shift: int, t: int)
    requires Later(0, -shift) < minute && minute + 2 * Later(shift, 0) <= MINUTES_PER_DAY
    ensures var z := ChangingZone(minutes, date, minute, shift);
            z.Midnight(z.DateOf(t)) <= t < z.Midnight(z.DateOf(t) + 1)
  {
    var z := ChangingZone(minutes, date, minute, shift);
    var d := z.DateOf(t);
    DayHolds(z.Local(t));
    ChangingMidnight(minutes, date, minute, shift, 0, d);
    ChangingMidnight(minutes, date, minute, shift, 0, d + 1);
  }
}
