/** Start times a branch offers on a day, and who could take each. */
module Availability {
  import opened Intervals
  import opened Calendar

  datatype Candidate = Candidate(staff: int, length: int, windows: seq<Span>, busy: seq<Span>) {
    ghost predicate Takes(start: int) {
      && length > 0
      && (exists i :: 0 <= i < |windows| && windows[i].Covers(Interval(start, start + length)))
      && (forall i :: 0 <= i < |busy| ==> !busy[i].Overlaps(Interval(start, start + length)))
    }

    method CanTake(start: int) returns (ok: bool)
      ensures ok <==> Takes(start)
    {
      var span := NewInterval(start, start + length);
      if span.None? {
        return false;
      }
      var inside := false;
      for i := 0 to |windows|
        invariant !inside && forall k :: 0 <= k < i ==> !windows[k].Covers(span.value)
      {
        if windows[i].Covers(span.value) {
          inside := true;
          break;
        }
      }
      if !inside {
        return false;
      }
      for i := 0 to |busy|
        invariant forall k :: 0 <= k < i ==> !busy[k].Overlaps(span.value)
      {
        if busy[i].Overlaps(span.value) {
          return false;
        }
      }
      return true;
    }
  }

  /** With windows in normal form, a booking fits inside one window exactly when
      every instant of it is covered, and is clear of appointments exactly when
      none of its instants is taken. */
  lemma TakesByInstants(c: Candidate, start: int)
    requires Separated(c.windows)
    ensures c.Takes(start) <==>
            c.length > 0 && forall t :: start <= t < start + c.length ==> In(t, c.windows) && !In(t, c.busy)
  {
    if c.length > 0 {
      var span: Span := Interval(start, start + c.length);
      OneSpanCovers(c.windows, span);
      NoneOverlaps(c.busy, span);
      assert forall t :: span.Contains(t) <==> start <= t < start + c.length;
    }
  }

  lemma NoneOverlaps(busy: seq<Span>, span: Span)
    ensures (forall i :: 0 <= i < |busy| ==> !busy[i].Overlaps(span)) <==> forall t :: span.Contains(t) ==> !In(t, busy)
  {
    if i :| 0 <= i < |busy| && busy[i].Overlaps(span) {
      OverlapIsSharedInstant(busy[i], span);
      var t :| busy[i].Contains(t) && span.Contains(t);
      assert In(t, busy);
    }
  }

  /** The branch's local clock is a whole number of intervals after midnight. Both
      quotients are of a positive interval whenever they matter. */
  predicate OnGrid(t: int, zone: Zone, interval: int) {
    var step := interval / MINUTE;
    step > 0 && zone.Local(t) % MINUTE == 0 && zone.Local(t) % DAY / MINUTE % step == 0
  }

  /** On its date, the branch's clock reads n minutes past midnight, and no seconds. */
  predicate Reads(t: int, zone: Zone, n: int) { zone.Local(t) == zone.DateOf(t) * DAY + n * MINUTE }

  lemma RemainderIs(x: int, q: int, r: int)
    requires x == MINUTE * q + r && 0 <= r < MINUTE
    ensures x % MINUTE == r
  {
  }

  lemma ReadingOfDay(reading: int)
    ensures reading == reading / DAY * DAY + reading % DAY && 0 <= reading % DAY < DAY
    ensures reading % MINUTE == reading % DAY % MINUTE
  {
    var (d, r) := (reading / DAY, reading % DAY);
    RemainderIs(reading, MINUTES_PER_DAY * d + r / MINUTE, r % MINUTE);
  }

  /** A start is on the grid exactly when the clock reads a whole number of steps past
      midnight. */
  lemma GridReads(t: int, zone: Zone, interval: int)
    ensures OnGrid(t, zone, interval) <==>
            && interval / MINUTE > 0
            && exists n :: 0 <= n < MINUTES_PER_DAY && n % (interval / MINUTE) == 0 && Reads(t, zone, n)
  {
    var reading := zone.Local(t);
    ReadingOfDay(reading);
    if OnGrid(t, zone, interval) {
      var n := reading % DAY / MINUTE;
      assert reading % DAY == n * MINUTE && Reads(t, zone, n);
    }
    if interval / MINUTE > 0 {
      if n :| 0 <= n < MINUTES_PER_DAY && n % (interval / MINUTE) == 0 && Reads(t, zone, n) {
        assert reading % DAY == n * MINUTE;
        MinutesAreWhole(n);
        assert n * MINUTE / MINUTE == n;
      }
    }
  }

  lemma FixedReads(m: int, date: int, n: int)
    requires 0 <= n < MINUTES_PER_DAY
    ensures var z := FixedZone(m); z.DateOf(z.At(date, n)) == date && Reads(z.At(date, n), z, n)
  {
    var z := FixedZone(m);
    assert z.Local(z.At(date, n)) == date * DAY + n * MINUTE;
  }

  /** In a zone without clock changes: the multiples of the interval past midnight. */
  lemma FixedGrid(m: int, date: int, n: int, k: int)
    requires 0 <= n < MINUTES_PER_DAY && k > 0
    ensures OnGrid(FixedZone(m).At(date, n), FixedZone(m), k * MINUTE) <==> n % k == 0
  {
    var z := FixedZone(m);
    var t := z.At(date, n);
    FixedReads(m, date, n);
    GridReads(t, z, k * MINUTE);
    assert k * MINUTE / MINUTE == k;
    forall n' | Reads(t, z, n') ensures n' == n {}
  }

  /** And nothing else is on it. */
  lemma FixedGridIsAt(m: int, t: int, k: int) returns (n: int)
    requires k > 0 && OnGrid(t, FixedZone(m), k * MINUTE)
    ensures 0 <= n < MINUTES_PER_DAY && n % k == 0 && t == FixedZone(m).At(FixedZone(m).DateOf(t), n)
  {
    GridReads(t, FixedZone(m), k * MINUTE);
    assert k * MINUTE / MINUTE == k;
    n :| 0 <= n < MINUTES_PER_DAY && n % k == 0 && Reads(t, FixedZone(m), n);
  }

  lemma MinutesAreWhole(k: int)
    ensures MINUTE * k % MINUTE == 0
  {
  }

  lemma GridIsWholeMinutes(t: int, zone: Zone, interval: int)
    requires OnGrid(t, zone, interval)
    ensures t % MINUTE == 0
  {
    var reading := zone.Local(t);
    assert reading == MINUTE * (reading / MINUTE);
    assert t == MINUTE * (reading / MINUTE - zone.offset(t));
    MinutesAreWhole(reading / MINUTE - zone.offset(t));
  }

  ghost predicate Increasing(s: seq<int>) { forall i, j :: 0 <= i < j < |s| ==> s[i] < s[j] }

  /** Exactly the instants of the stretch that are on the grid. */
  ghost predicate IsGrid(ts: seq<int>, lo: int, hi: int, zone: Zone, interval: int) {
    Increasing(ts) && forall t :: t in ts <==> lo <= t < hi && OnGrid(t, zone, interval)
  }

  lemma OneMoreMinute(ts: seq<int>, lo: int, t: int, zone: Zone, interval: int)
    requires IsGrid(ts, lo, t, zone, interval) && lo <= t && t % MINUTE == 0
    ensures IsGrid(if OnGrid(t, zone, interval) then ts + [t] else ts, lo, t + MINUTE, zone, interval)
  {
    assert forall k :: 0 <= k < |ts| ==> ts[k] in ts;
    forall u | t < u < t + MINUTE ensures !OnGrid(u, zone, interval) {
      if OnGrid(u, zone, interval) { GridIsWholeMinutes(u, zone, interval); }
    }
  }

  lemma NextMinute(t: int, end: int)
    requires t % MINUTE == 0 && end % MINUTE == 0 && t < end
    ensures t + MINUTE <= end && (t + MINUTE) % MINUTE == 0
  {
  }

  /** Walks the day's real instants minute by minute: every instant on the grid is
      met, on days with clock changes too. */
  method Grid(day: int, zone: Zone, step: int) returns (ts: seq<int>)
    requires zone.Valid()
    ensures IsGrid(ts, zone.Midnight(day), zone.Midnight(day + 1), zone, step * MINUTE)
  {
    ts := [];
    var t, end := zone.Midnight(day), zone.Midnight(day + 1);
    zone.MidnightsInOrder(day, day + 1);
    while t < end
      invariant zone.Midnight(day) <= t <= end && t % MINUTE == 0
      invariant IsGrid(ts, zone.Midnight(day), t, zone, step * MINUTE)
      decreases end - t
    {
      OneMoreMinute(ts, zone.Midnight(day), t, zone, step * MINUTE);
      NextMinute(t, end);
      if OnGrid(t, zone, step * MINUTE) {
        ts := ts + [t];
      }
      t := t + MINUTE;
    }
  }

  datatype SlotRules = SlotRules(zone: Zone, interval: int, earliest: int, latest: int)

  datatype Slot = Slot(start: int, staff: seq<int>)

  /** Who can take the start, in candidate order. */
  ghost function FreeStaff(cands: seq<Candidate>, start: int): seq<int> {
    if cands == [] then []
    else
      var c := cands[|cands| - 1];
      FreeStaff(cands[..|cands| - 1], start) + if c.Takes(start) then [c.staff] else []
  }

  lemma {:induction false} FreeStaffMembers(cands: seq<Candidate>, start: int, s: int)
    ensures s in FreeStaff(cands, start) <==>
            exists i :: 0 <= i < |cands| && cands[i].staff == s && cands[i].Takes(start)
    decreases |cands|
  {
    if cands != [] { FreeStaffMembers(cands[..|cands| - 1], start, s); }
  }

  ghost predicate StaffInOrder(cands: seq<Candidate>) {
    forall i, j :: 0 <= i < j < |cands| ==> cands[i].staff < cands[j].staff
  }

  /** Candidates by ID give each slot's barbers by ID. */
  lemma {:induction false} FreeStaffInOrder(cands: seq<Candidate>, start: int)
    requires StaffInOrder(cands)
    ensures Increasing(FreeStaff(cands, start))
    ensures forall s :: s in FreeStaff(cands, start) ==> exists i :: 0 <= i < |cands| && cands[i].staff == s
    decreases |cands|
  {
    if cands != [] {
      var front, c := cands[..|cands| - 1], cands[|cands| - 1];
      FreeStaffInOrder(front, start);
      forall k | 0 <= k < |FreeStaff(front, start)| ensures FreeStaff(front, start)[k] < c.staff {
        assert FreeStaff(front, start)[k] in FreeStaff(front, start);
        var i :| 0 <= i < |front| && front[i].staff == FreeStaff(front, start)[k];
        assert cands[i].staff < cands[|cands| - 1].staff;
      }
      forall s | s in FreeStaff(cands, start) ensures exists i :: 0 <= i < |cands| && cands[i].staff == s {
        if s in FreeStaff(front, start) {
          var i :| 0 <= i < |front| && front[i].staff == s;
          assert cands[i].staff == s;
        } else {
          assert cands[|cands| - 1].staff == s;
        }
      }
    }
  }

  ghost predicate Listed(slots: seq<Slot>, t: int, s: int) {
    exists k :: 0 <= k < |slots| && slots[k].start == t && s in slots[k].staff
  }

  ghost predicate Offers(day: int, r: SlotRules, t: int) {
    r.zone.Midnight(day) <= t < r.zone.Midnight(day + 1) && OnGrid(t, r.zone, r.interval) && r.earliest <= t < r.latest
  }

  ghost predicate HasStart(slots: seq<Slot>, t: int) { exists k :: 0 <= k < |slots| && slots[k].start == t }

  /** Offered then, and lists exactly who can take it: someone. */
  ghost predicate GoodSlot(day: int, r: SlotRules, cands: seq<Candidate>, slot: Slot) {
    Offers(day, r, slot.start) && slot.staff == FreeStaff(cands, slot.start) && slot.staff != []
  }

  ghost predicate InOrder(slots: seq<Slot>) { forall i, j :: 0 <= i < j < |slots| ==> slots[i].start < slots[j].start }

  /** The slots of the grid's first n starts. */
  ghost predicate SlotsOf(day: int, r: SlotRules, cands: seq<Candidate>, ts: seq<int>, n: nat, slots: seq<Slot>)
    requires n <= |ts|
  {
    && InOrder(slots)
    && (n < |ts| ==> forall k :: 0 <= k < |slots| ==> slots[k].start < ts[n])
    && (forall k :: 0 <= k < |slots| ==> GoodSlot(day, r, cands, slots[k]))
    && (forall m :: 0 <= m < n && Offers(day, r, ts[m]) && FreeStaff(cands, ts[m]) != [] ==> HasStart(slots, ts[m]))
  }

  lemma OneMoreSlot(day: int, r: SlotRules, cands: seq<Candidate>, ts: seq<int>, n: nat, slots: seq<Slot>)
    requires n < |ts| && Increasing(ts) && SlotsOf(day, r, cands, ts, n, slots)
    requires Offers(day, r, ts[n]) && FreeStaff(cands, ts[n]) != []
    ensures SlotsOf(day, r, cands, ts, n + 1, slots + [Slot(ts[n], FreeStaff(cands, ts[n]))])
  {
    StartsGrow(slots, Slot(ts[n], FreeStaff(cands, ts[n])));
  }

  lemma NoMoreSlot(day: int, r: SlotRules, cands: seq<Candidate>, ts: seq<int>, n: nat, slots: seq<Slot>)
    requires n < |ts| && Increasing(ts) && SlotsOf(day, r, cands, ts, n, slots)
    requires !Offers(day, r, ts[n]) || FreeStaff(cands, ts[n]) == []
    ensures SlotsOf(day, r, cands, ts, n + 1, slots)
  {
  }

  method Slots(day: int, r: SlotRules, cands: seq<Candidate>) returns (slots: seq<Slot>)
    requires r.zone.Valid()
    ensures InOrder(slots)
    ensures forall k :: 0 <= k < |slots| ==> GoodSlot(day, r, cands, slots[k])
    ensures forall t :: Offers(day, r, t) && FreeStaff(cands, t) != [] ==> HasStart(slots, t)
  {
    slots := [];
    var step := r.interval / MINUTE;
    if step <= 0 {
      return;
    }
    SameStep(r.interval);
    var ts := Grid(day, r.zone, step);
    for n := 0 to |ts|
      invariant SlotsOf(day, r, cands, ts, n, slots)
    {
      var start := ts[n];
      assert start in ts;
      if r.earliest <= start < r.latest {
        var free := FreeOf(cands, start);
        if |free| > 0 {
          OneMoreSlot(day, r, cands, ts, n, slots);
          slots := slots + [Slot(start, free)];
        } else {
          NoMoreSlot(day, r, cands, ts, n, slots);
        }
      } else {
        NoMoreSlot(day, r, cands, ts, n, slots);
      }
    }
    forall t | Offers(day, r, t) && FreeStaff(cands, t) != [] ensures HasStart(slots, t) { assert t in ts; }
  }

  /** The grid is asked for by whole minutes, which is all the interval counts for. */
  lemma SameStep(interval: int)
    ensures forall t, zone :: OnGrid(t, zone, interval / MINUTE * MINUTE) <==> OnGrid(t, zone, interval)
  {
    assert interval / MINUTE * MINUTE / MINUTE == interval / MINUTE;
  }

  lemma StartsGrow(slots: seq<Slot>, slot: Slot)
    ensures HasStart(slots + [slot], slot.start)
    ensures forall t :: HasStart(slots, t) ==> HasStart(slots + [slot], t)
  {
    assert (slots + [slot])[|slots|] == slot;
    forall t | HasStart(slots, t) ensures HasStart(slots + [slot], t) {
      var k :| 0 <= k < |slots| && slots[k].start == t;
      assert (slots + [slot])[k] == slots[k];
    }
  }

  /** What the slots of a day say, start by start and barber by barber. */
  lemma SlotsByStart(day: int, r: SlotRules, cands: seq<Candidate>, slots: seq<Slot>, t: int, s: int)
    requires forall k :: 0 <= k < |slots| ==> GoodSlot(day, r, cands, slots[k])
    requires forall t :: Offers(day, r, t) && FreeStaff(cands, t) != [] ==> HasStart(slots, t)
    ensures Listed(slots, t, s) <==>
            Offers(day, r, t) && exists i :: 0 <= i < |cands| && cands[i].staff == s && cands[i].Takes(t)
  {
    FreeStaffMembers(cands, t, s);
    if Offers(day, r, t) && s in FreeStaff(cands, t) {
      assert HasStart(slots, t);
      var k :| 0 <= k < |slots| && slots[k].start == t;
      assert GoodSlot(day, r, cands, slots[k]);
    }
  }

  /** The loop over candidates for one start. */
  method FreeOf(cands: seq<Candidate>, start: int) returns (free: seq<int>)
    ensures free == FreeStaff(cands, start)
  {
    free := [];
    for n := 0 to |cands|
      invariant free == FreeStaff(cands[..n], start)
    {
      assert cands[..n + 1][..n] == cands[..n];
      var ok := cands[n].CanTake(start);
      if ok {
        free := free + [cands[n].staff];
      }
    }
    assert cands[..|cands|] == cands;
  }
}
