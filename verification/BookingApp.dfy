/** The two routes to a start time: what availability shows, and what booking checks
    again. Both are proved against the same plain statement about instants. */
module BookingApp {
  import opened Wrappers
  import opened Intervals
  import opened Sorting
  import opened Slices
  import opened Calendar
  import opened Windows
  import opened Catalog
  import opened Offers
  import opened Availability
  import opened Appointments

  const MAX_WINDOWS_RANGE := 62 * DAY

  /** What the appointments table allows, in halalas. */
  const STORED_PRICE_CAP := 50_000_000

  datatype Policy = Policy(
    minLead: int, horizonDays: int, slotInterval: int, buffer: int,
    autoConfirm: bool, pendingExpiry: int, cancellationWindow: int)
  {
    /** What a branch's policy is checked for, as far as it matters here. */
    predicate Valid() { minLead >= 0 && 0 <= buffer <= HOUR }
  }

  /** Everything the two use cases read, at one moment: the branch and whether it takes
      bookings at all, its menu, who is active staff there, each one's hours and active appointments. */
  datatype World = World(
    now: int, zone: Zone, bookable: bool, business: int, branch: int, policy: Policy,
    menu: seq<MenuItem>, active: set<int>, input: int -> WindowsInput, busy: int -> seq<Span>)
  {
    ghost predicate Valid() {
      && zone.Valid() && policy.Valid() && ValidMenu(menu)
      && forall staff :: input(staff).Valid() && input(staff).zone == zone
    }

    /** How long the booking would take the barber. */
    function Length(services: seq<int>, staff: int): int
      requires PerformsAll(services, menu, staff)
    {
      TotalDuration(services, menu, staff) + policy.buffer
    }

    /** The branch offers this start: on its grid, after the lead time, within the horizon. */
    predicate StartOk(t: int) {
      && OnGrid(t, zone, policy.slotInterval)
      && now + policy.minLead <= t < zone.Midnight(zone.DateOf(now) + policy.horizonDays + 1)
    }

    /** An active barber of the branch who performs every service, and the one asked for if any. */
    predicate Chosen(services: seq<int>, barber: Option<int>, staff: int) {
      PerformsAll(services, menu, staff) && staff in active && (barber.Some? ==> barber.value == staff)
    }

    /** Every instant of the stretch is a working instant and none is taken. */
    ghost predicate FreeFor(staff: int, start: int, length: int) {
      length > 0 && forall t :: start <= t < start + length ==> input(staff).Working(t) && !In(t, busy(staff))
    }

    /** How long the barber is booked that day. */
    function LoadOf(day: int, staff: int): int { BookedOn(busy(staff), zone.Midnight(day), zone.Midnight(day + 1)) }

    /** The whole condition for one barber and one start. */
    ghost predicate Possible(services: seq<int>, barber: Option<int>, start: int, staff: int) {
      Chosen(services, barber, staff) && FreeFor(staff, start, Length(services, staff))
    }
  }

  datatype AppError =
    | NoServicesChosen
    | BranchNotFound
    | InvalidStart
    | NotOnMenu
    | BarberUnavailable
    | InvalidRange
    | BadBooking(error: BookError)

  predicate ServicesOk(services: seq<int>) {
    1 <= |services| <= MAX_SERVICES && forall i, j :: 0 <= i < j < |services| ==> services[i] != services[j]
  }

  ghost predicate SeenIn(ids: seq<int>, n: nat, x: int)
    requires n <= |ids|
  {
    exists i :: 0 <= i < n && ids[i] == x
  }

  method HasDuplicates(ids: seq<int>) returns (dup: bool)
    ensures dup <==> exists i, j :: 0 <= i < j < |ids| && ids[i] == ids[j]
  {
    var seen: set<int> := {};
    for n := 0 to |ids|
      invariant forall i :: 0 <= i < n ==> ids[i] in seen
      invariant forall x :: x in seen ==> SeenIn(ids, n, x)
      invariant forall i, j :: 0 <= i < j < n ==> ids[i] != ids[j]
    {
      if ids[n] in seen {
        assert SeenIn(ids, n, ids[n]);
        return true;
      }
      forall x | x in seen ensures SeenIn(ids, n + 1, x) { assert SeenIn(ids, n, x); }
      seen := seen + {ids[n]};
    }
    return false;
  }

  function EndsAfter(since: int): Span -> bool { (x: Span) => x.end > since }

  function Meets(from: int, to: int): Span -> bool { (x: Span) => x.Overlaps(Interval(from, to)) }

  /** Dropping spans that hold none of the instants asked about changes nothing. */
  lemma FilterPoints(p: Span -> bool, s: seq<Span>, t: int)
    requires forall x :: x in s && x.Contains(t) ==> p(x)
    ensures In(t, Filter(p, s)) <==> In(t, s)
  {
    FilterMembers(p, s);
    if i :| 0 <= i < |s| && s[i].Contains(t) { InMember(Filter(p, s), s[i], t); }
    if i :| 0 <= i < |Filter(p, s)| && Filter(p, s)[i].Contains(t) { InMember(s, Filter(p, s)[i], t); }
  }

  /** The time off the store lists: what ends after `since`. */
  function EndingAfter(offs: seq<Span>, since: int): seq<Span> { Filter(EndsAfter(since), offs) }

  lemma EndedTimeOffIsIrrelevant(offs: seq<Span>, since: int)
    ensures forall t :: t >= since ==> (In(t, EndingAfter(offs, since)) <==> In(t, offs))
  {
    forall t | t >= since ensures In(t, EndingAfter(offs, since)) <==> In(t, offs) {
      FilterPoints(EndsAfter(since), offs, t);
    }
  }

  /** scheduling's answer for one person, the range check and the listed time off
      included. Someone who is no longer active staff of the branch has no windows. */
  method FetchWindows(w: World, staff: int, from: int, to: int) returns (r: Result<seq<Span>, AppError>)
    requires w.Valid()
    ensures r.Err? <==> to <= from || to - from > MAX_WINDOWS_RANGE
    ensures r.Ok? && staff in w.active ==> w.input(staff).AreWindows(from, to, r.value)
    ensures r.Ok? && staff !in w.active ==> r.value == []
  {
    if to <= from || to - from > MAX_WINDOWS_RANGE {
      return Err(InvalidRange);
    }
    if staff !in w.active {
      return Ok([]);
    }
    var input := w.input(staff);
    var listed := EndingAfter(input.timeOff, from);
    EndedTimeOffIsIrrelevant(input.timeOff, from);
    var spans := Clone(listed);
    var given := input.(timeOff := listed);
    var windows := WorkingWindows(given, spans, from, to);
    forall t ensures In(t, windows) <==> from <= t < to && input.Working(t) {
      assert given.Open(t) == input.Open(t) && given.Scheduled(t) == input.Scheduled(t);
    }
    return Ok(windows);
  }

  /** booking's own answer: the active appointments that overlap the range. */
  function FetchBusy(busy: seq<Span>, from: int, to: int): seq<Span> { Filter(Meets(from, to), busy) }

  lemma FarAppointmentsAreIrrelevant(busy: seq<Span>, from: int, to: int)
    ensures forall t :: from <= t < to ==> (In(t, FetchBusy(busy, from, to)) <==> In(t, busy))
  {
    forall t | from <= t < to ensures In(t, FetchBusy(busy, from, to)) <==> In(t, busy) {
      FilterPoints(Meets(from, to), busy, t);
    }
  }

  /** How much of the range the appointment takes. */
  function Taken(b: Span, from: int, to: int): int {
    var s, e := Later(b.start, from), Earlier(b.end, to);
    if e > s then e - s else 0
  }

  function BookedOn(busy: seq<Span>, from: int, to: int): int {
    if busy == [] then 0 else BookedOn(busy[..|busy| - 1], from, to) + Taken(busy[|busy| - 1], from, to)
  }

  ghost function Stretch(lo: int, hi: int): set<int> { set t: int | lo <= t < hi && Interval(lo, hi).Contains(t) }

  lemma {:induction false} StretchSize(lo: int, hi: int)
    ensures |Stretch(lo, hi)| == if lo < hi then hi - lo else 0
    decreases hi - lo
  {
    if lo < hi {
      StretchSize(lo, hi - 1);
      assert Stretch(lo, hi) == Stretch(lo, hi - 1) + {hi - 1};
    } else {
      assert Stretch(lo, hi) == {};
    }
  }

  /** The instants of the range that some appointment takes. */
  ghost function BusyInstants(busy: seq<Span>, from: int, to: int): set<int> {
    set t: int | from <= t < to && In(t, busy)
  }

  lemma OneMoreAppointment(busy: seq<Span>, b: Span, from: int, to: int)
    requires forall i :: 0 <= i < |busy| ==> !busy[i].Overlaps(b)
    ensures |BusyInstants(busy + [b], from, to)| == |BusyInstants(busy, from, to)| + Taken(b, from, to)
  {
    InAppend(busy, b);
    var before, more := BusyInstants(busy, from, to), Stretch(Later(b.start, from), Earlier(b.end, to));
    StretchSize(Later(b.start, from), Earlier(b.end, to));
    assert forall t :: t in more <==> from <= t < to && b.Contains(t);
    assert BusyInstants(busy + [b], from, to) == before + more;
    assert before * more == {};
  }

  /** "Least booked" means what it says: for appointments that do not overlap, the sum
      is the number of instants of the range that are taken. */
  lemma {:induction false} BookedIsBusyTime(busy: seq<Span>, from: int, to: int)
    requires NoneOverlap(busy)
    ensures BookedOn(busy, from, to) == |BusyInstants(busy, from, to)|
    decreases |busy|
  {
    if busy == [] {
      assert BusyInstants(busy, from, to) == {};
    } else {
      var front, b := busy[..|busy| - 1], busy[|busy| - 1];
      assert busy == front + [b];
      BookedIsBusyTime(front, from, to);
      OneMoreAppointment(front, b, from, to);
    }
  }

  lemma {:induction false} FarAppointmentsTakeNothing(busy: seq<Span>, from: int, to: int, longer: int)
    requires to <= longer
    ensures BookedOn(FetchBusy(busy, from, longer), from, to) == BookedOn(busy, from, to)
    decreases |busy|
  {
    if busy != [] {
      var front := busy[..|busy| - 1];
      FarAppointmentsTakeNothing(front, from, to, longer);
      var kept := FetchBusy(front, from, longer);
      assert (kept + [busy[|busy| - 1]])[..|kept|] == kept && kept + [] == kept;
    }
  }

  /** What candidates must be for the day's starts: who, how long, and free exactly
      when the plain condition says so. */
  ghost predicate AreCandidates(w: World, day: int, offers: seq<Offer>, cands: seq<Candidate>) {
    |cands| == |offers| && forall i :: 0 <= i < |offers| ==> IsCandidate(w, day, offers[i], cands[i])
  }

  ghost predicate IsCandidate(w: World, day: int, o: Offer, c: Candidate) {
    && c.staff == o.staff && c.length == o.duration + w.policy.buffer
    && BookedOn(c.busy, w.zone.Midnight(day), w.zone.Midnight(day + 1)) == w.LoadOf(day, o.staff)
    && forall start :: w.zone.DateOf(start) == day ==> (c.Takes(start) <==> w.FreeFor(o.staff, start, c.length))
  }

  /** The range fetched reaches past midnight by the longest booking, so cutting
      windows and appointments to it changes no answer for a start on the day. */
  lemma ClippingIsInvisible(w: World, day: int, c: Candidate, longest: int, start: int)
    requires w.Valid() && c.length <= longest && w.zone.DateOf(start) == day
    requires var from, to := w.zone.Midnight(day), w.zone.Midnight(day + 1) + longest;
             w.input(c.staff).AreWindows(from, to, c.windows) && c.busy == FetchBusy(w.busy(c.staff), from, to)
    ensures c.Takes(start) <==> w.FreeFor(c.staff, start, c.length)
  {
    var from, to := w.zone.Midnight(day), w.zone.Midnight(day + 1) + longest;
    w.zone.DateIs(start, day);
    TakesByInstants(c, start);
    FarAppointmentsAreIrrelevant(w.busy(c.staff), from, to);
    forall t | start <= t < start + c.length
      ensures In(t, c.windows) && !In(t, c.busy) <==> w.input(c.staff).Working(t) && !In(t, w.busy(c.staff))
    {
      assert from <= t < to;
    }
  }

  /** candidates' first loop: the running maximum. */
  method Longest(w: World, services: seq<int>, offers: seq<Offer>) returns (longest: int)
    requires w.Valid() && ServicesOk(services) && forall o :: o in offers ==> IsOffer(services, w.menu, o)
    ensures 0 <= longest <= MAX_SERVICES * MAX_DURATION + HOUR
    ensures forall i :: 0 <= i < |offers| ==> 0 < offers[i].duration + w.policy.buffer <= longest
  {
    longest := 0;
    for n := 0 to |offers|
      invariant 0 <= longest <= MAX_SERVICES * MAX_DURATION + HOUR
      invariant forall i :: 0 <= i < n ==> 0 < offers[i].duration + w.policy.buffer <= longest
    {
      assert IsOffer(services, w.menu, offers[n]);
      TotalsBounded(services, w.menu, offers[n].staff);
      longest := Later(longest, offers[n].duration + w.policy.buffer);
    }
  }

  method CandidateFor(w: World, day: int, o: Offer, longest: int) returns (r: Result<Candidate, AppError>)
    requires w.Valid() && 0 < o.duration + w.policy.buffer <= longest <= MAX_SERVICES * MAX_DURATION + HOUR
    requires o.staff in w.active
    ensures r.Ok? && IsCandidate(w, day, o, r.value)
  {
    var from, to := w.zone.Midnight(day), w.zone.Midnight(day + 1) + longest;
    w.zone.MidnightsInOrder(day, day + 1);
    var windows := FetchWindows(w, o.staff, from, to);
    var c := Candidate(o.staff, o.duration + w.policy.buffer, windows.value, FetchBusy(w.busy(o.staff), from, to));
    forall start | w.zone.DateOf(start) == day ensures c.Takes(start) <==> w.FreeFor(o.staff, start, c.length) {
      ClippingIsInvisible(w, day, c, longest, start);
    }
    FarAppointmentsTakeNothing(w.busy(o.staff), from, w.zone.Midnight(day + 1), to);
    return Ok(c);
  }

  method Candidates(w: World, services: seq<int>, day: int, offers: seq<Offer>)
    returns (r: Result<seq<Candidate>, AppError>)
    requires w.Valid() && ServicesOk(services)
    requires forall o :: o in offers ==> IsOffer(services, w.menu, o) && o.staff in w.active
    ensures r.Ok? && AreCandidates(w, day, offers, r.value)
  {
    var longest := Longest(w, services, offers);
    var cands := [];
    for n := 0 to |offers|
      invariant |cands| == n && forall i :: 0 <= i < n ==> IsCandidate(w, day, offers[i], cands[i])
    {
      var c := CandidateFor(w, day, offers[n], longest);
      cands := cands + [c.value];
    }
    return Ok(cands);
  }

  /** The barber asked for, if any, as slices.IndexFunc and offers[i : i+1] pick them. */
  method Select(offers: seq<Offer>, barber: Option<int>) returns (r: Result<seq<Offer>, AppError>)
    requires ById(offers)
    ensures r.Err? <==> barber.Some? && !Offered(barber.value, offers)
    ensures r.Err? ==> r.error == BarberUnavailable
    ensures r.Ok? ==>
            && ById(r.value)
            && forall o :: o in r.value <==> o in offers && (barber.Some? ==> o.staff == barber.value)
  {
    if barber.None? {
      return Ok(offers);
    }
    for i := 0 to |offers|
      invariant forall k :: 0 <= k < i ==> offers[k].staff != barber.value
    {
      if offers[i].staff == barber.value {
        return Ok(offers[i..i + 1]);
      }
    }
    return Err(BarberUnavailable);
  }

  /** The shared beginning of both use cases: exactly the chosen barbers' offers. */
  ghost predicate AreChosen(w: World, services: seq<int>, barber: Option<int>, offers: seq<Offer>) {
    && ById(offers)
    && (forall o :: o in offers ==> IsOffer(services, w.menu, o))
    && (forall staff :: Offered(staff, offers) <==> w.Chosen(services, barber, staff))
  }

  lemma ChosenAreActive(w: World, services: seq<int>, barber: Option<int>, offers: seq<Offer>)
    requires AreChosen(w, services, barber, offers)
    ensures forall o :: o in offers ==> o.staff in w.active
  {
    forall o | o in offers ensures o.staff in w.active { assert Offered(o.staff, offers); }
  }

  method ChooseOffers(w: World, services: seq<int>, barber: Option<int>) returns (r: Result<seq<Offer>, AppError>)
    requires w.Valid() && ServicesOk(services)
    ensures r == Err(NotOnMenu) <==> !AllOnMenu(services, w.menu)
    ensures r == Err(BarberUnavailable) <==>
            AllOnMenu(services, w.menu) && barber.Some? && !w.Chosen(services, None, barber.value)
    ensures r.Err? ==> r.error == NotOnMenu || r.error == BarberUnavailable
    ensures r.Ok? ==> AreChosen(w, services, barber, r.value)
  {
    var found := OffersFor(services, w.menu);
    if found.Err? {
      return Err(NotOnMenu);
    }
    var offers := found.value;
    ghost var all := offers[..];
    var kept := StillThere(offers, w.active);
    StaffedMembers(all, w.active);
    ghost var staffed := offers[..kept];
    assert forall staff :: Offered(staff, staffed) <==> w.Chosen(services, None, staff) by {
      forall staff ensures Offered(staff, staffed) <==> w.Chosen(services, None, staff) {
        StaffedIsChosen(w, services, all, staff);
      }
    }
    r := Select(offers[..kept], barber);
    if r.Ok? {
      forall staff ensures Offered(staff, r.value) <==> w.Chosen(services, barber, staff) {
        assert Offered(staff, staffed) <==> w.Chosen(services, None, staff);
        assert Offered(staff, r.value) <==> Offered(staff, staffed) && (barber.Some? ==> barber.value == staff);
      }
    }
  }

  lemma StaffedIsChosen(w: World, services: seq<int>, all: seq<Offer>, staff: int)
    requires OfferSet(services, w.menu, all)
    ensures Offered(staff, Staffed(all, w.active)) <==> w.Chosen(services, None, staff)
  {
    StaffedMembers(all, w.active);
    if o :| o in Staffed(all, w.active) && o.staff == staff {
      assert IsOffer(services, w.menu, o);
    }
    if w.Chosen(services, None, staff) {
      assert Offered(staff, all);
      var o :| o in all && o.staff == staff;
      assert o in Staffed(all, w.active);
    }
  }

  /** Candidates of the chosen offers can take a start exactly when it is possible. */
  lemma TakersArePossible(w: World, services: seq<int>, barber: Option<int>, day: int, offers: seq<Offer>,
      cands: seq<Candidate>, start: int, staff: int)
    requires AreChosen(w, services, barber, offers) && AreCandidates(w, day, offers, cands)
             && w.zone.DateOf(start) == day
    ensures (exists i :: 0 <= i < |cands| && cands[i].staff == staff && cands[i].Takes(start)) <==>
            w.Possible(services, barber, start, staff)
  {
    if i :| 0 <= i < |cands| && cands[i].staff == staff && cands[i].Takes(start) {
      assert offers[i] in offers && IsOffer(services, w.menu, offers[i]) && Offered(staff, offers);
    }
    if w.Possible(services, barber, start, staff) {
      assert Offered(staff, offers);
      var o :| o in offers && o.staff == staff;
      var i :| 0 <= i < |offers| && offers[i] == o;
      assert IsOffer(services, w.menu, offers[i]) && IsCandidate(w, day, offers[i], cands[i]);
      assert cands[i].Takes(start);
    }
  }

  /** The answer to an availability question: start by start and barber by barber,
      exactly the possible ones of the day that the branch offers. */
  ghost predicate AreSlots(w: World, day: int, services: seq<int>, barber: Option<int>, slots: seq<Slot>) {
    && InOrder(slots)
    && (forall k :: 0 <= k < |slots| ==> slots[k].staff != [] && Increasing(slots[k].staff))
    && forall t, staff :: Listed(slots, t, staff) <==> Shown(w, day, services, barber, t, staff)
  }

  /** A start the branch offers that day, possible for the barber. */
  ghost predicate Shown(w: World, day: int, services: seq<int>, barber: Option<int>, t: int, staff: int) {
    w.zone.DateOf(t) == day && w.StartOk(t) && w.Possible(services, barber, t, staff)
  }

  /** Who could do it, and when. */
  datatype DayAnswer = DayAnswer(offers: seq<Offer>, slots: seq<Slot>)

  method Query(w: World, day: int, services: seq<int>, barber: Option<int>) returns (r: Result<DayAnswer, AppError>)
    requires w.Valid()
    ensures r == Err(NoServicesChosen) <==> !ServicesOk(services)
    ensures r == Err(BranchNotFound) <==> ServicesOk(services) && !w.bookable
    ensures r == Err(NotOnMenu) <==> ServicesOk(services) && w.bookable && !AllOnMenu(services, w.menu)
    ensures r == Err(BarberUnavailable) <==>
            && ServicesOk(services) && w.bookable && AllOnMenu(services, w.menu)
            && barber.Some? && !w.Chosen(services, None, barber.value)
    ensures r.Err? ==> r.error in {NoServicesChosen, BranchNotFound, NotOnMenu, BarberUnavailable}
    ensures r.Ok? ==>
            AreChosen(w, services, barber, r.value.offers) && AreSlots(w, day, services, barber, r.value.slots)
  {
    var dup := HasDuplicates(services);
    if |services| == 0 || |services| > MAX_SERVICES || dup {
      return Err(NoServicesChosen);
    }
    if !w.bookable {
      return Err(BranchNotFound);
    }
    var chosen := ChooseOffers(w, services, barber);
    if chosen.Err? {
      return Err(chosen.error);
    }
    var offers := chosen.value;
    var today := w.zone.DateOf(w.now);
    var last := today + w.policy.horizonDays;
    if |offers| == 0 || day < today || day > last {
      NoneThatDay(w, day, services, barber, offers);
      return Ok(DayAnswer(offers, []));
    }
    var slots := DaySlots(w, day, services, barber, offers);
    return Ok(DayAnswer(offers, slots));
  }

  function RulesOf(w: World): SlotRules {
    var last := w.zone.DateOf(w.now) + w.policy.horizonDays;
    SlotRules(w.zone, w.policy.slotInterval, w.now + w.policy.minLead, w.zone.Midnight(last + 1))
  }

  method DaySlots(w: World, day: int, services: seq<int>, ghost barber: Option<int>, offers: seq<Offer>)
    returns (slots: seq<Slot>)
    requires w.Valid() && ServicesOk(services) && AreChosen(w, services, barber, offers)
    ensures AreSlots(w, day, services, barber, slots)
  {
    ChosenAreActive(w, services, barber, offers);
    var cands := Candidates(w, services, day, offers);
    slots := Slots(day, RulesOf(w), cands.value);
    SlotsArePossible(w, day, services, barber, offers, cands.value, slots);
  }

  lemma SlotsArePossible(w: World, day: int, services: seq<int>, barber: Option<int>, offers: seq<Offer>,
      cands: seq<Candidate>, slots: seq<Slot>)
    requires w.Valid() && AreChosen(w, services, barber, offers) && AreCandidates(w, day, offers, cands)
    requires InOrder(slots) && forall k :: 0 <= k < |slots| ==> GoodSlot(day, RulesOf(w), cands, slots[k])
    requires forall t :: Availability.Offers(day, RulesOf(w), t) && FreeStaff(cands, t) != [] ==> HasStart(slots, t)
    ensures AreSlots(w, day, services, barber, slots)
  {
    assert forall i, j :: 0 <= i < j < |cands| ==> offers[i].staff < offers[j].staff;
    forall k | 0 <= k < |slots| ensures Increasing(slots[k].staff) { FreeStaffInOrder(cands, slots[k].start); }
    forall t, staff ensures Listed(slots, t, staff) <==> Shown(w, day, services, barber, t, staff) {
      SlotsByStart(day, RulesOf(w), cands, slots, t, staff);
      OfferedThen(w, day, t);
      if w.zone.DateOf(t) == day { TakersArePossible(w, services, barber, day, offers, cands, t, staff); }
    }
  }

  /** What a start must be: on the clock a whole number of steps past midnight, at least
      the lead time away, and no later than the last day of the horizon. */
  lemma StartMeans(w: World, t: int)
    requires w.Valid()
    ensures w.StartOk(t) <==>
            && OnGrid(t, w.zone, w.policy.slotInterval)
            && t - w.now >= w.policy.minLead
            && w.zone.DateOf(t) - w.zone.DateOf(w.now) <= w.policy.horizonDays
  {
    var end := w.zone.DateOf(w.now) + w.policy.horizonDays + 1;
    w.zone.DateIs(t, w.zone.DateOf(t));
    if w.zone.DateOf(t) >= end { w.zone.MidnightsInOrder(end, w.zone.DateOf(t)); }
    if w.zone.DateOf(t) < end { w.zone.MidnightsInOrder(w.zone.DateOf(t) + 1, end); }
  }

  /** Each start listed is a multiple of the interval past the day's midnight. */
  lemma ListedStarts(
      w: World, m: int, k: int, day: int, services: seq<int>, barber: Option<int>, slots: seq<Slot>, t: int, staff: int)
    returns (n: int)
    requires w.zone == FixedZone(m) && w.policy.slotInterval == k * MINUTE && k > 0
    requires AreSlots(w, day, services, barber, slots) && Listed(slots, t, staff)
    ensures 0 <= n < MINUTES_PER_DAY && n % k == 0 && t == w.zone.At(day, n)
  {
    assert Shown(w, day, services, barber, t, staff);
    n := FixedGridIsAt(m, t, k);
  }

  lemma OfferedThen(w: World, day: int, t: int)
    requires w.Valid()
    ensures Availability.Offers(day, RulesOf(w), t) <==> w.zone.DateOf(t) == day && w.StartOk(t)
  {
    w.zone.DateIs(t, day);
  }

  /** A day before today or past the horizon, or with nobody to do it, has no slot
      the full rules would have offered. */
  lemma NoneThatDay(w: World, day: int, services: seq<int>, barber: Option<int>, offers: seq<Offer>)
    requires w.Valid() && AreChosen(w, services, barber, offers)
    requires offers == [] || day < w.zone.DateOf(w.now) || day > w.zone.DateOf(w.now) + w.policy.horizonDays
    ensures AreSlots(w, day, services, barber, [])
  {
    forall t, staff | w.zone.DateOf(t) == day && w.StartOk(t) ensures !w.Possible(services, barber, t, staff) {
      if offers == [] {
        assert !Offered(staff, offers);
      } else {
        w.zone.DatesInOrder(w.now, t);
        var end := w.zone.DateOf(w.now) + w.policy.horizonDays + 1;
        if day >= end { w.zone.MidnightsInOrder(end, day); w.zone.DateIs(t, day); }
      }
    }
  }

  datatype Load = Load(staff: int, booked: int)

  predicate LoadNoLater(a: Load, b: Load) { a.booked < b.booked || (a.booked == b.booked && a.staff <= b.staff) }

  /** The candidate can take the start and is booked for that much of the day. */
  ghost predicate IsLoad(l: Load, c: Candidate, start: int, from: int, to: int) {
    c.Takes(start) && l == Load(c.staff, BookedOn(c.busy, from, to))
  }

  /** The loop that collects who can take the start, with what they are booked for. */
  method Loads(start: int, cands: seq<Candidate>, from: int, to: int) returns (free: seq<Load>)
    requires forall i, j :: 0 <= i < j < |cands| ==> cands[i].staff < cands[j].staff
    ensures forall l :: l in free <==> exists i :: 0 <= i < |cands| && IsLoad(l, cands[i], start, from, to)
    ensures forall i, j :: 0 <= i < j < |free| ==> free[i].staff < free[j].staff
  {
    free := [];
    for n := 0 to |cands|
      invariant forall l :: l in free <==> exists i :: 0 <= i < n && IsLoad(l, cands[i], start, from, to)
      invariant forall i, j :: 0 <= i < j < |free| ==> free[i].staff < free[j].staff
      invariant forall k :: 0 <= k < |free| ==> n < |cands| ==> free[k].staff < cands[n].staff
    {
      var ok := cands[n].CanTake(start);
      if ok {
        var booked := BookedTime(cands[n].busy, from, to);
        free := free + [Load(cands[n].staff, booked)];
      }
    }
  }

  method BookedTime(busy: seq<Span>, from: int, to: int) returns (booked: int)
    ensures booked == BookedOn(busy, from, to)
  {
    booked := 0;
    for n := 0 to |busy|
      invariant booked == BookedOn(busy[..n], from, to)
    {
      assert busy[..n + 1][..n] == busy[..n];
      var s, e := Later(busy[n].start, from), Earlier(busy[n].end, to);
      if e > s {
        booked := booked + (e - s);
      }
    }
    assert busy[..|busy|] == busy;
  }

  /** Exactly the possible barbers, each once, least booked that day first, then by ID. */
  ghost predicate AreFree(w: World, services: seq<int>, barber: Option<int>, start: int, free: seq<int>) {
    && (forall staff :: staff in free <==> w.Possible(services, barber, start, staff))
    && forall i, j :: 0 <= i < j < |free| ==> Ahead(w, w.zone.DateOf(start), free[i], free[j])
  }

  /** a is tried before b. */
  predicate Ahead(w: World, day: int, a: int, b: int) {
    w.LoadOf(day, a) < w.LoadOf(day, b) || (w.LoadOf(day, a) == w.LoadOf(day, b) && a < b)
  }

  /** Least booked first: by how much of the day each one's appointments take, then by ID. */
  lemma LeastBusyFirst(w: World, services: seq<int>, barber: Option<int>, start: int, free: seq<int>, i: nat, j: nat)
    requires AreFree(w, services, barber, start, free) && i < j < |free|
    requires NoneOverlap(w.busy(free[i])) && NoneOverlap(w.busy(free[j]))
    ensures var day := w.zone.DateOf(start);
            var (from, to) := (w.zone.Midnight(day), w.zone.Midnight(day + 1));
            var (a, b) := (|BusyInstants(w.busy(free[i]), from, to)|, |BusyInstants(w.busy(free[j]), from, to)|);
            a < b || (a == b && free[i] < free[j])
  {
    var day := w.zone.DateOf(start);
    BookedIsBusyTime(w.busy(free[i]), w.zone.Midnight(day), w.zone.Midnight(day + 1));
    BookedIsBusyTime(w.busy(free[j]), w.zone.Midnight(day), w.zone.Midnight(day + 1));
    assert Ahead(w, day, free[i], free[j]);
  }

  lemma FirstIsAhead(w: World, services: seq<int>, barber: Option<int>, start: int, free: seq<int>, staff: int)
    requires AreFree(w, services, barber, start, free) && staff in free && staff != free[0]
    ensures Ahead(w, w.zone.DateOf(start), free[0], staff)
  {
    var i :| 0 <= i < |free| && free[i] == staff;
  }

  /** Who is free, and in what order, leaves nothing open. */
  lemma FreeIsDetermined(w: World, services: seq<int>, barber: Option<int>, start: int, f: seq<int>, g: seq<int>)
    requires AreFree(w, services, barber, start, f) && AreFree(w, services, barber, start, g)
    ensures f == g
  {
    var ahead := (a: int, b: int) => Ahead(w, w.zone.DateOf(start), a, b);
    forall x ensures x in f <==> x in g {
      assert x in f <==> w.Possible(services, barber, start, x);
      assert x in g <==> w.Possible(services, barber, start, x);
    }
    SortedSetUnique(ahead, f, g);
  }

  lemma DistinctLoads(free: seq<Load>, sorted: seq<Load>)
    requires multiset(free) == multiset(sorted) && SortedBy(LoadNoLater, sorted)
    requires forall i, j :: 0 <= i < j < |free| ==> free[i].staff < free[j].staff
    ensures forall i, j :: 0 <= i < j < |sorted| ==>
              LoadNoLater(sorted[i], sorted[j]) && sorted[i].staff != sorted[j].staff
  {
    var differ := (a: Load, b: Load) => a.staff != b.staff;
    assert Pairwise(differ, free);
    PairwisePermuted(differ, free, sorted);
    forall i, j | 0 <= i < j < |sorted| ensures sorted[i].staff != sorted[j].staff {
      assert differ(sorted[i], sorted[j]);
    }
  }

  method FreeAt(start: int, cands: seq<Candidate>, day: int, w: World, ghost services: seq<int>,
      ghost barber: Option<int>, ghost offers: seq<Offer>)
    returns (out: seq<int>)
    requires AreChosen(w, services, barber, offers) && AreCandidates(w, day, offers, cands)
             && w.zone.DateOf(start) == day
    ensures AreFree(w, services, barber, start, out)
  {
    var from, to := w.zone.Midnight(day), w.zone.Midnight(day + 1);
    assert forall i, j :: 0 <= i < j < |cands| ==> offers[i].staff < offers[j].staff;
    var free := Loads(start, cands, from, to);
    var own := Clone(free);
    SortFunc(own, LoadNoLater);
    var sorted := own[..];
    DistinctLoads(free, sorted);
    PermutationMembers(free, sorted);
    forall l | l in sorted ensures l.booked == w.LoadOf(day, l.staff) { assert l in free; }
    out := [];
    for n := 0 to |sorted|
      invariant |out| == n && forall k :: 0 <= k < n ==> out[k] == sorted[k].staff
    {
      out := out + [sorted[n].staff];
    }
    forall i, j | 0 <= i < j < |out| ensures Ahead(w, day, out[i], out[j]) {
      assert LoadNoLater(sorted[i], sorted[j]) && sorted[i] in sorted && sorted[j] in sorted;
    }
    forall staff ensures staff in out <==> w.Possible(services, barber, start, staff) {
      TakersArePossible(w, services, barber, day, offers, cands, start, staff);
      TakersAreOut(start, cands, from, to, free, sorted, out, staff);
    }
  }

  lemma TakersAreOut(start: int, cands: seq<Candidate>, from: int, to: int, free: seq<Load>, sorted: seq<Load>,
      out: seq<int>, staff: int)
    requires forall l :: l in free <==> exists i :: 0 <= i < |cands| && IsLoad(l, cands[i], start, from, to)
    requires forall l :: l in free <==> l in sorted
    requires |out| == |sorted| && forall k :: 0 <= k < |out| ==> out[k] == sorted[k].staff
    ensures staff in out <==> exists i :: 0 <= i < |cands| && cands[i].staff == staff && cands[i].Takes(start)
  {
    if k :| 0 <= k < |out| && out[k] == staff {
      assert sorted[k] in free;
      var i :| 0 <= i < |cands| && IsLoad(sorted[k], cands[i], start, from, to);
      assert cands[i].staff == staff;
    }
    if i :| 0 <= i < |cands| && cands[i].staff == staff && cands[i].Takes(start) {
      var l := Load(cands[i].staff, BookedOn(cands[i].busy, from, to));
      assert IsLoad(l, cands[i], start, from, to) && l in free && l in sorted;
      var k :| 0 <= k < |sorted| && sorted[k] == l;
      assert out[k] == staff;
    }
  }

  datatype Request = Request(customer: int, start: int, services: seq<int>, barber: Option<int>, note: string)

  predicate CheckStart(start: int, w: World) { w.StartOk(start) }

  /** The draft for one barber: what it holds of them is the stretch that was checked,
      and its price is the offer's, within the store's cap. */
  ghost predicate IsDraft(w: World, q: Request, staff: int, s: Snapshot) {
    && PerformsAll(q.services, w.menu, staff)
    && s.Sound() && s.Active() && s.version == 1
    && s.facts.barber == staff && s.facts.branch == w.branch && s.facts.customer == Some(q.customer)
    && s.facts.start == q.start && s.facts.start < s.facts.busyUntil
    && s.Busy() == Interval(q.start, q.start + w.Length(q.services, staff))
    && s.facts.price.amount == TotalPrice(q.services, w.menu, staff)
    && 0 <= s.facts.price.amount <= STORED_PRICE_CAP
    && s.facts.items == ItemsOf(q.services, w.menu, staff)
    && (s.status == Pending <==> !w.policy.autoConfirm)
    && s.pendingUntil == (if w.policy.autoConfirm then None else Some(DbTime(w.now) + w.policy.pendingExpiry))
    && s.facts.cancellableUntil == q.start - Later(w.policy.cancellationWindow, 0)
    && s.facts.end == q.start + TotalDuration(q.services, w.menu, staff) && s.facts.price.currency == SAR
    && s.facts.business == w.business && s.facts.note == q.note && s.facts.customerName == ""
    && s.facts.source == CustomerApp && s.facts.assignment == (if q.barber.Some? then RequestedBarber else AnyBarber)
    && s.facts.createdAt == s.updatedAt == DbTime(w.now)
  }

  lemma {:induction false} ItemsSum(services: seq<int>, menu: seq<MenuItem>, staff: int)
    requires PerformsAll(services, menu, staff)
    ensures SumDurations(ItemsOf(services, menu, staff)) == TotalDuration(services, menu, staff)
    ensures SumPrices(ItemsOf(services, menu, staff)) == TotalPrice(services, menu, staff)
    decreases |services|
  {
    if services != [] {
      var n := |services| - 1;
      ItemsSum(services[..n], menu, staff);
      assert ItemsOf(services, menu, staff)[..n] == ItemsOf(services[..n], menu, staff);
    }
  }

  lemma PriceInRange(services: seq<int>, menu: seq<MenuItem>, staff: int, k: nat)
    requires ValidMenu(menu) && PerformsAll(services, menu, staff) && k < |services| <= MAX_SERVICES
    ensures ItemsOf(services, menu, staff)[k].price.currency == SAR && InRange(ItemsOf(services, menu, staff), k)
  {
    var part := services[..k + 1];
    assert ItemsOf(services, menu, staff)[..k + 1] == ItemsOf(part, menu, staff);
    ItemsSum(part, menu, staff);
    TotalsBounded(part, menu, staff);
    VersionValid(menu, services[k], staff);
  }

  /** The items' totals are the offer's, and adding them up never overflows. */
  lemma ItemsAddUp(services: seq<int>, menu: seq<MenuItem>, staff: int)
    requires ValidMenu(menu) && PerformsAll(services, menu, staff) && |services| <= MAX_SERVICES
    ensures SumDurations(ItemsOf(services, menu, staff)) == TotalDuration(services, menu, staff)
    ensures SumPrices(ItemsOf(services, menu, staff)) == TotalPrice(services, menu, staff)
    ensures PricesAdd(ItemsOf(services, menu, staff))
  {
    var items := ItemsOf(services, menu, staff);
    ItemsSum(services, menu, staff);
    forall k | 0 <= k < |items| ensures items[k].price.currency == SAR && InRange(items, k) {
      PriceInRange(services, menu, staff, k);
    }
  }

  /** Why a request is turned down before anyone looks for free time. */
  function TurnedDown(w: World, q: Request): Option<AppError> {
    if !ServicesOk(q.services) then Some(NoServicesChosen)
    else if !w.bookable then Some(BranchNotFound)
    else if !w.StartOk(q.start) then Some(InvalidStart)
    else if !AllOnMenu(q.services, w.menu) then Some(NotOnMenu)
    else if q.barber.Some? && !w.Chosen(q.services, None, q.barber.value) then Some(BarberUnavailable)
    else None
  }

  /** Book, up to the attempt it hands to the store: drafts best first. */
  method PrepareBooking(w: World, q: Request, newId: nat -> int)
    returns (r: Result<seq<Snapshot>, AppError>, ghost free: seq<int>)
    requires w.Valid()
    ensures r == Err(NoServicesChosen) <==> !ServicesOk(q.services)
    ensures r == Err(BranchNotFound) <==> ServicesOk(q.services) && !w.bookable
    ensures r == Err(InvalidStart) <==> ServicesOk(q.services) && w.bookable && !w.StartOk(q.start)
    ensures r == Err(NotOnMenu) <==>
            ServicesOk(q.services) && w.bookable && w.StartOk(q.start) && !AllOnMenu(q.services, w.menu)
    ensures r == Err(BarberUnavailable) <==>
            && ServicesOk(q.services) && w.bookable && w.StartOk(q.start) && AllOnMenu(q.services, w.menu)
            && q.barber.Some? && !w.Chosen(q.services, None, q.barber.value)
    ensures r.Err? && r.error.BadBooking? ==> r.error.error == NoteTooLong && |q.note| > MAX_NOTE_LEN
    ensures r.Err? && r.error.BadBooking? ==>
            w.StartOk(q.start) && exists staff :: w.Possible(q.services, q.barber, q.start, staff)
    ensures r.Ok? && |q.note| > MAX_NOTE_LEN ==> free == []
    ensures r.Err? && r.error.BadBooking? ==> free != [] && AreFree(w, q.services, q.barber, q.start, free)
    ensures r.Err? ==> r.error != InvalidRange
    ensures r.Ok? ==>
            && AreFree(w, q.services, q.barber, q.start, free) && |r.value| == |free|
            && forall i :: 0 <= i < |free| ==> IsDraft(w, q, free[i], r.value[i]) && r.value[i].facts.id == newId(i)
  {
    free := [];
    var dup := HasDuplicates(q.services);
    if |q.services| == 0 || |q.services| > MAX_SERVICES || dup {
      return Err(NoServicesChosen), free;
    }
    if !w.bookable {
      return Err(BranchNotFound), free;
    }
    if !CheckStart(q.start, w) {
      return Err(InvalidStart), free;
    }
    var chosen := ChooseOffers(w, q.services, q.barber);
    if chosen.Err? {
      return Err(chosen.error), free;
    }
    var day := w.zone.DateOf(q.start);
    ChosenAreActive(w, q.services, q.barber, chosen.value);
    var cands := Candidates(w, q.services, day, chosen.value);
    var staff := FreeAt(q.start, cands.value, day, w, q.services, q.barber, chosen.value);
    free := staff;
    assert forall s :: s in staff ==> w.Possible(q.services, q.barber, q.start, s);
    var drafts := Drafts(w, q, staff, newId);
    if drafts.Err? {
      assert w.Possible(q.services, q.barber, q.start, staff[0]);
      return Err(BadBooking(drafts.error)), free;
    }
    return Ok(drafts.value), free;
  }

  method Drafts(w: World, q: Request, staff: seq<int>, newId: nat -> int) returns (r: Result<seq<Snapshot>, BookError>)
    requires w.Valid() && ServicesOk(q.services) && forall s :: s in staff ==> PerformsAll(q.services, w.menu, s)
    ensures r.Err? <==> |q.note| > MAX_NOTE_LEN && staff != []
    ensures r.Err? ==> r.error == NoteTooLong
    ensures r.Ok? ==>
            && |r.value| == |staff|
            && forall i :: 0 <= i < |staff| ==> IsDraft(w, q, staff[i], r.value[i]) && r.value[i].facts.id == newId(i)
  {
    var drafts := [];
    for n := 0 to |staff|
      invariant |drafts| == n
      invariant forall i :: 0 <= i < n ==> IsDraft(w, q, staff[i], drafts[i]) && drafts[i].facts.id == newId(i)
      invariant n > 0 ==> |q.note| <= MAX_NOTE_LEN
    {
      var d := Draft(w, q, staff[n], newId(n));
      if d.Err? {
        return Err(d.error);
      }
      drafts := drafts + [d.value];
    }
    return Ok(drafts);
  }

  lemma ItemTotals(services: seq<int>, menu: seq<MenuItem>, staff: int)
    requires ValidMenu(menu) && PerformsAll(services, menu, staff) && 1 <= |services| <= MAX_SERVICES
    ensures SumDurations(ItemsOf(services, menu, staff)) == TotalDuration(services, menu, staff) > 0
    ensures SumPrices(ItemsOf(services, menu, staff)) == TotalPrice(services, menu, staff)
    ensures 0 <= TotalPrice(services, menu, staff) <= MAX_SERVICES * MAX_PRICE
  {
    ItemsAddUp(services, menu, staff);
    TotalsBounded(services, menu, staff);
  }

  function BookingOf(w: World, q: Request, staff: int, id: int, items: seq<Item>): Booking {
    Booking(id, w.business, w.branch, staff, Some(q.customer), "", None, q.start, items, w.policy.buffer,
            if q.barber.Some? then RequestedBarber else AnyBarber, q.note,
            w.policy.autoConfirm, w.policy.pendingExpiry, w.policy.cancellationWindow)
  }

  lemma BookableUnlessNoteTooLong(w: World, q: Request, staff: int, id: int)
    requires w.Valid() && ServicesOk(q.services) && PerformsAll(q.services, w.menu, staff)
    ensures Bookable(BookingOf(w, q, staff, id, ItemsOf(q.services, w.menu, staff))) <==> |q.note| <= MAX_NOTE_LEN
  {
    ItemsAddUp(q.services, w.menu, staff);
  }

  method Draft(w: World, q: Request, staff: int, id: int) returns (r: Result<Snapshot, BookError>)
    requires w.Valid() && ServicesOk(q.services) && PerformsAll(q.services, w.menu, staff)
    ensures r.Err? <==> |q.note| > MAX_NOTE_LEN
    ensures r.Err? ==> r.error == NoteTooLong
    ensures r.Ok? ==> IsDraft(w, q, staff, r.value) && r.value.facts.id == id
  {
    var items := ItemsFor(q.services, w.menu, staff);
    BookableUnlessNoteTooLong(w, q, staff, id);
    ItemTotals(q.services, w.menu, staff);
    var a := Appointment.Book(BookingOf(w, q, staff, id, items), w.now);
    if a.Err? {
      return Err(a.error);
    }
    return Ok(a.value.Snap());
  }

  /** Availability advertises exactly what booking accepts: a start and a barber are
      among the slots shown for the start's day if and only if booking passes the
      start and has that barber among the free. */
  lemma AvailabilityIsBooking(w: World, services: seq<int>, barber: Option<int>, start: int, slots: seq<Slot>,
      free: seq<int>, staff: int)
    requires AreSlots(w, w.zone.DateOf(start), services, barber, slots)
    requires AreFree(w, services, barber, start, free)
    ensures Listed(slots, start, staff) <==> CheckStart(start, w) && staff in free
  {
  }

  /** Still on the branch's staff, and every instant of the visit a working instant. */
  ghost predicate WorksThroughout(w: World, d: Snapshot) {
    d.facts.barber in w.active && forall t :: d.Busy().Contains(t) ==> w.input(d.facts.barber).Working(t)
  }

  /** Re-reads the barber's windows clipped to just the draft's span: the answer is
      the plain one, whatever was cut off around it. */
  method StillWorking(w: World, s: Snapshot) returns (r: Result<bool, AppError>)
    requires w.Valid() && s.facts.start < s.facts.busyUntil
    ensures r.Err? <==> s.facts.busyUntil - s.facts.start > MAX_WINDOWS_RANGE
    ensures r.Ok? ==> (r.value <==> WorksThroughout(w, s))
  {
    var busy := s.Busy();
    var windows := FetchWindows(w, s.facts.barber, busy.start, busy.end);
    if windows.Err? {
      return Err(windows.error);
    }
    if s.facts.barber in w.active { OneSpanCovers(windows.value, busy); }
    for i := 0 to |windows.value|
      invariant forall k :: 0 <= k < i ==> !windows.value[k].Covers(busy)
    {
      if windows.value[i].Covers(busy) {
        return Ok(true);
      }
    }
    return Ok(false);
  }

  /** For a draft of a free barber, with nothing changed since, the second look at
      the hours always agrees. */
  lemma SecondLookAgrees(w: World, q: Request, staff: int, s: Snapshot)
    requires w.Valid() && ServicesOk(q.services) && w.Possible(q.services, q.barber, q.start, staff)
             && IsDraft(w, q, staff, s)
    ensures s.facts.busyUntil - s.facts.start <= MAX_WINDOWS_RANGE
    ensures WorksThroughout(w, s) && forall t :: s.Busy().Contains(t) ==> !In(t, w.busy(s.facts.barber))
  {
    TotalsBounded(q.services, w.menu, staff);
  }
}
