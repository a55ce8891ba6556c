/** What the expiry job changes for somebody who asks for a time: the same request, on
    the store before and after the job has written an overdue booking down. */
module ExpiryJob {
  import opened Wrappers
  import opened Intervals
  import opened Calendar
  import opened Weekly
  import opened Catalog
  import opened Offers
  import opened Availability
  import opened Appointments
  import opened BookingApp
  import opened BookingStore
  import opened EndToEnd
  import Windows
  import TwoShops

  /** Each barber's appointments, as they are read, do not overlap. */
  ghost predicate Apart(w: World) { forall staff :: NoneOverlap(w.busy(staff)) }

  /** w is what is read before the job has run, w' after, and nothing else is different. */
  ghost predicate JustTheJob(w: World, w': World, s: Store, id: int) {
    && Good(s) && Overdue(s, id, w.now) && w' == w.(busy := w'.busy)
    && Reflects(w, s) && Reflects(w', WithJob(s, id, w.now)) && Apart(w) && Apart(w')
  }

  lemma HeldOnce(s: Store, id: int, x: int, t: int)
    requires Good(s) && id in s.appointments && x in s.appointments && id != x
    requires s.appointments[id].Active() && s.appointments[x].Active()
    requires s.appointments[id].facts.barber == s.appointments[x].facts.barber
    ensures !(s.appointments[id].Busy().Contains(t) && s.appointments[x].Busy().Contains(t))
  {
  }

  /** The time that is taken afterwards is what was taken before but for the overdue
      booking's. */
  lemma JobFreesInstants(w: World, w': World, s: Store, id: int, staff: int, t: int)
    requires JustTheJob(w, w', s, id)
    ensures var o := s.appointments[id];
            && (In(t, w'.busy(staff)) <==> In(t, w.busy(staff)) && !(staff == o.facts.barber && o.Busy().Contains(t)))
            && (staff == o.facts.barber && o.Busy().Contains(t) ==> In(t, w.busy(staff)))
  {
    var o, s' := s.appointments[id], WithJob(s, id, w.now);
    assert forall x :: x in s.appointments && x != id ==> s'.appointments[x] == s.appointments[x];
    assert !s'.appointments[id].Active();
    forall x | x in s.appointments && x != id && s.appointments[x].Active()
               && s.appointments[x].facts.barber == o.facts.barber
      ensures !(o.Busy().Contains(t) && s.appointments[x].Busy().Contains(t))
    {
      HeldOnce(s, id, x, t);
    }
  }

  /** The overdue booking's barber could take the start, if it were not for that booking. */
  ghost predicate CouldTake(w: World, o: Snapshot, services: seq<int>, barber: Option<int>, start: int) {
    var b := o.facts.barber;
    && w.Chosen(services, barber, b) && w.Length(services, b) > 0
    && forall t :: start <= t < start + w.Length(services, b) ==>
         w.input(b).Working(t) && (In(t, w.busy(b)) ==> o.Busy().Contains(t))
  }

  lemma PossibleAfter(
      w: World, w': World, s: Store, id: int, services: seq<int>, barber: Option<int>, start: int, staff: int)
    requires JustTheJob(w, w', s, id)
    ensures var o := s.appointments[id];
            w'.Possible(services, barber, start, staff) <==>
            if staff == o.facts.barber then CouldTake(w, o, services, barber, start)
            else w.Possible(services, barber, start, staff)
    ensures w.Possible(services, barber, start, staff) ==> w'.Possible(services, barber, start, staff)
  {
    forall t { JobFreesInstants(w, w', s, id, staff, t); }
  }

  /** How much of the day the booking takes. */
  function Hours(w: World, o: Snapshot, day: int): int
    requires o.facts.start < o.facts.busyUntil
  {
    Taken(o.Busy(), w.zone.Midnight(day), w.zone.Midnight(day + 1))
  }

  lemma BusyWithout(w: World, w': World, s: Store, id: int, from: int, to: int)
    requires JustTheJob(w, w', s, id)
    ensures var o := s.appointments[id];
            |BusyInstants(w'.busy(o.facts.barber), from, to)| ==
            |BusyInstants(w.busy(o.facts.barber), from, to)| - Taken(o.Busy(), from, to)
  {
    var o := s.appointments[id];
    var b := o.facts.barber;
    var held := Stretch(Later(o.Busy().start, from), Earlier(o.Busy().end, to));
    StretchSize(Later(o.Busy().start, from), Earlier(o.Busy().end, to));
    forall t { JobFreesInstants(w, w', s, id, b, t); }
    assert forall t :: t in held <==> from <= t < to && o.Busy().Contains(t);
    assert BusyInstants(w'.busy(b), from, to) == BusyInstants(w.busy(b), from, to) - held;
    assert held <= BusyInstants(w.busy(b), from, to);
  }

  /** The load that orders the barbers drops by what the booking takes of the day. */
  lemma LoadAfter(w: World, w': World, s: Store, id: int, day: int, staff: int)
    requires JustTheJob(w, w', s, id)
    ensures var o := s.appointments[id];
            w'.LoadOf(day, staff) == w.LoadOf(day, staff) - if staff == o.facts.barber then Hours(w, o, day) else 0
  {
    var from, to := w.zone.Midnight(day), w.zone.Midnight(day + 1);
    BookedIsBusyTime(w.busy(staff), from, to);
    BookedIsBusyTime(w'.busy(staff), from, to);
    if staff == s.appointments[id].facts.barber {
      BusyWithout(w, w', s, id, from, to);
    } else {
      forall t { JobFreesInstants(w, w', s, id, staff, t); }
      assert BusyInstants(w'.busy(staff), from, to) == BusyInstants(w.busy(staff), from, to);
    }
  }

  /** Without its overdue hours the barber comes before the other. */
  predicate Precedes(w: World, o: Snapshot, day: int, staff: int)
    requires o.facts.start < o.facts.busyUntil
  {
    var left := w.LoadOf(day, o.facts.barber) - Hours(w, o, day);
    left < w.LoadOf(day, staff) || (left == w.LoadOf(day, staff) && o.facts.barber < staff)
  }

  lemma PrecedesIsAhead(w: World, w': World, s: Store, id: int, day: int, staff: int)
    requires JustTheJob(w, w', s, id) && staff != s.appointments[id].facts.barber
    ensures Precedes(w, s.appointments[id], day, staff) <==> Ahead(w', day, s.appointments[id].facts.barber, staff)
    ensures Ahead(w, day, s.appointments[id].facts.barber, staff) ==> Precedes(w, s.appointments[id], day, staff)
  {
    LoadAfter(w, w', s, id, day, staff);
    LoadAfter(w, w', s, id, day, s.appointments[id].facts.barber);
  }

  lemma OthersKeepOrder(w: World, w': World, s: Store, id: int, day: int, a: int, b: int)
    requires JustTheJob(w, w', s, id) && s.appointments[id].facts.barber !in {a, b}
    ensures Ahead(w', day, a, b) <==> Ahead(w, day, a, b)
  {
    LoadAfter(w, w', s, id, day, a);
    LoadAfter(w, w', s, id, day, b);
  }

  /** The barber is not first yet, could take it without the booking, and would then come
      before everyone who is free. */
  ghost predicate TakesOver(w: World, o: Snapshot, q: Request, free: seq<int>)
    requires free != [] && o.facts.start < o.facts.busyUntil
  {
    && CouldTake(w, o, q.services, q.barber, q.start) && free[0] != o.facts.barber
    && forall staff :: staff in free && staff != o.facts.barber ==> Precedes(w, o, w.zone.DateOf(q.start), staff)
  }

  /** The two lists of who is free. */
  ghost predicate FreeLists(w: World, w': World, q: Request, free: seq<int>, free': seq<int>) {
    && AreFree(w, q.services, q.barber, q.start, free)
    && AreFree(w', q.services, q.barber, q.start, free')
  }

  lemma SomeoneAfter(w: World, w': World, s: Store, id: int, q: Request, free: seq<int>, free': seq<int>)
    requires JustTheJob(w, w', s, id) && FreeLists(w, w', q, free, free')
    ensures free' == [] <==> free == [] && !CouldTake(w, s.appointments[id], q.services, q.barber, q.start)
  {
    var b := s.appointments[id].facts.barber;
    PossibleAfter(w, w', s, id, q.services, q.barber, q.start, b);
    if free != [] {
      PossibleAfter(w, w', s, id, q.services, q.barber, q.start, free[0]);
      assert free[0] in free && free[0] in free';
    }
    if free' != [] {
      PossibleAfter(w, w', s, id, q.services, q.barber, q.start, free'[0]);
      assert free'[0] in free';
    }
  }

  lemma TakenOver(w: World, w': World, s: Store, id: int, q: Request, free: seq<int>, free': seq<int>)
    requires JustTheJob(w, w', s, id) && FreeLists(w, w', q, free, free') && free != []
    requires TakesOver(w, s.appointments[id], q, free)
    ensures free' != [] && free'[0] == s.appointments[id].facts.barber
  {
    var b, day := s.appointments[id].facts.barber, w.zone.DateOf(q.start);
    SomeoneAfter(w, w', s, id, q, free, free');
    PossibleAfter(w, w', s, id, q.services, q.barber, q.start, b);
    assert b in free';
    var x := free'[0];
    if x != b {
      assert x in free';
      PossibleAfter(w, w', s, id, q.services, q.barber, q.start, x);
      FirstIsAhead(w', q.services, q.barber, q.start, free', b);
      PrecedesIsAhead(w, w', s, id, day, x);
    }
  }

  lemma OnlyThatBarberTakesOver(w: World, w': World, s: Store, id: int, q: Request, free: seq<int>, free': seq<int>)
    requires JustTheJob(w, w', s, id) && FreeLists(w, w', q, free, free') && free != [] && free' != []
    requires free[0] != free'[0]
    ensures free'[0] == s.appointments[id].facts.barber
  {
    var b, day := s.appointments[id].facts.barber, w.zone.DateOf(q.start);
    var x, y := free'[0], free[0];
    if x != b {
      assert x in free' && y in free;
      PossibleAfter(w, w', s, id, q.services, q.barber, q.start, x);
      PossibleAfter(w, w', s, id, q.services, q.barber, q.start, y);
      assert x in free && y in free';
      FirstIsAhead(w, q.services, q.barber, q.start, free, x);
      FirstIsAhead(w', q.services, q.barber, q.start, free', y);
      if y == b { PrecedesIsAhead(w, w', s, id, day, x); } else { OthersKeepOrder(w, w', s, id, day, x, y); }
    }
  }

  /** Who is first differs exactly when the overdue booking's barber takes over. */
  lemma FirstAfter(w: World, w': World, s: Store, id: int, q: Request, free: seq<int>, free': seq<int>)
    requires JustTheJob(w, w', s, id) && FreeLists(w, w', q, free, free') && free != []
    ensures free' != [] && (free[0] != free'[0] <==> TakesOver(w, s.appointments[id], q, free))
  {
    var b, day := s.appointments[id].facts.barber, w.zone.DateOf(q.start);
    SomeoneAfter(w, w', s, id, q, free, free');
    if TakesOver(w, s.appointments[id], q, free) { TakenOver(w, w', s, id, q, free, free'); }
    if free[0] != free'[0] {
      OnlyThatBarberTakesOver(w, w', s, id, q, free, free');
      assert b in free';
      PossibleAfter(w, w', s, id, q.services, q.barber, q.start, b);
      forall staff | staff in free && staff != b ensures Precedes(w, s.appointments[id], day, staff) {
        PossibleAfter(w, w', s, id, q.services, q.barber, q.start, staff);
        FirstIsAhead(w', q.services, q.barber, q.start, free', staff);
        PrecedesIsAhead(w, w', s, id, day, staff);
      }
    }
  }

  /** The overdue booking takes the customer's last place. */
  predicate LastPlace(w: World, s: Store, id: int, q: Request, limit: nat) {
    var upcoming := Upcoming(s, q.customer, w.branch, w.now);
    id in upcoming && |upcoming| == limit
  }

  /** The request gets as far as looking for free time. */
  predicate LooksForTime(w: World, s: Store, q: Request, key: int) {
    TurnedDown(w, q).None? && (q.customer, key) !in s.keys
  }

  /** Two replies compared, from what becomes of the places and of who comes first. */
  lemma RepliesCompared(
      w: World, w': World, s: Store, s': Store, id: int, q: Request, key: int, hash: int, limit: nat,
      free: seq<int>, free': seq<int>, could: bool, over: bool)
    requires w'.branch == w.branch && w'.now == w.now && TurnedDown(w', q) == TurnedDown(w, q) && s'.keys == s.keys
    requires Upcoming(s', q.customer, w.branch, w.now) == Upcoming(s, q.customer, w.branch, w.now) - {id}
    requires free' == [] <==> free == [] && !could
    requires free != [] ==> (free[0] != free'[0] <==> over)
    ensures ReplyTo(w, s, q, key, hash, limit, free) != ReplyTo(w', s', q, key, hash, limit, free') <==>
            && LooksForTime(w, s, q, key)
            && if free == [] then could
               else
                 && |q.note| <= MAX_NOTE_LEN
                 && (LastPlace(w, s, id, q, limit) || (|Upcoming(s, q.customer, w.branch, w.now)| < limit && over))
  {
  }

  /** The reply to a request differs before and after the job if and only if it looks for
      free time, and either nobody is free and the overdue booking's barber would be, or
      somebody is and the overdue booking takes the customer's last place or its barber
      would come first. */
  lemma JobShowsToRequest(
      w: World, w': World, s: Store, id: int, q: Request, key: int, hash: int, limit: nat,
      free: seq<int>, free': seq<int>)
    requires JustTheJob(w, w', s, id) && FreeLists(w, w', q, free, free')
    ensures ReplyTo(w, s, q, key, hash, limit, free)
            != ReplyTo(w', WithJob(s, id, w.now), q, key, hash, limit, free') <==>
            && LooksForTime(w, s, q, key)
            && if free == [] then CouldTake(w, s.appointments[id], q.services, q.barber, q.start)
               else
                 && |q.note| <= MAX_NOTE_LEN
                 && (LastPlace(w, s, id, q, limit)
                     || (|Upcoming(s, q.customer, w.branch, w.now)| < limit
                         && TakesOver(w, s.appointments[id], q, free)))
  {
    SomeoneAfter(w, w', s, id, q, free, free');
    if free != [] { FirstAfter(w, w', s, id, q, free, free'); }
    OnlyTheJobFreesThePlace(s, id, q.customer, w.branch, w.now);
    var could := CouldTake(w, s.appointments[id], q.services, q.barber, q.start);
    var over := free != [] && TakesOver(w, s.appointments[id], q, free);
    RepliesCompared(w, w', s, WithJob(s, id, w.now), id, q, key, hash, limit, free, free', could, over);
  }

  /** In the slots of a day, the job adds the starts that its barber could take but for
      the overdue booking, and changes nothing else. */
  lemma JobShowsToQuery(
      w: World, w': World, s: Store, id: int, day: int, services: seq<int>, barber: Option<int>,
      slots: seq<Slot>, slots': seq<Slot>, t: int, staff: int)
    requires JustTheJob(w, w', s, id)
    requires AreSlots(w, day, services, barber, slots) && AreSlots(w', day, services, barber, slots')
    ensures var o := s.appointments[id];
            Listed(slots', t, staff) <==>
            || Listed(slots, t, staff)
            || (&& staff == o.facts.barber && w.zone.DateOf(t) == day && w.StartOk(t)
                && CouldTake(w, o, services, barber, t))
  {
    PossibleAfter(w, w', s, id, services, barber, t, staff);
    assert w'.StartOk(t) == w.StartOk(t);
    assert Listed(slots, t, staff) <==> Shown(w, day, services, barber, t, staff);
    assert Listed(slots', t, staff) <==> Shown(w', day, services, barber, t, staff);
  }

  // Inputs at which it shows: one shop, two barbers, and a pending visit to the first of
  // them on a Monday at midnight, overdue since MINUTE.

  /** An hour with the barber from `start` on, for customer 1. */
  function Visit(): Snapshot {
    var facts := Facts(1, 1, 1, 1, Some(1), "", [], DAY, DAY + HOUR, DAY + HOUR, Money(0, SAR),
                       CustomerApp, RequestedBarber, "", DAY, 0);
    Snapshot(facts, Pending, Some(MINUTE), None, 1, 0)
  }

  function OneOverdue(): Store { Store(map[1 := Visit()], map[]) }

  function Mondays(): WeeklyInterval { WeeklyInterval(1, 0, MINUTES_PER_DAY) }

  function EveryMonday(): int -> Windows.WindowsInput { (staff: int) => TwoShops.Once(FixedZone(0), Mondays()) }

  function OneService(): seq<MenuItem> {
    [MenuItem(1, [Performer(1, HOUR, Money(0, SAR)), Performer(2, HOUR, Money(0, SAR))])]
  }

  function TwoBarbers(busy: int -> seq<Span>): World {
    World(MINUTE, FixedZone(0), true, 1, 1, Policy(0, 30, 15 * MINUTE, 0, true, 15 * MINUTE, 0),
          OneService(), {1, 2}, EveryMonday(), busy)
  }

  function Held(): int -> seq<Span> { (staff: int) => if staff == 1 then [Interval(DAY, DAY + HOUR)] else [] }

  function NothingHeld(): int -> seq<Span> { (staff: int) => [] }

  function Before(): World { TwoBarbers(Held()) }

  function After(): World { TwoBarbers(NothingHeld()) }

  lemma OneOverdueIsGood()
    ensures Good(OneOverdue()) && Overdue(OneOverdue(), 1, MINUTE)
    ensures Upcoming(OneOverdue(), 1, 1, MINUTE) == {1} && Upcoming(OneOverdue(), 2, 1, MINUTE) == {}
  {
  }

  lemma BothReflect()
    ensures Before().Valid() && After().Valid() && JustTheJob(Before(), After(), OneOverdue(), 1)
  {
    TwoBarbersValid(Held());
    TwoBarbersValid(NothingHeld());
    OneOverdueIsGood();
    var s, s' := OneOverdue(), WithJob(OneOverdue(), 1, MINUTE);
    forall staff, t
      ensures In(t, Before().busy(staff)) <==>
              exists id :: id in s.appointments && s.appointments[id].Active()
                           && s.appointments[id].facts.barber == staff && s.appointments[id].Busy().Contains(t)
    {
      if staff == 1 && DAY <= t < DAY + HOUR {
        assert Before().busy(1)[0].Contains(t);
        assert 1 in s.appointments && s.appointments[1].Busy().Contains(t);
      }
    }
    assert !s'.appointments[1].Active();
  }

  lemma TwoBarbersValid(busy: int -> seq<Span>)
    ensures TwoBarbers(busy).Valid()
  {
    FixedZoneValid(0);
    TwoShops.OnceIsValid(FixedZone(0), Mondays());
  }

  lemma BothPerform(staff: int)
    requires staff == 1 || staff == 2
    ensures PerformsAll([1], OneService(), staff) && TotalDuration([1], OneService(), staff) == HOUR
  {
    var ps := OneService()[0].performers;
    assert HasId(1)(OneService()[0]) && ItemIndex(OneService(), 1) == 0;
    assert IsBy(staff)(ps[staff - 1]) && PerformerIndex(ps, staff) == staff - 1;
    assert [1][..0] == [];
  }

  lemma MondayWorks(staff: int, t: int)
    requires DAY <= t < 2 * DAY
    ensures EveryMonday()(staff).Working(t)
  {
    TwoShops.OnceWorks(FixedZone(0), Mondays(), 1, t);
  }

  /** On that Monday either barber can take an hour that is not held. */
  lemma PossibleThen(busy: int -> seq<Span>, barber: Option<int>, start: int, staff: int)
    requires DAY <= start <= 2 * DAY - HOUR
    ensures TwoBarbers(busy).Possible([1], barber, start, staff) <==>
            && (staff == 1 || staff == 2) && (barber.Some? ==> barber.value == staff)
            && forall t :: start <= t < start + HOUR ==> !In(t, busy(staff))
  {
    if staff == 1 || staff == 2 {
      BothPerform(staff);
      forall t | start <= t < start + HOUR ensures EveryMonday()(staff).Working(t) { MondayWorks(staff, t); }
    }
  }

  lemma Starts(busy: int -> seq<Span>, start: int)
    requires start == DAY || start == DAY + 12 * HOUR
    ensures TwoBarbers(busy).StartOk(start) && FixedZone(0).DateOf(start) == 1
  {
  }

  function Ask(customer: int, start: int, barber: Option<int>): Request { Request(customer, start, [1], barber, "") }

  lemma NotTurnedDown(busy: int -> seq<Span>, customer: int, start: int, barber: Option<int>)
    requires start == DAY || start == DAY + 12 * HOUR
    requires barber.Some? ==> barber.value == 1 || barber.value == 2
    ensures TurnedDown(TwoBarbers(busy), Ask(customer, start, barber)).None?
  {
    Starts(busy, start);
    BothPerform(1);
    BothPerform(2);
    assert ItemIndex(OneService(), 1) == 0;
  }

  /** The replies before and after the job. */
  ghost predicate Replies(q: Request, limit: nat, free: seq<int>, before: Reply, free': seq<int>, after: Reply) {
    && FreeLists(Before(), After(), q, free, free')
    && ReplyTo(Before(), OneOverdue(), q, 0, 0, limit, free) == before
    && ReplyTo(After(), WithJob(OneOverdue(), 1, MINUTE), q, 0, 0, limit, free') == after
  }

  /** The list is who is possible, in the order of the loads. */
  lemma IsFreeList(w: World, barber: Option<int>, start: int, free: seq<int>)
    requires forall staff :: staff in free <==> w.Possible([1], barber, start, staff)
    requires forall i, j :: 0 <= i < j < |free| ==> Ahead(w, w.zone.DateOf(start), free[i], free[j])
    ensures AreFree(w, [1], barber, start, free)
  {
  }

  lemma FreeAtMidnight()
    ensures AreFree(Before(), [1], Some(1), DAY, []) && AreFree(After(), [1], Some(1), DAY, [1])
  {
    assert Held()(1)[0].Contains(DAY) && In(DAY, Held()(1));
    forall staff ensures !Before().Possible([1], Some(1), DAY, staff) {
      PossibleThen(Held(), Some(1), DAY, staff);
    }
    forall staff ensures staff in [1] <==> After().Possible([1], Some(1), DAY, staff) {
      PossibleThen(NothingHeld(), Some(1), DAY, staff);
    }
    IsFreeList(Before(), Some(1), DAY, []);
    IsFreeList(After(), Some(1), DAY, [1]);
  }

  /** Another customer asks for the hour it holds: not to be had, and then booked. */
  lemma OverdueHoldsTheTime()
    ensures Replies(Ask(2, DAY, Some(1)), 1, [], Said(SlotUnavailable), [1], BookedWith(1))
  {
    FreeAtMidnight();
    NotTurnedDown(Held(), 2, DAY, Some(1));
    NotTurnedDown(NothingHeld(), 2, DAY, Some(1));
    OneOverdueIsGood();
    OnlyTheJobFreesThePlace(OneOverdue(), 1, 2, 1, MINUTE);
  }

  const NOON := DAY + 12 * HOUR

  /** At noon both are free, before and after. */
  lemma PossibleAtNoon(w: World, barber: Option<int>, staff: int)
    requires w == Before() || w == After()
    ensures w.Possible([1], barber, NOON, staff) <==>
            (staff == 1 || staff == 2) && (barber.Some? ==> barber.value == staff)
  {
    PossibleThen(w.busy, barber, NOON, staff);
    forall t | NOON <= t < NOON + HOUR ensures !In(t, w.busy(staff)) {}
  }

  lemma OtherBarberAtNoon(w: World)
    requires w == Before() || w == After()
    ensures AreFree(w, [1], Some(2), NOON, [2])
  {
    forall staff ensures staff in [2] <==> w.Possible([1], Some(2), NOON, staff) { PossibleAtNoon(w, Some(2), staff); }
    IsFreeList(w, Some(2), NOON, [2]);
  }

  /** The same customer, one booking allowed, asks for the other barber at noon. */
  lemma OverdueHoldsThePlace()
    ensures Replies(Ask(1, NOON, Some(2)), 1, [2], Said(TooManyBookings), [2], BookedWith(2))
  {
    OtherBarberAtNoon(Before());
    OtherBarberAtNoon(After());
    NotTurnedDown(Held(), 1, NOON, Some(2));
    NotTurnedDown(NothingHeld(), 1, NOON, Some(2));
    OneOverdueIsGood();
    OnlyTheJobFreesThePlace(OneOverdue(), 1, 1, 1, MINUTE);
  }

  lemma MondaysLoads()
    ensures Before().LoadOf(1, 1) == HOUR && Before().LoadOf(1, 2) == 0
    ensures After().LoadOf(1, 1) == 0 && After().LoadOf(1, 2) == 0
  {
    var z, hour: Span := FixedZone(0), Interval(DAY, DAY + HOUR);
    assert z.Midnight(1) == DAY && z.Midnight(2) == 2 * DAY;
    assert Held()(1) == [hour] && [hour][..0] == [];
    assert BookedOn([hour], DAY, 2 * DAY) == BookedOn([], DAY, 2 * DAY) + Taken(hour, DAY, 2 * DAY);
  }

  lemma AnyoneAtNoon()
    ensures AreFree(Before(), [1], None, NOON, [2, 1]) && AreFree(After(), [1], None, NOON, [1, 2])
  {
    forall staff ensures staff in [2, 1] <==> Before().Possible([1], None, NOON, staff) {
      PossibleAtNoon(Before(), None, staff);
    }
    forall staff ensures staff in [1, 2] <==> After().Possible([1], None, NOON, staff) {
      PossibleAtNoon(After(), None, staff);
    }
    Starts(Held(), NOON);
    MondaysLoads();
    IsFreeList(Before(), None, NOON, [2, 1]);
    IsFreeList(After(), None, NOON, [1, 2]);
  }

  /** Another customer asks for anyone at noon: the overdue hour counts as work done, and
      the other barber gets it. */
  lemma OverdueCountsAsLoad()
    ensures Replies(Ask(2, NOON, None), 1, [2, 1], BookedWith(2), [1, 2], BookedWith(1))
  {
    AnyoneAtNoon();
    NotTurnedDown(Held(), 2, NOON, None);
    NotTurnedDown(NothingHeld(), 2, NOON, None);
    OneOverdueIsGood();
    OnlyTheJobFreesThePlace(OneOverdue(), 1, 2, 1, MINUTE);
  }
}
