/** A booked visit and its life: who may still do what to it, and when. */
module Appointments {
  import opened Wrappers
  import opened Intervals
  import opened Calendar
  import opened Catalog
  import opened Offers

  const MAX_NOTE_LEN := 300
  const MAX_CUSTOMER_NAME_LEN := 100
  const MAX_REASON_LEN := 300

  datatype Status = Pending | Confirmed | Rejected | Expired | Cancelled | Completed | NoShow

  datatype Source = CustomerApp | StaffSource

  datatype Assignment = RequestedBarber | AnyBarber

  datatype Canceller = ByCustomer | ByStaff

  datatype Cancellation = Cancellation(who: Canceller, reason: string, at: int)

  datatype BookError = NoServices | NoteTooLong | CustomerNameTooLong | NoCustomer | BadPrice(error: MoneyError)

  /** What is asked for, with the barber chosen and the branch's rules that apply.
      No customer is a walk-in, given by name; texts are already trimmed. */
  datatype Booking = Booking(
    id: int, business: int, branch: int, barber: int, customer: Option<int>, customerName: string,
    source: Option<Source>, start: int, items: seq<Item>, buffer: int, assignment: Assignment, note: string,
    autoConfirm: bool, pendingExpiry: int, cancellationWindow: int)

  /** What no action ever changes. */
  datatype Facts = Facts(
    id: int, business: int, branch: int, barber: int, customer: Option<int>, customerName: string,
    items: seq<Item>, start: int, end: int, busyUntil: int, price: Money,
    source: Source, assignment: Assignment, note: string, cancellableUntil: int, createdAt: int)

  datatype Snapshot = Snapshot(
    facts: Facts, status: Status, pendingUntil: Option<int>, cancellation: Option<Cancellation>,
    version: nat, updatedAt: int)
  {
    /** The time it holds the barber: the services and the buffer. */
    function Busy(): Interval { Interval(facts.start, facts.busyUntil) }

    predicate Active() { status == Pending || status == Confirmed }

    predicate Final() { !Active() }

    /** Past its expiry a pending booking is expired, written down or not. */
    function Current(now: int): Status {
      if status == Pending && pendingUntil.Some? && now >= pendingUntil.value then Expired else status
    }

    /** An expiry only while pending, a cancellation only once cancelled, and no
        more changes behind it than the status allows. */
    predicate Sound() {
      && (pendingUntil.Some? <==> status == Pending)
      && (cancellation.Some? <==> status == Cancelled)
      && facts.cancellableUntil <= facts.start
      && 1 <= version <= (if status == Pending then 1 else if status == Confirmed then 2 else 3)
    }
  }

  datatype Event = AppointmentBooked(after: Snapshot) | StatusChanged(from: Status, after: Snapshot)

  function SumDurations(items: seq<Item>): int {
    if items == [] then 0 else SumDurations(items[..|items| - 1]) + items[|items| - 1].duration
  }

  function SumPrices(items: seq<Item>): int {
    if items == [] then 0 else SumPrices(items[..|items| - 1]) + items[|items| - 1].price.amount
  }

  /** Adding the prices one by one stays in riyals and in range. */
  predicate PricesAdd(items: seq<Item>) {
    forall k :: 0 <= k < |items| ==> items[k].price.currency == SAR && InRange(items, k)
  }

  predicate InRange(items: seq<Item>, k: nat)
    requires k < |items|
  {
    MIN_INT64 <= SumPrices(items[..k + 1]) <= MAX_INT64
  }

  function SourceOf(b: Booking): Source { if b.source.Some? then b.source.value else CustomerApp }

  predicate Bookable(b: Booking) {
    && 1 <= |b.items| <= MAX_SERVICES
    && |b.note| <= MAX_NOTE_LEN && |b.customerName| <= MAX_CUSTOMER_NAME_LEN
    && (b.customer.Some? || (SourceOf(b) == StaffSource && b.customerName != ""))
    && PricesAdd(b.items)
  }

  /** Book's loop over the items. */
  method AddUp(items: seq<Item>) returns (total: int, price: Result<Money, MoneyError>)
    ensures price.Ok? <==> PricesAdd(items)
    ensures price.Ok? ==>
            total == SumDurations(items) && price.value.amount == SumPrices(items) && price.value.currency == SAR
  {
    total := 0;
    var sum := Money(0, SAR);
    for n := 0 to |items|
      invariant total == SumDurations(items[..n])
      invariant sum.amount == SumPrices(items[..n]) && sum.currency == SAR
      invariant forall k :: 0 <= k < n ==> items[k].price.currency == SAR && InRange(items, k)
    {
      assert items[..n + 1][..n] == items[..n];
      total := total + items[n].duration;
      price := sum.Add(items[n].price);
      if price.Err? {
        assert items[n].price.currency != SAR || !InRange(items, n);
        return;
      }
      sum := price.value;
    }
    assert items[..|items|] == items;
    price := Ok(sum);
  }

  class Appointment {
    const facts: Facts
    var status: Status
    var pendingUntil: Option<int>
    var cancellation: Option<Cancellation>
    var version: nat
    var updatedAt: int
    var events: seq<Event>

    function Snap(): Snapshot
      reads this
    {
      Snapshot(facts, status, pendingUntil, cancellation, version, updatedAt)
    }

    constructor Rehydrate(s: Snapshot)
      ensures Snap() == s && events == []
    {
      facts := s.facts;
      status, pendingUntil, cancellation := s.status, s.pendingUntil, s.cancellation;
      version, updatedAt := s.version, s.updatedAt;
      events := [];
    }

    /** domain.Book: refused exactly when the booking is not Bookable; otherwise the
        totals are the items' sums and the shop answers only app bookings of a
        branch that does not auto-confirm. */
    static method Book(b: Booking, now: int) returns (r: Result<Appointment, BookError>)
      ensures r.Ok? <==> Bookable(b)
      ensures r == Err(NoServices) <==> |b.items| == 0 || |b.items| > MAX_SERVICES
      ensures r == Err(NoteTooLong) <==> 1 <= |b.items| <= MAX_SERVICES && |b.note| > MAX_NOTE_LEN
      ensures r == Err(CustomerNameTooLong) <==>
              1 <= |b.items| <= MAX_SERVICES && |b.note| <= MAX_NOTE_LEN && |b.customerName| > MAX_CUSTOMER_NAME_LEN
      ensures r == Err(NoCustomer) <==>
              && 1 <= |b.items| <= MAX_SERVICES && |b.note| <= MAX_NOTE_LEN && |b.customerName| <= MAX_CUSTOMER_NAME_LEN
              && b.customer.None? && (SourceOf(b) != StaffSource || b.customerName == "")
      ensures r.Err? && r.error.BadPrice? <==>
              && 1 <= |b.items| <= MAX_SERVICES && |b.note| <= MAX_NOTE_LEN && |b.customerName| <= MAX_CUSTOMER_NAME_LEN
              && (b.customer.Some? || (SourceOf(b) == StaffSource && b.customerName != "")) && !PricesAdd(b.items)
      ensures r.Ok? ==>
              && fresh(r.value)
              && var s := r.value.Snap();
              && s.Sound() && r.value.events == [AppointmentBooked(s)] && s.version == 1
              && s.facts.id == b.id && s.facts.business == b.business
              && s.facts.branch == b.branch && s.facts.barber == b.barber
              && s.facts.customer == b.customer && s.facts.customerName == b.customerName
              && s.facts.source == SourceOf(b)
              && s.facts.assignment == b.assignment && s.facts.note == b.note
              && s.facts.createdAt == s.updatedAt == DbTime(now)
              && s.facts.start == b.start && s.facts.end == b.start + SumDurations(b.items)
              && s.Busy() == Interval(b.start, b.start + SumDurations(b.items) + b.buffer)
              && s.facts.price.amount == SumPrices(b.items) && s.facts.price.currency == SAR
              && s.facts.items == b.items && s.facts.cancellableUntil == b.start - Later(b.cancellationWindow, 0)
              && (s.status == Pending <==> !b.autoConfirm && SourceOf(b) == CustomerApp)
              && (s.status != Pending ==> s.status == Confirmed)
              && (s.status == Pending ==> s.pendingUntil == Some(DbTime(now) + b.pendingExpiry))
    {
      if |b.items| == 0 || |b.items| > MAX_SERVICES {
        return Err(NoServices);
      }
      if |b.note| > MAX_NOTE_LEN {
        return Err(NoteTooLong);
      }
      var source := SourceOf(b);
      if |b.customerName| > MAX_CUSTOMER_NAME_LEN {
        return Err(CustomerNameTooLong);
      }
      if b.customer.None? && (source != StaffSource || b.customerName == "") {
        return Err(NoCustomer);
      }
      var total, price := AddUp(b.items);
      if price.Err? {
        return Err(BadPrice(price.error));
      }
      var window := Later(b.cancellationWindow, 0);
      var at := DbTime(now);
      var facts := Facts(b.id, b.business, b.branch, b.barber, b.customer, b.customerName, b.items,
                         b.start, b.start + total, b.start + total + b.buffer, price.value,
                         source, b.assignment, b.note, b.start - window, at);
      var a := new Appointment.Rehydrate(Snapshot(facts, Confirmed, None, None, 1, at));
      if !b.autoConfirm && source == CustomerApp {
        a.status := Pending;
        a.pendingUntil := Some(at + b.pendingExpiry);
      }
      a.events := a.events + [AppointmentBooked(a.Snap())];
      return Ok(a);
    }

    method Change(to: Status, now: int)
      modifies this
      ensures Snap() == Moved(old(Snap()), to, now)
      ensures events == old(events) + [StatusChanged(old(status), Snap())]
    {
      var from := status;
      status := to;
      pendingUntil := None;
      version := version + 1;
      updatedAt := DbTime(now);
      events := events + [StatusChanged(from, Snap())];
    }

    /** The result, the new state and the event recorded are what Act says. */
    twostate predicate Acted(action: Action, now: int, outcome: Outcome)
      reads this
    {
      && (Snap(), outcome) == Act(old(Snap()), action, now)
      && events == old(events) + EventsOf(old(Snap()), Snap())
    }

    method Confirm(now: int) returns (r: Outcome)
      modifies this
      ensures Acted(Action.Confirm, now, r)
    {
      var s := Snap().Current(now);
      if s != Pending {
        return Refused(s);
      }
      Change(Confirmed, now);
      return Done;
    }

    method Reject(now: int) returns (r: Outcome)
      modifies this
      ensures Acted(Action.Reject, now, r)
    {
      var s := Snap().Current(now);
      if s != Pending {
        return Refused(s);
      }
      Change(Rejected, now);
      return Done;
    }

    method Cancel(who: Canceller, reason: string, now: int) returns (r: Outcome)
      modifies this
      ensures |reason| > MAX_REASON_LEN ==> r == ReasonTooLong && Snap() == old(Snap()) && events == old(events)
      ensures |reason| <= MAX_REASON_LEN ==>
              && r == Done && Snap() == CancelledNow(old(Snap()), who, reason, now)
              && events == old(events) + [StatusChanged(old(status), Snap())]
    {
      if |reason| > MAX_REASON_LEN {
        return ReasonTooLong;
      }
      cancellation := Some(Cancellation(who, reason, DbTime(now)));
      Change(Cancelled, now);
      return Done;
    }

    method CancelByCustomer(reason: string, now: int) returns (r: Outcome)
      modifies this
      ensures Acted(Action.CancelByCustomer(reason), now, r)
    {
      var deadline := facts.start;
      match Snap().Current(now) {
        case Pending =>
        case Confirmed => deadline := facts.cancellableUntil;
        case s => return Refused(s);
      }
      if now >= deadline {
        return TooLateToCancel;
      }
      r := Cancel(ByCustomer, reason, now);
    }

    method CancelByStaff(reason: string, now: int) returns (r: Outcome)
      modifies this
      ensures Acted(Action.CancelByStaff(reason), now, r)
    {
      var s := Snap().Current(now);
      if s != Pending && s != Confirmed {
        return Refused(s);
      }
      r := Cancel(ByStaff, reason, now);
    }

    method Expire(now: int) returns (r: Outcome)
      modifies this
      ensures Acted(Action.Expire, now, r)
    {
      if status != Pending || pendingUntil.None? || now < pendingUntil.value {
        return Refused(Snap().Current(now));
      }
      Change(Expired, now);
      return Done;
    }

    method Finish(to: Status, now: int) returns (r: Outcome)
      requires to == Completed || to == NoShow
      modifies this
      ensures Acted(if to == Completed then Action.Complete else Action.MarkNoShow, now, r)
    {
      var s := Snap().Current(now);
      if s != Confirmed {
        return Refused(s);
      }
      if now < facts.start {
        return NotStarted;
      }
      Change(to, now);
      return Done;
    }
  }

  datatype Action =
    | Confirm
    | Reject
    | CancelByCustomer(reason: string)
    | CancelByStaff(reason: string)
    | Expire
    | Complete
    | MarkNoShow

  /** Refused names the status as it is now. */
  datatype Outcome = Done | Refused(status: Status) | TooLateToCancel | NotStarted | ReasonTooLong

  function Moved(s: Snapshot, to: Status, now: int): Snapshot {
    s.(status := to, pendingUntil := None, version := s.version + 1, updatedAt := DbTime(now))
  }

  function CancelledNow(s: Snapshot, who: Canceller, reason: string, now: int): Snapshot {
    Moved(s, Cancelled, now).(cancellation := Some(Cancellation(who, reason, DbTime(now))))
  }

  function EventsOf(before: Snapshot, after: Snapshot): seq<Event> {
    if after.version == before.version then [] else [StatusChanged(before.status, after)]
  }

  /** The lifecycle as one transition function. */
  function Act(s: Snapshot, action: Action, now: int): (Snapshot, Outcome) {
    var cur := s.Current(now);
    match action
    case Confirm => if cur == Pending then (Moved(s, Confirmed, now), Done) else (s, Refused(cur))
    case Reject => if cur == Pending then (Moved(s, Rejected, now), Done) else (s, Refused(cur))
    case CancelByCustomer(reason) =>
      if cur != Pending && cur != Confirmed then (s, Refused(cur))
      else if now >= (if cur == Pending then s.facts.start else s.facts.cancellableUntil) then (s, TooLateToCancel)
      else if |reason| > MAX_REASON_LEN then (s, ReasonTooLong)
      else (CancelledNow(s, ByCustomer, reason, now), Done)
    case CancelByStaff(reason) =>
      if cur != Pending && cur != Confirmed then (s, Refused(cur))
      else if |reason| > MAX_REASON_LEN then (s, ReasonTooLong)
      else (CancelledNow(s, ByStaff, reason, now), Done)
    case Expire =>
      if s.status == Pending && cur == Expired then (Moved(s, Expired, now), Done) else (s, Refused(cur))
    case Complete =>
      if cur != Confirmed then (s, Refused(cur))
      else if now < s.facts.start then (s, NotStarted)
      else (Moved(s, Completed, now), Done)
    case MarkNoShow =>
      if cur != Confirmed then (s, Refused(cur))
      else if now < s.facts.start then (s, NotStarted)
      else (Moved(s, NoShow, now), Done)
  }
}
