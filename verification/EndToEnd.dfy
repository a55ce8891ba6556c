/** From the slot a customer sees to the row in the store. */
module EndToEnd {
  import opened Wrappers
  import opened Intervals
  import opened Windows
  import opened Offers
  import opened Availability
  import opened Appointments
  import opened BookingApp
  import opened BookingStore

  /** What was read about appointments is what the store holds: a barber is busy
      exactly during their active appointments. */
  ghost predicate Reflects(w: World, s: Store) {
    forall staff, t :: In(t, w.busy(staff)) <==>
      exists id :: id in s.appointments && s.appointments[id].Active()
                   && s.appointments[id].facts.barber == staff && s.appointments[id].Busy().Contains(t)
  }

  ghost predicate DraftsFor(w: World, q: Request, free: seq<int>, drafts: seq<Snapshot>) {
    && AreFree(w, q.services, q.barber, q.start, free)
    && |drafts| == |free| && forall i :: 0 <= i < |free| ==> IsDraft(w, q, free[i], drafts[i])
  }

  lemma DraftsFitTheStore(w: World, q: Request, free: seq<int>, a: Attempt)
    requires DraftsFor(w, q, free, a.drafts) && |a.working| == |a.drafts|
    requires a.requester == q.customer && a.branch == w.branch && a.limit.Some?
    ensures a.Valid()
  {
  }

  /** A draft of a possible barber passes the exclusion constraint. */
  lemma PossibleIsFree(w: World, s: Store, q: Request, staff: int, d: Snapshot)
    requires Good(s) && Reflects(w, s) && w.Possible(q.services, q.barber, q.start, staff) && IsDraft(w, q, staff, d)
    ensures Free(s, d)
  {
    forall id | id in s.appointments && s.appointments[id].Active() && s.appointments[id].facts.barber == d.facts.barber
      ensures !s.appointments[id].Busy().Overlaps(d.Busy())
    {
      OverlapIsSharedInstant(s.appointments[id].Busy(), d.Busy());
      forall t | d.Busy().Contains(t) ensures !s.appointments[id].Busy().Contains(t) {
        assert !In(t, w.busy(staff));
      }
    }
  }

  /** The attempt a request comes to, its second look at the hours taken in `again`. */
  ghost predicate AttemptFor(w: World, again: World, q: Request, free: seq<int>, a: Attempt) {
    && DraftsFor(w, q, free, a.drafts) && |a.working| == |a.drafts|
    && (forall i :: 0 <= i < |a.drafts| ==> (a.working[i] <==> WorksThroughout(again, a.drafts[i])))
    && a.requester == q.customer && a.branch == w.branch && a.limit.Some?
  }

  /** Nothing but the time itself could be in the attempt's way. */
  ghost predicate Unhindered(s: Store, a: Attempt) {
    && (a.requester, a.key) !in s.keys
    && (a.limit.Some? ==> |Upcoming(s, a.requester, a.branch, a.now)| < a.limit.value)
    && forall i :: 0 <= i < |a.drafts| ==> a.drafts[i].facts.id !in s.appointments
  }

  /** With nothing changed since, the first of the free barbers gets the booking. */
  lemma FreeIsBooked(w: World, s: Store, q: Request, free: seq<int>, a: Attempt)
    requires w.Valid() && Good(s) && Reflects(w, s) && ServicesOk(q.services)
    requires AttemptFor(w, w, q, free, a) && Unhindered(s, a) && free != []
    ensures FirstFree(s, a, 0) == 0
    ensures a.Valid() && Book(s, a).1 == Booked(a.drafts[0].facts.id) && a.drafts[0].facts.barber == free[0]
  {
    DraftsFitTheStore(w, q, free, a);
    assert w.Possible(q.services, q.barber, q.start, free[0]) by { assert free[0] in free; }
    assert IsDraft(w, q, free[0], a.drafts[0]);
    SecondLookAgrees(w, q, free[0], a.drafts[0]);
    PossibleIsFree(w, s, q, free[0], a.drafts[0]);
    assert FirstFree(s, a, 0) == 0;
  }

  /** Whatever slot availability shows, a booking of it made before anything changes
      goes through, and goes to the least booked of the barbers listed. */
  lemma ShownIsBookable(w: World, s: Store, q: Request, slots: seq<Slot>, free: seq<int>, a: Attempt, staff: int)
    requires w.Valid() && Good(s) && Reflects(w, s) && ServicesOk(q.services)
    requires AreSlots(w, w.zone.DateOf(q.start), q.services, q.barber, slots) && Listed(slots, q.start, staff)
    requires AttemptFor(w, w, q, free, a) && Unhindered(s, a)
    ensures a.Valid() && free != [] && staff in free
    ensures Book(s, a).1 == Booked(a.drafts[0].facts.id) && a.drafts[0].facts.barber == free[0]
    ensures forall i :: 0 < i < |free| ==> Ahead(w, w.zone.DateOf(q.start), free[0], free[i])
  {
    AvailabilityIsBooking(w, q.services, q.barber, q.start, slots, free, staff);
    FreeIsBooked(w, s, q, free, a);
  }

  /** The drafts whose barber still works then, by the hours as they are re-read
      inside the transaction. */
  method Rechecked(again: World, drafts: seq<Snapshot>) returns (working: seq<bool>)
    requires again.Valid()
    requires forall i :: 0 <= i < |drafts| ==>
             0 < drafts[i].facts.busyUntil - drafts[i].facts.start <= MAX_WINDOWS_RANGE
    ensures |working| == |drafts| && forall i :: 0 <= i < |drafts| ==>
            (working[i] <==> WorksThroughout(again, drafts[i]))
  {
    working := [];
    for n := 0 to |drafts|
      invariant |working| == n && forall i :: 0 <= i < n ==> (working[i] <==> WorksThroughout(again, drafts[i]))
    {
      var still := StillWorking(again, drafts[n]);
      working := working + [still.value];
    }
  }

  /** What a booking that went through has behind it. */
  ghost predicate Rightly(w: World, again: World, s: Store, q: Request, d: Snapshot) {
    && w.StartOk(q.start) && w.Possible(q.services, q.barber, q.start, d.facts.barber)
    && IsDraft(w, q, d.facts.barber, d)
    && WorksThroughout(again, d) && Free(s, d)
  }

  /** Someone could take it: the request is one booking accepts. */
  ghost predicate Acceptable(w: World, q: Request) {
    && TurnedDown(w, q).None? && |q.note| <= MAX_NOTE_LEN
    && exists staff :: w.Possible(q.services, q.barber, q.start, staff)
  }

  /** Everything Book does before the store's transaction. */
  method MakeAttempt(w: World, again: World, q: Request, key: int, hash: int, limit: nat, newId: nat -> int)
    returns (r: Result<Attempt, AppError>, ghost free: seq<int>)
    requires w.Valid() && again.Valid()
    ensures r.Err? ==> !Acceptable(w, q)
    ensures TurnedDown(w, q).Some? ==> r == Err(TurnedDown(w, q).value)
    ensures r.Err? && TurnedDown(w, q).None? ==>
            && r.error == BadBooking(NoteTooLong) && |q.note| > MAX_NOTE_LEN
            && free != [] && AreFree(w, q.services, q.barber, q.start, free)
    ensures r.Ok? && |q.note| > MAX_NOTE_LEN ==> free == []
    ensures r.Ok? ==>
            && ServicesOk(q.services) && w.StartOk(q.start) && AttemptFor(w, again, q, free, r.value)
            && r.value.key == key && r.value.hash == hash && r.value.now == w.now && r.value.limit == Some(limit)
            && (forall i :: 0 <= i < |free| ==> r.value.drafts[i].facts.id == newId(i))
  {
    var prepared;
    prepared, free := PrepareBooking(w, q, newId);
    if prepared.Err? {
      return Err(prepared.error), free;
    }
    forall i | 0 <= i < |free|
      ensures 0 < prepared.value[i].facts.busyUntil - prepared.value[i].facts.start <= MAX_WINDOWS_RANGE
    {
      assert free[i] in free;
      SecondLookAgrees(w, q, free[i], prepared.value[i]);
    }
    var working := Rechecked(again, prepared.value);
    r := Ok(Attempt(q.customer, w.branch, key, hash, w.now, Some(limit), prepared.value, working));
  }

  /** The appointment and its key are all that is new. */
  ghost predicate BookedInto(w: World, again: World, s: Store, q: Request, key: int, hash: int, s': Store, id: int) {
    && id !in s.appointments && id in s'.appointments && Rightly(w, again, s, q, s'.appointments[id])
    && s' == Store(s.appointments[id := s'.appointments[id]], s.keys[(q.customer, key) := Claim(hash, id)])
  }

  lemma BookedRightly(w: World, again: World, s: Store, q: Request, free: seq<int>, a: Attempt)
    requires w.StartOk(q.start) && AttemptFor(w, again, q, free, a) && a.Valid() && Book(s, a).1.Booked?
    ensures BookedInto(w, again, s, q, a.key, a.hash, Book(s, a).0, Book(s, a).1.id)
  {
    var i := FirstFree(s, a, 0);
    assert IsDraft(w, q, free[i], a.drafts[i]) && free[i] in free;
  }

  /** What the store answers a new attempt when nothing has changed. */
  ghost predicate Answers(s: Store, free: seq<int>, a: Attempt, s': Store, r: Answer)
    requires a.limit.Some?
  {
    if free == [] then r == SlotUnavailable
    else if |Upcoming(s, a.requester, a.branch, a.now)| >= a.limit.value then r == TooManyBookings
    else r.Booked? && r.id in s'.appointments && s'.appointments[r.id].facts.barber == free[0]
  }

  /** The key is new, and so are the drafts' IDs. */
  ghost predicate IsNew(s: Store, a: Attempt) {
    (a.requester, a.key) !in s.keys && forall i :: 0 <= i < |a.drafts| ==> a.drafts[i].facts.id !in s.appointments
  }

  lemma CalmAnswer(w: World, s: Store, q: Request, free: seq<int>, a: Attempt)
    requires w.Valid() && Good(s) && Reflects(w, s) && ServicesOk(q.services)
    requires AttemptFor(w, w, q, free, a) && IsNew(s, a)
    ensures a.Valid() && Answers(s, free, a, Book(s, a).0, Book(s, a).1)
  {
    DraftsFitTheStore(w, q, free, a);
    if free != [] && |Upcoming(s, a.requester, a.branch, a.now)| < a.limit.value {
      FreeIsBooked(w, s, q, free, a);
    }
  }

  /** The store's transaction on the attempt a request came to. */
  method Commit(s: Store, a: Attempt, ghost w: World, ghost again: World, ghost q: Request, ghost free: seq<int>)
    returns (s': Store, r: Answer)
    requires w.Valid() && Good(s) && ServicesOk(q.services) && w.StartOk(q.start)
    requires AttemptFor(w, again, q, free, a)
    ensures Good(s') && Preserves(s, s') && (!r.Booked? ==> s' == s)
    ensures (a.requester, a.key) in s.keys ==> r == ReplayOf(s.keys[(a.requester, a.key)], a.hash)
    ensures r == TooManyBookings ==> |Upcoming(s, q.customer, w.branch, a.now)| >= a.limit.value
    ensures r.Booked? ==> BookedInto(w, again, s, q, a.key, a.hash, s', r.id)
    ensures again == w && Reflects(w, s) && IsNew(s, a) ==> Answers(s, free, a, s', r)
  {
    DraftsFitTheStore(w, q, free, a);
    BookKeeps(s, a);
    var (after, answer) := Book(s, a);
    if answer.Booked? { BookedRightly(w, again, s, q, free, a); }
    if again == w && Reflects(w, s) && IsNew(s, a) { CalmAnswer(w, s, q, free, a); }
    return after, answer;
  }

  /** What a customer is told: why not, or who will see them. */
  datatype Reply = Turned(error: AppError) | Said(answer: Answer) | BookedWith(barber: int)

  /** The reply to a request, from who is free for it. */
  function ReplyTo(w: World, s: Store, q: Request, key: int, hash: int, limit: nat, free: seq<int>): Reply {
    if !ServicesOk(q.services) then Turned(NoServicesChosen)
    else if (q.customer, key) in s.keys then Said(ReplayOf(s.keys[(q.customer, key)], hash))
    else if TurnedDown(w, q).Some? then Turned(TurnedDown(w, q).value)
    else if free == [] then Said(SlotUnavailable)
    else if |q.note| > MAX_NOTE_LEN then Turned(BadBooking(NoteTooLong))
    else if |Upcoming(s, q.customer, w.branch, w.now)| >= limit then Said(TooManyBookings)
    else BookedWith(free[0])
  }

  predicate Conveys(reply: Reply, s': Store, r: Result<Answer, AppError>) {
    match reply
    case Turned(e) => r == Err(e)
    case Said(answer) => r == Ok(answer)
    case BookedWith(barber) =>
      r.Ok? && r.value.Booked? && r.value.id in s'.appointments && s'.appointments[r.value.id].facts.barber == barber
  }

  /** Nothing changed since the world was read, and IDs made for drafts are new. */
  ghost predicate Calm(w: World, again: World, s: Store, newId: nat -> int) {
    again == w && Reflects(w, s) && forall n: nat :: newId(n) !in s.appointments
  }

  lemma AnswerIsReply(
      w: World, s: Store, q: Request, key: int, hash: int, limit: nat, free: seq<int>, a: Attempt, s': Store, r: Answer)
    requires ServicesOk(q.services) && (q.customer, key) !in s.keys && TurnedDown(w, q).None?
    requires a.requester == q.customer && a.branch == w.branch && a.now == w.now && a.limit == Some(limit)
    requires |q.note| > MAX_NOTE_LEN ==> free == []
    requires Answers(s, free, a, s', r)
    ensures Conveys(ReplyTo(w, s, q, key, hash, limit, free), s', Ok(r))
  {
  }

  lemma MadeNew(s: Store, newId: nat -> int, a: Attempt)
    requires (a.requester, a.key) !in s.keys && forall n: nat :: newId(n) !in s.appointments
    requires forall i :: 0 <= i < |a.drafts| ==> a.drafts[i].facts.id == newId(i)
    ensures IsNew(s, a)
  {
  }

  /** Book after the key was found to be new: look for free time, then the transaction. */
  method BookNew(
      w: World, again: World, s: Store, q: Request, key: int, hash: int, limit: nat, newId: nat -> int)
    returns (s': Store, r: Result<Answer, AppError>, ghost free: seq<int>)
    requires w.Valid() && again.Valid() && Good(s) && ServicesOk(q.services)
    ensures Good(s') && Preserves(s, s')
    ensures r.Err? || !r.value.Booked? ==> s' == s
    ensures r.Ok? && (q.customer, key) in s.keys ==> r.value == ReplayOf(s.keys[(q.customer, key)], hash)
    ensures r.Ok? && r.value.Booked? ==> BookedInto(w, again, s, q, key, hash, s', r.value.id)
    ensures r == Ok(TooManyBookings) ==> |Upcoming(s, q.customer, w.branch, w.now)| >= limit
    ensures TurnedDown(w, q).None? ==> AreFree(w, q.services, q.barber, q.start, free)
    ensures Calm(w, again, s, newId) && (q.customer, key) !in s.keys ==>
            Conveys(ReplyTo(w, s, q, key, hash, limit, free), s', r)
  {
    var attempt;
    attempt, free := MakeAttempt(w, again, q, key, hash, limit, newId);
    if attempt.Err? {
      return s, Err(attempt.error), free;
    }
    var a := attempt.value;
    var after, answer := Commit(s, a, w, again, q, free);
    if Calm(w, again, s, newId) && (q.customer, key) !in s.keys {
      MadeNew(s, newId, a);
      AnswerIsReply(w, s, q, key, hash, limit, free, a, after, answer);
    }
    return after, Ok(answer), free;
  }

  lemma ReplyIsDetermined(
      w: World, s: Store, q: Request, key: int, hash: int, limit: nat, free: seq<int>, mine: seq<int>)
    requires AreFree(w, q.services, q.barber, q.start, free)
    requires TurnedDown(w, q).None? ==> AreFree(w, q.services, q.barber, q.start, mine)
    ensures ReplyTo(w, s, q, key, hash, limit, free) == ReplyTo(w, s, q, key, hash, limit, mine)
  {
    if TurnedDown(w, q).None? { FreeIsDetermined(w, q.services, q.barber, q.start, free, mine); }
  }

  /** Book from the request to the committed store. `seen` is the store when the key is
      looked up, `w` what is read when looking for free time; `again` and `s` are what
      the transaction finds, and may differ in any way a store goes on. */
  method BookAppointment(
      w: World, again: World, seen: Store, s: Store, q: Request, key: int, hash: int, limit: nat, newId: nat -> int)
    returns (s': Store, r: Result<Answer, AppError>)
    requires w.Valid() && again.Valid() && Good(s) && KeysKept(seen, s)
    ensures Good(s') && Preserves(s, s')
    ensures r.Err? || !r.value.Booked? ==> s' == s
    ensures ServicesOk(q.services) && (q.customer, key) in seen.keys ==>
            r == Ok(ReplayOf(s.keys[(q.customer, key)], hash))
    ensures r.Ok? && (q.customer, key) in s.keys ==> r.value == ReplayOf(s.keys[(q.customer, key)], hash)
    ensures r.Ok? && r.value.Booked? ==> BookedInto(w, again, s, q, key, hash, s', r.value.id)
    ensures r == Ok(TooManyBookings) ==> |Upcoming(s, q.customer, w.branch, w.now)| >= limit
    ensures Calm(w, again, s, newId) && ((q.customer, key) in s.keys ==> (q.customer, key) in seen.keys) ==>
            forall free :: AreFree(w, q.services, q.barber, q.start, free) ==>
              Conveys(ReplyTo(w, s, q, key, hash, limit, free), s', r)
    ensures Acceptable(w, q) && Calm(w, again, s, newId) && (q.customer, key) !in s.keys
            && |Upcoming(s, q.customer, w.branch, w.now)| < limit ==>
            r.Ok? && r.value.Booked?
  {
    var dup := HasDuplicates(q.services);
    if |q.services| == 0 || |q.services| > MAX_SERVICES || dup {
      return s, Err(NoServicesChosen);
    }
    if (q.customer, key) in seen.keys {
      return s, Ok(ReplayOf(seen.keys[(q.customer, key)], hash));
    }
    ghost var mine;
    s', r, mine := BookNew(w, again, s, q, key, hash, limit, newId);
    assert Acceptable(w, q) ==> mine != [];
    forall free | AreFree(w, q.services, q.barber, q.start, free)
      ensures ReplyTo(w, s, q, key, hash, limit, free) == ReplyTo(w, s, q, key, hash, limit, mine)
    {
      ReplyIsDetermined(w, s, q, key, hash, limit, free, mine);
    }
  }
}
