/** The appointment store as its interface and constraints promise: one transaction
    per booking or change, an exclusion constraint per barber, one claim per
    Idempotency-Key, a limit counted under the customer's lock. */
module BookingStore {
  import opened Wrappers
  import opened Intervals
  import opened Appointments
  import opened Lifecycle

  /** What a key was used for; a failed booking keeps no key. */
  datatype Claim = Claim(hash: int, appointment: int)

  datatype Store = Store(appointments: map<int, Snapshot>, keys: map<(int, int), Claim>)

  /** One booking request: drafts best first, and for each whether its barber still
      works then. No limit is the shop's own booking. */
  datatype Attempt = Attempt(
    requester: int, branch: int, key: int, hash: int, now: int, limit: Option<nat>,
    drafts: seq<Snapshot>, working: seq<bool>)
  {
    predicate Valid() {
      && |working| == |drafts|
      && forall i :: 0 <= i < |drafts| ==>
           && drafts[i].Sound() && drafts[i].Active() && drafts[i].facts.start < drafts[i].facts.busyUntil
           && drafts[i].facts.branch == branch
           && drafts[i].facts.customer == if limit.Some? then Some(requester) else None
    }
  }

  datatype Answer = Booked(id: int) | Replayed(id: int) | KeyReused | SlotUnavailable | TooManyBookings | Failed

  /** The exclusion constraint lets the draft in. */
  predicate Free(s: Store, d: Snapshot) {
    forall id :: id in s.appointments && s.appointments[id].Active()
                 && s.appointments[id].facts.barber == d.facts.barber ==>
      !s.appointments[id].Busy().Overlaps(d.Busy())
  }

  /** The first draft whose barber still works then and is free; |drafts| if none. */
  function FirstFree(s: Store, a: Attempt, from: nat): (i: nat)
    requires |a.working| == |a.drafts| && from <= |a.drafts|
    ensures from <= i <= |a.drafts|
    ensures i < |a.drafts| ==> a.working[i] && Free(s, a.drafts[i])
    ensures forall k :: from <= k < i ==> !a.working[k] || !Free(s, a.drafts[k])
    decreases |a.drafts| - from
  {
    if from == |a.drafts| then from
    else if a.working[from] && Free(s, a.drafts[from]) then from
    else FirstFree(s, a, from + 1)
  }

  /** The customer's active bookings at the branch that are still to come. */
  function Upcoming(s: Store, customer: int, branch: int, now: int): set<int> {
    set id | id in s.appointments && s.appointments[id].Active() && s.appointments[id].facts.customer == Some(customer)
             && s.appointments[id].facts.branch == branch && s.appointments[id].facts.start > now
  }

  /** The answer to a key that was used before. */
  function ReplayOf(claim: Claim, hash: int): Answer {
    if claim.hash == hash then Replayed(claim.appointment) else KeyReused
  }

  function Book(s: Store, a: Attempt): (Store, Answer)
    requires a.Valid()
  {
    if (a.requester, a.key) in s.keys then (s, ReplayOf(s.keys[(a.requester, a.key)], a.hash))
    else if a.drafts == [] then (s, SlotUnavailable)
    else if a.limit.Some? && |Upcoming(s, a.requester, a.branch, a.now)| >= a.limit.value then (s, TooManyBookings)
    else
      var i := FirstFree(s, a, 0);
      if i == |a.drafts| then (s, SlotUnavailable)
      else
        var id := a.drafts[i].facts.id;
        if id in s.appointments then (s, Failed)
        else (Store(s.appointments[id := a.drafts[i]], s.keys[(a.requester, a.key) := Claim(a.hash, id)]), Booked(id))
  }

  datatype Op = BookOp(attempt: Attempt) | ChangeOp(id: int, action: Action, at: int) {
    function Now(): int { if BookOp? then attempt.now else at }
  }

  predicate ValidOp(op: Op) { op.BookOp? ==> op.attempt.Valid() }

  function Next(s: Store, op: Op): Store
    requires ValidOp(op)
  {
    match op
    case BookOp(a) => Book(s, a).0
    case ChangeOp(id, action, at) =>
      if id !in s.appointments then s
      else s.(appointments := s.appointments[id := Act(s.appointments[id], action, at).0])
  }

  ghost function Run(s: Store, ops: seq<Op>): Store
    requires forall k :: 0 <= k < |ops| ==> ValidOp(ops[k])
    decreases |ops|
  {
    if ops == [] then s else Run(Next(s, ops[0]), ops[1..])
  }

  /** A barber's active appointments never overlap. */
  ghost predicate NoDoubleBooking(s: Store) {
    forall i, j :: i in s.appointments && j in s.appointments && i != j
      && s.appointments[i].Active() && s.appointments[j].Active()
      && s.appointments[i].facts.barber == s.appointments[j].facts.barber
      ==> !s.appointments[i].Busy().Overlaps(s.appointments[j].Busy())
  }

  ghost predicate Good(s: Store) {
    && (forall id :: id in s.appointments ==> s.appointments[id].Sound() && s.appointments[id].facts.id == id)
    && (forall id :: id in s.appointments ==> s.appointments[id].facts.start < s.appointments[id].facts.busyUntil)
    && (forall k :: k in s.keys ==> s.keys[k].appointment in s.appointments)
    && NoDoubleBooking(s)
  }

  /** What any step leaves alone: no appointment disappears, moves, changes hands or
      comes back to life, and no key is forgotten. */
  ghost predicate Preserves(s: Store, s': Store) {
    && (forall id :: id in s.appointments ==>
          && id in s'.appointments && s'.appointments[id].facts == s.appointments[id].facts
          && (s.appointments[id].Final() ==> s'.appointments[id] == s.appointments[id]))
    && KeysKept(s, s')
  }

  ghost predicate KeysKept(s: Store, s': Store) { forall k :: k in s.keys ==> k in s'.keys && s'.keys[k] == s.keys[k] }

  /** A free draft under a new ID, and its claim, keep the store good. */
  lemma DraftKeeps(s: Store, d: Snapshot, key: (int, int), hash: int)
    requires Good(s) && d.Sound() && d.facts.start < d.facts.busyUntil && Free(s, d)
    requires d.facts.id !in s.appointments && key !in s.keys
    ensures var s' := Store(s.appointments[d.facts.id := d], s.keys[key := Claim(hash, d.facts.id)]);
            Good(s') && Preserves(s, s')
  {
  }

  lemma BookKeeps(s: Store, a: Attempt)
    requires Good(s) && a.Valid()
    ensures Good(Book(s, a).0) && Preserves(s, Book(s, a).0)
  {
    if Book(s, a).1.Booked? {
      var d := a.drafts[FirstFree(s, a, 0)];
      DraftKeeps(s, d, (a.requester, a.key), a.hash);
    }
  }

  lemma ChangeKeeps(s: Store, id: int, action: Action, at: int)
    requires Good(s)
    ensures Good(Next(s, ChangeOp(id, action, at))) && Preserves(s, Next(s, ChangeOp(id, action, at)))
  {
    if id in s.appointments {
      ActIsSound(s.appointments[id], action, at);
      var s' := Next(s, ChangeOp(id, action, at));
      assert s'.appointments[id].Active() ==> s.appointments[id].Active();
    }
  }

  /** The appointment is as the action leaves it, and everything else as it was. */
  lemma ChangeLeaves(s: Store, id: int, action: Action, at: int)
    ensures var s' := Next(s, ChangeOp(id, action, at));
            && s'.keys == s.keys && s'.appointments.Keys == s.appointments.Keys
            && (forall x :: x in s.appointments && x != id ==> s'.appointments[x] == s.appointments[x])
            && (id in s.appointments ==> s'.appointments[id] == Act(s.appointments[id], action, at).0)
  {
  }

  lemma StepKeeps(s: Store, op: Op)
    requires Good(s) && ValidOp(op)
    ensures Good(Next(s, op)) && Preserves(s, Next(s, op))
  {
    match op
    case BookOp(a) => BookKeeps(s, a);
    case ChangeOp(id, action, at) => ChangeKeeps(s, id, action, at);
  }

  /** No double booking over whole runs, whatever bookings and changes interleave. */
  lemma {:induction false} NeverDoubleBooked(s: Store, ops: seq<Op>)
    requires Good(s) && forall k :: 0 <= k < |ops| ==> ValidOp(ops[k])
    ensures Good(Run(s, ops)) && NoDoubleBooking(Run(s, ops)) && Preserves(s, Run(s, ops))
    decreases |ops|
  {
    if ops != [] {
      StepKeeps(s, ops[0]);
      NeverDoubleBooked(Next(s, ops[0]), ops[1..]);
    }
  }

  lemma EmptyIsGood()
    ensures Good(Store(map[], map[]))
  {
  }

  lemma BookedClaims(s: Store, a: Attempt)
    requires a.Valid() && Book(s, a).1.Booked?
    ensures (a.requester, a.key) in Book(s, a).0.keys
    ensures Book(s, a).0.keys[(a.requester, a.key)] == Claim(a.hash, Book(s, a).1.id)
  {
  }

  lemma ClaimedIsReplayed(s: Store, a: Attempt, claim: Claim)
    requires a.Valid() && (a.requester, a.key) in s.keys && s.keys[(a.requester, a.key)] == claim
    ensures Book(s, a) == (s, ReplayOf(claim, a.hash))
  {
  }

  /** A retry with the same key, however much later, gets the first request's
      appointment and changes nothing; asking for something else is refused. */
  lemma RetryIsReplayed(s: Store, first: Attempt, ops: seq<Op>, retry: Attempt)
    requires Good(s) && first.Valid() && retry.Valid() && forall k :: 0 <= k < |ops| ==> ValidOp(ops[k])
    requires Book(s, first).1.Booked? && (first.requester, first.key) == (retry.requester, retry.key)
    ensures var later := Run(Book(s, first).0, ops);
            Book(later, retry) == (later, if retry.hash == first.hash then Replayed(Book(s, first).1.id) else KeyReused)
  {
    var booked := Book(s, first);
    BookKeeps(s, first);
    BookedClaims(s, first);
    NeverDoubleBooked(booked.0, ops);
    ClaimedIsReplayed(Run(booked.0, ops), retry, Claim(first.hash, booked.1.id));
  }

  /** A customer's new booking counts against them at that branch until it starts, and
      against nobody else; everything else counts as before. */
  lemma BookedIsUpcoming(s: Store, a: Attempt, customer: int, branch: int, at: int)
    requires a.Valid() && a.limit.Some? && Book(s, a).1.Booked?
    ensures var (s', r) := Book(s, a);
            && r.id in s'.appointments
            && (r.id in Upcoming(s', customer, branch, at) <==>
                  customer == a.requester && branch == a.branch && at < s'.appointments[r.id].facts.start)
            && Upcoming(s', customer, branch, at) - {r.id} == Upcoming(s, customer, branch, at)
  {
  }

  /** A change takes a booking off the count exactly when it leaves it final. */
  lemma FinalIsNotUpcoming(s: Store, id: int, action: Action, now: int, customer: int, branch: int, at: int)
    requires Good(s) && id in s.appointments
    ensures var s' := Next(s, ChangeOp(id, action, now));
            Upcoming(s', customer, branch, at) ==
            Upcoming(s, customer, branch, at) - if s'.appointments[id].Final() then {id} else {}
  {
    ActIsSound(s.appointments[id], action, now);
  }

  /** A booking that goes in, counted at its own clock, leaves the customer within the
      limit at any later instant. */
  lemma BookedKeepsLimit(s: Store, a: Attempt, customer: int, branch: int, limit: nat, at: int)
    requires Good(s) && a.Valid() && Book(s, a).1.Booked? && (a.limit.Some? ==> a.limit.value <= limit)
    requires a.now <= at && |Upcoming(s, customer, branch, at)| <= limit
    ensures |Upcoming(Book(s, a).0, customer, branch, at)| <= limit
  {
    var id := Book(s, a).1.id;
    var before, after := Upcoming(s, customer, branch, at), Upcoming(Book(s, a).0, customer, branch, at);
    if id in after {
      assert a.limit.Some? && a.requester == customer && a.branch == branch;
      Subset(before, Upcoming(s, customer, branch, a.now));
      assert after == before + {id};
    } else {
      Subset(after, before);
    }
  }

  /** Bookings through the app never give a customer more upcoming ones than the limit,
      at any instant their clocks have reached. */
  lemma StepKeepsLimit(s: Store, op: Op, customer: int, branch: int, limit: nat, at: int)
    requires Good(s) && ValidOp(op) && op.Now() <= at
    requires op.BookOp? && op.attempt.limit.Some? ==> op.attempt.limit.value <= limit
    requires |Upcoming(s, customer, branch, at)| <= limit
    ensures |Upcoming(Next(s, op), customer, branch, at)| <= limit
  {
    match op
    case ChangeOp(id, action, now) =>
      if id in s.appointments { ActIsSound(s.appointments[id], action, now); }
      Subset(Upcoming(Next(s, op), customer, branch, at), Upcoming(s, customer, branch, at));
    case BookOp(a) =>
      if Book(s, a).1.Booked? { BookedKeepsLimit(s, a, customer, branch, limit, at); }
  }

  lemma {:induction false} Subset(a: set<int>, b: set<int>)
    requires a <= b
    ensures |a| <= |b|
  {
    if forall x :: x !in a {
      assert a == {};
    } else {
      var x :| x in a;
      Subset(a - {x}, b - {x});
    }
  }

  /** In whatever order the transactions commit, whenever each read its clock. */
  lemma {:induction false} LimitHolds(s: Store, ops: seq<Op>, customer: int, branch: int, limit: nat, at: int)
    requires Good(s) && forall k :: 0 <= k < |ops| ==> ValidOp(ops[k]) && ops[k].Now() <= at
    requires forall k :: 0 <= k < |ops| && ops[k].BookOp? && ops[k].attempt.limit.Some? ==>
             ops[k].attempt.limit.value <= limit
    requires |Upcoming(s, customer, branch, at)| <= limit
    ensures |Upcoming(Run(s, ops), customer, branch, at)| <= limit
    decreases |ops|
  {
    if ops != [] {
      StepKeeps(s, ops[0]);
      StepKeepsLimit(s, ops[0], customer, branch, limit, at);
      LimitHolds(Next(s, ops[0]), ops[1..], customer, branch, limit, at);
    }
  }

  /** Pending in the store, expired to everyone who reads it. */
  predicate Overdue(s: Store, id: int, now: int) {
    id in s.appointments && s.appointments[id].status == Pending && s.appointments[id].Current(now) == Expired
  }

  /** The store once the expiry job has written it down. */
  function WithJob(s: Store, id: int, now: int): Store { Next(s, ChangeOp(id, Expire, now)) }

  function Struck(s: Store, id: int): Store { s.(appointments := s.appointments - {id}) }

  /** Apart from the appointment, nothing is in the draft's way. */
  predicate OnlyBlockedBy(s: Store, id: int, d: Snapshot) { Free(Struck(s, id), d) }

  /** An overdue booking holds the barber's time until the job has run, and the job
      frees exactly that. */
  lemma OnlyTheJobFreesTheTime(s: Store, id: int, d: Snapshot, now: int)
    requires Overdue(s, id, now)
    ensures Free(WithJob(s, id, now), d) <==> OnlyBlockedBy(s, id, d)
    ensures s.appointments[id].facts.barber == d.facts.barber && s.appointments[id].Busy().Overlaps(d.Busy()) ==>
            !Free(s, d)
  {
    var s' := WithJob(s, id, now);
    assert !s'.appointments[id].Active();
    if OnlyBlockedBy(s, id, d) {
      forall other | other in s'.appointments && s'.appointments[other].Active()
                     && s'.appointments[other].facts.barber == d.facts.barber
        ensures !s'.appointments[other].Busy().Overlaps(d.Busy())
      {
        assert other in Struck(s, id).appointments;
      }
    }
    if Free(s', d) {
      forall other | other in Struck(s, id).appointments && s.appointments[other].Active()
                     && s.appointments[other].facts.barber == d.facts.barber
        ensures !s.appointments[other].Busy().Overlaps(d.Busy())
      {
        assert s'.appointments[other] == s.appointments[other];
      }
    }
  }

  /** It counts against its customer's limit until then, too. */
  lemma OnlyTheJobFreesThePlace(s: Store, id: int, customer: int, branch: int, now: int)
    requires Overdue(s, id, now)
    ensures Upcoming(WithJob(s, id, now), customer, branch, now) == Upcoming(s, customer, branch, now) - {id}
  {
    assert !WithJob(s, id, now).appointments[id].Active();
  }

  /** With the job having run, the first draft to pass is the first of those that
      nothing else blocks. */
  lemma FirstFreed(s: Store, id: int, a: Attempt)
    requires Overdue(s, id, a.now) && |a.working| == |a.drafts|
    ensures var freed := FirstFree(Struck(s, id), a, 0);
            FirstFree(WithJob(s, id, a.now), a, 0) == freed <= FirstFree(s, a, 0)
    ensures FirstFree(Struck(s, id), a, 0) < FirstFree(s, a, 0) <==>
            exists k :: 0 <= k < FirstFree(s, a, 0) && a.working[k] && OnlyBlockedBy(s, id, a.drafts[k])
  {
    forall k | 0 <= k < |a.drafts|
      ensures Free(WithJob(s, id, a.now), a.drafts[k]) <==> Free(Struck(s, id), a.drafts[k])
      ensures Free(s, a.drafts[k]) ==> Free(Struck(s, id), a.drafts[k])
    {
      OnlyTheJobFreesTheTime(s, id, a.drafts[k], a.now);
    }
  }

  predicate UnderLimit(s: Store, a: Attempt) {
    a.limit.Some? ==> |Upcoming(s, a.requester, a.branch, a.now)| < a.limit.value
  }

  /** The overdue booking takes the customer's last place. */
  predicate HoldsLastPlace(s: Store, id: int, a: Attempt) {
    && a.limit.Some? && id in Upcoming(s, a.requester, a.branch, a.now)
    && |Upcoming(s, a.requester, a.branch, a.now)| == a.limit.value
  }

  /** It alone keeps out a draft that would otherwise be taken first, and the store
      would not answer for both drafts alike. */
  predicate HoldsBetterTime(s: Store, id: int, a: Attempt)
    requires |a.working| == |a.drafts|
  {
    var i, k := FirstFree(s, a, 0), FirstFree(Struck(s, id), a, 0);
    k < i && (i < |a.drafts| ==> !SameAnswer(s, a.drafts[k].facts.id, a.drafts[i].facts.id))
  }

  /** The same appointment, or two IDs that are taken already. */
  predicate SameAnswer(s: Store, id: int, other: int) {
    id == other || (id in s.appointments && other in s.appointments)
  }

  predicate Asks(s: Store, a: Attempt) { (a.requester, a.key) !in s.keys && a.drafts != [] }

  /** To the transaction on one given attempt the job shows for two reasons and no others:
      the overdue booking takes the customer's last place, or it alone blocks a better
      draft. (Which drafts a request comes to depends on the job, too.) */
  lemma JobShowsToAttempt(s: Store, id: int, a: Attempt)
    requires Overdue(s, id, a.now) && a.Valid()
    ensures Book(s, a).1 != Book(WithJob(s, id, a.now), a).1 <==>
            Asks(s, a) && (HoldsLastPlace(s, id, a) || (UnderLimit(s, a) && HoldsBetterTime(s, id, a)))
  {
    FirstFreed(s, id, a);
    OnlyTheJobFreesThePlace(s, id, a.requester, a.branch, a.now);
    assert forall x :: x in WithJob(s, id, a.now).appointments <==> x in s.appointments;
  }

  /** Drafts are given new IDs. */
  predicate NewIds(s: Store, a: Attempt) {
    && (forall i :: 0 <= i < |a.drafts| ==> a.drafts[i].facts.id !in s.appointments)
    && forall i, j :: 0 <= i < j < |a.drafts| ==> a.drafts[i].facts.id != a.drafts[j].facts.id
  }

  /** With new IDs the second reason is just a working draft before the chosen one
      that nothing else blocks. */
  lemma JobShowsToNewDrafts(s: Store, id: int, a: Attempt)
    requires Overdue(s, id, a.now) && a.Valid() && NewIds(s, a)
    ensures Book(s, a).1 != Book(WithJob(s, id, a.now), a).1 <==>
            && Asks(s, a)
            && (HoldsLastPlace(s, id, a)
                || (UnderLimit(s, a)
                    && exists k :: 0 <= k < FirstFree(s, a, 0) && a.working[k] && OnlyBlockedBy(s, id, a.drafts[k])))
  {
    JobShowsToAttempt(s, id, a);
    FirstFreed(s, id, a);
  }
}
