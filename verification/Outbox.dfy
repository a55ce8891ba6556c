/** Events between modules: subscriptions, publishing and fan-out. */
module Outbox {
  import opened Wrappers

  datatype Event<P> = Event(id: int, kind: string, payload: P)

  /** One published event, not yet fanned out, with the subscribers the publisher knew. */
  datatype EventJob<P> = EventJob(event: Event<P>, subscribers: seq<string>)

  datatype Delivery<P> = Delivery(handler: string, event: Event<P>)

  ghost predicate NoDuplicates(s: seq<string>) { forall i, j :: 0 <= i < j < |s| ==> s[i] != s[j] }

  /** The publisher's subscribers, then this release's that are not among them. */
  function Recipients(subs: seq<string>, mine: seq<string>): seq<string> {
    if mine == [] then subs
    else
      var names := Recipients(subs, mine[..|mine| - 1]);
      if mine[|mine| - 1] in names then names else names + [mine[|mine| - 1]]
  }

  /** Exactly one delivery per name in the union. */
  lemma {:induction false} RecipientsAreTheUnion(subs: seq<string>, mine: seq<string>)
    ensures forall n :: n in Recipients(subs, mine) <==> n in subs || n in mine
    ensures NoDuplicates(subs) ==> NoDuplicates(Recipients(subs, mine))
    decreases |mine|
  {
    if mine != [] {
      var front, last := mine[..|mine| - 1], mine[|mine| - 1];
      RecipientsAreTheUnion(subs, front);
      assert mine == front + [last];
    }
  }

  class Bus {
    var handlers: set<string>
    var byKind: map<string, seq<string>>

    /** Each name was subscribed once, under one kind of event. */
    ghost predicate Valid()
      reads this
    {
      && (forall k :: k in byKind ==> NoDuplicates(byKind[k]) && forall n :: n in byKind[k] ==> n in handlers)
      && forall k, l, n :: k in byKind && l in byKind && n in byKind[k] && n in byKind[l] ==> k == l
    }

    function Subscribers(kind: string): seq<string>
      reads this
    {
      if kind in byKind then byKind[kind] else []
    }

    constructor ()
      ensures Valid() && handlers == {} && byKind == map[]
    {
      handlers, byKind := {}, map[];
    }

    /** A second registration of a name panics: callers must not. */
    method Subscribe(name: string, kind: string)
      requires Valid() && name !in handlers
      modifies this
      ensures Valid() && handlers == old(handlers) + {name}
      ensures Subscribers(kind) == old(Subscribers(kind)) + [name]
      ensures forall k :: k != kind ==> Subscribers(k) == old(Subscribers(k))
    {
      handlers := handlers + {name};
      byKind := byKind[kind := Subscribers(kind) + [name]];
    }

    method PublishTx<P>(events: seq<Event<P>>) returns (jobs: seq<EventJob<P>>)
      requires Valid()
      ensures |jobs| == |events|
      ensures forall i :: 0 <= i < |events| ==>
                jobs[i] == EventJob(events[i], Subscribers(events[i].kind)) && NoDuplicates(jobs[i].subscribers)
    {
      jobs := [];
      for n := 0 to |events|
        invariant |jobs| == n
        invariant forall i :: 0 <= i < n ==> jobs[i] == EventJob(events[i], Subscribers(events[i].kind))
      {
        jobs := jobs + [EventJob(events[n], Subscribers(events[n].kind))];
      }
    }

    /** Fan-out in one transaction: the deliveries and the event done, or nothing. */
    method Work<P>(job: EventJob<P>, commits: bool) returns (deliveries: seq<Delivery<P>>, done: bool)
      requires Valid()
      ensures done == commits
      ensures !commits ==> deliveries == []
      ensures commits ==> deliveries == DeliveriesOf(job, Subscribers(job.event.kind))
    {
      var names, mine := job.subscribers, Subscribers(job.event.kind);
      for n := 0 to |mine|
        invariant names == Recipients(job.subscribers, mine[..n])
      {
        assert mine[..n + 1][..n] == mine[..n];
        if mine[n] !in names {
          names := names + [mine[n]];
        }
      }
      assert mine[..|mine|] == mine;
      if !commits {
        return [], false;
      }
      deliveries := [];
      for n := 0 to |names|
        invariant |deliveries| == n && forall i :: 0 <= i < n ==> deliveries[i] == Delivery(names[i], job.event)
      {
        deliveries := deliveries + [Delivery(names[n], job.event)];
      }
      return deliveries, true;
    }
  }

  function DeliveriesOf<P>(job: EventJob<P>, mine: seq<string>): seq<Delivery<P>> {
    var names := Recipients(job.subscribers, mine);
    seq(|names|, i requires 0 <= i < |names| => Delivery(names[i], job.event))
  }

  lemma DeliveredOnceToEach<P>(job: EventJob<P>, mine: seq<string>, name: string)
    ensures Delivery(name, job.event) in DeliveriesOf(job, mine) <==> name in job.subscribers || name in mine
    ensures NoDuplicates(job.subscribers) ==>
            var ds := DeliveriesOf(job, mine); forall i, j :: 0 <= i < j < |ds| ==> ds[i] != ds[j]
  {
    RecipientsAreTheUnion(job.subscribers, mine);
    var names, ds := Recipients(job.subscribers, mine), DeliveriesOf(job, mine);
    if name in names {
      var i :| 0 <= i < |names| && names[i] == name;
      assert ds[i] == Delivery(name, job.event);
    }
  }
}

/** A branch as the source of versioned events, and the copies other modules keep. */
module Branches {
  import opened Wrappers
  import opened Calendar
  import opened Outbox

  datatype BranchStatus = Draft | Published | Unpublished

  /** Profiles and policies are opaque values here. */
  datatype BranchSnapshot = BranchSnapshot(version: nat, status: BranchStatus, profile: int)

  datatype Readiness = Readiness(openingHours: bool, offeredService: bool, bookableBarber: bool) {
    /** What is left to do; a barber is asked for only once there is a service. */
    function Missing(): (ns: seq<Need>)
      ensures ns == [] <==> openingHours && offeredService && bookableBarber
      ensures OpeningHours in ns <==> !openingHours
      ensures AService in ns <==> !offeredService
      ensures AScheduledBarber in ns <==> offeredService && !bookableBarber
    {
      (if openingHours then [] else [OpeningHours]) +
      (if !offeredService then [AService] else if !bookableBarber then [AScheduledBarber] else [])
    }
  }

  datatype Need = OpeningHours | AService | AScheduledBarber

  datatype BranchError =
    InvalidProfile | PolicyRequired | BusinessNotActive | InvalidTransition | NotReady(missing: seq<Need>)

  const DEFAULT_POLICY := 0

  /** None is a profile that does not validate, or a policy left out. */
  datatype Change =
    | Edit(profile: Option<int>, policy: Option<int>)
    | Publish(businessActive: bool, readiness: Readiness)
    | Unpublish

  /** The branch after a change, or why not. */
  function Changed(b: BranchSnapshot, c: Change): Result<BranchSnapshot, BranchError> {
    match c
    case Edit(profile, policy) =>
      if profile.None? then Err(InvalidProfile) else if policy.None? then Err(PolicyRequired)
      else Ok(BranchSnapshot(b.version + 1, b.status, profile.value))
    case Publish(active, r) =>
      if !active then Err(BusinessNotActive) else if b.status == Published then Err(InvalidTransition)
      else if r.Missing() != [] then Err(NotReady(r.Missing()))
      else Ok(BranchSnapshot(b.version + 1, Published, b.profile))
    case Unpublish =>
      if b.status != Published then Err(InvalidTransition)
      else Ok(BranchSnapshot(b.version + 1, Unpublished, b.profile))
  }

  /** When each change is made, and what it leaves: an edit the profile, publishing and
      unpublishing the status, and nothing else. */
  lemma ChangeMeans(b: BranchSnapshot, c: Change)
    ensures var r := Changed(b, c);
            && (r.Ok? ==> r.value.version == b.version + 1)
            && (c.Edit? ==>
                  && (r.Ok? <==> c.profile.Some? && c.policy.Some?)
                  && (r.Ok? ==> r.value.status == b.status && r.value.profile == c.profile.value)
                  && (r == Err(InvalidProfile) <==> c.profile.None?))
            && (c.Publish? ==>
                  && (r.Ok? <==>
                        && c.businessActive && b.status != Published
                        && c.readiness.openingHours && c.readiness.offeredService && c.readiness.bookableBarber)
                  && (r.Ok? ==> r.value.status == Published && r.value.profile == b.profile)
                  && (r == Err(BusinessNotActive) <==> !c.businessActive)
                  && (r == Err(InvalidTransition) <==> c.businessActive && b.status == Published))
            && (c.Unpublish? ==>
                  && (r.Ok? <==> b.status == Published)
                  && (r.Ok? ==> r.value.status == Unpublished && r.value.profile == b.profile)
                  && (r.Err? ==> r.error == InvalidTransition))
  {
  }

  class Branch {
    var profile: int
    var policy: int
    var status: BranchStatus
    var version: nat
    var updatedAt: int
    var events: seq<BranchSnapshot>

    function Snapshot(): BranchSnapshot
      reads this
    {
      BranchSnapshot(version, status, profile)
    }

    constructor (profile: int, policy: int, now: int)
      ensures Snapshot() == BranchSnapshot(1, Draft, profile) && events == []
      ensures this.policy == policy && updatedAt == DbTime(now)
    {
      this.profile, this.policy, status, version, updatedAt, events := profile, policy, Draft, 1, DbTime(now), [];
    }

    /** NewBranch: a draft, with the usual policy if none is given. It records no event. */
    static method New(profile: Option<int>, policy: Option<int>, now: int) returns (r: Result<Branch, BranchError>)
      ensures r.Err? <==> profile.None?
      ensures r.Err? ==> r.error == InvalidProfile
      ensures r.Ok? ==>
              && fresh(r.value) && r.value.Snapshot() == BranchSnapshot(1, Draft, profile.value) && r.value.events == []
              && r.value.policy == (if policy.Some? then policy.value else DEFAULT_POLICY)
    {
      if profile.None? {
        return Err(InvalidProfile);
      }
      var b := new Branch(profile.value, if policy.Some? then policy.value else DEFAULT_POLICY, now);
      return Ok(b);
    }

    method Touch(now: int)
      modifies this`version, this`updatedAt
      ensures version == old(version) + 1 && updatedAt == DbTime(now)
    {
      version := version + 1;
      updatedAt := DbTime(now);
    }

    /** A change is refused and nothing happens, or the new state is the event. */
    twostate predicate Did(c: Change, new err: Option<BranchError>)
      reads this
    {
      var r := Changed(old(Snapshot()), c);
      && err == (if r.Err? then Some(r.error) else None)
      && Snapshot() == (if r.Ok? then r.value else old(Snapshot()))
      && events == old(events) + (if r.Ok? then [r.value] else [])
    }

    method Edit(profile: Option<int>, policy: Option<int>, now: int) returns (err: Option<BranchError>)
      modifies this
      ensures Did(Change.Edit(profile, policy), err)
      ensures this.policy == (if err.None? then policy.value else old(this.policy))
      ensures updatedAt == (if err.None? then DbTime(now) else old(updatedAt))
    {
      if profile.None? {
        return Some(InvalidProfile);
      }
      if policy.None? {
        return Some(PolicyRequired);
      }
      this.profile, this.policy := profile.value, policy.value;
      Touch(now);
      events := events + [Snapshot()];
      return None;
    }

    method Publish(businessActive: bool, r: Readiness, now: int) returns (err: Option<BranchError>)
      modifies this
      ensures Did(Change.Publish(businessActive, r), err)
      ensures policy == old(policy) && updatedAt == (if err.None? then DbTime(now) else old(updatedAt))
    {
      if !businessActive {
        return Some(BusinessNotActive);
      }
      if status == Published {
        return Some(InvalidTransition);
      }
      var missing := [];
      if !r.openingHours {
        missing := missing + [OpeningHours];
      }
      if !r.offeredService {
        missing := missing + [AService];
      } else if !r.bookableBarber {
        missing := missing + [AScheduledBarber];
      }
      assert missing == r.Missing();
      if |missing| > 0 {
        return Some(NotReady(missing));
      }
      status := Published;
      Touch(now);
      events := events + [Snapshot()];
      return None;
    }

    method Unpublish(now: int) returns (err: Option<BranchError>)
      modifies this
      ensures Did(Change.Unpublish, err)
      ensures policy == old(policy) && updatedAt == (if err.None? then DbTime(now) else old(updatedAt))
    {
      if status != Published {
        return Some(InvalidTransition);
      }
      status := Unpublished;
      Touch(now);
      events := events + [Snapshot()];
      return None;
    }
  }

  /** Keep: unless the copy is of the same or a newer version. */
  function Keep(copy: Option<BranchSnapshot>, e: BranchSnapshot): Option<BranchSnapshot> {
    if copy.Some? && copy.value.version >= e.version then copy else Some(e)
  }

  /** A copy is replaced exactly by something newer; so an event handled again, or late,
      changes nothing. */
  lemma KeepMeans(copy: Option<BranchSnapshot>, e: BranchSnapshot)
    ensures Keep(copy, e) == Some(e) || Keep(copy, e) == copy
    ensures Keep(copy, e) != copy <==> copy.None? || copy.value.version < e.version
  {
  }

  function KeepAll(copy: Option<BranchSnapshot>, es: seq<BranchSnapshot>): Option<BranchSnapshot> {
    if es == [] then copy else Keep(KeepAll(copy, es[..|es| - 1]), es[|es| - 1])
  }

  function StateAfter(first: BranchSnapshot, cs: seq<Change>): BranchSnapshot {
    if cs == [] then first
    else
      var b := StateAfter(first, cs[..|cs| - 1]);
      var r := Changed(b, cs[|cs| - 1]);
      if r.Ok? then r.value else b
  }

  /** The events of a branch's life so far. */
  function EventsOf(first: BranchSnapshot, cs: seq<Change>): seq<BranchSnapshot> {
    if cs == [] then []
    else
      var r := Changed(StateAfter(first, cs[..|cs| - 1]), cs[|cs| - 1]);
      EventsOf(first, cs[..|cs| - 1]) + if r.Ok? then [r.value] else []
  }

  /** One event per version, the newest of them the branch as it is. */
  lemma {:induction false} NewestIsCurrent(first: BranchSnapshot, cs: seq<Change>)
    ensures var es, b := EventsOf(first, cs), StateAfter(first, cs);
            && b.version == first.version + |es|
            && (forall i :: 0 <= i < |es| ==> es[i].version == first.version + i + 1)
            && b == if es == [] then first else es[|es| - 1]
    decreases |cs|
  {
    if cs != [] { NewestIsCurrent(first, cs[..|cs| - 1]); }
  }

  /** Whatever the order and however often, the copy is the newest of what arrived. */
  lemma {:induction false} CopyIsNewest(es: seq<BranchSnapshot>)
    ensures var copy := KeepAll(None, es);
            && (copy.None? <==> es == [])
            && (copy.Some? ==> copy.value in es && forall e :: e in es ==> e.version <= copy.value.version)
    decreases |es|
  {
    if es != [] {
      CopyIsNewest(es[..|es| - 1]);
      assert es == es[..|es| - 1] + [es[|es| - 1]];
    }
  }

  /** Deliveries that contain each of the branch's events at least once, in any order
      and with repeats, leave the copy equal to the branch. */
  lemma CopyConverges(first: BranchSnapshot, cs: seq<Change>, delivered: seq<BranchSnapshot>)
    requires forall e :: e in EventsOf(first, cs) <==> e in delivered
    ensures KeepAll(None, delivered) == if EventsOf(first, cs) == [] then None else Some(StateAfter(first, cs))
  {
    var es := EventsOf(first, cs);
    NewestIsCurrent(first, cs);
    CopyIsNewest(delivered);
    assert forall i :: 0 <= i < |delivered| ==> delivered[i] in delivered;
    if es != [] {
      assert es[|es| - 1] in delivered;
      var copy := KeepAll(None, delivered);
      assert copy.value in es;
      var i :| 0 <= i < |es| && es[i] == copy.value;
    }
  }

  /** The whole path of a branch's events to one listener's copy: the branch and its
      queued events change in one transaction, fan-out and handling may be repeated
      or fail, queues have no order, and jobs and deliveries may be given up. `missed`
      are the events that went by without reaching the copy. */
  datatype System = System(
    branch: BranchSnapshot, log: seq<BranchSnapshot>, jobs: multiset<EventJob<BranchSnapshot>>,
    deliveries: multiset<Delivery<BranchSnapshot>>, copy: Option<BranchSnapshot>, missed: set<BranchSnapshot>)

  datatype Move =
    | Commit(change: Change, id: int, kind: string, known: seq<string>)
    | FanOut(job: EventJob<BranchSnapshot>, mine: seq<string>, commits: bool)
    | Discard(job: EventJob<BranchSnapshot>)
    | Handle(delivery: Delivery<BranchSnapshot>, applied: bool, completed: bool)

  /** The copy is of this event, or of a newer one. */
  predicate UpTo(s: System, e: BranchSnapshot) { s.copy.Some? && s.copy.value.version >= e.version }

  function Spread(s: System, job: EventJob<BranchSnapshot>, mine: seq<string>): System {
    s.(jobs := s.jobs - multiset{job}, deliveries := s.deliveries + multiset(DeliveriesOf(job, mine)))
  }

  function Dropped(s: System, job: EventJob<BranchSnapshot>): System { s.(jobs := s.jobs - multiset{job}) }

  function Completed(s: System, d: Delivery<BranchSnapshot>): System { s.(deliveries := s.deliveries - multiset{d}) }

  function GoneBy(s: System, e: BranchSnapshot): System { if UpTo(s, e) then s else s.(missed := s.missed + {e}) }

  function Applied(s: System, e: BranchSnapshot): System { s.(copy := Keep(s.copy, e), missed := s.missed - {e}) }

  function Next(s: System, listener: string, m: Move): System {
    match m
    case Commit(change, id, kind, known) =>
      var r := Changed(s.branch, change);
      if r.Err? then s
      else
        var job := EventJob(Event(id, kind, r.value), known);
        s.(branch := r.value, log := s.log + [r.value], jobs := s.jobs + multiset{job})
    case FanOut(job, mine, commits) =>
      if job !in s.jobs || !commits then s
      else
        var t := Spread(s, job, mine);
        if listener in job.subscribers || listener in mine then t else GoneBy(t, job.event.payload)
    case Discard(job) => if job !in s.jobs then s else GoneBy(Dropped(s, job), job.event.payload)
    case Handle(delivery, applied, completed) =>
      if delivery !in s.deliveries then s
      else
        var t := if completed then Completed(s, delivery) else s;
        if delivery.handler != listener then t
        else if applied then Applied(t, delivery.event.payload)
        else if completed then GoneBy(t, delivery.event.payload)
        else t
  }

  /** Every event is still queued, on its way to the listener, in the copy (or
      something newer is), or was missed. */
  ghost predicate Accounted(s: System, listener: string, e: BranchSnapshot) {
    || (exists job :: job in s.jobs && job.event.payload == e)
    || (exists d :: d in s.deliveries && d.handler == listener && d.event.payload == e)
    || UpTo(s, e)
    || e in s.missed
  }

  ghost predicate AllAccounted(s: System, listener: string) { forall e :: e in s.log ==> Accounted(s, listener, e) }

  /** The branch is the newest event of its log, nothing but its events is under way,
      and the copy is no missed event. */
  ghost predicate Backed(s: System) {
    && (forall e :: e in s.log ==> e.version <= s.branch.version && (e.version == s.branch.version ==> e == s.branch))
    && (s.log != [] ==> s.branch in s.log)
    && (s.copy.Some? ==> s.copy.value in s.log && s.copy.value !in s.missed)
    && (forall job :: job in s.jobs ==> job.event.payload in s.log)
    && (forall d :: d in s.deliveries ==> d.event.payload in s.log)
  }

  ghost predicate Consistent(s: System, listener: string) { AllAccounted(s, listener) && Backed(s) }

  lemma SpreadAccounts(s: System, listener: string, job: EventJob<BranchSnapshot>, mine: seq<string>, e: BranchSnapshot)
    requires Accounted(s, listener, e)
    ensures Accounted(Spread(s, job, mine), listener, e)
            || (e == job.event.payload && listener !in job.subscribers && listener !in mine)
  {
    var s' := Spread(s, job, mine);
    if j :| j in s.jobs && j.event.payload == e {
      DeliveredOnceToEach(job, mine, listener);
      assert j != job ==> j in s'.jobs;
      if listener in job.subscribers || listener in mine { assert Delivery(listener, job.event) in s'.deliveries; }
    }
    if d :| d in s.deliveries && d.handler == listener && d.event.payload == e { assert d in s'.deliveries; }
  }

  lemma CompletedAccounts(s: System, listener: string, d: Delivery<BranchSnapshot>, e: BranchSnapshot)
    requires Accounted(s, listener, e)
    ensures Accounted(Completed(s, d), listener, e) || (e == d.event.payload && d.handler == listener)
  {
    if c :| c in s.deliveries && c.handler == listener && c.event.payload == e && c != d {
      assert c in Completed(s, d).deliveries;
    }
  }

  lemma SettledAccounts(s: System, listener: string, e: BranchSnapshot, x: BranchSnapshot)
    requires Accounted(s, listener, x) || x == e
    ensures Accounted(GoneBy(s, e), listener, x) && Accounted(Applied(s, e), listener, x)
  {
  }

  lemma FanOutAccounts(s: System, listener: string, m: Move, e: BranchSnapshot)
    requires m.FanOut? && Accounted(s, listener, e)
    ensures Accounted(Next(s, listener, m), listener, e)
  {
    var t := Spread(s, m.job, m.mine);
    SpreadAccounts(s, listener, m.job, m.mine, e);
    if Accounted(t, listener, e) || e == m.job.event.payload { SettledAccounts(t, listener, m.job.event.payload, e); }
  }

  lemma HandleAccounts(s: System, listener: string, m: Move, e: BranchSnapshot)
    requires m.Handle? && Accounted(s, listener, e)
    ensures Accounted(Next(s, listener, m), listener, e)
  {
    CompletedAccounts(s, listener, m.delivery, e);
    var x := m.delivery.event.payload;
    SettledAccounts(s, listener, x, e);
    if Accounted(Completed(s, m.delivery), listener, e) || e == x {
      SettledAccounts(Completed(s, m.delivery), listener, x, e);
    }
  }

  lemma DiscardAccounts(s: System, listener: string, m: Move, e: BranchSnapshot)
    requires m.Discard? && Accounted(s, listener, e)
    ensures Accounted(Next(s, listener, m), listener, e)
  {
    var t := Dropped(s, m.job);
    if j :| j in s.jobs && j.event.payload == e { assert j != m.job ==> j in t.jobs; }
    if Accounted(t, listener, e) || e == m.job.event.payload { SettledAccounts(t, listener, m.job.event.payload, e); }
  }

  lemma CommitAccounts(s: System, listener: string, m: Move, e: BranchSnapshot)
    requires m.Commit? && Changed(s.branch, m.change).Ok?
    requires e == Changed(s.branch, m.change).value || Accounted(s, listener, e)
    ensures Accounted(Next(s, listener, m), listener, e)
  {
  }

  lemma CommitBacked(s: System, listener: string, m: Move)
    requires Backed(s) && m.Commit?
    ensures Backed(Next(s, listener, m))
  {
  }

  lemma SettledBacked(s: System, e: BranchSnapshot)
    requires Backed(s) && e in s.log
    ensures Backed(GoneBy(s, e)) && Backed(Applied(s, e))
  {
  }

  lemma SpreadBacked(s: System, job: EventJob<BranchSnapshot>, mine: seq<string>)
    requires Backed(s) && job in s.jobs
    ensures Backed(Spread(s, job, mine))
  {
    var s' := Spread(s, job, mine);
    forall d | d in s'.deliveries ensures d.event.payload in s.log {
      if d !in s.deliveries { assert d in DeliveriesOf(job, mine); }
    }
  }

  lemma CompletedBacked(s: System, d: Delivery<BranchSnapshot>)
    requires Backed(s)
    ensures Backed(Completed(s, d))
  {
  }

  lemma FanOutBacked(s: System, listener: string, m: Move)
    requires Backed(s) && m.FanOut?
    ensures Backed(Next(s, listener, m))
  {
    if m.job in s.jobs {
      SpreadBacked(s, m.job, m.mine);
      SettledBacked(Spread(s, m.job, m.mine), m.job.event.payload);
    }
  }

  lemma DiscardBacked(s: System, listener: string, m: Move)
    requires Backed(s) && m.Discard?
    ensures Backed(Next(s, listener, m))
  {
    if m.job in s.jobs {
      assert Backed(Dropped(s, m.job));
      SettledBacked(Dropped(s, m.job), m.job.event.payload);
    }
  }

  lemma HandleBacked(s: System, listener: string, m: Move)
    requires Backed(s) && m.Handle?
    ensures Backed(Next(s, listener, m))
  {
    if m.delivery in s.deliveries {
      CompletedBacked(s, m.delivery);
      SettledBacked(s, m.delivery.event.payload);
      SettledBacked(Completed(s, m.delivery), m.delivery.event.payload);
    }
  }

  lemma MoveAccounts(s: System, listener: string, m: Move)
    requires AllAccounted(s, listener)
    ensures AllAccounted(Next(s, listener, m), listener)
  {
    var s' := Next(s, listener, m);
    forall e | e in s'.log ensures Accounted(s', listener, e) {
      match m
      case Commit(_, _, _, _) => if Changed(s.branch, m.change).Ok? { CommitAccounts(s, listener, m, e); }
      case FanOut(_, _, _) => FanOutAccounts(s, listener, m, e);
      case Discard(_) => DiscardAccounts(s, listener, m, e);
      case Handle(_, _, _) => HandleAccounts(s, listener, m, e);
    }
  }

  lemma MoveKeeps(s: System, listener: string, m: Move)
    requires Consistent(s, listener)
    ensures Consistent(Next(s, listener, m), listener)
  {
    MoveAccounts(s, listener, m);
    match m
    case Commit(_, _, _, _) => CommitBacked(s, listener, m);
    case FanOut(_, _, _) => FanOutBacked(s, listener, m);
    case Discard(_) => DiscardBacked(s, listener, m);
    case Handle(_, _, _) => HandleBacked(s, listener, m);
  }

  function RunMoves(s: System, listener: string, ms: seq<Move>): System
    decreases |ms|
  {
    if ms == [] then s else RunMoves(Next(s, listener, ms[0]), listener, ms[1..])
  }

  lemma {:induction false} RunKeeps(s: System, listener: string, ms: seq<Move>)
    requires Consistent(s, listener)
    ensures Consistent(RunMoves(s, listener, ms), listener)
    decreases |ms|
  {
    if ms != [] {
      MoveKeeps(s, listener, ms[0]);
      RunKeeps(Next(s, listener, ms[0]), listener, ms[1..]);
    }
  }

  function NewSystem(first: BranchSnapshot): System { System(first, [], multiset{}, multiset{}, None, {}) }

  /** Nothing is queued, nor on its way to the listener. */
  ghost predicate Quiet(s: System, listener: string) {
    s.jobs == multiset{} && forall d :: d in s.deliveries ==> d.handler != listener
  }

  /** Over every run of moves: once all is quiet, the copy is the branch exactly as it
      is, if and only if the branch's last event was not missed. */
  lemma QuietMeansCurrent(first: BranchSnapshot, listener: string, ms: seq<Move>)
    ensures var s := RunMoves(NewSystem(first), listener, ms);
            Quiet(s, listener) && s.log != [] ==> (s.copy == Some(s.branch) <==> s.branch !in s.missed)
  {
    RunKeeps(NewSystem(first), listener, ms);
    var s := RunMoves(NewSystem(first), listener, ms);
    if s.log != [] { assert Accounted(s, listener, s.branch); }
  }

  /** The move hands the event to the listener, which keeps it. */
  predicate Hands(s: System, listener: string, m: Move, e: BranchSnapshot) {
    && m.Handle? && m.delivery in s.deliveries && m.delivery.handler == listener
    && m.applied && m.delivery.event.payload == e
  }

  /** The move ends a job or delivery of the event without handing it over. */
  predicate GivesUp(s: System, listener: string, m: Move, e: BranchSnapshot) {
    || (m.Discard? && m.job in s.jobs && m.job.event.payload == e)
    || (m.FanOut? && m.commits && m.job in s.jobs && m.job.event.payload == e
        && listener !in m.job.subscribers && listener !in m.mine)
    || (m.Handle? && m.delivery in s.deliveries && m.delivery.handler == listener
        && m.completed && !m.applied && m.delivery.event.payload == e)
  }

  predicate HandedOver(s: System, listener: string, ms: seq<Move>, e: BranchSnapshot)
    decreases |ms|
  {
    ms != [] && (Hands(s, listener, ms[0], e) || HandedOver(Next(s, listener, ms[0]), listener, ms[1..], e))
  }

  predicate GivenUp(s: System, listener: string, ms: seq<Move>, e: BranchSnapshot)
    decreases |ms|
  {
    ms != [] && (GivesUp(s, listener, ms[0], e) || GivenUp(Next(s, listener, ms[0]), listener, ms[1..], e))
  }

  /** What becomes of the copy and the missed events depends on them alone. */
  lemma SettledTells(s: System, x: BranchSnapshot, e: BranchSnapshot)
    ensures var (g, t) := (GoneBy(s, x), Applied(s, x));
            && g.copy == s.copy && (e in g.missed ==> e in s.missed || e == x)
            && (e == x || UpTo(s, e) ==> UpTo(t, e)) && (t.copy == Some(e) ==> s.copy == Some(e) || e == x)
            && (e in t.missed ==> e in s.missed)
  {
  }

  /** What the move did to the copy and the missed events. */
  ghost predicate Tells(s: System, listener: string, m: Move, e: BranchSnapshot, t: System) {
    && (Hands(s, listener, m, e) || UpTo(s, e) ==> UpTo(t, e))
    && (t.copy == Some(e) ==> s.copy == Some(e) || Hands(s, listener, m, e))
    && (e in t.missed ==> e in s.missed || GivesUp(s, listener, m, e))
  }

  lemma FanOutTells(s: System, listener: string, m: Move, e: BranchSnapshot)
    requires m.FanOut?
    ensures Tells(s, listener, m, e, Next(s, listener, m))
  {
    SettledTells(Spread(s, m.job, m.mine), m.job.event.payload, e);
  }

  lemma DiscardTells(s: System, listener: string, m: Move, e: BranchSnapshot)
    requires m.Discard?
    ensures Tells(s, listener, m, e, Next(s, listener, m))
  {
    SettledTells(Dropped(s, m.job), m.job.event.payload, e);
  }

  lemma HandleTells(s: System, listener: string, m: Move, e: BranchSnapshot)
    requires m.Handle?
    ensures Tells(s, listener, m, e, Next(s, listener, m))
  {
    if m.delivery in s.deliveries && m.delivery.handler == listener {
      var t := if m.completed then Completed(s, m.delivery) else s;
      SettledTells(t, m.delivery.event.payload, e);
    }
  }

  lemma MoveTells(s: System, listener: string, m: Move, e: BranchSnapshot)
    ensures Tells(s, listener, m, e, Next(s, listener, m))
  {
    match m
    case Commit(_, _, _, _) =>
    case FanOut(_, _, _) => FanOutTells(s, listener, m, e);
    case Discard(_) => DiscardTells(s, listener, m, e);
    case Handle(_, _, _) => HandleTells(s, listener, m, e);
  }

  /** What a run handed over is in the copy, or something newer is; what is in the copy
      or missed got there by a move. */
  lemma {:induction false} RunTells(s: System, listener: string, ms: seq<Move>, e: BranchSnapshot)
    ensures var t := RunMoves(s, listener, ms);
            && (HandedOver(s, listener, ms, e) || UpTo(s, e) ==> UpTo(t, e))
            && (t.copy == Some(e) ==> s.copy == Some(e) || HandedOver(s, listener, ms, e))
            && (e in t.missed ==> e in s.missed || GivenUp(s, listener, ms, e))
    decreases |ms|
  {
    if ms != [] {
      MoveTells(s, listener, ms[0], e);
      RunTells(Next(s, listener, ms[0]), listener, ms[1..], e);
    }
  }

  /** In every run the copy is the branch exactly as it is if and only if some move
      handed over the branch's last event; and once all is quiet, if none did, some move
      gave that event up. */
  lemma CurrentIsHandedOver(first: BranchSnapshot, listener: string, ms: seq<Move>)
    ensures var s := RunMoves(NewSystem(first), listener, ms);
            && (s.copy == Some(s.branch) <==> HandedOver(NewSystem(first), listener, ms, s.branch))
            && (Quiet(s, listener) && s.log != [] ==>
                  s.copy == Some(s.branch) || GivenUp(NewSystem(first), listener, ms, s.branch))
  {
    var s := RunMoves(NewSystem(first), listener, ms);
    RunTells(NewSystem(first), listener, ms, s.branch);
    RunKeeps(NewSystem(first), listener, ms);
    QuietMeansCurrent(first, listener, ms);
  }

  /** The listener is subscribed where the event is published or where it is fanned
      out, and jobs and its deliveries only ever end by being worked off. */
  predicate Fair(listener: string, m: Move) {
    && !m.Discard?
    && (m.FanOut? ==> listener in m.job.subscribers || listener in m.mine)
    && (m.Handle? && m.delivery.handler == listener && m.completed ==> m.applied)
  }

  /** Then no event is ever missed. */
  lemma {:induction false} FairMissesNothing(s: System, listener: string, ms: seq<Move>)
    requires s.missed == {} && forall i :: 0 <= i < |ms| ==> Fair(listener, ms[i])
    ensures RunMoves(s, listener, ms).missed == {}
    decreases |ms|
  {
    if ms != [] { FairMissesNothing(Next(s, listener, ms[0]), listener, ms[1..]); }
  }
}
