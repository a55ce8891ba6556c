/** Whole lives of an appointment: what every run keeps, and that the moment the
    expiry job runs cannot be told from the results of anything else. */
module Lifecycle {
  import opened Wrappers
  import opened Intervals
  import opened Calendar
  import opened Appointments

  datatype Step = Step(action: Action, at: int)

  function After(s: Snapshot, steps: seq<Step>): Snapshot
    decreases |steps|
  {
    if steps == [] then s else After(Act(s, steps[0].action, steps[0].at).0, steps[1..])
  }

  function Log(s: Snapshot, steps: seq<Step>): seq<Event>
    decreases |steps|
  {
    if steps == [] then []
    else
      var next := Act(s, steps[0].action, steps[0].at).0;
      EventsOf(s, next) + Log(next, steps[1..])
  }

  /** The lines of the lifecycle diagram. */
  predicate Edge(from: Status, to: Status) {
    match from
    case Pending => to == Confirmed || to == Rejected || to == Cancelled || to == Expired
    case Confirmed => to == Cancelled || to == Completed || to == NoShow
    case _ => false
  }

  /** One action keeps what is sound, moves along the diagram or not at all, and
      never touches the facts. */
  lemma ActIsSound(s: Snapshot, action: Action, now: int)
    requires s.Sound()
    ensures var (t, r) := Act(s, action, now);
            && t.Sound() && t.facts == s.facts
            && (r != Done ==> t == s)
            && (r == Done ==> Edge(s.status, t.status) && t.version == s.version + 1)
  {
  }

  /** Still waiting for the shop's answer. */
  predicate Waiting(s: Snapshot, now: int) {
    s.status == Pending && (s.pendingUntil.Some? ==> now < s.pendingUntil.value)
  }

  /** Waiting, or confirmed. */
  predicate Open(s: Snapshot, now: int) { Waiting(s, now) || s.status == Confirmed }

  /** What anyone reads: a pending booking that no longer waits has expired. */
  predicate ReadsAs(s: Snapshot, now: int, status: Status) {
    if s.status == Pending && !Waiting(s, now) then status == Expired else status == s.status
  }

  /** What has to hold for an action to succeed. */
  predicate May(s: Snapshot, action: Action, now: int) {
    match action
    case Confirm => Waiting(s, now)
    case Reject => Waiting(s, now)
    case CancelByCustomer(reason) =>
      && |reason| <= MAX_REASON_LEN
      && ((Waiting(s, now) && now < s.facts.start) || (s.status == Confirmed && now < s.facts.cancellableUntil))
    case CancelByStaff(reason) => |reason| <= MAX_REASON_LEN && Open(s, now)
    case Expire => s.status == Pending && !Waiting(s, now)
    case Complete => s.status == Confirmed && s.facts.start <= now
    case MarkNoShow => s.status == Confirmed && s.facts.start <= now
  }

  /** Where it ends, and for a cancellation by whom and why. */
  function Ends(action: Action): Status {
    match action
    case Confirm => Confirmed
    case Reject => Rejected
    case CancelByCustomer(_) => Cancelled
    case CancelByStaff(_) => Cancelled
    case Expire => Expired
    case Complete => Completed
    case MarkNoShow => NoShow
  }

  predicate Records(action: Action, now: int, before: Option<Cancellation>, after: Option<Cancellation>) {
    match action
    case CancelByCustomer(reason) => after == Some(Cancellation(ByCustomer, reason, DbTime(now)))
    case CancelByStaff(reason) => after == Some(Cancellation(ByStaff, reason, DbTime(now)))
    case _ => after == before
  }

  /** The table of the lifecycle: when each action succeeds, and what it leaves. */
  lemma ActMeans(s: Snapshot, action: Action, now: int)
    ensures var (t, r) := Act(s, action, now);
            && (r == Done <==> May(s, action, now))
            && (r == Done ==>
                  && t.status == Ends(action) && Records(action, now, s.cancellation, t.cancellation)
                  && t.pendingUntil == None && t.version == s.version + 1 && t.updatedAt == DbTime(now)
                  && t.facts == s.facts)
            && (r != Done ==> t == s)
  {
  }

  /** Why an action fails, and that a refusal names the status as anyone reads it. */
  lemma RefusalMeans(s: Snapshot, action: Action, now: int)
    ensures var r := Act(s, action, now).1;
            && (r.Refused? ==> ReadsAs(s, now, r.status))
            && (action == Confirm || action == Reject ==> (r.Refused? <==> !Waiting(s, now)))
            && (action == Expire ==> (r.Refused? <==> s.status != Pending || Waiting(s, now)))
            && (action == Complete || action == MarkNoShow ==>
                  && (r.Refused? <==> s.status != Confirmed)
                  && (r == NotStarted <==> s.status == Confirmed && now < s.facts.start))
            && (action.CancelByCustomer? || action.CancelByStaff? ==> (r.Refused? <==> !Open(s, now)))
            && (action.CancelByCustomer? ==>
                  (r == TooLateToCancel <==>
                     || (Waiting(s, now) && s.facts.start <= now)
                     || (s.status == Confirmed && s.facts.cancellableUntil <= now)))
            && (action.CancelByStaff? ==> (r == ReasonTooLong <==> Open(s, now) && |action.reason| > MAX_REASON_LEN))
  {
  }

  /** A status is final exactly when nothing can ever be done any more. */
  lemma FinalMeans(s: Snapshot)
    requires s.Sound()
    ensures s.Final() <==> forall action, now :: Act(s, action, now).1 != Done
  {
    if s.status == Confirmed { assert Act(s, CancelByStaff(""), 0).1 == Done; }
    if s.status == Pending { assert Act(s, Expire, s.pendingUntil.value).1 == Done; }
  }

  /** Each line of the diagram is some action's. */
  lemma EdgesAreActions(s: Snapshot, to: Status)
    requires s.Sound() && Edge(s.status, to)
    ensures exists action, now :: Act(s, action, now).1 == Done && Act(s, action, now).0.status == to
  {
    var early := if s.status == Pending then s.pendingUntil.value - 1 else s.facts.start;
    var late := if s.status == Pending then s.pendingUntil.value else s.facts.start;
    match to
    case Confirmed => assert Act(s, Confirm, early).0.status == to;
    case Rejected => assert Act(s, Reject, early).0.status == to;
    case Cancelled => assert Act(s, CancelByStaff(""), early).0.status == to;
    case Expired => assert Act(s, Expire, late).0.status == to;
    case Completed => assert Act(s, Complete, late).0.status == to;
    case NoShow => assert Act(s, MarkNoShow, late).0.status == to;
  }

  /** The log from `last` on: each event starts where the one before left off,
      one version further along the diagram. */
  predicate Chained(last: Snapshot, log: seq<Event>)
    decreases |log|
  {
    log == [] || (
      && log[0].StatusChanged? && log[0].from == last.status && Edge(last.status, log[0].after.status)
      && log[0].after.version == last.version + 1 && log[0].after.facts == last.facts
      && Chained(log[0].after, log[1..]))
  }

  function EndOf(last: Snapshot, log: seq<Event>): Snapshot { if log == [] then last else log[|log| - 1].after }

  /** The story of any life: the log is an unbroken chain that ends in the current
      state, there is one event per version, and there are never more than three. */
  lemma {:induction false} LifeStory(s: Snapshot, steps: seq<Step>)
    requires s.Sound()
    ensures var t, log := After(s, steps), Log(s, steps);
            && t.Sound() && t.facts == s.facts
            && Chained(s, log) && EndOf(s, log) == t
            && t.version == s.version + |log| && t.version <= 3
    decreases |steps|
  {
    if steps != [] {
      var (next, r) := Act(s, steps[0].action, steps[0].at);
      ActIsSound(s, steps[0].action, steps[0].at);
      LifeStory(next, steps[1..]);
      var rest := Log(next, steps[1..]);
      if next.version != s.version {
        assert ([StatusChanged(s.status, next)] + rest)[1..] == rest;
      } else {
        assert [] + rest == rest;
      }
    }
  }

  /** A final status absorbs every action, at any time. */
  lemma {:induction false} FinalAbsorbs(s: Snapshot, steps: seq<Step>)
    requires s.Sound() && s.Final()
    ensures After(s, steps) == s && Log(s, steps) == []
    ensures forall action, now :: Act(s, action, now) == (s, Refused(s.status))
    decreases |steps|
  {
    if steps != [] { FinalAbsorbs(s, steps[1..]); }
  }

  /** The customer's last moment to cancel comes before the shop's first to finish. */
  lemma CancelOrFinish(s: Snapshot, reason: string, now: int)
    requires s.Sound()
    ensures !(Act(s, CancelByCustomer(reason), now).1 == Done && Act(s, Complete, now).1 == Done)
    ensures !(Act(s, CancelByCustomer(reason), now).1 == Done && Act(s, MarkNoShow, now).1 == Done)
  {
  }

  /** What the callers of everything but the expiry job are told. */
  function Results(s: Snapshot, steps: seq<Step>): seq<Outcome>
    decreases |steps|
  {
    if steps == [] then []
    else
      var (next, r) := Act(s, steps[0].action, steps[0].at);
      (if steps[0].action == Expire then [] else [r]) + Results(next, steps[1..])
  }

  /** The same run with the expiry job never running. */
  function WithoutJob(steps: seq<Step>): seq<Step> {
    if steps == [] then []
    else (if steps[0].action == Expire then [] else [steps[0]]) + WithoutJob(steps[1..])
  }

  /** No step is before `clock`, and none before the one before it. */
  predicate Forward(clock: int, steps: seq<Step>)
    decreases |steps|
  {
    steps == [] || (clock <= steps[0].at && Forward(steps[0].at, steps[1..]))
  }

  /** s with the job having run, t without: the same, or t is overdue and s has it
      in writing. */
  predicate Same(s: Snapshot, t: Snapshot, clock: int) {
    s == t || (s.status == Expired && t.status == Pending && t.pendingUntil.Some? && t.pendingUntil.value <= clock)
  }

  lemma SameStep(s: Snapshot, t: Snapshot, clock: int, action: Action, now: int)
    requires s.Sound() && t.Sound() && Same(s, t, clock) && clock <= now
    ensures action != Expire ==>
            Act(s, action, now).1 == Act(t, action, now).1 && Same(Act(s, action, now).0, Act(t, action, now).0, now)
    ensures action == Expire ==> Same(Act(s, action, now).0, t, now)
  {
  }

  /** Every step is over by then. */
  ghost predicate Over(steps: seq<Step>, now: int) { forall k :: 0 <= k < |steps| ==> steps[k].at <= now }

  lemma {:induction false} JobIsInvisibleFrom(s: Snapshot, t: Snapshot, clock: int, steps: seq<Step>)
    requires s.Sound() && t.Sound() && Same(s, t, clock) && Forward(clock, steps)
    ensures Results(s, steps) == Results(t, WithoutJob(steps))
    ensures forall now :: clock <= now && Over(steps, now) ==>
            After(s, steps).Current(now) == After(t, WithoutJob(steps)).Current(now)
    decreases |steps|
  {
    if steps != [] {
      var step, rest := steps[0], steps[1..];
      SameStep(s, t, clock, step.action, step.at);
      ActIsSound(s, step.action, step.at);
      ActIsSound(t, step.action, step.at);
      var s' := Act(s, step.action, step.at).0;
      if step.action == Expire {
        JobIsInvisibleFrom(s', t, step.at, rest);
        assert WithoutJob(steps) == WithoutJob(rest) && Results(s, steps) == Results(s', rest);
      } else {
        var t' := Act(t, step.action, step.at).0;
        JobIsInvisibleFrom(s', t', step.at, rest);
        assert ([step] + WithoutJob(rest))[1..] == WithoutJob(rest);
      }
      forall now | clock <= now && Over(steps, now) ensures step.at <= now && Over(rest, now) {
        assert forall k :: 0 <= k < |rest| ==> rest[k] == steps[k + 1];
      }
    }
  }

  /** Two runs that differ only in when the expiry job ran, whatever else is in
      them: every other action gets the same answer, and afterwards the status
      reads the same. */
  lemma ExpiryTimingUnobservable(s: Snapshot, clock: int, run: seq<Step>, other: seq<Step>)
    requires s.Sound() && Forward(clock, run) && Forward(clock, other)
    requires WithoutJob(run) == WithoutJob(other)
    ensures Results(s, run) == Results(s, other)
    ensures forall now :: clock <= now && Over(run, now) && Over(other, now) ==>
            After(s, run).Current(now) == After(s, other).Current(now)
  {
    JobIsInvisibleFrom(s, s, clock, run);
    JobIsInvisibleFrom(s, s, clock, other);
  }

  /** A clock that goes back would show it: expire at the deadline, then confirm at
      an instant before it. */
  lemma BackwardClockShowsTheJob(s: Snapshot, due: int)
    requires s.Sound() && s.status == Pending && s.pendingUntil == Some(due)
    ensures Results(s, [Step(Expire, due), Step(Confirm, due - 1)]) == [Refused(Expired)]
    ensures Results(s, [Step(Confirm, due - 1)]) == [Done]
  {
    var late := Moved(s, Expired, due);
    assert [Step(Expire, due), Step(Confirm, due - 1)][1..] == [Step(Confirm, due - 1)];
    assert Results(late, [Step(Confirm, due - 1)]) == [Refused(Expired)] + Results(late, []);
  }
}
