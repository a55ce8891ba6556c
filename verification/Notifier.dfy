/** Pushing a notice to each of a customer's devices, once, however often the event
    arrives and whatever fails in between. */
module Notifier {
  import opened Wrappers

  datatype SendResult = Accepted | DeviceGone | PushRejected | SendFailed

  datatype Outcome = Sent | Rejected

  /** What goes wrong for one device during one call. */
  datatype Faults = Faults(lookup: bool, message: bool, send: SendResult, forget: bool, record: bool)

  /** A push the sender was asked to make, and what it said. */
  datatype Push = Push(event: int, device: int, result: SendResult)

  /** The customer's registered devices, the deliveries recorded, and the pushes made. */
  datatype State = State(devices: set<int>, recorded: map<(int, int), Outcome>, pushes: seq<Push>)

  function PushedOnce(s: State, event: int, d: int, f: Faults): (State, bool) {
    if f.lookup then (s, false)
    else if (event, d) in s.recorded then (s, true)
    else if f.message then (s, false)
    else
      var t := s.(pushes := s.pushes + [Push(event, d, f.send)]);
      if f.send == DeviceGone then (if f.forget then t else t.(devices := t.devices - {d}), !f.forget)
      else if f.send == SendFailed then (t, false)
      else if f.record then (t, false)
      else (t.(recorded := t.recorded[(event, d) := if f.send == PushRejected then Rejected else Sent]), true)
  }

  /** All of the listed devices in turn; false if any of them failed. */
  function PushedAll(s: State, event: int, listed: seq<int>, faults: int -> Faults): (State, bool) {
    if listed == [] then (s, true)
    else
      var (t, ok) := PushedAll(s, event, listed[..|listed| - 1], faults);
      var (u, last) := PushedOnce(t, event, listed[|listed| - 1], faults(listed[|listed| - 1]));
      (u, ok && last)
  }

  class Handlers {
    var devices: set<int>
    var recorded: map<(int, int), Outcome>
    var pushes: seq<Push>

    ghost function View(): State
      reads this
    {
      State(devices, recorded, pushes)
    }

    constructor (s: State)
      ensures View() == s
    {
      devices, recorded, pushes := s.devices, s.recorded, s.pushes;
    }

    method PushOnce(event: int, d: int, f: Faults) returns (ok: bool)
      modifies this
      ensures (View(), ok) == PushedOnce(old(View()), event, d, f)
    {
      if f.lookup {
        return false;
      }
      if (event, d) in recorded {
        return true;
      }
      if f.message {
        return false;
      }
      pushes := pushes + [Push(event, d, f.send)];
      var outcome := Sent;
      match f.send {
        case DeviceGone =>
          if f.forget {
            return false;
          }
          devices := devices - {d};
          return true;
        case PushRejected => outcome := Rejected;
        case SendFailed => return false;
        case Accepted =>
      }
      if f.record {
        return false;
      }
      recorded := recorded[(event, d) := outcome];
      return true;
    }

    /** `due` is whether the customer should hear of it at all; listed is what the
        store answers for their devices, or nothing if it or the branch copy fails. */
    method Notify(event: int, due: bool, listed: Option<seq<int>>, faults: int -> Faults) returns (ok: bool)
      modifies this
      ensures !due ==> ok && View() == old(View())
      ensures due && listed.None? ==> !ok && View() == old(View())
      ensures due && listed.Some? ==> (View(), ok) == PushedAll(old(View()), event, listed.value, faults)
    {
      if !due {
        return true;
      }
      if listed.None? {
        return false;
      }
      ok := true;
      var ds := listed.value;
      for n := 0 to |ds|
        invariant (View(), ok) == PushedAll(old(View()), event, ds[..n], faults)
      {
        assert ds[..n + 1][..n] == ds[..n];
        var one := PushOnce(event, ds[n], faults(ds[n]));
        ok := ok && one;
      }
      assert ds[..|ds|] == ds;
    }
  }

  /** The push service is asked: not a device the event has reached, and nothing failed. */
  predicate Asked(s: State, event: int, d: int, f: Faults) { !f.lookup && !f.message && (event, d) !in s.recorded }

  /** One device: whether it is pushed to, when it is forgotten, what is put on record,
      and when the call has done its part. */
  lemma PushMeans(s: State, event: int, d: int, f: Faults)
    ensures var (t, ok) := PushedOnce(s, event, d, f);
            && t.pushes == s.pushes + (if Asked(s, event, d, f) then [Push(event, d, f.send)] else [])
            && t.devices == s.devices - (if Asked(s, event, d, f) && f.send == DeviceGone && !f.forget then {d} else {})
            && (Asked(s, event, d, f) && f.send == Accepted && !f.record ==>
                  t.recorded == s.recorded[(event, d) := Sent])
            && (Asked(s, event, d, f) && f.send == PushRejected && !f.record ==>
                  t.recorded == s.recorded[(event, d) := Rejected])
            && (t.recorded != s.recorded ==> Asked(s, event, d, f) && !f.record && f.send in {Accepted, PushRejected})
            && (ok <==>
                  || (!f.lookup && (event, d) in s.recorded)
                  || (Asked(s, event, d, f) && f.send == DeviceGone && !f.forget)
                  || (Asked(s, event, d, f) && f.send in {Accepted, PushRejected} && !f.record))
  {
  }

  /** A push of the event to the device, among those after the first n, with the result. */
  ghost predicate PushedWith(t: State, n: nat, event: int, d: int, result: SendResult) {
    exists i :: n <= i < |t.pushes| && t.pushes[i] == Push(event, d, result)
  }

  /** Whoever is forgotten was reported gone, and what is on record is what the push
      service said. */
  ghost predicate Witnessed(s: State, t: State, event: int) {
    && (forall d :: d in s.devices && d !in t.devices ==> PushedWith(t, |s.pushes|, event, d, DeviceGone))
    && (forall k :: k in t.recorded && k !in s.recorded ==>
          k.0 == event
          && PushedWith(t, |s.pushes|, event, k.1, if t.recorded[k] == Sent then Accepted else PushRejected))
  }

  lemma {:induction false} NotifyWitnessed(s: State, event: int, listed: seq<int>, faults: int -> Faults)
    ensures Witnessed(s, PushedAll(s, event, listed, faults).0, event)
    decreases |listed|
  {
    if listed != [] {
      var front, d := listed[..|listed| - 1], listed[|listed| - 1];
      NotifyWitnessed(s, event, front, faults);
      NotifyAll(s, event, front, faults);
      OneMoreWitnessed(s, PushedAll(s, event, front, faults).0, event, d, faults(d));
    }
  }

  lemma StillPushed(t: State, u: State, n: nat, event: int, d: int, result: SendResult)
    requires t.pushes <= u.pushes && PushedWith(t, n, event, d, result)
    ensures PushedWith(u, n, event, d, result)
  {
    var i :| n <= i < |t.pushes| && t.pushes[i] == Push(event, d, result);
    assert u.pushes[i] == t.pushes[i];
  }

  lemma OneMoreWitnessed(s: State, t: State, event: int, d: int, f: Faults)
    requires Witnessed(s, t, event) && |s.pushes| <= |t.pushes|
    ensures Witnessed(s, PushedOnce(t, event, d, f).0, event)
  {
    var u := PushedOnce(t, event, d, f).0;
    PushMeans(t, event, d, f);
    if Asked(t, event, d, f) {
      assert u.pushes[|t.pushes|] == Push(event, d, f.send);
      assert PushedWith(u, |s.pushes|, event, d, f.send);
    }
    forall x | x in s.devices && x !in u.devices ensures PushedWith(u, |s.pushes|, event, x, DeviceGone) {
      if x !in t.devices { StillPushed(t, u, |s.pushes|, event, x, DeviceGone); }
    }
    forall k | k in u.recorded && k !in s.recorded
      ensures k.0 == event
              && PushedWith(u, |s.pushes|, event, k.1, if u.recorded[k] == Sent then Accepted else PushRejected)
    {
      if k in t.recorded {
        StillPushed(t, u, |s.pushes|, event, k.1, if t.recorded[k] == Sent then Accepted else PushRejected);
      }
    }
  }

  /** What a call leaves alone, and whom it may push to. */
  ghost predicate Extends(s: State, t: State, event: int) {
    && t.devices <= s.devices
    && (forall k :: k in s.recorded ==> k in t.recorded && t.recorded[k] == s.recorded[k])
    && (forall k :: k in t.recorded && k !in s.recorded ==> k.0 == event)
    && s.pushes <= t.pushes
    && (forall i :: |s.pushes| <= i < |t.pushes| ==>
          t.pushes[i].event == event && (event, t.pushes[i].device) !in s.recorded)
  }

  /** One failing device never stops the others: every listed device not yet served is
      either tried or failed before the push. */
  ghost predicate Tried(s: State, t: State, event: int, d: int, f: Faults) {
    || f.lookup || f.message || (event, d) in t.recorded
    || exists i :: |s.pushes| <= i < |t.pushes| && t.pushes[i].device == d
  }

  /** Recorded, sent or rejected, or forgotten. */
  predicate Settled(t: State, event: int, d: int) { (event, d) in t.recorded || d !in t.devices }

  lemma OneMoreDevice(s: State, t: State, event: int, d: int, f: Faults)
    requires Extends(s, t, event)
    ensures var (u, ok) := PushedOnce(t, event, d, f);
            Extends(s, u, event) && Tried(s, u, event, d, f) && (ok ==> Settled(u, event, d))
  {
    var u := PushedOnce(t, event, d, f).0;
    if u.pushes != t.pushes { assert u.pushes[|t.pushes|].device == d; }
  }

  lemma OthersStand(s: State, t: State, event: int, d: int, f: Faults, x: int, g: Faults)
    ensures var u := PushedOnce(t, event, d, f).0;
            && (Tried(s, t, event, x, g) ==> Tried(s, u, event, x, g))
            && (Settled(t, event, x) ==> Settled(u, event, x))
  {
    var u := PushedOnce(t, event, d, f).0;
    if i :| |s.pushes| <= i < |t.pushes| && t.pushes[i].device == x { assert u.pushes[i] == t.pushes[i]; }
  }

  lemma {:induction false} NotifyAll(s: State, event: int, listed: seq<int>, faults: int -> Faults)
    ensures var (t, ok) := PushedAll(s, event, listed, faults);
            && Extends(s, t, event)
            && (forall d :: d in listed ==> Tried(s, t, event, d, faults(d)))
            && (ok ==> forall d :: d in listed ==> Settled(t, event, d))
    decreases |listed|
  {
    if listed != [] {
      var front, d := listed[..|listed| - 1], listed[|listed| - 1];
      NotifyAll(s, event, front, faults);
      var t := PushedAll(s, event, front, faults).0;
      OneMoreDevice(s, t, event, d, faults(d));
      forall x { OthersStand(s, t, event, d, faults(d), x, faults(x)); }
      assert listed == front + [d];
    }
  }

  /** Replaying a notified event to devices that were all listed before pushes nothing
      and changes nothing, whatever the faults this time. */
  lemma {:induction false} ReplayIsSilent(t: State, event: int, again: seq<int>, faults: int -> Faults)
    requires forall d :: d in again ==> (event, d) in t.recorded
    ensures PushedAll(t, event, again, faults).0 == t
    ensures (forall d :: d in again ==> !faults(d).lookup) ==> PushedAll(t, event, again, faults).1
    decreases |again|
  {
    if again != [] {
      assert again[|again| - 1] in again;
      ReplayIsSilent(t, event, again[..|again| - 1], faults);
    }
  }

  lemma NotifyThenReplay(s: State, event: int, listed: seq<int>, faults: int -> Faults, again: seq<int>,
      faults': int -> Faults)
    requires PushedAll(s, event, listed, faults).1
    requires forall d :: d in again ==> d in listed && d in PushedAll(s, event, listed, faults).0.devices
    ensures var t := PushedAll(s, event, listed, faults).0; PushedAll(t, event, again, faults').0 == t
  {
    NotifyAll(s, event, listed, faults);
    ReplayIsSilent(PushedAll(s, event, listed, faults).0, event, again, faults');
  }

  datatype Call = Call(event: int, listed: seq<int>, faults: int -> Faults)

  function Run(s: State, calls: seq<Call>): State
    decreases |calls|
  {
    if calls == [] then s else Run(PushedAll(s, calls[0].event, calls[0].listed, calls[0].faults).0, calls[1..])
  }

  /** Over any run of calls, in any order and with any faults, a device recorded for an
      event is never pushed that event again. */
  lemma {:induction false} RecordedIsNeverPushed(s: State, calls: seq<Call>, event: int, d: int)
    requires (event, d) in s.recorded
    ensures s.pushes <= Run(s, calls).pushes
    ensures forall i :: |s.pushes| <= i < |Run(s, calls).pushes| ==>
              Run(s, calls).pushes[i].event != event || Run(s, calls).pushes[i].device != d
    decreases |calls|
  {
    if calls != [] {
      var c := calls[0];
      NotifyAll(s, c.event, c.listed, c.faults);
      RecordedIsNeverPushed(PushedAll(s, c.event, c.listed, c.faults).0, calls[1..], event, d);
    }
  }

  /** The push service took it: accepted, or refused for good. */
  predicate TookIt(p: Push) { p.result == Accepted || p.result == PushRejected }

  /** Everything the service took is on record, and nothing was taken twice. */
  ghost predicate OnRecord(s: State) {
    && (forall i :: 0 <= i < |s.pushes| && TookIt(s.pushes[i]) ==>
         (s.pushes[i].event, s.pushes[i].device) in s.recorded)
    && (forall i, j :: 0 <= i < j < |s.pushes| && TookIt(s.pushes[i]) ==>
          s.pushes[j].event != s.pushes[i].event || s.pushes[j].device != s.pushes[i].device)
  }

  lemma {:induction false} StaysOnRecord(s: State, event: int, listed: seq<int>, faults: int -> Faults)
    requires OnRecord(s) && forall d :: d in listed ==> !faults(d).record
    ensures OnRecord(PushedAll(s, event, listed, faults).0)
    decreases |listed|
  {
    if listed != [] {
      assert listed[|listed| - 1] in listed;
      StaysOnRecord(s, event, listed[..|listed| - 1], faults);
    }
  }

  /** As long as recording works, no run pushes an event to a device again after the
      push service took it. */
  lemma {:induction false} PushedAtMostOnce(s: State, calls: seq<Call>)
    requires OnRecord(s)
    requires forall k, d :: 0 <= k < |calls| && d in calls[k].listed ==> !calls[k].faults(d).record
    ensures OnRecord(Run(s, calls))
    decreases |calls|
  {
    if calls != [] {
      var c := calls[0];
      StaysOnRecord(s, c.event, c.listed, c.faults);
      PushedAtMostOnce(PushedAll(s, c.event, c.listed, c.faults).0, calls[1..]);
    }
  }
}
