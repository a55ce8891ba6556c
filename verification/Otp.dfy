/** How many events a stretch of time can hold. */
module Counting {
  import opened Slices

  ghost predicate Sorted(ts: seq<int>) { forall i, j :: 0 <= i < j < |ts| ==> ts[i] <= ts[j] }

  function Between(lo: int, hi: int): int -> bool { (t: int) => lo <= t < hi }

  /** How many lie in [lo, hi). */
  function CountIn(ts: seq<int>, lo: int, hi: int): nat { CountIf(Between(lo, hi), ts) }

  /** Any n + 1 in a row take at least `width`. */
  ghost predicate Sparse(ts: seq<int>, n: nat, width: int) {
    forall i, j :: 0 <= i && i + n <= j < |ts| ==> ts[j] >= ts[i] + width
  }

  lemma {:induction false} CountAtMost(ts: seq<int>, lo: int, hi: int, from: nat)
    requires from <= |ts| && forall i :: 0 <= i < from ==> ts[i] < lo
    ensures CountIn(ts, lo, hi) <= |ts| - from
    decreases |ts|
  {
    if |ts| > from { CountAtMost(ts[..|ts| - 1], lo, hi, from); }
    else if ts != [] { CountAtMost(ts[..|ts| - 1], lo, hi, from - 1); }
  }

  /** Then no stretch of that width holds more than n. */
  lemma {:induction false} SparseCount(ts: seq<int>, n: nat, width: int, lo: int)
    requires Sorted(ts) && Sparse(ts, n, width)
    ensures CountIn(ts, lo, lo + width) <= n
    decreases |ts|
  {
    if ts != [] {
      var k := |ts| - 1;
      if ts[k] < lo + width && k >= n {
        assert forall i :: 0 <= i <= k - n ==> ts[i] < lo;
        CountAtMost(ts, lo, lo + width, k - n + 1);
      } else if ts[k] < lo + width {
        CountAtMost(ts, lo, lo + width, 0);
      } else {
        SparseCount(ts[..k], n, width, lo);
      }
    }
  }

  function Repeat(t: int, n: nat): (r: seq<int>)
    ensures |r| == n && forall i :: 0 <= i < n ==> r[i] == t
  {
    seq(n, _ => t)
  }

  lemma {:induction false} CountRepeated(t: int, n: nat, lo: int, hi: int)
    ensures CountIn(Repeat(t, n), lo, hi) == if lo <= t < hi then n else 0
    decreases n
  {
    if n > 0 {
      assert Repeat(t, n)[..n - 1] == Repeat(t, n - 1);
      CountRepeated(t, n - 1, lo, hi);
    }
  }
}

/** The guard that counts wrong codes per phone and locks it. */
module OtpGuard {
  import opened Wrappers
  import opened Slices
  import opened Counting

  datatype OtpPolicy = OtpPolicy(
    ttl: int, resendCooldown: int, maxFailures: int, failureWindow: int, lockout: int, maxPerHour: int)

  /** Go's zero time is instant 0. */
  datatype Guard = Guard(failures: nat, windowStart: int, lockedUntil: int) {
    predicate Locked(now: int) { now < lockedUntil }
  }

  const FRESH := Guard(0, 0, 0)

  /** A failed verification, as the guard records it. */
  function Failed(g: Guard, now: int, p: OtpPolicy): Guard {
    if g.Locked(now) then g
    else
      var over := now >= g.windowStart + p.failureWindow || (g.lockedUntil != 0 && now >= g.lockedUntil);
      var kept := if over then FRESH else g;
      var failures := kept.failures + 1;
      Guard(failures, if kept.failures == 0 then now else kept.windowStart,
            if failures >= p.maxFailures then now + p.lockout else kept.lockedUntil)
  }

  class OTPGuard {
    var failures: nat
    var windowStart: int
    var lockedUntil: int

    ghost function State(): Guard
      reads this
    {
      Guard(failures, windowStart, lockedUntil)
    }

    constructor Rehydrate(g: Guard)
      ensures State() == g
    {
      failures, windowStart, lockedUntil := g.failures, g.windowStart, g.lockedUntil;
    }

    /** Some(after): locked, try again after that long. */
    method Check(now: int) returns (retry: Option<int>)
      ensures retry == if State().Locked(now) then Some(lockedUntil - now) else None
    {
      if now < lockedUntil {
        return Some(lockedUntil - now);
      }
      return None;
    }

    method Reset()
      modifies this
      ensures State() == FRESH
    {
      failures, windowStart, lockedUntil := 0, 0, 0;
    }

    method Fail(now: int, p: OtpPolicy) returns (retry: Option<int>)
      modifies this
      ensures State() == Failed(old(State()), now, p)
      ensures retry == if State().Locked(now) then Some(lockedUntil - now) else None
    {
      retry := Check(now);
      if retry.Some? {
        return;
      }
      if now >= windowStart + p.failureWindow || (lockedUntil != 0 && now >= lockedUntil) {
        Reset();
      }
      if failures == 0 {
        windowStart := now;
      }
      failures := failures + 1;
      if failures >= p.maxFailures {
        lockedUntil := now + p.lockout;
      }
      retry := Check(now);
    }
  }

  /** The guard after failed attempts at these instants. */
  function After(g: Guard, p: OtpPolicy, ts: seq<int>): Guard
    decreases |ts|
  {
    if ts == [] then g else After(Failed(g, ts[0], p), p, ts[1..])
  }

  /** What a failed attempt adds to the counted ones. */
  function Adds(g: Guard, now: int): seq<int> { if g.Locked(now) then [] else [now] }

  /** The attempts that were counted: those made while not locked. */
  function Counted(g: Guard, p: OtpPolicy, ts: seq<int>): seq<int>
    decreases |ts|
  {
    if ts == [] then []
    else Adds(g, ts[0]) + Counted(Failed(g, ts[0], p), p, ts[1..])
  }

  /** The most failures a window's length can see. */
  function Bound(maxFailures: int): nat
    requires maxFailures >= 1
  {
    if maxFailures == 1 then 1 else 2 * maxFailures - 2
  }

  /** Where the current window starts among the counted failures. */
  function WindowAt(g: Guard, c: seq<int>): int { |c| - g.failures }

  /** The guard's fields against what was counted so far: the last `failures` of it
      are the current window, which starts at windowStart. */
  ghost predicate Tracks(g: Guard, p: OtpPolicy, c: seq<int>) {
    && g.failures <= |c| && g.failures <= p.maxFailures
    && (c != [] ==> g.failures > 0 && g.windowStart == c[WindowAt(g, c)] && c[|c| - 1] >= 0)
    && g.lockedUntil == (if c != [] && g.failures == p.maxFailures then c[|c| - 1] + p.lockout else 0)
  }

  /** The current window starts a full window length after everything counted before
      it but the last few. */
  ghost predicate Apart(g: Guard, p: OtpPolicy, c: seq<int>)
    requires g.failures <= |c|
  {
    forall i :: 0 <= i < WindowAt(g, c) < |c| && i + p.maxFailures - 1 <= WindowAt(g, c) ==>
      c[WindowAt(g, c)] >= c[i] + p.failureWindow
  }

  ghost predicate Inv(g: Guard, p: OtpPolicy, c: seq<int>)
    requires p.maxFailures >= 1
  {
    Sorted(c) && Tracks(g, p, c) && Apart(g, p, c) && Sparse(c, Bound(p.maxFailures), p.failureWindow)
  }

  predicate Usual(p: OtpPolicy) { p.maxFailures >= 1 && p.lockout >= p.failureWindow > 0 }

  lemma FailApart(g: Guard, p: OtpPolicy, c: seq<int>, now: int)
    requires Usual(p) && Sorted(c) && Tracks(g, p, c) && Apart(g, p, c) && !g.Locked(now)
             && (c != [] ==> c[|c| - 1] <= now)
    ensures Tracks(Failed(g, now, p), p, c + [now]) && Apart(Failed(g, now, p), p, c + [now])
  {
  }

  lemma FailSparse(g: Guard, p: OtpPolicy, c: seq<int>)
    requires Usual(p) && c != [] && Sorted(c) && Tracks(g, p, c) && Apart(g, p, c)
    requires Sparse(c[..|c| - 1], Bound(p.maxFailures), p.failureWindow)
    ensures Sparse(c, Bound(p.maxFailures), p.failureWindow)
  {
  }

  lemma FailKeeps(g: Guard, p: OtpPolicy, c: seq<int>, now: int)
    requires Usual(p) && Inv(g, p, c) && !g.Locked(now) && (c != [] ==> c[|c| - 1] <= now)
    ensures Inv(Failed(g, now, p), p, c + [now])
  {
    FailApart(g, p, c, now);
    assert (c + [now])[..|c + [now]| - 1] == c;
    assert Sorted(c + [now]) by {
      forall i | 0 <= i < |c| ensures c[i] <= now { assert c[i] <= c[|c| - 1]; }
    }
    FailSparse(Failed(g, now, p), p, c + [now]);
  }

  lemma AttemptKeeps(g: Guard, p: OtpPolicy, c: seq<int>, now: int)
    requires Usual(p) && Inv(g, p, c) && (c != [] ==> c[|c| - 1] <= now)
    ensures Inv(Failed(g, now, p), p, c + Adds(g, now))
  {
    if g.Locked(now) { assert c + [] == c; } else { FailKeeps(g, p, c, now); }
  }

  /** The attempts come in order, after those counted so far. */
  ghost predicate Follow(c: seq<int>, ts: seq<int>) {
    Sorted(ts) && (c != [] && ts != [] ==> c[|c| - 1] <= ts[0])
  }

  lemma FollowOn(g: Guard, c: seq<int>, ts: seq<int>)
    requires ts != [] && Follow(c, ts)
    ensures Follow(c + Adds(g, ts[0]), ts[1..])
  {
    assert forall i :: 0 <= i < |ts| - 1 ==> ts[1..][i] == ts[i + 1];
  }

  lemma {:induction false} InvRun(g: Guard, p: OtpPolicy, c: seq<int>, ts: seq<int>)
    requires Usual(p) && Inv(g, p, c) && Follow(c, ts)
    ensures Inv(After(g, p, ts), p, c + Counted(g, p, ts))
    decreases |ts|
  {
    if ts == [] {
      assert c + [] == c;
    } else {
      AttemptKeeps(g, p, c, ts[0]);
      FollowOn(g, c, ts);
      Regroup(c, Adds(g, ts[0]), Counted(Failed(g, ts[0], p), p, ts[1..]));
      InvRun(Failed(g, ts[0], p), p, c + Adds(g, ts[0]), ts[1..]);
    }
  }

  lemma CountedIsSparse(p: OtpPolicy, ts: seq<int>, c: seq<int>)
    requires Usual(p) && Sorted(ts) && c == Counted(FRESH, p, ts)
    ensures Sorted(c) && Sparse(c, Bound(p.maxFailures), p.failureWindow)
  {
    InvRun(FRESH, p, [], ts);
    assert [] + c == c;
  }

  /** In every run without a success, no stretch as long as the failure window sees
      more than 2 * maxFailures - 2 counted failures (1 if the first one locks). */
  lemma FailuresBounded(p: OtpPolicy, ts: seq<int>, lo: int)
    requires p.maxFailures >= 1 && (p.lockout >= p.failureWindow || p.failureWindow <= 0) && Sorted(ts)
    ensures CountIn(Counted(FRESH, p, ts), lo, lo + p.failureWindow) <= Bound(p.maxFailures)
  {
    var c := Counted(FRESH, p, ts);
    if p.failureWindow > 0 {
      CountedIsSparse(p, ts, c);
      SparseCount(c, Bound(p.maxFailures), p.failureWindow, lo);
    } else {
      NothingInside(c, lo, lo + p.failureWindow);
    }
  }

  lemma {:induction false} NothingInside(ts: seq<int>, lo: int, hi: int)
    requires hi <= lo
    ensures CountIn(ts, lo, hi) == 0
    decreases |ts|
  {
    if ts != [] { NothingInside(ts[..|ts| - 1], lo, hi); }
  }

  lemma {:induction false} RunJoined(g: Guard, p: OtpPolicy, a: seq<int>, b: seq<int>)
    ensures After(g, p, a + b) == After(After(g, p, a), p, b)
    ensures Counted(g, p, a + b) == Counted(g, p, a) + Counted(After(g, p, a), p, b)
    decreases |a|
  {
    if a == [] {
      assert a + b == b;
    } else {
      assert (a + b)[1..] == a[1..] + b;
      RunJoined(Failed(g, a[0], p), p, a[1..], b);
    }
  }

  /** n failures at one instant within an open window are all counted. */
  lemma {:induction false} Burst(g: Guard, p: OtpPolicy, t: int, n: nat)
    requires 0 < g.failures && g.failures + n <= p.maxFailures && g.lockedUntil == 0
             && 0 <= t < g.windowStart + p.failureWindow
    ensures Counted(g, p, Repeat(t, n)) == Repeat(t, n)
    ensures After(g, p, Repeat(t, n)) ==
            Guard(g.failures + n, g.windowStart, if n > 0 && g.failures + n == p.maxFailures then t + p.lockout else 0)
    decreases n
  {
    if n > 0 {
      assert Repeat(t, n)[1..] == Repeat(t, n - 1);
      if n > 1 || g.failures + n < p.maxFailures {
        Burst(Failed(g, t, p), p, t, n - 1);
      }
      assert [t] + Repeat(t, n - 1) == Repeat(t, n);
    }
  }

  /** A whole window's failures at one instant, from a guard that starts over. */
  lemma FullWindow(g: Guard, p: OtpPolicy, t: int)
    requires p.maxFailures >= 1 && p.failureWindow > 0 && t >= 0 && !g.Locked(t)
    requires g == FRESH || g.lockedUntil != 0 || t >= g.windowStart + p.failureWindow
    ensures Counted(g, p, Repeat(t, p.maxFailures)) == Repeat(t, p.maxFailures)
    ensures After(g, p, Repeat(t, p.maxFailures)) == Guard(p.maxFailures, t, t + p.lockout)
  {
    var m := p.maxFailures;
    var first := Failed(g, t, p);
    assert Repeat(t, m)[1..] == Repeat(t, m - 1) && [t] + Repeat(t, m - 1) == Repeat(t, m);
    if m > 1 { Burst(first, p, t, m - 1); }
  }

  /** One failure, all but two of the rest just before its window closes, and a full
      window just after. */
  function WorstRun(p: OtpPolicy): seq<int>
    requires p.maxFailures >= 2
  {
    [1] + Repeat(p.failureWindow, p.maxFailures - 2) + Repeat(1 + p.failureWindow, p.maxFailures)
  }

  lemma WorstRunCounted(p: OtpPolicy)
    requires p.maxFailures >= 2 && p.failureWindow >= 2
    ensures Counted(FRESH, p, WorstRun(p)) == WorstRun(p)
  {
    var w, m := p.failureWindow, p.maxFailures;
    var early := Repeat(w, m - 2);
    var g := Failed(FRESH, 1, p);
    Burst(g, p, w, m - 2);
    var mid := After(g, p, early);
    assert mid == Guard(m - 1, 1, 0);
    FullWindow(mid, p, 1 + w);
    assert ([1] + early)[1..] == early;
    assert After(FRESH, p, [1] + early) == mid && Counted(FRESH, p, [1] + early) == [1] + early;
    RunJoined(FRESH, p, [1] + early, Repeat(1 + w, m));
  }

  lemma WorstRunCount(p: OtpPolicy)
    requires p.maxFailures >= 2 && p.failureWindow >= 2
    ensures CountIn(WorstRun(p), p.failureWindow, 2 * p.failureWindow) == Bound(p.maxFailures)
  {
    var w, m := p.failureWindow, p.maxFailures;
    CountConcat(Between(w, 2 * w), [1] + Repeat(w, m - 2), Repeat(1 + w, m));
    CountConcat(Between(w, 2 * w), [1], Repeat(w, m - 2));
    CountRepeated(w, m - 2, w, 2 * w);
    CountRepeated(1 + w, m, w, 2 * w);
    CountRepeated(1, 1, w, 2 * w);
    assert [1] == Repeat(1, 1);
  }

  /** The bound is reached. */
  lemma BoundIsTight(p: OtpPolicy)
    requires p.maxFailures >= 2 && p.failureWindow >= 2
    ensures Sorted(WorstRun(p))
    ensures CountIn(Counted(FRESH, p, WorstRun(p)), p.failureWindow, 2 * p.failureWindow) == Bound(p.maxFailures)
  {
    WorstRunCounted(p);
    WorstRunCount(p);
  }

  /** An instant at which a lockout does not end at Go's zero time. */
  function FirstAt(p: OtpPolicy): int { if p.lockout < 0 then 1 - p.lockout else 1 }

  /** When the lockout from then on is over, if there is one. */
  function SecondAt(p: OtpPolicy): int { FirstAt(p) + if p.lockout < 0 then 0 else p.lockout }

  /** Two full windows, the second as soon as the lockout is over. */
  function TwoWindows(p: OtpPolicy): seq<int>
    requires p.maxFailures >= 1
  {
    Repeat(FirstAt(p), p.maxFailures) + Repeat(SecondAt(p), p.maxFailures)
  }

  lemma TwoWindowsCounted(p: OtpPolicy)
    requires p.maxFailures >= 1 && 0 < p.failureWindow
    ensures Counted(FRESH, p, TwoWindows(p)) == TwoWindows(p)
  {
    FullWindow(FRESH, p, FirstAt(p));
    FullWindow(Guard(p.maxFailures, FirstAt(p), FirstAt(p) + p.lockout), p, SecondAt(p));
    RunJoined(FRESH, p, Repeat(FirstAt(p), p.maxFailures), Repeat(SecondAt(p), p.maxFailures));
  }

  lemma TwoWindowsCount(p: OtpPolicy)
    requires p.maxFailures >= 1 && p.lockout < p.failureWindow && 0 < p.failureWindow
    ensures CountIn(TwoWindows(p), FirstAt(p), FirstAt(p) + p.failureWindow) == 2 * p.maxFailures
  {
    var lo, hi, first, second := FirstAt(p), FirstAt(p) + p.failureWindow, FirstAt(p), SecondAt(p);
    CountRepeated(first, p.maxFailures, lo, hi);
    CountRepeated(second, p.maxFailures, lo, hi);
    CountConcat(Between(lo, hi), Repeat(first, p.maxFailures), Repeat(second, p.maxFailures));
  }

  /** A lockout shorter than the window breaks the bound. */
  lemma ShortLockoutBreaksIt(p: OtpPolicy)
    requires p.maxFailures >= 1 && p.lockout < p.failureWindow && 0 < p.failureWindow
    ensures Sorted(TwoWindows(p))
    ensures CountIn(Counted(FRESH, p, TwoWindows(p)), FirstAt(p), FirstAt(p) + p.failureWindow) == 2 * p.maxFailures
    ensures 2 * p.maxFailures > Bound(p.maxFailures)
  {
    TwoWindowsCounted(p);
    TwoWindowsCount(p);
  }

  /** In every run, any stretch as long as the failure window is within the bound. */
  ghost predicate AlwaysBounded(p: OtpPolicy)
    requires p.maxFailures >= 1
  {
    forall ts, lo :: Sorted(ts) ==> WithinBound(p, ts, lo)
  }

  predicate WithinBound(p: OtpPolicy, ts: seq<int>, lo: int)
    requires p.maxFailures >= 1
  {
    CountIn(Counted(FRESH, p, ts), lo, lo + p.failureWindow) <= Bound(p.maxFailures)
  }

  /** The lockout is long enough exactly when it is at least as long as the window. */
  lemma LockoutDecides(p: OtpPolicy)
    requires p.maxFailures >= 1
    ensures AlwaysBounded(p) <==> p.lockout >= p.failureWindow || p.failureWindow <= 0
  {
    if p.lockout >= p.failureWindow || p.failureWindow <= 0 {
      forall ts, lo | Sorted(ts) ensures WithinBound(p, ts, lo) { FailuresBounded(p, ts, lo); }
    } else {
      ShortLockoutBreaksIt(p);
      assert !WithinBound(p, TwoWindows(p), FirstAt(p));
    }
  }
}

/** Requests for a login code: the cooldown and the hourly cap, under the phone's lock. */
module OtpRequests {
  import opened Wrappers
  import opened Intervals
  import opened Slices
  import opened Counting
  import opened OtpGuard

  datatype Outcome = Sent | NotSent | LockedOut(after: int) | Cooldown(after: int) | RateLimited(after: int) | Failure

  function Since(since: int): int -> bool { (t: int) => t >= since }

  /** CountSince: the challenges created at or after `since`. */
  function CountSince(codes: seq<int>, since: int): nat { CountIf(Since(since), codes) }

  /** One phone's challenges, by creation time, and its guard. `saves` is whether
      making and storing the code works; otherwise everything is rolled back. `sends`
      is whether the message goes out; a code that is stored stays, and counts. */
  class PhoneStore {
    var codes: seq<int>
    var guard: Guard

    constructor ()
      ensures codes == [] && guard == FRESH
    {
      codes, guard := [], FRESH;
    }

    method RequestOTP(now: int, p: OtpPolicy, saves: bool, sends: bool) returns (r: Outcome)
      modifies this
      ensures guard == old(guard)
      ensures (codes, r) == Requested(old(codes), guard, now, p, saves, sends)
    {
      if now < guard.lockedUntil {
        return LockedOut(guard.lockedUntil - now);
      }
      if codes != [] {
        var wait := codes[|codes| - 1] + p.resendCooldown - now;
        if wait > 0 {
          return Cooldown(wait);
        }
      }
      var sent := Count(now - HOUR);
      if sent >= p.maxPerHour {
        return RateLimited(HOUR);
      }
      if !saves || p.ttl <= 0 {
        return Failure;
      }
      codes := codes + [now];
      return if sends then Sent else NotSent;
    }

    method Count(since: int) returns (n: nat)
      ensures n == CountSince(codes, since)
    {
      n := 0;
      for i := 0 to |codes|
        invariant n == CountSince(codes[..i], since)
      {
        assert codes[..i + 1][..i] == codes[..i];
        if codes[i] >= since {
          n := n + 1;
        }
      }
      assert codes[..|codes|] == codes;
    }
  }

  function Requested(codes: seq<int>, g: Guard, now: int, p: OtpPolicy, saves: bool, sends: bool): (seq<int>, Outcome) {
    if g.Locked(now) then (codes, LockedOut(g.lockedUntil - now))
    else if codes != [] && codes[|codes| - 1] + p.resendCooldown > now then
      (codes, Cooldown(codes[|codes| - 1] + p.resendCooldown - now))
    else if CountSince(codes, now - HOUR) >= p.maxPerHour then (codes, RateLimited(HOUR))
    else if !saves || p.ttl <= 0 then (codes, Failure)
    else (codes + [now], if sends then Sent else NotSent)
  }

  /** The codes of the closed hour that ends now. */
  function LastHour(codes: seq<int>, now: int): nat { CountIn(codes, now - HOUR, now + 1) }

  lemma {:induction false} SinceIsLastHour(codes: seq<int>, now: int)
    requires forall i :: 0 <= i < |codes| ==> codes[i] <= now
    ensures CountSince(codes, now - HOUR) == LastHour(codes, now)
    decreases |codes|
  {
    if codes != [] { SinceIsLastHour(codes[..|codes| - 1], now); }
  }

  /** How long the cooldown after the last code still lasts, if it does. */
  function StillCooling(codes: seq<int>, now: int, p: OtpPolicy): int {
    if codes == [] then 0 else Later(codes[|codes| - 1] + p.resendCooldown - now, 0)
  }

  predicate MayRequest(codes: seq<int>, g: Guard, now: int, p: OtpPolicy) {
    now >= g.lockedUntil && StillCooling(codes, now, p) == 0 && LastHour(codes, now) < p.maxPerHour
  }

  /** When a code is made, and otherwise which refusal it is, and how long to wait: a
      locked phone first, then the cooldown, then the hour. */
  lemma RequestMeans(codes: seq<int>, g: Guard, now: int, p: OtpPolicy, saves: bool, sends: bool)
    requires forall i :: 0 <= i < |codes| ==> codes[i] <= now
    ensures var (next, r) := Requested(codes, g, now, p, saves, sends);
            && (now < g.lockedUntil ==> (next, r) == (codes, LockedOut(g.lockedUntil - now)))
            && (now >= g.lockedUntil && StillCooling(codes, now, p) > 0 ==>
                  (next, r) == (codes, Cooldown(StillCooling(codes, now, p))))
            && (now >= g.lockedUntil && StillCooling(codes, now, p) == 0 && LastHour(codes, now) >= p.maxPerHour ==>
                  (next, r) == (codes, RateLimited(HOUR)))
            && (MayRequest(codes, g, now, p) ==>
                  (next, r) == if !saves || p.ttl <= 0 then (codes, Failure)
                               else (codes + [now], if sends then Sent else NotSent))
            && (next == codes + [now] <==> MayRequest(codes, g, now, p) && saves && p.ttl > 0)
  {
    SinceIsLastHour(codes, now);
    assert codes + [now] != codes;
  }

  /** A request at an instant, with whatever the guard says then. */
  datatype Call = Call(now: int, guard: Guard, saves: bool, sends: bool)

  function Codes(p: OtpPolicy, calls: seq<Call>): seq<int> {
    if calls == [] then []
    else
      var last := calls[|calls| - 1];
      Requested(Codes(p, calls[..|calls| - 1]), last.guard, last.now, p, last.saves, last.sends).0
  }

  ghost predicate Forward(calls: seq<Call>) { forall i, j :: 0 <= i < j < |calls| ==> calls[i].now <= calls[j].now }

  /** Each code at least the cooldown after the one before. */
  ghost predicate Spaced(codes: seq<int>, cooldown: int) {
    forall i :: 0 <= i < |codes| - 1 ==> codes[i + 1] >= codes[i] + cooldown
  }

  /** With n of them in the hour behind the last, the first of those is n places back. */
  lemma {:induction false} CountBehind(codes: seq<int>, since: int, i: nat)
    requires Sorted(codes) && i < |codes| && codes[i] >= since
    ensures CountSince(codes, since) >= |codes| - i
    decreases |codes|
  {
    if i < |codes| - 1 { CountBehind(codes[..|codes| - 1], since, i); }
  }

  lemma OneMoreCode(codes: seq<int>, g: Guard, now: int, p: OtpPolicy, saves: bool, sends: bool)
    requires p.maxPerHour >= 0 && Sorted(codes) && (codes != [] ==> codes[|codes| - 1] <= now)
    requires Sparse(codes, p.maxPerHour, HOUR + 1)
    ensures var next := Requested(codes, g, now, p, saves, sends).0;
            Sorted(next) && Sparse(next, p.maxPerHour, HOUR + 1) && (next != [] ==> next[|next| - 1] <= now)
  {
    var next := Requested(codes, g, now, p, saves, sends).0;
    if next != codes {
      forall i | 0 <= i < |codes| ensures codes[i] <= now { assert codes[i] <= codes[|codes| - 1]; }
      forall i, j | 0 <= i && i + p.maxPerHour <= j < |next| ensures next[j] >= next[i] + HOUR + 1 {
        if j == |codes| && i < |codes| {
          if codes[i] >= now - HOUR { CountBehind(codes, now - HOUR, i); }
        }
      }
    }
  }

  lemma OneMoreSpaced(codes: seq<int>, g: Guard, now: int, p: OtpPolicy, saves: bool, sends: bool)
    requires Spaced(codes, p.resendCooldown)
    ensures Spaced(Requested(codes, g, now, p, saves, sends).0, p.resendCooldown)
  {
  }

  ghost predicate Limited(p: OtpPolicy, c: seq<int>)
    requires p.maxPerHour >= 0
  {
    Sorted(c) && Sparse(c, p.maxPerHour, HOUR + 1) && Spaced(c, p.resendCooldown)
  }

  lemma {:induction false} CodesSparse(p: OtpPolicy, calls: seq<Call>, now: int)
    requires p.maxPerHour >= 0 && Forward(calls) && forall i :: 0 <= i < |calls| ==> calls[i].now <= now
    ensures Limited(p, Codes(p, calls)) && (Codes(p, calls) != [] ==> Codes(p, calls)[|Codes(p, calls)| - 1] <= now)
    decreases |calls|
  {
    if calls != [] {
      var front, last := calls[..|calls| - 1], calls[|calls| - 1];
      CodesSparse(p, front, last.now);
      OneMoreCode(Codes(p, front), last.guard, last.now, p, last.saves, last.sends);
      OneMoreSpaced(Codes(p, front), last.guard, last.now, p, last.saves, last.sends);
    }
  }

  /** No code is ever made while the phone is locked. */
  lemma {:induction false} NoCodeWhileLocked(p: OtpPolicy, calls: seq<Call>, c: int)
    requires c in Codes(p, calls)
    ensures exists k :: 0 <= k < |calls| && calls[k].now == c && !calls[k].guard.Locked(c)
    decreases |calls|
  {
    var front, last := calls[..|calls| - 1], calls[|calls| - 1];
    if c in Codes(p, front) {
      NoCodeWhileLocked(p, front, c);
      var k :| 0 <= k < |front| && front[k].now == c && !front[k].guard.Locked(c);
      assert calls[k] == front[k];
    } else {
      assert calls[|calls| - 1].now == c && !last.guard.Locked(c);
    }
  }

  /** Every run of requests for a phone leaves the codes at least the cooldown apart
      and no closed hour, wherever it starts, with more than the cap. */
  lemma CodesLimited(p: OtpPolicy, calls: seq<Call>, lo: int)
    requires p.maxPerHour >= 0 && Forward(calls)
    ensures Spaced(Codes(p, calls), p.resendCooldown)
    ensures CountIn(Codes(p, calls), lo, lo + HOUR + 1) <= p.maxPerHour
  {
    CodesSparse(p, calls, if calls == [] then 0 else calls[|calls| - 1].now);
    SparseCount(Codes(p, calls), p.maxPerHour, HOUR + 1, lo);
  }
}
