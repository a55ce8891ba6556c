/** Half-open stretches of real time, and lists of them as sets of instants. */
module Intervals {
  import opened Wrappers

  /** Instants and durations are counted in nanoseconds. */
  const MINUTE := 60_000_000_000
  const HOUR := 60 * MINUTE
  const DAY := 24 * HOUR

  datatype Interval = Interval(start: int, end: int) {
    predicate Overlaps(o: Interval) { start < o.end && o.start < end }

    predicate Contains(t: int) { start <= t < end }

    predicate Covers(o: Interval) { start <= o.start && o.end <= end }
  }

  /** What NewInterval lets through: an interval that is not empty. */
  type Span = i: Interval | i.start < i.end witness Interval(0, 1)

  function NewInterval(start: int, end: int): (r: Option<Span>)
    ensures r.Some? <==> exists t :: Interval(start, end).Contains(t)
    ensures r.Some? ==> r.value == Interval(start, end)
  {
    if start < end then
      assert Interval(start, end).Contains(start);
      Some(Interval(start, end))
    else None
  }

  function Later(a: int, b: int): int { if a > b then a else b }

  function Earlier(a: int, b: int): int { if a < b then a else b }

  lemma OverlapIsSharedInstant(a: Span, b: Span)
    ensures a.Overlaps(b) <==> exists t :: a.Contains(t) && b.Contains(t)
  {
    if a.Overlaps(b) {
      assert a.Contains(Later(a.start, b.start)) && b.Contains(Later(a.start, b.start));
    }
  }

  lemma CoversIsEveryInstant(a: Span, b: Span)
    ensures a.Covers(b) <==> forall t :: b.Contains(t) ==> a.Contains(t)
  {
    assert b.Contains(b.start) && b.Contains(b.end - 1);
  }

  /** The instant lies in one of the spans. */
  ghost predicate In(t: int, s: seq<Span>) {
    exists i :: 0 <= i < |s| && s[i].Contains(t)
  }

  /** Sorted, with a gap between neighbours: merged, never touching. */
  ghost predicate Separated(s: seq<Span>) {
    forall i, j :: 0 <= i < j < |s| ==> s[i].end < s[j].start
  }

  ghost predicate NoneOverlap(s: seq<Span>) { forall i, j :: 0 <= i < j < |s| ==> !s[i].Overlaps(s[j]) }

  ghost predicate SamePoints(a: seq<Span>, b: seq<Span>) {
    forall t :: In(t, a) <==> In(t, b)
  }

  lemma InAppend(s: seq<Span>, x: Span)
    ensures forall t :: In(t, s + [x]) <==> In(t, s) || x.Contains(t)
  {
    forall t ensures In(t, s + [x]) <==> In(t, s) || x.Contains(t) {
      if i :| 0 <= i < |s| && s[i].Contains(t) { assert (s + [x])[i].Contains(t); }
      if x.Contains(t) { assert (s + [x])[|s|].Contains(t); }
    }
  }

  lemma InPrefix(s: seq<Span>, n: nat)
    requires n < |s|
    ensures forall t :: In(t, s[..n + 1]) <==> In(t, s[..n]) || s[n].Contains(t)
  {
  }

  lemma InMember(s: seq<Span>, x: Span, t: int)
    requires x in s && x.Contains(t)
    ensures In(t, s)
  {
  }

  lemma InPermuted(s: seq<Span>, r: seq<Span>)
    requires forall x :: x in s <==> x in r
    ensures SamePoints(s, r)
  {
    forall t ensures In(t, s) <==> In(t, r) {
      if i :| 0 <= i < |s| && s[i].Contains(t) { InMember(r, s[i], t); }
      if i :| 0 <= i < |r| && r[i].Contains(t) { InMember(s, r[i], t); }
    }
  }

  /** An unbroken stretch of covered instants stays within one of the spans. */
  lemma OneSpanCovers(s: seq<Span>, x: Span)
    requires Separated(s)
    ensures (exists i :: 0 <= i < |s| && s[i].Covers(x)) <==> forall t :: x.Contains(t) ==> In(t, s)
  {
    if i :| 0 <= i < |s| && s[i].Covers(x) {
      forall t | x.Contains(t) ensures In(t, s) { assert s[i].Contains(t); }
    }
    if forall t :: x.Contains(t) ==> In(t, s) {
      assert In(x.start, s) by { assert x.Contains(x.start); }
      var i :| 0 <= i < |s| && s[i].Contains(x.start);
      GapAfter(s, i);
      assert !x.Contains(s[i].end);
    }
  }

  lemma GapAfter(s: seq<Span>, i: nat)
    requires Separated(s) && i < |s|
    ensures !In(s[i].end, s)
  {
  }

  lemma FirstSpanStartsFirst(a: seq<Span>, b: seq<Span>)
    requires Separated(a) && Separated(b) && SamePoints(a, b)
    requires a != []
    ensures b != [] && b[0].start <= a[0].start
  {
    assert a[0].Contains(a[0].start) && In(a[0].start, a);
    var j :| 0 <= j < |b| && b[j].Contains(a[0].start);
  }

  lemma TailPoints(s: seq<Span>)
    requires Separated(s) && s != []
    ensures Separated(s[1..])
    ensures forall t :: In(t, s[1..]) <==> In(t, s) && t >= s[0].end
  {
  }

  /** Separated lists are a normal form: the set of instants determines the
      list, so a specification by instants leaves nothing open. */
  lemma {:induction false} NormalFormUnique(a: seq<Span>, b: seq<Span>)
    requires Separated(a) && Separated(b) && SamePoints(a, b)
    ensures a == b
    decreases |a|
  {
    if a == [] {
      if b != [] { FirstSpanStartsFirst(b, a); }
    } else {
      FirstSpanStartsFirst(a, b);
      FirstSpanStartsFirst(b, a);
      FirstSpanEndsTogether(a, b);
      FirstSpanEndsTogether(b, a);
      TailPoints(a);
      TailPoints(b);
      NormalFormUnique(a[1..], b[1..]);
      assert a == [a[0]] + a[1..] && b == [b[0]] + b[1..];
    }
  }

  lemma FirstSpanEndsTogether(a: seq<Span>, b: seq<Span>)
    requires Separated(a) && Separated(b) && SamePoints(a, b)
    requires a != [] && b != [] && a[0].start == b[0].start
    ensures a[0].end <= b[0].end
  {
    forall t | a[0].Contains(t) ensures In(t, b) { assert In(t, a); }
    OneSpanCovers(b, a[0]);
    var i :| 0 <= i < |b| && b[i].Covers(a[0]);
  }
}
