/** The span algebra behind working windows: sort and merge, intersect with two
    pointers, subtract with a carried index, clip. */
module Spans {
  import opened Intervals
  import opened Sorting

  /** mustSpan: the precondition is the panic it never reaches. */
  function MustSpan(start: int, end: int): (s: Span)
    requires start < end
    ensures forall t :: s.Contains(t) <==> start <= t < end
  {
    Interval(start, end)
  }

  method AppendSpan(spans: seq<Span>, start: int, end: int) returns (out: seq<Span>)
    ensures forall t :: In(t, out) <==> In(t, spans) || start <= t < end
  {
    out := spans;
    if start < end {
      InAppend(spans, Interval(start, end));
      out := spans + [Interval(start, end)];
    }
  }

  predicate StartsNoLater(a: Span, b: Span) { a.start <= b.start }

  /** Stretching the last span to a later end adds exactly what follows it. */
  lemma InStretched(out: seq<Span>, end: int)
    requires out != [] && out[|out| - 1].end < end
    ensures var last := out[|out| - 1];
            var longer := out[|out| - 1 := MustSpan(last.start, end)];
            forall t :: In(t, longer) <==> In(t, out) || last.end <= t < end
  {
    var n := |out| - 1;
    var last := out[n];
    var longer := out[n := MustSpan(last.start, end)];
    assert longer == out[..n] + [MustSpan(last.start, end)] && out == out[..n] + [last];
    InAppend(out[..n], MustSpan(last.start, end));
    InAppend(out[..n], last);
  }

  /** Sorts the slice it is given, in place, and merges what overlaps or touches. */
  method Normalize(spans: array<Span>) returns (out: seq<Span>)
    modifies spans
    ensures multiset(spans[..]) == multiset(old(spans[..]))
    ensures Separated(out)
    ensures SamePoints(out, old(spans[..]))
  {
    SortFunc(spans, StartsNoLater);
    var sorted := spans[..];
    PermutationMembers(sorted, old(spans[..]));
    InPermuted(sorted, old(spans[..]));
    out := Merged(sorted);
  }

  /** normalize's loop over the sorted spans. */
  method Merged(sorted: seq<Span>) returns (out: seq<Span>)
    requires SortedBy(StartsNoLater, sorted)
    ensures Separated(out)
    ensures SamePoints(out, sorted)
  {
    out := [];
    for i := 0 to |sorted|
      invariant Separated(out)
      invariant SamePoints(out, sorted[..i])
      invariant out != [] ==> forall k :: i <= k < |sorted| ==> out[|out| - 1].start <= sorted[k].start
    {
      var s, n := sorted[i], |out|;
      InPrefix(sorted, i);
      assert forall k :: i < k < |sorted| ==> StartsNoLater(s, sorted[k]);
      if n > 0 && s.start <= out[n - 1].end {
        if s.end > out[n - 1].end {
          InStretched(out, s.end);
          assert forall t :: s.Contains(t) ==> out[n - 1].Contains(t) || out[n - 1].end <= t < s.end;
          out := out[n - 1 := MustSpan(out[n - 1].start, s.end)];
        } else {
          assert forall t :: s.Contains(t) ==> out[n - 1].Contains(t);
        }
      } else {
        InAppend(out, s);
        assert forall k :: 0 <= k < n ==> out[k].end <= out[n - 1].end;
        out := out + [s];
      }
    }
    assert sorted[..|sorted|] == sorted;
  }

  method Intersect(a: seq<Span>, b: seq<Span>) returns (out: seq<Span>)
    requires Separated(a) && Separated(b)
    ensures Separated(out)
    ensures forall t :: In(t, out) <==> In(t, a) && In(t, b)
  {
    out := [];
    var i, j := 0, 0;
    while i < |a| && j < |b|
      invariant 0 <= i <= |a| && 0 <= j <= |b|
      invariant Separated(out)
      invariant out != [] && i < |a| && j < |b| ==> out[|out| - 1].end < Later(a[i].start, b[j].start)
      invariant forall t :: In(t, out) <==> (In(t, a[..i]) && In(t, b)) || (In(t, a) && In(t, b[..j]))
      decreases |a| - i + |b| - j
    {
      ghost var before := out;
      var start, end := Later(a[i].start, b[j].start), Earlier(a[i].end, b[j].end);
      if start < end {
        InAppend(out, MustSpan(start, end));
        out := out + [MustSpan(start, end)];
      }
      assert forall t :: In(t, out) <==> In(t, before) || (a[i].Contains(t) && b[j].Contains(t));
      if a[i].end < b[j].end {
        InPrefix(a, i);
        OnlyOneMeets(a[i], b, j);
        i := i + 1;
      } else {
        InPrefix(b, j);
        OnlyOneMeets(b[j], a, i);
        j := j + 1;
      }
    }
    assert a[..|a|] == a && b[..|b|] == b;
  }

  /** A span that ends no later than s[n] meets nothing of s after s[n]. */
  lemma OnlyOneMeets(x: Span, s: seq<Span>, n: nat)
    requires Separated(s) && n < |s| && x.end <= s[n].end
    ensures forall t :: x.Contains(t) && In(t, s) ==> In(t, s[..n]) || s[n].Contains(t)
  {
  }

  /** What subtracting b has settled of s once the cursor stands at `upTo`. */
  ghost predicate Settled(t: int, s: Span, upTo: int, b: seq<Span>) {
    s.Contains(t) && t < upTo && !In(t, b)
  }

  lemma InConcat(s: seq<Span>, r: seq<Span>)
    ensures forall t :: In(t, s + r) <==> In(t, s) || In(t, r)
  {
    forall t ensures In(t, s + r) <==> In(t, s) || In(t, r) {
      if i :| 0 <= i < |s| && s[i].Contains(t) { assert (s + r)[i].Contains(t); }
      if i :| 0 <= i < |r| && r[i].Contains(t) { assert (s + r)[|s| + i].Contains(t); }
    }
  }

  /** The pieces are in order and all lie within s. */
  ghost predicate PiecesOf(pieces: seq<Span>, s: Span) {
    Separated(pieces) && forall i :: 0 <= i < |pieces| ==> s.Covers(pieces[i])
  }

  /** subtract's inner loop: what is left of s, starting from the carried index. */
  method Remains(s: Span, b: seq<Span>, j: nat) returns (pieces: seq<Span>)
    requires Separated(b) && j <= |b|
    requires forall q :: 0 <= q < j ==> b[q].end <= s.start
    requires j < |b| ==> s.start < b[j].end
    ensures PiecesOf(pieces, s)
    ensures forall t :: In(t, pieces) <==> s.Contains(t) && !In(t, b)
  {
    pieces := [];
    var start, end, k := s.start, s.end, j;
    while k < |b| && b[k].start < end
      invariant j <= k <= |b|
      invariant s.start <= start
      invariant forall q :: 0 <= q < k ==> b[q].end <= start
      invariant k < |b| ==> start < b[k].end
      invariant PiecesOf(pieces, s)
      invariant pieces != [] ==> pieces[|pieces| - 1].end < start
      invariant forall t :: In(t, pieces) <==> Settled(t, s, start, b)
    {
      SettledThrough(s, start, b, k);
      if b[k].start > start {
        InAppend(pieces, MustSpan(start, b[k].start));
        pieces := pieces + [MustSpan(start, b[k].start)];
      }
      if b[k].end > start {
        start := b[k].end;
      }
      k := k + 1;
    }
    FreeFrom(b, k, start, end);
    if start < end {
      InAppend(pieces, MustSpan(start, end));
      pieces := pieces + [MustSpan(start, end)];
    }
  }

  method Subtract(a: seq<Span>, b: seq<Span>) returns (out: seq<Span>)
    requires Separated(a) && Separated(b)
    ensures Separated(out)
    ensures forall t :: In(t, out) <==> In(t, a) && !In(t, b)
  {
    out := [];
    var j := 0;
    for i := 0 to |a|
      invariant 0 <= j <= |b|
      invariant Separated(out)
      invariant out != [] ==> i > 0 && out[|out| - 1].end <= a[i - 1].end
      invariant i < |a| ==> forall q :: 0 <= q < j ==> b[q].end <= a[i].start
      invariant forall t :: In(t, out) <==> In(t, a[..i]) && !In(t, b)
    {
      while j < |b| && b[j].end <= a[i].start
        invariant 0 <= j <= |b|
        invariant forall q :: 0 <= q < j ==> b[q].end <= a[i].start
      {
        j := j + 1;
      }
      var pieces := Remains(a[i], b, j);
      InConcat(out, pieces);
      InPrefix(a, i);
      out := out + pieces;
    }
    assert a[..|a|] == a;
  }

  lemma FreeFrom(b: seq<Span>, k: nat, start: int, end: int)
    requires Separated(b) && k <= |b|
    requires forall q :: 0 <= q < k ==> b[q].end <= start
    requires k < |b| ==> b[k].start >= end
    ensures forall t :: start <= t < end ==> !In(t, b)
  {
  }

  /** Moving the cursor past b[k] settles the free stretch in front of b[k]. */
  lemma SettledThrough(s: Span, was: int, b: seq<Span>, k: nat)
    requires Separated(b) && k < |b| && was < b[k].end && b[k].start < s.end && s.start <= was
    requires forall q :: 0 <= q < k ==> b[q].end <= was
    ensures forall t :: Settled(t, s, b[k].end, b) <==> Settled(t, s, was, b) || was <= t < b[k].start
  {
  }

  method Clip(spans: seq<Span>, from: int, to: int) returns (out: seq<Span>)
    requires Separated(spans)
    ensures Separated(out)
    ensures forall t :: In(t, out) <==> In(t, spans) && from <= t < to
  {
    out := [];
    for i := 0 to |spans|
      invariant Separated(out)
      invariant out != [] ==> i > 0 && out[|out| - 1].end <= spans[i - 1].end
      invariant forall t :: In(t, out) <==> In(t, spans[..i]) && from <= t < to
    {
      InPrefix(spans, i);
      var start, end := Later(spans[i].start, from), Earlier(spans[i].end, to);
      if start < end {
        InAppend(out, MustSpan(start, end));
        out := out + [MustSpan(start, end)];
      }
    }
    assert spans[..|spans|] == spans;
  }
}
