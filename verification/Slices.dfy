/** Searching, filtering and counting, as loops over slices do it: front to back. */
module Slices {

  /** slices.IndexFunc: the first match, or -1. */
  function IndexWhere<T>(p: T -> bool, s: seq<T>): (i: int)
    ensures -1 <= i < |s|
    ensures i >= 0 ==> p(s[i]) && forall k :: 0 <= k < i ==> !p(s[k])
    ensures i < 0 ==> forall k :: 0 <= k < |s| ==> !p(s[k])
  {
    if s == [] then -1
    else if p(s[0]) then 0
    else var r := IndexWhere(p, s[1..]); if r < 0 then -1 else r + 1
  }

  function Filter<T>(p: T -> bool, s: seq<T>): seq<T> {
    if s == [] then []
    else Filter(p, s[..|s| - 1]) + if p(s[|s| - 1]) then [s[|s| - 1]] else []
  }

  lemma {:induction false} FilterMembers<T>(p: T -> bool, s: seq<T>)
    ensures forall x :: x in Filter(p, s) <==> x in s && p(x)
    decreases |s|
  {
    if s != [] {
      FilterMembers(p, s[..|s| - 1]);
      assert s == s[..|s| - 1] + [s[|s| - 1]];
    }
  }

  /** One more element of the slice seen. */
  lemma FilterStep<T>(p: T -> bool, s: seq<T>, n: nat)
    requires n < |s|
    ensures Filter(p, s[..n + 1]) == Filter(p, s[..n]) + if p(s[n]) then [s[n]] else []
  {
    assert s[..n + 1][..n] == s[..n];
  }

  /** Filtering keeps the order: what holds of any two in a row still does. */
  lemma {:induction false} FilterInOrder<T(!new)>(p: T -> bool, s: seq<T>, r: (T, T) -> bool)
    requires forall i, j :: 0 <= i < j < |s| ==> r(s[i], s[j])
    ensures forall i, j :: 0 <= i < j < |Filter(p, s)| ==> r(Filter(p, s)[i], Filter(p, s)[j])
    decreases |s|
  {
    if s != [] {
      var front, last := s[..|s| - 1], s[|s| - 1];
      FilterInOrder(p, front, r);
      FilterMembers(p, front);
      forall i | 0 <= i < |Filter(p, front)| ensures r(Filter(p, front)[i], last) {
        assert Filter(p, front)[i] in front;
      }
    }
  }

  lemma Regroup<T>(a: seq<T>, b: seq<T>, c: seq<T>)
    ensures a + (b + c) == a + b + c
  {
  }

  function CountIf<T>(p: T -> bool, s: seq<T>): nat {
    if s == [] then 0
    else CountIf(p, s[..|s| - 1]) + if p(s[|s| - 1]) then 1 else 0
  }

  lemma {:induction false} CountConcat<T>(p: T -> bool, s: seq<T>, t: seq<T>)
    ensures CountIf(p, s + t) == CountIf(p, s) + CountIf(p, t)
    decreases |t|
  {
    if t == [] {
      assert s + t == s;
    } else {
      assert (s + t)[..|s + t| - 1] == s + t[..|t| - 1];
      CountConcat(p, s, t[..|t| - 1]);
    }
  }
}
