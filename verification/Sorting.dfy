/** slices.SortFunc as the domain uses it: in place, by a comparison, with no
    promise about the order of equal elements. */
module Sorting {
  import opened Slices

  ghost predicate TotalPreorder<T(!new)>(leq: (T, T) -> bool) {
    && (forall a, b :: leq(a, b) || leq(b, a))
    && (forall a, b, c :: leq(a, b) && leq(b, c) ==> leq(a, c))
  }

  ghost predicate SortedBy<T>(leq: (T, T) -> bool, s: seq<T>) {
    forall i, j :: 0 <= i < j < |s| ==> leq(s[i], s[j])
  }

  /** Everything in order except that the element at `hole` may still be too
      small for its place. */
  ghost predicate SortedBut<T>(leq: (T, T) -> bool, s: seq<T>, hole: nat) {
    forall i, j :: 0 <= i < j < |s| && j != hole ==> leq(s[i], s[j])
  }

  method SortFunc<T(!new)>(a: array<T>, leq: (T, T) -> bool)
    requires TotalPreorder(leq)
    modifies a
    ensures SortedBy(leq, a[..])
    ensures multiset(a[..]) == multiset(old(a[..]))
  {
    for n := 0 to a.Length
      invariant SortedBy(leq, a[..n])
      invariant multiset(a[..]) == multiset(old(a[..]))
    {
      Insert(a, leq, n);
    }
    assert a[..a.Length] == a[..];
  }

  /** Moves the element at n down to its place among the sorted ones below. */
  method Insert<T(!new)>(a: array<T>, leq: (T, T) -> bool, n: nat)
    requires TotalPreorder(leq)
    requires n < a.Length && SortedBy(leq, a[..n])
    modifies a
    ensures SortedBy(leq, a[..n + 1])
    ensures multiset(a[..]) == multiset(old(a[..]))
  {
    var j := n;
    assert forall i :: 0 <= i < n ==> a[..n + 1][i] == a[..n][i];
    while j > 0 && !leq(a[j - 1], a[j])
      invariant 0 <= j <= n
      invariant SortedBut(leq, a[..n + 1], j)
      invariant forall k :: j < k <= n ==> leq(a[j], a[k])
      invariant multiset(a[..]) == multiset(old(a[..]))
    {
      a[j - 1], a[j] := a[j], a[j - 1];
      j := j - 1;
    }
    SettledIsSorted(leq, a[..n + 1], j);
  }

  lemma SettledIsSorted<T(!new)>(leq: (T, T) -> bool, s: seq<T>, hole: nat)
    requires TotalPreorder(leq)
    requires hole < |s| && SortedBut(leq, s, hole)
    requires hole > 0 ==> leq(s[hole - 1], s[hole])
    ensures SortedBy(leq, s)
  {
  }

  /** A strict order leaves only one way to list the same elements. */
  lemma {:induction false} SortedSetUnique<T(!new)>(lt: (T, T) -> bool, f: seq<T>, g: seq<T>)
    requires forall a, b :: lt(a, b) ==> !lt(b, a)
    requires forall x :: x in f <==> x in g
    requires forall i, j :: 0 <= i < j < |f| ==> lt(f[i], f[j])
    requires forall i, j :: 0 <= i < j < |g| ==> lt(g[i], g[j])
    ensures f == g
    decreases |f|
  {
    assert g != [] ==> g[0] in g;
    if f != [] {
      assert f[0] in g && g[0] in f;
      assert f == [f[0]] + f[1..] && g == [g[0]] + g[1..];
      assert f[0] == g[0];
      forall x ensures x in f[1..] <==> x in g[1..] {
        assert x in f[1..] <==> x in f && x != f[0];
        assert x in g[1..] <==> x in g && x != g[0];
      }
      SortedSetUnique(lt, f[1..], g[1..]);
    }
  }

  /** A fresh array holding s: slices.Clone. */
  method Clone<T>(s: seq<T>) returns (a: array<T>)
    ensures fresh(a) && a[..] == s
  {
    a := new T[|s|](i requires 0 <= i < |s| => s[i]);
  }

  lemma PermutationMembers<T>(s: seq<T>, t: seq<T>)
    requires multiset(s) == multiset(t)
    ensures |s| == |t|
    ensures forall x :: x in s <==> x in t
  {
    assert |multiset(s)| == |s| && |multiset(t)| == |t|;
    forall x ensures x in s <==> x in t {
      assert x in s <==> x in multiset(s);
      assert x in t <==> x in multiset(t);
    }
  }

  /** Every two elements at different places are related. */
  ghost predicate Pairwise<T>(r: (T, T) -> bool, s: seq<T>) {
    forall i, j :: 0 <= i < |s| && 0 <= j < |s| && i != j ==> r(s[i], s[j])
  }

  lemma OccursTwice<T>(s: seq<T>, x: T)
    ensures multiset(s)[x] >= 2 <==> exists i, j :: 0 <= i < j < |s| && s[i] == x && s[j] == x
  {
    if i :| 0 <= i < |s| && s[i] == x {
      assert s == s[..i] + [x] + s[i + 1..];
      assert multiset(s) == multiset(s[..i]) + multiset{x} + multiset(s[i + 1..]);
      if j :| 0 <= j < |s| && s[j] == x && j != i {
        if j < i { assert s[..i][j] == x; } else { assert s[i + 1..][j - i - 1] == x; }
      } else {
        assert x !in s[..i] && x !in s[i + 1..];
      }
    } else {
      assert x !in multiset(s);
    }
  }

  /** Whether a relation holds pairwise does not depend on the order. */
  lemma PairwisePermuted<T(!new)>(r: (T, T) -> bool, s: seq<T>, t: seq<T>)
    requires multiset(s) == multiset(t)
    requires Pairwise(r, s)
    ensures Pairwise(r, t)
  {
    forall i, j | 0 <= i < |t| && 0 <= j < |t| && i != j ensures r(t[i], t[j]) {
      PermutationMembers(s, t);
      if t[i] == t[j] {
        OccursTwice(t, t[i]);
        OccursTwice(s, t[i]);
      } else {
        assert t[i] in s && t[j] in s;
      }
    }
  }

  function Without<T>(s: seq<T>, j: nat): seq<T>
    requires j < |s|
  {
    s[..j] + s[j + 1..]
  }

  lemma WithoutMembers<T>(s: seq<T>, j: nat)
    requires j < |s|
    ensures multiset(Without(s, j)) == multiset(s) - multiset{s[j]}
  {
    assert s == s[..j] + [s[j]] + s[j + 1..];
  }

  lemma {:induction false} CountWithout<T>(p: T -> bool, s: seq<T>, j: nat)
    requires j < |s|
    ensures CountIf(p, s) == CountIf(p, Without(s, j)) + if p(s[j]) then 1 else 0
    decreases |s|
  {
    var front := s[..|s| - 1];
    if j == |s| - 1 {
      assert Without(s, j) == front;
    } else {
      CountWithout(p, front, j);
      assert Without(s, j)[..|s| - 2] == Without(front, j);
    }
  }

  lemma {:induction false} CountPermuted<T>(p: T -> bool, s: seq<T>, t: seq<T>)
    requires multiset(s) == multiset(t)
    ensures CountIf(p, s) == CountIf(p, t)
    decreases |s|
  {
    PermutationMembers(s, t);
    if s != [] {
      assert s[0] in t;
      var j :| 0 <= j < |t| && t[j] == s[0];
      WithoutMembers(s, 0);
      WithoutMembers(t, j);
      CountPermuted(p, Without(s, 0), Without(t, j));
      CountWithout(p, s, 0);
      CountWithout(p, t, j);
    }
  }
}
