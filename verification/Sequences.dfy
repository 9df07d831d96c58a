/** Sequences that grow at their end: counting, and filtering by a predicate. */
module Sequences {

  lemma AppendCounts<T>(s: seq<T>, x: T)
    ensures multiset(s + [x]) == multiset(s) + multiset{x}
  {
  }

  lemma PrefixGrows<T>(s: seq<T>, n: nat)
    requires 0 < n <= |s|
    ensures s[..n] == s[..n - 1] + [s[n - 1]] && multiset(s[..n]) == multiset(s[..n - 1]) + multiset{s[n - 1]}
  {
    AppendCounts(s[..n - 1], s[n - 1]);
    assert s[..n] == s[..n - 1] + [s[n - 1]];
  }

  /** The elements among the first n that are to be kept, in order. */
  function Filtered<T>(keep: T -> bool, s: seq<T>, n: nat): seq<T>
    requires n <= |s|
  {
    if n == 0 then []
    else if keep(s[n - 1]) then Filtered(keep, s, n - 1) + [s[n - 1]]
    else Filtered(keep, s, n - 1)
  }

  lemma PrefixCounts<T>(s: seq<T>, n: nat, x: T)
    requires 0 < n <= |s|
    ensures multiset(s[..n])[x] == multiset(s[..n - 1])[x] + (if s[n - 1] == x then 1 else 0)
  {
    PrefixGrows(s, n);
  }

  lemma FilteredStep<T>(keep: T -> bool, s: seq<T>, n: nat, x: T)
    requires 0 < n <= |s|
    ensures multiset(Filtered(keep, s, n))[x] ==
            multiset(Filtered(keep, s, n - 1))[x] + (if s[n - 1] == x && keep(x) then 1 else 0)
  {
    AppendCounts(Filtered(keep, s, n - 1), s[n - 1]);
  }

  /** Each element is kept as often as it is there, or not at all. */
  lemma {:induction false} FilteredCounts<T>(keep: T -> bool, s: seq<T>, n: nat, x: T)
    requires n <= |s|
    ensures multiset(Filtered(keep, s, n))[x] == if keep(x) then multiset(s[..n])[x] else 0
  {
    if n > 0 {
      FilteredCounts(keep, s, n - 1, x);
      FilteredStep(keep, s, n, x);
      PrefixCounts(s, n, x);
    }
  }

  /** A list of different elements of a set is no longer than the set is large, and as long if it has all. */
  lemma {:induction false} DistinctSize<T(!new)>(xs: seq<T>, s: set<T>)
    requires (forall i :: 0 <= i < |xs| ==> xs[i] in s) && (forall i, j :: 0 <= i < j < |xs| ==> xs[i] != xs[j])
    ensures |xs| <= |s|
    ensures (forall x :: x in s ==> x in xs) ==> |xs| == |s|
  {
    if xs == [] {
      if forall x :: x in s ==> x in xs { assert forall x :: x !in s; }
    } else {
      var init, last := xs[..|xs| - 1], xs[|xs| - 1];
      assert xs == init + [last];
      DistinctSize(init, s - {last});
    }
  }

  predicate Ascending(p: seq<nat>) {
    forall a, b :: 0 <= a < b < |p| ==> p[a] < p[b]
  }

  /** The places of the kept elements. */
  function Places<T>(keep: T -> bool, s: seq<T>, n: nat): (p: seq<nat>)
    requires n <= |s|
  {
    if n == 0 then []
    else if keep(s[n - 1]) then Places(keep, s, n - 1) + [n - 1]
    else Places(keep, s, n - 1)
  }

  /** p names the places among the first n of what is kept, in order, and ys is what stands there. */
  ghost predicate ArePlaces<T>(keep: T -> bool, s: seq<T>, n: nat, p: seq<nat>, ys: seq<T>)
    requires n <= |s|
  {
    && Ascending(p) && |p| == |ys|
    && (forall a :: 0 <= a < |p| ==> p[a] < n && ys[a] == s[p[a]])
    && (forall i: nat :: i < n && keep(s[i]) <==> i in p)
  }

  lemma PlacesStep<T>(keep: T -> bool, s: seq<T>, n: nat, p: seq<nat>, ys: seq<T>)
    requires 0 < n <= |s| && ArePlaces(keep, s, n - 1, p, ys)
    ensures if keep(s[n - 1]) then ArePlaces(keep, s, n, p + [n - 1], ys + [s[n - 1]]) else ArePlaces(keep, s, n, p, ys)
  {
    var last := n - 1;
    assert last !in p;
    forall i: nat ensures i in p + [last] <==> i in p || i == last {}
  }

  lemma {:induction false} PlacesAre<T>(keep: T -> bool, s: seq<T>, n: nat)
    requires n <= |s|
    ensures ArePlaces(keep, s, n, Places(keep, s, n), Filtered(keep, s, n))
  {
    if n > 0 {
      PlacesAre(keep, s, n - 1);
      PlacesStep(keep, s, n, Places(keep, s, n - 1), Filtered(keep, s, n - 1));
    }
  }
}
