/** What sort.SliceStable promises: the arrangement in which elements come in order and ties keep
    their places.  It exists for every strict weak order, and it is unique. */
module StableSort {
  import Sequences

  /** A less function fit for sorting: "not before, either way" is an equivalence. */
  ghost predicate StrictWeakOrder<T(!new)>(before: (T, T) -> bool) {
    && (forall x :: !before(x, x))
    && (forall x, y, z :: before(x, y) && before(y, z) ==> before(x, z))
    && (forall x, y, z :: before(x, z) ==> before(x, y) || before(y, z))
  }

  /** Element i of xs must come before element j. */
  predicate Earlier<T>(xs: seq<T>, before: (T, T) -> bool, i: nat, j: nat)
    requires i < |xs| && j < |xs|
  {
    before(xs[i], xs[j]) || (!before(xs[j], xs[i]) && i < j)
  }

  predicate InRange(p: seq<nat>, n: nat) {
    forall a :: 0 <= a < |p| ==> p[a] < n
  }

  /** Every later place holds an element that must come later: in particular no place repeats. */
  predicate InOrder<T>(xs: seq<T>, before: (T, T) -> bool, p: seq<nat>)
    requires InRange(p, |xs|)
  {
    forall a, b :: 0 <= a < b < |p| ==> Earlier(xs, before, p[a], p[b])
  }

  function Arranged<T>(xs: seq<T>, p: seq<nat>): (ys: seq<T>)
    requires InRange(p, |xs|)
    ensures |ys| == |p| && forall a :: 0 <= a < |p| ==> ys[a] == xs[p[a]]
  {
    seq(|p|, a requires 0 <= a < |p| => xs[p[a]])
  }

  /** p names the places of xs, all of them, in stable order. */
  ghost predicate StableOrder<T>(xs: seq<T>, before: (T, T) -> bool, p: seq<nat>) {
    && InRange(p, |xs|) && InOrder(xs, before, p)
    && (forall i: nat :: i < |xs| ==> i in p)
  }

  ghost predicate IsStableSort<T>(xs: seq<T>, before: (T, T) -> bool, ys: seq<T>) {
    exists p :: StableOrder(xs, before, p) && ys == Arranged(xs, p)
  }

  // ---------------------------------------------------------------- existence

  /** Insert place x after every place it need not precede. */
  function InsertPlace<T>(xs: seq<T>, before: (T, T) -> bool, p: seq<nat>, x: nat): seq<nat>
    requires InRange(p, |xs|) && x < |xs|
  {
    if p == [] || !before(xs[x], xs[p[|p| - 1]]) then p + [x]
    else InsertPlace(xs, before, p[..|p| - 1], x) + [p[|p| - 1]]
  }

  lemma {:induction false} InsertPlaceIs<T>(xs: seq<T>, before: (T, T) -> bool, p: seq<nat>, x: nat)
    requires InRange(p, |xs|) && x < |xs|
    ensures InRange(InsertPlace(xs, before, p, x), |xs|)
    ensures forall i :: i in InsertPlace(xs, before, p, x) <==> i in p || i == x
    ensures |InsertPlace(xs, before, p, x)| == |p| + 1
  {
    if !(p == [] || !before(xs[x], xs[p[|p| - 1]])) {
      InsertPlaceIs(xs, before, p[..|p| - 1], x);
      assert p == p[..|p| - 1] + [p[|p| - 1]];
    }
  }

  lemma WeakOrderAt<T(!new)>(before: (T, T) -> bool, x: T, y: T, z: T)
    requires StrictWeakOrder(before)
    ensures !before(x, x) && (before(x, y) && before(y, z) ==> before(x, z)) && (before(x, z) ==> before(x, y) || before(y, z))
  {
  }

  lemma InOrderAppend<T>(xs: seq<T>, before: (T, T) -> bool, p: seq<nat>, x: nat)
    requires InRange(p, |xs|) && x < |xs| && InOrder(xs, before, p)
    requires forall i :: i in p ==> Earlier(xs, before, i, x)
    ensures InRange(p + [x], |xs|) && InOrder(xs, before, p + [x])
  {
  }

  /** Before the last place that stays, nothing precedes x. */
  lemma NotBeforeAny<T(!new)>(xs: seq<T>, before: (T, T) -> bool, p: seq<nat>, x: nat)
    requires StrictWeakOrder(before) && InRange(p, |xs|) && x < |xs| && InOrder(xs, before, p)
    requires p != [] && !before(xs[x], xs[p[|p| - 1]])
    requires forall i :: i in p ==> i < x
    ensures forall i :: i in p ==> Earlier(xs, before, i, x)
  {
    var last := p[|p| - 1];
    forall i | i in p ensures Earlier(xs, before, i, x) {
      var a :| 0 <= a < |p| && p[a] == i;
      assert a < |p| - 1 ==> Earlier(xs, before, p[a], p[|p| - 1]);
      WeakOrderAt(before, xs[x], xs[last], xs[i]);
      WeakOrderAt(before, xs[i], xs[last], xs[i]);
    }
  }

  lemma {:induction false} InsertPlaceSorts<T(!new)>(xs: seq<T>, before: (T, T) -> bool, p: seq<nat>, x: nat)
    requires StrictWeakOrder(before) && InRange(p, |xs|) && x < |xs| && InOrder(xs, before, p)
    requires forall i :: i in p ==> i < x
    ensures InRange(InsertPlace(xs, before, p, x), |xs|) && InOrder(xs, before, InsertPlace(xs, before, p, x))
  {
    if p == [] {
      InOrderAppend(xs, before, p, x);
    } else if !before(xs[x], xs[p[|p| - 1]]) {
      NotBeforeAny(xs, before, p, x);
      InOrderAppend(xs, before, p, x);
    } else {
      var init, last := p[..|p| - 1], p[|p| - 1];
      forall i | i in init ensures i < x && Earlier(xs, before, i, last) {
        var a :| 0 <= a < |init| && init[a] == i;
        assert i in p && Earlier(xs, before, p[a], p[|p| - 1]);
      }
      InsertPlaceSorts(xs, before, init, x);
      InsertPlaceIs(xs, before, init, x);
      InOrderAppend(xs, before, InsertPlace(xs, before, init, x), last);
    }
  }

  /** The first n places in stable order. */
  function Places<T>(xs: seq<T>, before: (T, T) -> bool, n: nat): (p: seq<nat>)
    requires n <= |xs|
    ensures InRange(p, |xs|)
  {
    if n == 0 then []
    else
      InsertPlaceIs(xs, before, Places(xs, before, n - 1), n - 1);
      InsertPlace(xs, before, Places(xs, before, n - 1), n - 1)
  }

  function Sort<T>(xs: seq<T>, before: (T, T) -> bool): seq<T> {
    Arranged(xs, Places(xs, before, |xs|))
  }

  /** p holds the first n places, in stable order. */
  ghost predicate FirstPlaces<T>(xs: seq<T>, before: (T, T) -> bool, n: nat, p: seq<nat>) {
    && |p| == n && InRange(p, |xs|) && InOrder(xs, before, p)
    && (forall i: nat :: i in p <==> i < n)
  }

  lemma OnePlaceMore<T(!new)>(xs: seq<T>, before: (T, T) -> bool, p: seq<nat>, n: nat)
    requires n < |xs| && StrictWeakOrder(before) && FirstPlaces(xs, before, n, p)
    ensures FirstPlaces(xs, before, n + 1, InsertPlace(xs, before, p, n))
  {
    InsertPlaceSorts(xs, before, p, n);
    InsertPlaceIs(xs, before, p, n);
  }

  lemma {:induction false} PlacesAre<T(!new)>(xs: seq<T>, before: (T, T) -> bool, n: nat)
    requires n <= |xs| && StrictWeakOrder(before)
    ensures FirstPlaces(xs, before, n, Places(xs, before, n))
  {
    if n > 0 {
      PlacesAre(xs, before, n - 1);
      OnePlaceMore(xs, before, Places(xs, before, n - 1), n - 1);
    }
  }

  lemma SortIsStable<T(!new)>(xs: seq<T>, before: (T, T) -> bool)
    requires StrictWeakOrder(before)
    ensures IsStableSort(xs, before, Sort(xs, before))
  {
    PlacesAre(xs, before, |xs|);
    assert StableOrder(xs, before, Places(xs, before, |xs|));
  }

  lemma {:induction false} PlacesLength<T>(xs: seq<T>, before: (T, T) -> bool, n: nat)
    requires n <= |xs|
    ensures |Places(xs, before, n)| == n
  {
    if n > 0 {
      PlacesLength(xs, before, n - 1);
      InsertPlaceIs(xs, before, Places(xs, before, n - 1), n - 1);
    }
  }

  lemma SortLength<T>(xs: seq<T>, before: (T, T) -> bool)
    ensures |Sort(xs, before)| == |xs|
  {
    PlacesLength(xs, before, |xs|);
  }

  /** Nothing stands before an element that it must follow. */
  lemma SortIsInOrder<T(!new)>(xs: seq<T>, before: (T, T) -> bool, a: nat, b: nat)
    requires StrictWeakOrder(before) && a < b < |Sort(xs, before)|
    ensures !before(Sort(xs, before)[b], Sort(xs, before)[a])
  {
    var p := Places(xs, before, |xs|);
    PlacesAre(xs, before, |xs|);
    assert Earlier(xs, before, p[a], p[b]);
    WeakOrderAt(before, xs[p[a]], xs[p[b]], xs[p[a]]);
  }

  // ---------------------------------------------------------------- permutation

  lemma {:induction false} InsertPlaceCounts<T>(xs: seq<T>, before: (T, T) -> bool, p: seq<nat>, x: nat)
    requires InRange(p, |xs|) && x < |xs|
    ensures InRange(InsertPlace(xs, before, p, x), |xs|)
    ensures multiset(Arranged(xs, InsertPlace(xs, before, p, x))) == multiset(Arranged(xs, p)) + multiset{xs[x]}
  {
    InsertPlaceIs(xs, before, p, x);
    if p == [] || !before(xs[x], xs[p[|p| - 1]]) {
      assert Arranged(xs, p + [x]) == Arranged(xs, p) + [xs[x]];
    } else {
      var init, last := p[..|p| - 1], p[|p| - 1];
      InsertPlaceCounts(xs, before, init, x);
      assert Arranged(xs, p) == Arranged(xs, init) + [xs[last]];
      assert Arranged(xs, InsertPlace(xs, before, p, x)) == Arranged(xs, InsertPlace(xs, before, init, x)) + [xs[last]];
    }
  }

  /** What stands at the first n places. */
  ghost function Sorted<T>(xs: seq<T>, before: (T, T) -> bool, n: nat): multiset<T>
    requires n <= |xs|
  {
    multiset(Arranged(xs, Places(xs, before, n)))
  }

  lemma SortedStep<T>(xs: seq<T>, before: (T, T) -> bool, n: nat)
    requires 0 < n <= |xs|
    ensures Sorted(xs, before, n) == Sorted(xs, before, n - 1) + multiset{xs[n - 1]}
  {
    InsertPlaceCounts(xs, before, Places(xs, before, n - 1), n - 1);
  }

  lemma {:induction false} PlacesCount<T>(xs: seq<T>, before: (T, T) -> bool, n: nat)
    requires n <= |xs|
    ensures Sorted(xs, before, n) == multiset(xs[..n])
  {
    if n > 0 {
      PlacesCount(xs, before, n - 1);
      SortedStep(xs, before, n);
      Sequences.PrefixGrows(xs, n);
    } else {
      assert Places(xs, before, 0) == [];
    }
  }

  /** Sorting loses nothing and makes nothing up. */
  lemma SortIsPermutation<T>(xs: seq<T>, before: (T, T) -> bool)
    ensures multiset(Sort(xs, before)) == multiset(xs)
  {
    PlacesCount(xs, before, |xs|);
    assert xs[..|xs|] == xs;
  }

  // ---------------------------------------------------------------- uniqueness

  lemma NotBothEarlier<T(!new)>(xs: seq<T>, before: (T, T) -> bool, i: nat, j: nat)
    requires StrictWeakOrder(before) && i < |xs| && j < |xs|
    ensures !(Earlier(xs, before, i, j) && Earlier(xs, before, j, i))
  {
    WeakOrderAt(before, xs[i], xs[j], xs[i]);
  }

  lemma FirstIsSame<T(!new)>(xs: seq<T>, before: (T, T) -> bool, p: seq<nat>, q: seq<nat>)
    requires StrictWeakOrder(before) && InRange(p, |xs|) && InRange(q, |xs|) && InOrder(xs, before, p) && InOrder(xs, before, q)
    requires (forall i :: i in p <==> i in q) && p != []
    ensures q != [] && p[0] == q[0]
  {
    assert p[0] in p;
    var k :| 0 <= k < |q| && q[k] == p[0];
    assert q[0] in q;
    var m :| 0 <= m < |p| && p[m] == q[0];
    assert k > 0 ==> Earlier(xs, before, q[0], q[k]);
    assert m > 0 ==> Earlier(xs, before, p[0], p[m]);
    NotBothEarlier(xs, before, q[0], p[0]);
  }

  lemma {:induction false} OrderIsUnique<T(!new)>(xs: seq<T>, before: (T, T) -> bool, p: seq<nat>, q: seq<nat>)
    requires StrictWeakOrder(before) && InRange(p, |xs|) && InRange(q, |xs|) && InOrder(xs, before, p) && InOrder(xs, before, q)
    requires forall i :: i in p <==> i in q
    ensures p == q
    decreases |p|
  {
    if p == [] {
      SomeMember(q);
    } else {
      FirstIsSame(xs, before, p, q);
      NoRepeat(xs, before, p);
      NoRepeat(xs, before, q);
      assert p == [p[0]] + p[1..] && q == [q[0]] + q[1..];
      forall i ensures i in p[1..] <==> i in q[1..] {
        assert i in p <==> i == p[0] || i in p[1..];
        assert i in q <==> i == q[0] || i in q[1..];
      }
      OrderIsUnique(xs, before, p[1..], q[1..]);
    }
  }

  lemma SomeMember(q: seq<nat>)
    ensures q == [] || exists i :: i in q
  {
    if q != [] { assert q[0] in q; }
  }

  lemma NoRepeat<T(!new)>(xs: seq<T>, before: (T, T) -> bool, p: seq<nat>)
    requires StrictWeakOrder(before) && InRange(p, |xs|) && InOrder(xs, before, p) && p != []
    ensures p[0] !in p[1..]
  {
    forall a | 1 <= a < |p| ensures p[a] != p[0] {
      assert Earlier(xs, before, p[0], p[a]);
    }
  }

  /** There is only one stable sort. */
  lemma StableSortIsUnique<T(!new)>(xs: seq<T>, before: (T, T) -> bool, ys: seq<T>, zs: seq<T>)
    requires StrictWeakOrder(before) && IsStableSort(xs, before, ys) && IsStableSort(xs, before, zs)
    ensures ys == zs
  {
    var p :| StableOrder(xs, before, p) && ys == Arranged(xs, p);
    var q :| StableOrder(xs, before, q) && zs == Arranged(xs, q);
    OrderIsUnique(xs, before, p, q);
  }
}
