/** A stable sort, as the library sorts of the sources behave. */
module Sorting {
  ghost predicate TotalOrder<T(!new)>(leq: (T, T) -> bool) {
    && (forall a, b :: leq(a, b) || leq(b, a))
    && (forall a, b, c :: leq(a, b) && leq(b, c) ==> leq(a, c))
  }

  ghost predicate SortedBy<T>(leq: (T, T) -> bool, xs: seq<T>) {
    forall i, j | 0 <= i < j < |xs| :: leq(xs[i], xs[j])
  }

  /** Puts `x` in front of the first element that it does not exceed. */
  function Insert<T>(leq: (T, T) -> bool, x: T, xs: seq<T>): seq<T> {
    if xs == [] then [x]
    else if leq(x, xs[0]) then [x] + xs
    else [xs[0]] + Insert(leq, x, xs[1..])
  }

  /** The distinct elements, each at its first place. */
  function Deduped<T(==)>(xs: seq<T>): seq<T> {
    if xs == [] then []
    else
      var front, last := Deduped(xs[..|xs| - 1]), xs[|xs| - 1];
      if last in front then front else front + [last]
  }

  lemma {:induction false} DedupedKeeps<T>(xs: seq<T>, x: T)
    ensures x in Deduped(xs) <==> x in xs
    ensures forall i, j | 0 <= i < j < |Deduped(xs)| :: Deduped(xs)[i] != Deduped(xs)[j]
    decreases |xs|
  {
    if xs != [] {
      DedupedKeeps(xs[..|xs| - 1], x);
      assert xs == xs[..|xs| - 1] + [xs[|xs| - 1]];
    }
  }

  /** Where an element stands first. */
  function FirstPlace<T(==)>(xs: seq<T>, x: T): (place: nat)
    requires x in xs
    ensures place < |xs| && xs[place] == x
    ensures forall i | 0 <= i < place :: xs[i] != x
  {
    if xs[0] == x then 0 else 1 + FirstPlace(xs[1..], x)
  }

  lemma FirstPlaceIs<T>(xs: seq<T>, x: T, place: nat)
    requires place < |xs| && xs[place] == x && forall i | 0 <= i < place :: xs[i] != x
    ensures x in xs && FirstPlace(xs, x) == place
  {}

  /** The distinct elements come in the order of their first places. */
  lemma {:induction false} DedupedInOrder<T>(xs: seq<T>, i: nat, j: nat)
    requires i < j < |Deduped(xs)|
    ensures Deduped(xs)[i] in xs && Deduped(xs)[j] in xs
    ensures FirstPlace(xs, Deduped(xs)[i]) < FirstPlace(xs, Deduped(xs)[j])
    decreases |xs|
  {
    hide FirstPlace;
    var front, last := xs[..|xs| - 1], xs[|xs| - 1];
    var x, y := Deduped(xs)[i], Deduped(xs)[j];
    DedupedKeeps(xs, x);
    DedupedKeeps(xs, y);
    DedupedKeeps(front, x);
    DedupedKeeps(front, y);
    DedupedKeeps(front, last);
    FirstPlaceIs(xs, x, FirstPlace(front, x));
    if y in front {
      FirstPlaceIs(xs, y, FirstPlace(front, y));
      DedupedInOrder(front, i, j);
    } else {
      FirstPlaceIs(xs, y, |front|);
    }
  }

  function Sort<T>(leq: (T, T) -> bool, xs: seq<T>): seq<T> {
    if xs == [] then [] else Insert(leq, xs[0], Sort(leq, xs[1..]))
  }

  lemma {:induction false} InsertKeepsAll<T>(leq: (T, T) -> bool, x: T, xs: seq<T>)
    ensures multiset(Insert(leq, x, xs)) == multiset(xs) + multiset{x}
    ensures |Insert(leq, x, xs)| == |xs| + 1
    decreases |xs|
  {
    if xs != [] {
      assert xs == [xs[0]] + xs[1..];
      if !leq(x, xs[0]) {
        InsertKeepsAll(leq, x, xs[1..]);
      }
    }
  }

  /** Under any comparison the sort keeps all elements. */
  lemma {:induction false} SortKeeps<T>(leq: (T, T) -> bool, xs: seq<T>)
    ensures multiset(Sort(leq, xs)) == multiset(xs)
    decreases |xs|
  {
    if xs != [] {
      SortKeeps(leq, xs[1..]);
      InsertKeepsAll(leq, xs[0], Sort(leq, xs[1..]));
      assert xs == [xs[0]] + xs[1..];
    }
  }

  lemma {:induction false} InsertIsSorted<T(!new)>(leq: (T, T) -> bool, x: T, xs: seq<T>)
    requires TotalOrder(leq) && SortedBy(leq, xs)
    ensures SortedBy(leq, Insert(leq, x, xs))
    decreases |xs|
  {
    if xs != [] && !leq(x, xs[0]) {
      var rest := Insert(leq, x, xs[1..]);
      InsertIsSorted(leq, x, xs[1..]);
      InsertKeepsAll(leq, x, xs[1..]);
      forall i | 0 <= i < |rest| ensures leq(xs[0], rest[i]) {
        assert rest[i] in multiset(rest);
        assert rest[i] == x || rest[i] in xs[1..];
      }
    }
  }

  /** The sort is a rearrangement in ascending order. */
  lemma {:induction false} SortSorts<T(!new)>(leq: (T, T) -> bool, xs: seq<T>)
    requires TotalOrder(leq)
    ensures SortedBy(leq, Sort(leq, xs)) && multiset(Sort(leq, xs)) == multiset(xs)
    ensures |Sort(leq, xs)| == |xs|
    decreases |xs|
  {
    hide Insert, TotalOrder;
    if xs != [] {
      SortSorts(leq, xs[1..]);
      InsertIsSorted(leq, xs[0], Sort(leq, xs[1..]));
      InsertKeepsAll(leq, xs[0], Sort(leq, xs[1..]));
      assert xs == [xs[0]] + xs[1..];
    }
  }

  // ---------------------------------------------------------------- equal elements

  /** `places` tells for each element of `ys` where it stands in `xs`: `ys` has every element of `xs`
      once, in ascending order, and equal ones in the order in which `xs` has them. There is only
      one such list. */
  ghost predicate Arranges<T>(leq: (T, T) -> bool, xs: seq<T>, ys: seq<T>, places: seq<nat>) {
    && |places| == |ys| == |xs|
    && (forall i | 0 <= i < |ys| :: places[i] < |xs| && ys[i] == xs[places[i]])
    && (forall k | 0 <= k < |xs| :: k in places)
    && (forall i, j | 0 <= i < j < |ys| :: places[i] != places[j])
    && (forall i, j | 0 <= i < j < |ys| :: leq(ys[i], ys[j]))
    && (forall i, j | 0 <= i < j < |ys| && leq(ys[j], ys[i]) :: places[i] < places[j])
  }

  lemma {:induction false} InsertAt<T>(leq: (T, T) -> bool, x: T, xs: seq<T>) returns (at: nat)
    ensures at <= |xs| && Insert(leq, x, xs) == xs[..at] + [x] + xs[at..]
    ensures forall i | 0 <= i < at :: !leq(x, xs[i])
    ensures at < |xs| ==> leq(x, xs[at])
    decreases |xs|
  {
    at := 0;
    if xs != [] && !leq(x, xs[0]) {
      var below := InsertAt(leq, x, xs[1..]);
      at := below + 1;
      assert [xs[0]] + xs[1..][..below] == xs[..at] && xs[1..][below..] == xs[at..];
      assert [xs[0]] + (xs[1..][..below] + [x] + xs[1..][below..])
          == ([xs[0]] + xs[1..][..below]) + [x] + xs[1..][below..];
    }
  }

  function Shifted(places: seq<nat>): (s: seq<nat>)
    ensures |s| == |places| && forall i | 0 <= i < |s| :: s[i] == places[i] + 1
  {
    seq(|places|, i requires 0 <= i < |places| => places[i] + 1)
  }

  /** An element put in front of everything that it does not exceed keeps the arrangement. */
  lemma ArrangesOneMore<T(!new)>(leq: (T, T) -> bool, x: T, xs: seq<T>, ys: seq<T>, places: seq<nat>, at: nat)
    requires TotalOrder(leq) && Arranges(leq, xs, ys, places) && at <= |ys|
    requires forall i | 0 <= i < at :: !leq(x, ys[i])
    requires at < |ys| ==> leq(x, ys[at])
    ensures Arranges(leq, [x] + xs, ys[..at] + [x] + ys[at..],
                     Shifted(places)[..at] + [0] + Shifted(places)[at..])
  {
    var s := Shifted(places);
    var all, sorted, where := [x] + xs, ys[..at] + [x] + ys[at..], s[..at] + [0] + s[at..];
    forall k: nat | k < |all| ensures k in where {
      PlaceKept(places, at, k);
    }
    forall i | 0 <= i < |sorted| ensures where[i] < |all| && sorted[i] == all[where[i]] {
      Spliced(x, ys, at, i);
      Spliced(0, s, at, i);
    }
    forall i, j | 0 <= i < j < |sorted|
      ensures where[i] != where[j] && leq(sorted[i], sorted[j])
      ensures leq(sorted[j], sorted[i]) ==> where[i] < where[j]
    {
      PairInOrder(leq, x, ys, places, at, i, j);
    }
  }

  lemma PlaceKept(places: seq<nat>, at: nat, k: nat)
    requires at <= |places| && (k == 0 || (k - 1) as nat in places)
    ensures k in Shifted(places)[..at] + [0] + Shifted(places)[at..]
  {
    var s := Shifted(places);
    var where := s[..at] + [0] + s[at..];
    if k == 0 {
      assert where[at] == 0;
    } else {
      var i :| 0 <= i < |places| && places[i] == k - 1;
      assert s[i] == k && where[if i < at then i else i + 1] == k;
    }
  }

  lemma PairInOrder<T(!new)>(leq: (T, T) -> bool, x: T, ys: seq<T>, places: seq<nat>, at: nat, i: nat, j: nat)
    requires TotalOrder(leq) && |places| == |ys| && at <= |ys| && i < j <= |ys|
    requires forall i, j | 0 <= i < j < |ys| :: places[i] != places[j]
    requires forall i, j | 0 <= i < j < |ys| :: leq(ys[i], ys[j])
    requires forall i, j | 0 <= i < j < |ys| && leq(ys[j], ys[i]) :: places[i] < places[j]
    requires forall i | 0 <= i < at :: !leq(x, ys[i])
    requires at < |ys| ==> leq(x, ys[at])
    ensures var sorted, s := ys[..at] + [x] + ys[at..], Shifted(places);
      var where := s[..at] + [0] + s[at..];
      && where[i] != where[j] && leq(sorted[i], sorted[j])
      && (leq(sorted[j], sorted[i]) ==> where[i] < where[j])
  {
    var k, l := if i < at then i else i - 1, if j < at then j else j - 1;
    Spliced(x, ys, at, i);
    Spliced(x, ys, at, j);
    Spliced(0, Shifted(places), at, i);
    Spliced(0, Shifted(places), at, j);
    if i == at {
      assert leq(x, ys[at]) && (l == at || leq(ys[at], ys[l]));
      assert leq(x, ys[l]);
    } else if j == at {
      assert !leq(x, ys[k]) && leq(ys[k], x);
    } else {
      assert k < l && places[k] != places[l] && leq(ys[k], ys[l]);
    }
  }

  lemma Spliced<T>(x: T, xs: seq<T>, at: nat, i: nat)
    requires at <= |xs| && i <= |xs|
    ensures (xs[..at] + [x] + xs[at..])[i] == if i < at then xs[i] else if i == at then x else xs[i - 1]
  {}

  /** The sort is stable. */
  lemma {:induction false} SortIsStable<T(!new)>(leq: (T, T) -> bool, xs: seq<T>) returns (places: seq<nat>)
    requires TotalOrder(leq)
    ensures Arranges(leq, xs, Sort(leq, xs), places)
    decreases |xs|
  {
    hide Insert, TotalOrder;
    if xs == [] {
      places := [];
    } else {
      var below := SortIsStable(leq, xs[1..]);
      var at := InsertAt(leq, xs[0], Sort(leq, xs[1..]));
      ArrangesOneMore(leq, xs[0], xs[1..], Sort(leq, xs[1..]), below, at);
      places := Shifted(below)[..at] + [0] + Shifted(below)[at..];
      assert xs == [xs[0]] + xs[1..];
    }
  }

  /** Two arrangements of one list are the same. */
  lemma OneArrangement<T(!new)>(leq: (T, T) -> bool, xs: seq<T>, ys: seq<T>, zs: seq<T>, p: seq<nat>, q: seq<nat>)
    requires Arranges(leq, xs, ys, p) && Arranges(leq, xs, zs, q)
    ensures ys == zs && p == q
  {
    forall i | 0 <= i < |p| ensures p[i] == q[i] {
      SamePlaces(leq, xs, ys, zs, p, q, i);
    }
  }

  lemma {:induction false} SamePlaces<T(!new)>(leq: (T, T) -> bool, xs: seq<T>, ys: seq<T>, zs: seq<T>, p: seq<nat>,
                                               q: seq<nat>, n: nat)
    requires Arranges(leq, xs, ys, p) && Arranges(leq, xs, zs, q) && n < |p|
    ensures p[n] == q[n]
    decreases n
  {
    hide Arranges;
    ArrangedLengths(leq, xs, ys, p);
    ArrangedLengths(leq, xs, zs, q);
    forall m: nat | m < n ensures p[m] == q[m] {
      SamePlaces(leq, xs, ys, zs, p, q, m);
    }
    NextPlace(leq, xs, ys, zs, p, q, n);
    NextPlace(leq, xs, zs, ys, q, p, n);
  }

  lemma ArrangedLengths<T(!new)>(leq: (T, T) -> bool, xs: seq<T>, ys: seq<T>, p: seq<nat>)
    requires Arranges(leq, xs, ys, p)
    ensures |p| == |ys| == |xs|
  {}

  /** What another arrangement has next stands at its place or later. */
  lemma NextPlace<T(!new)>(leq: (T, T) -> bool, xs: seq<T>, ys: seq<T>, zs: seq<T>, p: seq<nat>, q: seq<nat>, n: nat)
    requires Arranges(leq, xs, ys, p) && Arranges(leq, xs, zs, q) && n < |p|
    requires forall m: nat | m < n :: p[m] == q[m]
    ensures leq(ys[n], zs[n]) || p[n] == q[n]
    ensures leq(zs[n], ys[n]) ==> p[n] <= q[n]
  {
    assert q[n] in p;
    var i :| 0 <= i < |p| && p[i] == q[n];
    assert ys[i] == zs[n];
    assert n <= i;
  }
}
