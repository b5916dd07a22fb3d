/** `Array.prototype.sort` with a comparator. The ECMAScript standard
    requires the sort to be stable, and every comparator in this code base is
    a difference of keys, so the result is the unique stable ordering of the
    input. It is modelled by a stable insertion sort. `prec(a, b)` holds when
    the comparator puts `a` strictly before `b` (`compare(a, b) < 0`). */
module Sorting {
  import opened Prelude

  /** Asymmetric and negatively transitive: a strict weak order, which is
      what a comparator computed as a difference of keys gives. */
  ghost predicate StrictWeakOrder<T(!new)>(prec: (T, T) -> bool)
  {
    && (forall a, b :: prec(a, b) ==> !prec(b, a))
    && (forall a, b, c :: !prec(a, b) && !prec(b, c) ==> !prec(a, c))
  }

  /** No element is strictly before one that precedes it in `s`. */
  ghost predicate Sorted<T>(s: seq<T>, prec: (T, T) -> bool)
  {
    forall i, j | 0 <= i < j < |s| :: !prec(s[j], s[i])
  }

  /** Neither element goes strictly before the other: the comparator ties. */
  predicate Tied<T>(prec: (T, T) -> bool, a: T, b: T)
  {
    !prec(a, b) && !prec(b, a)
  }

  /** The elements of `s` that tie with `k`, in their order in `s`. */
  function TiedWith<T>(s: seq<T>, prec: (T, T) -> bool, k: T): seq<T>
  {
    if |s| == 0 then []
    else (if Tied(prec, s[0], k) then [s[0]] else []) + TiedWith(s[1..], prec, k)
  }

  /** Insert `x` in front of the first element that does not go strictly
      before it. */
  function Insert<T>(x: T, ys: seq<T>, prec: (T, T) -> bool): (r: seq<T>)
    ensures multiset(r) == multiset(ys) + multiset{x}
    ensures |r| == |ys| + 1
  {
    if |ys| == 0 then [x]
    else if prec(ys[0], x) then
      assert ys == [ys[0]] + ys[1..];
      [ys[0]] + Insert(x, ys[1..], prec)
    else [x] + ys
  }

  /** The stable sort of `s`. */
  function SortBy<T>(s: seq<T>, prec: (T, T) -> bool): (r: seq<T>)
    ensures multiset(r) == multiset(s)
    ensures |r| == |s|
  {
    if |s| == 0 then []
    else
      assert s == [s[0]] + s[1..];
      Insert(s[0], SortBy(s[1..], prec), prec)
  }

  lemma {:induction false} InsertSorted<T(!new)>(x: T, ys: seq<T>, prec: (T, T) -> bool)
    requires StrictWeakOrder(prec) && Sorted(ys, prec)
    ensures Sorted(Insert(x, ys, prec), prec)
  {
    if |ys| > 0 && prec(ys[0], x) {
      InsertSorted(x, ys[1..], prec);
      var r := Insert(x, ys, prec);
      var t := Insert(x, ys[1..], prec);
      assert r == [ys[0]] + t;
      forall j | 0 < j < |r| ensures !prec(r[j], ys[0]) {
        assert r[j] in multiset(t);
        assert r[j] in multiset(ys[1..]) + multiset{x};
        if r[j] != x {
          assert r[j] in ys[1..];
        }
      }
    }
  }

  /** The sort returns its input in an order where no element is strictly
      before an earlier one. */
  lemma {:induction false} SortBySorted<T(!new)>(s: seq<T>, prec: (T, T) -> bool)
    requires StrictWeakOrder(prec)
    ensures Sorted(SortBy(s, prec), prec)
  {
    if |s| > 0 {
      SortBySorted(s[1..], prec);
      InsertSorted(s[0], SortBy(s[1..], prec), prec);
    }
  }

  lemma {:induction false} InsertTied<T(!new)>(x: T, ys: seq<T>, prec: (T, T) -> bool, k: T)
    requires StrictWeakOrder(prec) && Sorted(ys, prec)
    ensures TiedWith(Insert(x, ys, prec), prec, k)
         == (if Tied(prec, x, k) then [x] else []) + TiedWith(ys, prec, k)
  {
    if |ys| == 0 {
    } else if prec(ys[0], x) {
      assert Sorted(ys[1..], prec);
      InsertTied(x, ys[1..], prec, k);
      var r := Insert(x, ys, prec);
      assert r[1..] == Insert(x, ys[1..], prec);
      TiedWithCons(r, prec, k);
      TiedWithCons(ys, prec, k);
      if Tied(prec, x, k) {
        // ys[0] goes before x, and x ties with k, so ys[0] goes before k.
        assert prec(ys[0], k);
        assert !Tied(prec, ys[0], k);
      } else {
        assert TiedWith(Insert(x, ys[1..], prec), prec, k) == TiedWith(ys[1..], prec, k);
      }
    } else {
      TiedWithCons([x] + ys, prec, k);
      assert ([x] + ys)[1..] == ys;
    }
  }

  lemma TiedWithCons<T>(s: seq<T>, prec: (T, T) -> bool, k: T)
    requires |s| > 0
    ensures TiedWith(s, prec, k) == (if Tied(prec, s[0], k) then [s[0]] else []) + TiedWith(s[1..], prec, k)
  {
  }

  /** Stability: for every tie class, its members appear in the sorted output
      in the same order as in the input. */
  lemma {:induction false} SortByStable<T(!new)>(s: seq<T>, prec: (T, T) -> bool, k: T)
    requires StrictWeakOrder(prec)
    ensures TiedWith(SortBy(s, prec), prec, k) == TiedWith(s, prec, k)
  {
    if |s| > 0 {
      SortByStable(s[1..], prec, k);
      SortBySorted(s[1..], prec);
      InsertTied(s[0], SortBy(s[1..], prec), prec, k);
    }
  }

  /** Sorting commutes with a map `f` that carries the order `precA` to
      `precB` on the elements involved: sorting records and then projecting
      them gives the projections sorted. */
  lemma {:induction false} SortByMap<A, B>(s: seq<A>, f: A -> B, precA: (A, A) -> bool, precB: (B, B) -> bool)
    requires forall x, y | x in s && y in s :: precA(x, y) == precB(f(x), f(y))
    ensures Map(SortBy(s, precA), f) == SortBy(Map(s, f), precB)
  {
    if |s| > 0 {
      var rest := SortBy(s[1..], precA);
      SortByMap(s[1..], f, precA, precB);
      assert Map(s, f)[1..] == Map(s[1..], f);
      forall y | y in rest ensures precA(y, s[0]) == precB(f(y), f(s[0])) {
        assert y in multiset(s[1..]);
      }
      InsertMap(s[0], rest, f, precA, precB);
    }
  }

  lemma {:induction false} InsertMap<A, B>(x: A, ys: seq<A>, f: A -> B, precA: (A, A) -> bool, precB: (B, B) -> bool)
    requires forall y | y in ys :: precA(y, x) == precB(f(y), f(x))
    ensures Map(Insert(x, ys, precA), f) == Insert(f(x), Map(ys, f), precB)
  {
    if |ys| == 0 {
      MapCons(x, [], f);
    } else if precA(ys[0], x) {
      InsertMap(x, ys[1..], f, precA, precB);
      MapCons(ys[0], Insert(x, ys[1..], precA), f);
      MapCons(ys[0], ys[1..], f);
      assert [ys[0]] + ys[1..] == ys;
    } else {
      MapCons(x, ys, f);
    }
  }

  lemma MapCons<A, B>(a: A, t: seq<A>, f: A -> B)
    ensures Map([a] + t, f) == [f(a)] + Map(t, f)
  {
  }

  /** The first `end` elements of the sort, as `sort(...).slice(0, end)`
      returns them, are in order, and whatever goes strictly before a kept
      element is kept too. */
  lemma TopSorted<T(!new)>(s: seq<T>, prec: (T, T) -> bool, end: int)
    requires StrictWeakOrder(prec)
    ensures var r := SliceTo(SortBy(s, prec), end);
      && Sorted(r, prec)
      && forall x, y | x in s && y in r && prec(x, y) :: x in r
  {
    var sorted := SortBy(s, prec);
    var r := SliceTo(sorted, end);
    SortBySorted(s, prec);
    forall x, y | x in s && y in r && prec(x, y) ensures x in r {
      assert x in multiset(sorted);
      var p :| 0 <= p < |sorted| && sorted[p] == x;
      var i :| 0 <= i < |r| && r[i] == y;
      assert p < |r|;
      assert r[p] == x;
    }
  }

  /** The elements of the slice that tie with `k` are the first of the
      input's elements that tie with `k`, in input order. */
  lemma TopStable<T(!new)>(s: seq<T>, prec: (T, T) -> bool, end: int, k: T)
    requires StrictWeakOrder(prec)
    ensures TiedWith(SliceTo(SortBy(s, prec), end), prec, k) <= TiedWith(s, prec, k)
  {
    var sorted := SortBy(s, prec);
    SortByStable(s, prec, k);
    TiedWithPrefix(sorted, prec, SliceLength(|sorted|, end), k);
  }

  lemma {:induction false} TiedWithPrefix<T>(s: seq<T>, prec: (T, T) -> bool, n: nat, k: T)
    requires n <= |s|
    ensures TiedWith(s[..n], prec, k) <= TiedWith(s, prec, k)
  {
    if n > 0 {
      TiedWithPrefix(s[1..], prec, n - 1, k);
      assert s[..n][1..] == s[1..][..n - 1];
    }
  }

  /** A sorted prefix holds the best elements: nothing left out goes strictly
      before anything kept. */
  lemma {:induction false} PrefixIsBest<T>(r: seq<T>, prec: (T, T) -> bool, n: nat)
    requires Sorted(r, prec) && n <= |r|
    ensures forall i, j | 0 <= i < n <= j < |r| :: !prec(r[j], r[i])
  {
  }

  /** `Insert` puts `x` after the elements of `ys` that go strictly before
      it, at the first that does not. */
  lemma {:induction false} InsertAt<T>(x: T, ys: seq<T>, prec: (T, T) -> bool, k: nat)
    requires k <= |ys|
    requires forall j | 0 <= j < k :: prec(ys[j], x)
    requires k < |ys| ==> !prec(ys[k], x)
    ensures Insert(x, ys, prec) == ys[..k] + [x] + ys[k..]
  {
    if k == 0 {
      assert ys[..0] + [x] + ys[0..] == [x] + ys;
    } else {
      var rest := ys[1..];
      forall j | 0 <= j < k - 1 ensures prec(rest[j], x) {
        assert rest[j] == ys[j + 1];
      }
      InsertAt(x, rest, prec, k - 1);
      assert Insert(x, ys, prec) == [ys[0]] + Insert(x, rest, prec);
      ConsSplit(ys, x, k);
    }
  }

  lemma ConsSplit<T>(ys: seq<T>, x: T, k: nat)
    requires 0 < k <= |ys|
    ensures [ys[0]] + (ys[1..][..k - 1] + [x] + ys[1..][k - 1..]) == ys[..k] + [x] + ys[k..]
  {
    assert ys[..k] == [ys[0]] + ys[1..][..k - 1];
    assert ys[k..] == ys[1..][k - 1..];
  }

  lemma SortByCons<T>(s: seq<T>, prec: (T, T) -> bool)
    requires |s| > 0
    ensures SortBy(s, prec) == Insert(s[0], SortBy(s[1..], prec), prec)
  {
  }

  /** `array.sort(compare)`, in place: an insertion sort that grows a
      sorted suffix one element at a time, exactly as `SortBy` does. */
  method SortInPlace<T>(a: array<T>, prec: (T, T) -> bool)
    modifies a
    ensures a[..] == SortBy(old(a[..]), prec)
  {
    ghost var s := a[..];
    var i := a.Length;
    while i > 0
      invariant 0 <= i <= a.Length
      invariant a[..i] == s[..i]
      invariant a[i..] == SortBy(s[i..], prec)
    {
      i := i - 1;
      ghost var before := a[..];
      assert before[i] == s[i] by {
        assert a[..i + 1][i] == s[..i + 1][i];
      }
      assert before[i + 1..] == SortBy(s[i + 1..], prec);
      assert before[..i] == s[..i] by {
        assert a[..i + 1][..i] == s[..i + 1][..i];
      }
      SortByCons(s[i..], prec);
      assert s[i..][1..] == s[i + 1..];
      InsertInPlace(a, i, prec);
    }
    assert a[..] == a[0..];
  }

  /** One step of `SortInPlace`: `a[i]` moves into the sorted suffix after
      it, shifting the elements that go strictly before it one place left. */
  method InsertInPlace<T>(a: array<T>, i: nat, prec: (T, T) -> bool)
    requires i < a.Length
    modifies a
    ensures a[..i] == old(a[..i])
    ensures a[i..] == Insert(old(a[i]), old(a[i + 1..]), prec)
  {
    var x := a[i];
    ghost var ys := a[i + 1..];
    var j := ShiftBefore(a, i, x, prec, ys);
    a[j] := x;
    InsertAt(x, ys, prec, j - i);
    ShiftedSplice(a[..], i, j, x, ys);
  }

  /** The loop of `InsertInPlace`: shifts the run of elements after `i`
      that go strictly before `x` one place left, and returns the slot it
      frees. */
  method ShiftBefore<T>(a: array<T>, i: nat, x: T, prec: (T, T) -> bool, ghost ys: seq<T>) returns (j: nat)
    requires i < a.Length && ys == a[i + 1..]
    modifies a
    ensures i <= j < a.Length
    ensures forall k | 0 <= k < i :: a[k] == old(a[k])
    ensures forall k | i <= k < j :: a[k] == ys[k - i]
    ensures forall m | 0 <= m < j - i :: prec(ys[m], x)
    ensures j - i < |ys| ==> !prec(ys[j - i], x)
    ensures forall k | j < k < a.Length :: a[k] == ys[k - i - 1]
  {
    j := i;
    while j + 1 < a.Length && prec(a[j + 1], x)
      invariant i <= j < a.Length
      invariant forall k | 0 <= k < i :: a[k] == old(a[k])
      invariant forall k | i <= k < j :: a[k] == ys[k - i]
      invariant forall m | 0 <= m < j - i :: prec(ys[m], x)
      invariant forall k | j < k < a.Length :: a[k] == ys[k - i - 1]
    {
      a[j] := a[j + 1];
      j := j + 1;
    }
  }

  /** A row that holds `ys` with `x` spliced in at `j` from position `i`
      on is `ys[..j - i] + [x] + ys[j - i..]` there. */
  lemma ShiftedSplice<T>(s: seq<T>, i: nat, j: nat, x: T, ys: seq<T>)
    requires i <= j < |s| && |ys| == |s| - i - 1
    requires forall k | i <= k < j :: s[k] == ys[k - i]
    requires s[j] == x
    requires forall k | j < k < |s| :: s[k] == ys[k - i - 1]
    ensures s[i..] == ys[..j - i] + [x] + ys[j - i..]
  {
    var n := j - i;
    var r := ys[..n] + [x] + ys[n..];
    forall k | 0 <= k < |r| ensures s[i..][k] == r[k] {
      if k < n {
        assert r[k] == ys[k];
      } else if k > n {
        assert r[k] == ys[k - 1];
      }
    }
  }
}
