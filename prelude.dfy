/** Small building blocks shared by every module: optional values and
    results, the square-root oracle, and the JavaScript array/string helpers
    (`slice(0, end)`, `join`, `split`) that the application code leans on. */
module Prelude {

  datatype Option<+T> = None | Some(value: T)

  /** A value or the message of the `Error` that was thrown or returned. */
  datatype Result<+T> = Ok(value: T) | Err(message: string)

  /** `sqrt` behaves as `Math.sqrt` without rounding: on a non-negative
      argument it returns the non-negative square root. Every member that
      needs a square root takes the function as a parameter. */
  ghost predicate IsSqrt(sqrt: real -> real)
  {
    forall x: real :: 0.0 <= x ==> 0.0 <= sqrt(x) && sqrt(x) * sqrt(x) == x
  }

  function Min(a: int, b: int): int { if a <= b then a else b }

  function Max(a: int, b: int): int { if a <= b then b else a }

  /** The length of `Array.prototype.slice(0, end)` on an array of length
      `n`: a negative `end` counts from the back, and the result is clamped to
      `[0, n]`. */
  function SliceLength(n: nat, end: int): (k: nat)
    ensures k <= n
    ensures 0 <= end ==> k == Min(end, n)
    ensures end < 0 ==> k == Max(n + end, 0)
  {
    if end < 0 then Max(n + end, 0) else Min(end, n)
  }

  /** `s.slice(0, end)`: a prefix of `s`. */
  function SliceTo<T>(s: seq<T>, end: int): (r: seq<T>)
    ensures |r| == SliceLength(|s|, end)
    ensures r <= s
  {
    s[..SliceLength(|s|, end)]
  }

  /** `s.filter(keep)`: the elements that pass, in their original order.
      `FilterSpec` states which ones those are. */
  function Filter<T>(s: seq<T>, keep: T -> bool): (r: seq<T>)
    ensures |r| <= |s|
  {
    if |s| == 0 then []
    else (if keep(s[0]) then [s[0]] else []) + Filter(s[1..], keep)
  }

  /** `filter` keeps exactly the elements that pass, each no more often
      than it occurs. */
  lemma {:induction false} FilterSpec<T>(s: seq<T>, keep: T -> bool)
    ensures forall x :: x in Filter(s, keep) <==> x in s && keep(x)
    ensures multiset(Filter(s, keep)) <= multiset(s)
  {
    if |s| > 0 {
      FilterSpec(s[1..], keep);
      assert s == [s[0]] + s[1..];
    }
  }

  /** `s.map(f)`. */
  function Map<A, B>(s: seq<A>, f: A -> B): (r: seq<B>)
    ensures |r| == |s|
    ensures forall i | 0 <= i < |s| :: r[i] == f(s[i])
  {
    seq(|s|, i requires 0 <= i < |s| => f(s[i]))
  }

  /** Slicing commutes with `map`. */
  lemma MapSliceTo<A, B>(s: seq<A>, f: A -> B, end: int)
    ensures Map(SliceTo(s, end), f) == SliceTo(Map(s, f), end)
  {
  }

  /** A prefix holds no more of any element than the whole sequence. */
  lemma PrefixMultiset<T>(s: seq<T>, end: int)
    ensures multiset(SliceTo(s, end)) <= multiset(s)
  {
    var k := SliceLength(|s|, end);
    assert s == s[..k] + s[k..];
  }

  /** An element of a sub-multiset occurs in the larger sequence. */
  lemma SubMultisetMember<T>(a: seq<T>, b: seq<T>, x: T)
    requires multiset(a) <= multiset(b) && x in a
    ensures x in b
  {
    assert x in multiset(a);
  }

  /** `parts.join(sep)`. */
  function Join(parts: seq<string>, sep: string): string
  {
    if |parts| == 0 then ""
    else if |parts| == 1 then parts[0]
    else parts[0] + sep + Join(parts[1..], sep)
  }

  /** `a + b` starts with `a` and ends with `b`. */
  lemma Concat<T>(a: seq<T>, b: seq<T>)
    ensures a <= a + b && (a + b)[|a|..] == b && (a + b)[|a + b| - |b|..] == b
  {
  }

  /** A non-empty join starts with its first part. */
  lemma JoinFirst(parts: seq<string>, sep: string)
    requires |parts| > 0
    ensures parts[0] <= Join(parts, sep)
  {
  }

  /** `s.split(c)` for a one-character separator: the pieces between
      occurrences of `c`, possibly empty, always at least one. */
  function SplitOn(s: string, c: char): (pieces: seq<string>)
    ensures |pieces| >= 1
    ensures forall i | 0 <= i < |pieces| :: c !in pieces[i]
  {
    if |s| == 0 then [""]
    else
      var rest := SplitOn(s[1..], c);
      if s[0] == c then [""] + rest
      else [[s[0]] + rest[0]] + rest[1..]
  }

  /** Splitting a joined list at a separator that none of the parts
      contains gives the parts back. */
  lemma {:induction false} SplitJoin(parts: seq<string>, c: char)
    requires |parts| >= 1
    requires forall i | 0 <= i < |parts| :: c !in parts[i]
    ensures SplitOn(Join(parts, [c]), c) == parts
  {
    if |parts| == 1 {
      SplitNoSeparator(parts[0], c);
    } else {
      SplitJoin(parts[1..], c);
      SplitPrefix(parts[0], Join(parts[1..], [c]), c);
    }
  }

  lemma {:induction false} SplitNoSeparator(s: string, c: char)
    requires c !in s
    ensures SplitOn(s, c) == [s]
  {
    if |s| > 0 {
      SplitNoSeparator(s[1..], c);
      assert [s[0]] + s[1..] == s;
    }
  }

  /** Splitting at one occurrence of the separator splits each side on
      its own: the pieces of `a`, then the pieces of `b`. */
  lemma {:induction false} SplitAppend(a: string, b: string, c: char)
    ensures SplitOn(a + [c] + b, c) == SplitOn(a, c) + SplitOn(b, c)
  {
    if |a| == 0 {
      var s := a + [c] + b;
      assert s == [c] + b;
      assert s[1..] == b;
    } else {
      SplitAppend(a[1..], b, c);
      if a[0] == c {
        SplitAppendSeparator(a, b, c);
      } else {
        SplitAppendChar(a, b, c);
      }
    }
  }

  /** One step of `SplitAppend` when `a` starts with the separator. */
  lemma SplitAppendSeparator(a: string, b: string, c: char)
    requires |a| > 0 && a[0] == c
    requires SplitOn(a[1..] + [c] + b, c) == SplitOn(a[1..], c) + SplitOn(b, c)
    ensures SplitOn(a + [c] + b, c) == SplitOn(a, c) + SplitOn(b, c)
  {
    var s := a + [c] + b;
    assert s[1..] == a[1..] + [c] + b;
    assert SplitOn(s, c) == [""] + SplitOn(s[1..], c);
  }

  /** One step of `SplitAppend` when `a` starts with another character. */
  lemma SplitAppendChar(a: string, b: string, c: char)
    requires |a| > 0 && a[0] != c
    requires SplitOn(a[1..] + [c] + b, c) == SplitOn(a[1..], c) + SplitOn(b, c)
    ensures SplitOn(a + [c] + b, c) == SplitOn(a, c) + SplitOn(b, c)
  {
    var s := a + [c] + b;
    assert s[0] == a[0];
    assert s[1..] == a[1..] + [c] + b;
    var front := SplitOn(a[1..], c);
    var rest := SplitOn(s[1..], c);
    assert SplitOn(s, c) == [[a[0]] + rest[0]] + rest[1..];
    assert SplitOn(a, c) == [[a[0]] + front[0]] + front[1..];
    JoinFirstPiece([a[0]], front, SplitOn(b, c));
  }

  /** Gluing `first` to the first piece commutes with appending pieces. */
  lemma JoinFirstPiece(first: string, front: seq<string>, back: seq<string>)
    requires |front| >= 1
    ensures var rest := front + back;
      [first + rest[0]] + rest[1..] == [first + front[0]] + front[1..] + back
  {
    var rest := front + back;
    assert rest[1..] == front[1..] + back;
  }

  /** A leading separator makes an empty first piece. */
  lemma SplitBlank(rest: string, c: char)
    ensures SplitOn([c] + rest, c) == [""] + SplitOn(rest, c)
  {
    assert ([c] + rest)[1..] == rest;
  }

  /** Splitting `p + [c] + rest`, where `p` holds no `c`, yields `p` followed
      by the pieces of `rest`. */
  lemma SplitPrefix(p: string, rest: string, c: char)
    requires c !in p
    ensures SplitOn(p + [c] + rest, c) == [p] + SplitOn(rest, c)
  {
    SplitAppend(p, rest, c);
    SplitNoSeparator(p, c);
  }

  /** Moving six leading elements into one display. */
  lemma Regroup6<T>(a: T, b: T, c: T, d: T, e: T, f: T, xs: seq<T>, g: T, ys: seq<T>)
    ensures [a] + ([b] + ([c] + ([d] + ([e] + ([f] + (xs + ([g] + ys))))))) == [a, b, c, d, e, f] + xs + [g] + ys
  {
  }

  /** Moving five leading elements into one display. */
  lemma Regroup5<T>(a: T, b: T, c: T, d: T, e: T, xs: seq<T>, f: T, ys: seq<T>)
    ensures [a] + ([b] + ([c] + ([d] + ([e] + (xs + ([f] + ys)))))) == [a, b, c, d, e] + xs + [f] + ys
  {
  }

  /** The positions in `xs + ys + [z] + zs`. */
  lemma Around<T>(xs: seq<T>, ys: seq<T>, z: T, zs: seq<T>)
    ensures var all := xs + ys + [z] + zs;
      && |all| > |xs| + |ys|
      && (forall i | 0 <= i < |ys| :: all[|xs| + i] == ys[i])
      && all[|xs| + |ys|] == z
      && all[|xs| + |ys| + 1..] == zs
  {
    var all := xs + ys + [z] + zs;
    assert all[|xs| + |ys| + 1..] == zs;
  }
}
