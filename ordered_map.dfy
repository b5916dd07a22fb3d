/** The JavaScript `Map`: keys are unique and iteration follows insertion
    order; `set` on a present key replaces the value where it stands, `set`
    on an absent key appends, `delete` removes the entry and nothing else. */
module OrderedMap {
  import opened Prelude

  /** Entries in iteration order. */
  type OMap<K, V> = seq<(K, V)>

  ghost predicate DistinctKeys<K, V>(m: OMap<K, V>)
  {
    forall i, j | 0 <= i < j < |m| :: m[i].0 != m[j].0
  }

  ghost function KeySet<K, V>(m: OMap<K, V>): set<K>
  {
    set i | 0 <= i < |m| :: m[i].0
  }

  /** The position of the first entry with key `k`, if any. */
  function IndexOf<K(==), V>(m: OMap<K, V>, k: K): (r: Option<nat>)
    ensures r.Some? ==> r.value < |m| && m[r.value].0 == k
  {
    if |m| == 0 then None
    else if m[0].0 == k then Some(0)
    else match IndexOf(m[1..], k)
      case None => None
      case Some(i) => Some(i + 1)
  }

  /** `IndexOf` finds nothing exactly when no entry has key `k`, and what it
      finds is the first such entry. */
  lemma {:induction false} IndexOfSpec<K, V>(m: OMap<K, V>, k: K)
    ensures IndexOf(m, k).None? <==> k !in KeySet(m)
    ensures IndexOf(m, k).Some? ==> forall i | 0 <= i < IndexOf(m, k).value :: m[i].0 != k
  {
    if |m| > 0 && m[0].0 != k {
      IndexOfSpec(m[1..], k);
      if k in KeySet(m) {
        var i :| 0 <= i < |m| && m[i].0 == k;
        assert m[1..][i - 1].0 == k;
      }
    }
  }

  /** `map.get(k)`, or `None` for `undefined`. */
  function Get<K(==), V>(m: OMap<K, V>, k: K): Option<V>
  {
    match IndexOf(m, k)
    case None => None
    case Some(i) => Some(m[i].1)
  }

  /** `get` finds nothing exactly for an absent key. */
  lemma {:induction false} GetNone<K, V>(m: OMap<K, V>, k: K)
    ensures Get(m, k).None? <==> k !in KeySet(m)
  {
    IndexOfSpec(m, k);
  }

  /** With unique keys, the entry at position `i` is what `get` finds. */
  lemma {:induction false} GetAt<K, V>(m: OMap<K, V>, i: nat)
    requires DistinctKeys(m) && i < |m|
    ensures Get(m, m[i].0) == Some(m[i].1)
  {
    IndexOfSpec(m, m[i].0);
    assert m[i].0 in KeySet(m);
    var j := IndexOf(m, m[i].0).value;
    assert j == i by {
      if j < i || i < j { assert m[j].0 == m[i].0; }
    }
  }

  /** An absent key is found nowhere. */
  lemma {:induction false} GetAbsent<K, V>(m: OMap<K, V>, k: K)
    requires k !in KeySet(m)
    ensures Get(m, k) == None
  {
    GetNone(m, k);
  }

  /** Two maps with unique keys that agree on every entry outside position
      `i` (or everywhere, when `i` is past the end of the shorter one) and
      share their key sets agree on every lookup of a key other than `k`,
      provided `k` is the only key either holds at `i`. */
  lemma {:induction false} GetOther<K, V>(m: OMap<K, V>, r: OMap<K, V>, k': K)
    requires DistinctKeys(m) && DistinctKeys(r)
    requires k' in KeySet(m) <==> k' in KeySet(r)
    requires forall j | 0 <= j < |m| && m[j].0 == k' :: j < |r| && r[j] == m[j]
    ensures Get(r, k') == Get(m, k')
  {
    if k' in KeySet(m) {
      var j :| 0 <= j < |m| && m[j].0 == k';
      GetAt(m, j);
      GetAt(r, j);
    } else {
      GetAbsent(m, k');
      GetAbsent(r, k');
    }
  }

  lemma {:induction false} IndexOfAppend<K, V>(m: OMap<K, V>, k: K, v: V, x: K)
    ensures IndexOf(m + [(k, v)], x)
         == if IndexOf(m, x).Some? then IndexOf(m, x) else if x == k then Some(|m|) else None
  {
    if |m| > 0 {
      assert (m + [(k, v)])[1..] == m[1..] + [(k, v)];
      IndexOfAppend(m[1..], k, v, x);
    }
  }

  /** Appending an entry with a new key leaves every other lookup alone. */
  lemma {:induction false} GetAppend<K, V>(m: OMap<K, V>, k: K, v: V, x: K)
    requires k !in KeySet(m)
    ensures Get(m + [(k, v)], x) == if x == k then Some(v) else Get(m, x)
  {
    IndexOfAppend(m, k, v, x);
  }

  /** `map.set(k, v)`. What it does to the keys and lookups is stated by
      `SetSpec`. */
  function Set<K(==,!new), V>(m: OMap<K, V>, k: K, v: V): (r: OMap<K, V>)
    requires DistinctKeys(m)
    ensures DistinctKeys(r)
  {
    SetFacts(m, k, v);
    Store(m, k, v)
  }

  /** `set` adds `k` to the keys, maps it to `v`, leaves every other lookup
      alone, replaces a present entry where it stands and appends a new one. */
  lemma {:induction false} SetSpec<K(!new), V>(m: OMap<K, V>, k: K, v: V)
    requires DistinctKeys(m)
    ensures var r := Set(m, k, v);
      && KeySet(r) == KeySet(m) + {k}
      && Get(r, k) == Some(v)
      && (forall k' | k' != k :: Get(r, k') == Get(m, k'))
      && (k in KeySet(m) ==> |r| == |m| && forall i | 0 <= i < |m| && m[i].0 != k :: r[i] == m[i])
      && (k !in KeySet(m) ==> r == m + [(k, v)])
  {
    SetFacts(m, k, v);
  }

  /** After `set` the new entry is present, and every entry is the new one
      or was there before. */
  lemma SetEntries<K(!new), V>(m: OMap<K, V>, k: K, v: V)
    requires DistinctKeys(m)
    ensures (k, v) in Set(m, k, v)
    ensures forall e | e in Set(m, k, v) :: e == (k, v) || e in m
  {
    var r := Set(m, k, v);
    var i := StoreShape(m, k, v);
    assert r[i] == (k, v);
    forall e | e in r ensures e == (k, v) || e in m {
      var j :| 0 <= j < |r| && r[j] == e;
      if j != i { assert r[j] == m[j]; }
    }
  }

  function Store<K(==), V>(m: OMap<K, V>, k: K, v: V): OMap<K, V>
  {
    match IndexOf(m, k)
    case Some(i) => m[i := (k, v)]
    case None => m + [(k, v)]
  }

  lemma {:induction false} SetFacts<K(!new), V>(m: OMap<K, V>, k: K, v: V)
    requires DistinctKeys(m)
    ensures var r := Store(m, k, v);
      && DistinctKeys(r)
      && KeySet(r) == KeySet(m) + {k}
      && Get(r, k) == Some(v)
      && (forall k' | k' != k :: Get(r, k') == Get(m, k'))
      && (k in KeySet(m) ==> |r| == |m| && forall i | 0 <= i < |m| && m[i].0 != k :: r[i] == m[i])
      && (k !in KeySet(m) ==> r == m + [(k, v)])
  {
    var r := Store(m, k, v);
    var i := StoreShape(m, k, v);
    assert KeySet(r) == KeySet(m) + {k} by {
      forall x | x in KeySet(m) ensures x in KeySet(r) {
        var j :| 0 <= j < |m| && m[j].0 == x;
        assert r[j].0 == x;
      }
      assert r[i].0 == k;
    }
    GetAt(r, i);
    forall k' | k' != k ensures Get(r, k') == Get(m, k') {
      GetOther(m, r, k');
    }
  }

  /** `Store` writes `(k, v)` at position `i`, which is where `k` stood or
      one past the end, keeps every other entry, and keeps the keys
      distinct. */
  lemma {:induction false} StoreShape<K, V>(m: OMap<K, V>, k: K, v: V) returns (i: nat)
    requires DistinctKeys(m)
    ensures var r := Store(m, k, v);
      && i <= |m| && (i < |m| <==> k in KeySet(m))
      && |r| == (if i < |m| then |m| else |m| + 1)
      && r[i] == (k, v)
      && (forall j | 0 <= j < |m| && j != i :: r[j] == m[j] && m[j].0 != k)
      && DistinctKeys(r)
  {
    IndexOfSpec(m, k);
    var at := IndexOf(m, k);
    i := if at.Some? then at.value else |m|;
  }

  /** `map.delete(k)`. What it does to the keys and lookups is stated by
      `DeleteSpec`. */
  function Delete<K(==,!new), V>(m: OMap<K, V>, k: K): (r: OMap<K, V>)
    requires DistinctKeys(m)
    ensures DistinctKeys(r)
  {
    DeleteFacts(m, k);
    Remove(m, k)
  }

  /** `delete` removes `k` from the keys and leaves every other lookup alone;
      deleting an absent key changes nothing. */
  lemma {:induction false} DeleteSpec<K(!new), V>(m: OMap<K, V>, k: K)
    requires DistinctKeys(m)
    ensures var r := Delete(m, k);
      && KeySet(r) == KeySet(m) - {k}
      && Get(r, k) == None
      && (forall k' | k' != k :: Get(r, k') == Get(m, k'))
      && (k !in KeySet(m) ==> r == m)
      && (k in KeySet(m) ==> |r| == |m| - 1)
  {
    DeleteFacts(m, k);
  }

  /** Every entry after `delete` was there before. */
  lemma DeleteEntries<K(!new), V>(m: OMap<K, V>, k: K)
    requires DistinctKeys(m)
    ensures forall e | e in Delete(m, k) :: e in m
  {
    if IndexOf(m, k).Some? {
      var i := IndexOf(m, k).value;
      RemoveShape(m, k, i);
      forall e | e in Delete(m, k) ensures e in m {
        var j :| 0 <= j < |Delete(m, k)| && Delete(m, k)[j] == e;
        if j < i { assert m[j] == e; } else { assert m[j + 1] == e; }
      }
    }
  }

  function Remove<K(==), V>(m: OMap<K, V>, k: K): OMap<K, V>
  {
    match IndexOf(m, k)
    case None => m
    case Some(i) => m[..i] + m[i + 1..]
  }

  lemma {:induction false} DeleteFacts<K(!new), V>(m: OMap<K, V>, k: K)
    requires DistinctKeys(m)
    ensures var r := Remove(m, k);
      && DistinctKeys(r)
      && KeySet(r) == KeySet(m) - {k}
      && Get(r, k) == None
      && (forall k' | k' != k :: Get(r, k') == Get(m, k'))
      && (k !in KeySet(m) ==> r == m)
      && (k in KeySet(m) ==> |r| == |m| - 1)
  {
    var r := Remove(m, k);
    IndexOfSpec(m, k);
    if IndexOf(m, k).Some? {
      var i := IndexOf(m, k).value;
      RemoveShape(m, k, i);
      assert KeySet(r) == KeySet(m) - {k} by {
        forall x | x in KeySet(m) - {k} ensures x in KeySet(r) {
          var j :| 0 <= j < |m| && m[j].0 == x;
          if j < i { assert r[j].0 == x; } else { assert r[j - 1].0 == x; }
        }
      }
      GetAbsent(r, k);
      forall k' | k' != k ensures Get(r, k') == Get(m, k') {
        RemoveGet(m, k, i, k');
      }
    }
  }

  /** Removing position `i` shifts every later entry down by one and keeps
      the keys distinct. */
  lemma {:induction false} RemoveShape<K, V>(m: OMap<K, V>, k: K, i: nat)
    requires DistinctKeys(m) && IndexOf(m, k) == Some(i)
    ensures var r := Remove(m, k);
      && |r| == |m| - 1
      && (forall j | 0 <= j < |r| :: r[j] == if j < i then m[j] else m[j + 1])
      && DistinctKeys(r)
  {
  }

  lemma {:induction false} RemoveGet<K, V>(m: OMap<K, V>, k: K, i: nat, k': K)
    requires DistinctKeys(m) && IndexOf(m, k) == Some(i) && k' != k
    ensures Get(Remove(m, k), k') == Get(m, k')
  {
    var r := Remove(m, k);
    RemoveShape(m, k, i);
    if k' in KeySet(m) {
      var j :| 0 <= j < |m| && m[j].0 == k';
      GetAt(m, j);
      if j < i { GetAt(r, j); } else { GetAt(r, j - 1); }
    } else {
      GetAbsent(m, k');
      assert k' !in KeySet(r);
      GetAbsent(r, k');
    }
  }
}
