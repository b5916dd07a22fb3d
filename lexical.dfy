/** The lexical side of memory ranking: term-frequency maps built from token
    lists, and the cosine similarity of two such maps computed sparsely over
    the memory's terms. Counts are JavaScript numbers, modelled as reals that
    hold whole values; the cosine is a real. */
module Lexical {
  import opened Prelude
  import opened OrderedMap
  import opened Vectors

  /** Token to number of occurrences, in first-occurrence order. */
  type Counts = OMap<string, real>

  /** `counts.get(t) ?? 0`. */
  function CountOf(m: Counts, t: string): real
  {
    match Get(m, t)
    case None => 0.0
    case Some(c) => c
  }

  /** The map `#termFrequency` holds after it has seen `tokens`. */
  function Frequencies(tokens: seq<string>): (r: Counts)
    ensures DistinctKeys(r)
  {
    if |tokens| == 0 then []
    else
      var m := Frequencies(tokens[..|tokens| - 1]);
      var t := tokens[|tokens| - 1];
      Set(m, t, CountOf(m, t) + 1.0)
  }

  /** `#termFrequency`: one pass over the tokens, bumping each count. */
  method TermFrequency(tokens: seq<string>) returns (counts: Counts)
    ensures counts == Frequencies(tokens)
  {
    counts := [];
    for i := 0 to |tokens|
      invariant counts == Frequencies(tokens[..i])
    {
      assert tokens[..i + 1][..i] == tokens[..i];
      var previous := CountOf(counts, tokens[i]);
      counts := Set(counts, tokens[i], previous + 1.0);
    }
    assert tokens[..|tokens|] == tokens;
  }

  /** Each count is the number of occurrences of its token. */
  lemma {:induction false} FrequencyIsMultiplicity(tokens: seq<string>, t: string)
    ensures CountOf(Frequencies(tokens), t) == multiset(tokens)[t] as real
  {
    if |tokens| > 0 {
      var n := |tokens| - 1;
      var prefix, last := tokens[..n], tokens[n];
      FrequencyIsMultiplicity(prefix, t);
      MultiplicitySnoc(tokens, t);
      FrequencyStep(tokens, t);
    }
  }

  /** Seeing one more token bumps its count and no other. */
  lemma {:induction false} FrequencyStep(tokens: seq<string>, t: string)
    requires |tokens| > 0
    ensures var n := |tokens| - 1;
      CountOf(Frequencies(tokens), t)
        == CountOf(Frequencies(tokens[..n]), t) + (if t == tokens[n] then 1.0 else 0.0)
  {
    var n := |tokens| - 1;
    var m := Frequencies(tokens[..n]);
    CountOfSet(m, tokens[n], CountOf(m, tokens[n]) + 1.0, t);
  }

  lemma {:induction false} MultiplicitySnoc(tokens: seq<string>, t: string)
    requires |tokens| > 0
    ensures var n := |tokens| - 1;
      multiset(tokens)[t] as real == multiset(tokens[..n])[t] as real + (if t == tokens[n] then 1.0 else 0.0)
  {
    var n := |tokens| - 1;
    assert tokens == tokens[..n] + [tokens[n]];
  }

  lemma {:induction false} CountOfSet(m: Counts, k: string, v: real, t: string)
    requires DistinctKeys(m)
    ensures CountOf(Set(m, k, v), t) == if t == k then v else CountOf(m, t)
  {
    SetSpec(m, k, v);
  }

  /** The keys are exactly the distinct tokens. */
  lemma {:induction false} FrequencyKeys(tokens: seq<string>)
    ensures forall t :: t in KeySet(Frequencies(tokens)) <==> t in tokens
  {
    if |tokens| > 0 {
      var n := |tokens| - 1;
      FrequencyKeys(tokens[..n]);
      var m := Frequencies(tokens[..n]);
      SetSpec(m, tokens[n], CountOf(m, tokens[n]) + 1.0);
      assert tokens == tokens[..n] + [tokens[n]];
    }
  }

  /** A map whose keys are distinct and whose counts are all at least 1. */
  ghost predicate Counted(m: Counts)
  {
    DistinctKeys(m) && forall i | 0 <= i < |m| :: m[i].1 >= 1.0
  }

  /** Every count in a term-frequency map is at least 1. */
  lemma {:induction false} FrequenciesCounted(tokens: seq<string>)
    ensures Counted(Frequencies(tokens))
  {
    var r := Frequencies(tokens);
    FrequencyKeys(tokens);
    forall i | 0 <= i < |r| ensures r[i].1 >= 1.0 {
      GetAt(r, i);
      FrequencyIsMultiplicity(tokens, r[i].0);
      assert r[i].0 in KeySet(r);
    }
  }

  function SumValues(m: Counts): real
  {
    if |m| == 0 then 0.0 else SumValues(m[..|m| - 1]) + m[|m| - 1].1
  }

  lemma {:induction false} SumValuesUpdate(m: Counts, i: nat, e: (string, real))
    requires i < |m|
    ensures SumValues(m[i := e]) == SumValues(m) - m[i].1 + e.1
  {
    var n := |m| - 1;
    if i == n {
      assert m[i := e][..n] == m[..n];
    } else {
      SumValuesUpdate(m[..n], i, e);
      assert m[i := e][..n] == m[..n][i := e];
    }
  }

  lemma {:induction false} SumValuesSet(m: Counts, k: string, v: real)
    requires DistinctKeys(m)
    ensures SumValues(Set(m, k, v)) == SumValues(m) - CountOf(m, k) + v
  {
    match IndexOf(m, k)
    case Some(i) =>
      SumValuesUpdate(m, i, (k, v));
    case None =>
      assert (m + [(k, v)])[..|m|] == m;
  }

  lemma {:induction false} FrequenciesSumStep(tokens: seq<string>)
    requires |tokens| > 0
    ensures var n := |tokens| - 1;
      SumValues(Frequencies(tokens)) == SumValues(Frequencies(tokens[..n])) + 1.0
  {
    var n := |tokens| - 1;
    var m := Frequencies(tokens[..n]);
    SumValuesSet(m, tokens[n], CountOf(m, tokens[n]) + 1.0);
  }

  /** The counts add up to the number of tokens. */
  lemma {:induction false} FrequenciesSum(tokens: seq<string>)
    ensures SumValues(Frequencies(tokens)) == |tokens| as real
  {
    if |tokens| > 0 {
      var n := |tokens| - 1;
      FrequenciesSum(tokens[..n]);
      FrequenciesSumStep(tokens);
    }
  }

  /** The counts of a map as a dense vector, in iteration order. */
  function Values(m: Counts): seq<real>
  {
    seq(|m|, i requires 0 <= i < |m| => m[i].1)
  }

  /** `queryVector.get(token)`, with 0 for a missing token. */
  function Lookup(q: Counts, t: string): real
  {
    CountOf(q, t)
  }

  /** The query counts of the memory's tokens, in the memory's order: the
      vector the sparse dot product multiplies the memory counts with. */
  function Aligned(q: Counts, m: Counts): seq<real>
  {
    seq(|m|, i requires 0 <= i < |m| => Lookup(q, m[i].0))
  }

  /** `#cosineSimilarity` in closed form: 0 when the dot product or either
      magnitude is 0, otherwise the dot product over the product of the
      square roots of the magnitudes. */
  function Similarity(q: Counts, m: Counts, sqrt: real -> real): real
    requires IsSqrt(sqrt)
  {
    CosineOf(Dot(Aligned(q, m), Values(m)), SumSquares(Values(q)), SumSquares(Values(m)), sqrt)
  }

  /** The final expression of `#cosineSimilarity`, from the dot product and
      the two squared magnitudes. */
  function CosineOf(dot: real, qMag: real, mMag: real, sqrt: real -> real): real
    requires IsSqrt(sqrt) && 0.0 <= qMag && 0.0 <= mMag
  {
    if dot == 0.0 || qMag == 0.0 || mMag == 0.0 then 0.0
    else
      SqrtProductPositive(qMag, mMag, sqrt);
      dot / (sqrt(qMag) * sqrt(mMag))
  }

  /** What Cauchy-Schwarz gives for a dot product `d` taken against a part
      of the query: `d` is non-negative, its square is at most the part's
      squared magnitude times the memory's, and the part weighs no more than
      the whole query. Kept as one predicate so that these nonlinear facts
      travel between lemmas as a single fact. */
  ghost predicate Bounded(d: real, part: real, qMag: real, mMag: real)
  {
    0.0 <= d && SquareAtMost(d, part, mMag) && part <= qMag && 0.0 <= qMag && 0.0 <= mMag
  }

  lemma BoundedByWhole(d: real, part: real, qMag: real, mMag: real)
    requires Bounded(d, part, qMag, mMag)
    ensures SquareAtMost(d, qMag, mMag)
  {
    MulRight(part, qMag, mMag);
  }

  /** A bounded dot product gives a cosine in [0, 1], positive once nothing
      is 0. */
  lemma CosineOfRange(d: real, part: real, qMag: real, mMag: real, sqrt: real -> real)
    requires IsSqrt(sqrt) && Bounded(d, part, qMag, mMag)
    ensures 0.0 <= CosineOf(d, qMag, mMag, sqrt) <= 1.0
    ensures d != 0.0 && qMag != 0.0 && mMag != 0.0 ==> CosineOf(d, qMag, mMag, sqrt) > 0.0
  {
    if d != 0.0 && qMag != 0.0 && mMag != 0.0 {
      BoundedByWhole(d, part, qMag, mMag);
      CosineBounds(d, qMag, mMag, sqrt);
    }
  }

  /** `#cosineSimilarity`: one loop over the query for its magnitude, one
      over the memory for its magnitude and the dot product, then the
      final quotient. */
  method CosineSimilarity(q: Counts, m: Counts, sqrt: real -> real) returns (similarity: real)
    requires IsSqrt(sqrt)
    ensures similarity == Similarity(q, m, sqrt)
  {
    var queryMagnitude := QueryMagnitude(q);
    AlignedEntries(q, m);
    var dotProduct, memoryMagnitude := MemoryTotals(q, m, Aligned(q, m), Values(m));
    similarity := CosineOf(dotProduct, queryMagnitude, memoryMagnitude, sqrt);
  }

  /** The first loop of `#cosineSimilarity`: the squared magnitude of the
      query. */
  method QueryMagnitude(q: Counts) returns (queryMagnitude: real)
    ensures queryMagnitude == SumSquares(Values(q))
  {
    queryMagnitude := 0.0;
    ghost var qv := Values(q);
    for i := 0 to |q|
      invariant queryMagnitude == SumSquares(qv[..i])
    {
      SumSquaresPrefix(qv, i);
      var value := q[i].1;
      queryMagnitude := queryMagnitude + value * value;
    }
    assert qv[..|q|] == qv;
  }

  /** The query count `get` finds for a memory token, 0 when it finds none,
      and the memory count: the two factors of one term of the dot product. */
  ghost predicate Entries(q: Counts, m: Counts, a: seq<real>, b: seq<real>)
  {
    && |a| == |m| && |b| == |m|
    && forall i | 0 <= i < |m| ::
         && b[i] == m[i].1
         && a[i] == match Get(q, m[i].0) case Some(c) => c case None => 0.0
  }

  lemma {:induction false} AlignedEntries(q: Counts, m: Counts)
    ensures Entries(q, m, Aligned(q, m), Values(m))
  {
  }

  /** The second loop of `#cosineSimilarity`: the squared magnitude of the
      memory and its dot product with the query, over the memory's tokens.
      `a` and `b` are the aligned query counts and the memory counts that
      the dot product is taken over. */
  method MemoryTotals(q: Counts, m: Counts, ghost a: seq<real>, ghost b: seq<real>)
    returns (dotProduct: real, memoryMagnitude: real)
    requires Entries(q, m, a, b)
    ensures dotProduct == Dot(a, b)
    ensures memoryMagnitude == SumSquares(b)
  {
    dotProduct, memoryMagnitude := 0.0, 0.0;
    for i := 0 to |m|
      invariant memoryMagnitude == SumSquares(b[..i])
      invariant dotProduct == Dot(a[..i], b[..i])
    {
      SumSquaresPrefix(b, i);
      DotPrefix(a, b, i);
      var (token, count) := m[i];
      var value := count;
      SameProduct(value, value, b[i], b[i]);
      memoryMagnitude := memoryMagnitude + value * value;
      match Get(q, token) {
        case Some(queryValue) =>
          SameProduct(queryValue, value, a[i], b[i]);
          dotProduct := dotProduct + queryValue * value;
        case None =>
          ZeroTimes(a[i], b[i]);
      }
    }
    assert a[..|m|] == a && b[..|m|] == b;
  }

  /** A looked-up count is 0 for a missing token and at least 1 for a
      present one. */
  lemma {:induction false} LookupBounds(q: Counts, t: string)
    requires Counted(q)
    ensures t !in KeySet(q) ==> Lookup(q, t) == 0.0
    ensures t in KeySet(q) ==> Lookup(q, t) >= 1.0
  {
    if t in KeySet(q) {
      var i :| 0 <= i < |q| && q[i].0 == t;
      GetAt(q, i);
    }
  }

  lemma {:induction false} CountedValues(q: Counts)
    requires Counted(q)
    ensures NonNegative(Values(q))
    ensures forall i | 0 <= i < |q| :: Values(q)[i] >= 1.0
  {
  }

  lemma {:induction false} AlignedNonNegative(q: Counts, m: Counts)
    requires Counted(q)
    ensures NonNegative(Aligned(q, m))
  {
    forall i | 0 <= i < |m| ensures 0.0 <= Aligned(q, m)[i] {
      LookupBounds(q, m[i].0);
    }
  }

  lemma {:induction false} LastKeyIsNew(q: Counts)
    requires DistinctKeys(q) && |q| > 0
    ensures q[|q| - 1].0 !in KeySet(q[..|q| - 1])
  {
    var n := |q| - 1;
    assert forall i | 0 <= i < n :: q[..n][i].0 != q[n].0;
  }

  /** Before and after the last query entry, the aligned vectors differ only
      where the memory holds that entry's key. */
  lemma {:induction false} AlignedAt(q: Counts, m: Counts, i: nat)
    requires DistinctKeys(q) && |q| > 0 && i < |m|
    ensures var n := |q| - 1;
      Aligned(q, m)[i] == if m[i].0 == q[n].0 then q[n].1 else Aligned(q[..n], m)[i]
  {
    var n := |q| - 1;
    assert q == q[..n] + [(q[n].0, q[n].1)];
    LastKeyIsNew(q);
    GetAppend(q[..n], q[n].0, q[n].1, m[i].0);
  }

  /** When the memory holds the last query key at `j`, dropping that entry
      only zeroes position `j`. */
  lemma {:induction false} AlignedLastHit(q: Counts, m: Counts, j: nat)
    requires DistinctKeys(q) && DistinctKeys(m) && |q| > 0 && j < |m| && m[j].0 == q[|q| - 1].0
    ensures var n := |q| - 1;
      && Aligned(q[..n], m)[j] == 0.0
      && Aligned(q, m) == Aligned(q[..n], m)[j := q[n].1]
  {
    var n := |q| - 1;
    var a, a' := Aligned(q, m), Aligned(q[..n], m);
    LastKeyIsNew(q);
    forall i | 0 <= i < |m| ensures a[i] == a'[j := q[n].1][i] {
      AlignedAt(q, m, i);
    }
  }

  /** When the memory lacks the last query key, dropping that entry changes
      nothing it picks out. */
  lemma {:induction false} AlignedLastMiss(q: Counts, m: Counts)
    requires DistinctKeys(q) && |q| > 0
    requires forall i | 0 <= i < |m| :: m[i].0 != q[|q| - 1].0
    ensures Aligned(q, m) == Aligned(q[..|q| - 1], m)
  {
    forall i | 0 <= i < |m| ensures Aligned(q, m)[i] == Aligned(q[..|q| - 1], m)[i] {
      AlignedAt(q, m, i);
    }
  }

  /** Dropping the last query entry, whose key is new, loses at most its
      square from the weight the memory picks out. */
  lemma {:induction false} AlignedLast(q: Counts, m: Counts)
    requires DistinctKeys(q) && DistinctKeys(m) && |q| > 0
    ensures LosesAtMostLast(q, m)
  {
    var n := |q| - 1;
    if j :| 0 <= j < |m| && m[j].0 == q[n].0 {
      HitLosesLast(q, m, j);
    } else {
      AlignedLastMiss(q, m);
      MissLosesLast(q, m);
    }
  }

  lemma {:induction false} HitLosesLast(q: Counts, m: Counts, j: nat)
    requires DistinctKeys(q) && DistinctKeys(m) && |q| > 0 && j < |m| && m[j].0 == q[|q| - 1].0
    ensures LosesAtMostLast(q, m)
  {
    var n := |q| - 1;
    AlignedLastHit(q, m, j);
    FillAtMost(Aligned(q, m), Aligned(q[..n], m), j, q[n].1);
  }

  lemma {:induction false} MissLosesLast(q: Counts, m: Counts)
    requires |q| > 0 && Aligned(q, m) == Aligned(q[..|q| - 1], m)
    ensures LosesAtMostLast(q, m)
  {
    SquareNonNegative(q[|q| - 1].1);
  }

  ghost predicate LosesAtMostLast(q: Counts, m: Counts)
    requires |q| > 0
  {
    var n := |q| - 1;
    AtMostPlusSquare(SumSquares(Aligned(q, m)), SumSquares(Aligned(q[..n], m)), q[n].1)
  }

  lemma {:induction false} ValuesLast(q: Counts)
    requires |q| > 0
    ensures var n := |q| - 1; var v := q[n].1;
      SumSquares(Values(q)) == SumSquares(Values(q[..n])) + v * v
  {
    assert Values(q)[..|q| - 1] == Values(q[..|q| - 1]);
  }

  /** The query counts that the memory picks out have no more weight than
      the whole query, because the memory's keys are distinct. */
  lemma {:induction false} AlignedProjection(q: Counts, m: Counts)
    requires DistinctKeys(q) && DistinctKeys(m)
    ensures SumSquares(Aligned(q, m)) <= SumSquares(Values(q))
  {
    if |q| == 0 {
      SumSquaresZero(Aligned(q, m));
    } else {
      var n := |q| - 1;
      AlignedProjection(q[..n], m);
      AlignedLast(q, m);
      ValuesLast(q);
    }
  }

  /** Two non-negative vectors, measured against a query magnitude at least
      the first one's, give a bounded dot product. */
  lemma {:induction false} VectorBound(a: seq<real>, b: seq<real>, qMag: real)
    requires |a| == |b| && NonNegative(a) && NonNegative(b)
    requires SumSquares(a) <= qMag
    ensures Bounded(Dot(a, b), SumSquares(a), qMag, SumSquares(b))
  {
    DotNonNegative(a, b);
    CauchySchwarz(a, b);
  }

  /** The similarity of two term-frequency maps lies in [0, 1], and it is
      positive once the dot product and both magnitudes are non-zero. */
  lemma {:induction false} SimilarityBounds(q: Counts, m: Counts, sqrt: real -> real)
    requires IsSqrt(sqrt) && Counted(q) && Counted(m)
    ensures 0.0 <= Similarity(q, m, sqrt) <= 1.0
    ensures (Dot(Aligned(q, m), Values(m)) != 0.0 && SumSquares(Values(q)) != 0.0 &&
             SumSquares(Values(m)) != 0.0) ==> Similarity(q, m, sqrt) > 0.0
  {
    AlignedNonNegative(q, m);
    CountedValues(m);
    AlignedProjection(q, m);
    var a, b := Aligned(q, m), Values(m);
    VectorBound(a, b, SumSquares(Values(q)));
    CosineOfRange(Dot(a, b), SumSquares(a), SumSquares(Values(q)), SumSquares(b), sqrt);
  }

  /** A shared token contributes at least 1 to the dot product. */
  lemma {:induction false} SharedTokenDot(q: Counts, m: Counts, t: string)
    requires Counted(q) && Counted(m) && t in KeySet(q) && t in KeySet(m)
    ensures Dot(Aligned(q, m), Values(m)) >= 1.0
  {
    var a, b := Aligned(q, m), Values(m);
    var i :| 0 <= i < |m| && m[i].0 == t;
    LookupBounds(q, t);
    AlignedNonNegative(q, m);
    CountedValues(m);
    AtLeastOne(a[i], b[i]);
    DotAtLeastTerm(a, b, i);
  }

  /** A map with an entry has magnitude at least 1. */
  lemma {:induction false} MagnitudeAtLeastOne(q: Counts, t: string)
    requires Counted(q) && t in KeySet(q)
    ensures SumSquares(Values(q)) >= 1.0
  {
    var v := Values(q);
    var j :| 0 <= j < |q| && q[j].0 == t;
    CountedValues(q);
    AtLeastOne(v[j], v[j]);
    SumSquaresAtLeast(v, j);
  }

  /** The similarity is positive exactly when the two maps share a token. */
  lemma {:induction false} SimilarityPositive(q: Counts, m: Counts, sqrt: real -> real)
    requires IsSqrt(sqrt) && Counted(q) && Counted(m)
    ensures Similarity(q, m, sqrt) > 0.0 <==> exists t :: t in KeySet(q) && t in KeySet(m)
  {
    if t :| t in KeySet(q) && t in KeySet(m) {
      SharedTokenDot(q, m, t);
      MagnitudeAtLeastOne(q, t);
      MagnitudeAtLeastOne(m, t);
      SimilarityBounds(q, m, sqrt);
    } else {
      var a := Aligned(q, m);
      forall k | 0 <= k < |m| ensures a[k] == 0.0 {
        assert m[k].0 in KeySet(m);
        LookupBounds(q, m[k].0);
      }
      DotZero(a, Values(m));
    }
  }

  /** A non-empty map is perfectly similar to itself. */
  lemma {:induction false} SimilaritySelf(q: Counts, sqrt: real -> real)
    requires IsSqrt(sqrt) && Counted(q) && |q| > 0
    ensures Similarity(q, q, sqrt) == 1.0
  {
    var v := Values(q);
    forall i | 0 <= i < |q| ensures Aligned(q, q)[i] == v[i] {
      GetAt(q, i);
    }
    assert Aligned(q, q) == v;
    DotSelf(v);
    CountedValues(q);
    AtLeastOne(v[0], v[0]);
    SumSquaresAtLeast(v, 0);
    var s := SumSquares(v);
    CosineBounds(s, s, s, sqrt);
  }
}
