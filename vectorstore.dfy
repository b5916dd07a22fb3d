/** The in-memory vector store: named partitions, each an insertion-ordered
    map from record id to the record and the Euclidean norm of its vector,
    queried by cosine similarity with a linear scan. */
module Vectorstore {
  import opened Prelude
  import opened OrderedMap
  import opened Vectors
  import opened Sorting

  /** The largest finite IEEE-754 double, (2^53 - 1) * 2^971. A sum of
      squares above it overflows to `Infinity`. */
  const MaxDouble: real := 179769313486231570814527423731704356798070567525844996598917476803157260780028538760589558632766878171540458953514382464234321326889464182768467546703537516986049910576551282076245490090389328944075868508455133942304583236903222948165808559332123348274797826204144723168738177180919299881250404026184124858368.0

  /** `VectorstoreRecord`: what a caller upserts. */
  datatype VectorRecord<M> = VectorRecord(id: string, vector: seq<real>, metadata: M)

  /** `StoredRecord`: the record with the norm computed at upsert time. */
  datatype StoredRecord<M> = StoredRecord(id: string, vector: seq<real>, metadata: M, vectorNorm: real)

  /** `VectorstoreMatch`. */
  datatype VectorMatch<M> = VectorMatch(id: string, score: real, metadata: M)

  /** `VectorstoreQueryOptions`; an absent `options` argument is the value
      with both fields absent. */
  datatype QueryOptions<-M> = QueryOptions(limit: Option<int>, filter: Option<M -> bool>)

  /** `#computeNorm`: the square root of the sum of squares, or 0 when that
      is not finite. */
  function Norm(vector: seq<real>, sqrt: real -> real): real
  {
    var sum := SumSquares(vector);
    if sum <= MaxDouble then sqrt(sum) else 0.0
  }

  /** The norm is never negative, and it is 0 exactly for the zero vector
      and for a vector whose sum of squares overflows. */
  lemma NormSpec(vector: seq<real>, sqrt: real -> real)
    requires IsSqrt(sqrt)
    ensures Norm(vector, sqrt) >= 0.0
    ensures Norm(vector, sqrt) == 0.0
        <==> (forall i | 0 <= i < |vector| :: vector[i] == 0.0) || SumSquares(vector) > MaxDouble
  {
    var sum := SumSquares(vector);
    SumSquaresZero(vector);
    if sum <= MaxDouble {
      assert sqrt(sum) * sqrt(sum) == sum;
      if sqrt(sum) == 0.0 {
        ZeroTimes(sqrt(sum), sqrt(sum));
      }
      if sum == 0.0 {
        ZeroSquare(sqrt(sum));
      }
    }
  }

  /** The record as `upsert` stores it. */
  function Stored<M>(entry: VectorRecord<M>, sqrt: real -> real): StoredRecord<M>
  {
    StoredRecord(entry.id, entry.vector, entry.metadata, Norm(entry.vector, sqrt))
  }

  /** `#cosineSimilarity`: 0 on a length mismatch or a zero norm, otherwise
      the dot product over the product of the norms. */
  function RecordScore<M>(vector: seq<real>, vectorNorm: real, record: StoredRecord<M>): real
  {
    if |vector| != |record.vector| || vectorNorm == 0.0 || record.vectorNorm == 0.0 then 0.0
    else
      NonZeroProduct(vectorNorm, record.vectorNorm);
      Dot(vector, record.vector) / (vectorNorm * record.vectorNorm)
  }

  /** A nonzero norm is the positive root of a positive, finite sum of
      squares. */
  lemma NormPositive(vector: seq<real>, sqrt: real -> real)
    requires IsSqrt(sqrt) && Norm(vector, sqrt) != 0.0
    ensures var n := Norm(vector, sqrt);
      0.0 < n && n * n == SumSquares(vector) && 0.0 < SumSquares(vector) <= MaxDouble
  {
    var sum := SumSquares(vector);
    var n := sqrt(sum);
    assert 0.0 <= n && n * n == sum;
    if sum == 0.0 {
      ZeroSquare(n);
    }
  }

  /** With both norms computed by `#computeNorm`, a score lies in [-1, 1]. */
  lemma ScoreBounds<M>(vector: seq<real>, record: StoredRecord<M>, sqrt: real -> real)
    requires IsSqrt(sqrt) && record.vectorNorm == Norm(record.vector, sqrt)
    ensures -1.0 <= RecordScore(vector, Norm(vector, sqrt), record) <= 1.0
  {
    var n, rn := Norm(vector, sqrt), record.vectorNorm;
    if |vector| == |record.vector| && n != 0.0 && rn != 0.0 {
      var d := Dot(vector, record.vector);
      NormPositive(vector, sqrt);
      NormPositive(record.vector, sqrt);
      CauchySchwarz(vector, record.vector);
      RootsCosine(d, SumSquares(vector), SumSquares(record.vector), n, rn);
      assert RecordScore(vector, n, record) == d / (n * rn);
    }
  }

  /** A record queried with its own vector scores exactly 1, unless that
      vector is zero or overflows. */
  lemma SelfScore<M>(record: StoredRecord<M>, sqrt: real -> real)
    requires IsSqrt(sqrt) && record.vectorNorm == Norm(record.vector, sqrt) && record.vectorNorm != 0.0
    ensures RecordScore(record.vector, Norm(record.vector, sqrt), record) == 1.0
  {
    var v, n := record.vector, record.vectorNorm;
    NormPositive(v, sqrt);
    DotSelf(v);
    ScoreQuotient(v, n, record);
    SelfQuotient(Dot(v, v), n * n);
  }

  /** The score of a record against a vector of its length, with both
      norms nonzero. */
  lemma ScoreQuotient<M>(vector: seq<real>, vectorNorm: real, record: StoredRecord<M>)
    requires |vector| == |record.vector| && vectorNorm != 0.0 && record.vectorNorm != 0.0
    ensures vectorNorm * record.vectorNorm != 0.0
    ensures RecordScore(vector, vectorNorm, record) == Dot(vector, record.vector) / (vectorNorm * record.vectorNorm)
  {
    NonZeroProduct(vectorNorm, record.vectorNorm);
  }

  lemma SelfQuotient(d: real, p: real)
    requires p != 0.0 && d == p
    ensures d / p == 1.0
  {
  }

  /** The match `query` pushes for a record. */
  function MatchOf<M>(vector: seq<real>, vectorNorm: real, record: StoredRecord<M>): VectorMatch<M>
  {
    VectorMatch(record.id, RecordScore(vector, vectorNorm, record), record.metadata)
  }

  /** `options?.filter && !options.filter(metadata)` is false. */
  predicate Passes<M>(filter: Option<M -> bool>, metadata: M)
  {
    filter.None? || filter.value(metadata)
  }

  /** The matches the scan of `query` pushes, in record order. */
  function Candidates<M>(records: OMap<string, StoredRecord<M>>, vector: seq<real>, vectorNorm: real,
                         filter: Option<M -> bool>): seq<VectorMatch<M>>
  {
    if |records| == 0 then []
    else
      var record := records[|records| - 1].1;
      Candidates(records[..|records| - 1], vector, vectorNorm, filter)
        + (if Passes(filter, record.metadata) then [MatchOf(vector, vectorNorm, record)] else [])
  }

  /** `x` is the match of a stored record whose metadata passes the
      filter. */
  ghost predicate MatchOfRecord<M>(x: VectorMatch<M>, records: OMap<string, StoredRecord<M>>,
                                   vector: seq<real>, vectorNorm: real, filter: Option<M -> bool>)
  {
    exists e | e in records :: Passes(filter, e.1.metadata) && x == MatchOf(vector, vectorNorm, e.1)
  }

  /** The scan pushes at most one match per record, exactly one when
      there is no filter. */
  lemma {:induction false} CandidatesCount<M>(records: OMap<string, StoredRecord<M>>, vector: seq<real>,
                                              vectorNorm: real, filter: Option<M -> bool>)
    ensures |Candidates(records, vector, vectorNorm, filter)| <= |records|
    ensures filter.None? ==> |Candidates(records, vector, vectorNorm, filter)| == |records|
  {
    if |records| > 0 {
      CandidatesCount(records[..|records| - 1], vector, vectorNorm, filter);
    }
  }

  /** Every match the scan pushes comes from a record that passes the
      filter. */
  lemma {:induction false} CandidateOrigin<M>(records: OMap<string, StoredRecord<M>>, vector: seq<real>,
                                              vectorNorm: real, filter: Option<M -> bool>, x: VectorMatch<M>)
    requires x in Candidates(records, vector, vectorNorm, filter)
    ensures MatchOfRecord(x, records, vector, vectorNorm, filter)
  {
    var n := |records| - 1;
    if x in Candidates(records[..n], vector, vectorNorm, filter) {
      CandidateOrigin(records[..n], vector, vectorNorm, filter, x);
      var e :| e in records[..n] && Passes(filter, e.1.metadata) && x == MatchOf(vector, vectorNorm, e.1);
      assert e in records;
    } else {
      assert records[n] in records;
    }
  }

  /** Every record that passes the filter has its match pushed. */
  lemma {:induction false} CandidateComplete<M>(records: OMap<string, StoredRecord<M>>, vector: seq<real>,
                                                vectorNorm: real, filter: Option<M -> bool>,
                                                e: (string, StoredRecord<M>))
    requires e in records && Passes(filter, e.1.metadata)
    ensures MatchOf(vector, vectorNorm, e.1) in Candidates(records, vector, vectorNorm, filter)
  {
    var n := |records| - 1;
    if e != records[n] {
      assert records == records[..n] + [records[n]];
      CandidateComplete(records[..n], vector, vectorNorm, filter, e);
    }
  }

  /** The comparator `(a, b) => b.score - a.score` puts `a` strictly first. */
  predicate HigherScore<M>(a: VectorMatch<M>, b: VectorMatch<M>)
  {
    a.score > b.score
  }

  lemma HigherScoreOrder<M(!new)>()
    ensures StrictWeakOrder(HigherScore<M>)
  {
  }

  /** The limit `query` slices with: `options?.limit ?? matches.length`. */
  function QueryLimit<M>(options: QueryOptions<M>, count: nat): int
  {
    match options.limit
    case Some(limit) => limit
    case None => count
  }

  /** What `query(vector, options)` returns on a partition holding
      `records`. */
  function QueryResult<M>(records: OMap<string, StoredRecord<M>>, vector: seq<real>,
                          options: QueryOptions<M>, sqrt: real -> real): seq<VectorMatch<M>>
  {
    var vectorNorm := Norm(vector, sqrt);
    if vectorNorm == 0.0 then []
    else
      var matches := SortBy(Candidates(records, vector, vectorNorm, options.filter), HigherScore);
      SliceTo(matches, QueryLimit(options, |matches|))
  }

  /** A query returns nothing for a zero or overflowing query vector, and
      otherwise as many of the passing records as the limit allows; with no
      limit it returns each of them exactly once. */
  lemma QueryCount<M>(records: OMap<string, StoredRecord<M>>, vector: seq<real>,
                      options: QueryOptions<M>, sqrt: real -> real)
    ensures var r := QueryResult(records, vector, options, sqrt);
      var vectorNorm := Norm(vector, sqrt);
      var c := Candidates(records, vector, vectorNorm, options.filter);
      && |r| == (if vectorNorm == 0.0 then 0 else SliceLength(|c|, QueryLimit(options, |c|)))
      && (vectorNorm != 0.0 && options.limit.None? ==> multiset(r) == multiset(c))
      && (vectorNorm != 0.0 ==> multiset(r) <= multiset(c))
  {
    var vectorNorm := Norm(vector, sqrt);
    if vectorNorm != 0.0 {
      var c := Candidates(records, vector, vectorNorm, options.filter);
      var sorted := SortBy(c, HigherScore);
      PrefixMultiset(sorted, QueryLimit(options, |sorted|));
      if options.limit.None? {
        assert SliceTo(sorted, |sorted|) == sorted;
      }
    }
  }

  /** Every match a query returns is the match of a stored record that
      passes the filter. */
  lemma QueryMember<M>(records: OMap<string, StoredRecord<M>>, vector: seq<real>,
                       options: QueryOptions<M>, sqrt: real -> real, x: VectorMatch<M>)
    requires x in QueryResult(records, vector, options, sqrt)
    ensures MatchOfRecord(x, records, vector, Norm(vector, sqrt), options.filter)
  {
    var vectorNorm := Norm(vector, sqrt);
    QueryCount(records, vector, options, sqrt);
    SubMultisetMember(QueryResult(records, vector, options, sqrt),
                      Candidates(records, vector, vectorNorm, options.filter), x);
    CandidateOrigin(records, vector, vectorNorm, options.filter, x);
  }

  /** A query returns its matches highest score first and ties in record
      order, and whatever passing record scores higher than a returned match
      is returned too. */
  lemma QueryOrder<M(!new)>(records: OMap<string, StoredRecord<M>>, vector: seq<real>,
                            options: QueryOptions<M>, sqrt: real -> real)
    ensures var r := QueryResult(records, vector, options, sqrt);
      var c := Candidates(records, vector, Norm(vector, sqrt), options.filter);
      && Sorted(r, HigherScore)
      && (forall x, y | x in c && y in r && x.score > y.score :: x in r)
      && (forall k :: TiedWith(r, HigherScore, k) <= TiedWith(c, HigherScore, k))
  {
    var vectorNorm := Norm(vector, sqrt);
    if vectorNorm != 0.0 {
      var c := Candidates(records, vector, vectorNorm, options.filter);
      var r := QueryResult(records, vector, options, sqrt);
      HigherScoreOrder<M>();
      var limit := QueryLimit(options, |SortBy(c, HigherScore)|);
      assert r == SliceTo(SortBy(c, HigherScore), limit);
      TopSorted(c, HigherScore, limit);
      forall x, y | x in c && y in r && x.score > y.score ensures x in r {
        assert HigherScore(x, y);
      }
      forall k ensures TiedWith(r, HigherScore, k) <= TiedWith(c, HigherScore, k) {
        TopStable(c, HigherScore, limit, k);
      }
    }
  }

  /** A record that passes the filter but whose vector has another length,
      or whose stored norm is 0, is still returned by an unlimited query,
      with score 0. */
  lemma ZeroScoreReturned<M>(records: OMap<string, StoredRecord<M>>, vector: seq<real>,
                             options: QueryOptions<M>, sqrt: real -> real, e: (string, StoredRecord<M>))
    requires Norm(vector, sqrt) != 0.0 && options.limit.None?
    requires e in records && Passes(options.filter, e.1.metadata)
    requires |vector| != |e.1.vector| || e.1.vectorNorm == 0.0
    ensures VectorMatch(e.1.id, 0.0, e.1.metadata) in QueryResult(records, vector, options, sqrt)
  {
    var vectorNorm := Norm(vector, sqrt);
    var x := MatchOf(vector, vectorNorm, e.1);
    CandidateComplete(records, vector, vectorNorm, options.filter, e);
    QueryCount(records, vector, options, sqrt);
    var r, c := QueryResult(records, vector, options, sqrt), Candidates(records, vector, vectorNorm, options.filter);
    assert multiset(r) == multiset(c);
    SubMultisetMember(c, r, x);
  }

  /** The partition invariant: ids are unique, every entry is filed under
      its record's id, and every stored norm is the norm of its vector. */
  ghost predicate WellFormed<M>(records: OMap<string, StoredRecord<M>>, sqrt: real -> real)
  {
    && DistinctKeys(records)
    && forall e | e in records :: e.0 == e.1.id && e.1.vectorNorm == Norm(e.1.vector, sqrt)
  }

  /** On a well-formed partition every score a query returns lies in
      [-1, 1]. */
  lemma QueryScore<M>(records: OMap<string, StoredRecord<M>>, vector: seq<real>,
                      options: QueryOptions<M>, sqrt: real -> real, x: VectorMatch<M>)
    requires IsSqrt(sqrt) && WellFormed(records, sqrt) && x in QueryResult(records, vector, options, sqrt)
    ensures -1.0 <= x.score <= 1.0
  {
    var vectorNorm := Norm(vector, sqrt);
    QueryMember(records, vector, options, sqrt, x);
    var e :| e in records && Passes(options.filter, e.1.metadata) && x == MatchOf(vector, vectorNorm, e.1);
    ScoreBounds(vector, e.1, sqrt);
  }

  /** `MemoryPartition`: one named collection of records. `Math.sqrt` is
      the `sqrt` it is built with. */
  class MemoryPartition<M(!new)> {
    var records: OMap<string, StoredRecord<M>>
    const sqrt: real -> real

    ghost predicate Valid()
      reads this
    {
      WellFormed(records, sqrt)
    }

    constructor(sqrt: real -> real)
      ensures Valid() && records == [] && this.sqrt == sqrt
    {
      records := [];
      this.sqrt := sqrt;
    }

    /** `upsert`: file the record and its norm under its id, replacing any
        record with that id where it stands; nothing else changes. */
    method Upsert(entry: VectorRecord<M>)
      requires Valid()
      modifies this
      ensures Valid()
      ensures records == Set(old(records), entry.id, Stored(entry, sqrt))
      ensures Get(records, entry.id) == Some(Stored(entry, sqrt))
      ensures forall k | k != entry.id :: Get(records, k) == Get(old(records), k)
      ensures KeySet(records) == KeySet(old(records)) + {entry.id}
    {
      var vectorNorm := Norm(entry.vector, sqrt);
      var stored := StoredRecord(entry.id, entry.vector, entry.metadata, vectorNorm);
      SetSpec(records, entry.id, stored);
      SetEntries(records, entry.id, stored);
      records := Set(records, entry.id, stored);
    }

    /** `delete`: remove the record with this id, if any; nothing else
        changes. */
    method Delete(id: string)
      requires Valid()
      modifies this
      ensures Valid()
      ensures records == OrderedMap.Delete(old(records), id)
      ensures Get(records, id) == None
      ensures forall k | k != id :: Get(records, k) == Get(old(records), k)
      ensures id !in KeySet(old(records)) ==> records == old(records)
    {
      DeleteSpec(records, id);
      DeleteEntries(records, id);
      records := OrderedMap.Delete(records, id);
    }

    /** `query`: the scan pushes a match for every record that passes the
        filter, then the matches are sorted by score and sliced. */
    method Query(vector: seq<real>, options: QueryOptions<M>) returns (matches: seq<VectorMatch<M>>)
      requires Valid()
      ensures matches == QueryResult(records, vector, options, sqrt)
    {
      var vectorNorm := Norm(vector, sqrt);
      if vectorNorm == 0.0 {
        return [];
      }
      matches := [];
      for i := 0 to |records|
        invariant matches == Candidates(records[..i], vector, vectorNorm, options.filter)
      {
        assert records[..i + 1][..i] == records[..i];
        var record := records[i].1;
        if options.filter.Some? && !options.filter.value(record.metadata) {
          continue;
        }
        var score := RecordScore(vector, vectorNorm, record);
        matches := matches + [VectorMatch(record.id, score, record.metadata)];
      }
      assert records[..|records|] == records;
      matches := SortBy(matches, HigherScore);
      var limit := QueryLimit(options, |matches|);
      matches := SliceTo(matches, limit);
    }
  }

  /** `MemoryVectorstore`: partitions by name, created on first use. */
  class MemoryVectorstore<M(!new)> {
    var partitions: map<string, MemoryPartition<M>>
    ghost var Repr: set<object>
    const sqrt: real -> real

    /** Every partition is well formed and shares the store's square root,
        no two names share a partition, and `Repr` is the set of
        partitions. */
    ghost predicate Valid()
      reads this, Repr
    {
      && IsSqrt(sqrt)
      && Repr == partitions.Values
      && (forall name | name in partitions :: partitions[name].sqrt == sqrt && partitions[name].Valid())
      && (forall a, b | a in partitions && b in partitions && a != b :: partitions[a] != partitions[b])
    }

    constructor(sqrt: real -> real)
      requires IsSqrt(sqrt)
      ensures Valid() && partitions == map[] && this.sqrt == sqrt
    {
      partitions := map[];
      Repr := {};
      this.sqrt := sqrt;
    }

    /** `partition(name)`: the partition of that name, created empty on
        first use; an existing partition is returned as it is. */
    method Partition(name: string) returns (p: MemoryPartition<M>)
      requires Valid()
      modifies this
      ensures Valid()
      ensures name in partitions && p == partitions[name]
      ensures name in old(partitions) ==> partitions == old(partitions) && Repr == old(Repr)
      ensures name !in old(partitions) ==>
        && fresh(p) && p.records == []
        && partitions == old(partitions)[name := p] && Repr == old(Repr) + {p}
    {
      if name !in partitions {
        var created := new MemoryPartition(sqrt);
        var before := partitions;
        partitions := partitions[name := created];
        Repr := Repr + {created};
        forall v | v in partitions.Values ensures v in Repr {
          var k :| k in partitions && partitions[k] == v;
          if k != name {
            assert before[k] == v;
          }
        }
        forall v | v in Repr ensures v in partitions.Values {
          if v == created {
            assert partitions[name] == v;
          } else {
            var k :| k in before && before[k] == v;
            assert partitions[k] == v;
          }
        }
      }
      p := partitions[name];
    }
  }
}
