/** `MemoryRetrievalService.findRelevantMemories`: rank a character's
    memories against the text of a conversation. The query texts are joined
    and tokenised; without a token the memories are ranked by salience alone.
    Otherwise each memory's text (its content and its tags) is tokenised,
    compared with the query by the cosine of their term-frequency maps, and
    scored as 0.7 times that similarity plus 0.3 times its salience; the
    memories are ranked by score, ties going to the more recent memory, and
    the first `limit` of them are returned. */
module MemoryRetrieval {
  import opened Prelude
  import opened Domain
  import opened Tokenizer
  import opened OrderedMap
  import opened Lexical
  import opened Sorting

  /** `MemoryRetrievalOptions`: an optional result limit. */
  datatype RetrievalOptions = RetrievalOptions(limit: Option<int>)

  /** The limit used when the caller gives none. */
  const DefaultLimit: int := 10

  /** `options?.limit ?? 10`. */
  function LimitOf(options: Option<RetrievalOptions>): int
  {
    match options
    case Some(RetrievalOptions(Some(limit))) => limit
    case _ => DefaultLimit
  }

  /** `#blendScore`: 70% similarity, 30% salience. */
  function BlendScore(similarity: real, salience: real): real
  {
    similarity * 0.7 + salience * 0.3
  }

  /** A similarity and a salience in [0, 1] give a score in [0, 1]. */
  lemma BlendScoreRange(similarity: real, salience: real)
    requires 0.0 <= similarity <= 1.0 && 0.0 <= salience <= 1.0
    ensures 0.0 <= BlendScore(similarity, salience) <= 1.0
  {
  }

  /** A higher similarity or a higher salience never lowers the score, and
      raising either strictly raises it. */
  lemma BlendScoreMonotone(sim1: real, sal1: real, sim2: real, sal2: real)
    requires sim1 <= sim2 && sal1 <= sal2
    ensures BlendScore(sim1, sal1) <= BlendScore(sim2, sal2)
    ensures sim1 < sim2 || sal1 < sal2 ==> BlendScore(sim1, sal1) < BlendScore(sim2, sal2)
  {
  }

  /** The tokens of the query: the texts joined by spaces, tokenised. */
  function QueryTokens(queryTexts: seq<string>): seq<string>
  {
    Tokenize(Join(queryTexts, " "))
  }

  /** The text a memory is compared by: `${content} ${tags.join(" ")}`. */
  function MemoryText(m: MemoryEntry): string
  {
    m.content + " " + Join(m.tags, " ")
  }

  /** The term-frequency map of a memory's text. */
  function MemoryVector(m: MemoryEntry): Counts
  {
    Frequencies(Tokenize(MemoryText(m)))
  }

  /** The score `findRelevantMemories` gives a memory against the query
      vector `q`. */
  function Score(q: Counts, m: MemoryEntry, sqrt: real -> real): real
    requires IsSqrt(sqrt)
  {
    BlendScore(Similarity(q, MemoryVector(m), sqrt), m.salience)
  }

  /** `ScoredMemory`: a memory with its score. */
  datatype ScoredMemory = ScoredMemory(memory: MemoryEntry, score: real)

  /** The comparator of the final sort puts `a` strictly first: a higher
      score, or the same score and a later creation time. */
  predicate RanksBefore(a: ScoredMemory, b: ScoredMemory)
  {
    a.score > b.score || (a.score == b.score && a.memory.createdAt > b.memory.createdAt)
  }

  /** The same order on the memories themselves, with each score computed
      against `q`. */
  function MoreRelevant(q: Counts, sqrt: real -> real): (MemoryEntry, MemoryEntry) -> bool
    requires IsSqrt(sqrt)
  {
    (a: MemoryEntry, b: MemoryEntry) => RanksBefore(Scored(q, sqrt)(a), Scored(q, sqrt)(b))
  }

  /** `memories.map(memory => ({ memory, score }))`, one memory at a time. */
  function Scored(q: Counts, sqrt: real -> real): MemoryEntry -> ScoredMemory
    requires IsSqrt(sqrt)
  {
    (m: MemoryEntry) => ScoredMemory(m, Score(q, m, sqrt))
  }

  function Unscored(e: ScoredMemory): MemoryEntry
  {
    e.memory
  }

  lemma RanksBeforeOrder()
    ensures StrictWeakOrder(RanksBefore)
  {
  }

  lemma MoreRelevantOrder(q: Counts, sqrt: real -> real)
    requires IsSqrt(sqrt)
    ensures StrictWeakOrder(MoreRelevant(q, sqrt))
  {
    var prec, f := MoreRelevant(q, sqrt), Scored(q, sqrt);
    RanksBeforeOrder();
    forall a, b | prec(a, b) ensures !prec(b, a) {
      assert RanksBefore(f(a), f(b));
    }
    forall a, b, c | !prec(a, b) && !prec(b, c) ensures !prec(a, c) {
      assert !RanksBefore(f(a), f(b)) && !RanksBefore(f(b), f(c));
    }
  }

  /** Sorting the scored memories and taking the memories back out is
      sorting the memories by their scores. */
  lemma RankedMemories(memories: seq<MemoryEntry>, q: Counts, sqrt: real -> real, limit: int)
    requires IsSqrt(sqrt)
    ensures Map(SliceTo(SortBy(Map(memories, Scored(q, sqrt)), RanksBefore), limit), Unscored)
         == SliceTo(SortBy(memories, MoreRelevant(q, sqrt)), limit)
  {
    var scored := Map(memories, Scored(q, sqrt));
    var ranked := SortBy(scored, RanksBefore);
    forall x, y | x in scored && y in scored
      ensures RanksBefore(x, y) == MoreRelevant(q, sqrt)(Unscored(x), Unscored(y))
    {
      assert x == Scored(q, sqrt)(x.memory) && y == Scored(q, sqrt)(y.memory);
    }
    SortByMap(scored, Unscored, RanksBefore, MoreRelevant(q, sqrt));
    assert Map(scored, Unscored) == memories;
    MapSliceTo(ranked, Unscored, limit);
  }

  /** What `findRelevantMemories(memories, queryTexts, { limit })` returns.
      It has `limit` elements (as `slice(0, limit)` counts them) or all of
      them when there are fewer, drawn from `memories`. */
  function RelevantMemories(memories: seq<MemoryEntry>, queryTexts: seq<string>, limit: int,
                            sqrt: real -> real): (r: seq<MemoryEntry>)
    requires IsSqrt(sqrt)
    ensures |r| == if limit == 0 then 0 else SliceLength(|memories|, limit)
    ensures multiset(r) <= multiset(memories)
  {
    if |memories| == 0 || limit == 0 then []
    else
      var tokens := QueryTokens(queryTexts);
      var order := if |tokens| == 0 then MoreSalient else MoreRelevant(Frequencies(tokens), sqrt);
      PrefixMultiset(SortBy(memories, order), limit);
      SliceTo(SortBy(memories, order), limit)
  }

  /** The callback of `memories.map`: tokenise the memory's text, count its
      terms, compare the counts with the query's and blend in the salience. */
  method ScoreMemory(queryVector: Counts, memory: MemoryEntry, sqrt: real -> real)
    returns (entry: ScoredMemory)
    requires IsSqrt(sqrt)
    ensures entry == Scored(queryVector, sqrt)(memory)
  {
    var tokens := Tokenize(MemoryText(memory));
    var memoryVector := TermFrequency(tokens);
    var similarity := CosineSimilarity(queryVector, memoryVector, sqrt);
    var score := BlendScore(similarity, memory.salience);
    entry := ScoredMemory(memory, score);
  }

  /** `memories.map(...)`: every memory with its score, in input order.
      `expected` is that list, as the specification computes it. */
  method ScoreAll(queryVector: Counts, memories: seq<MemoryEntry>, sqrt: real -> real,
                  ghost expected: seq<ScoredMemory>)
    returns (scored: seq<ScoredMemory>)
    requires IsSqrt(sqrt) && expected == Map(memories, Scored(queryVector, sqrt))
    ensures scored == expected
  {
    scored := [];
    for i := 0 to |memories|
      invariant scored == expected[..i]
    {
      var entry := ScoreMemory(queryVector, memories[i], sqrt);
      assert expected[..i + 1] == expected[..i] + [expected[i]];
      scored := scored + [entry];
    }
    assert expected[..|memories|] == expected;
  }

  /** Without a query token the memories come back by salience, highest
      first: whatever is more salient than a returned memory is returned
      too, and memories of equal salience keep their input order. */
  lemma FallbackRanking(memories: seq<MemoryEntry>, queryTexts: seq<string>, limit: int,
                        sqrt: real -> real)
    requires IsSqrt(sqrt) && |QueryTokens(queryTexts)| == 0
    ensures var r := RelevantMemories(memories, queryTexts, limit, sqrt);
      && Sorted(r, MoreSalient)
      && (forall x, y | x in memories && y in r && x.salience > y.salience :: x in r)
      && (forall k :: TiedWith(r, MoreSalient, k) <= TiedWith(memories, MoreSalient, k))
  {
    SalienceOrder();
    if |memories| > 0 && limit != 0 {
      assert RelevantMemories(memories, queryTexts, limit, sqrt)
          == SliceTo(SortBy(memories, MoreSalient), limit);
      var r := SliceTo(SortBy(memories, MoreSalient), limit);
      TopSorted(memories, MoreSalient, limit);
      forall x, y | x in memories && y in r && x.salience > y.salience ensures x in r {
        assert MoreSalient(x, y);
      }
      forall k ensures TiedWith(SliceTo(SortBy(memories, MoreSalient), limit), MoreSalient, k)
                    <= TiedWith(memories, MoreSalient, k) {
        TopStable(memories, MoreSalient, limit, k);
      }
    }
  }

  /** With query tokens the memories come back by score against the query
      vector, ties going to the later creation time: whatever ranks strictly
      before a returned memory is returned too, and memories that tie keep
      their input order. */
  lemma QueryRanking(memories: seq<MemoryEntry>, queryTexts: seq<string>, limit: int,
                     sqrt: real -> real)
    requires IsSqrt(sqrt) && |QueryTokens(queryTexts)| > 0
    ensures var r := RelevantMemories(memories, queryTexts, limit, sqrt);
      var order := MoreRelevant(Frequencies(QueryTokens(queryTexts)), sqrt);
      && Sorted(r, order)
      && (forall x, y | x in memories && y in r && order(x, y) :: x in r)
      && (forall k :: TiedWith(r, order, k) <= TiedWith(memories, order, k))
  {
    var order := MoreRelevant(Frequencies(QueryTokens(queryTexts)), sqrt);
    MoreRelevantOrder(Frequencies(QueryTokens(queryTexts)), sqrt);
    if |memories| > 0 && limit != 0 {
      TopSorted(memories, order, limit);
      forall k ensures TiedWith(SliceTo(SortBy(memories, order), limit), order, k)
                    <= TiedWith(memories, order, k) {
        TopStable(memories, order, limit, k);
      }
    }
  }

  /** Against any query vector built from tokens, a memory whose salience
      is in [0, 1] scores in [0, 1]. */
  lemma ScoreRange(tokens: seq<string>, m: MemoryEntry, sqrt: real -> real)
    requires IsSqrt(sqrt) && SalienceInRange(m)
    ensures 0.0 <= Score(Frequencies(tokens), m, sqrt) <= 1.0
  {
    FrequenciesCounted(tokens);
    FrequenciesCounted(Tokenize(MemoryText(m)));
    SimilarityBounds(Frequencies(tokens), MemoryVector(m), sqrt);
    BlendScoreRange(Similarity(Frequencies(tokens), MemoryVector(m), sqrt), m.salience);
  }

  /** A memory scores more than its weighted salience exactly when its text
      shares a token with the query; otherwise its score is its weighted
      salience alone. */
  lemma ScoreShares(tokens: seq<string>, m: MemoryEntry, sqrt: real -> real)
    requires IsSqrt(sqrt)
    ensures Score(Frequencies(tokens), m, sqrt) >= m.salience * 0.3
    ensures Score(Frequencies(tokens), m, sqrt) > m.salience * 0.3
        <==> exists t :: t in tokens && t in Tokenize(MemoryText(m))
  {
    var q, v := Frequencies(tokens), MemoryVector(m);
    FrequenciesCounted(tokens);
    FrequenciesCounted(Tokenize(MemoryText(m)));
    FrequencyKeys(tokens);
    FrequencyKeys(Tokenize(MemoryText(m)));
    SimilarityBounds(q, v, sqrt);
    SimilarityPositive(q, v, sqrt);
  }

  /** The salience fallback on two memories of salience 0.2 and 0.8 with no
      query text returns the 0.8 one first. */
  lemma FallbackExample(low: MemoryEntry, high: MemoryEntry, sqrt: real -> real)
    requires IsSqrt(sqrt) && low.salience == 0.2 && high.salience == 0.8
    ensures RelevantMemories([low, high], [], 2, sqrt) == [high, low]
  {
    assert SplitWords(ToLower(Join([], " "))) == [""];
    assert Filter([""], (p: string) => |p| > 0) == [];
    assert QueryTokens([]) == [];
    assert SortBy([high], MoreSalient) == [high];
    assert SortBy([low, high], MoreSalient) == Insert(low, [high], MoreSalient);
  }

  /** `findRelevantMemories`: the query vector is built once, each memory is
      scored in turn, the scored memories are sorted and sliced, and the
      memories are taken back out. */
  method FindRelevantMemories(memories: seq<MemoryEntry>, queryTexts: seq<string>,
                              options: Option<RetrievalOptions>, sqrt: real -> real)
    returns (result: seq<MemoryEntry>)
    requires IsSqrt(sqrt)
    ensures result == RelevantMemories(memories, queryTexts, LimitOf(options), sqrt)
  {
    var limit := LimitOf(options);
    if |memories| == 0 || limit == 0 {
      return [];
    }
    var queryTokens := Tokenize(Join(queryTexts, " "));
    if |queryTokens| == 0 {
      return SliceTo(SortBy(memories, MoreSalient), limit);
    }
    var queryVector := TermFrequency(queryTokens);
    var scored := ScoreAll(queryVector, memories, sqrt, Map(memories, Scored(queryVector, sqrt)));
    var ranked := SortBy(scored, RanksBefore);
    result := Map(SliceTo(ranked, limit), Unscored);
    RankedMemories(memories, queryVector, sqrt, limit);
  }
}
