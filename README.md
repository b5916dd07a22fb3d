# talae memory selection, modelled in Dafny

talae is a role-play backend. Characters and universes carry short
*memories*. Each memory has some content, a salience in [0, 1], tags and a
creation time. This project models the code that decides which memories
reach a language-model prompt, and proves what that code promises.

- **Lexical ranking** (`MemoryRetrievalService.findRelevantMemories`).
  - The text is tokenised (modules `Tokenizer`, `Lexical`).
  - Term-frequency maps are built as insertion-ordered maps (`OrderedMap`).
  - Memories are compared with the query by a sparse cosine similarity.
  - Each score is blended as 0.7 × similarity + 0.3 × salience.
  - Results are ranked by score, then by recency, and cut to the limit (`MemoryRetrieval`).
  - A query without tokens falls back to ranking by salience alone.
- **In-memory vector store** (`Vectorstore`).
  - Named partitions are created on first use.
  - Each partition is an ordered map from record id to the record and its precomputed norm.
  - Upsert, delete, and a filtered, sorted, limited cosine query.
- **Memory adapters** (`MemoryAdapters`): the character and universe memory
  ports over the store. Both store each memory in the partition
  `character:<id>` or `universe:<id>`, and search it.
- **Salience selection and prompt assembly** in the two application services.
  - `EvolveWorld`: the top five memories by salience, the evolve prompt, and the write-back.
  - `GenerateResponse`: the top ten memories, the system prompt, and the time-ordered history.
- **Ollama adapter** (`OllamaAdapter`): messages flattened to one prompt, and
  the request options.
- **Supporting modules.**
  - `Sorting`: JavaScript's stable `Array.prototype.sort`, both as a function and as an in-place array sort proved equal to it.
  - `Vectors`: dot products, sums of squares, Cauchy–Schwarz.
  - `Domain`: the records.
  - `Ports`: the database and language-model ports as in-memory classes that log their calls.

`Math.sqrt` is a parameter `sqrt` constrained by `IsSqrt`: for `x >= 0`,
`sqrt(x) >= 0` and `sqrt(x) * sqrt(x) == x`. Numbers are reals.
`Number.isFinite` on a norm is modelled as "the sum of squares is at most
the largest finite double".

Where the code and its design description disagree, the model follows the
code:

- **Zero-score records are kept.** A record whose vector has another length,
  or whose stored norm is 0, is still returned by a query, with score 0. It
  is not dropped from the ranking (`Vectorstore.ZeroScoreReturned`).
- **Non-ASCII text.** The tokenizer splits on every character outside
  `[a-z0-9]`, so non-Latin text contributes no token at all. It is not kept
  as a whole-string token.
- **The services rank by salience only.** `evolveUniverse` and
  `generateResponse` never use the lexical ranking. Both select by salience.
- **`evolveUniverse` reorders the stored memories.** It sorts the fetched
  universe's memory array in place and writes that universe back, so a
  successful evolution stores the memories in salience order
  (`EvolveWorld.Evolved`, `EvolveWorld.SelectRelevantMemories`).
  `generateResponse` also sorts in place, but only on records it fetched and
  then discards, so nothing observable changes there.

## Model

| member | source | states |
|---|---|---|
| OrderedMap.SetSpec | packages/core/application/services/memory_retrieval_service.ts:104 | `Map.set` adds the key, maps it to the value and leaves every other lookup alone; a present entry is replaced where it stands, a new one appended |
| OrderedMap.DeleteSpec | apps/backend/adapters/vectorstore/vectorstore.ts:43-45 | `Map.delete` removes the key and no other lookup changes; deleting an absent key changes nothing |
| OrderedMap.IndexOfSpec | packages/core/application/services/memory_retrieval_service.ts:123 | a lookup finds nothing exactly for an absent key, and otherwise finds the first entry with that key |
| OrderedMap.GetNone | packages/core/application/services/memory_retrieval_service.ts:123 | `get` returns `undefined` exactly for an absent key |
| Sorting.SortBySorted | packages/core/application/services/memory_retrieval_service.ts:62-64 | the sort leaves no element strictly before an earlier one, for any comparator that is a strict weak order |
| Sorting.SortByStable | packages/core/application/services/memory_retrieval_service.ts:62-64 | the sort is stable: the elements of every tie class appear in input order |
| Sorting.SortByMap | packages/core/application/services/memory_retrieval_service.ts:78-84 | sorting records and then projecting them gives the projections sorted by the carried-over order |
| Sorting.TopSorted | packages/core/application/services/memory_retrieval_service.ts:62-64 | `sort(...).slice(0, end)` is in order, and whatever goes strictly before a kept element is kept too |
| Sorting.TopStable | packages/core/application/services/memory_retrieval_service.ts:62-64 | the kept elements of each tie class are the first of that class in input order |
| Sorting.SortInPlace | packages/core/application/services/evolve_world_service.ts:69-70 | `array.sort(compare)` in place: afterwards the array holds exactly the stable sort of its old contents |
| Sorting.InsertInPlace | packages/core/application/services/evolve_world_service.ts:69-70 | one step of the in-place sort moves an element into the sorted suffix after it and leaves the prefix alone |
| Domain.SalienceOrder | packages/core/application/services/evolve_world_service.ts:70 | the comparator `b.salience - a.salience` is a strict weak order |
| Domain.TopBySalience | packages/core/application/services/evolve_world_service.ts:69-71 | the top-`limit` selection by salience has `min(limit, n)` memories drawn from the input, in descending salience; no left-out memory is more salient than a kept one; equal saliences keep input order |
| Tokenizer.ToLowerIdempotent | packages/core/application/services/memory_retrieval_service.ts:95 | lower-casing twice is lower-casing once |
| Tokenizer.SplitWords | packages/core/application/services/memory_retrieval_service.ts:96 | `split(/[^a-z0-9]+/)` yields at least one piece, and every piece is a run of `[a-z0-9]` |
| Tokenizer.SplitWordsRuns | packages/core/application/services/memory_retrieval_service.ts:96 | the pieces break exactly at the separators: the first piece is the maximal `[a-z0-9]` run that opens the text, and every later piece is a maximal run standing further on, bounded on each side by a separator or an end of the text |
| Tokenizer.SplitWordsKeepsWordChars | packages/core/application/services/memory_retrieval_service.ts:96 | the pieces, concatenated, are exactly the word characters of the text in order |
| Tokenizer.TokenizeMembers | packages/core/application/services/memory_retrieval_service.ts:93-99 | a string is a token exactly when it is a non-empty piece of the lower-cased split and not a stopword; every token is a non-empty `[a-z0-9]` run outside the stopword list |
| Tokenizer.TokenizeIgnoresCase | packages/core/application/services/memory_retrieval_service.ts:95 | tokenising the lower-cased text gives the same tokens |
| Lexical.Frequencies | packages/core/application/services/memory_retrieval_service.ts:101-107 | the term-frequency map has no duplicate key |
| Lexical.TermFrequency | packages/core/application/services/memory_retrieval_service.ts:101-107 | the counting loop builds the term-frequency map of the tokens |
| Lexical.FrequencyIsMultiplicity | packages/core/application/services/memory_retrieval_service.ts:101-107 | each count is the number of occurrences of its token |
| Lexical.FrequencyKeys | packages/core/application/services/memory_retrieval_service.ts:101-107 | the keys are exactly the distinct tokens |
| Lexical.FrequenciesCounted | packages/core/application/services/memory_retrieval_service.ts:101-107 | every count is at least 1 |
| Lexical.FrequenciesSum | packages/core/application/services/memory_retrieval_service.ts:101-107 | the counts add up to the number of tokens |
| Lexical.QueryMagnitude | packages/core/application/services/memory_retrieval_service.ts:117-119 | the first loop computes the squared magnitude of the query map |
| Lexical.MemoryTotals | packages/core/application/services/memory_retrieval_service.ts:121-127 | the second loop computes the memory's squared magnitude and its dot product with the query, a missing query token counting 0 |
| Lexical.LookupBounds | packages/core/application/services/memory_retrieval_service.ts:123-126 | a looked-up query count is 0 for a missing token and at least 1 for a present one |
| Lexical.AlignedProjection | packages/core/application/services/memory_retrieval_service.ts:121-127 | the query counts the memory picks out weigh no more than the whole query |
| Lexical.CosineSimilarity | packages/core/application/services/memory_retrieval_service.ts:109-135 | the method returns the cosine: 0 when the dot product or a magnitude is 0, else the dot product over the product of the roots |
| Lexical.CosineOfRange | packages/core/application/services/memory_retrieval_service.ts:129-134 | a dot product bounded by Cauchy–Schwarz gives a cosine in [0, 1], positive once nothing is 0 |
| Lexical.SimilarityBounds | packages/core/application/services/memory_retrieval_service.ts:129-134 | the similarity of two term-frequency maps lies in [0, 1], and is positive when the dot product and both magnitudes are non-zero |
| Lexical.SimilarityPositive | packages/core/application/services/memory_retrieval_service.ts:129-134 | the similarity is positive exactly when the two maps share a token |
| Lexical.SimilaritySelf | packages/core/application/services/memory_retrieval_service.ts:133-134 | a non-empty map has similarity 1 with itself |
| MemoryRetrieval.BlendScoreRange | packages/core/application/services/memory_retrieval_service.ts:87-91 | a similarity and a salience in [0, 1] blend to a score in [0, 1] |
| MemoryRetrieval.BlendScoreMonotone | packages/core/application/services/memory_retrieval_service.ts:87-91 | the blend is monotone in both arguments, strictly when either grows |
| MemoryRetrieval.RanksBeforeOrder | packages/core/application/services/memory_retrieval_service.ts:79-82 | the score-then-recency comparator is a strict weak order |
| MemoryRetrieval.MoreRelevantOrder | packages/core/application/services/memory_retrieval_service.ts:79-82 | the same order on memories, with scores computed against the query, is a strict weak order |
| MemoryRetrieval.RankedMemories | packages/core/application/services/memory_retrieval_service.ts:78-84 | sorting the scored memories, slicing and taking the memories back out is sorting the memories by score and slicing |
| MemoryRetrieval.RelevantMemories | packages/core/application/services/memory_retrieval_service.ts:54-84 | the result is empty for limit 0 or no memory, otherwise it has as many memories as `slice(0, limit)` keeps; it is drawn from the input |
| MemoryRetrieval.FallbackRanking | packages/core/application/services/memory_retrieval_service.ts:60-65 | with no query token the result is sorted by salience; nothing more salient than a returned memory is left out; equal saliences keep input order |
| MemoryRetrieval.QueryRanking | packages/core/application/services/memory_retrieval_service.ts:78-84 | with query tokens the result is sorted by score, then by later creation time; nothing that ranks strictly higher than a returned memory is left out; ties keep input order |
| MemoryRetrieval.ScoreRange | packages/core/application/services/memory_retrieval_service.ts:73-74 | a memory with salience in [0, 1] scores in [0, 1] |
| MemoryRetrieval.ScoreShares | packages/core/application/services/memory_retrieval_service.ts:73-74 | a score is at least 0.3 × salience, and exceeds it exactly when the memory's text shares a token with the query |
| MemoryRetrieval.FallbackExample | packages/core/application/services/memory_retrieval_service.test.ts:93-113 | with no query text, memories of salience 0.2 and 0.8 come back 0.8 first |
| MemoryRetrieval.ScoreMemory | packages/core/application/services/memory_retrieval_service.ts:68-76 | the `map` callback tokenises, counts, compares and blends one memory into its scored entry |
| MemoryRetrieval.ScoreAll | packages/core/application/services/memory_retrieval_service.ts:68-76 | the `map` gives every memory its score, in input order |
| MemoryRetrieval.FindRelevantMemories | packages/core/application/services/memory_retrieval_service.ts:49-85 | the method returns `RelevantMemories` with the limit defaulting to 10 |
| Vectorstore.NormSpec | apps/backend/adapters/vectorstore/vectorstore.ts:70-75 | the norm is never negative, and it is 0 exactly for the zero vector or an overflowing sum of squares |
| Vectorstore.NormPositive | apps/backend/adapters/vectorstore/vectorstore.ts:70-75 | a nonzero norm is the positive root of a positive, finite sum of squares |
| Vectorstore.ScoreBounds | apps/backend/adapters/vectorstore/vectorstore.ts:77-93 | with norms computed by `#computeNorm`, a score lies in [-1, 1] |
| Vectorstore.SelfScore | apps/backend/adapters/vectorstore/vectorstore.ts:77-93 | a record queried with its own nonzero, finite vector scores exactly 1 |
| Vectorstore.CandidatesCount | apps/backend/adapters/vectorstore/vectorstore.ts:57-63 | the scan pushes at most one match per record, and exactly one per record when there is no filter |
| Vectorstore.CandidateOrigin | apps/backend/adapters/vectorstore/vectorstore.ts:57-63 | every pushed match is the match of a stored record that passes the filter |
| Vectorstore.CandidateComplete | apps/backend/adapters/vectorstore/vectorstore.ts:57-63 | every record that passes the filter has its match pushed |
| Vectorstore.HigherScoreOrder | apps/backend/adapters/vectorstore/vectorstore.ts:65 | the comparator `b.score - a.score` is a strict weak order |
| Vectorstore.QueryCount | apps/backend/adapters/vectorstore/vectorstore.ts:51-67 | a zero query norm returns nothing; otherwise as many candidates as the limit keeps, and all of them once each when there is no limit |
| Vectorstore.QueryMember | apps/backend/adapters/vectorstore/vectorstore.ts:57-67 | every returned match is the match of a stored record that passes the filter |
| Vectorstore.QueryOrder | apps/backend/adapters/vectorstore/vectorstore.ts:65-67 | matches come back highest score first, ties in record order, and no higher-scoring candidate is left out |
| Vectorstore.ZeroScoreReturned | apps/backend/adapters/vectorstore/vectorstore.ts:82-87 | a passing record with another vector length or a zero stored norm is still returned by an unlimited query, with score 0 |
| Vectorstore.QueryScore | apps/backend/adapters/vectorstore/vectorstore.ts:61-62 | on a well-formed partition every returned score lies in [-1, 1] |
| Vectorstore.MemoryPartition.constructor | apps/backend/adapters/vectorstore/vectorstore.ts:36 | a new partition is empty and well formed |
| Vectorstore.MemoryPartition.Upsert | apps/backend/adapters/vectorstore/vectorstore.ts:38-41 | the record and its norm are filed under its id, replacing any record with that id; no other id changes; the partition stays well formed |
| Vectorstore.MemoryPartition.Delete | apps/backend/adapters/vectorstore/vectorstore.ts:43-45 | the id is removed and no other id changes; an absent id leaves the partition unchanged |
| Vectorstore.MemoryPartition.Query | apps/backend/adapters/vectorstore/vectorstore.ts:47-68 | the scan, sort and slice return `QueryResult`, whose properties the lemmas above state |
| Vectorstore.MemoryVectorstore.constructor | apps/backend/adapters/vectorstore/vectorstore.ts:97 | a new store has no partition |
| Vectorstore.MemoryVectorstore.Partition | apps/backend/adapters/vectorstore/vectorstore.ts:99-104 | an existing partition is returned unchanged; a new name gets a fresh empty partition; partitions with different names stay distinct objects |
| MemoryAdapters.PartitionName | apps/backend/adapters/vectorstore_character_memory_adapter.ts:68-70 | the partition name is the prefix followed by the owner id |
| MemoryAdapters.PartitionNamesDistinct | apps/backend/adapters/vectorstore_universe_history_adapter.ts:68-70 | distinct owners get distinct partitions, and no character partition is a universe partition |
| MemoryAdapters.StoredEntry | apps/backend/adapters/vectorstore_character_memory_adapter.ts:35-41 | the stored entry copies content, salience and tags from the draft and carries the new id and the creation time |
| MemoryAdapters.SearchIsolated | apps/backend/adapters/vectorstore_character_memory_adapter.ts:60-65 | a search of an owner's partition returns only entries stored for that owner |
| MemoryAdapters.AddedEntryFound | apps/backend/adapters/vectorstore_character_memory_adapter.ts:46-65 | once added, an entry is found by an unlimited search of its partition with any nonzero query embedding |
| MemoryAdapters.MemoryAdapter.constructor | apps/backend/adapters/vectorstore_character_memory_adapter.ts:22-28 | a new adapter has its own empty store |
| MemoryAdapters.MemoryAdapter.Add | apps/backend/adapters/vectorstore_character_memory_adapter.ts:30-53 | a failing embedding changes nothing; otherwise the entry goes into the owner's partition under its id, with the embedding and `{ownerId, entry}`, and is returned; no other partition changes; every partition holds only its owner's entries |
| MemoryAdapters.MemoryAdapter.UpsertInto | apps/backend/adapters/vectorstore_character_memory_adapter.ts:43-50 | get-or-create the partition, then upsert into it; no other partition changes |
| MemoryAdapters.MemoryAdapter.Search | apps/backend/adapters/vectorstore_character_memory_adapter.ts:55-66 | the owner's partition is queried with the caller's limit and no filter, and the entries of the matches come back in match order; no record changes |
| MemoryAdapters.MemoryAdapter.OwnerPartition | apps/backend/adapters/vectorstore_character_memory_adapter.ts:61-63 | the owner's partition, created empty if needed; no existing partition changes |
| Ports.Database.GetUniverse | packages/core/application/ports/out/database_port.ts:11 | `get(["universe", id])` returns the stored universe, or nothing exactly when none is stored |
| Ports.Database.GetCharacter | packages/core/application/ports/out/database_port.ts:11 | `get(["character", id])` returns the stored character, or nothing exactly when none is stored |
| Ports.Database.SetUniverse | packages/core/application/ports/out/database_port.ts:17 | `set` creates or replaces that universe and nothing else |
| Ports.Database.ListMessages | packages/core/application/ports/out/database_port.ts:28 | `list` returns the conversation's messages, or none |
| Ports.LanguageModel.Generate | packages/core/application/ports/out/llm_port.ts:22-25 | one request is logged and its outcome returned |
| Ports.LanguageModel.GenerateStream | packages/core/application/ports/out/llm_port.ts:31-34 | one request is logged and its chunks, or its error, returned |
| EvolveWorld.SelectRelevantMemories | packages/core/application/services/evolve_world_service.ts:65-72 | the caller's array is sorted in place by salience and its first `limit` entries are returned |
| EvolveWorld.MemoryContext | packages/core/application/services/evolve_world_service.ts:78-82 | the fallback text appears exactly when no memory is selected |
| EvolveWorld.MemoryContextLines | packages/core/application/services/evolve_world_service.ts:79-81 | otherwise the block splits back into one `- content (importance: salience)` line per memory, in selection order |
| EvolveWorld.EvolvePrompt | packages/core/application/services/evolve_world_service.ts:84-91 | the prompt starts with the universe's name line and ends with the closing question |
| EvolveWorld.EvolvePromptLines | packages/core/application/services/evolve_world_service.ts:84-91 | when the universe's fields hold no line break, the prompt reads line by line as the name, description and state lines, a blank line, the `Relevant Memories:` heading, the memory block, a blank line and the question |
| EvolveWorld.MemoryBlockLines | packages/core/application/services/evolve_world_service.ts:78-82 | the memory block is one line per selected memory, in selection order, or the single fallback line when none is selected |
| EvolveWorld.PromptLayout | packages/core/application/services/evolve_world_service.ts:84-91 | the block's lines stand at lines 5 onwards of the prompt, followed by a blank line and the question's lines |
| EvolveWorld.EvolvePromptMemories | packages/core/application/services/evolve_world_service.ts:78-91 | for any selection, line 5 onwards of the prompt is one `- content (importance: salience)` line per selected memory in order (or the fallback line), then a blank line and the question |
| EvolveWorld.EvolveRequestMemories | packages/core/application/services/evolve_world_service.ts:65-91 | the user message of the request carries, from its sixth line on, one line for each of the `min(5, n)` most salient memories in salience order (or the fallback line when there is none), then a blank line and the question |
| EvolveWorld.Evolved | packages/core/application/services/evolve_world_service.ts:51-55 | the written universe keeps its identity, name, description, creation time and memories (reordered), and takes the new state and evolution time |
| EvolveWorld.EvolveWorldService.constructor | packages/core/application/services/evolve_world_service.ts:84-91 | the service closes every prompt with the fixed evolve question |
| EvolveWorld.EvolveWorldService.EvolveUniverse | packages/core/application/services/evolve_world_service.ts:21-63 | a missing universe is an error, with no model call and no write; otherwise exactly one request carrying the five most salient memories; a model error is returned and nothing is written; a success stores the evolved universe and returns its state |
| GenerateResponse.ConversationOrder | packages/core/application/services/generate_response_service.ts:41-43 | the messages are put in non-decreasing `createdAt` order, as a permutation, with equal times kept in stored order |
| GenerateResponse.History | packages/core/application/services/generate_response_service.ts:88-95 | one model message per stored message, same order and content; the user's messages are the user's, all others the assistant's, none a system message |
| GenerateResponse.MemorySection | packages/core/application/services/generate_response_service.ts:60-72 | the fallback text appears exactly when the character has no memory |
| GenerateResponse.MemorySectionLines | packages/core/application/services/generate_response_service.ts:60-64 | otherwise the section splits back into one `- content` line for each of the `min(10, n)` most salient memories |
| GenerateResponse.SystemPrompt | packages/core/application/services/generate_response_service.ts:66-85 | the prompt starts by naming the character and ends with the rules |
| GenerateResponse.PromptTextLines | packages/core/application/services/generate_response_service.ts:66-85 | a prompt laid out as greeting, blank line, description, state, blank line, heading, section, blank line and rules splits into those lines, the section's and the rules' own lines in place |
| GenerateResponse.SystemPromptLines | packages/core/application/services/generate_response_service.ts:66-85 | when the character's fields hold no line break, the system prompt reads line by line as the greeting, a blank line, the description and state lines, a blank line, the `Your Memories:` heading, the memory section, a blank line and the rules |
| GenerateResponse.MemorySectionBlock | packages/core/application/services/generate_response_service.ts:60-72 | the memory section is one `- content` line per listed memory, in salience order, or the single fallback line when the character has none |
| GenerateResponse.SystemPromptLayout | packages/core/application/services/generate_response_service.ts:66-85 | the section's lines stand at lines 6 onwards of the prompt, followed by a blank line and the rules' lines |
| GenerateResponse.SystemPromptMemories | packages/core/application/services/generate_response_service.ts:60-85 | from its seventh line on, the system prompt carries one `- content` line for each of the `min(10, n)` most salient memories in salience order (or the fallback line when there is none), then a blank line and the rules |
| GenerateResponse.ResponseRequest | packages/core/application/services/generate_response_service.ts:45-56 | the model input is the system prompt followed by the time-ordered history; no later message is a system message |
| GenerateResponse.GenerateResponseService.constructor | packages/core/application/services/generate_response_service.ts:74-85 | the service closes every system prompt with the fixed rules text |
| GenerateResponse.GenerateResponseService.GenerateResponse | packages/core/application/services/generate_response_service.ts:22-57 | a missing character is an error raised before any model call; otherwise exactly one streaming request, built from the sorted messages, whose chunks are the reply, or whose error is passed on |
| OllamaAdapter.ParseRender | apps/backend/adapters/llm/ollama_adapter.ts:70-76 | a rendered block reads back into its message: role from the label, content after it |
| OllamaAdapter.RenderInjective | apps/backend/adapters/llm/ollama_adapter.ts:70-76 | two messages render to the same block exactly when they are equal |
| OllamaAdapter.SplitBlocks | apps/backend/adapters/llm/ollama_adapter.ts:78 | blocks joined by a blank line split back into the blocks, when none holds a line break |
| OllamaAdapter.PromptRoundTrip | apps/backend/adapters/llm/ollama_adapter.ts:68-79 | the prompt reads back into exactly the messages it was built from, roles and order included, when no content holds a line break |
| OllamaAdapter.RequestOptions | apps/backend/adapters/llm/ollama_adapter.ts:22-34 | temperature is copied, `maxTokens` becomes `num_predict`, and there is no options object exactly when neither is set |
| OllamaAdapter.BuildRequestOptions | apps/backend/adapters/llm/ollama_adapter.ts:22-34 | the conditional field assignments and the key count build `RequestOptions` |
| OllamaAdapter.OllamaClient.Generate | apps/backend/adapters/llm/ollama_client.ts:35-52 | one request is logged and its reply returned |
| OllamaAdapter.OllamaClient.GenerateStream | apps/backend/adapters/llm/ollama_client.ts:54-106 | one request is logged and its chunks, or its error, returned |
| OllamaAdapter.Adapter.Generate | apps/backend/adapters/llm/ollama_adapter.ts:17-37 | exactly one client request with the flattened prompt and mapped options; the reply's `response` field is returned, and a client error is passed on |
| OllamaAdapter.Adapter.GenerateStream | apps/backend/adapters/llm/ollama_adapter.ts:39-58 | the same request `generate` sends for the same inputs; the client's chunks, or its error, are returned |

## Left out

- Floating point. Scores, norms and cosines are exact reals, and `Math.sqrt` is an abstract square root. IEEE rounding and NaN are not modelled. Overflow of a norm is modelled only through the largest-finite-double bound in `#computeNorm`.
- Vectorstore.SelfScore: states an exact score of 1, where the design allows rounding error.
- Unicode case mapping. `toLowerCase` is modelled on ASCII letters only. The few non-ASCII characters that lower-case into `[a-z]` (for example the Kelvin sign) would give different tokens.
- The concrete spaceship test (memory_retrieval_service.test.ts:60-91). Its outcome depends on tokenising specific sentences, which is not evaluated here. The general properties it illustrates are `MemoryRetrieval.QueryRanking` and `MemoryRetrieval.ScoreShares`.
- Non-integer and `NaN` limits. Limits are integers. Negative limits follow `slice` and count from the end.
- The JavaScript conversion of a salience to text in a template literal. It is the parameter `show`.
- The embedding call, `crypto.randomUUID()` and `new Date()`. They are the parameters `embed`, `id` and `now`.
- The language model. It is a pair of fixed functions from the request to the outcome (`complete`) and to the chunks (`stream`). Streaming is modelled as the collected sequence of chunks or one error, with no interleaving.
- GenerateResponse.GenerateResponseService.GenerateResponse: a stream that fails after yielding some chunks is modelled as its error alone; the chunks yielded before the failure are not kept, and the JSON lines the client skips are not modelled.
- The prompt texts that close each prompt (the evolve question, the conversation rules) are constants of the services, passed to the prompt functions as parameters.
- `async`, promises and concurrency. Every operation runs to completion as one step.
- Database failures, and the catch branch that wraps a non-`Error` throw into "Failed to evolve universe". Only language-model errors, of a whole request or of a stream, are modelled, as `Result` values.
- `DatabasePort.delete` and `atomic`. The services do not call them.
- The HTTP Ollama client. It is replaced by an in-memory client that logs requests; response parsing and the `stream` flag it sets are not part of this model.
- `OllamaAdapter.embed`: it calls a client method that does not exist in the client source, so it is not part of this model.
- The OpenAI adapter, routes, persistence, configuration, the seed script and the frontend are not part of this model.
- The two memory adapters share one class, `MemoryAdapters.MemoryAdapter`, which differs only in its partition prefix. Each adapter owns its store. A store shared between a character adapter and a universe adapter is covered only through `MemoryAdapters.PartitionNamesDistinct`.
- The sort inside `#buildSystemPrompt` is modelled as the sort function. It sorts a fetched copy that is then discarded, so its in-place effect is not observable.
- The zod schemas are used only as record shapes. Their UUID checks and the salience range check are not enforced on construction. Where a property needs the salience range, it is a precondition (`SalienceInRange`).
