# Retrieval core of a retrieval-augmented chatbot, in Dafny

This project models the retrieval pipeline of a chatbot that answers questions from a knowledge file, and proves properties of that model.

- **Embedding cache.** Each embedding vector is kept in a Redis store under `embed:` followed by a hash of its text, with a fixed lifetime. `getAndCacheEmbeddings` serves a batch of texts from the cache, sends all misses to the embedding provider in a single batch, writes the new vectors back into the cache, and puts every vector at its original position.
- **In-memory retriever.** It cuts the knowledge text into chunks of 250 words, embeds each chunk, and stores the chunks with ids `chunk_0`, `chunk_1`, …. For a query it returns the `k` chunks whose vectors score highest against the query vector, best first. Chunks with equal scores come out in load order.
- **Pure helpers.**
  - the word-window chunker;
  - the page arithmetic of the history listing;
  - prompt assembly, which truncates the context and selects the history;
  - detection of a query's language (Persian, English or unknown), which picks the reply instruction appended to the prompt.

Modules:

| file | module | form |
|---|---|---|
| outcomes.dfy | `Outcomes` | `Option`, `Result`, `Outcome` |
| arith.dfy | `Arith` | `Min`, `Max` |
| text.dfy | `Text` | JavaScript string primitives: `\s`, `join`, splitting into words, decimal rendering |
| redis.dfy | `Redis` | the key-value store: a class with `entries`, `clock` and a `reachable` flag; GET and SETEX |
| embedding_cache.dfy | `EmbeddingCache` | the cache service class, the provider (a class that logs its calls), `GetAndCacheEmbeddings` as loops proved against the specification function `EmbedOutcome` |
| chunk.dfy | `Chunk` | `SplitIntoChunks` as a loop proved against the specification function `Chunks` |
| inmemory_retrieval.dfy | `InMemoryRetrieval` | the retriever class (`chunks` field), corpus construction, and a stable ranking by score |
| pagination.dfy | `Pagination` | `GetPaginationMetadata` |
| language.dfy | `Language` | `DetectLanguage`, `GetLanguageInstruction`, `AddLanguageContext` |
| prompt.dfy | `Prompt` | `BuildPrompt` |

Modelling choices:

- **Vectors** are sequences of exact reals.
- **Strings** are sequences of Unicode code points, one `char` each. A JavaScript string is a sequence of UTF-16 code units, and a code point outside the Basic Multilingual Plane takes two of them. Where the source compares a `length`, the model counts code units with `Text.Utf16Length`.
- **`hashText`** (SHA-256 in the source) is a function value given to the cache service. No claim is made that it is free of collisions.
- **The embedding provider** is a class. Its answer is a fixed function of the texts it receives, and it records every batch it is asked for.
- **The similarity score** (`cosineSimilarity`) is a function value given to the retriever.
- **Reading the knowledge file** is replaced by its contents as an `Option<string>`. `None` means the file could not be read.
- **The Redis store** keeps each entry with its expiry time. GET at clock reading `c` sees an entry only while `c` is before that expiry time. A store that cannot be reached fails every command. SETEX with a non-positive lifetime is refused, as Redis refuses it.
- **The ratio tests** `persian / total > 0.3` and `latin / total > 0.3` are stated exactly in integers, as `10 * count > 3 * total`.

## Model

| member | source | states |
|---|---|---|
| EmbeddingCache.CacheKeyIsHashKey | src/services/embeddingCacheService.ts:24-31 | two texts share a cache key exactly when their hashes agree, because the key is `embed:` followed by the hash; equal texts always share one |
| EmbeddingCache.EmbeddingCacheService.constructor | src/services/embeddingCacheService.ts:15-22 | a new service holds the given store, `cacheTtlSeconds` and hash function |
| EmbeddingCache.EmbeddingCacheService.Get | src/services/embeddingCacheService.ts:28-42 | `get` returns the vector of the live entry under the text's key, and nothing on a miss, on an entry that does not parse, or when the store is unreachable; it never fails |
| EmbeddingCache.EmbeddingCacheService.Set | src/services/embeddingCacheService.ts:44-56 | `set` writes the vector under the text's key, expiring `cacheTtlSeconds` from now; when SETEX fails the store is unchanged and nothing is raised |
| EmbeddingCache.SetThenGet | src/services/embeddingCacheService.ts:31-35 | a vector that was set is what `get` of the same text returns at any time before its lifetime ends, and nothing from then on |
| EmbeddingCache.SetKeepsOtherKeys | src/services/embeddingCacheService.ts:44-51 | `set` leaves the entry of every other key as it was |
| Redis.Store.Get | src/services/redisService.ts:26-28 | GET returns the entry's value while the entry has not expired, and fails when the store is unreachable |
| Redis.Store.SetEx | src/services/redisService.ts:30-32 | SETEX overwrites the key with a value expiring `seconds` from now; it fails and changes nothing when the store is unreachable or `seconds` is not positive |
| EmbeddingCache.Provider.Embed | src/services/embeddingCacheService.ts:65 | one batch call: the answer is the provider's answer for those texts, and the batch is appended to the call log |
| EmbeddingCache.GetAndCacheEmbeddings | src/services/embeddingCacheService.ts:62-99 | result, final store entries, clock, reachability and the provider's call log are `EmbedOutcome`, `EntriesAfterEmbed` and `BatchesSent` of the store as it was before the call |
| EmbeddingCache.LookUpAll | src/services/embeddingCacheService.ts:68-81 | the lookup loop gives each position its own cache answer; `uncachedIndices` is exactly the positions that have no vector, in increasing order; `uncachedTexts[j] == texts[uncachedIndices[j]]` |
| EmbeddingCache.MissIndices | src/services/embeddingCacheService.ts:72-81 | the miss positions are in range, strictly increasing, and include every position without a vector |
| EmbeddingCache.MissedTexts | src/services/embeddingCacheService.ts:72-81 | `uncachedTexts` and `uncachedIndices` have equal length, and `uncachedTexts[j]` is the text at `uncachedIndices[j]` |
| EmbeddingCache.MissStep | src/services/embeddingCacheService.ts:75-80 | one loop step appends position `i` and text `texts[i]` to the miss lists exactly when the lookup at `i` missed |
| EmbeddingCache.StoreAll | src/services/embeddingCacheService.ts:90-95 | the `k`-th new vector is written to the cache under `uncachedTexts[k]` and placed at `uncachedIndices[k]`; every other slot is untouched; the loop stops at the first vector that has no text |
| EmbeddingCache.EmbedOutcome | src/services/embeddingCacheService.ts:68-98 | a successful result has exactly as many vectors as there are texts |
| EmbeddingCache.FillPlacesVectors | src/services/embeddingCacheService.ts:90-98 | the miss of rank `j` receives `computed[j]`; if the provider sent fewer vectors than misses, it receives the empty vector |
| EmbeddingCache.FillKeepsHits | src/services/embeddingCacheService.ts:75-98 | every cache hit stays at its own position in the result and is never overwritten |
| EmbeddingCache.SlotsGiveFill | src/services/embeddingCacheService.ts:94-98 | slots holding each hit at its own position and the `j`-th computed vector at the `j`-th miss become exactly the `Fill` result |
| EmbeddingCache.MissRank | src/services/embeddingCacheService.ts:79 | the miss at position `p` is miss number `|MissIndices(hits[..p])|`, counting from zero |
| EmbeddingCache.MissIndicesPrefix | src/services/embeddingCacheService.ts:72-81 | the misses among a prefix of the batch are a prefix of all the misses |
| EmbeddingCache.AllCachedSendsNothing | src/services/embeddingCacheService.ts:83 | a batch that is fully cached sends nothing to the provider |
| EmbeddingCache.AllHits | src/services/embeddingCacheService.ts:72-81 | when every lookup hits, there are no misses |
| EmbeddingCache.UnreachableLookups | src/services/embeddingCacheService.ts:38-41 | every lookup against an unreachable store misses |
| EmbeddingCache.AllMisses | src/services/embeddingCacheService.ts:72-81 | when every lookup misses, the miss positions are 0, 1, …, n-1 |
| EmbeddingCache.UnreachableCacheSendsEverything | src/services/embeddingCacheService.ts:38-85 | when the store is down, one batch holding every text in input order goes to the provider |
| EmbeddingCache.NoCoalescing | src/services/embeddingCacheService.ts:72-85 | two equal uncached texts in one batch are both sent; duplicates are not merged |
| EmbeddingCache.FailsOnlyThroughProvider | src/services/embeddingCacheService.ts:83-96 | the call fails exactly when there are misses and the provider either fails or returns more vectors than there are misses |
| EmbeddingCache.WriteBackElsewhere | src/services/embeddingCacheService.ts:90-95 | the write-back never touches a key that none of the written texts maps to |
| EmbeddingCache.WriteBackLatest | src/services/embeddingCacheService.ts:90-95 | the entry under a text's key is the last vector written there, with the configured lifetime |
| EmbeddingCache.EmbedOutcomeAsWritten | src/services/embeddingCacheService.ts:68-98 | the result as written: it fails exactly when there are misses and the provider throws or returns more vectors than misses; a successful result has one slot per text, and every cache hit sits at its own position; where the holes are is stated by `EmbeddingCache.AsWrittenHolesAtUnfilledMisses` and `EmbeddingCache.AsWrittenAgreesExceptHoles` |
| EmbeddingCache.AsWrittenAgreesExceptHoles | src/services/embeddingCacheService.ts:68-98 | the result as written and the intended result succeed and fail together and agree on every placed vector; a hole in the written result lies only at a miss, where the intended result has the empty vector |
| EmbeddingCache.AsWrittenHolesAtUnfilledMisses | src/services/embeddingCacheService.ts:68-98 | in a successful written result the miss of rank `j` holds `computed[j]`, and is a hole exactly when the provider sent fewer than `j + 1` vectors |
| EmbeddingCache.PlacedAtMiss | src/services/embeddingCacheService.ts:90-98 | as written, the miss of rank `j` holds `computed[j]` if there is one and is a hole otherwise |
| EmbeddingCache.ShortAnswerLeavesHole | src/services/embeddingCacheService.ts:68-98 | one uncached text and a provider that returns no vectors: the result as written is `[undefined]`, while the intended result is one empty vector |
| InMemoryRetrieval.InMemoryRetrieverService.constructor | src/services/InMemoryRetrievalService.ts:16-22 | a new retriever holds no chunks |
| InMemoryRetrieval.InMemoryRetrieverService.GetChunksCount | src/services/InMemoryRetrievalService.ts:65-67 | the count is the number of stored chunks |
| InMemoryRetrieval.InMemoryRetrieverService.LoadFromFile | src/services/InMemoryRetrievalService.ts:24-45 | if the file cannot be read, it fails with `Failed to read knowledge file: <path>` and changes nothing; if embedding fails, the chunks are unchanged; a success replaces the chunks wholesale with `BuildCorpus` of the 250-word chunks and their vectors |
| InMemoryRetrieval.InMemoryRetrieverService.TopKSimilar | src/services/InMemoryRetrievalService.ts:47-63 | embeds the query through the cache and returns `TopK` of the stored chunks, or the embedding error; the stored chunks are left unchanged |
| InMemoryRetrieval.BuildCorpus | src/services/InMemoryRetrievalService.ts:38-43 | the corpus has one chunk per chunk text |
| InMemoryRetrieval.CorpusEntries | src/services/InMemoryRetrievalService.ts:38-43 | chunk `i` has id `chunk_i`, text `texts[i]`, vector `vectors[i]`, `chunkIndex` `i`, and the file path as source |
| InMemoryRetrieval.CorpusIdsDistinct | src/services/InMemoryRetrievalService.ts:39 | chunk ids are pairwise distinct |
| InMemoryRetrieval.Insert | src/services/InMemoryRetrievalService.ts:54 | insertion keeps the entries: the result is the old list with `x` added, as a multiset |
| InMemoryRetrieval.SortByScore | src/services/InMemoryRetrievalService.ts:54 | sorting is a permutation of the scored list |
| InMemoryRetrieval.InsertRanked | src/services/InMemoryRetrievalService.ts:54 | inserting an entry that comes before all others in load order keeps the list ranked |
| InMemoryRetrieval.SortRanked | src/services/InMemoryRetrievalService.ts:54 | sorting a list that is in load order ranks it: descending score, with equal scores kept in load order (a stable sort) |
| InMemoryRetrieval.SortedInRange | src/services/InMemoryRetrievalService.ts:50-54 | sorting only rearranges the chunk positions |
| InMemoryRetrieval.ScoreAll | src/services/InMemoryRetrievalService.ts:50-53 | every stored chunk receives one score |
| InMemoryRetrieval.RankedIndices | src/services/InMemoryRetrievalService.ts:50-54 | the ranking has one stored position per chunk |
| InMemoryRetrieval.RankedIsStableOrder | src/services/InMemoryRetrievalService.ts:50-54 | the ranking is a permutation of the chunk positions, ordered by descending score, with equal scores in ascending load order |
| InMemoryRetrieval.RankedDistinct | src/services/InMemoryRetrievalService.ts:50-62 | no stored chunk is returned twice |
| InMemoryRetrieval.SliceEnd | src/services/InMemoryRetrievalService.ts:62 | `slice(0, k)` never ends past the list |
| InMemoryRetrieval.TopK | src/services/InMemoryRetrievalService.ts:62 | the result takes the first `SliceEnd(n, k)` entries of the ranking |
| InMemoryRetrieval.TopKLength | src/services/InMemoryRetrievalService.ts:62 | for `k >= 0`, exactly `min(k, n)` chunks are returned |
| InMemoryRetrieval.TopKOrdered | src/services/InMemoryRetrievalService.ts:50-62 | the results are the head of the ranking: non-increasing score, with equal scores in load order |
| InMemoryRetrieval.TopKExcludedScoreLower | src/services/InMemoryRetrievalService.ts:50-62 | every stored chunk that is not returned scores no higher than any returned chunk |
| InMemoryRetrieval.TopKOfEmptyCorpus | src/services/InMemoryRetrievalService.ts:16-62 | a retriever with no chunks returns an empty list |
| InMemoryRetrieval.TopOneIsBest | src/services/InMemoryRetrievalService.ts:50-62 | with `k = 1`, the single result is a chunk with the best score |
| Chunk.SplitIntoChunks | src/utils/chunk.ts:1-8 | the loop returns exactly `Chunks(text, maxWords)`, the space-joined windows of `maxWords` consecutive words; `maxWords >= 1` |
| Chunk.WindowsStep | src/utils/chunk.ts:4-5 | one loop step emits the window that starts at word `i` |
| Chunk.WindowCount | src/utils/chunk.ts:4 | no windows for no words; otherwise `(c-1)*m < n <= c*m` |
| Chunk.WindowSizes | src/utils/chunk.ts:5 | every window holds between 1 and `m` words, and every window but the last holds exactly `m` |
| Chunk.WindowsFlatten | src/utils/chunk.ts:4-5 | the windows, concatenated, are the word list |
| Chunk.WindowsHoldWords | src/utils/chunk.ts:2-5 | every window consists of whitespace-free, non-empty words |
| Chunk.ChunkWordsAreWindows | src/utils/chunk.ts:2-5 | splitting a chunk back into words gives exactly its window |
| Chunk.ChunkCount | src/utils/chunk.ts:2-4 | the number of chunks is `ceil(wordCount / maxWords)` |
| Chunk.ChunkSizes | src/utils/chunk.ts:4-5 | every chunk but the last has exactly `maxWords` words; the last has between 1 and `maxWords` |
| Chunk.ChunksRestoreWords | src/utils/chunk.ts:2-5 | the words of all chunks in order are the words of the text: no overlap and nothing dropped |
| Chunk.ChunksAreTrimmed | src/utils/chunk.ts:2-5 | no chunk is empty, and none starts or ends with whitespace |
| Chunk.NoChunksIffBlank | src/utils/chunk.ts:2-4 | there are no chunks exactly when the text is empty or all whitespace |
| Text.WordLength | src/utils/chunk.ts:2 | a word's length is its leading run of non-whitespace, which ends at whitespace or at the end of the text |
| Text.Words | src/utils/chunk.ts:2 | `split(/\s+/).filter(Boolean)` yields only non-empty words without whitespace |
| Text.WordsEmptyIffBlank | src/utils/chunk.ts:2 | there are no words exactly when the text is all whitespace |
| Text.WordLengthOfWordThenSpace | src/utils/chunk.ts:2-5 | a word followed by a space is read back with its own length |
| Text.WordLengthOfWord | src/utils/chunk.ts:2-5 | a word alone is read back with its own length |
| Text.WordsOfJoin | src/utils/chunk.ts:2-5 | splitting space-joined words gives back those words |
| Text.JoinOfWordsIsTrimmed | src/utils/chunk.ts:5 | space-joined words neither start nor end with whitespace |
| Text.DecimalString | src/services/InMemoryRetrievalService.ts:39 | a decimal rendering has one digit below 10 and at least two from 10 on |
| Text.DigitInjective | src/services/InMemoryRetrievalService.ts:39 | different digits render as different characters |
| Text.DecimalStringInjective | src/services/InMemoryRetrievalService.ts:39 | different numbers render as different decimal strings |
| Text.PrefixCancel | src/services/InMemoryRetrievalService.ts:39 | a common prefix can be cancelled |
| Pagination.CeilDiv | src/utils/pagination.ts:19 | `Math.ceil(a / b)` is the least `q` with `q*b >= a` |
| Pagination.GetPaginationMetadata | src/utils/pagination.ts:14-33 | `totalDocs`, `currentPage` and `limit` are echoed; `totalPages >= 1`, and it is 1 for no documents; otherwise `(totalPages-1)*limit < totalDocs <= totalPages*limit`; `nextPage` is `currentPage+1` exactly when `currentPage < totalPages`; `prevPage` is `currentPage-1` exactly when `currentPage > 1` |
| Pagination.TotalPagesIsLeast | src/utils/pagination.ts:19 | `totalPages` is the least page count of at least one that holds every document |
| Pagination.MulMonotone | src/utils/pagination.ts:19 | multiplying by a positive limit preserves order |
| Pagination.PastTheEnd | src/utils/pagination.ts:21-23 | a page past the last still has a previous page but no next page |
| Pagination.NextThenPrev | src/utils/pagination.ts:21-23 | going to the next page and then back returns to the starting page |
| Pagination.PrevThenNext | src/utils/pagination.ts:21-23 | from an existing page, going back and then forward returns to it |
| Language.CountPersian | src/utils/language.ts:14 | the count of U+0600–U+06FF characters is at most the length, and is zero exactly when there are none |
| Language.CountLatin | src/utils/language.ts:16 | the count of ASCII letters is at most the length, and is zero exactly when there are none |
| Language.LettersAreNotBlank | src/utils/language.ts:10-16 | text containing a Persian-block character or an ASCII letter is neither empty nor blank |
| Language.DetectLanguage | src/utils/language.ts:9-33 | `unknown` exactly when there is no Persian-block character and no ASCII letter, so empty and blank text give `unknown` and the final `unknown` branch is unreachable; `fa` exactly when `10*persian > 3*total`; `en` exactly when there are letters and the Persian share is at most 0.3 |
| Language.BlankHasNoLetters | src/utils/language.ts:10-12 | empty or blank text has no Persian-block character and no ASCII letter, so the early `unknown` agrees with the counts |
| Language.GetLanguageInstruction | src/utils/language.ts:35-45 | the three instruction strings, byte for byte; that they differ is stated by `Language.InstructionsDistinct` and where they go by `Language.AddLanguageContext` |
| Language.InstructionsDistinct | src/utils/language.ts:35-45 | each language has its own instruction |
| Language.AddLanguageContext | src/utils/language.ts:47-54 | the prompt is a prefix of the result, followed by `\n\nLanguage Note: ` and the instruction for the language detected in the query |
| Prompt.ContextSection | src/utils/prompt.ts:8-15 | the context is the chunks joined with `\n---\n`; if its `length` (in UTF-16 code units) is over 2000, it becomes the characters within its first 2000 code units followed by `... [truncated]` |
| Prompt.ContextSectionBmp | src/utils/prompt.ts:12-13 | for text inside the Basic Multilingual Plane, a context over 2000 characters becomes exactly its first 2000 characters followed by `... [truncated]` |
| Text.Utf16Length | src/utils/prompt.ts:12 | JavaScript's `length`: between one and two code units per character |
| Text.BmpLength | src/utils/prompt.ts:12 | text inside the Basic Multilingual Plane has one code unit per character |
| Text.CutAt | src/utils/prompt.ts:13 | the cut is the longest prefix of whole characters that fits in the given number of code units |
| Text.CutAtBmp | src/utils/prompt.ts:13 | inside the Basic Multilingual Plane, a cut at `units` code units keeps exactly `units` characters |
| Prompt.RecentHistory | src/utils/prompt.ts:9-25 | shows all entries when their `\n`-joined text is at most 1000 UTF-16 code units long, otherwise the last five entries, uncut |
| Prompt.HistorySection | src/utils/prompt.ts:17-26 | no section for an empty history; otherwise `Previous conversation:\n`, the shown entries one per line, and a blank line |
| Prompt.BuildPrompt | src/utils/prompt.ts:7-31 | the prompt body followed by `\n\nLanguage Note: ` and the instruction for the question's language |
| Prompt.PromptBody | src/utils/prompt.ts:28 | the prompt before its language note; its layout is stated by `Prompt.PromptLayout` |
| Prompt.PromptLayout | src/utils/prompt.ts:28 | the body is the preamble, the history section, `Context:\n` and the context, `\n\nQuestion: ` immediately followed by the question verbatim, then the instructions, in that order |
| Prompt.Layout | src/utils/prompt.ts:28 | where each part of a seven-part concatenation lies |
| Prompt.NoHistoryNoSection | src/utils/prompt.ts:17-28 | with no history, `Context:\n` follows the preamble directly |

## Left out

- Floating point: vectors are exact reals. Neither `Float32Array` rounding nor the `Float32Array`-or-`number[][]` branch at src/services/embeddingCacheService.ts:86-88 is modelled.
- `cosineSimilarity` (src/utils/similarity.ts) is a function value the retriever is given. Ranking, stability and length do not depend on it.
- SHA-256 (src/services/cryptoService.ts) is a function value. Equal hashes of different texts are allowed, so cache entries may collide.
- The JSON encoding of a stored vector is abstracted to `JsonArray(numbers)` or `Unparsable`. JSON that parses but is not a numeric array, and an empty stored string, count as `Unparsable`, so the model turns them into misses. In the source, `Float32Array.from(JSON.parse(...))` makes some of them hits: a number, `{}` or `true` gives an empty vector, and a string such as `"ab"` gives one `NaN` per character. Only `null` throws, and that becomes a miss. `set` only ever stores a numeric array, so entries the service wrote itself are unaffected. Float32 printing is not modelled.
- Redis itself (src/services/redisService.ts) is a map with a clock. Expiry is the only behaviour kept. Eviction, persistence, reconnection and the client's `error` event handler are not modelled.
- Concurrency: every `await` is a sequential step. No other client touches the store during a call.
- Logging is left out, since it has no effect on results. `providerName` and the provider's `name` are only logged.
- Reading the knowledge file (`fs.readFileSync`, `path.resolve`) is left out. Its contents are an `Option<string>` parameter.
- The embedder classes of src/services/embeddingsService.ts (Cohere, HuggingFace) are left out. The retriever is given the cache service and a provider, which is what their `embed` passes to `getAndCacheEmbeddings`.
- src/services/chromaRetrievalService.ts, chatService.ts and historyService.ts are not part of this model. Neither are the controllers, routes, the server, configuration and the error classes. These are orchestration and I/O.
- EmbeddingCache.GetAndCacheEmbeddings: the source's single function is split into two loop methods, `LookUpAll` and `StoreAll`. The local `embeddings` array is a local sequence; it is never shared, so no aliasing is lost. The result follows the intended behaviour: an unfilled slot becomes the empty vector (see Findings).
- EmbeddingCache.GetAndCacheEmbeddings: when the provider returns more vectors than there are misses, the model ends with `UndefinedText`. This models `hashText(undefined)` throwing and stands for that exception. The first `|misses|` write-backs have already happened.
- EmbeddingCache.GetAndCacheEmbeddings: the store's clock stands still during a call. Every lookup reads at the same clock reading, and every write-back expires `cacheTtlSeconds` after it. In the source the commands run one after another, so an entry can expire between two lookups of one batch, and later writes expire later.
- InMemoryRetrieval.InMemoryRetrieverService.LoadFromFile: uses the intended cache result (see Findings). When the provider returns fewer vectors than there are chunks, the source stores `embedding: undefined` for a chunk without one. A later query with a non-empty query vector then throws a TypeError in `cosineSimilarity` when it reads that chunk's `length`. With an empty query vector (a cached `[]`, or a provider that answers a zero-length vector) the loop test `i < a.length` fails first, and the chunk scores 0. The model stores the empty vector and scores the chunk `similarity(query, [])`, so it agrees with the source in the second case only when `similarity(query, [])` is 0.
- InMemoryRetrieval.InMemoryRetrieverService.TopKSimilar: uses the intended cache result (see Findings). When the provider returns no vector for the query, the source's `queryVec` is `undefined`, and `cosineSimilarity` throws a TypeError as soon as one chunk is stored. The model scores the chunks against the empty vector.
- Prompt.ContextSection: when code unit 2000 falls inside a surrogate pair, `substring(0, 2000)` keeps a lone high surrogate. A Dafny string cannot hold one, so the model cuts before the pair. Otherwise the cut and the length test are in UTF-16 code units, as in the source.
- InMemoryRetrieval.InMemoryRetrieverService.TopKSimilar: `k` is an integer. JavaScript would also accept a fractional or infinite `k` in `slice`; that is not modelled.
- Chunk.SplitIntoChunks: requires `maxWords >= 1`, an integer. Both call sites pass 250. In the source, a zero or negative `maxWords` never advances `i`, so the loop never ends. A fractional one such as 2.5 gives windows of alternately 2 and 3 words, because `slice` truncates its bounds. Neither case is modelled.
- Pagination.GetPaginationMetadata: requires `limit > 0`. JavaScript's result for other limits is not modelled. A negative limit gives `totalPages` 1. A zero limit gives `Infinity` pages, or `NaN` when there are no documents. Non-integer pages and limits are not modelled either. The history controller's validation lets those through.

## Findings

| source | as written | input that shows it | evidently intended | confidence | as-written member | corrected member |
|---|---|---|---|---|---|---|
| src/services/embeddingCacheService.ts:68-98 | `new Array(texts.length)` creates holes, and `Array.prototype.map` skips holes and keeps them in its result, so `e \|\| new Float32Array(0)` never runs for a slot the provider left unfilled; that slot is `undefined` | one text, an empty cache, and a provider that answers with an empty list: the result is `[undefined]` | every unfilled slot becomes an empty vector | not executed; follows from the `map` algorithm in section 23.1.3.21 of ECMAScript 2024 | EmbeddingCache.ShortAnswerLeavesHole | EmbeddingCache.FillPlacesVectors |
