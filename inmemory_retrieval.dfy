/** The brute-force retriever of src/services/InMemoryRetrievalService.ts: the
    knowledge text is cut into chunks of 250 words, each chunk is embedded
    and kept in memory with a numbered id, and a query returns the `k` stored
    chunks its vector scores highest against, best first, ties in load
    order. */
module InMemoryRetrieval {
  import opened Outcomes
  import opened Arith
  import opened Text
  import opened Redis
  import opened Chunk
  import opened EmbeddingCache

  /** A chunk as the retriever stores it; `chunkIndex` and `source` are its
      metadata. */
  datatype StoredChunk = StoredChunk(id: string, text: string, embedding: EmbeddingVector, chunkIndex: nat, source: string)

  datatype RetrieverError =
    | ReadFailed(message: string)
    | EmbeddingFailed(cause: EmbedError)

  /** The chunk size `loadFromFile` asks the chunker for. */
  const ChunkWords := 250

  const ReadFailurePrefix := "Failed to read knowledge file: "

  /** The id of the chunk at position `i`: `chunk_${i}`. */
  function ChunkId(i: nat): string {
    "chunk_" + DecimalString(i)
  }

  /** The corpus built from the chunk texts and their vectors: chunk `i` has
      id `chunk_i`, text `texts[i]`, vector `vectors[i]`, its own position as
      `chunkIndex`, and the file path as `source`. */
  function BuildCorpus(texts: seq<string>, vectors: seq<EmbeddingVector>, source: string): (corpus: seq<StoredChunk>)
    requires |vectors| == |texts|
    ensures |corpus| == |texts|
  {
    seq(|texts|, i requires 0 <= i < |texts| => StoredChunk(ChunkId(i), texts[i], vectors[i], i, source))
  }

  /** Chunk ids are pairwise distinct. */
  lemma CorpusIdsDistinct(texts: seq<string>, vectors: seq<EmbeddingVector>, source: string)
    requires |vectors| == |texts|
    ensures var c := BuildCorpus(texts, vectors, source);
      forall i, j | 0 <= i < j < |c| :: c[i].id != c[j].id
  {
    var c := BuildCorpus(texts, vectors, source);
    forall i, j | 0 <= i < j < |c| ensures c[i].id != c[j].id {
      if c[i].id == c[j].id {
        PrefixCancel("chunk_", DecimalString(i), DecimalString(j));
        DecimalStringInjective(i, j);
      }
    }
  }

  /** A chunk's position, its `chunkIndex` and the number in its id agree,
      and its text and vector are the ones at that position. */
  lemma CorpusEntries(texts: seq<string>, vectors: seq<EmbeddingVector>, source: string, i: nat)
    requires |vectors| == |texts| && i < |texts|
    ensures var c := BuildCorpus(texts, vectors, source)[i];
      c.id == ChunkId(c.chunkIndex) && c.chunkIndex == i
      && c.text == texts[i] && c.embedding == vectors[i] && c.source == source
  {
  }

  /** One entry of `scored`: the position of the chunk and its score. */
  datatype Scored = Scored(index: nat, score: real)

  /** `a` comes first in a stable sort by descending score of a list in
      position order. */
  predicate Before(a: Scored, b: Scored) {
    a.score > b.score || (a.score == b.score && a.index < b.index)
  }

  /** Every entry comes before every later one. */
  predicate Ranked(t: seq<Scored>) {
    forall i, j | 0 <= i < j < |t| :: Before(t[i], t[j])
  }

  /** The score of every stored chunk against the query, in load order. */
  function ScoreAll(chunks: seq<StoredChunk>, query: EmbeddingVector,
                    similarity: (EmbeddingVector, EmbeddingVector) -> real): (s: seq<Scored>)
    ensures |s| == |chunks|
  {
    seq(|chunks|, i requires 0 <= i < |chunks| => Scored(i, similarity(query, chunks[i].embedding)))
  }

  /** Insert `x` before the first entry that does not score higher. */
  function Insert(x: Scored, t: seq<Scored>): (r: seq<Scored>)
    ensures multiset(r) == multiset([x] + t)
  {
    if t == [] || x.score >= t[0].score then [x] + t
    else
      assert t == [t[0]] + t[1..];
      [t[0]] + Insert(x, t[1..])
  }

  /** `scored.sort((a, b) => b.score - a.score)`: a stable sort by descending
      score, written as an insertion sort. */
  function SortByScore(s: seq<Scored>): (r: seq<Scored>)
    ensures multiset(r) == multiset(s)
  {
    if s == [] then []
    else
      assert s == [s[0]] + s[1..];
      Insert(s[0], SortByScore(s[1..]))
  }

  /** An entry that comes before every entry of a ranked list can be put in
      front of it. */
  lemma ConsRanked(a: Scored, t: seq<Scored>)
    requires Ranked(t)
    requires forall j | 0 <= j < |t| :: Before(a, t[j])
    ensures Ranked([a] + t)
  {
    var r := [a] + t;
    forall i, j | 0 <= i < j < |r| ensures Before(r[i], r[j]) {
      if i == 0 {
        assert r[j] == t[j - 1];
      } else {
        assert r[i] == t[i - 1] && r[j] == t[j - 1];
      }
    }
  }

  /** The head of a ranked list comes before everything that inserting a
      lower entry into its tail yields. */
  lemma HeadBeforeInsert(x: Scored, t: seq<Scored>)
    requires Ranked(t) && t != [] && Before(t[0], x)
    ensures forall j | 0 <= j < |Insert(x, t[1..])| :: Before(t[0], Insert(x, t[1..])[j])
  {
    var tail := Insert(x, t[1..]);
    forall j | 0 <= j < |tail| ensures Before(t[0], tail[j]) {
      assert tail[j] in multiset([x] + t[1..]);
      if tail[j] != x {
        assert tail[j] in t[1..];
        var q :| 0 <= q < |t[1..]| && t[1..][q] == tail[j];
        assert t[q + 1] == tail[j];
      }
    }
  }

  /** Inserting an entry that precedes all others in position keeps a list
      ranked. */
  lemma {:induction false} InsertRanked(x: Scored, t: seq<Scored>)
    requires Ranked(t)
    requires forall i | 0 <= i < |t| :: x.index < t[i].index
    ensures Ranked(Insert(x, t))
    decreases |t|
  {
    if t == [] || x.score >= t[0].score {
      forall j | 0 <= j < |t| ensures Before(x, t[j]) {
        if j > 0 {
          assert Before(t[0], t[j]);
        }
      }
      ConsRanked(x, t);
    } else {
      InsertRanked(x, t[1..]);
      HeadBeforeInsert(x, t);
      ConsRanked(t[0], Insert(x, t[1..]));
    }
  }

  /** Sorting a list whose entries are in increasing position order ranks it:
      descending score, and equal scores in their original order. */
  lemma {:induction false} SortRanked(s: seq<Scored>)
    requires forall i, j | 0 <= i < j < |s| :: s[i].index < s[j].index
    ensures Ranked(SortByScore(s))
    decreases |s|
  {
    if s != [] {
      var t := SortByScore(s[1..]);
      SortRanked(s[1..]);
      forall i | 0 <= i < |t| ensures s[0].index < t[i].index {
        assert t[i] in multiset(s[1..]);
        var q :| 0 <= q < |s[1..]| && s[1..][q] == t[i];
        assert s[q + 1] == t[i];
      }
      InsertRanked(s[0], t);
    }
  }

  /** The positions of the stored chunks from best to worst score. */
  function RankedIndices(chunks: seq<StoredChunk>, query: EmbeddingVector,
                         similarity: (EmbeddingVector, EmbeddingVector) -> real): (ranked: seq<nat>)
    ensures |ranked| == |chunks|
    ensures forall i | 0 <= i < |ranked| :: ranked[i] < |chunks|
  {
    var s := ScoreAll(chunks, query, similarity);
    var sorted := SortByScore(s);
    assert |sorted| == |multiset(sorted)| == |chunks|;
    SortedInRange(s, |chunks|);
    seq(|sorted|, i requires 0 <= i < |sorted| => sorted[i].index)
  }

  /** Sorting keeps every position below a bound that held before. */
  lemma SortedInRange(s: seq<Scored>, n: nat)
    requires forall i | 0 <= i < |s| :: s[i].index < n
    ensures forall i | 0 <= i < |SortByScore(s)| :: SortByScore(s)[i].index < n
  {
    var sorted := SortByScore(s);
    forall i | 0 <= i < |sorted| ensures sorted[i].index < n {
      assert sorted[i] in multiset(s);
      var q :| 0 <= q < |s| && s[q] == sorted[i];
    }
  }

  /** The end of `slice(0, k)` on a list of length `n`: a negative `k`
      counts from the end. */
  function SliceEnd(n: nat, k: int): (end: nat)
    ensures end <= n
  {
    if k >= 0 then Min(k, n) else Max(n + k, 0)
  }

  /** `scored.slice(0, k).map((s) => s.chunk)`. */
  function TopK(chunks: seq<StoredChunk>, query: EmbeddingVector,
                similarity: (EmbeddingVector, EmbeddingVector) -> real, k: int): (top: seq<StoredChunk>)
    ensures |top| == SliceEnd(|chunks|, k)
  {
    var ranked := RankedIndices(chunks, query, similarity);
    seq(SliceEnd(|chunks|, k), i requires 0 <= i < SliceEnd(|chunks|, k) => chunks[ranked[i]])
  }

  /** The ranking is a permutation of the positions, ordered by descending
      score, equal scores by ascending position (the stable sort keeps load
      order). */
  lemma RankedIsStableOrder(chunks: seq<StoredChunk>, query: EmbeddingVector,
                            similarity: (EmbeddingVector, EmbeddingVector) -> real)
    ensures var ranked := RankedIndices(chunks, query, similarity);
      && (forall i | 0 <= i < |ranked| :: ranked[i] < |chunks|)
      && (forall p | 0 <= p < |chunks| :: p in ranked)
      && (forall i, j | 0 <= i < j < |ranked| ::
            var a, b := similarity(query, chunks[ranked[i]].embedding), similarity(query, chunks[ranked[j]].embedding);
            a > b || (a == b && ranked[i] < ranked[j]))
  {
    RankedCovers(chunks, query, similarity);
    var ranked := RankedIndices(chunks, query, similarity);
    forall i, j | 0 <= i < j < |ranked|
      ensures var a, b := similarity(query, chunks[ranked[i]].embedding), similarity(query, chunks[ranked[j]].embedding);
        a > b || (a == b && ranked[i] < ranked[j])
    {
      RankedPair(chunks, query, similarity, i, j);
    }
  }

  /** Two places of the ranking are in stable descending order. */
  lemma RankedPair(chunks: seq<StoredChunk>, query: EmbeddingVector,
                   similarity: (EmbeddingVector, EmbeddingVector) -> real, i: nat, j: nat)
    requires i < j < |chunks|
    ensures var ranked := RankedIndices(chunks, query, similarity);
      var a, b := similarity(query, chunks[ranked[i]].embedding), similarity(query, chunks[ranked[j]].embedding);
      a > b || (a == b && ranked[i] < ranked[j])
  {
    var s := ScoreAll(chunks, query, similarity);
    var sorted := SortByScore(s);
    SortRanked(s);
    assert Before(sorted[i], sorted[j]);
    SortedScores(chunks, query, similarity);
    RankedAreIndices(chunks, query, similarity);
  }

  /** The ranking lists the positions of the sorted entries. */
  lemma RankedAreIndices(chunks: seq<StoredChunk>, query: EmbeddingVector,
                         similarity: (EmbeddingVector, EmbeddingVector) -> real)
    ensures var ranked, sorted := RankedIndices(chunks, query, similarity), SortByScore(ScoreAll(chunks, query, similarity));
      |sorted| == |ranked| && forall i | 0 <= i < |ranked| :: ranked[i] == sorted[i].index
  {
  }

  /** Every sorted entry carries the score of the chunk at its position. */
  lemma SortedScores(chunks: seq<StoredChunk>, query: EmbeddingVector,
                     similarity: (EmbeddingVector, EmbeddingVector) -> real)
    ensures var sorted := SortByScore(ScoreAll(chunks, query, similarity));
      forall i | 0 <= i < |sorted| ::
        sorted[i].index < |chunks| && sorted[i].score == similarity(query, chunks[sorted[i].index].embedding)
  {
    var s := ScoreAll(chunks, query, similarity);
    var sorted := SortByScore(s);
    forall i | 0 <= i < |sorted|
      ensures sorted[i].index < |chunks| && sorted[i].score == similarity(query, chunks[sorted[i].index].embedding)
    {
      assert sorted[i] in multiset(s);
      var q :| 0 <= q < |s| && s[q] == sorted[i];
    }
  }

  /** Every stored chunk's position appears in the ranking. */
  lemma RankedCovers(chunks: seq<StoredChunk>, query: EmbeddingVector,
                     similarity: (EmbeddingVector, EmbeddingVector) -> real)
    ensures forall p | 0 <= p < |chunks| :: p in RankedIndices(chunks, query, similarity)
  {
    var s := ScoreAll(chunks, query, similarity);
    var sorted := SortByScore(s);
    var ranked := RankedIndices(chunks, query, similarity);
    forall p | 0 <= p < |chunks| ensures p in ranked {
      assert s[p] in multiset(sorted);
      var q :| 0 <= q < |sorted| && sorted[q] == s[p];
      assert ranked[q] == p;
    }
  }

  /** No stored chunk is returned twice. */
  lemma RankedDistinct(chunks: seq<StoredChunk>, query: EmbeddingVector,
                       similarity: (EmbeddingVector, EmbeddingVector) -> real)
    ensures var ranked := RankedIndices(chunks, query, similarity);
      forall i, j | 0 <= i < j < |ranked| :: ranked[i] != ranked[j]
  {
    RankedIsStableOrder(chunks, query, similarity);
  }

  /** For a non-negative `k`, `topKSimilar` returns `min(k, n)` chunks. */
  lemma TopKLength(chunks: seq<StoredChunk>, query: EmbeddingVector,
                   similarity: (EmbeddingVector, EmbeddingVector) -> real, k: int)
    requires k >= 0
    ensures |TopK(chunks, query, similarity, k)| == Min(k, |chunks|)
  {
  }

  /** The results are the first chunks of the ranking, so their scores never
      increase, and equal scores appear in load order. */
  lemma TopKOrdered(chunks: seq<StoredChunk>, query: EmbeddingVector,
                    similarity: (EmbeddingVector, EmbeddingVector) -> real, k: int)
    ensures var top, ranked := TopK(chunks, query, similarity, k), RankedIndices(chunks, query, similarity);
      && (forall i | 0 <= i < |top| :: top[i] == chunks[ranked[i]])
      && (forall i, j | 0 <= i < j < |top| ::
            similarity(query, top[i].embedding) >= similarity(query, top[j].embedding))
      && (forall i, j | 0 <= i < j < |top| ::
            similarity(query, top[i].embedding) == similarity(query, top[j].embedding) ==> ranked[i] < ranked[j])
  {
    RankedIsStableOrder(chunks, query, similarity);
  }

  /** Every stored chunk left out scores no higher than any returned one. */
  lemma TopKExcludedScoreLower(chunks: seq<StoredChunk>, query: EmbeddingVector,
                               similarity: (EmbeddingVector, EmbeddingVector) -> real, k: int)
    ensures var m, ranked := SliceEnd(|chunks|, k), RankedIndices(chunks, query, similarity);
      forall p, i | 0 <= p < |chunks| && p !in ranked[..m] && 0 <= i < m ::
        similarity(query, chunks[p].embedding) <= similarity(query, chunks[ranked[i]].embedding)
  {
    var m, ranked := SliceEnd(|chunks|, k), RankedIndices(chunks, query, similarity);
    RankedIsStableOrder(chunks, query, similarity);
    forall p, i | 0 <= p < |chunks| && p !in ranked[..m] && 0 <= i < m
      ensures similarity(query, chunks[p].embedding) <= similarity(query, chunks[ranked[i]].embedding)
    {
      assert p in ranked;
      var q :| 0 <= q < |ranked| && ranked[q] == p;
    }
  }

  /** With nothing stored, a query returns nothing. */
  lemma TopKOfEmptyCorpus(query: EmbeddingVector, similarity: (EmbeddingVector, EmbeddingVector) -> real, k: int)
    ensures TopK([], query, similarity, k) == []
  {
  }

  /** With `k = 1` the single result is a best-scoring chunk. */
  lemma TopOneIsBest(chunks: seq<StoredChunk>, query: EmbeddingVector,
                     similarity: (EmbeddingVector, EmbeddingVector) -> real)
    requires chunks != []
    ensures var top := TopK(chunks, query, similarity, 1);
      |top| == 1 && forall p | 0 <= p < |chunks| ::
        similarity(query, chunks[p].embedding) <= similarity(query, top[0].embedding)
  {
    var ranked := RankedIndices(chunks, query, similarity);
    TopKExcludedScoreLower(chunks, query, similarity, 1);
    TopKOrdered(chunks, query, similarity, 1);
    forall p | 0 <= p < |chunks|
      ensures similarity(query, chunks[p].embedding) <= similarity(query, chunks[ranked[0]].embedding)
    {
      if p in ranked[..1] {
        assert p == ranked[0];
      }
    }
  }

  /** `InMemoryRetrieverService`. The embedder it is given is the embedding
      cache together with the provider behind it. */
  class InMemoryRetrieverService {
    var chunks: seq<StoredChunk>
    const cache: EmbeddingCacheService
    const provider: Provider
    /** `cosineSimilarity`. */
    const similarity: (EmbeddingVector, EmbeddingVector) -> real

    /** A new retriever holds no chunks. */
    constructor (cache: EmbeddingCacheService, provider: Provider, similarity: (EmbeddingVector, EmbeddingVector) -> real)
      ensures chunks == []
      ensures this.cache == cache && this.provider == provider && this.similarity == similarity
    {
      chunks := [];
      this.cache := cache;
      this.provider := provider;
      this.similarity := similarity;
    }

    /** `getChunksCount`. */
    function GetChunksCount(): (n: nat)
      reads this
      ensures n == |chunks|
    {
      |chunks|
    }

    /** `loadFromFile`. `contents` is what reading the file gives: `None`
        when it cannot be read. A successful load replaces the corpus with
        the chunks of the text, numbered in chunker order; a failure leaves
        the corpus as it was. */
    method LoadFromFile(filePath: string, contents: Option<string>) returns (r: Outcome<RetrieverError>)
      modifies this, cache.store, provider
      ensures contents.None? ==>
        && r == Fail(ReadFailed(ReadFailurePrefix + filePath))
        && chunks == old(chunks)
        && cache.store.State() == old(cache.store.State())
        && provider.calls == old(provider.calls)
      ensures contents.Some? ==>
        var texts := Chunks(contents.value, ChunkWords);
        var st := old(cache.store.State());
        var e := EmbedOutcome(st, cache.hash, provider.respond, texts);
        && (e.Failure? ==> r == Fail(EmbeddingFailed(e.error)) && chunks == old(chunks))
        && (e.Success? ==> r == Pass && chunks == BuildCorpus(texts, e.value, filePath))
        && cache.store.entries == EntriesAfterEmbed(st, cache.hash, cache.cacheTtlSeconds, provider.respond, texts)
        && cache.store.clock == st.clock && cache.store.reachable == st.reachable
        && provider.calls == old(provider.calls) + BatchesSent(st, cache.hash, texts)
    {
      if contents.None? {
        return Fail(ReadFailed(ReadFailurePrefix + filePath));
      }
      var chunkTexts := SplitIntoChunks(contents.value, ChunkWords);
      var embeddings := GetAndCacheEmbeddings(chunkTexts, cache, provider, provider.name);
      if embeddings.Failure? {
        return Fail(EmbeddingFailed(embeddings.error));
      }
      chunks := BuildCorpus(chunkTexts, embeddings.value, filePath);
      r := Pass;
    }

    /** `topKSimilar(query, k = 3)`: the query is embedded through the cache
        and the best `k` stored chunks are returned; the corpus is not
        changed. */
    method TopKSimilar(query: string, k: int := 3) returns (r: Result<seq<StoredChunk>, EmbedError>)
      modifies cache.store, provider
      ensures chunks == old(chunks)
      ensures var st := old(cache.store.State());
        var e := EmbedOutcome(st, cache.hash, provider.respond, [query]);
        && (e.Failure? ==> r == Failure(e.error))
        && (e.Success? ==> r == Success(TopK(chunks, e.value[0], similarity, k)))
        && cache.store.entries == EntriesAfterEmbed(st, cache.hash, cache.cacheTtlSeconds, provider.respond, [query])
        && cache.store.clock == st.clock && cache.store.reachable == st.reachable
        && provider.calls == old(provider.calls) + BatchesSent(st, cache.hash, [query])
    {
      var vectors := GetAndCacheEmbeddings([query], cache, provider, provider.name);
      if vectors.Failure? {
        return Failure(vectors.error);
      }
      var queryVec := vectors.value[0];
      r := Success(TopK(chunks, queryVec, similarity, k));
    }
  }
}
