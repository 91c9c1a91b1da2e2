/** The embedding cache of src/services/embeddingCacheService.ts: vectors are
    stored under a content-addressed key for a fixed time, every store failure
    degrades to "not cached", and `getAndCacheEmbeddings` serves a batch of
    texts from the cache, sends the misses to the provider in one call and
    writes the new vectors back. */
module EmbeddingCache {
  import opened Outcomes
  import opened Arith
  import opened Text
  import opened Redis

  /** A `Float32Array` of the source, as exact numbers. */
  type EmbeddingVector = seq<real>

  const KeyPrefix := "embed:"

  /** The store key of a text: the namespace followed by the text's hash. */
  function CacheKey(hash: string -> string, text: string): string {
    KeyPrefix + hash(text)
  }

  /** Two texts share a cache entry exactly when their hashes agree; equal
      texts always do. */
  lemma CacheKeyIsHashKey(hash: string -> string, a: string, b: string)
    ensures CacheKey(hash, a) == CacheKey(hash, b) <==> hash(a) == hash(b)
  {
    if CacheKey(hash, a) == CacheKey(hash, b) {
      PrefixCancel(KeyPrefix, hash(a), hash(b));
    }
  }

  /** What `get(text)` returns against a store in state `st`: the vector of
      the live entry under the text's key, and nothing when there is none,
      when it does not parse, or when the store cannot be reached. */
  function CachedVector(st: StoreState, hash: string -> string, text: string): Option<EmbeddingVector> {
    if !st.reachable then None
    else match Live(st.entries, st.clock, CacheKey(hash, text))
      case Some(JsonArray(v)) => Some(v)
      case _ => None
  }

  /** The entries after `set(text, v)`: the vector under the text's key with
      the configured lifetime, or no change when SETEX fails. */
  function StoredEntries(st: StoreState, hash: string -> string, ttl: int, text: string, v: EmbeddingVector): map<string, Entry> {
    if st.reachable && ttl > 0 then Written(st.entries, st.clock, CacheKey(hash, text), ttl, JsonArray(v))
    else st.entries
  }

  /** A vector that was set is returned by `get` of the same text at any time
      before its lifetime ends, and by no `get` from then on. */
  lemma SetThenGet(st: StoreState, hash: string -> string, ttl: int, text: string, v: EmbeddingVector, later: int)
    requires st.reachable && ttl > 0 && st.clock <= later
    ensures var after := StoreState(StoredEntries(st, hash, ttl, text, v), later, true);
      CachedVector(after, hash, text) == if later < st.clock + ttl then Some(v) else None
  {
  }

  /** `set` leaves every other key's entry as it was. */
  lemma SetKeepsOtherKeys(st: StoreState, hash: string -> string, ttl: int, text: string, v: EmbeddingVector, key: string)
    requires key != CacheKey(hash, text)
    ensures key in StoredEntries(st, hash, ttl, text, v) <==> key in st.entries
    ensures key in st.entries ==> StoredEntries(st, hash, ttl, text, v)[key] == st.entries[key]
  {
  }

  /** The embedding provider: one batch call per request, its answer a function
      of the texts sent. `calls` records every batch in call order. */
  class Provider {
    /** The embedder's `provider` name ("cohere" or "hf"); only logged. */
    const name: string
    const respond: seq<string> -> Result<seq<EmbeddingVector>, ProviderError>
    var calls: seq<seq<string>>

    constructor (name: string, respond: seq<string> -> Result<seq<EmbeddingVector>, ProviderError>)
      ensures this.name == name && this.respond == respond && calls == []
    {
      this.name := name;
      this.respond := respond;
      calls := [];
    }

    method Embed(texts: seq<string>) returns (r: Result<seq<EmbeddingVector>, ProviderError>)
      modifies this
      ensures calls == old(calls) + [texts]
      ensures r == respond(texts)
    {
      calls := calls + [texts];
      r := respond(texts);
    }
  }

  datatype ProviderError = ProviderError(message: string)

  datatype EmbedError =
    | ProviderFailed(cause: ProviderError)
    /** The provider answered with more vectors than texts: the extra vector
        is cached under `uncachedTexts[i]`, which is `undefined`, and hashing
        `undefined` throws. */
    | UndefinedText

  class EmbeddingCacheService {
    const store: Store
    const cacheTtlSeconds: int
    /** `cryptoService.hashText`: deterministic, and not assumed free of collisions. */
    const hash: string -> string

    constructor (store: Store, cacheTtlSeconds: int, hash: string -> string)
      ensures this.store == store && this.cacheTtlSeconds == cacheTtlSeconds && this.hash == hash
    {
      this.store := store;
      this.cacheTtlSeconds := cacheTtlSeconds;
      this.hash := hash;
    }

    /** `get`: a miss, an unparsable entry and an unreachable store all give
        no vector; nothing is thrown. */
    method Get(text: string) returns (r: Option<EmbeddingVector>)
      ensures r == CachedVector(store.State(), hash, text)
    {
      var key := CacheKey(hash, text);
      var got := store.Get(key);
      match got
      case Failure(_) => r := None;
      case Success(None) => r := None;
      case Success(Some(Unparsable)) => r := None;
      case Success(Some(JsonArray(v))) => r := Some(v);
    }

    /** `set`: SETEX under the text's key with the configured lifetime; a
        failure is absorbed and leaves the store as it was. */
    method Set(text: string, embedding: EmbeddingVector)
      modifies store
      ensures store.clock == old(store.clock) && store.reachable == old(store.reachable)
      ensures store.entries == StoredEntries(old(store.State()), hash, cacheTtlSeconds, text, embedding)
    {
      var key := CacheKey(hash, text);
      var _ := store.SetEx(key, cacheTtlSeconds, JsonArray(embedding));
    }
  }

  /** The cache answer for every text of a batch, all read before any write. */
  function Lookups(st: StoreState, hash: string -> string, texts: seq<string>): (hits: seq<Option<EmbeddingVector>>)
    ensures |hits| == |texts|
  {
    seq(|texts|, i requires 0 <= i < |texts| => CachedVector(st, hash, texts[i]))
  }

  /** The positions of the misses (`uncachedIndices`): strictly increasing, and
      holding exactly the positions with no cached vector. */
  function MissIndices(hits: seq<Option<EmbeddingVector>>): (idx: seq<nat>)
    ensures forall j | 0 <= j < |idx| :: idx[j] < |hits| && hits[idx[j]].None?
    ensures forall j, j' | 0 <= j < j' < |idx| :: idx[j] < idx[j']
    ensures forall p | 0 <= p < |hits| && hits[p].None? :: p in idx
    decreases |hits|
  {
    if hits == [] then []
    else
      var n := |hits| - 1;
      var front := MissIndices(hits[..n]);
      assert forall p | 0 <= p < n :: hits[..n][p] == hits[p];
      front + if hits[n].None? then [n] else []
  }

  /** The missed texts in input order (`uncachedTexts`), duplicates included. */
  function MissedTexts(texts: seq<string>, hits: seq<Option<EmbeddingVector>>): (missed: seq<string>)
    requires |hits| == |texts|
    ensures |missed| == |MissIndices(hits)|
    ensures forall j | 0 <= j < |missed| :: missed[j] == texts[MissIndices(hits)[j]]
  {
    var idx := MissIndices(hits);
    seq(|idx|, j requires 0 <= j < |idx| => texts[idx[j]])
  }

  /** The output array: a hit at its own position, the miss of rank `j`
      (the `j`-th miss from the left) gets `computed[j]`, and a miss the provider
      left without a vector becomes the empty vector. */
  function Fill(hits: seq<Option<EmbeddingVector>>, computed: seq<EmbeddingVector>): seq<EmbeddingVector> {
    seq(|hits|, p requires 0 <= p < |hits| =>
      if hits[p].Some? then hits[p].value
      else
        var j := |MissIndices(hits[..p])|;
        if j < |computed| then computed[j] else [])
  }

  /** The entries after writing back the first `n` new vectors in order, each
      under its own text. */
  function WriteBack(st: StoreState, hash: string -> string, ttl: int, texts: seq<string>, computed: seq<EmbeddingVector>, n: nat): map<string, Entry>
    requires n <= |texts| && n <= |computed|
  {
    if n == 0 then st.entries
    else
      var before := WriteBack(st, hash, ttl, texts, computed, n - 1);
      StoredEntries(st.(entries := before), hash, ttl, texts[n - 1], computed[n - 1])
  }

  /** The result of `getAndCacheEmbeddings(texts)` against a store in state `st`. */
  function EmbedOutcome(st: StoreState, hash: string -> string,
                        respond: seq<string> -> Result<seq<EmbeddingVector>, ProviderError>,
                        texts: seq<string>): (r: Result<seq<EmbeddingVector>, EmbedError>)
    ensures r.Success? ==> |r.value| == |texts|
  {
    var hits := Lookups(st, hash, texts);
    var missed := MissedTexts(texts, hits);
    if |missed| == 0 then Success(Fill(hits, []))
    else match respond(missed)
      case Failure(e) => Failure(ProviderFailed(e))
      case Success(computed) =>
        if |computed| > |missed| then Failure(UndefinedText) else Success(Fill(hits, computed))
  }

  /** The store entries after `getAndCacheEmbeddings(texts)`. */
  function EntriesAfterEmbed(st: StoreState, hash: string -> string, ttl: int,
                             respond: seq<string> -> Result<seq<EmbeddingVector>, ProviderError>,
                             texts: seq<string>): map<string, Entry> {
    var missed := MissedTexts(texts, Lookups(st, hash, texts));
    if |missed| == 0 then st.entries
    else match respond(missed)
      case Failure(_) => st.entries
      case Success(computed) => WriteBack(st, hash, ttl, missed, computed, Min(|computed|, |missed|))
  }

  /** The batches `getAndCacheEmbeddings(texts)` sends to the provider: none
      when every text was cached, otherwise exactly one, the missed texts. */
  function BatchesSent(st: StoreState, hash: string -> string, texts: seq<string>): seq<seq<string>> {
    var missed := MissedTexts(texts, Lookups(st, hash, texts));
    if |missed| == 0 then [] else [missed]
  }

  /** `getAndCacheEmbeddings`: look every text up, send the misses to the
      provider in one batch, write the answers back and place them. */
  method GetAndCacheEmbeddings(texts: seq<string>, cacheService: EmbeddingCacheService,
                               provider: Provider, providerName: string)
    returns (r: Result<seq<EmbeddingVector>, EmbedError>)
    modifies cacheService.store, provider
    ensures r == EmbedOutcome(old(cacheService.store.State()), cacheService.hash, provider.respond, texts)
    ensures cacheService.store.entries ==
      EntriesAfterEmbed(old(cacheService.store.State()), cacheService.hash, cacheService.cacheTtlSeconds, provider.respond, texts)
    ensures cacheService.store.clock == old(cacheService.store.clock)
    ensures cacheService.store.reachable == old(cacheService.store.reachable)
    ensures provider.calls == old(provider.calls) + BatchesSent(old(cacheService.store.State()), cacheService.hash, texts)
  {
    ghost var st := cacheService.store.State();
    var embeddings, uncachedTexts, uncachedIndices := LookUpAll(texts, cacheService);
    ghost var hits := embeddings;
    ghost var computed: seq<EmbeddingVector> := [];
    if |uncachedTexts| > 0 {
      var response := provider.Embed(uncachedTexts);
      if response.Failure? {
        return Failure(ProviderFailed(response.error));
      }
      var newEmbeddings := response.value;
      computed := newEmbeddings;
      var complete;
      complete, embeddings := StoreAll(cacheService, uncachedTexts, uncachedIndices, newEmbeddings, embeddings);
      if !complete {
        return Failure(UndefinedText);
      }
    }
    r := Success(Unwrap(embeddings));
    SlotsGiveFill(hits, computed, embeddings);
  }

  /** The lookup loop of `getAndCacheEmbeddings`: each text's cache answer in
      its slot, and the misses' texts and positions in input order. */
  method LookUpAll(texts: seq<string>, cacheService: EmbeddingCacheService)
    returns (embeddings: seq<Option<EmbeddingVector>>, uncachedTexts: seq<string>, uncachedIndices: seq<nat>)
    ensures embeddings == Lookups(cacheService.store.State(), cacheService.hash, texts)
    ensures uncachedIndices == MissIndices(embeddings)
    ensures uncachedTexts == MissedTexts(texts, embeddings)
  {
    ghost var hits := Lookups(cacheService.store.State(), cacheService.hash, texts);
    embeddings := seq(|texts|, _ => None);
    uncachedTexts, uncachedIndices := [], [];
    var i := 0;
    while i < |texts|
      invariant 0 <= i <= |texts| && |embeddings| == |texts|
      invariant uncachedIndices == MissIndices(hits[..i])
      invariant uncachedTexts == MissedTexts(texts[..i], hits[..i])
      invariant forall p | 0 <= p < |texts| :: embeddings[p] == if p < i then hits[p] else None
    {
      MissStep(texts, hits, i);
      var cached := cacheService.Get(texts[i]);
      if cached.Some? {
        embeddings := embeddings[i := cached];
      } else {
        uncachedTexts := uncachedTexts + [texts[i]];
        uncachedIndices := uncachedIndices + [i];
      }
      i := i + 1;
    }
    assert hits[..|texts|] == hits && texts[..|texts|] == texts;
  }

  /** One step of the lookup loop: the slot at `i` adds position `i` and text
      `texts[i]` to the misses exactly when it is empty. */
  lemma MissStep(texts: seq<string>, hits: seq<Option<EmbeddingVector>>, i: nat)
    requires |hits| == |texts| && i < |texts|
    ensures MissIndices(hits[..i + 1]) == MissIndices(hits[..i]) + if hits[i].None? then [i] else []
    ensures MissedTexts(texts[..i + 1], hits[..i + 1]) ==
      MissedTexts(texts[..i], hits[..i]) + if hits[i].None? then [texts[i]] else []
  {
    assert hits[..i + 1][..i] == hits[..i];
    var a, b := MissedTexts(texts[..i + 1], hits[..i + 1]), MissedTexts(texts[..i], hits[..i]);
    var c := b + if hits[i].None? then [texts[i]] else [];
    assert |a| == |c|;
    forall j | 0 <= j < |a| ensures a[j] == c[j] {
      if j < |b| {
        assert MissIndices(hits[..i + 1])[j] == MissIndices(hits[..i])[j];
      }
    }
  }

  /** The write-back loop of `getAndCacheEmbeddings`: the `k`-th new vector is
      set under the `k`-th missed text and placed at the `k`-th miss position.
      It stops, reporting `false`, at the first vector with no text. */
  method StoreAll(cacheService: EmbeddingCacheService, uncachedTexts: seq<string>, uncachedIndices: seq<nat>,
                  newEmbeddings: seq<EmbeddingVector>, embeddings: seq<Option<EmbeddingVector>>)
    returns (complete: bool, slots: seq<Option<EmbeddingVector>>)
    requires |uncachedIndices| == |uncachedTexts|
    requires forall j | 0 <= j < |uncachedIndices| :: uncachedIndices[j] < |embeddings|
    requires forall j, j' | 0 <= j < j' < |uncachedIndices| :: uncachedIndices[j] < uncachedIndices[j']
    modifies cacheService.store
    ensures cacheService.store.clock == old(cacheService.store.clock)
    ensures cacheService.store.reachable == old(cacheService.store.reachable)
    ensures cacheService.store.entries == WriteBack(old(cacheService.store.State()), cacheService.hash,
      cacheService.cacheTtlSeconds, uncachedTexts, newEmbeddings, Min(|newEmbeddings|, |uncachedTexts|))
    ensures complete <==> |newEmbeddings| <= |uncachedTexts|
    ensures |slots| == |embeddings|
    ensures forall p | 0 <= p < |embeddings| && p !in uncachedIndices :: slots[p] == embeddings[p]
    ensures forall j | 0 <= j < |uncachedIndices| ::
      slots[uncachedIndices[j]] == if j < |newEmbeddings| then Some(newEmbeddings[j]) else embeddings[uncachedIndices[j]]
  {
    var store := cacheService.store;
    ghost var st := store.State();
    slots := embeddings;
    var k := 0;
    while k < |newEmbeddings|
      invariant 0 <= k <= |newEmbeddings| && k <= |uncachedTexts| && |slots| == |embeddings|
      invariant store.clock == st.clock && store.reachable == st.reachable
      invariant store.entries == WriteBack(st, cacheService.hash, cacheService.cacheTtlSeconds, uncachedTexts, newEmbeddings, k)
      invariant forall p | 0 <= p < |embeddings| && p !in uncachedIndices :: slots[p] == embeddings[p]
      invariant forall j | 0 <= j < |uncachedIndices| ::
        slots[uncachedIndices[j]] == if j < k then Some(newEmbeddings[j]) else embeddings[uncachedIndices[j]]
    {
      if k >= |uncachedTexts| {
        return false, slots;
      }
      cacheService.Set(uncachedTexts[k], newEmbeddings[k]);
      slots := slots[uncachedIndices[k] := Some(newEmbeddings[k])];
      k := k + 1;
    }
    complete := true;
  }

  /** The intended output of `embeddings.map(e => e || new Float32Array(0))`:
      every slot without a vector becomes the empty vector. */
  function Unwrap(slots: seq<Option<EmbeddingVector>>): seq<EmbeddingVector> {
    seq(|slots|, p requires 0 <= p < |slots| => if slots[p].Some? then slots[p].value else [])
  }

  /** Output slots holding each hit at its position and the `j`-th computed
      vector at the `j`-th miss position (nothing once those run out) are what
      `Fill` describes. */
  lemma SlotsGiveFill(hits: seq<Option<EmbeddingVector>>, computed: seq<EmbeddingVector>, slots: seq<Option<EmbeddingVector>>)
    requires |slots| == |hits|
    requires forall p | 0 <= p < |hits| && hits[p].Some? :: slots[p] == hits[p]
    requires forall j | 0 <= j < |MissIndices(hits)| ::
      slots[MissIndices(hits)[j]] == if j < |computed| then Some(computed[j]) else None
    ensures Unwrap(slots) == Fill(hits, computed)
  {
    forall p | 0 <= p < |hits| && hits[p].None?
      ensures Unwrap(slots)[p] == Fill(hits, computed)[p]
    {
      MissRank(hits, p);
    }
  }

  /** The miss at position `p` is number `|MissIndices(hits[..p])|` among the
      misses, counted from zero. */
  lemma MissRank(hits: seq<Option<EmbeddingVector>>, p: nat)
    requires p < |hits| && hits[p].None?
    ensures var j := |MissIndices(hits[..p])|;
      j < |MissIndices(hits)| && MissIndices(hits)[j] == p
  {
    assert hits[..p + 1][..p] == hits[..p];
    MissIndicesPrefix(hits, p + 1);
  }

  /** The misses of a prefix are a prefix of the misses. */
  lemma {:induction false} MissIndicesPrefix(hits: seq<Option<EmbeddingVector>>, a: nat)
    requires a <= |hits|
    ensures var front := MissIndices(hits[..a]);
      |front| <= |MissIndices(hits)| && MissIndices(hits)[..|front|] == front
    decreases |hits|
  {
    if a < |hits| {
      var n := |hits| - 1;
      assert hits[..n][..a] == hits[..a];
      MissIndicesPrefix(hits[..n], a);
      var front, whole := MissIndices(hits[..a]), MissIndices(hits[..n]);
      assert MissIndices(hits) == whole + if hits[n].None? then [n] else [];
      assert MissIndices(hits)[..|front|] == whole[..|front|];
    } else {
      assert hits[..a] == hits;
    }
  }

  /** Each miss gets the vector computed for it: the miss of rank `j` holds
      `computed[j]`, or the empty vector when the provider sent fewer. */
  lemma FillPlacesVectors(hits: seq<Option<EmbeddingVector>>, computed: seq<EmbeddingVector>, j: nat)
    requires j < |MissIndices(hits)|
    ensures Fill(hits, computed)[MissIndices(hits)[j]] == if j < |computed| then computed[j] else []
  {
    var idx := MissIndices(hits);
    var p := idx[j];
    MissRank(hits, p);
  }

  /** Cache hits keep their own vector at their own position. */
  lemma FillKeepsHits(hits: seq<Option<EmbeddingVector>>, computed: seq<EmbeddingVector>, p: nat)
    requires p < |hits| && hits[p].Some?
    ensures Fill(hits, computed)[p] == hits[p].value
  {
  }

  /** Lookups against an unreachable store all miss. */
  lemma UnreachableLookups(st: StoreState, hash: string -> string, texts: seq<string>)
    requires !st.reachable
    ensures forall i | 0 <= i < |texts| :: Lookups(st, hash, texts)[i] == None
  {
  }

  /** With only misses, every position is a miss, in order. */
  lemma {:induction false} AllMisses(hits: seq<Option<EmbeddingVector>>)
    requires forall i | 0 <= i < |hits| :: hits[i] == None
    ensures |MissIndices(hits)| == |hits|
    ensures forall j | 0 <= j < |hits| :: MissIndices(hits)[j] == j
    decreases |hits|
  {
    if hits != [] {
      var n := |hits| - 1;
      AllMisses(hits[..n]);
    }
  }

  /** When the store is down, the provider is asked for every text, in input
      order. */
  lemma UnreachableCacheSendsEverything(st: StoreState, hash: string -> string, texts: seq<string>)
    requires !st.reachable && texts != []
    ensures BatchesSent(st, hash, texts) == [texts]
  {
    var hits := Lookups(st, hash, texts);
    UnreachableLookups(st, hash, texts);
    AllMisses(hits);
    assert MissedTexts(texts, hits) == texts;
  }

  /** A batch the cache answers completely sends nothing to the provider. */
  lemma AllCachedSendsNothing(st: StoreState, hash: string -> string, texts: seq<string>)
    requires forall i | 0 <= i < |texts| :: CachedVector(st, hash, texts[i]).Some?
    ensures BatchesSent(st, hash, texts) == []
  {
    AllHits(Lookups(st, hash, texts));
  }

  /** With only hits, there are no misses. */
  lemma {:induction false} AllHits(hits: seq<Option<EmbeddingVector>>)
    requires forall i | 0 <= i < |hits| :: hits[i].Some?
    ensures MissIndices(hits) == []
    decreases |hits|
  {
    if hits != [] {
      AllHits(hits[..|hits| - 1]);
    }
  }

  /** Equal missed texts in one batch are each sent: there is no coalescing. */
  lemma NoCoalescing(st: StoreState, hash: string -> string, t: string)
    requires CachedVector(st, hash, t) == None
    ensures BatchesSent(st, hash, [t, t]) == [[t, t]]
  {
    var hits := Lookups(st, hash, [t, t]);
    AllMisses(hits);
    assert MissedTexts([t, t], hits) == [t, t];
  }

  /** The provider is the only source of failure: a batch with no misses, or
      whose provider call succeeds with no more vectors than texts, succeeds. */
  lemma FailsOnlyThroughProvider(st: StoreState, hash: string -> string,
                                 respond: seq<string> -> Result<seq<EmbeddingVector>, ProviderError>,
                                 texts: seq<string>)
    ensures var missed := MissedTexts(texts, Lookups(st, hash, texts));
      EmbedOutcome(st, hash, respond, texts).Failure? <==>
        missed != [] && (respond(missed).Failure? || |respond(missed).value| > |missed|)
  {
  }

  /** Write-back never touches a key that none of the first `n` texts maps to. */
  lemma {:induction false} WriteBackElsewhere(st: StoreState, hash: string -> string, ttl: int,
                                              texts: seq<string>, computed: seq<EmbeddingVector>, n: nat, key: string)
    requires n <= |texts| && n <= |computed|
    requires forall j | 0 <= j < n :: CacheKey(hash, texts[j]) != key
    ensures key in WriteBack(st, hash, ttl, texts, computed, n) <==> key in st.entries
    ensures key in st.entries ==> WriteBack(st, hash, ttl, texts, computed, n)[key] == st.entries[key]
  {
    if n > 0 {
      WriteBackElsewhere(st, hash, ttl, texts, computed, n - 1, key);
    }
  }

  /** The last vector written under a key is the one stored there, with the
      configured lifetime, when the store is up and the lifetime positive. */
  lemma {:induction false} WriteBackLatest(st: StoreState, hash: string -> string, ttl: int,
                                           texts: seq<string>, computed: seq<EmbeddingVector>, n: nat, j: nat)
    requires n <= |texts| && n <= |computed| && j < n
    requires st.reachable && ttl > 0
    requires forall j' | j < j' < n :: CacheKey(hash, texts[j']) != CacheKey(hash, texts[j])
    ensures var key := CacheKey(hash, texts[j]);
      key in WriteBack(st, hash, ttl, texts, computed, n)
      && WriteBack(st, hash, ttl, texts, computed, n)[key] == Entry(JsonArray(computed[j]), st.clock + ttl)
  {
    if j < n - 1 {
      WriteBackLatest(st, hash, ttl, texts, computed, n - 1, j);
    }
  }

  // The output array as the source writes it. `new Array(n)` starts with
  // holes, `embeddings.map` skips holes and keeps them in its result, so a
  // slot the provider did not fill comes back as `undefined` (`None` here),
  // not as the empty vector the `|| new Float32Array(0)` fallback intends.

  /** The slots after both loops: hits at their own position, and the `j`-th
      computed vector at the miss of rank `j`; the rest remain holes. */
  function Placed(hits: seq<Option<EmbeddingVector>>, computed: seq<EmbeddingVector>): (slots: seq<Option<EmbeddingVector>>)
    ensures |slots| == |hits|
  {
    seq(|hits|, p requires 0 <= p < |hits| =>
      if hits[p].Some? then hits[p]
      else
        var j := |MissIndices(hits[..p])|;
        if j < |computed| then Some(computed[j]) else None)
  }

  /** `embeddings.map(e => e || new Float32Array(0))` on a sparse array: the
      callback runs only on assigned slots, whose vectors are never falsy. */
  function MapAsWritten(slots: seq<Option<EmbeddingVector>>): seq<Option<EmbeddingVector>> {
    seq(|slots|, p requires 0 <= p < |slots| => if slots[p].Some? then Some(slots[p].value) else None)
  }

  /** The result of `getAndCacheEmbeddings` as written, holes included. */
  function EmbedOutcomeAsWritten(st: StoreState, hash: string -> string,
                                 respond: seq<string> -> Result<seq<EmbeddingVector>, ProviderError>,
                                 texts: seq<string>): (r: Result<seq<Option<EmbeddingVector>>, EmbedError>)
    ensures var hits, missed := Lookups(st, hash, texts), MissedTexts(texts, Lookups(st, hash, texts));
      && (r.Failure? <==> |missed| > 0 && (respond(missed).Failure? || |respond(missed).value| > |missed|))
      && (r.Success? ==> |r.value| == |texts|)
      && (r.Success? ==> forall p | 0 <= p < |texts| && hits[p].Some? :: r.value[p] == hits[p])
  {
    var hits := Lookups(st, hash, texts);
    var missed := MissedTexts(texts, hits);
    if |missed| == 0 then Success(MapAsWritten(Placed(hits, [])))
    else match respond(missed)
      case Failure(e) => Failure(ProviderFailed(e))
      case Success(computed) =>
        if |computed| > |missed| then Failure(UndefinedText) else Success(MapAsWritten(Placed(hits, computed)))
  }

  /** The written result agrees with the intended one wherever a vector was
      placed, and has a hole only at a miss where the intended one has the
      empty vector; `AsWrittenHolesAtUnfilledMisses` gives the converse. */
  lemma AsWrittenAgreesExceptHoles(st: StoreState, hash: string -> string,
                                   respond: seq<string> -> Result<seq<EmbeddingVector>, ProviderError>,
                                   texts: seq<string>)
    ensures var w, r := EmbedOutcomeAsWritten(st, hash, respond, texts), EmbedOutcome(st, hash, respond, texts);
      && (w.Success? <==> r.Success?)
      && (w.Failure? ==> w.error == r.error)
      && (w.Success? ==> |w.value| == |r.value| == |texts|)
      && (w.Success? ==> forall p | 0 <= p < |texts| ::
            && (w.value[p].Some? ==> r.value[p] == w.value[p].value)
            && (w.value[p].None? ==> r.value[p] == [] && Lookups(st, hash, texts)[p].None?))
  {
  }

  /** The as-written counterpart of `FillPlacesVectors`: the miss of rank `j`
      holds `computed[j]`, and is a hole when the provider sent fewer. */
  lemma PlacedAtMiss(hits: seq<Option<EmbeddingVector>>, computed: seq<EmbeddingVector>, j: nat)
    requires j < |MissIndices(hits)|
    ensures MapAsWritten(Placed(hits, computed))[MissIndices(hits)[j]]
      == if j < |computed| then Some(computed[j]) else None
  {
    MissRank(hits, MissIndices(hits)[j]);
  }

  /** As written, every miss the provider left unfilled is a hole in a
      successful result, and every other miss holds its computed vector. */
  lemma AsWrittenHolesAtUnfilledMisses(st: StoreState, hash: string -> string,
                                       respond: seq<string> -> Result<seq<EmbeddingVector>, ProviderError>,
                                       texts: seq<string>)
    ensures var w, hits := EmbedOutcomeAsWritten(st, hash, respond, texts), Lookups(st, hash, texts);
      var missed, idx := MissedTexts(texts, hits), MissIndices(hits);
      w.Success? && |missed| > 0 ==>
        forall j | 0 <= j < |idx| ::
          w.value[idx[j]] == if j < |respond(missed).value| then Some(respond(missed).value[j]) else None
  {
    var hits := Lookups(st, hash, texts);
    var missed, idx := MissedTexts(texts, hits), MissIndices(hits);
    if EmbedOutcomeAsWritten(st, hash, respond, texts).Success? && |missed| > 0 {
      forall j | 0 <= j < |idx|
        ensures EmbedOutcomeAsWritten(st, hash, respond, texts).value[idx[j]]
          == if j < |respond(missed).value| then Some(respond(missed).value[j]) else None
      {
        PlacedAtMiss(hits, respond(missed).value, j);
      }
    }
  }

  /** One text, nothing cached, and a provider that answers with no vectors:
      the written result is a one-slot hole where the intended one is the
      empty vector. */
  lemma ShortAnswerLeavesHole(hash: string -> string,
                              respond: seq<string> -> Result<seq<EmbeddingVector>, ProviderError>)
    requires respond(["a"]) == Success([])
    ensures var st := StoreState(map[], 0, true);
      && EmbedOutcomeAsWritten(st, hash, respond, ["a"]) == Success([None])
      && EmbedOutcome(st, hash, respond, ["a"]) == Success([[]])
  {
    var st := StoreState(map[], 0, true);
    var hits := Lookups(st, hash, ["a"]);
    assert hits == [None];
    AllMisses(hits);
    assert MissedTexts(["a"], hits) == ["a"];
    assert hits[..0] == [];
    assert Placed(hits, []) == [None];
    assert MapAsWritten([None]) == [None];
    assert Fill(hits, []) == [[]];
  }
}
