/** Analysing queries with a cache keyed by everything an analysis depends on. */
module QueryAnalysis {
  import opened Bytes
  import opened Records
  import opened BuildWorld
  import opened QueryBatch

  datatype CacheEntry = CacheEntry(result: AnalysisResult, resultHash: Digest)

  type AnalysisCache = Record<AnalysisKey, CacheEntry>

  datatype AnalysisState = AnalysisState(analyses: Record<string, AnalysisItem>, cache: AnalysisCache)

  const NOTHING := AnalysisState([], [])

  function AnalysisCacheKey(query: QueryItem, options: Options): AnalysisKey
  {
    AnalysisKey(query.analysisHash, options.schemaKey, options.analysisKey, options.searchPath,
                options.materializedViews)
  }

  // Equal keys: the same statement, schema, analysis, search path and materialized views.
  lemma KeyCovers(q: QueryItem, o: Options, r: QueryItem, p: Options)
    requires Hashed(q) && Hashed(r)
    ensures AnalysisCacheKey(q, o) == AnalysisCacheKey(r, p) <==>
      q.definition.hash == r.definition.hash && q.definition.command == r.definition.command &&
      q.definition.parameters == r.definition.parameters &&
      o.schemaKey == p.schemaKey && o.analysisKey == p.analysisKey && o.searchPath == p.searchPath &&
      o.materializedViews == p.materializedViews
  {
  }

  function StatementOf(definition: Definition): Statement
  {
    Statement(definition.hash, definition.command, definition.parameters)
  }

  function EntryFor(w: World, query: QueryItem, options: Options): CacheEntry
  {
    var result := w.analyze(StatementOf(query.definition), options);
    CacheEntry(result, Digest(result.semantic))
  }

  function ItemOf(query: QueryItem, key: AnalysisKey, entry: CacheEntry): AnalysisItem
  {
    AnalysisItem(query, key, entry.resultHash, entry.result)
  }

  function QueryId(query: QueryItem): string { query.id }

  // -- The analysis without caches ------------------------------------------------------------------

  function AnalysisFrom(w: World, options: Options, queries: seq<QueryItem>, state: AnalysisState): AnalysisState
    decreases |queries|
  {
    if queries == [] then state
    else AnalysisFrom(w, options, queries[1..], Analyzed(w, options, queries[0], state))
  }

  function Analyzed(w: World, options: Options, query: QueryItem, state: AnalysisState): AnalysisState
  {
    var key := AnalysisCacheKey(query, options);
    var entry := EntryFor(w, query, options);
    AnalysisState(Put(state.analyses, query.id, ItemOf(query, key, entry)), Put(state.cache, key, entry))
  }

  function FreshAnalysis(w: World, batch: BatchState, options: Options): AnalysisState
  {
    AnalysisFrom(w, options, SortBy(FileQueries(batch.files), QueryId), NOTHING)
  }

  // An entry serves every query and options that find it.
  ghost predicate Serves(w: World, key: AnalysisKey, entry: CacheEntry)
  {
    forall query, options :: Hashed(query) && AnalysisCacheKey(query, options) == key ==>
      entry == EntryFor(w, query, options)
  }

  ghost predicate AnalysesCached(w: World, cache: AnalysisCache)
  {
    forall e :: e in cache ==> Serves(w, e.key, e.value)
  }

  // An analysis serves whatever has its key.
  lemma EntryServes(w: World, query: QueryItem, options: Options)
    requires Hashed(query)
    ensures Serves(w, AnalysisCacheKey(query, options), EntryFor(w, query, options))
  {
    hide EntryFor, AnalysisCacheKey;
    forall q, o | Hashed(q) && AnalysisCacheKey(q, o) == AnalysisCacheKey(query, options)
      ensures EntryFor(w, query, options) == EntryFor(w, q, o)
    {
      KeyCovers(q, o, query, options);
      SameEntry(w, q, o, query, options);
    }
  }

  lemma SameEntry(w: World, q: QueryItem, o: Options, r: QueryItem, p: Options)
    requires StatementOf(q.definition) == StatementOf(r.definition) && o == p
    ensures EntryFor(w, q, o) == EntryFor(w, r, p)
  {
  }

  // Analysing on top of any earlier state gives what analysing from nothing gives, and analyses exactly
  // the keys the earlier state had not analysed.
  method ReconcileQueryAnalysis(w: World, batch: BatchState, options: Options, previous: AnalysisState)
    returns (state: AnalysisState, hits: nat, misses: nat)
    requires AnalysesCached(w, previous.cache) && AllHashed(FileQueries(batch.files))
    ensures state == FreshAnalysis(w, batch, options)
    ensures AnalysesCached(w, state.cache)
    ensures misses == |Keys(state.cache) - Keys(previous.cache)| && hits + misses == |FileQueries(batch.files)|
  {
    hide AnalysesCached, AnalysisFrom, SortBy, Lookup, Put, Keys, EntryFor, FileQueries, Hashed;
    var queries := SortBy(FileQueries(batch.files), QueryId);
    SortedHashed(FileQueries(batch.files));
    SortByLength(FileQueries(batch.files), QueryId);
    state, hits, misses := NOTHING, 0, 0;
    NothingCached(w);
    assert queries[0..] == queries;
    ghost var newKeys: set<AnalysisKey> := {};
    for i := 0 to |queries|
      invariant AnalysisFrom(w, options, queries[i..], state) == AnalysisFrom(w, options, queries, NOTHING)
      invariant AnalysesCached(w, state.cache) && hits + misses == i
      invariant newKeys == Keys(state.cache) - Keys(previous.cache) && misses == |newKeys|
    {
      var query := queries[i];
      var key := AnalysisCacheKey(query, options);
      var cached := Lookup(state.cache, previous.cache, key);
      CachedAnalysis(w, state.cache, previous.cache, query, options);
      var entry: CacheEntry;
      if cached.Some? {
        entry := cached.value;
        hits := hits + 1;
      } else {
        var result := w.analyze(StatementOf(query.definition), options);
        entry := CacheEntry(result, Digest(result.semantic));
        misses := misses + 1;
        newKeys := newKeys + {key};
      }
      assert entry == EntryFor(w, query, options) by { EntryIs(w, query, options); }
      KeysPut(state.cache, key, entry);
      AnalysisKeeps(w, state.cache, query, options);
      AnalysisStep(w, options, queries, i, state);
      state := AnalysisState(Put(state.analyses, query.id, ItemOf(query, key, entry)), Put(state.cache, key, entry));
    }
    assert queries[|queries|..] == [];
    AnalysisDone(w, options, state);
  }

  lemma SortedHashed(queries: seq<QueryItem>)
    requires AllHashed(queries)
    ensures AllHashed(SortBy(queries, QueryId))
  {
    hide Hashed, SortBy;
    SortBySorts(queries, QueryId);
    var sorted := SortBy(queries, QueryId);
    forall i | 0 <= i < |sorted| ensures Hashed(sorted[i]) {
      assert sorted[i] in multiset(sorted);
      assert sorted[i] in multiset(queries);
    }
  }

  lemma EntryIs(w: World, query: QueryItem, options: Options)
    ensures var result := w.analyze(StatementOf(query.definition), options);
      EntryFor(w, query, options) == CacheEntry(result, Digest(result.semantic))
  {
  }

  lemma NothingCached(w: World)
    ensures AnalysesCached(w, NOTHING.cache) && Keys(NOTHING.cache) == {}
  {
  }

  lemma AnalysisDone(w: World, options: Options, state: AnalysisState)
    ensures AnalysisFrom(w, options, [], state) == state
  {
  }

  lemma AnalysisStep(w: World, options: Options, queries: seq<QueryItem>, i: nat, state: AnalysisState)
    requires i < |queries|
    ensures AnalysisFrom(w, options, queries[i + 1..], Analyzed(w, options, queries[i], state))
      == AnalysisFrom(w, options, queries[i..], state)
  {
    assert queries[i..][1..] == queries[i + 1..];
  }

  lemma AnalysisKeeps(w: World, cache: AnalysisCache, query: QueryItem, options: Options)
    requires AnalysesCached(w, cache) && Hashed(query)
    ensures AnalysesCached(w, Put(cache, AnalysisCacheKey(query, options), EntryFor(w, query, options)))
  {
    hide Serves, EntryFor, Hashed;
    EntryServes(w, query, options);
    PutEntries(cache, AnalysisCacheKey(query, options), EntryFor(w, query, options));
  }

  lemma CachedAnalysis(w: World, current: AnalysisCache, previous: AnalysisCache, query: QueryItem, options: Options)
    requires AnalysesCached(w, current) && AnalysesCached(w, previous) && Hashed(query)
    ensures var key := AnalysisCacheKey(query, options); var cached := Lookup(current, previous, key);
      (cached.Some? ==> cached.value == EntryFor(w, query, options)) &&
      (cached.Some? <==> key in Keys(current) || key in Keys(previous))
  {
    hide EntryFor, AnalysisCacheKey, Hashed;
    var key := AnalysisCacheKey(query, options);
    GetEntry(current, key);
    GetEntry(previous, key);
    GetKeys(current, key);
    GetKeys(previous, key);
    hide Keys;
    var cached := Lookup(current, previous, key);
    if cached.Some? { assert Serves(w, key, cached.value); }
  }

  // -- Results and their digests ----------------------------------------------------------------------

  predicate Digested(item: AnalysisItem) { item.resultHash == Digest(item.result.semantic) && Hashed(item.query) }

  predicate AllDigested(analyses: Record<string, AnalysisItem>) { forall e :: e in analyses ==> Digested(e.value) }

  lemma {:induction false} AnalysisDigested(w: World, options: Options, queries: seq<QueryItem>, state: AnalysisState)
    requires AllDigested(state.analyses) && AllHashed(queries)
    ensures AllDigested(AnalysisFrom(w, options, queries, state).analyses)
    decreases |queries|
  {
    hide Hashed;
    if queries != [] {
      var next := Analyzed(w, options, queries[0], state);
      OneDigested(w, options, queries[0], state);
      hide Digested, Analyzed;
      AnalysisDigested(w, options, queries[1..], next);
    }
  }

  lemma OneDigested(w: World, options: Options, query: QueryItem, state: AnalysisState)
    requires AllDigested(state.analyses) && Hashed(query)
    ensures AllDigested(Analyzed(w, options, query, state).analyses)
  {
    hide Hashed;
    var key := AnalysisCacheKey(query, options);
    PutEntries(state.analyses, query.id, ItemOf(query, key, EntryFor(w, query, options)));
  }

  // Every analysis carries the digest of its own result.
  lemma FreshDigested(w: World, batch: BatchState, options: Options)
    requires AllHashed(FileQueries(batch.files))
    ensures AllDigested(FreshAnalysis(w, batch, options).analyses)
  {
    hide Hashed, AnalysisFrom, SortBy, Digested;
    SortedHashed(FileQueries(batch.files));
    AnalysisDigested(w, options, SortBy(FileQueries(batch.files), QueryId), NOTHING);
  }
}
