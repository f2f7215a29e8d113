/** What the build stages are given from outside: parsing, analysing and rendering are functions of what they
    are handed, not of the keys their results are cached under. Digests are injective, so each is represented
    by what it digests. */
module BuildWorld {
  import opened Bytes

  datatype BuildError =
    | DuplicateInput(path: string)
    | DuplicateTarget(id: string)
    | UnknownTarget(id: string)
    | PathConflict(owner: string, target: string, path: string)

  datatype Outcome<+T> = Ok(value: T) | Throw(error: BuildError) {
    predicate IsFailure() { Throw? }

    function PropagateFailure<U>(): Outcome<U>
      requires Throw?
    {
      Throw(error)
    }

    function Extract(): T
      requires Ok?
    {
      value
    }
  }

  datatype Digest = Digest(of: string)

  datatype Output = Output(kind: string, path: string)

  datatype Route = Route(target: string, outputs: seq<Output>)

  datatype Command = One | Many | Exec | ExecRows

  // `hash` is the statement's, which edits of layout and comments do not change; `sql` is its text.
  datatype Definition = Definition(
    name: string, hash: string, sql: string, command: Command, parameters: seq<(string, nat)>)

  datatype BatchDiagnostic = BatchDiagnostic(code: string, message: string, start: int, end: int)

  datatype Parsed = ParseFailure(diagnostics: seq<BatchDiagnostic>) | ParseSuccess(queries: seq<Definition>)

  // What analysing a query reads of it, and its digest.
  datatype Statement = Statement(hash: string, command: Command, parameters: seq<(string, nat)>)

  datatype AnalysisHash = AnalysisHash(of: Statement)

  datatype QueryItem = QueryItem(
    id: string, path: string, name: string, definition: Definition, routes: seq<Route>,
    analysisHash: AnalysisHash, semanticHash: (AnalysisHash, seq<Route>))

  // The keys stand for the schema and for the way it is analysed.
  datatype Options = Options(
    schemaKey: string, analysisKey: string, searchPath: seq<string>, materializedViews: Option<seq<string>>)

  datatype AnalysisKey = AnalysisKey(
    analysisHash: AnalysisHash, schemaKey: string, analysisKey: string,
    searchPath: seq<string>, materializedViews: Option<seq<string>>)

  datatype AnalysisDiagnostic = AnalysisDiagnostic(code: string, isError: bool, message: string)

  // `semantic` is everything but the diagnostics.
  datatype AnalysisResult = AnalysisResult(semantic: string, diagnostics: seq<AnalysisDiagnostic>)

  datatype AnalysisItem = AnalysisItem(
    query: QueryItem, cacheKey: AnalysisKey, resultHash: Digest, result: AnalysisResult)

  datatype RenderKey = RenderKey(
    targetKey: string, route: Route, queries: seq<(string, AnalysisHash, Digest)>)

  datatype CodegenArtifact = CodegenArtifact(path: string, kind: string, content: string)

  datatype CodegenDiagnostic = CodegenDiagnostic(code: string, isError: bool, queryId: string, message: string)

  datatype Rendered = Rendered(artifacts: seq<CodegenArtifact>, diagnostics: seq<CodegenDiagnostic>)

  datatype World = World(
    parse: string -> Parsed,
    analyze: (Statement, Options) -> AnalysisResult,
    renderSupport: (string, string) -> Rendered,
    renderSchema: (string, string, string) -> Rendered,
    renderQueries: (string, Route, seq<AnalysisItem>) -> Rendered)
}

/** Parsing query files with a content-addressed cache. */
module QueryBatch {
  import opened Bytes
  import opened Records
  import opened BuildWorld

  datatype SourceInput = SourceInput(path: string, content: string, routes: seq<Route>)

  datatype FileState = FileState(
    path: string, content: string, contentHash: Digest, routes: seq<Route>,
    queries: seq<QueryItem>, diagnostics: seq<BatchDiagnostic>)

  type ParseCache = Record<Digest, Parsed>

  datatype BatchState = BatchState(files: Record<string, FileState>, parseCache: ParseCache)

  const EMPTY := BatchState([], [])

  function QueryItemOf(path: string, routes: seq<Route>, definition: Definition): QueryItem
  {
    var analysisHash := AnalysisHash(Statement(definition.hash, definition.command, definition.parameters));
    QueryItem(path + "#" + definition.name, path, definition.name, definition, routes, analysisHash,
              (analysisHash, routes))
  }

  function FileOf(input: SourceInput, parsed: Parsed): FileState
  {
    match parsed
    case ParseFailure(diagnostics) =>
      FileState(input.path, input.content, Digest(input.content), input.routes, [], diagnostics)
    case ParseSuccess(queries) =>
      FileState(input.path, input.content, Digest(input.content), input.routes,
        seq(|queries|, i requires 0 <= i < |queries| => QueryItemOf(input.path, input.routes, queries[i])), [])
  }

  function InputPath(input: SourceInput): string { input.path }

  // -- The batch without caches ---------------------------------------------------------------------

  function FirstDuplicate(ordered: seq<SourceInput>, index: nat): Option<string>
    requires 1 <= index
    decreases |ordered| - index
  {
    if index >= |ordered| then None
    else if ordered[index - 1].path == ordered[index].path then Some(ordered[index].path)
    else FirstDuplicate(ordered, index + 1)
  }

  function BatchFrom(w: World, ordered: seq<SourceInput>, state: BatchState): BatchState
    decreases |ordered|
  {
    if ordered == [] then state
    else
      var input, parsed := ordered[0], w.parse(ordered[0].content);
      BatchFrom(w, ordered[1..],
        BatchState(Put(state.files, input.path, FileOf(input, parsed)),
                   Put(state.parseCache, Digest(input.content), parsed)))
  }

  function FreshBatch(w: World, inputs: seq<SourceInput>): Outcome<BatchState>
  {
    var ordered := SortBy(inputs, InputPath);
    match FirstDuplicate(ordered, 1)
    case Some(path) => Throw(DuplicateInput(path))
    case None => Ok(BatchFrom(w, ordered, EMPTY))
  }

  // -- What a query's hash digests ------------------------------------------------------------------

  predicate Hashed(query: QueryItem)
  {
    var d := query.definition;
    query.analysisHash.of.hash == d.hash && query.analysisHash.of.command == d.command &&
    query.analysisHash.of.parameters == d.parameters
  }

  predicate AllHashed(queries: seq<QueryItem>) { forall i :: 0 <= i < |queries| ==> Hashed(queries[i]) }

  function FileQueries(files: Record<string, FileState>): seq<QueryItem>
    decreases |files|
  {
    if files == [] then [] else files[0].value.queries + FileQueries(files[1..])
  }

  predicate FilesHashed(files: Record<string, FileState>) { forall e :: e in files ==> AllHashed(e.value.queries) }

  lemma {:induction false} QueriesHashed(files: Record<string, FileState>)
    requires FilesHashed(files)
    ensures AllHashed(FileQueries(files))
    decreases |files|
  {
    if files != [] {
      QueriesHashed(files[1..]);
      assert files[0] in files && forall e :: e in files[1..] ==> e in files;
      hide Hashed;
    }
  }

  lemma {:induction false} BatchHashed(w: World, ordered: seq<SourceInput>, state: BatchState)
    requires FilesHashed(state.files)
    ensures FilesHashed(BatchFrom(w, ordered, state).files)
    decreases |ordered|
  {
    if ordered != [] {
      var input, parsed := ordered[0], w.parse(ordered[0].content);
      var file := FileOf(input, parsed);
      assert AllHashed(file.queries);
      hide AllHashed, FileOf;
      PutEntries(state.files, input.path, file);
      BatchHashed(w, ordered[1..], BatchState(Put(state.files, input.path, file),
                                              Put(state.parseCache, Digest(input.content), parsed)));
    }
  }

  // Every query of a batch carries the digest of its own statement, command and parameters.
  lemma FreshHashed(w: World, inputs: seq<SourceInput>)
    ensures FreshBatch(w, inputs).Ok? ==> AllHashed(FileQueries(FreshBatch(w, inputs).value.files))
  {
    hide BatchFrom, FileQueries, AllHashed, SortBy, FirstDuplicate;
    BatchHashed(w, SortBy(inputs, InputPath), EMPTY);
    if FreshBatch(w, inputs).Ok? { QueriesHashed(FreshBatch(w, inputs).value.files); }
  }

  // -- Duplicate paths --------------------------------------------------------------------------------

  lemma {:induction false} FirstDuplicateScans(ordered: seq<SourceInput>, index: nat)
    requires 1 <= index
    ensures FirstDuplicate(ordered, index).Some? <==>
      exists i :: index <= i < |ordered| && InputPath(ordered[i - 1]) == InputPath(ordered[i])
    decreases |ordered| - index
  {
    if index < |ordered| && ordered[index - 1].path != ordered[index].path {
      FirstDuplicateScans(ordered, index + 1);
    } else if index < |ordered| {
      assert InputPath(ordered[index - 1]) == InputPath(ordered[index]);
    }
  }

  // A batch is refused exactly when two inputs share a path.
  lemma RefusesDuplicates(w: World, inputs: seq<SourceInput>)
    ensures FreshBatch(w, inputs).Throw? <==> exists i, j :: 0 <= i < j < |inputs| && InputPath(inputs[i]) == InputPath(inputs[j])
  {
    var ordered := SortBy(inputs, InputPath);
    FirstDuplicateScans(ordered, 1);
    SortBySorts(inputs, InputPath);
    NeighboursFindDuplicates(ordered, InputPath);
    SortKeepsDuplicates(inputs, InputPath);
  }

  // -- The cache --------------------------------------------------------------------------------------

  predicate ParsesCached(w: World, cache: ParseCache)
  {
    forall e :: e in cache ==> e.value == w.parse(e.key.of)
  }

  // A batch reconciled on top of any earlier state is the batch made from nothing, and parses exactly the
  // contents the earlier state had not parsed.
  method ReconcileQueryBatch(w: World, inputs: seq<SourceInput>, previous: BatchState)
    returns (r: Outcome<BatchState>, hits: nat, misses: nat)
    requires ParsesCached(w, previous.parseCache)
    ensures r == FreshBatch(w, inputs)
    ensures r.Ok? ==> ParsesCached(w, r.value.parseCache)
    ensures r.Ok? ==> hits + misses == |inputs| && misses == |Keys(r.value.parseCache) - Keys(previous.parseCache)|
  {
    hide ParsesCached, BatchFrom, SortBy, Lookup, FileOf, Put, Keys;
    var ordered := SortBy(inputs, InputPath);
    SortByLength(inputs, InputPath);
    hits, misses := 0, 0;
    var index := 1;
    while index < |ordered|
      invariant FirstDuplicate(ordered, index) == FirstDuplicate(ordered, 1) && 1 <= index
    {
      if ordered[index - 1].path == ordered[index].path {
        return Throw(DuplicateInput(ordered[index].path)), 0, 0;
      }
      index := index + 1;
    }
    var state := EMPTY;
    EmptyCache(w);
    assert ordered[0..] == ordered;
    ghost var newKeys: set<Digest> := {};
    for i := 0 to |ordered|
      invariant BatchFrom(w, ordered[i..], state) == BatchFrom(w, ordered, EMPTY)
      invariant ParsesCached(w, state.parseCache)
      invariant hits + misses == i
      invariant newKeys == Keys(state.parseCache) - Keys(previous.parseCache) && misses == |newKeys|
    {
      var input := ordered[i];
      var key := Digest(input.content);
      var cached := Lookup(state.parseCache, previous.parseCache, key);
      CachedParse(w, state.parseCache, previous.parseCache, key);
      var parsed: Parsed;
      if cached.Some? {
        parsed := cached.value;
        hits := hits + 1;
      } else {
        parsed := w.parse(input.content);
        misses := misses + 1;
        newKeys := newKeys + {key};
      }
      KeysPut(state.parseCache, key, parsed);
      CacheKeeps(w, state.parseCache, key, parsed);
      BatchStep(w, ordered, i, state);
      state := BatchState(Put(state.files, input.path, FileOf(input, parsed)), Put(state.parseCache, key, parsed));
    }
    assert ordered[|ordered|..] == [];
    assert BatchFrom(w, [], state) == state by { BatchDone(w, state); }
    r := Ok(state);
  }

  lemma EmptyCache(w: World)
    ensures ParsesCached(w, EMPTY.parseCache) && Keys(EMPTY.parseCache) == {}
  {
  }

  lemma BatchDone(w: World, state: BatchState)
    ensures BatchFrom(w, [], state) == state
  {
  }

  lemma BatchStep(w: World, ordered: seq<SourceInput>, i: nat, state: BatchState)
    requires i < |ordered|
    ensures var input := ordered[i];
      var parsed := w.parse(input.content);
      var next := BatchState(Put(state.files, input.path, FileOf(input, parsed)),
                             Put(state.parseCache, Digest(input.content), parsed));
      BatchFrom(w, ordered[i + 1..], next) == BatchFrom(w, ordered[i..], state)
  {
    assert ordered[i..][1..] == ordered[i + 1..];
  }

  lemma CacheKeeps(w: World, cache: ParseCache, key: Digest, parsed: Parsed)
    requires ParsesCached(w, cache) && parsed == w.parse(key.of)
    ensures ParsesCached(w, Put(cache, key, parsed))
  {
    PutEntries(cache, key, parsed);
  }

  lemma CachedParse(w: World, current: ParseCache, previous: ParseCache, key: Digest)
    requires ParsesCached(w, current) && ParsesCached(w, previous)
    ensures var cached := Lookup(current, previous, key);
      (cached.Some? ==> cached.value == w.parse(key.of)) &&
      (cached.Some? <==> key in Keys(current) || key in Keys(previous))
  {
    GetEntry(current, key);
    GetEntry(previous, key);
    GetKeys(current, key);
    GetKeys(previous, key);
  }
}
