/** Incremental project builds on top of the parse, analysis and render caches of an earlier build. */
module ProjectBuild {
  import opened Bytes
  import opened Records
  import opened BuildWorld
  import opened QueryBatch
  import opened QueryAnalysis

  datatype Artifact = Artifact(
    path: string, sourcePath: string, target: string, kind: string, content: string, hash: Digest)

  datatype Target = Target(id: string, key: string, hasSupport: bool, hasSchema: bool)

  datatype SchemaInfo = SchemaInfo(key: string, sourcePath: string)

  datatype SchemaDiagnostic = SchemaDiagnostic(path: Option<string>, code: Option<string>, message: string)

  datatype ProjectDiagnostic =
    | OfSchema(schema: SchemaDiagnostic)
    | OfQuery(path: string, query: BatchDiagnostic)
    | OfAnalysis(queryId: string, analysis: AnalysisDiagnostic)
    | OfCodegen(target: string, codegen: CodegenDiagnostic)

  // A support rendering is cached under the target's own key, a schema rendering under a digest.
  datatype SchemaKey = Own(targetKey: string) | Hashed(targetKey: string, schemaKey: string)

  datatype SchemaEntry = SchemaEntry(key: SchemaKey, rendered: Rendered)

  type Artifacts = Record<string, Artifact>
  type RenderCache = Record<RenderKey, Rendered>
  type SchemaCache = Record<string, SchemaEntry>

  datatype ProjectState = ProjectState(
    batch: BatchState, analysis: AnalysisState, artifacts: Artifacts,
    renderCache: RenderCache, schemaCache: SchemaCache, diagnostics: seq<ProjectDiagnostic>)

  const NO_BUILD := ProjectState(EMPTY, NOTHING, [], [], [], [])

  datatype Request = Request(
    sources: seq<SourceInput>, targets: seq<Target>, analysis: Options,
    schemaDiagnostics: seq<SchemaDiagnostic>, schema: Option<SchemaInfo>)

  // -- Diagnostics ------------------------------------------------------------------------------------

  function FileDiagnostics(files: Record<string, FileState>): seq<ProjectDiagnostic>
    decreases |files|
  {
    if files == [] then []
    else
      var f := files[0].value;
      seq(|f.diagnostics|, i requires 0 <= i < |f.diagnostics| => OfQuery(f.path, f.diagnostics[i])) +
          FileDiagnostics(files[1..])
  }

  function AnalysisDiagnostics(analyses: Record<string, AnalysisItem>): seq<ProjectDiagnostic>
    decreases |analyses|
  {
    if analyses == [] then []
    else
      var a := analyses[0].value;
      var ds := a.result.diagnostics;
      seq(|ds|, i requires 0 <= i < |ds| => OfAnalysis(a.query.id, ds[i])) + AnalysisDiagnostics(analyses[1..])
  }

  function CollectDiagnostics(batch: BatchState, analysis: AnalysisState,
      schema: seq<SchemaDiagnostic>): seq<ProjectDiagnostic>
  {
    seq(|schema|, i requires 0 <= i < |schema| => OfSchema(schema[i])) +
    FileDiagnostics(batch.files) + AnalysisDiagnostics(analysis.analyses)
  }

  function OrEmpty(text: Option<string>): string
  {
    if text.Some? then text.value else ""
  }

  function DiagnosticKey(d: ProjectDiagnostic): string
  {
    match d
    case OfSchema(s) => OrEmpty(s.path) + "\0schema\0" + OrEmpty(s.code)
    case OfQuery(path, q) => path + "\0query\0" + q.code
    case OfAnalysis(id, a) => id + "\0analysis\0\0" + a.code
    case OfCodegen(target, c) => c.queryId + "\0codegen\0" + target + "\0" + c.code
  }

  // -- Rendering without caches -----------------------------------------------------------------------

  datatype Rendering = Rendering(
    artifacts: Artifacts, renderCache: RenderCache, schemaCache: SchemaCache, diagnostics: seq<ProjectDiagnostic>)

  function AddArtifacts(artifacts: Artifacts, list: seq<CodegenArtifact>, sourcePath: string,
      target: string): Outcome<Artifacts>
    decreases |list|
  {
    if list == [] then Ok(artifacts)
    else
      var a := list[0];
      match Get(artifacts, a.path)
      case Some(owner) => Throw(PathConflict(owner.target, target, a.path))
      case None =>
        AddArtifacts(Put(artifacts, a.path, Artifact(a.path, sourcePath, target, a.kind, a.content, Digest(a.content))),
                     list[1..], sourcePath, target)
  }

  // Records a rendering's diagnostics and, unless one is an error, its artifacts.
  function Emit(acc: Rendering, rendered: Rendered, sourcePath: string, target: string): Outcome<Rendering>
  {
    var ds := rendered.diagnostics;
    var noted := acc.(diagnostics := acc.diagnostics + seq(|ds|, i requires 0 <= i < |ds| => OfCodegen(target, ds[i])));
    if exists i :: 0 <= i < |ds| && ds[i].isError then Ok(noted)
    else
      var artifacts :- AddArtifacts(acc.artifacts, rendered.artifacts, sourcePath, target);
      Ok(noted.(artifacts := artifacts))
  }

  function SupportKey(id: string): string { id + ":support" }

  function SupportSource(request: Request): string
  {
    if request.schema.Some? then request.schema.value.sourcePath else "<codegen>"
  }

  function SupportFrom(w: World, request: Request, targets: seq<Target>, acc: Rendering): Outcome<Rendering>
    decreases |targets|
  {
    if targets == [] then Ok(acc)
    else
      var t := targets[0];
      if !t.hasSupport then SupportFrom(w, request, targets[1..], acc)
      else
        var rendered := w.renderSupport(t.id, t.key);
        var kept := acc.(schemaCache := Put(acc.schemaCache, SupportKey(t.id), SchemaEntry(Own(t.key), rendered)));
        var next :- Emit(kept, rendered, SupportSource(request), t.id);
        SupportFrom(w, request, targets[1..], next)
  }

  function SchemaFrom(w: World, schema: SchemaInfo, targets: seq<Target>, acc: Rendering): Outcome<Rendering>
    decreases |targets|
  {
    if targets == [] then Ok(acc)
    else
      var t := targets[0];
      if !t.hasSchema then SchemaFrom(w, schema, targets[1..], acc)
      else
        var rendered := w.renderSchema(t.id, t.key, schema.key);
        var kept := acc.(schemaCache := Put(acc.schemaCache, t.id, SchemaEntry(Hashed(t.key, schema.key), rendered)));
        var next :- Emit(kept, rendered, schema.sourcePath, t.id);
        SchemaFrom(w, schema, targets[1..], next)
  }

  function FindTarget(targets: seq<Target>, id: string): Option<Target>
    decreases |targets|
  {
    if targets == [] then None else if targets[0].id == id then Some(targets[0]) else FindTarget(targets[1..], id)
  }

  function Triples(items: seq<AnalysisItem>): seq<(string, AnalysisHash, Digest)>
  {
    seq(|items|, i requires 0 <= i < |items| => (items[i].query.name, items[i].query.analysisHash, items[i].resultHash))
  }

  function RenderKeyOf(targetKey: string, route: Route, items: seq<AnalysisItem>): RenderKey
  {
    RenderKey(targetKey, route, Triples(items))
  }

  // A rendering found in the cache, if there is one, or a new one.
  function RenderedWith(w: World, cache: Option<RenderCache>, current: RenderCache, targetKey: string, route: Route,
      items: seq<AnalysisItem>): Rendered
  {
    var found := if cache.None? then None else Lookup(current, cache.value, RenderKeyOf(targetKey, route, items));
    if found.Some? then found.value else w.renderQueries(targetKey, route, items)
  }

  // The routes of a file, looking renderings up in the caches, or without caches.
  function RoutesFrom(w: World, cache: Option<RenderCache>, targets: seq<Target>, path: string,
      items: seq<AnalysisItem>, routes: seq<Route>, acc: Rendering)
    : Outcome<Rendering>
    decreases |routes|
  {
    if routes == [] then Ok(acc)
    else match FindTarget(targets, routes[0].target)
      case None => Throw(UnknownTarget(routes[0].target))
      case Some(t) =>
        var rendered := RenderedWith(w, cache, acc.renderCache, t.key, routes[0], items);
        var kept := acc.(renderCache := Put(acc.renderCache, RenderKeyOf(t.key, routes[0], items), rendered));
        var next :- Emit(kept, rendered, path, t.id);
        RoutesFrom(w, cache, targets, path, items, routes[1..], next)
  }

  function FileItems(analyses: Record<string, AnalysisItem>, queries: seq<QueryItem>): seq<AnalysisItem>
    decreases |queries|
  {
    if queries == [] then []
    else
      var found := Get(analyses, queries[0].id);
      (if found.Some? then [found.value] else []) + FileItems(analyses, queries[1..])
  }

  predicate ItemErrors(item: AnalysisItem)
  {
    exists i :: 0 <= i < |item.result.diagnostics| && item.result.diagnostics[i].isError
  }

  predicate HasErrors(file: FileState, items: seq<AnalysisItem>)
  {
    |file.diagnostics| > 0 || exists i :: 0 <= i < |items| && ItemErrors(items[i])
  }

  function FilesFrom(w: World, cache: Option<RenderCache>, targets: seq<Target>,
      analyses: Record<string, AnalysisItem>, files: seq<FileState>, acc: Rendering)
    : Outcome<Rendering>
    decreases |files|
  {
    if files == [] then Ok(acc)
    else
      var items := FileItems(analyses, files[0].queries);
      if HasErrors(files[0], items) then FilesFrom(w, cache, targets, analyses, files[1..], acc)
      else
        var next :- RoutesFrom(w, cache, targets, files[0].path, items, files[0].routes, acc);
        FilesFrom(w, cache, targets, analyses, files[1..], next)
  }

  function FirstRepeated(targets: seq<Target>, seen: set<string>): Option<string>
    decreases |targets|
  {
    if targets == [] then None
    else if targets[0].id in seen then Some(targets[0].id)
    else FirstRepeated(targets[1..], seen + {targets[0].id})
  }

  function FileValues(files: Record<string, FileState>): seq<FileState>
  {
    seq(|files|, i requires 0 <= i < |files| => files[i].value)
  }

  function FilePath(file: FileState): string { file.path }

  // The build of a request with an earlier build's renderings, or without any cache.
  function BuildWith(w: World, cache: Option<RenderCache>, request: Request): Outcome<ProjectState>
  {
    var batch :- FreshBatch(w, request.sources);
    var analysis := FreshAnalysis(w, batch, request.analysis);
    var diagnostics := CollectDiagnostics(batch, analysis, request.schemaDiagnostics);
    match FirstRepeated(request.targets, {})
    case Some(id) => Throw(DuplicateTarget(id))
    case None =>
      var supported :- SupportFrom(w, request, request.targets, Rendering([], [], [], diagnostics));
      var schemed :- if request.schema.Some? then SchemaFrom(w, request.schema.value, request.targets,
          supported) else Ok(supported);
      var done :- FilesFrom(w, cache, request.targets, analysis.analyses, SortBy(FileValues(batch.files), FilePath),
                            schemed);
      Ok(ProjectState(batch, analysis, done.artifacts, done.renderCache, done.schemaCache,
                      SortBy(done.diagnostics, DiagnosticKey)))
  }

  // The build of a request from nothing.
  function FreshBuild(w: World, request: Request): Outcome<ProjectState> { BuildWith(w, None, request) }

  // -- The caches ---------------------------------------------------------------------------------------

  predicate AllMade(items: seq<AnalysisItem>) { forall i :: 0 <= i < |items| ==> Digested(items[i]) }

  // Alike in all a render key knows of them: name, statement, command, parameters and semantic result.
  predicate Alike(a: AnalysisItem, b: AnalysisItem)
  {
    var d, e := a.query.definition, b.query.definition;
    a.query.name == b.query.name && d.hash == e.hash && d.command == e.command && d.parameters == e.parameters &&
    a.result.semantic == b.result.semantic
  }

  predicate AllAlike(a: seq<AnalysisItem>, b: seq<AnalysisItem>)
  {
    |a| == |b| && forall i :: 0 <= i < |a| ==> Alike(a[i], b[i])
  }

  // Targets that render nothing else of the queries.
  ghost predicate Attentive(w: World)
  {
    forall key, route, a, b :: AllMade(a) && AllMade(b) && AllAlike(a, b) ==>
      w.renderQueries(key, route, a) == w.renderQueries(key, route, b)
  }

  ghost predicate RenderServes(w: World, key: RenderKey, rendered: Rendered)
  {
    forall targetKey, route, items :: AllMade(items) && RenderKeyOf(targetKey, route, items) == key ==>
      rendered == w.renderQueries(targetKey, route, items)
  }

  // Equal keys: the same target, the same route, and items alike.
  lemma RenderKeyCovers(k: string, r: Route, a: seq<AnalysisItem>, l: string, s: Route, b: seq<AnalysisItem>)
    requires AllMade(a) && AllMade(b)
    ensures RenderKeyOf(k, r, a) == RenderKeyOf(l, s, b) <==> k == l && r == s && AllAlike(a, b)
  {
    if RenderKeyOf(k, r, a) == RenderKeyOf(l, s, b) {
      assert |a| == |Triples(a)| == |Triples(b)| == |b|;
      forall i | 0 <= i < |a| ensures Alike(a[i], b[i]) {
        assert Triples(a)[i] == Triples(b)[i];
        SameTriple(a[i], b[i]);
      }
    }
    if AllAlike(a, b) {
      forall i | 0 <= i < |a| ensures Triples(a)[i] == Triples(b)[i] { SameTriple(a[i], b[i]); }
      assert Triples(a) == Triples(b);
    }
  }

  lemma SameTriple(a: AnalysisItem, b: AnalysisItem)
    requires Digested(a) && Digested(b)
    ensures Alike(a, b) <==>
      a.query.name == b.query.name && a.query.analysisHash == b.query.analysisHash && a.resultHash == b.resultHash
  {
  }

  // Whatever a rendering is cached for, it serves every later request with that key: exactly for such targets.
  lemma ServesIffAttentive(w: World)
    ensures Attentive(w) <==>
      forall k, r, a :: AllMade(a) ==> RenderServes(w, RenderKeyOf(k, r, a), w.renderQueries(k, r, a))
  {
    hide RenderKeyOf, AllAlike, AllMade;
    if Attentive(w) {
      forall k, r, a | AllMade(a) ensures RenderServes(w, RenderKeyOf(k, r, a), w.renderQueries(k, r, a)) {
        RenderingServes(w, k, r, a);
      }
    }
    if forall k, r, a :: AllMade(a) ==> RenderServes(w, RenderKeyOf(k, r, a), w.renderQueries(k, r, a)) {
      forall k, r, a, b | AllMade(a) && AllMade(b) && AllAlike(a, b)
        ensures w.renderQueries(k, r, a) == w.renderQueries(k, r, b)
      {
        RenderKeyCovers(k, r, a, k, r, b);
        assert RenderServes(w, RenderKeyOf(k, r, a), w.renderQueries(k, r, a));
      }
    }
  }

  lemma RenderingServes(w: World, k: string, r: Route, a: seq<AnalysisItem>)
    requires Attentive(w) && AllMade(a)
    ensures RenderServes(w, RenderKeyOf(k, r, a), w.renderQueries(k, r, a))
  {
    hide RenderKeyOf, AllAlike, AllMade;
    forall l, s, b | AllMade(b) && RenderKeyOf(l, s, b) == RenderKeyOf(k, r, a)
      ensures w.renderQueries(k, r, a) == w.renderQueries(l, s, b)
    {
      RenderKeyCovers(k, r, a, l, s, b);
    }
  }

  ghost predicate RendersCached(w: World, cache: RenderCache)
  {
    forall e :: e in cache ==> RenderServes(w, e.key, e.value)
  }

  ghost predicate SchemaEntryOk(w: World, e: Entry<string, SchemaEntry>)
  {
    match e.value.key
    case Own(key) => exists id :: e.key == SupportKey(id) && e.value.rendered == w.renderSupport(id, key)
    case Hashed(targetKey, schemaKey) => e.value.rendered == w.renderSchema(e.key, targetKey, schemaKey)
  }

  ghost predicate SchemasCached(w: World, cache: SchemaCache)
  {
    forall e :: e in cache ==> SchemaEntryOk(w, e)
  }

  ghost predicate Cached(w: World, s: ProjectState)
  {
    ParsesCached(w, s.batch.parseCache) && AnalysesCached(w, s.analysis.cache) &&
    (Attentive(w) ==> RendersCached(w, s.renderCache)) && SchemasCached(w, s.schemaCache)
  }

  lemma SupportKeyInjective(a: string, b: string)
    requires SupportKey(a) == SupportKey(b)
    ensures a == b
  {
    assert |a| == |b|;
    assert SupportKey(a)[..|a|] == a && SupportKey(b)[..|b|] == b;
  }

  lemma CachedSupport(w: World, cache: SchemaCache, t: Target)
    requires SchemasCached(w, cache)
    ensures var found := Get(cache, SupportKey(t.id));
      found.Some? && found.value.key == Own(t.key) ==> found.value.rendered == w.renderSupport(t.id, t.key)
  {
    var found := Get(cache, SupportKey(t.id));
    GetEntry(cache, SupportKey(t.id));
    if found.Some? && found.value.key == Own(t.key) {
      assert SchemaEntryOk(w, Entry(SupportKey(t.id), found.value));
      var id :| SupportKey(t.id) == SupportKey(id) && found.value.rendered == w.renderSupport(id, t.key);
      SupportKeyInjective(t.id, id);
    }
  }

  lemma CachedSchema(w: World, cache: SchemaCache, t: Target, schemaKey: string)
    requires SchemasCached(w, cache)
    ensures var found := Get(cache, t.id);
      found.Some? && found.value.key == Hashed(t.key, schemaKey) ==> found.value.rendered == w.renderSchema(t.id, t.key, schemaKey)
  {
    GetEntry(cache, t.id);
    if Get(cache, t.id).Some? {
      assert SchemaEntryOk(w, Entry(t.id, Get(cache, t.id).value));
    }
  }

  lemma SupportKept(w: World, cache: SchemaCache, t: Target)
    requires SchemasCached(w, cache)
    ensures SchemasCached(w, Put(cache, SupportKey(t.id), SchemaEntry(Own(t.key), w.renderSupport(t.id, t.key))))
  {
    var entry := SchemaEntry(Own(t.key), w.renderSupport(t.id, t.key));
    PutEntries(cache, SupportKey(t.id), entry);
    assert SchemaEntryOk(w, Entry(SupportKey(t.id), entry));
  }

  lemma SchemaKept(w: World, cache: SchemaCache, t: Target, schemaKey: string)
    requires SchemasCached(w, cache)
    ensures SchemasCached(w,
                          Put(cache, t.id,
                              SchemaEntry(Hashed(t.key, schemaKey), w.renderSchema(t.id, t.key, schemaKey))))
  {
    PutEntries(cache, t.id, SchemaEntry(Hashed(t.key, schemaKey), w.renderSchema(t.id, t.key, schemaKey)));
  }

  lemma RenderedIs(w: World, cache: RenderCache, current: RenderCache, targetKey: string, route: Route,
      items: seq<AnalysisItem>)
    requires RendersCached(w, current) && RendersCached(w, cache) && AllMade(items)
    ensures RenderedWith(w, Some(cache), current, targetKey, route, items) == w.renderQueries(targetKey, route, items)
  {
    hide AllMade, RenderKeyOf;
    var key := RenderKeyOf(targetKey, route, items);
    GetEntry(current, key);
    GetEntry(cache, key);
    var found := Lookup(current, cache, key);
    if found.Some? { assert RenderServes(w, key, found.value); }
  }

  lemma RenderKept(w: World, cache: RenderCache, targetKey: string, route: Route, items: seq<AnalysisItem>)
    requires Attentive(w) && RendersCached(w, cache) && AllMade(items)
    ensures RendersCached(w, Put(cache, RenderKeyOf(targetKey, route, items),
                                 w.renderQueries(targetKey, route, items)))
  {
    hide AllMade, RenderKeyOf, RenderServes, Attentive;
    RenderingServes(w, targetKey, route, items);
    PutEntries(cache, RenderKeyOf(targetKey, route, items), w.renderQueries(targetKey, route, items));
  }

  // -- Events -------------------------------------------------------------------------------------------

  datatype Event =
    | Added(artifact: Artifact)
    | Changed(previous: Artifact, artifact: Artifact)
    | Removed(artifact: Artifact)
    | DiagnosticsChanged(before: seq<ProjectDiagnostic>, after: seq<ProjectDiagnostic>)

  function EventsAt(before: Option<Artifact>, after: Option<Artifact>): seq<Event>
  {
    if before.None? && after.Some? then [Added(after.value)]
    else if before.Some? && after.None? then [Removed(before.value)]
    else if before.Some? && after.Some? &&
        before.value.hash != after.value.hash then [Changed(before.value, after.value)]
    else []
  }

  function PathEvents(previous: Artifacts, current: Artifacts, paths: seq<string>): seq<Event>
    decreases |paths|
  {
    if paths == [] then []
    else EventsAt(Get(previous, paths[0]), Get(current, paths[0])) + PathEvents(previous, current, paths[1..])
  }

  function EntryKey<V>(e: Entry<string, V>): string { e.key }

  // `new Set([...Object.keys(previous), ...Object.keys(current)])`
  function AllPaths(previous: Artifacts, current: Artifacts): seq<string>
  {
    KeysOf(previous, EntryKey) + NewPaths(previous, current)
  }

  function NewPaths(previous: Artifacts, current: Artifacts): seq<string>
    decreases |current|
  {
    if current == [] then []
    else (if Get(previous, current[0].key).Some? then [] else [current[0].key]) + NewPaths(previous, current[1..])
  }

  function EventKey(e: Event): string
  {
    match e
    case Added(a) => a.path + "\0artifact-added"
    case Changed(_, a) => a.path + "\0artifact-changed"
    case Removed(a) => a.path + "\0artifact-removed"
    case DiagnosticsChanged(_, _) => "\U{FFFF}diagnostics"
  }

  function DiffProject(previous: ProjectState, current: ProjectState): seq<Event>
  {
    var changed := if previous.diagnostics == current.diagnostics then []
      else [DiagnosticsChanged(previous.diagnostics, current.diagnostics)];
    SortBy(PathEvents(previous.artifacts, current.artifacts, AllPaths(previous.artifacts, current.artifacts)) +
           changed, EventKey)
  }

  // -- The incremental build ----------------------------------------------------------------------------

  ghost predicate Sound(w: World, acc: Rendering)
  {
    SchemasCached(w, acc.schemaCache)
  }

  lemma EmitKeepsCaches(w: World, acc: Rendering, rendered: Rendered, sourcePath: string, target: string)
    requires Sound(w, acc)
    ensures Emit(acc, rendered, sourcePath, target).Ok? ==> Sound(w, Emit(acc, rendered, sourcePath, target).value)
  {
    hide SchemasCached, AddArtifacts;
  }

  lemma SupportStep(w: World, request: Request, targets: seq<Target>, i: nat, acc: Rendering)
    requires i < |targets|
    ensures var t := targets[i];
      var rendered := w.renderSupport(t.id, t.key);
      var kept := acc.(schemaCache := Put(acc.schemaCache, SupportKey(t.id), SchemaEntry(Own(t.key), rendered)));
      var next := if t.hasSupport then Emit(kept, rendered, SupportSource(request), t.id) else Ok(acc);
      SupportFrom(w, request, targets[i..], acc) ==
        if next.Ok? then SupportFrom(w, request, targets[i + 1..], next.value) else next
  {
    hide Emit, Put;
    assert targets[i..][1..] == targets[i + 1..];
  }

  method RenderSupport(w: World, request: Request, previous: SchemaCache,
      start: Rendering) returns (r: Outcome<Rendering>)
    requires SchemasCached(w, previous) && Sound(w, start)
    ensures r == SupportFrom(w, request, request.targets, start)
    ensures r.Ok? ==> Sound(w, r.value)
  {
    hide SchemasCached, Emit, SupportFrom, Put, Get, SupportKey;
    var targets, acc := request.targets, start;
    assert targets[0..] == targets;
    for i := 0 to |targets|
      invariant Sound(w, acc)
      invariant SupportFrom(w, request, targets[i..], acc) == SupportFrom(w, request, targets, start)
    {
      var t := targets[i];
      SupportStep(w, request, targets, i, acc);
      if t.hasSupport {
        var key := SupportKey(t.id);
        var found := Get(previous, key);
        CachedSupport(w, previous, t);
        var entry: SchemaEntry;
        if found.Some? && found.value.key == Own(t.key) {
          entry := found.value;
        } else {
          entry := SchemaEntry(Own(t.key), w.renderSupport(t.id, t.key));
        }
        SupportKept(w, acc.schemaCache, t);
        acc := acc.(schemaCache := Put(acc.schemaCache, key, entry));
        EmitKeepsCaches(w, acc, entry.rendered, SupportSource(request), t.id);
        var next := Emit(acc, entry.rendered, SupportSource(request), t.id);
        if next.Throw? { return next; }
        acc := next.value;
      }
    }
    assert targets[|targets|..] == [];
    r := Ok(acc);
    assert SupportFrom(w, request, [], acc) == Ok(acc) by { SupportDone(w, request, acc); }
  }

  lemma SupportDone(w: World, request: Request, acc: Rendering)
    ensures SupportFrom(w, request, [], acc) == Ok(acc)
  {
  }

  lemma SchemaStep(w: World, schema: SchemaInfo, targets: seq<Target>, i: nat, acc: Rendering)
    requires i < |targets|
    ensures var t := targets[i];
      var rendered := w.renderSchema(t.id, t.key, schema.key);
      var kept := acc.(schemaCache := Put(acc.schemaCache, t.id, SchemaEntry(Hashed(t.key, schema.key), rendered)));
      var next := if t.hasSchema then Emit(kept, rendered, schema.sourcePath, t.id) else Ok(acc);
      SchemaFrom(w, schema, targets[i..], acc) ==
        if next.Ok? then SchemaFrom(w, schema, targets[i + 1..], next.value) else next
  {
    hide Emit, Put;
    assert targets[i..][1..] == targets[i + 1..];
  }

  lemma SchemaDone(w: World, schema: SchemaInfo, acc: Rendering)
    ensures SchemaFrom(w, schema, [], acc) == Ok(acc)
  {
  }

  method RenderSchema(w: World, schema: SchemaInfo, targets: seq<Target>, previous: SchemaCache, start: Rendering)
    returns (r: Outcome<Rendering>)
    requires SchemasCached(w, previous) && Sound(w, start)
    ensures r == SchemaFrom(w, schema, targets, start)
    ensures r.Ok? ==> Sound(w, r.value)
  {
    hide SchemasCached, Emit, SchemaFrom, Put, Get;
    var acc := start;
    assert targets[0..] == targets;
    for i := 0 to |targets|
      invariant Sound(w, acc)
      invariant SchemaFrom(w, schema, targets[i..], acc) == SchemaFrom(w, schema, targets, start)
    {
      var t := targets[i];
      SchemaStep(w, schema, targets, i, acc);
      if t.hasSchema {
        var key := Hashed(t.key, schema.key);
        var found := Get(previous, t.id);
        CachedSchema(w, previous, t, schema.key);
        var entry: SchemaEntry;
        if found.Some? && found.value.key == key {
          entry := found.value;
        } else {
          entry := SchemaEntry(key, w.renderSchema(t.id, t.key, schema.key));
        }
        SchemaKept(w, acc.schemaCache, t, schema.key);
        acc := acc.(schemaCache := Put(acc.schemaCache, t.id, entry));
        EmitKeepsCaches(w, acc, entry.rendered, schema.sourcePath, t.id);
        var next := Emit(acc, entry.rendered, schema.sourcePath, t.id);
        if next.Throw? { return next; }
        acc := next.value;
      }
    }
    assert targets[|targets|..] == [];
    SchemaDone(w, schema, acc);
    r := Ok(acc);
  }

  lemma RouteStep(w: World, cache: Option<RenderCache>, targets: seq<Target>, path: string, items: seq<AnalysisItem>,
      routes: seq<Route>, i: nat, acc: Rendering)
    requires i < |routes|
    ensures var found := FindTarget(targets, routes[i].target);
      RoutesFrom(w, cache, targets, path, items, routes[i..], acc) ==
        if found.None? then Throw(UnknownTarget(routes[i].target))
        else
          var rendered := RenderedWith(w, cache, acc.renderCache, found.value.key, routes[i], items);
          var kept := acc.(renderCache := Put(acc.renderCache, RenderKeyOf(found.value.key, routes[i], items),
                                              rendered));
          var next := Emit(kept, rendered, path, found.value.id);
          if next.Ok? then RoutesFrom(w, cache, targets, path, items, routes[i + 1..], next.value) else next
  {
    hide Emit, Put, FindTarget, RenderKeyOf, RenderedWith;
    assert routes[i..][1..] == routes[i + 1..];
  }

  lemma RoutesDone(w: World, cache: Option<RenderCache>, targets: seq<Target>, path: string, items: seq<AnalysisItem>,
      acc: Rendering)
    ensures RoutesFrom(w, cache, targets, path, items, [], acc) == Ok(acc)
  {
  }

  // Each route is rendered once at most, and taken from the caches when they have it.
  method RenderRoutes(w: World, targets: seq<Target>, path: string, items: seq<AnalysisItem>, routes: seq<Route>,
                      previous: RenderCache, start: Rendering) returns (r: Outcome<Rendering>)
    requires Sound(w, start)
    ensures r == RoutesFrom(w, Some(previous), targets, path, items, routes, start)
    ensures r.Ok? ==> Sound(w, r.value)
  {
    hide SchemasCached, Emit, RoutesFrom, Put, Lookup, FindTarget, RenderKeyOf;
    var acc := start;
    assert routes[0..] == routes;
    for i := 0 to |routes|
      invariant Sound(w, acc)
      invariant RoutesFrom(w, Some(previous), targets, path, items, routes[i..], acc) ==
        RoutesFrom(w, Some(previous), targets, path, items, routes, start)
    {
      RouteStep(w, Some(previous), targets, path, items, routes, i, acc);
      var found := FindTarget(targets, routes[i].target);
      if found.None? { return Throw(UnknownTarget(routes[i].target)); }
      var key := RenderKeyOf(found.value.key, routes[i], items);
      var cached := Lookup(acc.renderCache, previous, key);
      var rendered: Rendered;
      if cached.Some? {
        rendered := cached.value;
      } else {
        rendered := w.renderQueries(found.value.key, routes[i], items);
      }
      acc := acc.(renderCache := Put(acc.renderCache, key, rendered));
      EmitKeepsCaches(w, acc, rendered, path, found.value.id);
      var next := Emit(acc, rendered, path, found.value.id);
      if next.Throw? { return next; }
      acc := next.value;
    }
    assert routes[|routes|..] == [];
    RoutesDone(w, Some(previous), targets, path, items, acc);
    r := Ok(acc);
  }

  lemma FileStep(w: World, cache: Option<RenderCache>, targets: seq<Target>, analyses: Record<string, AnalysisItem>,
      files: seq<FileState>, i: nat,
      acc: Rendering)
    requires i < |files|
    ensures var items := FileItems(analyses, files[i].queries);
      var next := if HasErrors(files[i], items) then Ok(acc)
        else RoutesFrom(w, cache, targets, files[i].path, items, files[i].routes, acc);
      FilesFrom(w, cache, targets, analyses, files[i..], acc) ==
        if next.Ok? then FilesFrom(w, cache, targets, analyses, files[i + 1..], next.value) else next
  {
    hide HasErrors, FileItems, RoutesFrom;
    assert files[i..][1..] == files[i + 1..];
  }

  lemma FilesDone(w: World, cache: Option<RenderCache>, targets: seq<Target>, analyses: Record<string, AnalysisItem>,
      acc: Rendering)
    ensures FilesFrom(w, cache, targets, analyses, [], acc) == Ok(acc)
  {
  }

  method RenderFiles(w: World, targets: seq<Target>, analyses: Record<string, AnalysisItem>, files: seq<FileState>,
                     previous: RenderCache, start: Rendering) returns (r: Outcome<Rendering>)
    requires Sound(w, start)
    ensures r == FilesFrom(w, Some(previous), targets, analyses, files, start)
    ensures r.Ok? ==> Sound(w, r.value)
  {
    hide SchemasCached, RoutesFrom, FilesFrom, HasErrors, FileItems;
    var acc := start;
    assert files[0..] == files;
    for i := 0 to |files|
      invariant Sound(w, acc)
      invariant FilesFrom(w, Some(previous), targets, analyses, files[i..], acc) == FilesFrom(w, Some(previous),
        targets, analyses, files, start)
    {
      FileStep(w, Some(previous), targets, analyses, files, i, acc);
      var items := FileItems(analyses, files[i].queries);
      if !HasErrors(files[i], items) {
        var next := RenderRoutes(w, targets, files[i].path, items, files[i].routes, previous, acc);
        if next.Throw? { return next; }
        acc := next.value;
      }
    }
    assert files[|files|..] == [];
    FilesDone(w, Some(previous), targets, analyses, acc);
    r := Ok(acc);
  }

  // -- What the render cache does not change ---------------------------------------------------------------

  lemma {:induction false} ItemsMade(analyses: Record<string, AnalysisItem>, queries: seq<QueryItem>)
    requires AllDigested(analyses)
    ensures AllMade(FileItems(analyses, queries))
    decreases |queries|
  {
    if queries != [] {
      ItemsMade(analyses, queries[1..]);
      GetEntry(analyses, queries[0].id);
      hide Digested, Get;
    }
  }

  lemma {:induction false} RoutesFresh(w: World, previous: RenderCache, targets: seq<Target>, path: string,
      items: seq<AnalysisItem>, routes: seq<Route>, acc: Rendering)
    requires Attentive(w) && RendersCached(w, previous) && RendersCached(w, acc.renderCache) && AllMade(items)
    ensures var r := RoutesFrom(w, Some(previous), targets, path, items, routes, acc);
      r == RoutesFrom(w, None, targets, path, items, routes, acc) && (r.Ok? ==> RendersCached(w, r.value.renderCache))
    decreases |routes|
  {
    hide Attentive, RendersCached, AllMade, Emit, Put, FindTarget, RenderKeyOf, Lookup;
    if routes != [] && FindTarget(targets, routes[0].target).Some? {
      var t := FindTarget(targets, routes[0].target).value;
      RenderedIs(w, previous, acc.renderCache, t.key, routes[0], items);
      RenderKept(w, acc.renderCache, t.key, routes[0], items);
      var rendered := w.renderQueries(t.key, routes[0], items);
      var kept := acc.(renderCache := Put(acc.renderCache, RenderKeyOf(t.key, routes[0], items), rendered));
      EmitKeepsRenders(kept, rendered, path, t.id);
      var next := Emit(kept, rendered, path, t.id);
      if next.Ok? { RoutesFresh(w, previous, targets, path, items, routes[1..], next.value); }
    }
  }

  lemma EmitKeepsRenders(acc: Rendering, rendered: Rendered, sourcePath: string, target: string)
    ensures var r := Emit(acc, rendered, sourcePath, target); r.Ok? ==> r.value.renderCache == acc.renderCache
  {
    hide AddArtifacts;
  }

  lemma {:induction false} FilesFresh(w: World, previous: RenderCache, targets: seq<Target>,
      analyses: Record<string, AnalysisItem>, files: seq<FileState>, acc: Rendering)
    requires Attentive(w) && RendersCached(w, previous) && RendersCached(w, acc.renderCache) && AllDigested(analyses)
    ensures var r := FilesFrom(w, Some(previous), targets, analyses, files, acc);
      r == FilesFrom(w, None, targets, analyses, files, acc) && (r.Ok? ==> RendersCached(w, r.value.renderCache))
    decreases |files|
  {
    hide Attentive, RendersCached, AllDigested, AllMade, RoutesFrom, HasErrors, FileItems;
    if files != [] {
      var items := FileItems(analyses, files[0].queries);
      if HasErrors(files[0], items) {
        FilesFresh(w, previous, targets, analyses, files[1..], acc);
      } else {
        ItemsMade(analyses, files[0].queries);
        RoutesFresh(w, previous, targets, files[0].path, items, files[0].routes, acc);
        var next := RoutesFrom(w, None, targets, files[0].path, items, files[0].routes, acc);
        if next.Ok? { FilesFresh(w, previous, targets, analyses, files[1..], next.value); }
      }
    }
  }

  lemma {:induction false} SupportKeepsRenders(w: World, request: Request, targets: seq<Target>, acc: Rendering)
    ensures var r := SupportFrom(w, request, targets, acc); r.Ok? ==> r.value.renderCache == acc.renderCache
    decreases |targets|
  {
    hide Emit, Put;
    if targets != [] {
      var t := targets[0];
      if !t.hasSupport {
        SupportKeepsRenders(w, request, targets[1..], acc);
      } else {
        var rendered := w.renderSupport(t.id, t.key);
        var kept := acc.(schemaCache := Put(acc.schemaCache, SupportKey(t.id), SchemaEntry(Own(t.key), rendered)));
        EmitKeepsRenders(kept, rendered, SupportSource(request), t.id);
        var next := Emit(kept, rendered, SupportSource(request), t.id);
        if next.Ok? { SupportKeepsRenders(w, request, targets[1..], next.value); }
      }
    }
  }

  lemma {:induction false} SchemaKeepsRenders(w: World, schema: SchemaInfo, targets: seq<Target>, acc: Rendering)
    ensures var r := SchemaFrom(w, schema, targets, acc); r.Ok? ==> r.value.renderCache == acc.renderCache
    decreases |targets|
  {
    hide Emit, Put;
    if targets != [] {
      var t := targets[0];
      if !t.hasSchema {
        SchemaKeepsRenders(w, schema, targets[1..], acc);
      } else {
        var rendered := w.renderSchema(t.id, t.key, schema.key);
        var kept := acc.(schemaCache := Put(acc.schemaCache, t.id, SchemaEntry(Hashed(t.key, schema.key), rendered)));
        EmitKeepsRenders(kept, rendered, schema.sourcePath, t.id);
        var next := Emit(kept, rendered, schema.sourcePath, t.id);
        if next.Ok? { SchemaKeepsRenders(w, schema, targets[1..], next.value); }
      }
    }
  }

  // With targets that render nothing but what their keys know, a build on top of any earlier renderings is the
  // build from nothing.
  lemma BuildIsFresh(w: World, previous: RenderCache, request: Request)
    requires Attentive(w) && RendersCached(w, previous)
    ensures BuildWith(w, Some(previous), request) == FreshBuild(w, request)
    ensures FreshBuild(w, request).Ok? ==> RendersCached(w, FreshBuild(w, request).value.renderCache)
  {
    hide Attentive, FreshBatch, FreshAnalysis, CollectDiagnostics, FirstRepeated, SupportFrom, SchemaFrom, FilesFrom,
      SortBy, FileValues, AllDigested, AllHashed, FileQueries;
    assert RendersCached(w, []);
    hide RendersCached;
    FreshHashed(w, request.sources);
    if FreshBatch(w, request.sources).Ok? && FirstRepeated(request.targets, {}).None? {
      var batch := FreshBatch(w, request.sources).value;
      FreshDigested(w, batch, request.analysis);
      var analysis := FreshAnalysis(w, batch, request.analysis);
      var start := Rendering([], [], [], CollectDiagnostics(batch, analysis, request.schemaDiagnostics));
      SupportKeepsRenders(w, request, request.targets, start);
      var supported := SupportFrom(w, request, request.targets, start);
      if supported.Ok? {
        if request.schema.Some? { SchemaKeepsRenders(w, request.schema.value, request.targets, supported.value); }
        var schemed := if request.schema.Some?
                       then SchemaFrom(w, request.schema.value, request.targets, supported.value) else supported;
        if schemed.Ok? {
          FilesFresh(w, previous, request.targets, analysis.analyses, SortBy(FileValues(batch.files), FilePath),
                     schemed.value);
        }
      }
    }
  }

  datatype BuildUpdate = BuildUpdate(state: ProjectState, events: seq<Event>)

  // Whatever was built before, a build does what one with its renderings and no other cache does: it fails with
  // the same error or leaves the same state, and reports its difference.
  method ReconcileProjectBuild(w: World, request: Request, previous: ProjectState) returns (r: Outcome<BuildUpdate>)
    requires Cached(w, previous)
    ensures match BuildWith(w, Some(previous.renderCache), request)
      case Throw(error) => r == Throw(error)
      case Ok(state) => r == Ok(BuildUpdate(state, DiffProject(previous, state))) && Cached(w, state)
    ensures Attentive(w) ==> BuildWith(w, Some(previous.renderCache), request) == FreshBuild(w, request)
  {
    hide ParsesCached, AnalysesCached, SchemasCached, RendersCached, FreshBatch, FreshAnalysis, CollectDiagnostics,
      FirstRepeated, SupportFrom, SchemaFrom, FilesFrom, SortBy, FileValues, DiffProject, Attentive, AllHashed,
      FileQueries;
    if Attentive(w) { BuildIsFresh(w, previous.renderCache, request); }
    hide FreshBuild;
    FreshHashed(w, request.sources);
    var batch, parseHits, parseMisses := ReconcileQueryBatch(w, request.sources, previous.batch);
    if batch.Throw? { return Throw(batch.error); }
    var analysis, analysisHits,
        analysisMisses := ReconcileQueryAnalysis(w, batch.value, request.analysis, previous.analysis);
    var diagnostics := CollectDiagnostics(batch.value, analysis, request.schemaDiagnostics);
    var repeated := FirstRepeated(request.targets, {});
    if repeated.Some? { return Throw(DuplicateTarget(repeated.value)); }
    NothingRendered(w, diagnostics);
    var supported := RenderSupport(w, request, previous.schemaCache, Rendering([], [], [], diagnostics));
    if supported.Throw? { return Throw(supported.error); }
    var schemed := supported;
    if request.schema.Some? {
      schemed := RenderSchema(w, request.schema.value, request.targets, previous.schemaCache, supported.value);
      if schemed.Throw? { return Throw(schemed.error); }
    }
    var files := SortBy(FileValues(batch.value.files), FilePath);
    var done := RenderFiles(w, request.targets, analysis.analyses, files, previous.renderCache, schemed.value);
    if done.Throw? { return Throw(done.error); }
    var state := ProjectState(batch.value, analysis, done.value.artifacts, done.value.renderCache,
                              done.value.schemaCache,
      SortBy(done.value.diagnostics, DiagnosticKey));
    r := Ok(BuildUpdate(state, DiffProject(previous, state)));
  }

  lemma NothingRendered(w: World, diagnostics: seq<ProjectDiagnostic>)
    ensures Sound(w, Rendering([], [], [], diagnostics))
  {
  }

  lemma NothingCachedYet(w: World)
    ensures Cached(w, NO_BUILD)
  {
  }

  // -- What it may change --------------------------------------------------------------------------------------

  // A target that writes a query's text into its artifact, and a query file whose statement's hash edits of
  // its layout do not change.
  function Copying(): World
  {
    World((content: string) => ParseSuccess([Definition("q", "h", content, One, [])]),
          (statement: Statement, options: Options) => AnalysisResult("", []),
          (id: string, key: string) => Rendered([], []),
          (id: string, key: string, schema: string) => Rendered([], []),
          (key: string, route: Route,
           items: seq<AnalysisItem>) => Copied(if items == [] then "" else items[0].query.definition.sql))
  }

  function Copied(text: string): Rendered { Rendered([CodegenArtifact("q.ts", "types", text)], []) }

  const ROUTE := Route("ts", [])

  function Editing(text: string): Request
  {
    Request([SourceInput("q.sql", text, [ROUTE])], [Target("ts", "k", false, false)], Options("s", "a", [], None), [],
            None)
  }

  function Item(text: string): QueryItem
  {
    QueryItemOf("q.sql", [ROUTE], Definition("q", "h", text, One, []))
  }

  function Analysis(text: string): AnalysisItem
  {
    AnalysisItem(Item(text), AnalysisCacheKey(Item(text), Options("s", "a", [], None)), Digest(""),
                 AnalysisResult("", []))
  }

  const KEY := RenderKey("k", ROUTE, [("q", AnalysisHash(Statement("h", One, [])), Digest(""))])

  lemma EditedBatch(text: string)
    ensures FreshBatch(Copying(), Editing(text).sources).Ok?
    ensures var files := FreshBatch(Copying(), Editing(text).sources).value.files;
      |files| == 1 && files[0].value.path == "q.sql" && files[0].value.routes == [ROUTE] &&
      files[0].value.queries == [Item(text)] && files[0].value.diagnostics == []
  {
    var input := Editing(text).sources[0];
    assert SortBy(Editing(text).sources, InputPath) == [input];
    var w := Copying();
    var state := BatchState([Entry("q.sql", FileOf(input, w.parse(text)))], [Entry(Digest(text), w.parse(text))]);
    assert BatchFrom(w, [input], EMPTY) == BatchFrom(w, [], state);
  }

  lemma EditedAnalysis(text: string)
    ensures FreshBatch(Copying(), Editing(text).sources).Ok?
    ensures var batch := FreshBatch(Copying(), Editing(text).sources).value;
      FreshAnalysis(Copying(), batch, Editing(text).analysis).analyses == [Entry("q.sql#q", Analysis(text))]
  {
    hide FreshBatch, FreshAnalysis, EntryFor, AnalysisCacheKey;
    EditedBatch(text);
    OneQuery(Copying(), FreshBatch(Copying(), Editing(text).sources).value, Editing(text).analysis, Item(text));
    EditedEntry(text);
  }

  lemma EditedEntry(text: string)
    ensures Item(text).id == "q.sql#q"
    ensures EntryFor(Copying(), Item(text), Options("s", "a", [], None)) ==
            CacheEntry(AnalysisResult("", []), Digest(""))
  {
  }

  // One query is all the analysis there is.
  lemma OneQuery(w: World, batch: BatchState, o: Options, q: QueryItem)
    requires |batch.files| == 1 && batch.files[0].value.queries == [q]
    ensures FreshAnalysis(w, batch, o).analyses ==
            [Entry(q.id, ItemOf(q, AnalysisCacheKey(q, o), EntryFor(w, q, o)))]
  {
    hide AnalysisCacheKey, EntryFor, ItemOf, FileQueries, SortBy, AnalysisFrom;
    OneFile(batch.files);
    SortsOne(q);
    AnalyzesOne(w, o, q);
  }

  lemma OneFile(files: Record<string, FileState>)
    requires |files| == 1
    ensures FileQueries(files) == files[0].value.queries
  {
    assert files[1..] == [];
  }

  lemma SortsOne(q: QueryItem)
    ensures SortBy([q], QueryId) == [q]
  {
    assert [q][..0] == [];
    assert SortBy([q][..0], QueryId) == [];
  }

  lemma AnalyzesOne(w: World, o: Options, q: QueryItem)
    ensures AnalysisFrom(w, o, [q], NOTHING) == Analyzed(w, o, q, NOTHING)
  {
    hide Analyzed;
    var state := Analyzed(w, o, q, NOTHING);
    assert [q][1..] == [];
    assert AnalysisFrom(w, o, [q], NOTHING) == AnalysisFrom(w, o, [q][1..], state);
  }

  lemma EditedKey(text: string)
    ensures RenderKeyOf("k", ROUTE, [Analysis(text)]) == KEY
  {
    assert Triples([Analysis(text)]) == KEY.queries;
  }

  // The text that is rendered: the cached one if there is one.
  function TextFor(cache: Option<RenderCache>, text: string): Rendered
  {
    if cache.None? || Get(cache.value, KEY).None? then Copied(text) else Get(cache.value, KEY).value
  }

  function Filing(text: string): Artifacts
  {
    [Entry("q.ts", Artifact("q.ts", "q.sql", "ts", "types", text, Digest(text)))]
  }

  lemma EditedRoutes(cache: Option<RenderCache>, text: string, t: string)
    requires TextFor(cache, text) == Copied(t)
    ensures RoutesFrom(Copying(), cache, Editing(text).targets, "q.sql", [Analysis(text)], [ROUTE],
                       Rendering([], [], [], [])) == Ok(Rendering(Filing(t), [Entry(KEY, Copied(t))], [], []))
  {
    EditedKey(text);
    var w, targets, start := Copying(), Editing(text).targets, Rendering([], [], [], []);
    assert FindTarget(targets, "ts") == Some(targets[0]);
    assert RenderedWith(w, cache, [], "k", ROUTE, [Analysis(text)]) == Copied(t);
    hide KEY, RenderKeyOf, RenderedWith;
    var kept := Rendering([], [Entry(KEY, Copied(t))], [], []);
    CopiedEmits(kept, t);
    RouteStep(w, cache, targets, "q.sql", [Analysis(text)], [ROUTE], 0, start);
    assert [ROUTE][0..] == [ROUTE] && [ROUTE][1..] == [];
  }

  lemma CopiedEmits(acc: Rendering, t: string)
    requires acc.artifacts == []
    ensures Emit(acc, Copied(t), "q.sql", "ts") == Ok(acc.(artifacts := Filing(t)))
  {
    assert Copied(t).artifacts[1..] == [];
    assert AddArtifacts([], Copied(t).artifacts, "q.sql", "ts") == Ok(Filing(t));
    var ds := Copied(t).diagnostics;
    assert acc.diagnostics + seq(|ds|, i requires 0 <= i < |ds| => OfCodegen("ts", ds[i])) == acc.diagnostics;
    assert acc.(diagnostics := acc.diagnostics) == acc;
  }

  lemma EditedFiles(cache: Option<RenderCache>, text: string, t: string, file: FileState)
    requires TextFor(cache, text) == Copied(t)
    requires file.path == "q.sql" && file.routes == [ROUTE] && file.queries == [Item(text)] && file.diagnostics == []
    ensures FilesFrom(Copying(), cache, Editing(text).targets, [Entry("q.sql#q", Analysis(text))], [file],
                      Rendering([], [], [], [])) == Ok(Rendering(Filing(t), [Entry(KEY, Copied(t))], [], []))
  {
    EditedRoutes(cache, text, t);
    hide Copying, KEY, TextFor, Filing, RoutesFrom;
    var analyses, start := [Entry("q.sql#q", Analysis(text))], Rendering([], [], [], []);
    assert Item(text).id == "q.sql#q";
    assert [Item(text)][1..] == [];
    assert FileItems(analyses, []) == [];
    assert FileItems(analyses, [Item(text)]) == [Analysis(text)] + [] == [Analysis(text)];
    assert !HasErrors(file, [Analysis(text)]);
    FileStep(Copying(), cache, Editing(text).targets, analyses, [file], 0, start);
    assert [file][0..] == [file] && [file][1..] == [];
  }

  lemma EditedStart(text: string, batch: BatchState, analysis: AnalysisState)
    requires |batch.files| == 1 && batch.files[0].value.diagnostics == []
    requires analysis.analyses == [Entry("q.sql#q", Analysis(text))]
    ensures CollectDiagnostics(batch, analysis, []) == []
    ensures FirstRepeated(Editing(text).targets, {}).None?
    ensures forall acc :: SupportFrom(Copying(), Editing(text), Editing(text).targets, acc) == Ok(acc)
    ensures SortBy(FileValues(batch.files), FilePath) == [batch.files[0].value]
  {
    hide Copying;
    assert batch.files[1..] == [] && FileDiagnostics(batch.files[1..]) == [] && FileDiagnostics(batch.files) == [];
    assert analysis.analyses[1..] == [] && AnalysisDiagnostics(analysis.analyses) == [];
    assert Editing(text).targets[1..] == [];
    assert FileValues(batch.files) == [batch.files[0].value];
  }

  lemma EditedBuild(cache: Option<RenderCache>, text: string, t: string)
    requires TextFor(cache, text) == Copied(t)
    ensures var r := BuildWith(Copying(), cache, Editing(text));
      r.Ok? && r.value.artifacts == Filing(t) && r.value.renderCache == [Entry(KEY, Copied(t))]
  {
    hide FreshBatch, FreshAnalysis, FilesFrom, SupportFrom, SortBy, FileValues, CollectDiagnostics, FirstRepeated,
      Copying, KEY, TextFor, Filing, DiagnosticKey;
    EditedBatch(text);
    EditedAnalysis(text);
    var w, request := Copying(), Editing(text);
    var batch := FreshBatch(w, request.sources).value;
    var analysis := FreshAnalysis(w, batch, request.analysis);
    EditedStart(text, batch, analysis);
    EditedFiles(cache, text, t, batch.files[0].value);
  }

  // A build that edits only the layout of a query keeps the artifact of the old text; from nothing it would have
  // the new one.
  lemma StaleText(a: string, b: string)
    requires a != b
    ensures var first := BuildWith(Copying(), Some([]), Editing(a));
      first.Ok? && FreshBuild(Copying(), Editing(b)).Ok? &&
      var second := BuildWith(Copying(), Some(first.value.renderCache), Editing(b));
      second.Ok? && second.value.artifacts == first.value.artifacts &&
      second.value.artifacts != FreshBuild(Copying(), Editing(b)).value.artifacts
  {
    EditedBuild(Some([]), a, a);
    EditedBuild(Some([Entry(KEY, Copied(a))]), b, a);
    EditedBuild(None, b, b);
    hide BuildWith, Copying, KEY;
  }

  lemma CopyingIsNot()
    ensures !Attentive(Copying())
  {
    StaleText("a", "b");
    if Attentive(Copying()) {
      BuildIsFresh(Copying(), [], Editing("a"));
      BuildIsFresh(Copying(), FreshBuild(Copying(), Editing("a")).value.renderCache, Editing("b"));
      assert false;
    }
  }
}
