/** Which artifacts a build has: those of the renderings without errors, of support, schema and clean query files. */
module BuildArtifacts {
  import opened Bytes
  import opened Records
  import opened BuildWorld
  import opened QueryBatch
  import opened QueryAnalysis
  import opened ProjectBuild

  ghost predicate Has(artifacts: Artifacts, a: Artifact) { Entry(a.path, a) in artifacts }

  // The artifact is one of a rendering's, which reports no error.
  ghost predicate Of(a: Artifact, rendered: Rendered, sourcePath: string, target: string)
  {
    (forall d :: d in rendered.diagnostics ==> !d.isError) && a.sourcePath == sourcePath && a.target == target &&
    CodegenArtifact(a.path, a.kind, a.content) in rendered.artifacts && a.hash == Digest(a.content)
  }

  // -- One rendering ----------------------------------------------------------------------------------------------

  lemma {:induction false} PutNew<V>(r: Record<string, V>, key: string, value: V)
    requires Get(r, key).None?
    ensures forall e :: e in Put(r, key, value) <==> e in r || e == Entry(key, value)
    decreases |r|
  {
    if r != [] { PutNew(r[1..], key, value); }
  }

  ghost predicate Listed(a: Artifact, list: seq<CodegenArtifact>, sourcePath: string, target: string)
  {
    a.sourcePath == sourcePath && a.target == target && a.hash == Digest(a.content) &&
    CodegenArtifact(a.path, a.kind, a.content) in list
  }

  lemma {:induction false} Adds(artifacts: Artifacts, list: seq<CodegenArtifact>, sourcePath: string, target: string,
      a: Artifact)
    requires AddArtifacts(artifacts, list, sourcePath, target).Ok?
    ensures Has(AddArtifacts(artifacts, list, sourcePath, target).value, a) <==>
      Has(artifacts, a) || Listed(a, list, sourcePath, target)
    decreases |list|
  {
    hide Get, Put;
    if list != [] {
      var c := list[0];
      var first := Artifact(c.path, sourcePath, target, c.kind, c.content, Digest(c.content));
      PutNew(artifacts, c.path, first);
      Adds(Put(artifacts, c.path, first), list[1..], sourcePath, target, a);
    }
  }

  lemma Emits(acc: Rendering, rendered: Rendered, sourcePath: string, target: string, a: Artifact)
    requires Emit(acc, rendered, sourcePath, target).Ok?
    ensures Has(Emit(acc, rendered, sourcePath, target).value.artifacts, a) <==>
      Has(acc.artifacts, a) || Of(a, rendered, sourcePath, target)
  {
    hide AddArtifacts, Has;
    var ds := rendered.diagnostics;
    if exists i :: 0 <= i < |ds| && ds[i].isError {
      assert exists d :: d in ds && d.isError;
    } else {
      Adds(acc.artifacts, rendered.artifacts, sourcePath, target, a);
    }
  }

  // -- Routes and files -------------------------------------------------------------------------------------------

  ghost predicate OfRoute(w: World, targets: seq<Target>, path: string, items: seq<AnalysisItem>, route: Route,
      a: Artifact)
  {
    exists t :: FindTarget(targets, route.target) == Some(t) && Of(a, w.renderQueries(t.key, route, items), path, t.id)
  }

  ghost predicate OfRoutes(w: World, targets: seq<Target>, path: string, items: seq<AnalysisItem>, routes: seq<Route>,
      a: Artifact)
  {
    exists route :: route in routes && OfRoute(w, targets, path, items, route, a)
  }

  lemma {:induction false} RoutesHave(w: World, targets: seq<Target>, path: string, items: seq<AnalysisItem>,
      routes: seq<Route>, acc: Rendering, a: Artifact)
    requires RoutesFrom(w, None, targets, path, items, routes, acc).Ok?
    ensures Has(RoutesFrom(w, None, targets, path, items, routes, acc).value.artifacts, a) <==>
      Has(acc.artifacts, a) || OfRoutes(w, targets, path, items, routes, a)
    decreases |routes|
  {
    hide Has, Of, Emit, Put, FindTarget, RenderKeyOf;
    if routes != [] {
      var t := FindTarget(targets, routes[0].target).value;
      var rendered := w.renderQueries(t.key, routes[0], items);
      var kept := acc.(renderCache := Put(acc.renderCache, RenderKeyOf(t.key, routes[0], items), rendered));
      Emits(kept, rendered, path, t.id, a);
      RoutesHave(w, targets, path, items, routes[1..], Emit(kept, rendered, path, t.id).value, a);
      hide RoutesFrom;
      assert OfRoute(w, targets, path, items, routes[0], a) <==> Of(a, rendered, path, t.id);
      assert forall r :: r in routes <==> r == routes[0] || r in routes[1..];
    }
  }

  // A file without parse errors all of whose analyses are without errors.
  ghost predicate Clean(analyses: Record<string, AnalysisItem>, file: FileState)
  {
    file.diagnostics == [] &&
    forall item, d :: item in FileItems(analyses, file.queries) && d in item.result.diagnostics ==> !d.isError
  }

  lemma CleanIff(analyses: Record<string, AnalysisItem>, file: FileState)
    ensures Clean(analyses, file) <==> !HasErrors(file, FileItems(analyses, file.queries))
  {
    hide FileItems;
    var items := FileItems(analyses, file.queries);
    if HasErrors(file, items) && file.diagnostics == [] {
      var i :| 0 <= i < |items| && ItemErrors(items[i]);
      var k :| 0 <= k < |items[i].result.diagnostics| && items[i].result.diagnostics[k].isError;
      assert items[i] in items && items[i].result.diagnostics[k] in items[i].result.diagnostics;
    }
    if !HasErrors(file, items) {
      forall item, d | item in items && d in item.result.diagnostics ensures !d.isError {
        var i :| 0 <= i < |items| && items[i] == item;
        assert !ItemErrors(items[i]);
      }
    }
  }

  ghost predicate OfFile(w: World, targets: seq<Target>, analyses: Record<string, AnalysisItem>, file: FileState,
      a: Artifact)
  {
    Clean(analyses, file) && OfRoutes(w, targets, file.path, FileItems(analyses, file.queries), file.routes, a)
  }

  ghost predicate OfFiles(w: World, targets: seq<Target>, analyses: Record<string, AnalysisItem>,
      files: seq<FileState>, a: Artifact)
  {
    exists file :: file in files && OfFile(w, targets, analyses, file, a)
  }

  lemma FilesCons(w: World, targets: seq<Target>, analyses: Record<string, AnalysisItem>, files: seq<FileState>,
      a: Artifact)
    ensures files != [] ==>
      (OfFiles(w, targets, analyses, files, a) <==>
        OfFile(w, targets, analyses, files[0], a) || OfFiles(w, targets, analyses, files[1..], a))
    ensures files == [] ==> !OfFiles(w, targets, analyses, files, a)
  {
    hide OfFile;
    if files != [] { assert forall f :: f in files <==> f == files[0] || f in files[1..]; }
  }

  lemma {:induction false} FilesHave(w: World, targets: seq<Target>, analyses: Record<string, AnalysisItem>,
      files: seq<FileState>, acc: Rendering, a: Artifact)
    requires FilesFrom(w, None, targets, analyses, files, acc).Ok?
    ensures Has(FilesFrom(w, None, targets, analyses, files, acc).value.artifacts, a) <==>
      Has(acc.artifacts, a) || OfFiles(w, targets, analyses, files, a)
    decreases |files|
  {
    hide Has, OfRoutes, RoutesFrom, FileItems, HasErrors, Clean, OfFiles;
    FilesCons(w, targets, analyses, files, a);
    if files != [] {
      var file := files[0];
      var items := FileItems(analyses, file.queries);
      CleanIff(analyses, file);
      if HasErrors(file, items) {
        FilesHave(w, targets, analyses, files[1..], acc, a);
      } else {
        var next := RoutesFrom(w, None, targets, file.path, items, file.routes, acc);
        RoutesHave(w, targets, file.path, items, file.routes, acc, a);
        FilesHave(w, targets, analyses, files[1..], next.value, a);
      }
    }
  }

  // -- Support and schema -----------------------------------------------------------------------------------------

  ghost predicate OfSupport(w: World, request: Request, targets: seq<Target>, a: Artifact)
  {
    exists t :: t in targets && t.hasSupport && Of(a, w.renderSupport(t.id, t.key), SupportSource(request), t.id)
  }

  lemma {:induction false} SupportHas(w: World, request: Request, targets: seq<Target>, acc: Rendering, a: Artifact)
    requires SupportFrom(w, request, targets, acc).Ok?
    ensures Has(SupportFrom(w, request, targets, acc).value.artifacts, a) <==>
      Has(acc.artifacts, a) || OfSupport(w, request, targets, a)
    decreases |targets|
  {
    hide Has, Of, Emit, Put, SupportSource, SupportKey;
    if targets != [] {
      var t := targets[0];
      if !t.hasSupport {
        SupportHas(w, request, targets[1..], acc, a);
      } else {
        var rendered := w.renderSupport(t.id, t.key);
        var kept := acc.(schemaCache := Put(acc.schemaCache, SupportKey(t.id), SchemaEntry(Own(t.key), rendered)));
        Emits(kept, rendered, SupportSource(request), t.id, a);
        SupportHas(w, request, targets[1..], Emit(kept, rendered, SupportSource(request), t.id).value, a);
      }
      hide SupportFrom;
      assert forall u :: u in targets <==> u == t || u in targets[1..];
    }
  }

  ghost predicate OfSchema(w: World, schema: SchemaInfo, targets: seq<Target>, a: Artifact)
  {
    exists t :: t in targets && t.hasSchema && Of(a, w.renderSchema(t.id, t.key, schema.key), schema.sourcePath, t.id)
  }

  lemma {:induction false} SchemaHas(w: World, schema: SchemaInfo, targets: seq<Target>, acc: Rendering, a: Artifact)
    requires SchemaFrom(w, schema, targets, acc).Ok?
    ensures Has(SchemaFrom(w, schema, targets, acc).value.artifacts, a) <==>
      Has(acc.artifacts, a) || OfSchema(w, schema, targets, a)
    decreases |targets|
  {
    hide Has, Of, Emit, Put;
    if targets != [] {
      var t := targets[0];
      if !t.hasSchema {
        SchemaHas(w, schema, targets[1..], acc, a);
      } else {
        var rendered := w.renderSchema(t.id, t.key, schema.key);
        var kept := acc.(schemaCache := Put(acc.schemaCache, t.id, SchemaEntry(Hashed(t.key, schema.key), rendered)));
        Emits(kept, rendered, schema.sourcePath, t.id, a);
        SchemaHas(w, schema, targets[1..], Emit(kept, rendered, schema.sourcePath, t.id).value, a);
      }
      hide SchemaFrom;
      assert forall u :: u in targets <==> u == t || u in targets[1..];
    }
  }

  // -- The build --------------------------------------------------------------------------------------------------

  lemma SortedFiles(files: Record<string, FileState>)
    ensures forall f :: f in SortBy(FileValues(files), FilePath) <==> f in FileValues(files)
  {
    hide SortBy;
    SortBySorts(FileValues(files), FilePath);
    forall f ensures f in SortBy(FileValues(files), FilePath) <==> f in FileValues(files) {
      assert f in multiset(SortBy(FileValues(files), FilePath)) <==> f in multiset(FileValues(files));
    }
  }

  // The artifacts of a build from nothing are exactly those of the renderings without errors: of each target's
  // support, of the schema, and of every route of every query file that has no error itself.
  lemma ArtifactsAre(w: World, request: Request, a: Artifact)
    requires FreshBuild(w, request).Ok?
    ensures var state := FreshBuild(w, request).value;
      Has(state.artifacts, a) <==>
        || OfSupport(w, request, request.targets, a)
        || (request.schema.Some? && OfSchema(w, request.schema.value, request.targets, a))
        || OfFiles(w, request.targets, state.analysis.analyses, FileValues(state.batch.files), a)
  {
    hide Has, FreshBatch, FreshAnalysis, CollectDiagnostics, FirstRepeated, SupportFrom, SchemaFrom, FilesFrom, SortBy,
      FileValues, OfSupport, OfSchema, OfFile;
    var batch := FreshBatch(w, request.sources).value;
    var analysis := FreshAnalysis(w, batch, request.analysis);
    var start := Rendering([], [], [], CollectDiagnostics(batch, analysis, request.schemaDiagnostics));
    NothingYet(start, a);
    SupportHas(w, request, request.targets, start, a);
    var supported := SupportFrom(w, request, request.targets, start).value;
    if request.schema.Some? { SchemaHas(w, request.schema.value, request.targets, supported, a); }
    var schemed := if request.schema.None? then supported
                   else SchemaFrom(w, request.schema.value, request.targets, supported).value;
    FilesHave(w, request.targets, analysis.analyses, SortBy(FileValues(batch.files), FilePath), schemed, a);
    SortedFiles(batch.files);
  }

  lemma NothingYet(acc: Rendering, a: Artifact)
    requires acc.artifacts == []
    ensures !Has(acc.artifacts, a)
  {
  }
}
