/** Writing build events to disk, and what the disk holds over whole runs of builds. */
module ArtifactWriter {
  import opened Bytes
  import opened Records
  import opened BuildWorld
  import opened QueryBatch
  import opened QueryAnalysis
  import opened ProjectBuild

  type Disk = map<string, string>

  function On(disk: Disk, path: string): Option<string>
  {
    if path in disk then Some(disk[path]) else None
  }

  datatype WriteResult = Written(artifact: Artifact) | Unchanged(artifact: Artifact)
    | Unlinked(artifact: Artifact) | Missing(artifact: Artifact)

  // -- One event ----------------------------------------------------------------------------------------

  function Effect(disk: Disk, e: Event): Disk
  {
    match e
    case Added(a) => disk[a.path := a.content]
    case Changed(_, a) => disk[a.path := a.content]
    case Removed(a) => disk - {a.path}
    case DiagnosticsChanged(_, _) => disk
  }

  function ResultOf(disk: Disk, e: Event): seq<WriteResult>
  {
    match e
    case Added(a) => [if On(disk, a.path) == Some(a.content) then Unchanged(a) else Written(a)]
    case Changed(_, a) => [if On(disk, a.path) == Some(a.content) then Unchanged(a) else Written(a)]
    case Removed(a) => [if a.path in disk then Unlinked(a) else Missing(a)]
    case DiagnosticsChanged(_, _) => []
  }

  function ApplyAll(disk: Disk, events: seq<Event>): Disk
    decreases |events|
  {
    if events == [] then disk else Effect(ApplyAll(disk, events[..|events| - 1]), events[|events| - 1])
  }

  function Results(disk: Disk, events: seq<Event>): seq<WriteResult>
    decreases |events|
  {
    if events == [] then []
    else
      var front := events[..|events| - 1];
      Results(disk, front) + ResultOf(ApplyAll(disk, front), events[|events| - 1])
  }

  class Files {
    var content: Disk

    constructor (disk: Disk)
      ensures content == disk
    {
      content := disk;
    }

    method WriteArtifact(artifact: Artifact) returns (result: WriteResult)
      modifies this
      ensures content == old(content)[artifact.path := artifact.content]
      ensures [result] == ResultOf(old(content), Added(artifact))
    {
      if artifact.path in content && content[artifact.path] == artifact.content {
        result := Unchanged(artifact);
        assert content == content[artifact.path := artifact.content];
      } else {
        content := content[artifact.path := artifact.content];
        result := Written(artifact);
      }
    }

    method RemoveArtifact(artifact: Artifact) returns (result: WriteResult)
      modifies this
      ensures content == old(content) - {artifact.path}
      ensures [result] == ResultOf(old(content), Removed(artifact))
    {
      if artifact.path in content {
        content := content - {artifact.path};
        result := Unlinked(artifact);
      } else {
        result := Missing(artifact);
      }
    }

    method ApplyProjectBuildEvents(events: seq<Event>) returns (results: seq<WriteResult>)
      modifies this
      ensures content == ApplyAll(old(content), events)
      ensures results == Results(old(content), events)
    {
      results := [];
      for i := 0 to |events|
        invariant content == ApplyAll(old(content), events[..i])
        invariant results == Results(old(content), events[..i])
      {
        assert events[..i + 1][..i] == events[..i];
        if events[i].Removed? {
          var result := RemoveArtifact(events[i].artifact);
          results := results + [result];
        } else if !events[i].DiagnosticsChanged? {
          var result := WriteArtifact(events[i].artifact);
          results := results + [result];
        }
      }
      assert events[..|events|] == events;
    }
  }

  // -- Event lists ----------------------------------------------------------------------------------------

  predicate Touches(e: Event, path: string)
  {
    !e.DiagnosticsChanged? && e.artifact.path == path
  }

  // No path is touched in two different ways.
  ghost predicate Agree(events: seq<Event>)
  {
    forall e, f, p :: e in events && f in events && Touches(e, p) && Touches(f, p) ==> e == f
  }

  function LeftBy(e: Event): Option<string>
    requires !e.DiagnosticsChanged?
  {
    if e.Removed? then None else Some(e.artifact.content)
  }

  lemma {:induction false} ApplyAt(disk: Disk, events: seq<Event>, path: string)
    requires Agree(events)
    ensures (forall e :: e in events ==> !Touches(e, path)) ==> On(ApplyAll(disk, events), path) == On(disk, path)
    ensures forall e :: e in events && Touches(e, path) ==> On(ApplyAll(disk, events), path) == LeftBy(e)
    decreases |events|
  {
    if events != [] {
      var n := |events| - 1;
      hide Touches, LeftBy, Agree, ApplyAll;
      FewerAgree(events);
      ApplyAt(disk, events[..n], path);
      ApplyLast(disk, events, path);
      assert events[n] in events;
    }
  }

  lemma FewerAgree(events: seq<Event>)
    requires events != [] && Agree(events)
    ensures Agree(events[..|events| - 1]) && forall e :: e in events <==> e in events[..|events| - 1] || e == events[|events| - 1]
    ensures forall e, p :: e in events && Touches(e, p) && Touches(events[|events| - 1], p) ==> e == events[|events| - 1]
  {
    hide Touches;
    var n := |events| - 1;
    assert events == events[..n] + [events[n]];
  }

  lemma ApplyLast(disk: Disk, events: seq<Event>, path: string)
    requires events != []
    ensures var n := |events| - 1;
      On(ApplyAll(disk, events), path) ==
        if Touches(events[n], path) then LeftBy(events[n]) else On(ApplyAll(disk, events[..n]), path)
  {
  }

  // Applying the same events again changes nothing and writes nothing.
  lemma {:induction false} ApplyTwice(disk: Disk, events: seq<Event>, n: nat)
    requires Agree(events) && n <= |events|
    ensures var once := ApplyAll(disk, events);
      ApplyAll(once, events[..n]) == once &&
      forall r :: r in Results(once, events[..n]) ==> r.Unchanged? || r.Missing?
    decreases n
  {
    var once := ApplyAll(disk, events);
    if n > 0 {
      ApplyTwice(disk, events, n - 1);
      assert events[..n][..n - 1] == events[..n - 1];
      var e := events[n - 1];
      assert e in events;
      if !e.DiagnosticsChanged? {
        ApplyAt(disk, events, e.artifact.path);
        assert Touches(e, e.artifact.path);
        assert Effect(once, e) == once;
      }
    }
  }

  // -- The events of a build ------------------------------------------------------------------------------

  predicate Filed(artifacts: Artifacts)
  {
    forall e :: e in artifacts ==> e.key == e.value.path && e.value.hash == Digest(e.value.content)
  }

  lemma {:induction false} PathEventsAre(previous: Artifacts, current: Artifacts, paths: seq<string>, e: Event)
    ensures e in PathEvents(previous, current, paths) <==>
      exists p :: p in paths && e in EventsAt(Get(previous, p), Get(current, p))
    decreases |paths|
  {
    if paths != [] {
      PathEventsAre(previous, current, paths[1..], e);
      hide EventsAt, Get;
      assert paths[0] in paths;
      if e in PathEvents(previous, current, paths[1..]) {
        var p :| p in paths[1..] && e in EventsAt(Get(previous, p), Get(current, p));
        assert p in paths;
      }
      if p :| p in paths && e in EventsAt(Get(previous, p), Get(current, p)) {
        assert p == paths[0] || p in paths[1..];
      }
    }
  }

  lemma {:induction false} NewPathsCover(previous: Artifacts, current: Artifacts, p: string)
    requires Get(current, p).Some? && Get(previous, p).None?
    ensures p in NewPaths(previous, current)
    decreases |current|
  {
    if current[0].key != p {
      NewPathsCover(previous, current[1..], p);
    }
  }

  lemma AllPathsCover(previous: Artifacts, current: Artifacts, p: string)
    requires Get(previous, p).Some? || Get(current, p).Some?
    ensures p in AllPaths(previous, current)
  {
    if Get(previous, p).Some? {
      GetEntry(previous, p);
      var i :| 0 <= i < |previous| && previous[i] == Entry(p, Get(previous, p).value);
      assert KeysOf(previous, EntryKey)[i] == p;
    } else {
      NewPathsCover(previous, current, p);
    }
  }

  lemma SortByMembers<T>(s: seq<T>, key: T -> string, x: T)
    ensures x in SortBy(s, key) <==> x in s
  {
    SortBySorts(s, key);
    hide SortBy;
    assert x in SortBy(s, key) <==> x in multiset(SortBy(s, key));
    assert x in s <==> x in multiset(s);
  }

  // The artifact events are exactly the differences between the two artifact tables.
  lemma DiffTouches(previous: ProjectState, current: ProjectState, e: Event)
    requires Filed(previous.artifacts) && Filed(current.artifacts) && !e.DiagnosticsChanged?
    ensures e in DiffProject(previous, current) <==>
      e in EventsAt(Get(previous.artifacts, e.artifact.path), Get(current.artifacts, e.artifact.path))
  {
    var before, after := previous.artifacts, current.artifacts;
    var paths := AllPaths(before, after);
    var changed := if previous.diagnostics == current.diagnostics then []
      else [DiagnosticsChanged(previous.diagnostics, current.diagnostics)];
    SortByMembers(PathEvents(before, after, paths) + changed, EventKey, e);
    PathEventsAre(before, after, paths, e);
    hide SortBy, PathEvents, AllPaths, Get;
    if p :| p in paths && e in EventsAt(Get(before, p), Get(after, p)) {
      GetEntry(before, p);
      GetEntry(after, p);
      assert p == e.artifact.path;
    }
    var own := e.artifact.path;
    if e in EventsAt(Get(before, own), Get(after, own)) {
      AllPathsCover(before, after, own);
    }
  }

  lemma DiffAgrees(previous: ProjectState, current: ProjectState)
    requires Filed(previous.artifacts) && Filed(current.artifacts)
    ensures Agree(DiffProject(previous, current))
  {
    var events := DiffProject(previous, current);
    hide DiffProject;
    forall e, f, p | e in events && f in events && Touches(e, p) && Touches(f, p) ensures e == f {
      DiffTouches(previous, current, e);
      DiffTouches(previous, current, f);
    }
  }

  function ContentAt(artifacts: Artifacts, path: string): Option<string>
  {
    var found := Get(artifacts, path);
    if found.Some? then Some(found.value.content) else None
  }

  // After applying a build's events, paths owned before or after hold the new table's content.
  lemma ApplyDiff(previous: ProjectState, current: ProjectState, disk: Disk, path: string)
    requires Filed(previous.artifacts) && Filed(current.artifacts)
    requires Get(previous.artifacts, path).Some? ==> On(disk, path) == ContentAt(previous.artifacts, path)
    ensures var after := ApplyAll(disk, DiffProject(previous, current));
      On(after, path) ==
        if Get(previous.artifacts, path).Some? ||
            Get(current.artifacts, path).Some? then ContentAt(current.artifacts, path)
        else On(disk, path)
  {
    var events := DiffProject(previous, current);
    var before, after := Get(previous.artifacts, path), Get(current.artifacts, path);
    DiffAgrees(previous, current);
    ApplyAt(disk, events, path);
    GetEntry(previous.artifacts, path);
    GetEntry(current.artifacts, path);
    hide DiffProject, ApplyAll, Agree, Get;
    forall e | e in events && Touches(e, path) ensures e in EventsAt(before, after) {
      DiffTouches(previous, current, e);
    }
    var here := EventsAt(before, after);
    if here != [] {
      DiffTouches(previous, current, here[0]);
      assert Touches(here[0], path);
    }
  }

  // -- Every build's artifacts are filed under their own path -----------------------------------------------

  lemma {:induction false} AddFiles(artifacts: Artifacts, list: seq<CodegenArtifact>, sourcePath: string,
      target: string)
    requires Filed(artifacts)
    ensures AddArtifacts(artifacts, list, sourcePath, target).Ok? ==> Filed(AddArtifacts(artifacts, list, sourcePath, target).value)
    decreases |list|
  {
    if list != [] && Get(artifacts, list[0].path).None? {
      var a := list[0];
      var filed := Artifact(a.path, sourcePath, target, a.kind, a.content, Digest(a.content));
      PutEntries(artifacts, a.path, filed);
      AddFiles(Put(artifacts, a.path, filed), list[1..], sourcePath, target);
    }
  }

  predicate FiledOutcome(r: Outcome<Rendering>)
  {
    r.Ok? ==> Filed(r.value.artifacts)
  }

  lemma EmitFiles(acc: Rendering, rendered: Rendered, sourcePath: string, target: string)
    requires Filed(acc.artifacts)
    ensures FiledOutcome(Emit(acc, rendered, sourcePath, target))
  {
    hide Filed;
    AddFiles(acc.artifacts, rendered.artifacts, sourcePath, target);
  }

  lemma {:induction false} SupportFiles(w: World, request: Request, targets: seq<Target>, acc: Rendering)
    requires Filed(acc.artifacts)
    ensures FiledOutcome(SupportFrom(w, request, targets, acc))
    decreases |targets|
  {
    hide Filed, Emit;
    if targets != [] {
      var t := targets[0];
      SupportStep(w, request, targets, 0, acc);
      if !t.hasSupport {
        SupportFiles(w, request, targets[1..], acc);
      } else {
        var rendered := w.renderSupport(t.id, t.key);
        var kept := acc.(schemaCache := Put(acc.schemaCache, SupportKey(t.id), SchemaEntry(Own(t.key), rendered)));
        EmitFiles(kept, rendered, SupportSource(request), t.id);
        var next := Emit(kept, rendered, SupportSource(request), t.id);
        if next.Ok? { SupportFiles(w, request, targets[1..], next.value); }
      }
    }
  }

  lemma {:induction false} SchemaFiles(w: World, schema: SchemaInfo, targets: seq<Target>, acc: Rendering)
    requires Filed(acc.artifacts)
    ensures FiledOutcome(SchemaFrom(w, schema, targets, acc))
    decreases |targets|
  {
    hide Filed, Emit;
    if targets != [] {
      var t := targets[0];
      if !t.hasSchema {
        SchemaFiles(w, schema, targets[1..], acc);
      } else {
        var rendered := w.renderSchema(t.id, t.key, schema.key);
        var kept := acc.(schemaCache := Put(acc.schemaCache, t.id, SchemaEntry(Hashed(t.key, schema.key), rendered)));
        EmitFiles(kept, rendered, schema.sourcePath, t.id);
        var next := Emit(kept, rendered, schema.sourcePath, t.id);
        if next.Ok? { SchemaFiles(w, schema, targets[1..], next.value); }
      }
    }
  }

  lemma {:induction false} RoutesFile(w: World, cache: Option<RenderCache>, targets: seq<Target>,
      path: string, items: seq<AnalysisItem>, routes: seq<Route>, acc: Rendering)
    requires Filed(acc.artifacts)
    ensures FiledOutcome(RoutesFrom(w, cache, targets, path, items, routes, acc))
    decreases |routes|
  {
    hide Filed, Emit, RenderKeyOf, RenderedWith;
    if routes != [] && FindTarget(targets, routes[0].target).Some? {
      var t := FindTarget(targets, routes[0].target).value;
      var rendered := RenderedWith(w, cache, acc.renderCache, t.key, routes[0], items);
      var kept := acc.(renderCache := Put(acc.renderCache, RenderKeyOf(t.key, routes[0], items), rendered));
      EmitFiles(kept, rendered, path, t.id);
      var next := Emit(kept, rendered, path, t.id);
      if next.Ok? { RoutesFile(w, cache, targets, path, items, routes[1..], next.value); }
    }
  }

  lemma {:induction false} FilesFile(w: World, cache: Option<RenderCache>, targets: seq<Target>,
      analyses: Record<string, AnalysisItem>, files: seq<FileState>, acc: Rendering)
    requires Filed(acc.artifacts)
    ensures FiledOutcome(FilesFrom(w, cache, targets, analyses, files, acc))
    decreases |files|
  {
    hide Filed, RoutesFrom, HasErrors, FileItems;
    if files != [] {
      var items := FileItems(analyses, files[0].queries);
      if HasErrors(files[0], items) {
        FilesFile(w, cache, targets, analyses, files[1..], acc);
      } else {
        RoutesFile(w, cache, targets, files[0].path, items, files[0].routes, acc);
        var next := RoutesFrom(w, cache, targets, files[0].path, items, files[0].routes, acc);
        if next.Ok? { FilesFile(w, cache, targets, analyses, files[1..], next.value); }
      }
    }
  }

  lemma BuiltFiles(w: World, cache: Option<RenderCache>, request: Request)
    ensures BuildWith(w, cache, request).Ok? ==> Filed(BuildWith(w, cache, request).value.artifacts)
  {
    hide FreshBatch, FreshAnalysis, CollectDiagnostics, FirstRepeated, SupportFrom, SchemaFrom, FilesFrom, SortBy,
      FileValues;
    if BuildWith(w, cache, request).Ok? {
      var batch := FreshBatch(w, request.sources).value;
      var analysis := FreshAnalysis(w, batch, request.analysis);
      var start := Rendering([], [], [], CollectDiagnostics(batch, analysis, request.schemaDiagnostics));
      SupportFiles(w, request, request.targets, start);
      var supported := SupportFrom(w, request, request.targets, start).value;
      if request.schema.Some? {
        SchemaFiles(w, request.schema.value, request.targets, supported);
      }
      var schemed := if request.schema.None? then supported
                     else SchemaFrom(w, request.schema.value, request.targets, supported).value;
      FilesFile(w, cache, request.targets, analysis.analyses, SortBy(FileValues(batch.files), FilePath), schemed);
    }
  }

  // -- Whole runs -------------------------------------------------------------------------------------------

  // The project after some builds; `owned` collects every path a build ever owned.
  datatype Session = Session(state: ProjectState, disk: Disk, owned: set<string>, last: Option<Request>)

  function Start(disk: Disk): Session
  {
    Session(NO_BUILD, disk, {}, None)
  }

  // One more build, on top of the renderings of the last successful one.
  function Build(w: World, s: Session, request: Request): Session
  {
    match BuildWith(w, Some(s.state.renderCache), request)
    case Throw(_) => s
    case Ok(state) =>
      Session(state, ApplyAll(s.disk, DiffProject(s.state, state)), s.owned + Keys(state.artifacts), Some(request))
  }

  function Builds(w: World, s: Session, requests: seq<Request>): Session
    decreases |requests|
  {
    if requests == [] then s else Builds(w, Build(w, s, requests[0]), requests[1..])
  }

  // The state is a build from nothing of the last request that succeeded, for targets that render nothing but
  // what their cache keys know.
  ghost predicate Fresh(w: World, s: Session)
  {
    Attentive(w) ==>
      RendersCached(w, s.state.renderCache) && (s.last.Some? ==> FreshBuild(w, s.last.value) == Ok(s.state))
  }

  // On every path ever owned the disk holds the state's artifact or nothing; other paths are as they were.
  ghost predicate Consistent(w: World, s: Session, disk: Disk)
  {
    Fresh(w, s) && (s.last.None? ==> s.state == NO_BUILD) && Filed(s.state.artifacts) &&
    Keys(s.state.artifacts) <= s.owned &&
    forall p :: On(s.disk, p) == if p in s.owned then ContentAt(s.state.artifacts, p) else On(disk, p)
  }

  lemma BuildFresh(w: World, s: Session, request: Request)
    requires Fresh(w, s)
    ensures Fresh(w, Build(w, s, request))
  {
    hide FreshBuild, BuildWith, Attentive, RendersCached;
    if Attentive(w) { BuildIsFresh(w, s.state.renderCache, request); }
  }

  lemma BuildKeeps(w: World, s: Session, request: Request, disk: Disk)
    requires Consistent(w, s, disk)
    ensures Consistent(w, Build(w, s, request), disk)
  {
    hide BuildWith, DiffProject, ApplyAll, Get, ContentAt, Filed, Keys, Fresh;
    BuildFresh(w, s, request);
    var cache := Some(s.state.renderCache);
    BuiltFiles(w, cache, request);
    if BuildWith(w, cache, request).Ok? {
      var state := BuildWith(w, cache, request).value;
      var t := Build(w, s, request);
      forall p ensures On(t.disk, p) == if p in t.owned then ContentAt(state.artifacts, p) else On(disk, p) {
        GetKeys(s.state.artifacts, p);
        GetKeys(state.artifacts, p);
        ApplyDiff(s.state, state, s.disk, p);
        NothingThere(state.artifacts, p);
        NothingThere(s.state.artifacts, p);
      }
    }
  }

  lemma NothingThere(artifacts: Artifacts, p: string)
    ensures Get(artifacts, p).None? ==> ContentAt(artifacts, p) == None
  {
  }

  lemma {:induction false} BuildsKeep(w: World, s: Session, requests: seq<Request>, disk: Disk)
    requires Consistent(w, s, disk)
    ensures Consistent(w, Builds(w, s, requests), disk)
    decreases |requests|
  {
    hide Consistent, Build;
    if requests != [] {
      BuildKeeps(w, s, requests[0], disk);
      BuildsKeep(w, Build(w, s, requests[0]), requests[1..], disk);
    }
  }

  // Any run of builds over any edits, on any disk.
  lemma EverySession(w: World, requests: seq<Request>, disk: Disk)
    ensures Consistent(w, Builds(w, Start(disk), requests), disk)
  {
    assert Consistent(w, Start(disk), disk);
    hide Builds, Consistent;
    BuildsKeep(w, Start(disk), requests, disk);
  }

  // The methods do what `Builds` says: each build reconciles on top of the last successful state and
  // applies its events to the disk.
  method RunBuilds(w: World, requests: seq<Request>, files: Files) returns (state: ProjectState)
    modifies files
    ensures state == Builds(w, Start(old(files.content)), requests).state
    ensures files.content == Builds(w, Start(old(files.content)), requests).disk
    ensures Consistent(w, Builds(w, Start(old(files.content)), requests), old(files.content))
  {
    hide BuildWith, FreshBuild, DiffProject, ApplyAll, Builds, Keys, Cached, Results, Attentive, Consistent;
    ghost var s := Start(files.content);
    state := NO_BUILD;
    NothingCachedYet(w);
    assert requests[0..] == requests;
    for i := 0 to |requests|
      invariant Builds(w, s, requests[i..]) == Builds(w, Start(old(files.content)), requests)
      invariant state == s.state && files.content == s.disk && Cached(w, state)
    {
      BuildsStep(w, s, requests, i);
      var update := ReconcileProjectBuild(w, requests[i], state);
      s := Build(w, s, requests[i]);
      if update.Ok? {
        var results := files.ApplyProjectBuildEvents(update.value.events);
        state := update.value.state;
      }
    }
    assert requests[|requests|..] == [];
    BuildsDone(w, s);
    EverySession(w, requests, old(files.content));
  }

  lemma BuildsStep(w: World, s: Session, requests: seq<Request>, i: nat)
    requires i < |requests|
    ensures Builds(w, s, requests[i..]) == Builds(w, Build(w, s, requests[i]), requests[i + 1..])
  {
    assert requests[i..][1..] == requests[i + 1..];
  }

  lemma BuildsDone(w: World, s: Session)
    ensures Builds(w, s, []) == s
  {
  }

  // A build's events, applied a second time, change nothing.
  lemma ReapplyBuild(w: World, s: Session, request: Request, disk: Disk)
    requires Consistent(w, s, disk) && BuildWith(w, Some(s.state.renderCache), request).Ok?
    ensures var events := DiffProject(s.state, BuildWith(w, Some(s.state.renderCache), request).value);
      var after := Build(w, s, request).disk;
      ApplyAll(after, events) == after && forall r :: r in Results(after, events) ==> r.Unchanged? || r.Missing?
  {
    hide BuildWith, DiffProject, ApplyAll, Results, Filed, Keys, Fresh;
    var state := BuildWith(w, Some(s.state.renderCache), request).value;
    BuiltFiles(w, Some(s.state.renderCache), request);
    DiffAgrees(s.state, state);
    var events := DiffProject(s.state, state);
    ApplyTwice(s.disk, events, |events|);
    assert events[..|events|] == events;
  }
}
