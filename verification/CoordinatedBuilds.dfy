/** The coordinator driving incremental builds: whatever the interleaving, its state is that of building the
    requests that succeeded one after the other. */
module CoordinatedBuilds {
  import opened Bytes
  import opened Records
  import opened BuildWorld
  import opened ProjectBuild
  import opened ArtifactWriter
  import C = Coordinator

  type Built = C.Success<Request, ProjectState, seq<Event>>

  type Coordinated<E> = C.Coord<Request, ProjectState, seq<Event>, E>

  type Happening<E> = C.Event<Request, ProjectState, seq<Event>, E>

  // What reconciling a request on top of a state returns: `ReconcileProjectBuild`'s promise.
  ghost predicate Reconciles(w: World, request: Request, from: ProjectState, update: C.Update<ProjectState, seq<Event>>)
  {
    Cached(w, from) ==>
      BuildWith(w, Some(from.renderCache), request) == Ok(update.state) &&
      update.events == DiffProject(from, update.state) && Cached(w, update.state)
  }

  // The same promise, as the method makes it.
  method Reconcile(w: World, request: Request, from: ProjectState)
    returns (r: Outcome<C.Update<ProjectState, seq<Event>>>)
    requires Cached(w, from)
    ensures r.Ok? <==> BuildWith(w, Some(from.renderCache), request).Ok?
    ensures r.Ok? ==> Reconciles(w, request, from, r.value)
  {
    hide BuildWith, FreshBuild, DiffProject, Cached, Attentive;
    var update := ReconcileProjectBuild(w, request, from);
    match update
    case Throw(error) => r := Throw(error);
    case Ok(u) => r := Ok(C.Update(u.state, u.events));
  }

  // A reconciliation that completes returns what it computes; everything else may happen in any way.
  ghost predicate Computed<E>(w: World, c: Coordinated<E>, e: Happening<E>)
    requires C.Enabled(c, e)
  {
    e.Reconciled? ==> Reconciles(w, c.frames[e.frame].build.request, c.frames[e.frame].from, e.update)
  }

  ghost predicate Computing<E>(w: World, c: Coordinated<E>, run: seq<Happening<E>>)
    requires C.Possible(c, run)
    decreases |run|
  {
    run == [] || (Computed(w, c, run[0]) && Computing(w, C.Step(c, run[0]), run[1..]))
  }

  ghost predicate Reconciled(w: World, b: Built) { Reconciles(w, b.request, b.from, b.update) }

  // Successes, and updates on their way to the disk.
  ghost predicate AllReconciled<E>(w: World, c: Coordinated<E>)
  {
    (forall i :: 0 <= i < |c.successes| ==> Reconciled(w, c.successes[i])) &&
    (forall i :: 0 <= i < |c.frames| && c.frames[i].phase.Applying? ==>
      Reconciles(w, c.frames[i].build.request, c.frames[i].from, c.frames[i].phase.update))
  }

  lemma StepReconciles<E>(w: World, c: Coordinated<E>, e: Happening<E>)
    requires C.Enabled(c, e) && AllReconciled(w, c) && Computed(w, c, e)
    ensures AllReconciled(w, C.Step(c, e))
  {
    hide Reconciles;
  }

  lemma {:induction false} RunReconciles<E>(w: World, c: Coordinated<E>, run: seq<Happening<E>>)
    requires C.Possible(c, run) && AllReconciled(w, c) && Computing(w, c, run)
    ensures AllReconciled(w, C.After(c, run))
    decreases |run|
  {
    hide AllReconciled, C.Step, Computed;
    if run != [] {
      StepReconciles(w, c, run[0]);
      RunReconciles(w, C.Step(c, run[0]), run[1..]);
    }
  }

  // The events of the first k successes, applied in order.
  function DiskAfter(successes: seq<Built>, k: nat, disk: Disk): Disk
    requires k <= |successes|
  {
    if k == 0 then disk else ApplyAll(DiskAfter(successes, k - 1, disk), successes[k - 1].update.events)
  }

  function Requests(successes: seq<Built>, k: nat): seq<Request>
    requires k <= |successes|
  {
    if k == 0 then [] else Requests(successes, k - 1) + [successes[k - 1].request]
  }

  lemma {:induction false} BuildsSnoc(w: World, s: Session, requests: seq<Request>, request: Request)
    ensures Builds(w, s, requests + [request]) == Build(w, Builds(w, s, requests), request)
    decreases |requests|
  {
    hide Build;
    var all := requests + [request];
    if requests == [] {
      assert all[1..] == [];
      BuildsDone(w, Build(w, s, request));
    } else {
      BuildsSnoc(w, Build(w, s, requests[0]), requests[1..], request);
      assert all[1..] == requests[1..] + [request];
    }
  }

  lemma OneMore(w: World, s: Session, request: Request, update: C.Update<ProjectState, seq<Event>>)
    requires Cached(w, s.state) && Reconciles(w, request, s.state, update)
    ensures var t := Build(w, s, request);
      t.state == update.state && t.disk == ApplyAll(s.disk, update.events) && Cached(w, t.state)
  {
    hide Cached, BuildWith, DiffProject, ApplyAll;
  }

  lemma {:induction false} ChainIsSession(w: World, successes: seq<Built>, k: nat, disk: Disk)
    requires k <= |successes| && C.Linked(successes, NO_BUILD)
    requires forall i :: 0 <= i < |successes| ==> Reconciled(w, successes[i])
    ensures var s := Builds(w, Start(disk), Requests(successes, k));
      s.state == C.StateBefore(successes, k, NO_BUILD) && s.disk == DiskAfter(successes, k, disk) && Cached(w, s.state)
  {
    hide Builds, Build, Cached, BuildWith, DiffProject, ApplyAll, Reconciles;
    if k == 0 {
      BuildsDone(w, Start(disk));
      NothingCachedYet(w);
    } else {
      ChainIsSession(w, successes, k - 1, disk);
      BuildsSnoc(w, Start(disk), Requests(successes, k - 1), successes[k - 1].request);
      var b := successes[k - 1];
      assert Reconciled(w, b);
      OneMore(w, Builds(w, Start(disk), Requests(successes, k - 1)), b.request, b.update);
    }
  }

  // Over every run of the coordinator in which no apply fails part-way, the state and the disk are those of
  // building the successful requests one after the other; so the disk holds exactly the state's artifacts on
  // every path ever owned, and the state is a build from nothing of the last of them where builds are.
  lemma CoordinatedRun<E>(w: World, run: seq<Happening<E>>, disk: Disk)
    requires C.Possible(C.Initial(NO_BUILD), run) && Computing(w, C.Initial(NO_BUILD), run)
    ensures var c: Coordinated<E> := C.After(C.Initial(NO_BUILD), run);
      var s := Builds(w, Start(disk), Requests(c.successes, |c.successes|));
      c.state == s.state && DiskAfter(c.successes, |c.successes|, disk) == s.disk && Consistent(w, s, disk)
  {
    hide Builds, Consistent, C.After, Reconciled, DiskAfter, Requests, C.Linked, C.StateBefore, Computing, Reconciles;
    var c: Coordinated<E> := C.After(C.Initial(NO_BUILD), run);
    RunReconciles(w, C.Initial(NO_BUILD), run);
    C.EveryRun(run, NO_BUILD);
    ChainIsSession(w, c.successes, |c.successes|, disk);
    EverySession(w, Requests(c.successes, |c.successes|), disk);
  }
}
