/** The build coordinator: requests submitted while a build is in flight coalesce into one pending
    build. Each stretch of `#run` between two awaits is one atomic step, and every invocation of
    `#run` that is suspended at an await is a frame, so that nothing but the `#running` flag keeps two
    invocations from overlapping. Promises are numbered in the order they are handed out. */
module Coordinator {
  import opened Bytes
  import opened Parts

  datatype Update<S, V> = Update(state: S, events: V)

  // `serial` numbers the submission that `request` came from.
  datatype Pending<R> = Pending(request: R, serial: nat, waiters: seq<nat>)

  datatype Phase<S, V> = Reconciling | Applying(update: Update<S, V>)

  // A suspended `#run`, building on top of the state `from`.
  datatype Frame<R, S, V> = Frame(build: Pending<R>, from: S, phase: Phase<S, V>)

  datatype Outcome<S, V, E> = Resolved(serial: nat, update: Update<S, V>) | Rejected(error: E)

  datatype Settlement<S, V, E> = Settlement(waiter: nat, outcome: Outcome<S, V, E>)

  datatype Success<R, S, V> = Success(request: R, serial: nat, from: S, update: Update<S, V>)

  // A resolved drain, with the number of submissions and settlements at that moment.
  datatype Drained = Drained(waiter: nat, submitted: nat, settled: nat)

  datatype Coord<R, S, V, E> = Coord(
    state: S,
    pending: Option<Pending<R>>,
    running: bool,
    drainWaiters: seq<nat>,
    frames: seq<Frame<R, S, V>>,
    submitted: nat,
    settlements: seq<Settlement<S, V, E>>,
    successes: seq<Success<R, S, V>>,
    drains: nat,
    drained: seq<Drained>,
    requests: seq<R>)

  function Initial<R, S, V, E>(state: S): Coord<R, S, V, E>
  {
    Coord(state, None, false, [], [], 0, [], [], 0, [], [])
  }

  // What can happen to a coordinator; completions name the frame they resume.
  datatype Event<R, S, V, E> =
    | Submit(request: R)
    | Drain
    | Reconciled(frame: nat, update: Update<S, V>)
    | ReconcileFailed(frame: nat, error: E)
    | Applied(frame: nat)
    | ApplyFailed(frame: nat, error: E)

  predicate Enabled<R, S, V, E>(c: Coord<R, S, V, E>, e: Event<R, S, V, E>)
  {
    match e
    case Submit(_) => true
    case Drain => true
    case Reconciled(i, _) => i < |c.frames| && c.frames[i].phase.Reconciling?
    case ReconcileFailed(i, _) => i < |c.frames| && c.frames[i].phase.Reconciling?
    case Applied(i) => i < |c.frames| && c.frames[i].phase.Applying?
    case ApplyFailed(i, _) => i < |c.frames| && c.frames[i].phase.Applying?
  }

  // -- The steps --------------------------------------------------------------------------------

  function Enqueue<R>(pending: Option<Pending<R>>, request: R, serial: nat): Pending<R>
  {
    match pending
    case Some(p) => Pending(request, serial, p.waiters + [serial])
    case None => Pending(request, serial, [serial])
  }

  function Settle<S, V, E>(waiters: seq<nat>, outcome: Outcome<S, V, E>): (s: seq<Settlement<S, V, E>>)
    ensures |s| == |waiters|
    ensures forall i :: 0 <= i < |s| ==> s[i] == Settlement(waiters[i], outcome)
  {
    seq(|waiters|, i requires 0 <= i < |waiters| => Settlement(waiters[i], outcome))
  }

  function DrainAll(waiters: seq<nat>, submitted: nat, settled: nat): (d: seq<Drained>)
    ensures |d| == |waiters|
    ensures forall i :: 0 <= i < |d| ==> d[i] == Drained(waiters[i], submitted, settled)
  {
    seq(|waiters|, i requires 0 <= i < |waiters| => Drained(waiters[i], submitted, settled))
  }

  // The head of the loop in `#run`, reached by frame i: start the pending build, or leave.
  function LoopHead<R, S, V, E>(c: Coord<R, S, V, E>, i: nat): Coord<R, S, V, E>
    requires i < |c.frames|
  {
    match c.pending
    case Some(p) => c.(pending := None, frames := c.frames[i := Frame(p, c.state, Reconciling)])
    case None =>
      c.(running := false, frames := c.frames[..i] + c.frames[i + 1..], drainWaiters := [],
         drained := c.drained + DrainAll(c.drainWaiters, c.submitted, |c.settlements|))
  }

  // An outcome for everyone waiting on frame i.
  function Finish<R, S, V, E>(c: Coord<R, S, V, E>, i: nat, outcome: Outcome<S, V, E>): Coord<R, S, V, E>
    requires i < |c.frames|
  {
    LoopHead(c.(settlements := c.settlements + Settle(c.frames[i].build.waiters, outcome)), i)
  }

  function Step<R, S, V, E>(c: Coord<R, S, V, E>, e: Event<R, S, V, E>): Coord<R, S, V, E>
    requires Enabled(c, e)
  {
    match e
    case Submit(request) =>
      var p, all := Enqueue(c.pending, request, c.submitted), c.requests + [request];
      if c.running then c.(pending := Some(p), submitted := c.submitted + 1, requests := all)
      else c.(pending := None, submitted := c.submitted + 1, requests := all, running := true,
              frames := c.frames + [Frame(p, c.state, Reconciling)])
    case Drain =>
      if !c.running && c.pending.None? then
        c.(drains := c.drains + 1, drained := c.drained + DrainAll([c.drains], c.submitted, |c.settlements|))
      else c.(drains := c.drains + 1, drainWaiters := c.drainWaiters + [c.drains])
    case Reconciled(i, update) => c.(frames := c.frames[i := c.frames[i].(phase := Applying(update))])
    case ReconcileFailed(i, error) => Finish(c, i, Rejected(error))
    case Applied(i) =>
      var f := c.frames[i];
      var update := f.phase.update;
      Finish(c.(state := update.state, successes := c.successes +
                [Success(f.build.request, f.build.serial, f.from, update)]),
             i, Resolved(f.build.serial, update))
    case ApplyFailed(i, error) => Finish(c, i, Rejected(error))
  }

  predicate Possible<R, S, V, E>(c: Coord<R, S, V, E>, run: seq<Event<R, S, V, E>>)
    decreases |run|
  {
    run == [] || (Enabled(c, run[0]) && Possible(Step(c, run[0]), run[1..]))
  }

  function After<R, S, V, E>(c: Coord<R, S, V, E>, run: seq<Event<R, S, V, E>>): Coord<R, S, V, E>
    requires Possible(c, run)
    decreases |run|
  {
    if run == [] then c else After(Step(c, run[0]), run[1..])
  }

  // -- What every step keeps --------------------------------------------------------------------

  // At most one `#run` is in progress, exactly while the flag says so; nothing waits without it.
  predicate SingleRun<R, S, V, E>(c: Coord<R, S, V, E>)
  {
    |c.frames| == (if c.running then 1 else 0) &&
    (c.pending.Some? ==> c.running) && (c.drainWaiters != [] ==> c.running)
  }

  function Waiters<S, V, E>(s: seq<Settlement<S, V, E>>): (ids: seq<nat>)
    ensures |ids| == |s|
  {
    seq(|s|, i requires 0 <= i < |s| => s[i].waiter)
  }

  function SettledWaiters<S, V, E>(s: seq<Settlement<S, V, E>>): multiset<nat>
  {
    multiset(Waiters(s))
  }

  function Waiting<R, S, V, E>(c: Coord<R, S, V, E>): multiset<nat>
  {
    (if c.pending.Some? then multiset(c.pending.value.waiters) else multiset{}) +
    (if c.frames != [] then multiset(c.frames[0].build.waiters) else multiset{})
  }

  // Every submission so far is settled, pending or in flight, and is so once.
  ghost predicate Accounted<R, S, V, E>(c: Coord<R, S, V, E>)
  {
    forall w: nat :: (SettledWaiters(c.settlements) + Waiting(c))[w] == if w < c.submitted then 1 else 0
  }

  // A build serves the submissions up to its own, and the latest one is never dropped.
  predicate Serves<R>(p: Pending<R>)
  {
    p.serial in p.waiters && forall w :: w in p.waiters ==> w <= p.serial
  }

  predicate Fresh<R, S, V, E>(c: Coord<R, S, V, E>)
  {
    (c.pending.Some? ==> Serves(c.pending.value) && c.pending.value.serial == c.submitted - 1) &&
    (c.frames != [] ==> Serves(c.frames[0].build) && c.frames[0].build.serial < c.submitted) &&
    (c.frames != [] && c.pending.Some? ==> c.frames[0].build.serial < c.pending.value.serial) &&
    (c.frames != [] && c.pending.None? ==> c.frames[0].build.serial == c.submitted - 1) &&
    forall i :: 0 <= i < |c.settlements| && c.settlements[i].outcome.Resolved? ==>
      c.settlements[i].waiter <= c.settlements[i].outcome.serial
  }

  predicate Submitted<R(==)>(requests: seq<R>, serial: nat, request: R)
  {
    serial < |requests| && requests[serial] == request
  }

  // Every build, pending, in flight or done, is of the request submitted under its number.
  predicate Matched<R(==), S, V, E>(c: Coord<R, S, V, E>)
  {
    |c.requests| == c.submitted &&
    (c.pending.Some? ==> Submitted(c.requests, c.pending.value.serial, c.pending.value.request)) &&
    (c.frames != [] ==> Submitted(c.requests, c.frames[0].build.serial, c.frames[0].build.request)) &&
    forall k :: 0 <= k < |c.successes| ==> Submitted(c.requests, c.successes[k].serial, c.successes[k].request)
  }

  // The state the first k successful builds leave behind.
  function StateBefore<R, S, V>(successes: seq<Success<R, S, V>>, k: nat, initial: S): S
    requires k <= |successes|
  {
    if k == 0 then initial else successes[k - 1].update.state
  }

  // Each success starts from what the one before it left, and builds a later submission.
  ghost predicate Linked<R, S, V>(successes: seq<Success<R, S, V>>, initial: S)
  {
    (forall k :: 0 <= k < |successes| ==> successes[k].from == StateBefore(successes, k, initial)) &&
    forall k, m :: 0 <= k < m < |successes| ==> successes[k].serial < successes[m].serial
  }

  // Successful builds form one chain from the initial state; a build in flight extends it.
  ghost predicate Chain<R, S, V, E>(c: Coord<R, S, V, E>, initial: S)
  {
    Linked(c.successes, initial) && c.state == StateBefore(c.successes, |c.successes|, initial) &&
    (forall k :: 0 <= k < |c.successes| ==> c.successes[k].serial < c.submitted) &&
    (c.frames != [] ==>
      c.frames[0].from == c.state &&
      forall k :: 0 <= k < |c.successes| ==> c.successes[k].serial < c.frames[0].build.serial)
  }

  // A resolved submission carries the update of one of the successful builds.
  ghost predicate Carried<R, S, V, E>(c: Coord<R, S, V, E>)
  {
    forall i :: 0 <= i < |c.settlements| && c.settlements[i].outcome.Resolved? ==>
      exists k :: 0 <= k < |c.successes| &&
        c.successes[k].serial == c.settlements[i].outcome.serial &&
            c.successes[k].update == c.settlements[i].outcome.update
  }

  // A drain resolves only when everything submitted by then has settled.
  ghost predicate DrainsComplete<R, S, V, E>(c: Coord<R, S, V, E>)
  {
    forall i :: 0 <= i < |c.drained| ==>
      c.drained[i].settled <= |c.settlements| &&
      forall w: nat :: w < c.drained[i].submitted ==> SettledWaiters(c.settlements[..c.drained[i].settled])[w] == 1
  }

  ghost predicate Inv<R, S, V, E>(c: Coord<R, S, V, E>, initial: S)
  {
    SingleRun(c) && Accounted(c) && Fresh(c) && Matched(c) && Chain(c, initial) && Carried(c) && DrainsComplete(c)
  }

  lemma SettledMore<S, V, E>(s: seq<Settlement<S, V, E>>, waiters: seq<nat>, outcome: Outcome<S, V, E>)
    ensures SettledWaiters(s + Settle(waiters, outcome)) == SettledWaiters(s) + multiset(waiters)
  {
    assert Waiters(s + Settle(waiters, outcome)) == Waiters(s) + waiters;
  }

  lemma InitialInv<R, S, V, E>(state: S)
    ensures Inv<R, S, V, E>(Initial(state), state)
  {
  }

  // With one frame, settling it either starts the pending build in its place or leaves the loop.
  lemma FinishOnly<R, S, V, E>(c: Coord<R, S, V, E>, outcome: Outcome<S, V, E>)
    requires |c.frames| == 1
    ensures var s := c.settlements + Settle(c.frames[0].build.waiters, outcome);
      Finish(c, 0, outcome) ==
        if c.pending.Some? then
          c.(settlements := s, pending := None, frames := [Frame(c.pending.value, c.state, Reconciling)])
        else
          c.(settlements := s, running := false, frames := [], drainWaiters := [],
             drained := c.drained + DrainAll(c.drainWaiters, c.submitted, |s|))
  {
  }

  lemma SingleRunStep<R, S, V, E>(c: Coord<R, S, V, E>, e: Event<R, S, V, E>)
    requires SingleRun(c) && Enabled(c, e)
    ensures SingleRun(Step(c, e))
  {
  }

  predicate Completing<R, S, V, E>(e: Event<R, S, V, E>)
  {
    e.ReconcileFailed? || e.Applied? || e.ApplyFailed?
  }

  function Completes<R, S, V, E>(c: Coord<R, S, V, E>, e: Event<R, S, V, E>): Coord<R, S, V, E>
    requires Enabled(c, e)
  {
    match e
    case Applied(i) =>
      var f := c.frames[i];
      c.(state := f.phase.update.state,
         successes := c.successes + [Success(f.build.request, f.build.serial, f.from, f.phase.update)])
    case _ => c
  }

  function OutcomeOf<R, S, V, E>(c: Coord<R, S, V, E>, e: Event<R, S, V, E>): Outcome<S, V, E>
    requires Enabled(c, e) && Completing(e)
  {
    match e
    case Applied(i) => Resolved(c.frames[i].build.serial, c.frames[i].phase.update)
    case ReconcileFailed(_, error) => Rejected(error)
    case ApplyFailed(_, error) => Rejected(error)
  }

  // A completing step settles the frame's waiters with its outcome.
  lemma CompletionStep<R, S, V, E>(c: Coord<R, S, V, E>, e: Event<R, S, V, E>)
    requires SingleRun(c) && Enabled(c, e) && Completing(e)
    ensures |c.frames| == 1 && Step(c, e) == Finish(Completes(c, e), 0, OutcomeOf(c, e))
  {
  }

  lemma AccountedStep<R, S, V, E>(c: Coord<R, S, V, E>, e: Event<R, S, V, E>)
    requires SingleRun(c) && Accounted(c) && Enabled(c, e)
    ensures Accounted(Step(c, e))
  {
    var d := Step(c, e);
    if e.Submit? {
      AccountedSubmit(c, e.request);
    } else if Completing(e) {
      AccountedCompletion(c, e);
    } else {
      assert Waiting(d) == Waiting(c);
    }
  }

  lemma OneMore(m: multiset<nat>, n: nat)
    requires forall w: nat :: m[w] == if w < n then 1 else 0
    ensures forall w: nat :: (m + multiset{n})[w] == if w < n + 1 then 1 else 0
  {
  }

  lemma AccountedSubmit<R, S, V, E>(c: Coord<R, S, V, E>, request: R)
    requires SingleRun(c) && Accounted(c)
    ensures Accounted(Step(c, Submit(request)))
  {
    hide Waiting, SettledWaiters, Step;
    var d := Step(c, Submit(request));
    SubmitWaits(c, request);
    OneMore(SettledWaiters(c.settlements) + Waiting(c), c.submitted);
    assert SettledWaiters(d.settlements) + Waiting(d) == SettledWaiters(c.settlements) + Waiting(c) +
      multiset{c.submitted};
  }

  lemma SubmitWaits<R, S, V, E>(c: Coord<R, S, V, E>, request: R)
    requires SingleRun(c)
    ensures var d := Step(c, Submit(request));
      Waiting(d) == Waiting(c) + multiset{c.submitted} && d.settlements == c.settlements && d.submitted == c.submitted +
          1
  {
  }

  lemma AccountedCompletion<R, S, V, E>(c: Coord<R, S, V, E>, e: Event<R, S, V, E>)
    requires SingleRun(c) && Accounted(c) && Enabled(c, e) && Completing(e)
    ensures Accounted(Step(c, e))
  {
    var d := Step(c, e);
    CompletionStep(c, e);
    FinishOnly(Completes(c, e), OutcomeOf(c, e));
    SettledMore(c.settlements, c.frames[0].build.waiters, OutcomeOf(c, e));
    hide Step, Finish, SettledWaiters;
    assert SettledWaiters(d.settlements) + Waiting(d) == SettledWaiters(c.settlements) + Waiting(c);
  }

  lemma FreshStep<R, S, V, E>(c: Coord<R, S, V, E>, e: Event<R, S, V, E>)
    requires SingleRun(c) && Fresh(c) && Enabled(c, e)
    ensures Fresh(Step(c, e))
  {
    if Completing(e) {
      CompletionStep(c, e);
      FinishOnly(Completes(c, e), OutcomeOf(c, e));
      hide Step, Finish;
      var ws := c.frames[0].build.waiters;
      assert forall i :: 0 <= i < |ws| ==> ws[i] in ws;
    }
  }

  lemma MatchedStep<R, S, V, E>(c: Coord<R, S, V, E>, e: Event<R, S, V, E>)
    requires SingleRun(c) && Matched(c) && Enabled(c, e)
    ensures Matched(Step(c, e))
  {
    if Completing(e) {
      CompletionStep(c, e);
      FinishOnly(Completes(c, e), OutcomeOf(c, e));
      hide Step, Finish;
    }
  }

  lemma LinkedSnoc<R, S, V>(successes: seq<Success<R, S, V>>, s: Success<R, S, V>, initial: S)
    requires Linked(successes, initial) && s.from == StateBefore(successes, |successes|, initial)
    requires forall k :: 0 <= k < |successes| ==> successes[k].serial < s.serial
    ensures Linked(successes + [s], initial)
  {
    var all := successes + [s];
    forall k | 0 <= k < |all| ensures all[k].from == StateBefore(all, k, initial) {
      assert StateBefore(all, k, initial) == StateBefore(successes, k, initial);
    }
    hide StateBefore;
    forall k, m | 0 <= k < m < |all| ensures all[k].serial < all[m].serial {
      assert all[k] == successes[k];
    }
  }

  lemma ChainStep<R, S, V, E>(c: Coord<R, S, V, E>, e: Event<R, S, V, E>, initial: S)
    requires SingleRun(c) && Fresh(c) && Chain(c, initial) && Enabled(c, e)
    ensures Chain(Step(c, e), initial)
  {
    hide Linked, Waiting;
    if Completing(e) {
      ChainCompletion(c, e, initial);
    }
  }

  lemma ChainCompletion<R, S, V, E>(c: Coord<R, S, V, E>, e: Event<R, S, V, E>, initial: S)
    requires SingleRun(c) && Fresh(c) && Chain(c, initial) && Enabled(c, e) && Completing(e)
    ensures Chain(Step(c, e), initial)
  {
    CompletionStep(c, e);
    FinishOnly(Completes(c, e), OutcomeOf(c, e));
    hide Step, Finish, Settle, DrainAll;
    if e.Applied? {
      var f := c.frames[0];
      LinkedSnoc(c.successes, Success(f.build.request, f.build.serial, f.from, f.phase.update), initial);
    }
    hide Linked;
  }

  lemma CarriedStep<R, S, V, E>(c: Coord<R, S, V, E>, e: Event<R, S, V, E>)
    requires SingleRun(c) && Carried(c) && Enabled(c, e)
    ensures Carried(Step(c, e))
  {
    if Completing(e) {
        CompletionStep(c, e);
        FinishOnly(Completes(c, e), OutcomeOf(c, e));
        hide Step, Finish;
        var d := Completes(c, e);
        forall i | 0 <= i < |c.settlements| && c.settlements[i].outcome.Resolved?
          ensures exists k ::
            0 <= k < |d.successes| && d.successes[k].serial == c.settlements[i].outcome.serial &&
            d.successes[k].update == c.settlements[i].outcome.update
        {
          var k :| 0 <= k < |c.successes| && c.successes[k].serial == c.settlements[i].outcome.serial &&
            c.successes[k].update == c.settlements[i].outcome.update;
          assert d.successes[k] == c.successes[k];
        }
        if e.Applied? {
          assert d.successes[|c.successes|].serial == OutcomeOf(c, e).serial;
        }
    }
  }

  lemma DrainsStep<R, S, V, E>(c: Coord<R, S, V, E>, e: Event<R, S, V, E>)
    requires SingleRun(c) && Accounted(c) && DrainsComplete(c) && Enabled(c, e)
    ensures DrainsComplete(Step(c, e))
  {
    var d := Step(c, e);
    AccountedStep(c, e);
    SingleRunStep(c, e);
    if Completing(e) {
      CompletionStep(c, e);
      FinishOnly(Completes(c, e), OutcomeOf(c, e));
    }
    assert d.settlements[..|c.settlements|] == c.settlements;
    forall i | 0 <= i < |d.drained|
      ensures d.drained[i].settled <= |d.settlements|
      ensures forall w: nat :: w < d.drained[i].submitted ==> SettledWaiters(d.settlements[..d.drained[i].settled])[w] == 1
    {
      hide SettledWaiters, Step, Finish;
      if i < |c.drained| {
        assert d.drained[i] == c.drained[i];
        var n := c.drained[i].settled;
        SliceOfSlice(d.settlements, 0, |c.settlements|, 0, n);
        assert d.settlements[..n] == c.settlements[..n];
      } else {
        assert d.drained[i].settled == |d.settlements| && d.drained[i].submitted == d.submitted;
        assert d.settlements[..|d.settlements|] == d.settlements;
        assert Waiting(d) == multiset{};
        assert forall w: nat :: SettledWaiters(d.settlements)[w] == (SettledWaiters(d.settlements) + Waiting(d))[w];
      }
    }
  }

  lemma StepKeeps<R, S, V, E>(c: Coord<R, S, V, E>, e: Event<R, S, V, E>, initial: S)
    requires Inv(c, initial) && Enabled(c, e)
    ensures Inv(Step(c, e), initial)
  {
    hide Step, SingleRun, Accounted, Fresh, Matched, Chain, Carried, DrainsComplete;
    SingleRunStep(c, e);
    AccountedStep(c, e);
    FreshStep(c, e);
    MatchedStep(c, e);
    ChainStep(c, e, initial);
    CarriedStep(c, e);
    DrainsStep(c, e);
  }

  // Whatever the interleaving.
  lemma {:induction false} RunKeeps<R, S, V, E>(c: Coord<R, S, V, E>, run: seq<Event<R, S, V, E>>, initial: S)
    requires Inv(c, initial) && Possible(c, run)
    ensures Inv(After(c, run), initial)
    decreases |run|
  {
    hide Inv, Step;
    if run != [] {
      StepKeeps(c, run[0], initial);
      RunKeeps(Step(c, run[0]), run[1..], initial);
    }
  }

  // -- What clients may rely on, over every run ---------------------------------------------------

  ghost predicate Promises<R, S, V, E>(c: Coord<R, S, V, E>, initial: S)
  {
    // At most one build runs, and a pending request implies that one does.
    |c.frames| <= 1 && (c.pending.Some? ==> |c.frames| == 1) &&
    // No submission settles twice; once nothing runs, each has settled.
    (forall i, j :: 0 <= i < j < |c.settlements| ==> c.settlements[i].waiter != c.settlements[j].waiter) &&
    (c.frames == [] ==> forall w: nat :: w < c.submitted ==> w in Waiters(c.settlements)) &&
    // A resolved submission carries a successful build of a request no older than its own.
    (forall i :: 0 <= i < |c.settlements| && c.settlements[i].outcome.Resolved? ==>
      exists k :: 0 <= k < |c.successes| &&
        c.settlements[i].waiter <= c.successes[k].serial == c.settlements[i].outcome.serial &&
        c.successes[k].update == c.settlements[i].outcome.update) &&
    // Every build is of the request submitted under its number.
    Matched(c) &&
    // Successful builds form one chain that ends in the current state.
    Linked(c.successes, initial) && c.state == StateBefore(c.successes, |c.successes|, initial)
  }

  lemma UniqueWaiters<S, V, E>(s: seq<Settlement<S, V, E>>, i: nat, j: nat)
    requires i < j < |s| && s[i].waiter == s[j].waiter
    ensures SettledWaiters(s)[s[i].waiter] >= 2
  {
    var ids, w := Waiters(s), s[i].waiter;
    assert ids == ids[..j] + ids[j..];
    assert ids[..j][i] == w && ids[j..][0] == w;
    assert multiset(ids[..j])[w] >= 1 && multiset(ids[j..])[w] >= 1;
  }

  lemma OverAccounted<R, S, V, E>(c: Coord<R, S, V, E>, w: nat)
    requires Accounted(c)
    ensures SettledWaiters(c.settlements)[w] <= 1
  {
    var all := SettledWaiters(c.settlements) + Waiting(c);
    assert all[w] <= 1;
  }

  lemma InvPromises<R, S, V, E>(c: Coord<R, S, V, E>, initial: S)
    requires Inv(c, initial)
    ensures Promises(c, initial)
  {
    hide Linked, DrainsComplete, Fresh, StateBefore, Matched;
    var settled := SettledWaiters(c.settlements);
    forall i, j | 0 <= i < j < |c.settlements| ensures c.settlements[i].waiter != c.settlements[j].waiter {
      if c.settlements[i].waiter == c.settlements[j].waiter {
        UniqueWaiters(c.settlements, i, j);
        OverAccounted(c, c.settlements[i].waiter);
      }
    }
    if c.frames == [] {
      assert Waiting(c) == multiset{};
      forall w: nat | w < c.submitted ensures w in Waiters(c.settlements) {
        assert (settled + Waiting(c))[w] == 1;
      }
    }
    assert forall i :: 0 <= i < |c.settlements| && c.settlements[i].outcome.Resolved? ==>
      c.settlements[i].waiter <= c.settlements[i].outcome.serial by { assert Fresh(c); FreshSettlements(c); }
  }

  lemma FreshSettlements<R, S, V, E>(c: Coord<R, S, V, E>)
    requires Fresh(c)
    ensures forall i :: 0 <= i < |c.settlements| && c.settlements[i].outcome.Resolved? ==>
      c.settlements[i].waiter <= c.settlements[i].outcome.serial
  {
  }

  // The requests submitted in a run, in order.
  function Submissions<R, S, V, E>(run: seq<Event<R, S, V, E>>): seq<R>
  {
    if run == [] then []
    else if run[0].Submit? then [run[0].request] + Submissions(run[1..])
    else Submissions(run[1..])
  }

  lemma {:induction false} RequestsAre<R, S, V, E>(c: Coord<R, S, V, E>, run: seq<Event<R, S, V, E>>)
    requires Possible(c, run)
    ensures After(c, run).requests == c.requests + Submissions(run)
    decreases |run|
  {
    if run != [] {
      var d := Step(c, run[0]);
      assert d.requests == if run[0].Submit? then c.requests + [run[0].request] else c.requests;
      RequestsAre(d, run[1..]);
      if run[0].Submit? { Regroup(c.requests, run[0].request, Submissions(run[1..])); }
    }
  }

  lemma Regroup<R>(a: seq<R>, r: R, b: seq<R>)
    ensures a + ([r] + b) == a + [r] + b
  {
  }

  // The coordinator's guarantees, in every interleaving of submissions, drains and completions.
  lemma EveryRun<R, S, V, E>(run: seq<Event<R, S, V, E>>, initial: S)
    requires Possible(Initial(initial), run)
    ensures Promises(After(Initial(initial), run), initial)
    ensures DrainsComplete(After(Initial(initial), run))
    ensures After(Initial(initial), run).requests == Submissions(run)
  {
    hide Promises;
    RequestsAre(Initial<R, S, V, E>(initial), run);
    InitialInv<R, S, V, E>(initial);
    RunKeeps(Initial(initial), run, initial);
    InvPromises(After(Initial(initial), run), initial);
  }

  // -- Progress -----------------------------------------------------------------------------------

  // Completions left before the coordinator is idle, if nothing more is submitted.
  function Work<R, S, V, E>(c: Coord<R, S, V, E>): nat
  {
    (if c.pending.Some? then 2 else 0) +
    (if |c.frames| == 0 then 0 else if c.frames[0].phase.Reconciling? then 2 else 1)
  }

  lemma CompletionProgress<R, S, V, E>(c: Coord<R, S, V, E>, e: Event<R, S, V, E>)
    requires SingleRun(c) && Enabled(c, e) && !e.Submit? && !e.Drain?
    ensures Work(Step(c, e)) < Work(c)
  {
    if Completing(e) {
      CompletionStep(c, e);
      FinishOnly(Completes(c, e), OutcomeOf(c, e));
    }
  }

  // However builds end, at most four completions settle everything submitted so far.
  lemma {:induction false} Settles<R, S, V, E>(c: Coord<R, S, V, E>, run: seq<Event<R, S, V, E>>, initial: S)
    requires Inv(c, initial) && Possible(c, run)
    requires forall e :: e in run ==> !e.Submit? && !e.Drain?
    ensures |run| + Work(After(c, run)) <= Work(c) <= 4
    ensures Work(After(c, run)) == 0 ==>
      After(c, run).submitted == c.submitted &&
      forall w: nat :: w < c.submitted ==> w in Waiters(After(c, run).settlements)
    decreases |run|
  {
    hide Waiters, Accounted, Fresh, Matched, Chain, Carried, DrainsComplete, Promises;
    InvPromises(c, initial);
    if run == [] {
      IdleSettled(c, initial);
    } else {
      var d := Step(c, run[0]);
      CompletionProgress(c, run[0]);
      StepKeeps(c, run[0], initial);
      SameSubmissions(c, run[0]);
      Settles(d, run[1..], initial);
    }
  }

  lemma IdleSettled<R, S, V, E>(c: Coord<R, S, V, E>, initial: S)
    requires Promises(c, initial)
    ensures Work(c) == 0 ==> forall w: nat :: w < c.submitted ==> w in Waiters(c.settlements)
  {
  }

  lemma SameSubmissions<R, S, V, E>(c: Coord<R, S, V, E>, e: Event<R, S, V, E>)
    requires Enabled(c, e) && !e.Submit?
    ensures Step(c, e).submitted == c.submitted
  {
  }

  // While a build runs, some completion can happen.
  lemma NeverStuck<R, S, V, E>(c: Coord<R, S, V, E>, update: Update<S, V>)
    requires SingleRun(c) && Work(c) > 0
    ensures Enabled(c, Reconciled(0, update)) || Enabled(c, Event<R, S, V, E>.Applied(0))
  {
  }

  // -- The class ----------------------------------------------------------------------------------

  class ProjectBuildCoordinator<R, S, V, E> {
    var state: S
    var pending: Option<Pending<R>>
    var running: bool
    var drainWaiters: seq<nat>
    // Suspended invocations of Run, and the numbers of the next promises.
    var frames: seq<Frame<R, S, V>>
    var submitted: nat
    var drains: nat
    ghost var settlements: seq<Settlement<S, V, E>>
    ghost var successes: seq<Success<R, S, V>>
    ghost var drained: seq<Drained>
    ghost var requests: seq<R>

    ghost function Abs(): Coord<R, S, V, E>
      reads this
    {
      Coord(state, pending, running, drainWaiters, frames, submitted, settlements, successes, drains, drained,
            requests)
    }

    constructor (initial: S)
      ensures Abs() == Initial(initial)
    {
      state, pending, running, drainWaiters, frames := initial, None, false, [], [];
      submitted, drains := 0, 0;
      settlements, successes, drained, requests := [], [], [], [];
    }

    method Submit(request: R) returns (promise: nat)
      modifies this
      ensures promise == old(submitted)
      ensures Abs() == Step(old(Abs()), Event.Submit(request))
    {
      promise := submitted;
      submitted, requests := submitted + 1, requests + [request];
      pending := Some(Enqueue(pending, request, promise));
      if !running {
        // `#run` up to its first await
        running := true;
        var next := pending.value;
        pending := None;
        frames := frames + [Frame(next, state, Reconciling)];
      }
    }

    method Drain() returns (promise: nat)
      modifies this
      ensures promise == old(drains)
      ensures Abs() == Step(old(Abs()), Event.Drain)
    {
      promise := drains;
      drains := drains + 1;
      if !running && pending.None? {
        drained := drained + DrainAll([promise], submitted, |settlements|);
      } else {
        drainWaiters := drainWaiters + [promise];
      }
    }

    // The loop test of `#run` and what follows up to the next await.
    method Loop(i: nat)
      requires i < |frames|
      modifies this
      ensures Abs() == LoopHead(old(Abs()), i)
    {
      if pending.Some? {
        var next := pending.value;
        pending := None;
        frames := frames[i := Frame(next, state, Reconciling)];
      } else {
        running := false;
        frames := frames[..i] + frames[i + 1..];
        drained := drained + DrainAll(drainWaiters, submitted, |settlements|);
        drainWaiters := [];
      }
    }

    method ReconcileResolved(i: nat, update: Update<S, V>)
      requires Enabled(Abs(), Reconciled(i, update))
      modifies this
      ensures Abs() == Step(old(Abs()), Reconciled(i, update))
    {
      frames := frames[i := frames[i].(phase := Applying(update))];
    }

    method ApplyResolved(i: nat)
      requires Enabled(Abs(), Applied(i))
      modifies this
      ensures Abs() == Step(old(Abs()), Applied(i))
    {
      var frame := frames[i];
      state := frame.phase.update.state;
      successes := successes + [Success(frame.build.request, frame.build.serial, frame.from, frame.phase.update)];
      settlements := settlements + Settle(frame.build.waiters, Resolved(frame.build.serial, frame.phase.update));
      Loop(i);
    }

    // Either await of the try block throws.
    method Rejects(i: nat, error: E)
      requires Enabled(Abs(), ReconcileFailed(i, error)) || Enabled(Abs(), ApplyFailed(i, error))
      modifies this
      ensures old(Enabled(Abs(), ReconcileFailed(i, error))) ==> Abs() == Step(old(Abs()), ReconcileFailed(i, error))
      ensures old(Enabled(Abs(), ApplyFailed(i, error))) ==> Abs() == Step(old(Abs()), ApplyFailed(i, error))
    {
      settlements := settlements + Settle(frames[i].build.waiters, Rejected(error));
      Loop(i);
    }
  }
}
