/** The project watcher: file events mark the project dirty and arm a debounce timer; a flush acquires
    and submits builds until nothing is dirty. Each stretch between two awaits is one atomic step.
    `flush` stores `run().finally(..)`, so a finished run stays in `running` until its `finally`
    callback has had its turn. */
module Watcher {
  import opened Bytes

  // Where a suspended flush is: awaiting `acquire`, awaiting the coordinator, or done but for its `finally`.
  datatype Phase = Acquiring | Submitting | Ending

  // A suspended flush; `covers` is how many invalidations its current attempt began after.
  datatype Run = Run(flush: nat, phase: Phase, covers: nat)

  // How far `close` has come. The first phase knows the flush that had ended when `close` was called, if any:
  // its `finally` job was queued then, before anything that awaiting the file watcher can queue. The second
  // phase knows the flush it awaits.
  datatype Close = Open | ClosingWatcher(ended: Option<nat>) | ClosingFlush(awaited: nat) | ClosingCoordinator | Closed

  datatype Watch = Watch(
    started: bool,
    closing: bool,
    closed: bool,
    dirty: bool,
    timer: bool,
    running: Option<nat>,
    runs: seq<Run>,
    close: Close,
    flushes: nat,
    // counted: accepted invalidations, and how many of them the begun and the finished attempts cover
    accepted: nat,
    begun: nat,
    finished: nat)

  const FRESH := Watch(false, false, false, false, false, None, [], Open, 0, 0, 0, 0)

  // `reenters` says whether the callback of that step calls `invalidate`.
  datatype Event =
    | Ready
    | Invalidate
    | TimerFires
    | Acquired(run: nat)
    | AcquireFailed(run: nat, reenters: bool)
    | Submitted(run: nat, reenters: bool)
    | Finally(run: nat)
    | DrainTurn
    | CloseCalled
    | WatcherClosed
    | CloseFlushed
    | CoordinatorDrained

  predicate At(w: Watch, i: nat, phase: Phase)
  {
    i < |w.runs| && w.runs[i].phase == phase
  }

  predicate Enabled(w: Watch, e: Event)
  {
    match e
    case Ready => !w.started && !w.closing
    case Invalidate => true
    case TimerFires => w.timer
    case Acquired(i) => At(w, i, Acquiring)
    case AcquireFailed(i, _) => At(w, i, Acquiring)
    case Submitted(i, _) => At(w, i, Submitting)
    case Finally(i) => At(w, i, Ending)
    case DrainTurn => true
    case CloseCalled => true
    case WatcherClosed => w.close.ClosingWatcher? && (w.close.ended.Some? ==> w.running != w.close.ended)
    case CloseFlushed => w.close.ClosingFlush? && w.running != Some(w.close.awaited)
    case CoordinatorDrained => w.close.ClosingCoordinator?
  }

  // -- The steps ----------------------------------------------------------------------------------

  function Invalidated(w: Watch): Watch
  {
    if w.closing || w.closed then w
    else w.(dirty := true, accepted := w.accepted + 1, timer := w.timer || w.started)
  }

  function Callback(w: Watch, reenters: bool): Watch
  {
    if reenters then Invalidated(w) else w
  }

  // The loop test of `run` in frame i: another attempt, or the end.
  function LoopHead(w: Watch, i: nat): Watch
    requires i < |w.runs|
  {
    if w.dirty then
      w.(dirty := false, begun := w.accepted, runs := w.runs[i := w.runs[i].(phase := Acquiring, covers := w.accepted)])
    else w.(runs := w.runs[i := w.runs[i].(phase := Ending)])
  }

  // The attempt of frame i is over, whichever way.
  function AttemptOver(w: Watch, i: nat, reenters: bool): Watch
    requires i < |w.runs|
  {
    LoopHead(Callback(w.(finished := w.runs[i].covers), reenters), i)
  }

  function Flushed(w: Watch): Watch
  {
    if w.running.Some? then w
    else LoopHead(w.(running := Some(w.flushes), flushes := w.flushes + 1, runs := w.runs +
                     [Run(w.flushes, Ending, 0)]),
                  |w.runs|)
  }

  predicate Busy(w: Watch)
  {
    w.timer || w.running.Some? || w.dirty
  }

  // The flush that has ended but for its `finally`.
  function Ended(w: Watch): Option<nat>
  {
    if w.runs != [] && w.runs[0].phase.Ending? then Some(w.runs[0].flush) else None
  }

  // The file watcher is closed: flush once more, and wait for that or for the flush that runs.
  function CloseFlush(w: Watch): Watch
  {
    var flushed := Flushed(w.(timer := false));
    flushed.(close := ClosingFlush(if flushed.running.Some? then flushed.running.value else 0))
  }

  function Step(w: Watch, e: Event): Watch
    requires Enabled(w, e)
  {
    match e
    case Ready => Flushed(w.(started := true, dirty := true, accepted := w.accepted + 1))
    case Invalidate => Invalidated(w)
    case TimerFires => Flushed(w.(timer := false))
    case Acquired(i) => w.(runs := w.runs[i := w.runs[i].(phase := Submitting)])
    case AcquireFailed(i, reenters) => AttemptOver(w, i, reenters)
    case Submitted(i, reenters) => AttemptOver(w, i, reenters)
    case Finally(i) =>
      w.(running := None, runs := w.runs[..i] + w.runs[i + 1..],
         timer := w.timer || (w.dirty && !w.closing && !w.closed))
    case DrainTurn => if Busy(w) then Flushed(w.(timer := false)) else w
    case CloseCalled => if w.close.Open? then w.(closing := true, close := ClosingWatcher(Ended(w))) else w
    case WatcherClosed => CloseFlush(w)
    case CloseFlushed => w.(close := ClosingCoordinator)
    case CoordinatorDrained => w.(closed := true, close := Closed)
  }

  predicate Possible(w: Watch, run: seq<Event>)
    decreases |run|
  {
    run == [] || (Enabled(w, run[0]) && Possible(Step(w, run[0]), run[1..]))
  }

  function After(w: Watch, run: seq<Event>): Watch
    requires Possible(w, run)
    decreases |run|
  {
    if run == [] then w else After(Step(w, run[0]), run[1..])
  }

  // -- What every step keeps ----------------------------------------------------------------------

  // At most one flush runs, the one `running` holds.
  predicate SingleRun(w: Watch)
  {
    |w.runs| == (if w.running.Some? then 1 else 0) && (w.running.Some? ==> w.running == Some(w.runs[0].flush))
  }

  // Once started and until closing, whatever is dirty has a timer or a flush to pick it up.
  predicate NothingLost(w: Watch)
  {
    w.started && !w.closing && w.dirty ==> w.timer || w.running.Some?
  }

  // Attempts cover every accepted invalidation, but for what is dirty and what is in progress.
  predicate Covered(w: Watch)
  {
    w.finished <= w.begun <= w.accepted &&
    (w.dirty <==> w.begun < w.accepted) &&
    (if |w.runs| == 1 && !w.runs[0].phase.Ending? then w.runs[0].covers == w.begun else w.finished == w.begun)
  }

  // While the watcher closes, what is dirty is on its way to the loop test of a flush that has not ended, or to
  // the flush that closing starts itself.
  predicate Handed(w: Watch)
  {
    match w.close
    case Open => true
    case ClosingWatcher(ended) => w.dirty && Ended(w).Some? ==> ended == Ended(w)
    case ClosingFlush(awaited) =>
      !w.timer && (w.running.Some? ==> w.running == Some(awaited)) && (w.dirty ==> w.running.Some? && Ended(w).None?)
    case _ => !w.timer && !w.dirty && w.running.None?
  }

  predicate Inv(w: Watch)
  {
    SingleRun(w) && NothingLost(w) && Covered(w) && Handed(w) &&
    (w.closing <==> !w.close.Open?) && (w.closed <==> w.close.Closed?)
  }

  lemma StepKeeps(w: Watch, e: Event)
    requires Inv(w) && Enabled(w, e)
    ensures Inv(Step(w, e))
    ensures w.accepted <= Step(w, e).accepted && w.finished <= Step(w, e).finished
  {
    match e {
      case AcquireFailed(i, reenters) => AttemptOverKeeps(w, i, reenters);
      case Submitted(i, reenters) => AttemptOverKeeps(w, i, reenters);
      case TimerFires => FlushKeeps(w);
      case DrainTurn => if Busy(w) { FlushKeeps(w); }
      case Finally(i) => FinallyKeeps(w, i);
      case WatcherClosed => CloseFlushKeeps(w);
      case _ =>
    }
  }

  lemma FlushKeeps(w: Watch)
    requires Inv(w) && Busy(w)
    ensures Inv(Flushed(w.(timer := false)))
    ensures w.accepted == Flushed(w.(timer := false)).accepted && w.finished == Flushed(w.(timer := false)).finished
  {
  }

  lemma FinallyKeeps(w: Watch, i: nat)
    requires Inv(w) && Enabled(w, Finally(i))
    ensures Inv(Step(w, Finally(i)))
    ensures w.accepted == Step(w, Finally(i)).accepted && w.finished == Step(w, Finally(i)).finished
  {
    assert i == 0 && w.runs[..i] + w.runs[i + 1..] == [];
  }

  lemma CloseFlushKeeps(w: Watch)
    requires Inv(w) && Enabled(w, WatcherClosed)
    ensures Inv(CloseFlush(w))
    ensures w.accepted == CloseFlush(w).accepted && w.finished == CloseFlush(w).finished
  {
  }

  lemma AttemptOverKeeps(w: Watch, i: nat, reenters: bool)
    requires Inv(w) && i < |w.runs| && !w.runs[i].phase.Ending?
    ensures Inv(AttemptOver(w, i, reenters))
    ensures w.accepted <= AttemptOver(w, i, reenters).accepted && w.finished <= AttemptOver(w, i, reenters).finished
  {
  }

  lemma {:induction false} RunKeeps(w: Watch, run: seq<Event>)
    requires Inv(w) && Possible(w, run)
    ensures Inv(After(w, run))
    ensures w.accepted <= After(w, run).accepted && w.finished <= After(w, run).finished
    decreases |run|
  {
    hide Step, Inv;
    if run != [] {
      StepKeeps(w, run[0]);
      RunKeeps(Step(w, run[0]), run[1..]);
    }
  }

  // In every run: one flush at most, and no invalidation is forgotten while the watcher is open.
  lemma EveryRun(run: seq<Event>)
    requires Possible(FRESH, run)
    ensures SingleRun(After(FRESH, run)) && NothingLost(After(FRESH, run)) && Covered(After(FRESH, run))
  {
    RunKeeps(FRESH, run);
  }

  // When the loop of a drain that was called in state `call` exits, every invalidation accepted before
  // the call has been followed by an attempt that began after it and has finished.
  lemma DrainExits(before: seq<Event>, during: seq<Event>)
    requires Possible(FRESH, before) && Possible(After(FRESH, before), during)
    ensures var call, exit := After(FRESH, before), After(After(FRESH, before), during);
      !Busy(exit) ==> exit.finished == exit.accepted && call.accepted <= exit.finished
  {
    RunKeeps(FRESH, before);
    RunKeeps(After(FRESH, before), during);
  }

  // -- Progress -----------------------------------------------------------------------------------

  // Steps the watcher takes by itself, with callbacks that do not invalidate.
  predicate Internal(e: Event)
  {
    e.TimerFires? || e.Acquired? || e.Finally? || (e.AcquireFailed? && !e.reenters) || (e.Submitted? && !e.reenters)
  }

  function Work(w: Watch): nat
  {
    (if w.dirty then 10 else 0) + (if w.timer then 3 else 0) +
    if |w.runs| == 0 then 0
    else match w.runs[0].phase
      case Acquiring => 6
      case Submitting => 5
      case Ending => if w.dirty then 4 else 2
  }

  lemma InternalProgress(w: Watch, e: Event)
    requires Inv(w) && Enabled(w, e) && Internal(e)
    ensures Work(Step(w, e)) < Work(w)
    ensures Step(w, e).started == w.started && Step(w, e).closing == w.closing && Step(w, e).accepted == w.accepted
  {
  }

  // Left alone, an open watcher comes to rest, and then has built everything it was told about.
  lemma {:induction false} ComesToRest(w: Watch, run: seq<Event>)
    requires Inv(w) && w.started && !w.closing && Possible(w, run)
    requires forall e :: e in run ==> Internal(e)
    ensures |run| + Work(After(w, run)) <= Work(w) <= 19
    ensures (forall e :: Internal(e) ==> !Enabled(After(w, run), e)) ==>
      After(w, run).finished == After(w, run).accepted == w.accepted
    decreases |run|
  {
    if run == [] {
      if forall e :: Internal(e) ==> !Enabled(w, e) {
        assert !Enabled(w, TimerFires) && !Enabled(w, Acquired(0)) && !Enabled(w, Submitted(0, false)) &&
          !Enabled(w, Finally(0));
      }
    } else {
      InternalProgress(w, run[0]);
      StepKeeps(w, run[0]);
      hide Step;
      ComesToRest(Step(w, run[0]), run[1..]);
    }
  }

  // A close that gets past its flush has built everything that was ever accepted, in every run.
  lemma CloseBuildsEverything(run: seq<Event>)
    requires Possible(FRESH, run)
    ensures var w := After(FRESH, run);
      w.close.ClosingCoordinator? || w.close.Closed? ==> w.finished == w.accepted && !w.dirty && w.runs == []
  {
    RunKeeps(FRESH, run);
  }

  // And it does get past its flush: once the file watcher is closed, whatever else happens, the flush comes to
  // rest, and then closing can go on.
  lemma {:induction false} CloseGoesOn(w: Watch, run: seq<Event>)
    requires Inv(w) && w.close.ClosingFlush? && Possible(w, run)
    requires forall e :: e in run ==> Internal(e)
    ensures After(w, run).close == w.close && |run| + Work(After(w, run)) <= Work(w) <= 19
    ensures (forall e :: Internal(e) ==> !Enabled(After(w, run), e)) ==> Enabled(After(w, run), CloseFlushed)
    decreases |run|
  {
    if run == [] {
      if forall e :: Internal(e) ==> !Enabled(w, e) {
        assert !Enabled(w, Acquired(0)) && !Enabled(w, Submitted(0, false)) && !Enabled(w, Finally(0));
      }
    } else {
      InternalProgress(w, run[0]);
      StepKeeps(w, run[0]);
      assert Step(w, run[0]).close == w.close;
      hide Step;
      CloseGoesOn(Step(w, run[0]), run[1..]);
    }
  }

  // -- The class ----------------------------------------------------------------------------------

  class ProjectBuildWatcher {
    var started: bool
    var closing: bool
    var closed: bool
    var dirty: bool
    var timer: bool
    var running: Option<nat>
    // Suspended flushes, the next flush's number, and how far closing has come.
    var runs: seq<Run>
    var flushes: nat
    var close: Close
    // Counters the statements above speak of.
    var accepted: nat
    var begun: nat
    var finished: nat

    ghost function Abs(): Watch
      reads this
    {
      Watch(started, closing, closed, dirty, timer, running, runs, close, flushes, accepted, begun, finished)
    }

    constructor ()
      ensures Abs() == FRESH
    {
      started, closing, closed, dirty, timer := false, false, false, false, false;
      running, runs, flushes, close := None, [], 0, Open;
      accepted, begun, finished := 0, 0, 0;
    }

    method Invalidate()
      modifies this
      ensures Abs() == Step(old(Abs()), Event.Invalidate)
    {
      if closing || closed { return; }
      dirty := true;
      accepted := accepted + 1;
      if started { timer := true; }
    }

    // The loop of `#run` in frame i, up to its next await or its end.
    method Loop(i: nat)
      requires i < |runs|
      modifies this
      ensures Abs() == LoopHead(old(Abs()), i)
    {
      if dirty {
        dirty := false;
        begun := accepted;
        runs := runs[i := runs[i].(phase := Acquiring, covers := begun)];
      } else {
        runs := runs[i := runs[i].(phase := Ending)];
      }
    }

    method Flush()
      modifies this
      ensures Abs() == Flushed(old(Abs()))
    {
      if running.Some? { return; }
      running := Some(flushes);
      runs := runs + [Run(flushes, Ending, 0)];
      flushes := flushes + 1;
      Loop(|runs| - 1);
    }

    method WatcherReady()
      requires Enabled(Abs(), Ready)
      modifies this
      ensures Abs() == Step(old(Abs()), Ready)
    {
      started := true;
      dirty := true;
      accepted := accepted + 1;
      Flush();
    }

    method TimerFired()
      requires Enabled(Abs(), TimerFires)
      modifies this
      ensures Abs() == Step(old(Abs()), TimerFires)
    {
      timer := false;
      Flush();
    }

    method AcquireResolved(i: nat)
      requires Enabled(Abs(), Acquired(i))
      modifies this
      ensures Abs() == Step(old(Abs()), Acquired(i))
    {
      runs := runs[i := runs[i].(phase := Submitting)];
    }

    // The build was emitted, or an error of the attempt reported; either callback may invalidate.
    method AttemptSettled(i: nat, reenters: bool)
      requires i < |runs| && !runs[i].phase.Ending?
      modifies this
      ensures Abs() == AttemptOver(old(Abs()), i, reenters)
    {
      finished := runs[i].covers;
      if reenters { Invalidate(); }
      Loop(i);
    }

    method FinallyCallback(i: nat)
      requires Enabled(Abs(), Finally(i))
      modifies this
      ensures Abs() == Step(old(Abs()), Finally(i))
    {
      runs := runs[..i] + runs[i + 1..];
      running := None;
      if dirty && !closing && !closed { timer := true; }
    }

    // One turn of the loop in `drain`; `exits` when it goes on to drain the coordinator.
    method DrainLoop() returns (exits: bool)
      modifies this
      ensures Abs() == Step(old(Abs()), DrainTurn)
      ensures exits <==> old(!Busy(Abs()))
    {
      exits := !(timer || running.Some? || dirty);
      if !exits {
        timer := false;
        Flush();
      }
    }

    method CloseOnce()
      modifies this
      ensures Abs() == Step(old(Abs()), CloseCalled)
    {
      if close.Open? {
        closing := true;
        close := ClosingWatcher(if runs != [] && runs[0].phase.Ending? then Some(runs[0].flush) else None);
      }
    }

    method CloseFlushes()
      requires Enabled(Abs(), WatcherClosed)
      modifies this
      ensures Abs() == Step(old(Abs()), WatcherClosed)
    {
      timer := false;
      Flush();
      close := ClosingFlush(if running.Some? then running.value else 0);
    }
  }
}
