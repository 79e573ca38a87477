// The loader whose coroutines enter a load through a helper thread.
//
// A coroutine dispatches the blocking entry to a thread and awaits it shielded;
// when it is cancelled it waits for the thread and undoes the registration.
// That undoing is itself an await. A second cancellation there drops the job if the
// thread pool has not started it, and loses the registration if it has.
module HttpLoaderProtocol {
  import opened LoaderMonitor

  datatype Phase =
    | Idle
    | TryLoad | Loading
    | Submitted    // the job for the helper thread is queued, the coroutine awaits it
    | Dispatched   // the helper thread is waiting to register, the coroutine awaits it
    | Registered   // the helper has registered, the coroutine has not resumed
    | UndoQueued   // cancelled once while the job was queued: awaits the helper to undo it
    | UndoWait     // cancelled once: awaits the running helper to undo it
    | UndoReady    // the helper has registered, the undo has not run
    | Orphan       // cancelled again: the helper is still going to register
    | Leaked       // the helper registered for nobody
    | TryTurn | TryDrain | Cleaning

  datatype State = State(shared: Shared, phase: seq<Phase>)

  datatype Step =
    | Spawn
    | WantLoad(t: TaskId)
    | WantAsyncLoad(t: TaskId)
    | WantCleanup(t: TaskId)
    | Start(t: TaskId)   // the thread pool takes up the job
    | Turn(t: TaskId)    // the next locked stretch of the task, or of its helper thread
    | Resume(t: TaskId)  // the coroutine continues after the helper is done
    | Cancel(t: TaskId)

  predicate At(s: State, t: TaskId, p: Phase) {
    t < |s.phase| && s.phase[t] == p
  }

  function Go(s: State, t: TaskId, shared: Shared, p: Phase): State
    requires t < |s.phase|
  {
    State(shared, s.phase[t := p])
  }

  function Register(s: State, t: TaskId, p: Phase): State
    requires t < |s.phase|
  {
    var (shared, begun) := TryBegin(s.shared, t, false);
    if begun then Go(s, t, shared, p) else s
  }

  function TakeTurn(s: State, t: TaskId): State
    requires t < |s.phase|
  {
    match s.phase[t]
    case TryLoad => Register(s, t, Loading)
    case Dispatched => Register(s, t, Registered)
    case UndoWait => Register(s, t, UndoReady)
    case Orphan => Register(s, t, Leaked)
    case Loading => Go(s, t, EndLoad(s.shared), Idle)
    case TryTurn =>
      var (shared, owned) := TryOwn(s.shared, t, false);
      if owned then Go(s, t, shared, TryDrain) else s
    case TryDrain =>
      var (shared, drained) := Drained(s.shared, t, false);
      if drained then Go(s, t, shared, Cleaning) else s
    case Cleaning => Go(s, t, EndCleanup(s.shared), Idle)
    case _ => s
  }

  function Do(s: State, step: Step): State {
    match step
    case Spawn => s.(phase := s.phase + [Idle])
    case WantLoad(t) => if At(s, t, Idle) then Go(s, t, s.shared, TryLoad) else s
    case WantAsyncLoad(t) => if At(s, t, Idle) then Go(s, t, s.shared, Submitted) else s
    case WantCleanup(t) => if At(s, t, Idle) then Go(s, t, s.shared, TryTurn) else s
    case Start(t) =>
      if At(s, t, Submitted) then Go(s, t, s.shared, Dispatched)
      else if At(s, t, UndoQueued) then Go(s, t, s.shared, UndoWait)
      else s
    case Turn(t) => if t < |s.phase| then TakeTurn(s, t) else s
    case Resume(t) =>
      if At(s, t, Registered) then Go(s, t, s.shared, Loading)
      else if At(s, t, UndoReady) then Go(s, t, EndLoad(s.shared), Idle)
      else s
    case Cancel(t) =>
      if At(s, t, Submitted) then Go(s, t, s.shared, UndoQueued)
      else if At(s, t, Dispatched) then Go(s, t, s.shared, UndoWait)
      else if At(s, t, Registered) then Go(s, t, EndLoad(s.shared), Idle)
      else if At(s, t, UndoQueued) then Go(s, t, s.shared, Idle)
      else if At(s, t, UndoWait) then Go(s, t, s.shared, Orphan)
      else if At(s, t, UndoReady) then Go(s, t, s.shared, Leaked)
      else s
  }

  function Run(s: State, steps: seq<Step>): State {
    if |steps| == 0 then s else Do(Run(s, steps[..|steps| - 1]), steps[|steps| - 1])
  }

  const INIT := State(Shared(0, false, {}), [])

  predicate Counts(p: Phase) {
    p == Loading || p == Registered || p == UndoReady || p == Leaked
  }

  predicate Lost(p: Phase) {
    p == Orphan || p == Leaked
  }

  predicate Owns(p: Phase) {
    p == TryDrain || p == Cleaning
  }

  function CountLoads(phase: seq<Phase>): nat {
    if |phase| == 0 then 0
    else CountLoads(phase[..|phase| - 1]) + if Counts(phase[|phase| - 1]) then 1 else 0
  }

  // The counter is the number of registrations not yet undone, lost ones included.
  predicate Inv(s: State) {
    && s.shared.activeLoads == CountLoads(s.phase)
    && (s.shared.cleaning ==> exists t :: 0 <= t < |s.phase| && Owns(s.phase[t]))
    && (forall t :: 0 <= t < |s.phase| && Owns(s.phase[t]) ==> s.shared.cleaning)
    && (forall t, u :: 0 <= t < |s.phase| && 0 <= u < |s.phase| && Owns(s.phase[t]) && Owns(s.phase[u]) ==> t == u)
    && (forall t :: 0 <= t < |s.phase| && s.phase[t] == Cleaning ==> s.shared.activeLoads == 0)
  }

  lemma {:induction false} CountMove(phase: seq<Phase>, t: TaskId, p: Phase)
    requires t < |phase|
    ensures CountLoads(phase[t := p]) + (if Counts(phase[t]) then 1 else 0)
         == CountLoads(phase) + (if Counts(p) then 1 else 0)
  {
    var n := |phase| - 1;
    if t < n {
      CountMove(phase[..n], t, p);
      assert phase[t := p][..n] == phase[..n][t := p];
    } else {
      assert phase[t := p][..n] == phase[..n];
    }
  }

  // A move of one task that keeps the books.
  lemma MoveKeepsInv(s: State, t: TaskId, shared: Shared, p: Phase)
    requires Inv(s) && t < |s.phase|
    requires shared.activeLoads ==
      s.shared.activeLoads - (if Counts(s.phase[t]) then 1 else 0) + (if Counts(p) then 1 else 0)
    requires (shared.cleaning == s.shared.cleaning && Owns(p) == Owns(s.phase[t]))
      || (!s.shared.cleaning && shared.cleaning && Owns(p))
      || (Owns(s.phase[t]) && !shared.cleaning && !Owns(p))
    requires p == Cleaning ==> shared.activeLoads == 0
    requires shared.activeLoads > s.shared.activeLoads ==> !s.shared.cleaning
    ensures Inv(Go(s, t, shared, p))
  {
    var n := Go(s, t, shared, p);
    CountMove(s.phase, t, p);
    if n.shared.cleaning {
      if Owns(p) {
        assert Owns(n.phase[t]);
      } else {
        var u :| 0 <= u < |s.phase| && Owns(s.phase[u]);
        assert Owns(n.phase[u]);
      }
    }
  }

  lemma TurnKeepsInv(s: State, t: TaskId)
    requires Inv(s) && t < |s.phase|
    ensures Inv(TakeTurn(s, t))
  {
    var n := TakeTurn(s, t);
    if n != s {
      CountMove(s.phase, t, Idle);
      MoveKeepsInv(s, t, n.shared, n.phase[t]);
    }
  }

  lemma SpawnKeepsInv(s: State)
    requires Inv(s)
    ensures Inv(Do(s, Spawn))
  {
    var n := Do(s, Spawn);
    assert n.phase[..|s.phase|] == s.phase;
    if s.shared.cleaning {
      var u :| 0 <= u < |s.phase| && Owns(s.phase[u]);
      assert Owns(n.phase[u]);
    }
  }

  lemma StepKeepsInv(s: State, step: Step)
    requires Inv(s)
    ensures Inv(Do(s, step))
  {
    var n := Do(s, step);
    if step.Spawn? {
      SpawnKeepsInv(s);
    } else if step.Turn? {
      if step.t < |s.phase| {
        TurnKeepsInv(s, step.t);
      }
    } else if n != s {
      assert step.t < |s.phase| && n == Go(s, step.t, n.shared, n.phase[step.t]);
      assert n.shared.cleaning == s.shared.cleaning && Owns(n.phase[step.t]) == Owns(s.phase[step.t]);
      hide Inv;
      MoveKeepsInv(s, step.t, n.shared, n.phase[step.t]);
    }
  }

  lemma {:induction false} RunKeepsInv(steps: seq<Step>)
    ensures Inv(Run(INIT, steps))
  {
    if |steps| > 0 {
      RunKeepsInv(steps[..|steps| - 1]);
      StepKeepsInv(Run(INIT, steps[..|steps| - 1]), steps[|steps| - 1]);
    }
  }

  // While a cleanup runs no load is between begin and end, whatever was cancelled.
  lemma CleanupIsAlone(steps: seq<Step>, t: TaskId, u: TaskId)
    requires At(Run(INIT, steps), t, Cleaning) && t != u
    ensures !At(Run(INIT, steps), u, Loading) && !At(Run(INIT, steps), u, Cleaning)
  {
    var s := Run(INIT, steps);
    RunKeepsInv(steps);
    if At(s, u, Loading) {
      CountMove(s.phase, u, Idle);
    }
  }

  // ---- When the counter is exact ----

  // A coroutine that is already undoing its cancelled entry is cancelled again, when
  // the helper has started; a job that is still queued is dropped with the coroutine.
  predicate CancelsUndo(s: State, step: Step) {
    step.Cancel? && (At(s, step.t, UndoWait) || At(s, step.t, UndoReady))
  }

  predicate NothingLost(phase: seq<Phase>) {
    forall t :: 0 <= t < |phase| ==> !Lost(phase[t])
  }

  lemma StepLoses(s: State, step: Step)
    ensures NothingLost(Do(s, step).phase) <==> NothingLost(s.phase) && !CancelsUndo(s, step)
  {
    var n := Do(s, step);
    if CancelsUndo(s, step) {
      assert Lost(n.phase[step.t]);
    } else if !NothingLost(s.phase) {
      var t :| 0 <= t < |s.phase| && Lost(s.phase[t]);
      assert Lost(n.phase[t]);
    }
  }

  predicate UndoneInPeace(steps: seq<Step>) {
    forall k :: 0 <= k < |steps| ==> !CancelsUndo(Run(INIT, steps[..k]), steps[k])
  }

  // A registration is lost if and only if some coroutine is cancelled a second
  // time while it undoes its entry and the helper thread has started.
  lemma {:induction false} LostIffUndoCancelled(steps: seq<Step>)
    ensures NothingLost(Run(INIT, steps).phase) <==> UndoneInPeace(steps)
  {
    if |steps| > 0 {
      var n := |steps| - 1;
      LostIffUndoCancelled(steps[..n]);
      StepLoses(Run(INIT, steps[..n]), steps[n]);
      PeaceOfPrefix(steps);
    }
  }

  lemma PeaceOfPrefix(steps: seq<Step>)
    requires |steps| > 0
    ensures var n := |steps| - 1;
      UndoneInPeace(steps) <==> UndoneInPeace(steps[..n]) && !CancelsUndo(Run(INIT, steps[..n]), steps[n])
  {
    hide Run, CancelsUndo;
    var n := |steps| - 1;
    forall k | 0 <= k < n
      ensures steps[..n][..k] == steps[..k] && steps[..n][k] == steps[k]
    {
    }
    if UndoneInPeace(steps[..n]) {
      forall k | 0 <= k < n
        ensures !CancelsUndo(Run(INIT, steps[..k]), steps[k])
      {
        assert !CancelsUndo(Run(INIT, steps[..n][..k]), steps[..n][k]);
      }
    }
  }

  // A lost registration keeps every cleanup out for ever.
  lemma {:induction false} LeakBlocksCleanup(s: State, steps: seq<Step>, t: TaskId, u: TaskId)
    requires Inv(s) && At(s, t, Leaked)
    ensures Inv(Run(s, steps)) && At(Run(s, steps), t, Leaked) && !At(Run(s, steps), u, Cleaning)
  {
    hide Do;
    if |steps| > 0 {
      LeakBlocksCleanup(s, steps[..|steps| - 1], t, u);
      StepKeepsInv(Run(s, steps[..|steps| - 1]), steps[|steps| - 1]);
      LeakStays(Run(s, steps[..|steps| - 1]), steps[|steps| - 1], t);
    }
    CountMove(Run(s, steps).phase, t, Idle);
  }

  lemma LeakStays(s: State, step: Step, t: TaskId)
    requires At(s, t, Leaked)
    ensures At(Do(s, step), t, Leaked)
  {
  }

  // ---- Progress ----

  predicate CanMove(s: State, t: TaskId) {
    t < |s.phase| && (Do(s, Turn(t)) != s || Do(s, Start(t)) != s || Do(s, Resume(t)) != s)
  }

  // As long as no registration is lost, the system is never stuck: some task can move
  // unless every task is idle.
  lemma NeverStuckUnlessLost(steps: seq<Step>, t: TaskId) returns (u: TaskId)
    requires var s := Run(INIT, steps); t < |s.phase| && s.phase[t] != Idle && NothingLost(s.phase)
    ensures CanMove(Run(INIT, steps), u)
  {
    var s := Run(INIT, steps);
    RunKeepsInv(steps);
    if CanMove(s, t) {
      return t;
    }
    assert Do(s, Turn(t)) == s && Do(s, Start(t)) == s && Do(s, Resume(t)) == s;
    u := OwnerOrLoadMoves(s, t);
  }

  // A blocked task waits for the owner of the cleanup, and a blocked owner for a load.
  lemma OwnerOrLoadMoves(s: State, t: TaskId) returns (u: TaskId)
    requires Inv(s) && t < |s.phase| && s.phase[t] != Idle && NothingLost(s.phase) && !CanMove(s, t)
    ensures CanMove(s, u)
  {
    assert s.shared.cleaning by {
      if !s.shared.cleaning {
        ChangesPhase(s, t);
      }
    }
    var o :| 0 <= o < |s.phase| && Owns(s.phase[o]);
    if s.phase[o] == Cleaning || s.shared.activeLoads == 0 {
      assert Do(s, Turn(o)).phase[o] != s.phase[o];
      return o;
    }
    u := SomeLoad(s.phase);
    ChangesPhase(s, u);
  }

  // Whatever does not depend on the flag goes on, and with the flag down everything but a drain does.
  lemma ChangesPhase(s: State, t: TaskId)
    requires t < |s.phase| && s.phase[t] != Idle && !Lost(s.phase[t]) && s.phase[t] != TryDrain
    requires s.shared.cleaning ==> s.phase[t] == Loading || s.phase[t] == Registered || s.phase[t] == UndoReady
    ensures CanMove(s, t)
  {
    var p := s.phase[t];
    if p == Submitted || p == UndoQueued {
      assert Do(s, Start(t)).phase[t] != p;
    } else if p == Registered || p == UndoReady {
      assert Do(s, Resume(t)).phase[t] != p;
    } else {
      assert Do(s, Turn(t)).phase[t] != p;
    }
  }

  lemma {:induction false} SomeLoad(phase: seq<Phase>) returns (t: TaskId)
    requires CountLoads(phase) > 0
    ensures t < |phase| && Counts(phase[t])
  {
    var n := |phase| - 1;
    if Counts(phase[n]) {
      return n;
    }
    t := SomeLoad(phase[..n]);
  }

  // A chain of states linked by the steps is the run.
  lemma {:induction false} RunThrough(steps: seq<Step>, states: seq<State>)
    requires |states| == |steps| + 1
    requires forall k :: 0 <= k < |steps| ==> states[k + 1] == Do(states[k], steps[k])
    ensures Run(states[0], steps) == states[|steps|]
  {
    if |steps| > 0 {
      RunThrough(steps[..|steps| - 1], states[..|steps|]);
    }
  }

  // One coroutine, cancelled twice while a cleanup runs, is enough.
  const TWICE_CANCELLED: seq<Step> :=
    [Spawn, Spawn, WantCleanup(0), Turn(0), Turn(0), WantAsyncLoad(1), Start(1), Cancel(1), Cancel(1), Turn(0), Turn(1)]

  lemma TwiceCancelledLeaks()
    ensures Run(INIT, TWICE_CANCELLED) == State(Shared(1, false, {}), [Idle, Leaked])
  {
    var open, shut := Shared(0, false, {}), Shared(0, true, {});
    var states := [
      INIT, State(open, [Idle]), State(open, [Idle, Idle]), State(open, [TryTurn, Idle]),
      State(shut, [TryDrain, Idle]), State(shut, [Cleaning, Idle]), State(shut, [Cleaning, Submitted]),
      State(shut, [Cleaning, Dispatched]),
      State(shut, [Cleaning, UndoWait]), State(shut, [Cleaning, Orphan]), State(open, [Idle, Orphan]),
      State(Shared(1, false, {}), [Idle, Leaked])];
    forall k | 0 <= k < 11
      ensures states[k + 1] == Do(states[k], TWICE_CANCELLED[k])
    {
      hide Run;
    }
    RunThrough(TWICE_CANCELLED, states);
  }
}
