// Threads and coroutines on one loader, with cancellation at every await.
module S3LoaderProtocol {
  import opened LoaderMonitor

  // A thread blocked on the condition stays in a Try phase and rechecks when it
  // is woken; a coroutine registers a future and moves to a Wait phase.
  datatype Phase =
    | Idle
    | TryLoad | WaitLoad | Loading
    | TryTurn | WaitTurn
    | TryDrain | WaitDrain | Cleaning
    | GiveBack   // a cancelled owner on its way to release the cleanup

  datatype State = State(shared: Shared, phase: seq<Phase>, isAsync: seq<bool>)

  datatype Step =
    | Spawn(isAsync: bool)
    | WantLoad(t: TaskId)
    | WantCleanup(t: TaskId)
    | Turn(t: TaskId)      // run the next locked stretch
    | Wake(t: TaskId)      // a notified coroutine resumes
    | Cancel(t: TaskId)    // a coroutine is cancelled while it awaits

  predicate At(s: State, t: TaskId, p: Phase) {
    t < |s.phase| && s.phase[t] == p
  }

  function Go(s: State, t: TaskId, shared: Shared, p: Phase): State
    requires t < |s.phase|
  {
    s.(shared := shared, phase := s.phase[t := p])
  }

  // The task gets through, or it waits: a coroutine in a Wait phase, a thread where it is.
  function Turned(s: State, t: TaskId, turn: (Shared, bool), through: Phase, waits: Phase): State
    requires t < |s.phase| && t < |s.isAsync|
  {
    if turn.1 then Go(s, t, turn.0, through)
    else if s.isAsync[t] then Go(s, t, turn.0, waits)
    else s
  }

  function TakeTurn(s: State, t: TaskId): State
    requires t < |s.phase| && t < |s.isAsync|
  {
    var registers := s.isAsync[t];
    match s.phase[t]
    case TryLoad => Turned(s, t, TryBegin(s.shared, t, registers), Loading, WaitLoad)
    case Loading => Go(s, t, EndLoad(s.shared), Idle)
    case TryTurn => Turned(s, t, TryOwn(s.shared, t, registers), TryDrain, WaitTurn)
    case TryDrain => Turned(s, t, Drained(s.shared, t, registers), Cleaning, WaitDrain)
    case Cleaning => Go(s, t, EndCleanup(s.shared), Idle)
    case GiveBack => Go(s, t, EndCleanup(s.shared), Idle)
    case _ => s
  }

  predicate Awaits(p: Phase) {
    p == WaitLoad || p == WaitTurn || p == WaitDrain
  }

  // Leaving an await takes the future out of the registry.
  function Unwait(s: State, t: TaskId, p: Phase): State
    requires t < |s.phase|
  {
    Go(s, t, Unregister(s.shared, t), p)
  }

  function Do(s: State, step: Step): State {
    match step
    case Spawn(isAsync) => s.(phase := s.phase + [Idle], isAsync := s.isAsync + [isAsync])
    case WantLoad(t) => if At(s, t, Idle) then Go(s, t, s.shared, TryLoad) else s
    case WantCleanup(t) => if At(s, t, Idle) then Go(s, t, s.shared, TryTurn) else s
    case Turn(t) => if t < |s.phase| && t < |s.isAsync| then TakeTurn(s, t) else s
    case Wake(t) =>
      if t < |s.phase| && Awaits(s.phase[t]) && t !in s.shared.waiters then
        Unwait(s, t, match s.phase[t] case WaitLoad => TryLoad case WaitTurn => TryTurn case _ => TryDrain)
      else s
    case Cancel(t) =>
      if t < |s.phase| && Awaits(s.phase[t]) then
        Unwait(s, t, if s.phase[t] == WaitDrain then GiveBack else Idle)
      else s
  }

  function Run(s: State, steps: seq<Step>): State {
    if |steps| == 0 then s else Do(Run(s, steps[..|steps| - 1]), steps[|steps| - 1])
  }

  const INIT := State(Shared(0, false, {}), [], [])

  // ---- The invariant ----

  predicate Owns(p: Phase) {
    p == TryDrain || p == WaitDrain || p == Cleaning || p == GiveBack
  }

  function CountLoading(phase: seq<Phase>): nat {
    if |phase| == 0 then 0
    else CountLoading(phase[..|phase| - 1]) + if phase[|phase| - 1] == Loading then 1 else 0
  }

  // The counter is the number of loads between begin and end.
  predicate LoadsCounted(s: State) {
    s.shared.activeLoads == CountLoading(s.phase)
  }

  // The flag is up exactly while one task owns the cleanup.
  predicate OneOwner(s: State) {
    && (s.shared.cleaning ==> exists t :: 0 <= t < |s.phase| && Owns(s.phase[t]))
    && (forall t :: 0 <= t < |s.phase| && Owns(s.phase[t]) ==> s.shared.cleaning)
    && (forall t, u :: 0 <= t < |s.phase| && 0 <= u < |s.phase| && Owns(s.phase[t]) && Owns(s.phase[u]) ==> t == u)
  }

  // Nothing loads while a cleanup is in its critical section.
  predicate Exclusive(s: State) {
    forall t :: 0 <= t < |s.phase| && s.phase[t] == Cleaning ==> s.shared.activeLoads == 0
  }

  // A registered waiter really awaits something that will be notified: no
  // future stays registered once the cleanup is over, and an owner is
  // registered only while there is a load to wait for.
  predicate WaitersWillBeNotified(s: State) {
    && (forall t :: t in s.shared.waiters ==> t < |s.phase| && Awaits(s.phase[t]))
    && (!s.shared.cleaning ==> s.shared.waiters == {})
    && (forall t :: t in s.shared.waiters && At(s, t, WaitDrain) ==> s.shared.activeLoads > 0)
  }

  predicate Inv(s: State) {
    && |s.phase| == |s.isAsync|
    && LoadsCounted(s) && OneOwner(s) && Exclusive(s) && WaitersWillBeNotified(s)
  }

  lemma {:induction false} CountMove(phase: seq<Phase>, t: TaskId, p: Phase)
    requires t < |phase|
    ensures CountLoading(phase[t := p]) + (if phase[t] == Loading then 1 else 0)
         == CountLoading(phase) + (if p == Loading then 1 else 0)
  {
    var n := |phase| - 1;
    if t < n {
      CountMove(phase[..n], t, p);
      assert phase[t := p][..n] == phase[..n][t := p];
    } else {
      assert phase[t := p][..n] == phase[..n];
    }
  }

  // A task that keeps its claim on the cleanup.
  lemma OwnerMoves(s: State, t: TaskId, shared: Shared, p: Phase)
    requires OneOwner(s) && t < |s.phase|
    requires Owns(s.phase[t]) == Owns(p) && shared.cleaning == s.shared.cleaning
    ensures OneOwner(Go(s, t, shared, p))
  {
    var n := Go(s, t, shared, p);
    if s.shared.cleaning {
      var u :| 0 <= u < |s.phase| && Owns(s.phase[u]);
      assert Owns(n.phase[u]);
    }
  }

  lemma OwnerEnters(s: State, t: TaskId, shared: Shared, p: Phase)
    requires OneOwner(s) && t < |s.phase| && !s.shared.cleaning && shared.cleaning && Owns(p)
    ensures OneOwner(Go(s, t, shared, p))
  {
    assert Owns(Go(s, t, shared, p).phase[t]);
  }

  lemma OwnerLeaves(s: State, t: TaskId, shared: Shared, p: Phase)
    requires OneOwner(s) && t < |s.phase| && Owns(s.phase[t]) && !shared.cleaning && !Owns(p)
    ensures OneOwner(Go(s, t, shared, p))
  {
  }

  // A task that found the way closed: a coroutine registers and waits.
  lemma BlockKeepsInv(s: State, t: TaskId)
    requires Inv(s) && t < |s.phase|
    requires ((s.phase[t] == TryLoad || s.phase[t] == TryTurn) && s.shared.cleaning)
      || (s.phase[t] == TryDrain && s.shared.activeLoads != 0)
    ensures Inv(TakeTurn(s, t))
  {
    var n := TakeTurn(s, t);
    CountMove(s.phase, t, n.phase[t]);
    if s.isAsync[t] {
      OwnerMoves(s, t, n.shared, n.phase[t]);
    }
  }

  lemma OwnershipKeepsInv(s: State, t: TaskId)
    requires Inv(s) && t < |s.phase|
    requires s.phase[t] == Cleaning || s.phase[t] == GiveBack || (s.phase[t] == TryTurn && !s.shared.cleaning)
    ensures Inv(TakeTurn(s, t))
  {
    var n := TakeTurn(s, t);
    CountMove(s.phase, t, n.phase[t]);
    if s.phase[t] == TryTurn {
      OwnerEnters(s, t, n.shared, TryDrain);
    } else {
      OwnerLeaves(s, t, n.shared, Idle);
    }
  }

  lemma LoadKeepsInv(s: State, t: TaskId)
    requires Inv(s) && t < |s.phase|
    requires s.phase[t] == Loading || (s.phase[t] == TryLoad && !s.shared.cleaning)
      || (s.phase[t] == TryDrain && s.shared.activeLoads == 0)
    ensures Inv(TakeTurn(s, t))
  {
    var n := TakeTurn(s, t);
    CountMove(s.phase, t, n.phase[t]);
    OwnerMoves(s, t, n.shared, n.phase[t]);
  }

  lemma TurnKeepsInv(s: State, t: TaskId)
    requires Inv(s) && t < |s.phase|
    ensures Inv(TakeTurn(s, t))
  {
    hide Inv, Turned;
    match s.phase[t]
    case TryLoad =>
      if s.shared.cleaning {
        BlockKeepsInv(s, t);
      } else {
        LoadKeepsInv(s, t);
      }
    case TryTurn =>
      if s.shared.cleaning {
        BlockKeepsInv(s, t);
      } else {
        OwnershipKeepsInv(s, t);
      }
    case TryDrain =>
      if s.shared.activeLoads != 0 {
        BlockKeepsInv(s, t);
      } else {
        LoadKeepsInv(s, t);
      }
    case Loading => LoadKeepsInv(s, t);
    case Cleaning => OwnershipKeepsInv(s, t);
    case GiveBack => OwnershipKeepsInv(s, t);
    case _ =>
  }

  lemma UnwaitKeepsInv(s: State, t: TaskId, p: Phase)
    requires Inv(s) && t < |s.phase| && Awaits(s.phase[t])
    requires Owns(p) == Owns(s.phase[t]) && p != Loading && p != Cleaning && !Awaits(p)
    ensures Inv(Unwait(s, t, p))
  {
    CountMove(s.phase, t, p);
    OwnerMoves(s, t, s.shared.(waiters := s.shared.waiters - {t}), p);
  }

  lemma WantKeepsInv(s: State, t: TaskId, p: Phase)
    requires Inv(s) && At(s, t, Idle) && (p == TryLoad || p == TryTurn)
    ensures Inv(Go(s, t, s.shared, p))
  {
    CountMove(s.phase, t, p);
    OwnerMoves(s, t, s.shared, p);
  }

  lemma SpawnKeepsInv(s: State, isAsync: bool)
    requires Inv(s)
    ensures Inv(Do(s, Spawn(isAsync)))
  {
    var n := Do(s, Spawn(isAsync));
    assert n.phase[..|s.phase|] == s.phase;
    if s.shared.cleaning {
      var u :| 0 <= u < |s.phase| && Owns(s.phase[u]);
      assert Owns(n.phase[u]);
    }
  }

  lemma StepKeepsInv(s: State, step: Step)
    requires Inv(s)
    ensures Inv(Do(s, step))
  {
    hide LoadsCounted, OneOwner, Exclusive, WaitersWillBeNotified, TakeTurn, Unwait, Go;
    match step
    case Spawn(isAsync) => SpawnKeepsInv(s, isAsync);
    case WantLoad(t) => if At(s, t, Idle) { WantKeepsInv(s, t, TryLoad); }
    case WantCleanup(t) => if At(s, t, Idle) { WantKeepsInv(s, t, TryTurn); }
    case Turn(t) => if t < |s.phase| { TurnKeepsInv(s, t); }
    case Wake(t) =>
      if t < |s.phase| && Awaits(s.phase[t]) {
        UnwaitKeepsInv(s, t, match s.phase[t] case WaitLoad => TryLoad case WaitTurn => TryTurn case _ => TryDrain);
      }
    case Cancel(t) =>
      if t < |s.phase| && Awaits(s.phase[t]) {
        UnwaitKeepsInv(s, t, if s.phase[t] == WaitDrain then GiveBack else Idle);
      }
  }

  // Every interleaving of loads, cleanups and cancellations keeps cleanup and
  // loads apart, counts the loads, strands no waiter and leaks no ownership.
  lemma {:induction false} RunKeepsInv(steps: seq<Step>)
    ensures Inv(Run(INIT, steps))
  {
    if |steps| > 0 {
      RunKeepsInv(steps[..|steps| - 1]);
      StepKeepsInv(Run(INIT, steps[..|steps| - 1]), steps[|steps| - 1]);
    }
  }

  // While a cleanup runs no load is between begin and end, and no other task owns the cleanup.
  lemma CleanupIsAlone(steps: seq<Step>, t: TaskId, u: TaskId)
    requires At(Run(INIT, steps), t, Cleaning) && t != u
    ensures !At(Run(INIT, steps), u, Loading)
    ensures u < |Run(INIT, steps).phase| ==> !Owns(Run(INIT, steps).phase[u])
  {
    var s := Run(INIT, steps);
    RunKeepsInv(steps);
    if At(s, u, Loading) {
      CountMove(s.phase, u, Idle);
    }
  }

  // An owner that is cancelled while it waits for the loads keeps the flag up until
  // its own next turn, which nobody can prevent and which opens the loader again.
  lemma CancelledOwnerGivesBack(steps: seq<Step>, t: TaskId, step: Step)
    requires At(Run(INIT, steps), t, WaitDrain)
    ensures var s := Do(Run(INIT, steps), Cancel(t));
      && At(s, t, GiveBack) && s.shared.cleaning
      && (step != Turn(t) ==> At(Do(s, step), t, GiveBack) && Do(s, step).shared.cleaning)
      && (step == Turn(t) ==>
            At(Do(s, step), t, Idle) && !Do(s, step).shared.cleaning && Do(s, step).shared.waiters == {})
  {
    var s := Do(Run(INIT, steps), Cancel(t));
    RunKeepsInv(steps);
    StepKeepsInv(Run(INIT, steps), Cancel(t));
    StepKeepsInv(s, step);
    assert Owns(s.phase[t]);
    hide Run, CountLoading;
    if step != Turn(t) {
      OthersLeaveGiveBack(s, step, t);
      assert Owns(Do(s, step).phase[t]);
    }
  }

  lemma OthersLeaveGiveBack(s: State, step: Step, t: TaskId)
    requires At(s, t, GiveBack) && step != Turn(t)
    ensures At(Do(s, step), t, GiveBack)
  {
  }

  predicate NobodyOwns(phase: seq<Phase>) {
    forall t :: 0 <= t < |phase| ==> !Owns(phase[t])
  }

  predicate NobodyLoads(phase: seq<Phase>) {
    forall t :: 0 <= t < |phase| ==> phase[t] != Loading
  }

  // What the answers of the monitor mean to a caller in any reachable state: a load
  // begins, and a cleanup is claimed, exactly when no task owns the cleanup, and the
  // owner goes on exactly when no task is between the begin and the end of a load.
  lemma AnswersAreRight(steps: seq<Step>, t: TaskId, registers: bool)
    ensures var s := Run(INIT, steps);
      && (TryBegin(s.shared, t, registers).1 <==> NobodyOwns(s.phase))
      && (TryOwn(s.shared, t, registers).1 <==> NobodyOwns(s.phase))
      && (Drained(s.shared, t, registers).1 <==> NobodyLoads(s.phase))
  {
    RunKeepsInv(steps);
    CountIsZero(Run(INIT, steps).phase);
  }

  lemma {:induction false} CountIsZero(phase: seq<Phase>)
    ensures CountLoading(phase) == 0 <==> NobodyLoads(phase)
  {
    if |phase| > 0 {
      var n := |phase| - 1;
      CountIsZero(phase[..n]);
      if NobodyLoads(phase[..n]) && phase[n] != Loading {
        forall t | 0 <= t < |phase|
          ensures phase[t] != Loading
        {
          assert t < n ==> phase[..n][t] != Loading;
        }
      }
      if NobodyLoads(phase) {
        forall t | 0 <= t < n
          ensures phase[..n][t] != Loading
        {
          assert phase[t] != Loading;
        }
      }
    }
  }

  // When no task owns the cleanup the flag is down and every waiter has been notified.
  lemma NoOwnerMeansOpen(steps: seq<Step>)
    requires NobodyOwns(Run(INIT, steps).phase)
    ensures !Run(INIT, steps).shared.cleaning && Run(INIT, steps).shared.waiters == {}
  {
    RunKeepsInv(steps);
  }

  // The system is never stuck: some task can move unless every task is idle.
  predicate CanMove(s: State, t: TaskId) {
    t < |s.phase| && t < |s.isAsync| &&
    (Do(s, Turn(t)) != s || Do(s, Wake(t)) != s)
  }

  lemma NeverStuck(steps: seq<Step>, t: TaskId) returns (u: TaskId)
    requires t < |Run(INIT, steps).phase| && Run(INIT, steps).phase[t] != Idle
    ensures CanMove(Run(INIT, steps), u)
  {
    RunKeepsInv(steps);
    u := SomebodyMoves(Run(INIT, steps), t);
  }

  lemma SomebodyMoves(s: State, t: TaskId) returns (u: TaskId)
    requires Inv(s) && t < |s.phase| && s.phase[t] != Idle
    ensures CanMove(s, u)
  {
    if CanMove(s, t) {
      return t;
    }
    BlockedByCleanup(s, t);
    var o :| 0 <= o < |s.phase| && Owns(s.phase[o]);
    if CanMove(s, o) {
      return o;
    }
    BlockedByLoad(s, o);
    u := SomeLoading(s.phase);
    assert Do(s, Turn(u)).phase[u] == Idle;
  }

  // A blocked task finds the flag up, so somebody owns the cleanup.
  lemma BlockedByCleanup(s: State, t: TaskId)
    requires Inv(s) && t < |s.phase| && s.phase[t] != Idle && !CanMove(s, t)
    ensures exists o :: 0 <= o < |s.phase| && Owns(s.phase[o])
  {
    if !Owns(s.phase[t]) {
      assert Do(s, Turn(t)) == s && Do(s, Wake(t)) == s;
      assert !Awaits(s.phase[t]) ==> s.shared.cleaning;
      assert t in s.shared.waiters || !Awaits(s.phase[t]);
    }
  }

  // A blocked owner waits for a load.
  lemma BlockedByLoad(s: State, o: TaskId)
    requires Inv(s) && o < |s.phase| && Owns(s.phase[o]) && !CanMove(s, o)
    ensures s.shared.activeLoads > 0 && CountLoading(s.phase) > 0
  {
    assert Do(s, Turn(o)) == s && Do(s, Wake(o)) == s;
  }

  lemma {:induction false} SomeLoading(phase: seq<Phase>) returns (t: TaskId)
    requires CountLoading(phase) > 0
    ensures t < |phase| && phase[t] == Loading
  {
    var n := |phase| - 1;
    if phase[n] == Loading {
      return n;
    }
    t := SomeLoading(phase[..n]);
  }

  // ---- What each task is about ----

  datatype Purpose = ToLoad | ToCleanUp

  function PurposeOf(p: Phase): Purpose
    requires p != Idle
  {
    match p
    case TryLoad => ToLoad
    case WaitLoad => ToLoad
    case Loading => ToLoad
    case _ => ToCleanUp
  }

  // The task is done: its load or cleanup is over, or it has given the cleanup back.
  predicate Finishes(p: Phase) {
    p == Loading || p == Cleaning || p == GiveBack
  }

  // A task takes up what it wants, goes on with it through every wait and wake-up, and stops
  // only at its end or when it is cancelled.
  lemma PurposeIsKept(s: State, step: Step, t: TaskId)
    requires t < |s.phase| == |s.isAsync|
    ensures var n := Do(s, step);
      && t < |n.phase|
      && (s.phase[t] == Idle && n.phase[t] != Idle ==>
            (step == WantLoad(t) && n.phase[t] == TryLoad) || (step == WantCleanup(t) && n.phase[t] == TryTurn))
      && (s.phase[t] != Idle && n.phase[t] != Idle ==> PurposeOf(n.phase[t]) == PurposeOf(s.phase[t]))
      && (s.phase[t] != Idle && n.phase[t] == Idle ==>
            step == Cancel(t) || (step == Turn(t) && Finishes(s.phase[t])))
  {
  }
}
