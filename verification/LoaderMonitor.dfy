// The monitor that keeps the cleanup of a loader apart from its loads.
//
// Each stretch of code under the lifecycle lock, between two waits, is one
// method here and one function on the shared fields.
module LoaderMonitor {

  type TaskId = nat

  // `waiters` are the coroutines whose future is registered and not yet notified.
  datatype Shared = Shared(activeLoads: int, cleaning: bool, waiters: set<TaskId>)

  function BeginLoad(m: Shared): Shared {
    m.(activeLoads := m.activeLoads + 1)
  }

  // Nothing can be done now: a coroutine registers before it waits, a thread just waits.
  function Wait(m: Shared, t: TaskId, registers: bool): Shared {
    if registers then m.(waiters := m.waiters + {t}) else m
  }

  // One turn of entering a load, of claiming the cleanup, and of the owner's wait for
  // the loads: the answer says whether the caller gets through.
  function TryBegin(m: Shared, t: TaskId, registers: bool): (Shared, bool) {
    if !m.cleaning then (BeginLoad(m), true) else (Wait(m, t, registers), false)
  }

  function TryOwn(m: Shared, t: TaskId, registers: bool): (Shared, bool) {
    if !m.cleaning then (m.(cleaning := true), true) else (Wait(m, t, registers), false)
  }

  function Drained(m: Shared, t: TaskId, registers: bool): (Shared, bool) {
    if m.activeLoads == 0 then (m, true) else (Wait(m, t, registers), false)
  }

  function Unregister(m: Shared, t: TaskId): Shared {
    m.(waiters := m.waiters - {t})
  }

  function EndLoad(m: Shared): Shared {
    if m.activeLoads - 1 == 0 then Shared(0, m.cleaning, {}) else m.(activeLoads := m.activeLoads - 1)
  }

  function EndCleanup(m: Shared): Shared {
    Shared(m.activeLoads, false, {})
  }

  class Monitor {
    var activeLoads: int
    var cleaning: bool
    var waiters: set<TaskId>

    ghost function View(): Shared
      reads this
    {
      Shared(activeLoads, cleaning, waiters)
    }

    constructor ()
      ensures View() == Shared(0, false, {})
    {
      activeLoads, cleaning, waiters := 0, false, {};
    }

    // One turn of the wait for a load.
    method TryBeginActivity(t: TaskId, isAsync: bool) returns (begun: bool)
      modifies this
      ensures (View(), begun) == TryBegin(old(View()), t, isAsync)
    {
      if !cleaning {
        activeLoads := activeLoads + 1;
        return true;
      }
      if isAsync {
        waiters := waiters + {t};
      }
      return false;
    }

    method EndActivity()
      modifies this
      ensures View() == EndLoad(old(View()))
    {
      activeLoads := activeLoads - 1;
      if activeLoads == 0 {
        waiters := {};
      }
    }

    // One turn of the wait for the right to clean up.
    method TryOwnCleanup(t: TaskId, isAsync: bool) returns (owned: bool)
      modifies this
      ensures (View(), owned) == TryOwn(old(View()), t, isAsync)
    {
      if !cleaning {
        cleaning := true;
        return true;
      }
      if isAsync {
        waiters := waiters + {t};
      }
      return false;
    }

    // One turn of the owner's wait for the loads to drain.
    method TryDrain(t: TaskId, isAsync: bool) returns (drained: bool)
      modifies this
      ensures (View(), drained) == Drained(old(View()), t, isAsync)
    {
      if activeLoads == 0 {
        return true;
      }
      if isAsync {
        waiters := waiters + {t};
      }
      return false;
    }

    method ReleaseCleanup()
      modifies this
      ensures View() == EndCleanup(old(View()))
    {
      cleaning := false;
      waiters := {};
    }

    method Discard(t: TaskId)
      modifies this
      ensures View() == Unregister(old(View()), t)
    {
      waiters := waiters - {t};
    }
  }
}
