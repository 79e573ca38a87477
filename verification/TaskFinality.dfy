// When a failed task waits for a human.
//
// The table has one way out of FAILED, meant for the manual retry. But hand-overs,
// retries after a failure and sweeps use the same transition into the queue, and
// they decide on a copy they have read before.
module TaskFinality {
  import opened Wrappers
  import opened TaskModels
  import opened TaskStore
  import opened TaskProtocol
  import opened TaskTheorems
  import opened TaskBudget
  import opened TaskCalls

  // The process is about to put the task back into the queue without being asked to.
  predicate ReturnsUnasked(pr: Proc) {
    || pr.pc.HandOver?
    || pr.pc.Requeue?
    || (pr.pc.Reclaim? && pr.seen.status == Running && pr.seen.attempts < pr.seen.maxAttempts)
  }

  // Whoever does so has read the row when it had not ended.
  predicate ReadInProgress(pr: Proc) {
    && (pr.pc.HandOver? || pr.pc.Requeue? ==> !pr.seen.status.IsTerminal())
    && (pr.pc.Reclaim? ==> pr.seen.status.IsActive())
  }

  predicate AllReadInProgress(s: State) {
    forall p :: p in s.procs ==> ReadInProgress(s.procs[p])
  }

  lemma LocalKeepsReading(pl: Pipeline, row: Task, pr: Proc, step: Step)
    requires ReadInProgress(pr)
    ensures ReadInProgress(Local(pl, row, pr, step))
  {
  }

  lemma StepKeepsReading(pl: Pipeline, s: State, step: Step)
    requires AllReadInProgress(s)
    ensures AllReadInProgress(Do(pl, s, step))
  {
    var t := Do(pl, s, step);
    forall p | p in t.procs
      ensures ReadInProgress(t.procs[p])
    {
      if p in s.procs {
        assert ReadInProgress(s.procs[p]);
        LocalKeepsReading(pl, s.record, s.procs[p], step);
      }
    }
  }

  lemma {:induction false} RunReadsInProgress(pl: Pipeline, s: State, steps: seq<Step>)
    requires Initial(s)
    ensures AllReadInProgress(Run(pl, s, steps))
  {
    if |steps| > 0 {
      RunReadsInProgress(pl, s, steps[..|steps| - 1]);
      StepKeepsReading(pl, Run(pl, s, steps[..|steps| - 1]), steps[|steps| - 1]);
    }
  }

  predicate LeavesFailed(pl: Pipeline, s: State, step: Step) {
    s.record.status == Failed && Do(pl, s, step).record.status != Failed
  }

  predicate CommitsRetry(pl: Pipeline, s: State, step: Step) {
    Commits(pl, s, step) && s.procs[step.p].pc.Reopen?
  }

  // The late write of somebody who read the row before it failed.
  predicate CommitsLateReturn(pl: Pipeline, s: State, step: Step) {
    Commits(pl, s, step) && ReturnsUnasked(s.procs[step.p]) && s.procs[step.p].seen.version < s.record.version
  }

  // In any run a failed task leaves FAILED by a manual retry or by such a late write, and by nothing else.
  lemma {:induction false} FailedLeftIff(pl: Pipeline, s: State, steps: seq<Step>, k: nat)
    requires Initial(s) && k < |steps| && Run(pl, s, steps[..k]).record.status == Failed
    ensures var t := Run(pl, s, steps[..k]);
      Run(pl, s, steps[..k + 1]).record.status != Failed <==>
        CommitsRetry(pl, t, steps[k]) || CommitsLateReturn(pl, t, steps[k])
  {
    var t, step := Run(pl, s, steps[..k]), steps[k];
    OneMoreStep(pl, s, steps, k);
    RunKeepsSnapshots(pl, s, steps[..k]);
    RunReadsInProgress(pl, s, steps[..k]);
    StepLeavesFailedIff(pl, t, step);
  }

  lemma StepLeavesFailedIff(pl: Pipeline, s: State, step: Step)
    requires SnapshotsOk(pl, s) && AllReadInProgress(s) && s.record.status == Failed
    ensures LeavesFailed(pl, s, step) <==> CommitsRetry(pl, s, step) || CommitsLateReturn(pl, s, step)
  {
    if Commits(pl, s, step) {
      assert ReadInProgress(s.procs[step.p]);
      CommitEffect(pl, s, step);
      var pr := s.procs[step.p];
      hide Do, Commits;
      if pr.seen.version == s.record.version {
        assert pr.seen.status == s.record.status;
      }
      match pr.pc
      case Claim =>
      case HandOver(_) =>
      case Requeue(_) =>
      case Reclaim =>
      case Reopen(_, _) =>
      case _ =>
    }
  }

  // If every move into the queue lands on the version it was decided on, only a human reopens a failed task.
  lemma {:induction false} FailedWaitsForHuman(pl: Pipeline, s: State, steps: seq<Step>, k: nat)
    requires Initial(s) && Guarded(pl, s, steps)
    requires k < |steps| && Run(pl, s, steps[..k]).record.status == Failed
    requires Run(pl, s, steps[..k + 1]).record.status != Failed
    ensures CommitsRetry(pl, Run(pl, s, steps[..k]), steps[k])
  {
    FailedLeftIff(pl, s, steps, k);
    assert CheckAndWrite(pl, Run(pl, s, steps[..k]), steps[k]);
  }

  // ---- Without that ----

  // "a" claims the last attempt and decides to hand over; a sweeper finds it stale and
  // declares the task failed; then the hand-over lands.
  const REOPENED: seq<Step> := ClaimBy(0, "a", Some("cpu"), 1) + DECIDE + SweepBy(1, 2)

  lemma LateHandOverReopensFailed(s: State)
    requires Initial(s) && s.record.maxAttempts == 1
    ensures Run(IO_ONLY, s, REOPENED).record.status == Failed
    ensures Run(IO_ONLY, s, REOPENED + WRITE).record.status == Pending
  {
    var a := ClaimBy(0, "a", Some("cpu"), 1);
    ClaimRun(IO_ONLY, s, 0, "a", Some("cpu"), 1);
    var s1 := Run(IO_ONLY, s, a);
    DecideRun(s1);
    var s2 := Run(IO_ONLY, s1, DECIDE);
    SweepFails(s2);
    var s3 := Run(IO_ONLY, s2, SweepBy(1, 2));
    hide Run, Do, SweepBy, ClaimBy;
    RunSplits(IO_ONLY, s, a, DECIDE);
    RunSplits(IO_ONLY, s, a + DECIDE, SweepBy(1, 2));
    RunSplits(IO_ONLY, s, REOPENED, WRITE);
    LateWrite(s3);
  }

  lemma SweepFails(s: State)
    requires 1 !in s.procs && 0 in s.procs && s.record.status == Running && s.record.attempts >= s.record.maxAttempts
    ensures var t := Run(IO_ONLY, s, SweepBy(1, 2));
      t.record.status == Failed && 0 in t.procs && t.procs[0] == s.procs[0]
  {
    var sweep := [Suspect(1), Load(1, 2), Save(1)];
    var s1 := Do(IO_ONLY, s, Spawn(1, "s", None));
    assert s1 == s.(procs := s.procs[1 := Proc("s", None, false, Idle, s.record, None, 0)]);
    assert SweepBy(1, 2) == [Spawn(1, "s", None)] + sweep;
    RunSplits(IO_ONLY, s, [Spawn(1, "s", None)], sweep);
    OneStep(IO_ONLY, s, Spawn(1, "s", None));
    OthersKeep(IO_ONLY, s1, sweep, 1, 0);
    hide Do, Run, ClosedAs;
    SweepDecides(IO_ONLY, s1, 1, 2);
  }

  lemma LateWrite(s: State)
    requires 0 in s.procs && s.procs[0].pc == HandOver("indexing") && s.procs[0].call.None? && s.record.status == Failed
    ensures Run(IO_ONLY, s, WRITE).record.status == Pending
  {
    hide Do, Run;
    MoveWrites(s.record, Pending, RequestOf(IO_ONLY, s.procs[0]).value.m.fields, 4);
    hide Mutate, Committed, ClosedAs;
    Writes(IO_ONLY, s, 0, 4);
  }
}
