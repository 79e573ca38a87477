// The retry budget: how many times a task can be tried without a human.
//
// The executor reads the fence and writes in two separate calls. The budget
// holds of every run in which nobody bumps the record between the read that
// fixes the new attempt count and its write, and it can break otherwise.
module TaskBudget {
  import opened Wrappers
  import opened TaskModels
  import opened TaskStore
  import opened TaskProtocol
  import opened TaskTheorems

  predicate BudgetOk(s: State) {
    && s.record.attempts + s.handoffs == s.claims
    && s.record.attempts <= s.record.maxAttempts
    && (s.record.status == Pending ==> s.record.attempts < s.record.maxAttempts)
    && (s.record.status.IsActive() ==> 1 <= s.record.attempts)
  }

  // Every manual retry resets the attempts.
  predicate Resets(step: Step) {
    step.AskRetry? ==> step.reset
  }

  // The write lands on the version that its decision was read from.
  predicate CheckAndWrite(pl: Pipeline, s: State, step: Step) {
    Commits(pl, s, step) && DecidesAttempts(s.procs[step.p].pc) ==>
      s.procs[step.p].seen.version == s.record.version
  }

  predicate DecidesAttempts(pc: Pc) {
    pc.HandOver? || pc.Requeue? || pc.Reclaim?
  }

  predicate Guarded(pl: Pipeline, s: State, steps: seq<Step>) {
    forall k :: 0 <= k < |steps| ==>
      Resets(steps[k]) && CheckAndWrite(pl, Run(pl, s, steps[..k]), steps[k])
  }

  // What a process remembers of the copy it decided on.
  predicate DecisionOk(pr: Proc) {
    && (pr.pc.HandOver? ==> pr.seen.status == Running && 1 <= pr.seen.attempts)
    && (pr.pc.Requeue? ==> pr.seen.attempts < pr.seen.maxAttempts)
    && (pr.pc.Reclaim? ==> pr.seen.status.IsActive())
    && (pr.pc.Reopen? ==> pr.pc.reset)
  }

  predicate DecisionsOk(s: State) {
    forall p :: p in s.procs ==> DecisionOk(s.procs[p])
  }

  lemma LocalKeepsDecision(pl: Pipeline, row: Task, pr: Proc, step: Step)
    requires DecisionOk(pr) && Resets(step)
    requires row.status.IsActive() ==> 1 <= row.attempts
    ensures DecisionOk(Local(pl, row, pr, step))
  {
  }

  lemma StepKeepsDecisions(pl: Pipeline, s: State, step: Step)
    requires DecisionsOk(s) && BudgetOk(s) && Resets(step)
    ensures DecisionsOk(Do(pl, s, step))
  {
    var t := Do(pl, s, step);
    forall p | p in t.procs
      ensures DecisionOk(t.procs[p])
    {
      if p in s.procs {
        assert DecisionOk(s.procs[p]);
        LocalKeepsDecision(pl, s.record, s.procs[p], step);
      }
    }
  }

  // A committed claim, hand-over, failed attempt or reclaim keeps the budget
  // exactly when the attempt count it decided on is still the record's, or, for
  // a move back into the queue that leaves the count alone, when the record
  // still has an attempt left. Every other commit keeps it always.
  predicate StillTrue(s: State, pr: Proc) {
    match pr.pc
    case HandOver(_) => pr.seen.attempts == s.record.attempts
    case Requeue(_) => s.record.attempts < s.record.maxAttempts
    case Reclaim =>
      pr.seen.status == Running && pr.seen.attempts < pr.seen.maxAttempts ==>
        s.record.attempts < s.record.maxAttempts
    case _ => true
  }

  lemma CommittedAttempts(t: Task, m: Mutation, now: int)
    requires Mutate(t, m, now).Ok?
    ensures var u := Committed(t, m, now);
      && u.attempts == (if m.Heartbeat? then t.attempts else OrElse(m.fields.attempts, t.attempts))
      && u.status == (if m.Move? then m.to else t.status)
      && u.maxAttempts == t.maxAttempts
  {
  }

  // What a commit does to the counters, read off the mutation.
  lemma CommitEffect(pl: Pipeline, s: State, step: Step)
    requires SnapshotsOk(pl, s) && Commits(pl, s, step)
    ensures var pr, r := s.procs[step.p], Do(pl, s, step).record; var m := RequestOf(pl, pr).value.m;
      && r.attempts == (if m.Heartbeat? then s.record.attempts else OrElse(m.fields.attempts, s.record.attempts))
      && r.status == (if m.Move? then m.to else s.record.status)
      && r.maxAttempts == s.record.maxAttempts
      && (pr.pc.Claim? ==> pr.seen.attempts == s.record.attempts && s.record.status == Pending)
      && (m.Move? ==> CanTransition(s.record.status, m.to))
      && (pr.pc.Report? ==> m.fields.attempts.None?)
      && pr.seen.version <= s.record.version
      && (pr.seen.version == s.record.version ==> SameButHeartbeat(pr.seen, s.record))
  {
    var pr := s.procs[step.p];
    assert ProcOk(pl, s.record, pr);
    CommitIsAtomic(pl, s, step);
    CommittedAttempts(s.record, RequestOf(pl, pr).value.m, pr.call.value.now);
  }

  lemma CommitKeepsBudgetIff(pl: Pipeline, s: State, step: Step)
    requires SnapshotsOk(pl, s) && DecisionsOk(s) && BudgetOk(s) && s.record.maxAttempts >= 1
    requires Commits(pl, s, step)
    ensures BudgetOk(Do(pl, s, step)) <==> StillTrue(s, s.procs[step.p])
  {
    var pr := s.procs[step.p];
    assert DecisionOk(pr);
    CommitEffect(pl, s, step);
    match pr.pc
    case HandOver(_) =>
    case Reclaim =>
    case _ =>
  }

  lemma StepKeepsBudget(pl: Pipeline, s: State, step: Step)
    requires SnapshotsOk(pl, s) && DecisionsOk(s) && BudgetOk(s) && s.record.maxAttempts >= 1
    requires CheckAndWrite(pl, s, step)
    ensures BudgetOk(Do(pl, s, step))
    ensures Do(pl, s, step).record.maxAttempts == s.record.maxAttempts
  {
    if Commits(pl, s, step) {
      assert DecisionOk(s.procs[step.p]);
      CommitKeepsBudgetIff(pl, s, step);
      CommitEffect(pl, s, step);
    }
  }

  // Automatic processing never exceeds the budget: the attempt count is the
  // number of claims minus hand-overs since the last retry, a queued task has an
  // attempt left, and a claimed task is on one of its attempts.
  lemma {:induction false} BudgetHolds(pl: Pipeline, s: State, steps: seq<Step>)
    requires Initial(s) && s.record.maxAttempts >= 1 && Guarded(pl, s, steps)
    ensures var t := Run(pl, s, steps);
      BudgetOk(t) && DecisionsOk(t) && t.record.maxAttempts == s.record.maxAttempts
  {
    if |steps| > 0 {
      var n := |steps| - 1;
      forall k | 0 <= k < n
        ensures Resets(steps[..n][k]) && CheckAndWrite(pl, Run(pl, s, steps[..n][..k]), steps[..n][k])
      {
        assert steps[..n][..k] == steps[..k];
      }
      BudgetHolds(pl, s, steps[..n]);
      RunKeepsSnapshots(pl, s, steps[..n]);
      StepKeepsBudget(pl, Run(pl, s, steps[..n]), steps[n]);
      StepKeepsDecisions(pl, Run(pl, s, steps[..n]), steps[n]);
    }
  }

  // Every commit of the run decides on attempts that are still true.
  predicate DecisionsStillTrue(pl: Pipeline, s: State, steps: seq<Step>) {
    forall k :: 0 <= k < |steps| ==> DecidesTruly(pl, Run(pl, s, steps[..k]), steps[k])
  }

  predicate DecidesTruly(pl: Pipeline, s: State, step: Step) {
    Commits(pl, s, step) ==> StillTrue(s, s.procs[step.p])
  }

  predicate BudgetAlwaysOk(pl: Pipeline, s: State, steps: seq<Step>) {
    forall k :: 0 <= k <= |steps| ==> BudgetOk(Run(pl, s, steps[..k]))
  }

  lemma QuietKeepsBudget(pl: Pipeline, s: State, step: Step)
    requires BudgetOk(s) && !Commits(pl, s, step)
    ensures BudgetOk(Do(pl, s, step)) && Do(pl, s, step).record.maxAttempts == s.record.maxAttempts
  {
  }

  // One step more keeps the budget exactly when its decision is still true.
  lemma StepKeepsBudgetIff(pl: Pipeline, s: State, step: Step)
    requires SnapshotsOk(pl, s) && DecisionsOk(s) && BudgetOk(s) && s.record.maxAttempts >= 1
    ensures BudgetOk(Do(pl, s, step)) <==> DecidesTruly(pl, s, step)
    ensures Do(pl, s, step).record.maxAttempts == s.record.maxAttempts
  {
    if Commits(pl, s, step) {
      CommitKeepsBudgetIff(pl, s, step);
      CommitEffect(pl, s, step);
    } else {
      QuietKeepsBudget(pl, s, step);
    }
  }

  lemma AlwaysOkSnoc(pl: Pipeline, s: State, steps: seq<Step>)
    requires |steps| > 0
    ensures BudgetAlwaysOk(pl, s, steps) <==>
      BudgetAlwaysOk(pl, s, steps[..|steps| - 1]) && BudgetOk(Run(pl, s, steps))
  {
    var n := |steps| - 1;
    hide Run, BudgetOk;
    assert steps[..|steps|] == steps;
    forall k | 0 <= k <= n
      ensures BudgetOk(Run(pl, s, steps[..n][..k])) == BudgetOk(Run(pl, s, steps[..k]))
    {
      assert steps[..n][..k] == steps[..k];
    }
  }

  lemma StillTrueSnoc(pl: Pipeline, s: State, steps: seq<Step>)
    requires |steps| > 0
    ensures var n := |steps| - 1;
      DecisionsStillTrue(pl, s, steps) <==>
        DecisionsStillTrue(pl, s, steps[..n]) && DecidesTruly(pl, Run(pl, s, steps[..n]), steps[n])
  {
    var n := |steps| - 1;
    hide Run, DecidesTruly;
    forall k | 0 <= k < n
      ensures DecidesTruly(pl, Run(pl, s, steps[..n][..k]), steps[..n][k]) == DecidesTruly(pl, Run(pl, s, steps[..k]), steps[k])
    {
      assert steps[..n][..k] == steps[..k];
    }
  }

  // In any run in which retries reset, the budget holds at every moment if and only
  // if every committed decision was based on attempts that are still true.
  lemma {:induction false} BudgetHoldsIff(pl: Pipeline, s: State, steps: seq<Step>)
    requires Initial(s) && s.record.maxAttempts >= 1
    requires forall k :: 0 <= k < |steps| ==> Resets(steps[k])
    ensures BudgetAlwaysOk(pl, s, steps) <==> DecisionsStillTrue(pl, s, steps)
    ensures BudgetAlwaysOk(pl, s, steps) ==>
      var t := Run(pl, s, steps); DecisionsOk(t) && t.record.maxAttempts == s.record.maxAttempts
  {
    if |steps| > 0 {
      var n := |steps| - 1;
      BudgetHoldsIff(pl, s, steps[..n]);
      AlwaysOkSnoc(pl, s, steps);
      StillTrueSnoc(pl, s, steps);
      hide Run, Do, BudgetOk, DecidesTruly, DecisionsOk, Initial;
      if BudgetAlwaysOk(pl, s, steps[..n]) {
        assert steps[..n][..n] == steps[..n];
        assert BudgetOk(Run(pl, s, steps[..n][..n]));
        RunKeepsSnapshots(pl, s, steps[..n]);
        StepKeepsBudgetIff(pl, Run(pl, s, steps[..n]), steps[n]);
        StepKeepsDecisions(pl, Run(pl, s, steps[..n]), steps[n]);
      }
    } else {
      assert steps[..0] == steps;
    }
  }

  // ---- Without the guard ----

  // A one-stage pipeline on a lane that worker "a" does not serve.
  const IO_ONLY: Pipeline := [Stage("indexing", Some("io"))]

  // Spawn an executor, let it fetch the queued task and claim it.
  function ClaimBy(p: nat, worker: string, lane: Option<string>, now: int): seq<Step> {
    [Spawn(p, worker, lane), Fetch(p, true), Load(p, now), Save(p)]
  }

  // Spawn a sweeper, let it find the running task stale and take it back.
  function SweepBy(p: nat, now: int): seq<Step> {
    [Spawn(p, "s", None), Suspect(p), Load(p, now), Save(p)]
  }

  // "a" claims and decides to hand over; a sweeper takes the task back and "b"
  // claims it; then the hand-over of "a" lands on the attempt of "b" and takes it
  // off the count. So "c" can claim, be swept, and "d" claim again.
  const DECIDE: seq<Step> := [ReadAnchor(0), Advance(0, false, ""), Fence(0)]
  const WRITE: seq<Step> := [Load(0, 4), Save(0)]
  const LATE_HANDOVER: seq<Step> :=
    ClaimBy(0, "a", Some("cpu"), 1) + DECIDE + SweepBy(1, 2) + ClaimBy(2, "b", Some("io"), 3) + WRITE
  const TWO_MORE: seq<Step> := ClaimBy(3, "c", Some("io"), 5) + SweepBy(4, 6) + ClaimBy(5, "d", Some("io"), 7)

  lemma ClaimRun(pl: Pipeline, s: State, p: nat, worker: string, lane: Option<string>, now: int)
    requires p !in s.procs && s.record.status == Pending
    ensures var t := Run(pl, s, ClaimBy(p, worker, lane, now));
      && t.record.status == Running && t.record.attempts == s.record.attempts + 1
      && t.record.workerId == Some(worker) && t.record.maxAttempts == s.record.maxAttempts
      && t.record.resumeStage == s.record.resumeStage
      && t.procs.Keys == s.procs.Keys + {p} && (forall q :: q in s.procs ==> t.procs[q] == s.procs[q])
      && t.procs[p].pc == Start && t.procs[p].call.None? && t.procs[p].claimed
      && t.procs[p].worker == worker && t.procs[p].lane == lane
      && t.claims == s.claims + 1 && t.handoffs == s.handoffs
  {
    var steps := ClaimBy(p, worker, lane, now);
    var s1 := Do(pl, s, steps[0]);
    var s2 := Do(pl, s1, steps[1]);
    var s3 := Do(pl, s2, steps[2]);
    var s4 := Do(pl, s3, steps[3]);
    ClaimPrepared(pl, s, p, worker, lane, now);
    ClaimSaved(pl, s3, p);
    hide Do;
    RunThrough(pl, steps, [s, s1, s2, s3, s4]);
  }

  lemma ClaimPrepared(pl: Pipeline, s: State, p: nat, worker: string, lane: Option<string>, now: int)
    requires p !in s.procs && s.record.status == Pending
    ensures var s2 := Do(pl, Do(pl, s, Spawn(p, worker, lane)), Fetch(p, true));
      Do(pl, s2, Load(p, now)) ==
      s.(procs := s.procs[p := Proc(worker, lane, false, Claim, s.record, Some(Call(s.record, now)), 0)])
  {
    var s1 := Do(pl, s, Spawn(p, worker, lane));
    assert s1 == s.(procs := s.procs[p := Proc(worker, lane, false, Idle, s.record, None, 0)]);
    var s2 := Do(pl, s1, Fetch(p, true));
    assert s2.procs == s.procs[p := Proc(worker, lane, false, Claim, s.record, None, 0)];
    var s3 := Do(pl, s2, Load(p, now));
    assert s3.procs == s.procs[p := Proc(worker, lane, false, Claim, s.record, Some(Call(s.record, now)), 0)];
  }

  lemma ClaimSaved(pl: Pipeline, s: State, p: nat)
    requires p in s.procs && s.procs[p].pc.Claim? && s.procs[p].seen == s.record && s.record.status == Pending
    requires s.procs[p].call.Some? && s.procs[p].call.value.snap == s.record
    ensures var t := Do(pl, s, Save(p));
      && t.record.status == Running && t.record.attempts == s.record.attempts + 1
      && t.record.workerId == Some(s.procs[p].worker) && t.record.maxAttempts == s.record.maxAttempts
      && t.record.resumeStage == s.record.resumeStage
      && t.procs == s.procs[p := s.procs[p].(pc := Start, claimed := true, call := None, conflicts := 0)]
      && t.claims == s.claims + 1 && t.handoffs == s.handoffs
  {
  }

  lemma DecideRun(s: State)
    requires 0 in s.procs && s.procs[0].pc == Start && s.procs[0].call.None? && s.procs[0].claimed
    requires s.procs[0].lane == Some("cpu") && s.procs[0].worker == "a"
    requires s.record.status == Running && s.record.workerId == Some("a") && s.record.resumeStage.None?
    ensures var t := Run(IO_ONLY, s, DECIDE);
      && t.record == s.record && t.claims == s.claims && t.handoffs == s.handoffs
      && t.procs.Keys == s.procs.Keys && t.procs[0].call.None?
      && t.procs[0].pc == HandOver("indexing") && t.procs[0].seen == s.record
  {
    var s1 := Do(IO_ONLY, s, DECIDE[0]);
    var s2 := Do(IO_ONLY, s1, DECIDE[1]);
    var s3 := Do(IO_ONLY, s2, DECIDE[2]);
    DecideDo(s);
    hide Do;
    RunThrough(IO_ONLY, DECIDE, [s, s1, s2, s3]);
  }

  lemma DecideDo(s: State)
    requires 0 in s.procs && s.procs[0].pc == Start && s.procs[0].call.None? && s.procs[0].claimed
    requires s.procs[0].lane == Some("cpu") && s.procs[0].worker == "a"
    requires s.record.status == Running && s.record.workerId == Some("a") && s.record.resumeStage.None?
    ensures var s2 := Do(IO_ONLY, Do(IO_ONLY, s, ReadAnchor(0)), Advance(0, false, ""));
      Do(IO_ONLY, s2, Fence(0)) == s.(procs := s.procs[0 := s.procs[0].(pc := HandOver("indexing"), seen := s.record)])
  {
    var s1 := Do(IO_ONLY, s, ReadAnchor(0));
    assert s1 == s.(procs := s.procs[0 := s.procs[0].(pc := Loop(0), seen := s.record)]);
    var s2 := Do(IO_ONLY, s1, Advance(0, false, ""));
    var outcome := Handoff("io", "indexing");
    assert s2.procs == s.procs[0 := s.procs[0].(pc := Finish(outcome), seen := s.record)];
    var s3 := Do(IO_ONLY, s2, Fence(0));
    assert s3.procs == s.procs[0 := s.procs[0].(pc := HandOver("indexing"), seen := s.record)];
  }

  lemma SweepRun(s: State, p: nat, now: int)
    requires p !in s.procs && s.record.status == Running && s.record.attempts < s.record.maxAttempts
    ensures var t := Run(IO_ONLY, s, SweepBy(p, now));
      && t.record.status == Pending && t.record.attempts == s.record.attempts
      && t.record.maxAttempts == s.record.maxAttempts
      && t.claims == s.claims && t.handoffs == s.handoffs
      && t.procs.Keys == s.procs.Keys + {p} && (forall q :: q in s.procs ==> t.procs[q] == s.procs[q])
  {
    var steps := SweepBy(p, now);
    var s1 := Do(IO_ONLY, s, steps[0]);
    var s2 := Do(IO_ONLY, s1, steps[1]);
    var s3 := Do(IO_ONLY, s2, steps[2]);
    var s4 := Do(IO_ONLY, s3, steps[3]);
    SweepPrepared(s, p, now);
    SweepSaved(s3, p);
    hide Do;
    RunThrough(IO_ONLY, steps, [s, s1, s2, s3, s4]);
  }

  lemma SweepPrepared(s: State, p: nat, now: int)
    requires p !in s.procs && s.record.status == Running
    ensures var s2 := Do(IO_ONLY, Do(IO_ONLY, s, Spawn(p, "s", None)), Suspect(p));
      Do(IO_ONLY, s2, Load(p, now)) ==
      s.(procs := s.procs[p := Proc("s", None, false, Reclaim, s.record, Some(Call(s.record, now)), 0)])
  {
    var s1 := Do(IO_ONLY, s, Spawn(p, "s", None));
    assert s1 == s.(procs := s.procs[p := Proc("s", None, false, Idle, s.record, None, 0)]);
    var s2 := Do(IO_ONLY, s1, Suspect(p));
    assert s2.procs == s.procs[p := Proc("s", None, false, Reclaim, s.record, None, 0)];
    var s3 := Do(IO_ONLY, s2, Load(p, now));
    assert s3.procs == s.procs[p := Proc("s", None, false, Reclaim, s.record, Some(Call(s.record, now)), 0)];
  }

  lemma SweepSaved(s: State, p: nat)
    requires p in s.procs && s.procs[p].pc.Reclaim? && s.procs[p].seen == s.record && s.record.status == Running
    requires s.procs[p].call.Some? && s.procs[p].call.value.snap == s.record
    requires s.record.attempts < s.record.maxAttempts
    ensures var t := Do(IO_ONLY, s, Save(p));
      && t.record.status == Pending && t.record.attempts == s.record.attempts
      && t.record.maxAttempts == s.record.maxAttempts
      && t.claims == s.claims && t.handoffs == s.handoffs
      && t.procs == s.procs[p := s.procs[p].(pc := Idle, call := None, conflicts := 0)]
  {
  }

  lemma WriteRun(s: State)
    requires 0 in s.procs && s.procs[0].call.None? && s.procs[0].pc == HandOver("indexing")
    requires s.record.status == Running
    ensures var t := Run(IO_ONLY, s, WRITE);
      && t.record.status == Pending && t.record.attempts == Minus1(s.procs[0].seen.attempts)
      && t.record.maxAttempts == s.record.maxAttempts && t.procs.Keys == s.procs.Keys
      && t.claims == s.claims && t.handoffs == s.handoffs + 1
  {
    var s1 := Do(IO_ONLY, s, WRITE[0]);
    assert s1.procs[0].call == Some(Call(s.record, 4));
    var s2 := Do(IO_ONLY, s1, WRITE[1]);
    RunThrough(IO_ONLY, WRITE, [s, s1, s2]);
  }

  lemma LateHandOver(s: State)
    requires Initial(s) && s.record.maxAttempts == 2
    ensures var t := Run(IO_ONLY, s, LATE_HANDOVER);
      && t.record.status == Pending && t.record.attempts == 0 && t.claims == 2 && t.handoffs == 1
      && t.record.maxAttempts == 2 && t.procs.Keys == {0, 1, 2}
  {
    hide Do, Run;
    var a := ClaimBy(0, "a", Some("cpu"), 1);
    var b := ClaimBy(2, "b", Some("io"), 3);
    ClaimRun(IO_ONLY, s, 0, "a", Some("cpu"), 1);
    var s1 := Run(IO_ONLY, s, a);
    DecideRun(s1);
    var s2 := Run(IO_ONLY, s1, DECIDE);
    SweepRun(s2, 1, 2);
    var s3 := Run(IO_ONLY, s2, SweepBy(1, 2));
    ClaimRun(IO_ONLY, s3, 2, "b", Some("io"), 3);
    var s4 := Run(IO_ONLY, s3, b);
    WriteRun(s4);
    RunSplits(IO_ONLY, s, a + DECIDE + SweepBy(1, 2) + b, WRITE);
    RunSplits(IO_ONLY, s, a + DECIDE + SweepBy(1, 2), b);
    RunSplits(IO_ONLY, s, a + DECIDE, SweepBy(1, 2));
    RunSplits(IO_ONLY, s, a, DECIDE);
  }

  // A task with a budget of two attempts is claimed four times with one hand-over
  // between them, so it is tried three times without a human.
  lemma LateHandOverEscapesBudget(s: State)
    requires Initial(s) && s.record.maxAttempts == 2
    ensures var t := Run(IO_ONLY, s, LATE_HANDOVER + TWO_MORE);
      && !BudgetOk(t)
      && t.claims == 4 && t.handoffs == 1 && t.claims - t.handoffs > t.record.maxAttempts
  {
    hide Do, Run;
    LateHandOver(s);
    var s1 := Run(IO_ONLY, s, LATE_HANDOVER);
    var c, d := ClaimBy(3, "c", Some("io"), 5), ClaimBy(5, "d", Some("io"), 7);
    ClaimRun(IO_ONLY, s1, 3, "c", Some("io"), 5);
    var s2 := Run(IO_ONLY, s1, c);
    SweepRun(s2, 4, 6);
    var s3 := Run(IO_ONLY, s2, SweepBy(4, 6));
    ClaimRun(IO_ONLY, s3, 5, "d", Some("io"), 7);
    RunSplits(IO_ONLY, s, LATE_HANDOVER, TWO_MORE);
    RunSplits(IO_ONLY, s1, c + SweepBy(4, 6), d);
    RunSplits(IO_ONLY, s1, c, SweepBy(4, 6));
  }

  // A chain of states linked by the steps is the run.
  lemma RunThrough(pl: Pipeline, steps: seq<Step>, states: seq<State>)
    requires |states| == |steps| + 1
    requires forall k :: 0 <= k < |steps| ==> states[k + 1] == Do(pl, states[k], steps[k])
    ensures Run(pl, states[0], steps) == states[|steps|]
  {
    if |steps| > 0 {
      RunThrough(pl, steps[..|steps| - 1], states[..|steps|]);
    }
  }
}
