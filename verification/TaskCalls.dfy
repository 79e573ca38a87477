// What each operation does to the record, from its first read to its write.
//
// Every law is about a state of any kind, reachable or not, and compares the
// record before a process's own steps with the record after them. `OthersDoNotMatter`
// extends the laws to runs in which other processes take steps in between.
module TaskCalls {
  import opened Wrappers
  import opened TaskModels
  import opened TaskStore
  import opened TaskProtocol
  import opened TaskTheorems
  import opened TaskLanes

  // ---- Two halves of a store call ----

  // `after` is `before` with its newest stage record closed as `status`, if it was open.
  predicate ClosedAs(before: seq<StageRecord>, after: seq<StageRecord>, status: StageStatus, now: int) {
    && |after| == |before|
    && (forall i :: 0 <= i < |before| - 1 ==> after[i] == before[i])
    && (before != [] ==>
          var b, a := before[|before| - 1], after[|after| - 1];
          && (b.finishedAt.Some? ==> a == b)
          && (b.finishedAt.None? ==>
                a.finishedAt == Some(now) && a.status == status && a.stage == b.stage && a.startedAt == b.startedAt))
  }

  // Identity, input and accounting that no operation of a worker rewrites.
  predicate SameIdentity(r: Task, t: Task) {
    && t.taskId == r.taskId && t.kind == r.kind && t.idempotencyKey == r.idempotencyKey
    && t.maxAttempts == r.maxAttempts
  }

  // What the stages have produced so far.
  predicate SameWork(r: Task, t: Task) {
    t.context == r.context && t.stage == r.stage && t.startedAt == r.startedAt
  }

  lemma TwoSteps(pl: Pipeline, s: State, a: Step, b: Step)
    ensures Run(pl, s, [a, b]) == Do(pl, Do(pl, s, a), b)
  {
    assert [a, b][..1] == [a];
    assert [a][..0] == [];
    assert Run(pl, s, [a]) == Do(pl, s, a);
  }

  lemma ThreeSteps(pl: Pipeline, s: State, a: Step, b: Step, c: Step)
    ensures Run(pl, s, [a, b, c]) == Run(pl, Do(pl, s, a), [b, c])
  {
    assert [a, b, c] == [a] + [b, c];
    RunSplits(pl, s, [a], [b, c]);
    assert [a][..0] == [];
    assert Run(pl, s, [a]) == Do(pl, s, a);
  }

  lemma FourSteps(pl: Pipeline, s: State, a: Step, b: Step, c: Step, d: Step)
    ensures Run(pl, s, [a, b, c, d]) == Run(pl, Do(pl, Do(pl, s, a), b), [c, d])
  {
    assert [a, b, c, d] == [a, b] + [c, d];
    RunSplits(pl, s, [a, b], [c, d]);
    TwoSteps(pl, s, a, b);
  }

  lemma RequestIgnoresCall(pl: Pipeline, pr: Proc, call: Option<Call>)
    ensures RequestOf(pl, pr.(call := call)) == RequestOf(pl, pr)
    ensures Returned(pr.(call := call)) == Returned(pr)
  {
  }

  lemma Loads(pl: Pipeline, s: State, p: nat, now: int)
    requires p in s.procs && s.procs[p].call.None? && RequestOf(pl, s.procs[p]).Some?
    requires var q := RequestOf(pl, s.procs[p]).value;
      (q.expected.Some? ==> q.expected.value == s.record.version) && Mutate(s.record, q.m, now).Ok?
    ensures Do(pl, s, Load(p, now)) == s.(procs := s.procs[p := s.procs[p].(call := Some(Call(s.record, now)))])
  {
    hide RequestOf, Mutate;
  }

  lemma Saves(pl: Pipeline, s: State, p: nat)
    requires InCall(pl, s, p) && s.procs[p].call.value.snap == s.record
    requires Mutate(s.record, RequestOf(pl, s.procs[p]).value.m, s.procs[p].call.value.now).Ok?
    ensures var t := Do(pl, s, Save(p));
      && t.record == Committed(s.record, RequestOf(pl, s.procs[p]).value.m, s.procs[p].call.value.now)
      && t.procs == s.procs[p := Returned(s.procs[p])]
  {
    hide RequestOf, Mutate, Committed;
  }

  // An undisturbed store call applies its mutation to the row.
  lemma Writes(pl: Pipeline, s: State, p: nat, now: int)
    requires p in s.procs && s.procs[p].call.None? && RequestOf(pl, s.procs[p]).Some?
    requires var q := RequestOf(pl, s.procs[p]).value;
      (q.expected.Some? ==> q.expected.value == s.record.version) && Mutate(s.record, q.m, now).Ok?
    ensures var t := Run(pl, s, [Load(p, now), Save(p)]);
      && t.record == Committed(s.record, RequestOf(pl, s.procs[p]).value.m, now)
      && t.procs == s.procs[p := Returned(s.procs[p])]
  {
    TwoSteps(pl, s, Load(p, now), Save(p));
    var s1 := Do(pl, s, Load(p, now));
    RequestIgnoresCall(pl, s.procs[p], Some(Call(s.record, now)));
    Loads(pl, s, p, now);
    hide RequestOf, Mutate, Committed, Do, Run, Returned;
    Saves(pl, s1, p);
  }

  // A store call whose transition is not in the table, or which has nothing to write, leaves the row alone.
  lemma WritesNothing(pl: Pipeline, s: State, p: nat, now: int)
    requires p in s.procs && s.procs[p].call.None?
    requires RequestOf(pl, s.procs[p]).Some? ==> Mutate(s.record, RequestOf(pl, s.procs[p]).value.m, now).Err?
    ensures Run(pl, s, [Load(p, now), Save(p)]).record == s.record
  {
    TwoSteps(pl, s, Load(p, now), Save(p));
    var s1 := Do(pl, s, Load(p, now));
    assert s1.record == s.record && s1.procs[p].call.None?;
  }

  // ---- Other processes in between ----

  // The steps of one process.
  function Own(steps: seq<Step>, p: nat): seq<Step> {
    if |steps| == 0 then []
    else
      var last := steps[|steps| - 1];
      Own(steps[..|steps| - 1], p) + if last.p == p then [last] else []
  }

  // Nobody but `p` writes to the row.
  predicate OthersWriteNothing(pl: Pipeline, s: State, steps: seq<Step>, p: nat) {
    forall k :: 0 <= k < |steps| ==> steps[k].p == p || !Commits(pl, Run(pl, s, steps[..k]), steps[k])
  }

  // What a process can see: the row and itself.
  predicate SameView(s: State, t: State, p: nat) {
    s.record == t.record && (p in s.procs <==> p in t.procs) && (p in s.procs ==> s.procs[p] == t.procs[p])
  }

  lemma OwnStepKeepsView(pl: Pipeline, s: State, t: State, step: Step)
    requires SameView(s, t, step.p)
    ensures SameView(Do(pl, s, step), Do(pl, t, step), step.p)
  {
  }

  lemma QuietStepKeepsView(pl: Pipeline, s: State, step: Step, p: nat)
    requires step.p != p && !Commits(pl, s, step)
    ensures SameView(s, Do(pl, s, step), p)
  {
  }

  // Whatever the others do short of writing to the row, the record and the process
  // end up as if the process had run alone.
  lemma {:induction false} OthersDoNotMatter(pl: Pipeline, s: State, steps: seq<Step>, p: nat)
    requires OthersWriteNothing(pl, s, steps, p)
    ensures SameView(Run(pl, s, steps), Run(pl, s, Own(steps, p)), p)
  {
    if |steps| > 0 {
      hide Do, Commits;
      var n := |steps| - 1;
      var step := steps[n];
      forall k | 0 <= k < n
        ensures steps[..n][k].p == p || !Commits(pl, Run(pl, s, steps[..n][..k]), steps[..n][k])
      {
        assert steps[..n][..k] == steps[..k];
      }
      OthersDoNotMatter(pl, s, steps[..n], p);
      var t, u := Run(pl, s, steps[..n]), Run(pl, s, Own(steps[..n], p));
      if step.p == p {
        OwnStepKeepsView(pl, t, u, step);
        var own := Own(steps, p);
        assert own[..|own| - 1] == Own(steps[..n], p) && own[|own| - 1] == step;
      } else {
        QuietStepKeepsView(pl, t, step, p);
        assert Own(steps, p) == Own(steps[..n], p);
      }
    }
  }

  // ---- What a transition writes ----

  // A transition on the record alone, without the timestamps that only the interface shows.
  lemma MoveWrites(r: Task, to: Status, f: Fields, now: int)
    requires CanTransition(r.status, to) && f.workerId.None?
    ensures Mutate(r, Move(to, f), now).Ok?
    ensures var t := Committed(r, Move(to, f), now);
      && t.status == to && t.version == r.version + 1 && t.updatedAt == now
      && SameIdentity(r, t) && t.stage == r.stage && t.message == OrElse(f.message, r.message)
      && t.attempts == OrElse(f.attempts, r.attempts)
      && t.error == OrElse(f.error, r.error)
      && t.result == (if f.result.Some? then f.result else r.result)
      && t.context == OrElse(f.context, r.context)
      && (to != Running ==> t.startedAt == r.startedAt)
      && t.progress == (if to == Succeeded then 1.0 else OrElse(f.progress, r.progress))
      && t.workerId == (if to == Pending then None else r.workerId)
      && (to.IsTerminal() ==> t.finishedAt == Some(now) && t.heartbeatAt.None?)
      && (to == Pending ==> t.finishedAt.None? && t.heartbeatAt.None?)
      && (to == Cancelling ==> t.finishedAt == r.finishedAt && t.heartbeatAt == r.heartbeatAt)
      && t.resumeStage == (if f.resumeStage.Some? then f.resumeStage.value
                           else if (to == Pending || to == Failed) && r.resumeStage.None? then r.stage
                           else r.resumeStage)
      && (to == Succeeded ==> ClosedAs(r.history, t.history, StageSucceeded, now))
      && (to == Failed || (to == Pending && t.error.Some?) ==> ClosedAs(r.history, t.history, StageFailed, now))
      && (to == Cancelled ==> ClosedAs(r.history, t.history, StageCancelled, now))
      && (to == Cancelling || (to == Pending && t.error.None?) ==> t.history == r.history)
  {
  }

  // ---- Failure ----

  predicate Owns(s: State, p: nat) {
    p in s.procs && s.record.workerId == Some(s.procs[p].worker)
  }

  // A worker whose runner raises puts the task back into the queue exactly when the
  // error is retriable and an attempt is left; otherwise the task has failed. Either
  // way the error and the stage to resume at are on the record.
  lemma FailureDecides(pl: Pipeline, s: State, p: nat, error: TaskError, now: int)
    requires Owns(s, p) && InRunner(s.procs[p].pc) && s.record.status == Running
    ensures var r, t := s.record, Run(pl, s, [RunnerRaises(p, error), Fence(p), Load(p, now), Save(p)]).record;
      && (t.status == Pending <==> error.retriable && r.attempts < r.maxAttempts)
      && (t.status == Failed <==> !(error.retriable && r.attempts < r.maxAttempts))
      && t.error == Some(error) && t.resumeStage == r.stage
      && ClosedAs(r.history, t.history, StageFailed, now)
      && t.attempts == r.attempts && t.version == r.version + 1 && t.heartbeatAt.None?
      && t.workerId == (if t.status == Pending then None else r.workerId)
      && t.finishedAt == (if t.status == Pending then None else Some(now))
      && SameIdentity(r, t) && SameWork(r, t) && t.result == r.result && t.progress == r.progress
  {
    FourSteps(pl, s, RunnerRaises(p, error), Fence(p), Load(p, now), Save(p));
    var s1 := Do(pl, s, RunnerRaises(p, error));
    assert s1.procs[p].pc == Fail(error) && s1.procs[p].call.None?;
    var s2 := Do(pl, s1, Fence(p));
    assert s2.procs[p].call.None? && s2.procs[p].seen == s.record && s2.record == s.record;
    hide Do, Run;
    MoveWrites(s.record, RequestOf(pl, s2.procs[p]).value.m.to, RequestOf(pl, s2.procs[p]).value.m.fields, now);
    hide Mutate, Committed, ClosedAs;
    Writes(pl, s2, p, now);
  }

  // The same at the end of any run of the system.
  lemma FailureDecidesAfterAnyRun(
    pl: Pipeline, s: State, steps: seq<Step>, p: nat, error: TaskError, now: int)
    requires Initial(s)
    requires var u := Run(pl, s, steps); Owns(u, p) && InRunner(u.procs[p].pc) && u.record.status == Running
    ensures var r, t := Run(pl, s, steps).record,
        Run(pl, s, steps + [RunnerRaises(p, error), Fence(p), Load(p, now), Save(p)]).record;
      && (t.status == Pending <==> error.retriable && r.attempts < r.maxAttempts)
      && (t.status == Failed <==> !(error.retriable && r.attempts < r.maxAttempts))
      && t.error == Some(error) && t.resumeStage == r.stage && t.attempts == r.attempts
      && ClosedAs(r.history, t.history, StageFailed, now)
      && t.workerId == (if t.status == Pending then None else r.workerId)
  {
    RunSplits(pl, s, steps, [RunnerRaises(p, error), Fence(p), Load(p, now), Save(p)]);
    hide Run, ClosedAs;
    FailureDecides(pl, Run(pl, s, steps), p, error, now);
  }

  // A retriable failure while the task is being cancelled has no way back into the
  // queue: the record stays as it is until the task is swept. Any other failure ends it.
  lemma FailureWhileCancelling(pl: Pipeline, s: State, p: nat, error: TaskError, now: int)
    requires Owns(s, p) && InRunner(s.procs[p].pc) && s.record.status == Cancelling
    ensures var r, t := s.record, Run(pl, s, [RunnerRaises(p, error), Fence(p), Load(p, now), Save(p)]).record;
      && (error.retriable && r.attempts < r.maxAttempts ==> t == r)
      && (!(error.retriable && r.attempts < r.maxAttempts) ==>
            t.status == Failed && t.error == Some(error) && t.resumeStage == r.stage
            && ClosedAs(r.history, t.history, StageFailed, now) && t.attempts == r.attempts)
  {
    FourSteps(pl, s, RunnerRaises(p, error), Fence(p), Load(p, now), Save(p));
    var s1 := Do(pl, s, RunnerRaises(p, error));
    assert s1.procs[p].pc == Fail(error) && s1.procs[p].call.None?;
    var s2 := Do(pl, s1, Fence(p));
    assert s2.procs[p].call.None? && s2.procs[p].seen == s.record && s2.record == s.record;
    hide Do, Run;
    if error.retriable && s.record.attempts < s.record.maxAttempts {
      WritesNothing(pl, s2, p, now);
    } else {
      MoveWrites(s.record, Failed, RequestOf(pl, s2.procs[p]).value.m.fields, now);
      hide Mutate, Committed, ClosedAs;
      Writes(pl, s2, p, now);
    }
  }

  // The fence: a worker that claimed the task and no longer owns the row writes nothing,
  // whether it has finished, hands over, failed or was cancelled.
  predicate Settles(pc: Pc) {
    pc.Finish? || pc.Fail? || pc.MarkCancelled?
  }

  lemma StaleWorkerWritesNothing(pl: Pipeline, s: State, p: nat, now: int)
    requires p in s.procs && s.procs[p].claimed && s.record.workerId != Some(s.procs[p].worker)
    requires Settles(s.procs[p].pc) && s.procs[p].call.None?
    ensures Run(pl, s, [Fence(p), Load(p, now), Save(p)]).record == s.record
  {
    ThreeSteps(pl, s, Fence(p), Load(p, now), Save(p));
    var s1 := Do(pl, s, Fence(p));
    assert s1.record == s.record && s1.procs[p].pc == Idle && s1.procs[p].call.None?;
    hide Do, Run;
    WritesNothing(pl, s1, p, now);
  }

  // A queued task of a kind that nobody runs fails for good.
  lemma UnknownKindFails(pl: Pipeline, s: State, p: nat, now: int)
    requires p in s.procs && s.procs[p].pc.Idle? && s.procs[p].call.None? && s.record.status == Pending
    ensures var r, t := s.record, Run(pl, s, [Fetch(p, false), Fence(p), Load(p, now), Save(p)]).record;
      && t.status == Failed && t.error == Some(UNKNOWN_KIND) && t.resumeStage == r.stage
      && t.finishedAt == Some(now) && t.attempts == r.attempts && SameIdentity(r, t) && SameWork(r, t)
      && ClosedAs(r.history, t.history, StageFailed, now)
  {
    FourSteps(pl, s, Fetch(p, false), Fence(p), Load(p, now), Save(p));
    var s1 := Do(pl, s, Fetch(p, false));
    assert s1.procs[p].pc == Fail(UNKNOWN_KIND) && s1.procs[p].call.None? && !s1.procs[p].claimed;
    var s2 := Do(pl, s1, Fence(p));
    assert s2.procs[p].pc == Die(UNKNOWN_KIND) && s2.procs[p].call.None? && s2.procs[p].seen == s.record && s2.record == s.record;
    hide Do, Run;
    MoveWrites(s.record, Failed, RequestOf(pl, s2.procs[p]).value.m.fields, now);
    hide Mutate, Committed, ClosedAs;
    Writes(pl, s2, p, now);
  }

  // ---- Claim ----

  // A claim takes the task out of the queue for its worker, counts an attempt and forgets the last error.
  lemma ClaimTakes(pl: Pipeline, s: State, p: nat, now: int)
    requires p in s.procs && s.procs[p].pc.Idle? && s.procs[p].call.None? && s.record.status == Pending
    ensures var u := Run(pl, s, [Fetch(p, true), Load(p, now), Save(p)]); var r, t := s.record, u.record;
      && t.status == Running && t.workerId == Some(s.procs[p].worker) && t.attempts == r.attempts + 1
      && t.error.None? && t.resumeStage == r.resumeStage && t.history == r.history
      && t.finishedAt.None? && t.heartbeatAt == Some(now)
      && t.startedAt == (if r.startedAt.Some? then r.startedAt else Some(now))
      && SameIdentity(r, t) && t.context == r.context && t.stage == r.stage && t.version == r.version + 1
      && u.procs == s.procs[p := s.procs[p].(pc := Start, claimed := true, seen := r, call := None, conflicts := 0)]
  {
    ThreeSteps(pl, s, Fetch(p, true), Load(p, now), Save(p));
    var s1 := Do(pl, s, Fetch(p, true));
    assert s1 == s.(procs := s.procs[p := s.procs[p].(pc := Claim, claimed := false, seen := s.record)]);
    hide Do, Run;
    Writes(pl, s1, p, now);
  }

  // A task that is not queued cannot be claimed.
  lemma NothingToClaim(pl: Pipeline, s: State, p: nat, known: bool, now: int)
    requires p in s.procs && s.procs[p].pc.Idle? && s.procs[p].call.None? && s.record.status != Pending
    ensures Run(pl, s, [Fetch(p, known), Load(p, now), Save(p)]).record == s.record
  {
    ThreeSteps(pl, s, Fetch(p, known), Load(p, now), Save(p));
    var s1 := Do(pl, s, Fetch(p, known));
    assert s1.procs[p] == s.procs[p] && s1.record == s.record;
    hide Do, Run;
    WritesNothing(pl, s1, p, now);
  }

  // ---- The stage loop ----

  // A worker at the top of the loop records the next stage and goes into its body:
  // the stage before is closed as succeeded, the new one is open.
  lemma StageBegins(pl: Pipeline, s: State, p: nat, i: nat, now: int)
    requires p in s.procs && s.procs[p].pc == Loop(i) && s.procs[p].call.None? && i < |pl|
    requires s.record.status != Cancelling && !Foreign(pl[i], s.procs[p].lane)
    ensures var u := Run(pl, s, [Advance(p, false, ""), Load(p, now), Save(p)]); var r, t := s.record, u.record;
      && p in u.procs && u.procs[p].pc == Body(i)
      && t.stage == Some(pl[i].name) && t.progress == i as real / |pl| as real
      && |t.history| == |r.history| + 1
      && t.history[|r.history|] == StageRecord(pl[i].name, now, None, StageRunning)
      && ClosedAs(r.history, t.history[..|r.history|], StageSucceeded, now)
      && t.status == r.status && t.workerId == r.workerId && t.attempts == r.attempts
      && t.resumeStage == r.resumeStage && t.error == r.error && t.version == r.version + 1
      && SameIdentity(r, t) && t.context == r.context && t.result == r.result
  {
    ThreeSteps(pl, s, Advance(p, false, ""), Load(p, now), Save(p));
    var s1 := Do(pl, s, Advance(p, false, ""));
    assert s1.record == s.record && s1.procs[p] == s.procs[p].(pc := Enter(i));
    hide Do, Run;
    Writes(pl, s1, p, now);
  }

  // When the checkpoint is due, the lease is renewed first, and that is all it writes.
  lemma CheckpointRenews(pl: Pipeline, s: State, p: nat, i: nat, now: int)
    requires p in s.procs && s.procs[p].pc == Loop(i) && s.procs[p].call.None? && i < |pl|
    requires s.record.status != Cancelling && !Foreign(pl[i], s.procs[p].lane)
    ensures var u := Run(pl, s, [Advance(p, true, ""), Load(p, now), Save(p)]);
      && u.record == s.record.(heartbeatAt := Some(now))
      && p in u.procs && u.procs[p].pc == Enter(i)
  {
    ThreeSteps(pl, s, Advance(p, true, ""), Load(p, now), Save(p));
    var s1 := Do(pl, s, Advance(p, true, ""));
    assert s1.record == s.record && s1.procs[p] == s.procs[p].(pc := Beat(i));
    hide Do, Run;
    Writes(pl, s1, p, now);
  }

  // A stage body writes its own fields and nothing else.
  lemma BodyWrites(pl: Pipeline, s: State, p: nat, f: Fields, now: int)
    requires p in s.procs && s.procs[p].pc.Body? && s.procs[p].call.None? && BodyFields(f)
    ensures var u := Run(pl, s, [BodyReports(p, f), Load(p, now), Save(p)]);
      && u.record == s.record.(
           context := OrElse(f.context, s.record.context), progress := OrElse(f.progress, s.record.progress),
           message := OrElse(f.message, s.record.message), updatedAt := now, version := s.record.version + 1)
      && p in u.procs && u.procs[p].pc == s.procs[p].pc
  {
    ThreeSteps(pl, s, BodyReports(p, f), Load(p, now), Save(p));
    var s1 := Do(pl, s, BodyReports(p, f));
    assert s1.record == s.record && s1.procs[p] == s.procs[p].(pc := Report(s.procs[p].pc.i, f));
    hide Do, Run;
    Writes(pl, s1, p, now);
  }

  // A task that is being cancelled is stopped at the checkpoint of the next stage it may run.
  lemma CheckpointCancels(pl: Pipeline, s: State, p: nat, i: nat, beat: bool, now: int)
    requires Owns(s, p) && s.procs[p].pc == Loop(i) && s.procs[p].call.None? && i < |pl|
    requires s.record.status == Cancelling && !Foreign(pl[i], s.procs[p].lane)
    ensures var r, t := s.record, Run(pl, s, [Advance(p, beat, ""), Fence(p), Load(p, now), Save(p)]).record;
      && t.status == Cancelled && t.error == Some(CANCELLED_ERROR) && t.finishedAt == Some(now)
      && ClosedAs(r.history, t.history, StageCancelled, now)
      && t.attempts == r.attempts && t.resumeStage == r.resumeStage && t.workerId == r.workerId
      && SameIdentity(r, t) && SameWork(r, t) && t.result == r.result
  {
    FourSteps(pl, s, Advance(p, beat, ""), Fence(p), Load(p, now), Save(p));
    var s1 := Do(pl, s, Advance(p, beat, ""));
    assert s1.record == s.record && s1.procs[p] == s.procs[p].(pc := MarkCancelled);
    CancelMarks(pl, s1, p, now);
    hide Do, Run, ClosedAs;
    ThreeSteps(pl, s1, Fence(p), Load(p, now), Save(p));
  }

  // A coroutine that is cancelled from outside settles in the same way; but a task that
  // nobody asked to cancel stays as it is, for there is no way from RUNNING to CANCELLED.
  lemma CancelMarks(pl: Pipeline, s: State, p: nat, now: int)
    requires p in s.procs && (s.procs[p].claimed ==> Owns(s, p))
    requires s.procs[p].pc == MarkCancelled && s.procs[p].call.None?
    ensures var r, t := s.record, Run(pl, s, [Fence(p), Load(p, now), Save(p)]).record;
      && (r.status == Pending || r.status == Cancelling ==>
            && t.status == Cancelled && t.error == Some(CANCELLED_ERROR) && t.finishedAt == Some(now)
            && ClosedAs(r.history, t.history, StageCancelled, now)
            && t.attempts == r.attempts && t.resumeStage == r.resumeStage && t.workerId == r.workerId
            && SameIdentity(r, t) && SameWork(r, t) && t.result == r.result)
      && (r.status != Pending && r.status != Cancelling ==> t == r)
  {
    ThreeSteps(pl, s, Fence(p), Load(p, now), Save(p));
    var s1 := Do(pl, s, Fence(p));
    assert s1.record == s.record && s1.procs[p].call.None?;
    if s.record.status.IsTerminal() {
      assert s1.procs[p].pc.MarkCancelled? || s1.procs[p].pc.Idle?;
      hide Do, Run;
      WritesNothing(pl, s1, p, now);
    } else {
      assert s1.procs[p].pc == Drop;
      hide Do, Run;
      if s.record.status == Running {
        WritesNothing(pl, s1, p, now);
      } else {
        MoveWrites(s.record, Cancelled, RequestOf(pl, s1.procs[p]).value.m.fields, now);
        hide Mutate, Committed, ClosedAs;
        Writes(pl, s1, p, now);
      }
    }
  }

  // ---- Success and hand-over ----

  // A worker that has run the last stage, or whose stage gave the final result, leaves the
  // task succeeded, even if it was asked to cancel in the meantime.
  lemma SuccessSettles(pl: Pipeline, s: State, p: nat, result: string, now: int)
    requires Owns(s, p) && s.procs[p].pc == Finish(Done(result)) && s.procs[p].call.None? && s.record.status.IsActive()
    ensures var r, t := s.record, Run(pl, s, [Fence(p), Load(p, now), Save(p)]).record;
      && t.status == Succeeded && t.result == Some(result) && t.resumeStage.None? && t.progress == 1.0
      && ClosedAs(r.history, t.history, StageSucceeded, now)
      && t.finishedAt == Some(now) && t.attempts == r.attempts && t.error == r.error && t.workerId == r.workerId
      && SameIdentity(r, t) && SameWork(r, t)
  {
    ThreeSteps(pl, s, Fence(p), Load(p, now), Save(p));
    var s1 := Do(pl, s, Fence(p));
    assert s1.record == s.record && s1.procs[p].call.None? && s1.procs[p].pc == Succeed(result);
    hide Do, Run;
    MoveWrites(s.record, Succeeded, RequestOf(pl, s1.procs[p]).value.m.fields, now);
    hide Mutate, Committed, ClosedAs;
    Writes(pl, s1, p, now);
  }

  // Which outcome a worker at the top of the loop reaches: the end of the pipeline, or a stage of another lane.
  lemma LoopEnds(pl: Pipeline, s: State, p: nat, i: nat, beat: bool, result: string)
    requires p in s.procs && s.procs[p].pc == Loop(i)
    ensures var u := Do(pl, s, Advance(p, beat, result));
      && u.record == s.record
      && (u.procs[p].pc == Finish(Done(result)) <==> i >= |pl|)
      && (u.procs[p].pc.Finish? && u.procs[p].pc.outcome.Handoff? <==> i < |pl| && Foreign(pl[i], s.procs[p].lane))
      && (i < |pl| && Foreign(pl[i], s.procs[p].lane) ==>
            u.procs[p].pc.outcome.lane == pl[i].lane.value && u.procs[p].pc.outcome.resumeStage == pl[i].name)
  {
  }

  // A hand-over puts the task back into the queue at the foreign stage and gives the attempt
  // back; a task that is no longer running stays as it is.
  lemma HandOverSettles(pl: Pipeline, s: State, p: nat, lane: string, name: string, now: int)
    requires Owns(s, p) && s.procs[p].pc == Finish(Handoff(lane, name)) && s.procs[p].call.None?
    ensures var r, t := s.record, Run(pl, s, [Fence(p), Load(p, now), Save(p)]).record;
      && (r.status == Running ==>
            && t.status == Pending && t.resumeStage == Some(name) && t.workerId.None?
            && t.attempts == (if r.attempts == 0 then 0 else r.attempts - 1)
            && t.error == r.error && (r.error.None? ==> t.history == r.history)
            && t.finishedAt.None? && t.heartbeatAt.None?
            && SameIdentity(r, t) && SameWork(r, t) && t.result == r.result && t.progress == r.progress)
      && (r.status != Running ==> t == r)
  {
    ThreeSteps(pl, s, Fence(p), Load(p, now), Save(p));
    var s1 := Do(pl, s, Fence(p));
    assert s1.record == s.record && s1.procs[p].call.None?;
    if s.record.status == Running {
      assert s1.procs[p].pc == HandOver(name) && s1.procs[p].seen == s.record;
      hide Do, Run;
      MoveWrites(s.record, Pending, RequestOf(pl, s1.procs[p]).value.m.fields, now);
      hide Mutate, Committed, ClosedAs;
      Writes(pl, s1, p, now);
    } else {
      assert s1.procs[p].pc == Idle;
      hide Do, Run;
      WritesNothing(pl, s1, p, now);
    }
  }

  // ---- The world outside: cancel requests, sweeps, retries ----

  // A cancel request stops a queued task at once and asks a running one to stop; any other stays as it is.
  lemma CancelRequest(pl: Pipeline, s: State, p: nat, now: int)
    requires p in s.procs && s.procs[p].pc.Idle? && s.procs[p].call.None?
    ensures var r, t := s.record, Run(pl, s, [AskCancel(p), Load(p, now), Save(p)]).record;
      && (r.status == Pending ==>
            && t.status == Cancelled && t.error == Some(CANCELLED_ERROR) && t.finishedAt == Some(now)
            && ClosedAs(r.history, t.history, StageCancelled, now) && t.workerId == r.workerId
            && t.attempts == r.attempts && t.resumeStage == r.resumeStage && SameIdentity(r, t) && SameWork(r, t))
      && (r.status == Running ==>
            && t.status == Cancelling && t.workerId == r.workerId && t.history == r.history && t.error == r.error
            && t.attempts == r.attempts && t.resumeStage == r.resumeStage && t.finishedAt == r.finishedAt
            && t.heartbeatAt == r.heartbeatAt && SameIdentity(r, t) && SameWork(r, t))
      && (r.status != Pending && r.status != Running ==> t == r)
  {
    ThreeSteps(pl, s, AskCancel(p), Load(p, now), Save(p));
    var s1 := Do(pl, s, AskCancel(p));
    assert s1.record == s.record && s1.procs[p].call.None?;
    if s.record.status == Pending {
      assert s1.procs[p].pc == AcceptPending;
      hide Do, Run;
      MoveWrites(s.record, Cancelled, RequestOf(pl, s1.procs[p]).value.m.fields, now);
      hide Mutate, Committed, ClosedAs;
      Writes(pl, s1, p, now);
    } else if s.record.status == Running {
      assert s1.procs[p].pc == AcceptRunning;
      hide Do, Run;
      MoveWrites(s.record, Cancelling, RequestOf(pl, s1.procs[p]).value.m.fields, now);
      hide Mutate, Committed, ClosedAs;
      Writes(pl, s1, p, now);
    } else {
      assert s1.procs[p] == s.procs[p];
      hide Do, Run;
      WritesNothing(pl, s1, p, now);
    }
  }

  // A sweep of a stale task: a cancelling one is stopped, a running one goes back into the
  // queue if an attempt is left and has failed otherwise. It resumes at the stage it was in,
  // unless an anchor is already there.
  lemma SweepDecides(pl: Pipeline, s: State, p: nat, now: int)
    requires p in s.procs && s.procs[p].pc.Idle? && s.procs[p].call.None?
    ensures var r, t := s.record, Run(pl, s, [Suspect(p), Load(p, now), Save(p)]).record;
      && (r.status == Running ==>
            && (t.status == Pending <==> r.attempts < r.maxAttempts)
            && (t.status == Failed <==> r.attempts >= r.maxAttempts)
            && t.error == Some(LEASE_ERROR) && t.attempts == r.attempts
            && t.resumeStage == (if r.resumeStage.Some? then r.resumeStage else r.stage)
            && ClosedAs(r.history, t.history, StageFailed, now)
            && t.workerId == (if t.status == Pending then None else r.workerId)
            && t.finishedAt == (if t.status == Pending then None else Some(now)) && t.heartbeatAt.None?
            && SameIdentity(r, t) && SameWork(r, t) && t.result == r.result)
      && (r.status == Cancelling ==>
            && t.status == Cancelled && t.error == Some(CANCEL_LEASE_ERROR) && t.finishedAt == Some(now)
            && ClosedAs(r.history, t.history, StageCancelled, now)
            && t.attempts == r.attempts && t.resumeStage == r.resumeStage && SameIdentity(r, t) && SameWork(r, t))
      && (!r.status.IsActive() ==> t == r)
  {
    ThreeSteps(pl, s, Suspect(p), Load(p, now), Save(p));
    var s1 := Do(pl, s, Suspect(p));
    assert s1.record == s.record && s1.procs[p].call.None?;
    if s.record.status.IsActive() {
      assert s1.procs[p].pc == Reclaim && s1.procs[p].seen == s.record;
      hide Do, Run;
      MoveWrites(s.record, RequestOf(pl, s1.procs[p]).value.m.to, RequestOf(pl, s1.procs[p]).value.m.fields, now);
      hide Mutate, Committed, ClosedAs;
      Writes(pl, s1, p, now);
    } else {
      assert s1.procs[p] == s.procs[p];
      hide Do, Run;
      WritesNothing(pl, s1, p, now);
    }
  }

  // A manual retry reopens a failed task and no other. It keeps what the stages produced, and
  // the place to resume at unless it starts from scratch.
  lemma RetryReopens(pl: Pipeline, s: State, p: nat, reset: bool, scratch: bool, now: int)
    requires p in s.procs && s.procs[p].pc.Idle? && s.procs[p].call.None?
    ensures var r, t := s.record, Run(pl, s, [AskRetry(p, reset, scratch), Load(p, now), Save(p)]).record;
      && (r.status == Failed ==>
            && t.status == Pending && t.error.None? && t.workerId.None? && t.finishedAt.None?
            && t.attempts == (if reset then 0 else r.attempts)
            && t.resumeStage == (if scratch then None else if r.resumeStage.Some? then r.resumeStage else r.stage)
            && t.history == r.history && SameIdentity(r, t) && SameWork(r, t))
      && (r.status != Failed ==> t == r)
  {
    ThreeSteps(pl, s, AskRetry(p, reset, scratch), Load(p, now), Save(p));
    var s1 := Do(pl, s, AskRetry(p, reset, scratch));
    assert s1.record == s.record && s1.procs[p].call.None?;
    if s.record.status == Failed {
      assert s1.procs[p].pc == Reopen(reset, scratch);
      hide Do, Run;
      MoveWrites(s.record, Pending, RequestOf(pl, s1.procs[p]).value.m.fields, now);
      hide Mutate, Committed, ClosedAs;
      Writes(pl, s1, p, now);
    } else {
      assert s1.procs[p] == s.procs[p];
      hide Do, Run;
      WritesNothing(pl, s1, p, now);
    }
  }

  // A coroutine cancelled anywhere inside the executor settles as a cancelled one, also
  // when the answer to its own claim was lost on the way.
  lemma InterruptSettles(pl: Pipeline, s: State, p: nat, lostAck: bool, now: int)
    requires Owns(s, p) && InTry(s.procs[p].pc)
    ensures var r, t := s.record, Run(pl, s, [Interrupt(p, lostAck), Fence(p), Load(p, now), Save(p)]).record;
      && (r.status == Pending || r.status == Cancelling ==>
            && t.status == Cancelled && t.error == Some(CANCELLED_ERROR) && t.finishedAt == Some(now)
            && ClosedAs(r.history, t.history, StageCancelled, now)
            && t.attempts == r.attempts && t.resumeStage == r.resumeStage && SameWork(r, t))
      && (r.status != Pending && r.status != Cancelling ==> t == r)
  {
    FourSteps(pl, s, Interrupt(p, lostAck), Fence(p), Load(p, now), Save(p));
    var s1 := Do(pl, s, Interrupt(p, lostAck));
    assert s1.record == s.record && s1.procs[p].pc == MarkCancelled && s1.procs[p].call.None? && Owns(s1, p);
    hide Do, Run, ClosedAs;
    ThreeSteps(pl, s1, Fence(p), Load(p, now), Save(p));
    CancelMarks(pl, s1, p, now);
  }

  // A worker that has lost the row writes nothing when it is cancelled; but one that is cancelled
  // while the answer to its claim is lost does not know that it has claimed, and no fence stops it.
  lemma InterruptedAfterLosingTheRow(pl: Pipeline, s: State, p: nat, lostAck: bool, now: int)
    requires p in s.procs && InTry(s.procs[p].pc) && s.procs[p].claimed
    requires s.record.workerId != Some(s.procs[p].worker)
    ensures var r, t := s.record, Run(pl, s, [Interrupt(p, lostAck), Fence(p), Load(p, now), Save(p)]).record;
      if s.procs[p].pc.Start? && lostAck && (r.status == Pending || r.status == Cancelling) then
        t.status == Cancelled && t.error == Some(CANCELLED_ERROR)
      else t == r
  {
    FourSteps(pl, s, Interrupt(p, lostAck), Fence(p), Load(p, now), Save(p));
    var s1 := Do(pl, s, Interrupt(p, lostAck));
    assert s1.record == s.record && s1.procs[p].pc == MarkCancelled && s1.procs[p].call.None?;
    assert s1.procs[p].claimed == !(s.procs[p].pc.Start? && lostAck) && s1.procs[p].worker == s.procs[p].worker;
    hide Do, Run, ClosedAs;
    ThreeSteps(pl, s1, Fence(p), Load(p, now), Save(p));
    if s1.procs[p].claimed {
      StaleWorkerWritesNothing(pl, s1, p, now);
    } else {
      CancelMarks(pl, s1, p, now);
    }
  }

  // A coroutine that is cancelled before it reaches the executor does not own the row, so it writes nothing.
  lemma StrayCancelWritesNothing(pl: Pipeline, s: State, p: nat, now: int)
    requires p in s.procs && s.procs[p].pc.Idle? && s.procs[p].call.None?
    requires s.record.workerId != Some(s.procs[p].worker)
    ensures Run(pl, s, [MarkStray(p), Fence(p), Load(p, now), Save(p)]).record == s.record
  {
    FourSteps(pl, s, MarkStray(p), Fence(p), Load(p, now), Save(p));
    var s1 := Do(pl, s, MarkStray(p));
    assert s1.record == s.record && s1.procs[p] == s.procs[p].(pc := MarkCancelled, claimed := true);
    hide Do, Run;
    ThreeSteps(pl, s1, Fence(p), Load(p, now), Save(p));
    StaleWorkerWritesNothing(pl, s1, p, now);
  }

  // ---- Lost races ----

  // A save that finds a newer row writes nothing. The call starts over, except that a claim gives
  // up at once and any other call after its fifth lost race in a row. What gives up inside the
  // executor's try block ends as a failure of the task, elsewhere it just ends.
  lemma LostRace(pl: Pipeline, s: State, p: nat)
    requires InCall(pl, s, p) && s.procs[p].call.value.snap.version != s.record.version
    ensures var pr, t := s.procs[p], Do(pl, s, Save(p));
      && t.record == s.record && p in t.procs && t.procs[p].call.None?
      && var over := pr.pc.Claim? || pr.conflicts >= 4;
      && (!over ==> t.procs[p].pc == pr.pc && t.procs[p].conflicts == pr.conflicts + 1)
      && (over ==>
            && t.procs[p].conflicts == 0
            && t.procs[p].pc == (if InRunner(pr.pc) || pr.pc.Succeed? || pr.pc.HandOver? then Fail(STORE_ERROR) else Idle))
  {
  }

  // ---- Whole attempts ----

  // The last stage returns, the loop ends, and the task has succeeded with the result at the end.
  lemma LastStageSucceeds(pl: Pipeline, s: State, p: nat, beat: bool, result: string, now: int)
    requires Owns(s, p) && s.record.status == Running
    requires s.procs[p].pc.Body? && s.procs[p].pc.i == |pl| - 1 && s.procs[p].call.None?
    ensures var r, t := s.record,
        Run(pl, s, [BodyReturns(p, None), Advance(p, beat, result)] + [Fence(p), Load(p, now), Save(p)]).record;
      && t.status == Succeeded && t.result == Some(result) && t.resumeStage.None? && t.attempts == r.attempts
      && ClosedAs(r.history, t.history, StageSucceeded, now)
  {
    RunSplits(pl, s, [BodyReturns(p, None), Advance(p, beat, result)], [Fence(p), Load(p, now), Save(p)]);
    TwoSteps(pl, s, BodyReturns(p, None), Advance(p, beat, result));
    var s1 := Do(pl, s, BodyReturns(p, None));
    assert s1.record == s.record && s1.procs[p] == s.procs[p].(pc := Loop(|pl|));
    var s2 := Do(pl, s1, Advance(p, beat, result));
    assert s2.record == s.record && s2.procs[p] == s.procs[p].(pc := Finish(Done(result)));
    hide Do, Run, ClosedAs;
    SuccessSettles(pl, s2, p, result, now);
  }

  // A stage that returns the final result ends the task there.
  lemma EarlyResultSucceeds(pl: Pipeline, s: State, p: nat, result: string, now: int)
    requires Owns(s, p) && s.record.status == Running && s.procs[p].pc.Body? && s.procs[p].call.None?
    ensures var r, t := s.record, Run(pl, s, [BodyReturns(p, Some(result)), Fence(p), Load(p, now), Save(p)]).record;
      && t.status == Succeeded && t.result == Some(result) && t.resumeStage.None? && t.attempts == r.attempts
      && ClosedAs(r.history, t.history, StageSucceeded, now)
  {
    FourSteps(pl, s, BodyReturns(p, Some(result)), Fence(p), Load(p, now), Save(p));
    var s1 := Do(pl, s, BodyReturns(p, Some(result)));
    assert s1.record == s.record && s1.procs[p] == s.procs[p].(pc := Finish(Done(result)));
    hide Do, Run, ClosedAs;
    ThreeSteps(pl, s1, Fence(p), Load(p, now), Save(p));
    SuccessSettles(pl, s1, p, result, now);
  }

  // After a stage in the middle comes the next one.
  lemma NextStageBegins(pl: Pipeline, s: State, p: nat, i: nat, now: int)
    requires p in s.procs && s.procs[p].pc == Body(i) && s.procs[p].call.None? && i + 1 < |pl|
    requires s.record.status != Cancelling && !Foreign(pl[i + 1], s.procs[p].lane)
    ensures var u := Run(pl, s, [BodyReturns(p, None), Advance(p, false, ""), Load(p, now), Save(p)]);
      p in u.procs && u.procs[p].pc == Body(i + 1) && u.record.stage == Some(pl[i + 1].name)
      && |u.record.history| == |s.record.history| + 1
      && ClosedAs(s.record.history, u.record.history[..|s.record.history|], StageSucceeded, now)
  {
    FourSteps(pl, s, BodyReturns(p, None), Advance(p, false, ""), Load(p, now), Save(p));
    var s1 := Do(pl, s, BodyReturns(p, None));
    assert s1.record == s.record && s1.procs[p] == s.procs[p].(pc := Loop(i + 1));
    hide Do, Run, ClosedAs;
    ThreeSteps(pl, s1, Advance(p, false, ""), Load(p, now), Save(p));
    StageBegins(pl, s1, p, i + 1, now);
  }

  // A new executor that claims a queued task and reads its anchor.
  function Attempt(q: nat, worker: string, lane: Option<string>, now: int): seq<Step> {
    [Spawn(q, worker, lane)] + [Fetch(q, true), Load(q, now), Save(q)] + [ReadAnchor(q)]
  }

  // It starts at the first stage that bears the anchor's name, and at the first of all
  // when there is none, with what the stages before have left.
  lemma AttemptStarts(pl: Pipeline, s: State, q: nat, worker: string, lane: Option<string>, now: int)
    requires q !in s.procs && s.record.status == Pending
    ensures var u := Run(pl, s, Attempt(q, worker, lane, now)); var r, t := s.record, u.record;
      && q in u.procs && u.procs[q].pc.Loop? && u.procs[q].pc.i <= |pl|
      && StartsAt(pl, r.resumeStage, u.procs[q].pc.i)
      && t.status == Running && t.workerId == Some(worker) && t.attempts == r.attempts + 1
      && t.context == r.context && t.history == r.history && t.stage == r.stage
  {
    var s1 := Do(pl, s, Spawn(q, worker, lane));
    assert s1.procs[q] == Proc(worker, lane, false, Idle, s.record, None, 0) && s1.record == s.record;
    var claim := [Fetch(q, true), Load(q, now), Save(q)];
    RunSplits(pl, s, [Spawn(q, worker, lane)] + claim, [ReadAnchor(q)]);
    RunSplits(pl, s, [Spawn(q, worker, lane)], claim);
    OneStep(pl, s, Spawn(q, worker, lane));
    ClaimTakes(pl, s1, q, now);
    var s2 := Run(pl, s1, claim);
    OneStep(pl, s2, ReadAnchor(q));
    var s3 := Do(pl, s2, ReadAnchor(q));
    assert s3.record == s2.record && s3.procs[q].pc == Loop(StartIndex(pl, s2.record.resumeStage));
  }

  lemma OneStep(pl: Pipeline, s: State, a: Step)
    ensures Run(pl, s, [a]) == Do(pl, s, a)
  {
    assert [a][..0] == [];
  }

  predicate StartsAt(pl: Pipeline, anchor: Option<string>, k: nat)
    requires k <= |pl|
  {
    if exists i :: 0 <= i < |pl| && anchor == Some(pl[i].name) then
      k < |pl| && anchor == Some(pl[k].name) && forall j :: 0 <= j < k ==> anchor != Some(pl[j].name)
    else k == 0
  }

  // A stage fails for a reason that can be retried: the next attempt starts at that very stage
  // (at the first of its name), owned by the new worker, one attempt on, with the same context.
  lemma FailureResumesAtItsStage(
    pl: Pipeline, s: State, p: nat, i: nat, error: TaskError, q: nat, worker: string, lane: Option<string>,
    failed: int, claimed: int)
    requires Owns(s, p) && s.procs[p].pc == Body(i) && i < |pl| && s.record.stage == Some(pl[i].name)
    requires s.record.status == Running && error.retriable && s.record.attempts < s.record.maxAttempts
    requires q !in s.procs
    ensures var u := Run(pl, s,
        [RunnerRaises(p, error), Fence(p), Load(p, failed), Save(p)] + Attempt(q, worker, lane, claimed));
      && q in u.procs && u.procs[q].pc.Loop? && u.procs[q].pc.i <= i
      && pl[u.procs[q].pc.i].name == pl[i].name
      && (Distinct(pl) ==> u.procs[q].pc.i == i)
      && u.record.status == Running && u.record.workerId == Some(worker)
      && u.record.attempts == s.record.attempts + 1 && u.record.context == s.record.context
      && ClosedAs(s.record.history, u.record.history, StageFailed, failed)
  {
    var fail := [RunnerRaises(p, error), Fence(p), Load(p, failed), Save(p)];
    RunSplits(pl, s, fail, Attempt(q, worker, lane, claimed));
    FailureDecides(pl, s, p, error, failed);
    RunKeepsOut(pl, s, fail, q);
    hide Do, Run, ClosedAs, Attempt;
    AttemptStarts(pl, Run(pl, s, fail), q, worker, lane, claimed);
  }

  // Processes only come into being by being spawned.
  lemma {:induction false} RunKeepsOut(pl: Pipeline, s: State, steps: seq<Step>, q: nat)
    requires q !in s.procs && forall k :: 0 <= k < |steps| ==> !steps[k].Spawn?
    ensures q !in Run(pl, s, steps).procs
  {
    if |steps| > 0 {
      RunKeepsOut(pl, s, steps[..|steps| - 1], q);
    }
  }

  // The same after a final failure and a manual retry; a retry from scratch starts over.
  lemma RetryResumesAtItsStage(
    pl: Pipeline, s: State, p: nat, i: nat, error: TaskError, h: nat, reset: bool, scratch: bool,
    q: nat, worker: string, lane: Option<string>, failed: int, reopened: int, claimed: int)
    requires Owns(s, p) && s.procs[p].pc == Body(i) && i < |pl| && s.record.stage == Some(pl[i].name)
    requires s.record.status == Running && !(error.retriable && s.record.attempts < s.record.maxAttempts)
    requires h in s.procs && h != p && s.procs[h].pc.Idle? && s.procs[h].call.None? && q !in s.procs
    ensures var u := Run(pl, s,
        [RunnerRaises(p, error), Fence(p), Load(p, failed), Save(p)]
        + [AskRetry(h, reset, scratch), Load(h, reopened), Save(h)] + Attempt(q, worker, lane, claimed));
      && q in u.procs && u.procs[q].pc.Loop?
      && (scratch ==> u.procs[q].pc.i == 0)
      && (!scratch ==> u.procs[q].pc.i <= i && pl[u.procs[q].pc.i].name == pl[i].name)
      && (!scratch && Distinct(pl) ==> u.procs[q].pc.i == i)
      && u.record.attempts == (if reset then 1 else s.record.attempts + 1) && u.record.context == s.record.context
  {
    var fail := [RunnerRaises(p, error), Fence(p), Load(p, failed), Save(p)];
    var retry := [AskRetry(h, reset, scratch), Load(h, reopened), Save(h)];
    RunSplits(pl, s, fail + retry, Attempt(q, worker, lane, claimed));
    RunSplits(pl, s, fail, retry);
    FailureDecides(pl, s, p, error, failed);
    RunKeepsOut(pl, s, fail + retry, q);
    OthersKeep(pl, s, fail, p, h);
    hide Do, Run, ClosedAs, Attempt;
    var s1 := Run(pl, s, fail);
    RetryReopens(pl, s1, h, reset, scratch, reopened);
    AttemptStarts(pl, Run(pl, s1, retry), q, worker, lane, claimed);
  }

  // The steps of one process do not touch another.
  lemma {:induction false} OthersKeep(pl: Pipeline, s: State, steps: seq<Step>, p: nat, h: nat)
    requires h in s.procs && h != p && forall k :: 0 <= k < |steps| ==> steps[k].p == p
    ensures var t := Run(pl, s, steps); h in t.procs && t.procs[h] == s.procs[h]
  {
    if |steps| > 0 {
      OthersKeep(pl, s, steps[..|steps| - 1], p, h);
    }
  }
}
