// What holds of every run of the task protocol.
module TaskTheorems {
  import opened Wrappers
  import opened TaskModels
  import opened TaskStore
  import opened TaskProtocol

  lemma RunKeepsSnapshots(pl: Pipeline, s: State, steps: seq<Step>)
    requires Initial(s)
    ensures SnapshotsOk(pl, Run(pl, s, steps))
  {
    if |steps| > 0 {
      RunKeepsSnapshots(pl, s, steps[..|steps| - 1]);
      StepKeepsSnapshots(pl, Run(pl, s, steps[..|steps| - 1]), steps[|steps| - 1]);
    }
  }

  lemma RunSplits(pl: Pipeline, s: State, a: seq<Step>, b: seq<Step>)
    ensures Run(pl, s, a + b) == Run(pl, Run(pl, s, a), b)
  {
    if |b| == 0 {
      assert a + b == a;
    } else {
      RunSplits(pl, s, a, b[..|b| - 1]);
      assert (a + b)[..|a + b| - 1] == a + b[..|b| - 1];
    }
  }

  lemma OneMoreStep(pl: Pipeline, s: State, steps: seq<Step>, k: nat)
    requires k < |steps|
    ensures Run(pl, s, steps[..k + 1]) == Do(pl, Run(pl, s, steps[..k]), steps[k])
  {
    assert steps[..k + 1][..k] == steps[..k];
  }

  // ---- No lost update ----

  // The version-bumping mutations applied one after the other to one record.
  function Replay(t: Task, log: seq<(Mutation, int)>): Task {
    if |log| == 0 then t
    else
      var u := Replay(t, log[..|log| - 1]);
      var (m, now) := log[|log| - 1];
      if Mutate(u, m, now).Ok? then Committed(u, m, now) else u
  }

  // Each logged mutation was legal where the replay applies it.
  predicate ReplayLegal(t: Task, log: seq<(Mutation, int)>) {
    forall k :: 0 <= k < |log| ==> Mutate(Replay(t, log[..k]), log[k].0, log[k].1).Ok?
  }

  lemma ReplayOneMore(t: Task, log: seq<(Mutation, int)>, m: Mutation, now: int)
    requires ReplayLegal(t, log) && Mutate(Replay(t, log), m, now).Ok?
    ensures ReplayLegal(t, log + [(m, now)])
    ensures Replay(t, log + [(m, now)]) == Committed(Replay(t, log), m, now)
  {
    var more := log + [(m, now)];
    assert more[..|log|] == log;
    forall k | 0 <= k < |more|
      ensures Mutate(Replay(t, more[..k]), more[k].0, more[k].1).Ok?
    {
      assert more[..k] == log[..k];
      if k == |log| {
        assert log[..k] == log;
      } else {
        assert more[k] == log[k];
      }
    }
  }

  // The row carries every logged mutation, in commit order, and nothing else.
  predicate IsReplay(t: Task, s: State) {
    && s.record.version == t.version + |s.log|
    && ReplayLegal(t, s.log)
    && SameButHeartbeat(s.record, Replay(t, s.log))
  }

  lemma CommitKeepsReplay(t: Task, s: State, next: State, m: Mutation, now: int)
    requires IsReplay(t, s) && Mutate(s.record, m, now).Ok?
    requires SameButHeartbeat(next.record, Committed(s.record, m, now))
    requires next.log == if Bumps(m) then s.log + [(m, now)] else s.log
    ensures IsReplay(t, next)
  {
    MutateIgnoresHeartbeat(s.record, Replay(t, s.log), m, now);
    if Bumps(m) {
      ReplayOneMore(t, s.log, m, now);
    }
  }

  lemma StepKeepsReplay(pl: Pipeline, t: Task, s: State, step: Step)
    requires SnapshotsOk(pl, s) && IsReplay(t, s)
    ensures IsReplay(t, Do(pl, s, step))
  {
    var next := Do(pl, s, step);
    if Commits(pl, s, step) {
      var m, now := RequestOf(pl, s.procs[step.p]).value.m, s.procs[step.p].call.value.now;
      CommitIsAtomic(pl, s, step);
      CommitKeepsReplay(t, s, next, m, now);
    } else {
      assert next.record == s.record && next.log == s.log;
    }
  }

  // Whatever the interleaving of loads, saves, heartbeats and crashes, the row
  // is the fold of the committed mutations in commit order.
  lemma {:induction false} NoLostUpdate(pl: Pipeline, s: State, steps: seq<Step>)
    requires Initial(s)
    ensures IsReplay(s.record, Run(pl, s, steps))
  {
    if |steps| > 0 {
      NoLostUpdate(pl, s, steps[..|steps| - 1]);
      RunKeepsSnapshots(pl, s, steps[..|steps| - 1]);
      StepKeepsReplay(pl, s.record, Run(pl, s, steps[..|steps| - 1]), steps[|steps| - 1]);
    }
  }

  // ---- The record itself ----

  // What one step may do to the record: follow the table, keep the shape and keep closed stages.
  lemma StepOnRecord(pl: Pipeline, s: State, step: Step)
    requires SnapshotsOk(pl, s) && RecordOk(s.record)
    ensures var t := Do(pl, s, step);
      && RecordOk(t.record)
      && CanTransition(s.record.status, t.record.status)
      && ClosedKept(s.record.history, t.record.history)
  {
    if Commits(pl, s, step) {
      CommitIsAtomic(pl, s, step);
      assert ProcOk(pl, s.record, s.procs[step.p]);
      MutateKeepsRecordOk(s.record, RequestOf(pl, s.procs[step.p]).value.m, s.procs[step.p].call.value.now);
    }
  }

  lemma {:induction false} RecordAlwaysOk(pl: Pipeline, s: State, steps: seq<Step>)
    requires Initial(s)
    ensures RecordOk(Run(pl, s, steps).record)
  {
    if |steps| > 0 {
      RecordAlwaysOk(pl, s, steps[..|steps| - 1]);
      RunKeepsSnapshots(pl, s, steps[..|steps| - 1]);
      StepOnRecord(pl, Run(pl, s, steps[..|steps| - 1]), steps[|steps| - 1]);
    }
  }

  // The committed statuses form a path in the transition table.
  lemma {:induction false} StatusesFollowTheTable(pl: Pipeline, s: State, steps: seq<Step>, k: nat)
    requires Initial(s) && k < |steps|
    ensures CanTransition(Run(pl, s, steps[..k]).record.status, Run(pl, s, steps[..k + 1]).record.status)
  {
    OneMoreStep(pl, s, steps, k);
    RecordAlwaysOk(pl, s, steps[..k]);
    RunKeepsSnapshots(pl, s, steps[..k]);
    StepOnRecord(pl, Run(pl, s, steps[..k]), steps[k]);
  }

  // What a later row keeps of an earlier one: success and cancellation are for
  // ever, a closed stage record is never rewritten or dropped.
  predicate Keeps(a: Task, b: Task) {
    && (a.status == Succeeded || a.status == Cancelled ==> b.status == a.status)
    && ClosedKept(a.history, b.history)
    && a.version <= b.version
  }

  lemma KeepsTransitive(a: Task, b: Task, c: Task)
    requires Keeps(a, b) && Keeps(b, c)
    ensures Keeps(a, c)
  {
  }

  lemma StepKeeps(pl: Pipeline, s: State, step: Step)
    requires SnapshotsOk(pl, s) && RecordOk(s.record)
    ensures Keeps(s.record, Do(pl, s, step).record)
  {
    StepOnRecord(pl, s, step);
    if Commits(pl, s, step) {
      CommitIsLater(pl, s, step);
    }
  }

  lemma {:induction false} HistoryIsFinal(pl: Pipeline, s: State, steps: seq<Step>, k: nat, n: nat)
    requires Initial(s) && k <= n <= |steps|
    ensures Keeps(Run(pl, s, steps[..k]).record, Run(pl, s, steps[..n]).record)
    decreases n - k
  {
    if k < n {
      HistoryIsFinal(pl, s, steps, k, n - 1);
      OneMoreStep(pl, s, steps, n - 1);
      RecordAlwaysOk(pl, s, steps[..n - 1]);
      RunKeepsSnapshots(pl, s, steps[..n - 1]);
      StepKeeps(pl, Run(pl, s, steps[..n - 1]), steps[n - 1]);
      KeepsTransitive(Run(pl, s, steps[..k]).record, Run(pl, s, steps[..n - 1]).record,
                      Run(pl, s, steps[..n]).record);
    }
  }

  // ---- Claims are exclusive ----

  predicate CommitsClaim(pl: Pipeline, s: State, step: Step) {
    Commits(pl, s, step) && s.procs[step.p].pc.Claim?
  }

  // The step brings the task back into the queue.
  predicate Requeues(pl: Pipeline, s: State, step: Step) {
    s.record.status != Pending && Do(pl, s, step).record.status == Pending
  }

  predicate RequeueCommits(pl: Pipeline, s: State, step: Step) {
    Commits(pl, s, step) && Requeues(pl, s, step)
  }

  // A claim is won only from PENDING and leaves the row to its winner.
  lemma ClaimTakesPending(pl: Pipeline, s: State, step: Step)
    requires SnapshotsOk(pl, s) && CommitsClaim(pl, s, step)
    ensures s.record.status == Pending
    ensures var r := Do(pl, s, step).record;
      r.status == Running && r.workerId == Some(s.procs[step.p].worker) && r.attempts == s.record.attempts + 1
  {
    assert ProcOk(pl, s.record, s.procs[step.p]);
    CommitIsAtomic(pl, s, step);
  }

  // If the task is out of the queue at `k` and in it at `n`, some step in between put it back.
  lemma {:induction false} RequeueBetween(pl: Pipeline, s: State, steps: seq<Step>, k: nat, n: nat) returns (c: nat)
    requires k <= n <= |steps|
    requires Run(pl, s, steps[..k]).record.status != Pending
    requires Run(pl, s, steps[..n]).record.status == Pending
    ensures k <= c < n && Requeues(pl, Run(pl, s, steps[..c]), steps[c])
    decreases n - k
  {
    OneMoreStep(pl, s, steps, n - 1);
    if Run(pl, s, steps[..n - 1]).record.status != Pending {
      c := n - 1;
    } else {
      c := RequeueBetween(pl, s, steps, k, n - 1);
    }
  }

  // Between two winning claims of one task there is always a commit back into the queue.
  lemma ClaimsAreExclusive(pl: Pipeline, s: State, steps: seq<Step>, a: nat, b: nat)
    requires Initial(s) && a < b < |steps|
    requires CommitsClaim(pl, Run(pl, s, steps[..a]), steps[a])
    requires CommitsClaim(pl, Run(pl, s, steps[..b]), steps[b])
    ensures exists c :: a < c < b && RequeueCommits(pl, Run(pl, s, steps[..c]), steps[c])
  {
    RunKeepsSnapshots(pl, s, steps[..a]);
    RunKeepsSnapshots(pl, s, steps[..b]);
    ClaimTakesPending(pl, Run(pl, s, steps[..a]), steps[a]);
    ClaimTakesPending(pl, Run(pl, s, steps[..b]), steps[b]);
    OneMoreStep(pl, s, steps, a);
    var c := RequeueBetween(pl, s, steps, a + 1, b);
    assert RequeueCommits(pl, Run(pl, s, steps[..c]), steps[c]);
  }

  // ---- No stage is ever skipped ----

  predicate AllBefore(completed: set<nat>, i: nat) {
    forall j: nat :: j < i ==> j in completed
  }

  // Every stage ahead of the named one has completed.
  predicate Reached(pl: Pipeline, completed: set<nat>, name: Option<string>) {
    name.Some? && HasStage(pl, name.value) ==> AllBefore(completed, IndexOf(pl, name.value))
  }

  predicate ProcReached(pl: Pipeline, completed: set<nat>, pr: Proc) {
    && Reached(pl, completed, pr.seen.stage)
    && match pr.pc
       case Loop(i) => AllBefore(completed, i)
       case Beat(i) => AllBefore(completed, i)
       case Enter(i) => AllBefore(completed, i)
       case Body(i) => AllBefore(completed, i)
       case Report(i, _) => AllBefore(completed, i)
       case Finish(Handoff(_, name)) => Reached(pl, completed, Some(name))
       case HandOver(name) => Reached(pl, completed, Some(name))
       case _ => true
  }

  predicate RowReached(pl: Pipeline, completed: set<nat>, t: Task) {
    Reached(pl, completed, t.stage) && Reached(pl, completed, t.resumeStage)
  }

  predicate SkipFree(pl: Pipeline, s: State) {
    && RowReached(pl, s.completed, s.record)
    && forall p :: p in s.procs ==> ProcReached(pl, s.completed, s.procs[p])
  }

  // The first position of a stage's name is not after the stage.
  lemma NameNotAfter(pl: Pipeline, completed: set<nat>, i: nat)
    requires i < |pl| && AllBefore(completed, i)
    ensures HasStage(pl, pl[i].name) && Reached(pl, completed, Some(pl[i].name))
  {
    assert HasStage(pl, pl[i].name);
  }

  // What a mutation writes to the record has only completed stages ahead of it.
  predicate MutationReached(pl: Pipeline, completed: set<nat>, m: Mutation) {
    && (m.EnterStage? ==> Reached(pl, completed, Some(m.name)))
    && (!m.Heartbeat? && m.fields.resumeStage.Some? ==> Reached(pl, completed, m.fields.resumeStage.value))
  }

  lemma MutateKeepsReached(pl: Pipeline, completed: set<nat>, t: Task, m: Mutation, now: int)
    requires RowReached(pl, completed, t) && MutationReached(pl, completed, m) && Mutate(t, m, now).Ok?
    ensures RowReached(pl, completed, Committed(t, m, now))
  {
    hide Reached;
  }

  lemma RequestReached(pl: Pipeline, completed: set<nat>, pr: Proc)
    requires ProcReached(pl, completed, pr) && RequestOf(pl, pr).Some? && (pr.pc.Report? ==> BodyFields(pr.pc.fields))
    ensures MutationReached(pl, completed, RequestOf(pl, pr).value.m)
  {
    if pr.pc.Enter? {
      NameNotAfter(pl, completed, pr.pc.i);
    }
    hide AllBefore, IndexOf, HasStage;
    assert Reached(pl, completed, None);
    hide Reached;
  }

  lemma CommitKeepsRowReached(pl: Pipeline, s: State, step: Step)
    requires SnapshotsOk(pl, s) && SkipFree(pl, s) && Commits(pl, s, step)
    ensures RowReached(pl, s.completed, Do(pl, s, step).record)
  {
    var pr := s.procs[step.p];
    assert ProcOk(pl, s.record, pr) && ProcReached(pl, s.completed, pr);
    CommitIsAtomic(pl, s, step);
    RequestReached(pl, s.completed, pr);
    hide Do, RequestOf, Mutate, Reached, Committed;
    MutateKeepsReached(pl, s.completed, s.record, RequestOf(pl, pr).value.m, pr.call.value.now);
  }

  lemma LocalKeepsReached(pl: Pipeline, completed: set<nat>, row: Task, pr: Proc, step: Step)
    requires RowReached(pl, completed, row) && ProcReached(pl, completed, pr)
    ensures var more := if step.BodyReturns? && pr.pc.Body? then completed + {pr.pc.i} else completed;
      ProcReached(pl, more, Local(pl, row, pr, step))
  {
    hide RequestOf, Mutate, HasStage, IndexOf, Reached, AllBefore;
    match step
    case Advance(_, _, _) =>
      if pr.pc.Loop? && pr.pc.i < |pl| {
        NameNotAfter(pl, completed, pr.pc.i);
      }
    case ReadAnchor(_) => AnchorReached(pl, completed, row);
    case BodyReturns(_, _) =>
      if pr.pc.Body? {
        OneMoreCompleted(pl, completed, pr.pc.i, pr.seen.stage);
      }
    case Load(_, _) =>
    case Fence(_) =>
    case _ =>
  }

  lemma AnchorReached(pl: Pipeline, completed: set<nat>, row: Task)
    requires RowReached(pl, completed, row)
    ensures AllBefore(completed, StartIndex(pl, row.resumeStage))
  {
  }

  lemma OneMoreCompleted(pl: Pipeline, completed: set<nat>, i: nat, name: Option<string>)
    ensures AllBefore(completed, i) ==> AllBefore(completed + {i}, i) && AllBefore(completed + {i}, i + 1)
    ensures Reached(pl, completed, name) ==> Reached(pl, completed + {i}, name)
  {
  }

  lemma ReachedGrows(pl: Pipeline, a: set<nat>, b: set<nat>, row: Task, pr: Proc)
    requires a <= b
    ensures RowReached(pl, a, row) ==> RowReached(pl, b, row)
    ensures ProcReached(pl, a, pr) ==> ProcReached(pl, b, pr)
  {
  }

  lemma QuietStepKeepsProc(pl: Pipeline, s: State, step: Step, p: nat)
    requires SkipFree(pl, s) && !Commits(pl, s, step) && p in Do(pl, s, step).procs
    ensures ProcReached(pl, Do(pl, s, step).completed, Do(pl, s, step).procs[p])
  {
    var t := Do(pl, s, step);
    if p in s.procs {
      hide Commits;
      ReachedGrows(pl, s.completed, t.completed, s.record, s.procs[p]);
      LocalKeepsReached(pl, s.completed, s.record, s.procs[p], step);
      hide Local, RequestOf;
    }
  }

  lemma QuietStepKeepsRow(pl: Pipeline, s: State, step: Step)
    requires !Commits(pl, s, step)
    ensures Do(pl, s, step).record == s.record && s.completed <= Do(pl, s, step).completed
  {
  }

  lemma StepKeepsSkipFree(pl: Pipeline, s: State, step: Step)
    requires SnapshotsOk(pl, s) && SkipFree(pl, s)
    ensures SkipFree(pl, Do(pl, s, step))
  {
    var t := Do(pl, s, step);
    if Commits(pl, s, step) {
      CommitKeepsRowReached(pl, s, step);
      CommitKeepsProcs(pl, s, step);
    } else {
      hide Do, ProcReached, Reached;
      QuietStepKeepsRow(pl, s, step);
      forall p | p in t.procs
        ensures ProcReached(pl, t.completed, t.procs[p])
      {
        QuietStepKeepsProc(pl, s, step, p);
      }
      assert RowReached(pl, s.completed, s.record);
    }
  }

  lemma CommitKeepsProcs(pl: Pipeline, s: State, step: Step)
    requires SkipFree(pl, s) && Commits(pl, s, step)
    ensures var t := Do(pl, s, step);
      t.completed == s.completed && forall p :: p in t.procs ==> ProcReached(pl, t.completed, t.procs[p])
  {
  }

  lemma {:induction false} RunIsSkipFree(pl: Pipeline, s: State, steps: seq<Step>)
    requires Initial(s)
    ensures SkipFree(pl, Run(pl, s, steps))
  {
    if |steps| > 0 {
      RunIsSkipFree(pl, s, steps[..|steps| - 1]);
      RunKeepsSnapshots(pl, s, steps[..|steps| - 1]);
      StepKeepsSkipFree(pl, Run(pl, s, steps[..|steps| - 1]), steps[|steps| - 1]);
    }
  }

  // In `s`, `step` is some process's return from the body of stage `j`.
  predicate Completes(s: State, step: Step, j: nat) {
    step.BodyReturns? && step.p in s.procs && s.procs[step.p].pc == Body(j)
  }

  lemma {:induction false} CompletedOnlyByBody(pl: Pipeline, s: State, steps: seq<Step>, j: nat) returns (m: nat)
    requires Initial(s) && j in Run(pl, s, steps).completed
    ensures m < |steps| && Completes(Run(pl, s, steps[..m]), steps[m], j)
  {
    var n := |steps| - 1;
    if j in Run(pl, s, steps[..n]).completed {
      m := CompletedOnlyByBody(pl, s, steps[..n], j);
      assert steps[..n][..m] == steps[..m];
    } else {
      m := n;
    }
  }

  // However claims, failures, crashes, reclaims, hand-overs, stale workers and
  // retries interleave, a stage body is entered only after the body of every
  // earlier stage has returned at least once. Stage names may repeat.
  lemma NoStageSkipped(pl: Pipeline, s: State, steps: seq<Step>, p: nat, j: nat)
    requires Initial(s)
    requires var t := Run(pl, s, steps); p in t.procs && t.procs[p].pc.Body? && j < t.procs[p].pc.i
    ensures exists m :: 0 <= m < |steps| && Completes(Run(pl, s, steps[..m]), steps[m], j)
  {
    RunIsSkipFree(pl, s, steps);
    var t := Run(pl, s, steps);
    assert ProcReached(pl, t.completed, t.procs[p]);
    var m := CompletedOnlyByBody(pl, s, steps, j);
  }
}
