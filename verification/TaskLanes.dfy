// Splitting one pipeline over workers of different lanes.
//
// A smooth run is any interleaving of any number of workers, lanes, claims,
// heartbeats and reports in which nothing fails, crashes, is cancelled, swept or
// retried.
module TaskLanes {
  import opened Wrappers
  import opened TaskModels
  import opened TaskStore
  import opened TaskProtocol
  import opened TaskTheorems
  import opened TaskBudget

  predicate Distinct(pl: Pipeline) {
    forall i, j :: 0 <= i < j < |pl| ==> pl[i].name != pl[j].name
  }

  predicate Foreign(stage: Stage, lane: Option<string>) {
    stage.lane.Some? && lane.Some? && stage.lane != lane
  }

  // The stage bodies that a run completes, in order.
  function Bodies(pl: Pipeline, s: State, steps: seq<Step>): seq<nat> {
    if |steps| == 0 then []
    else
      Bodies(pl, s, steps[..|steps| - 1]) + Gain(Run(pl, s, steps[..|steps| - 1]), steps[|steps| - 1])
  }

  function Gain(s: State, step: Step): seq<nat> {
    if step.BodyReturns? && step.p in s.procs && s.procs[step.p].pc.Body?
    then [s.procs[step.p].pc.i] else []
  }

  lemma BodiesSplit(pl: Pipeline, s: State, a: seq<Step>, b: seq<Step>)
    ensures Bodies(pl, s, a + b) == Bodies(pl, s, a) + Bodies(pl, Run(pl, s, a), b)
  {
    if |b| == 0 {
      assert a + b == a;
    } else {
      hide Run, Do, Gain;
      assert (a + b)[..|a + b| - 1] == a + b[..|b| - 1];
      BodiesSplit(pl, s, a, b[..|b| - 1]);
      RunSplits(pl, s, a, b[..|b| - 1]);
    }
  }

  function Range(a: nat, b: nat): seq<nat>
    requires a <= b
  {
    seq(b - a, i requires 0 <= i < b - a => a + i)
  }

  // A queued task whose next stage is `k`.
  predicate QueuedAt(pl: Pipeline, s: State, k: nat) {
    s.record.status == Pending && StartIndex(pl, s.record.resumeStage) == k
  }

  lemma DistinctIndex(pl: Pipeline, e: nat)
    requires Distinct(pl) && e < |pl|
    ensures StartIndex(pl, Some(pl[e].name)) == e
  {
    assert HasStage(pl, pl[e].name);
  }

  // The steps of a smooth run. A body may return the final result early.
  predicate Smooth(step: Step) {
    match step
    case Spawn(_, _, _) => true
    case Fetch(_, known) => known
    case Load(_, _) => true
    case Save(_) => true
    case ReadAnchor(_) => true
    case Advance(_, _, _) => true
    case BodyReturns(_, _) => true
    case BodyReports(_, _) => true
    case Fence(_) => true
    case _ => false
  }

  predicate AllSmooth(steps: seq<Step>) {
    forall k :: 0 <= k < |steps| ==> Smooth(steps[k])
  }

  // A body that is not the last one returns the final result.
  predicate CutsShort(pl: Pipeline, s: State, step: Step) {
    && step.BodyReturns? && step.done.Some?
    && step.p in s.procs && s.procs[step.p].pc.Body? && s.procs[step.p].pc.i + 1 < |pl|
  }

  predicate CutShort(pl: Pipeline, s: State, steps: seq<Step>) {
    |steps| > 0 &&
    (CutShort(pl, s, steps[..|steps| - 1]) || CutsShort(pl, Run(pl, s, steps[..|steps| - 1]), steps[|steps| - 1]))
  }

  // The task waits for stage `k` and nobody is on it.
  predicate Ready(pl: Pipeline, s: State, k: nat) {
    QueuedAt(pl, s, k) && SnapshotsOk(pl, s) && forall p :: p in s.procs ==> s.procs[p].pc.Idle?
  }

  // ---- The invariant ----

  predicate Active(pc: Pc) {
    !pc.Idle? && !pc.Claim?
  }

  // Where a run stands: the attempts it began with, the next stage, and whether
  // a body has ended the pipeline early.
  datatype Standing = Standing(attempts: nat, next: nat, short: bool)

  predicate Ended(pl: Pipeline, at: Standing) {
    at.next == |pl| || at.short
  }

  // Where each process stands in its own code.
  predicate PlaceOk(pl: Pipeline, row: Task, pr: Proc, at: Standing) {
    match pr.pc
    case Idle => true
    case Claim => true
    case Start => StartIndex(pl, row.resumeStage) == at.next
    case Loop(i) => i == at.next
    case Beat(i) => MayRun(pl, pr, i, at)
    case Enter(i) => MayRun(pl, pr, i, at)
    case Body(i) => MayRun(pl, pr, i, at)
    case Report(i, _) => MayRun(pl, pr, i, at)
    case Finish(Done(_)) => Ended(pl, at)
    case Succeed(_) => Ended(pl, at)
    case Finish(Handoff(_, name)) => Stops(pl, pr, name, at)
    case HandOver(name) => Stops(pl, pr, name, at) && pr.seen.attempts == at.attempts + 1
    case _ => false
  }

  predicate MayRun(pl: Pipeline, pr: Proc, i: nat, at: Standing) {
    i == at.next < |pl| && !Foreign(pl[i], pr.lane)
  }

  predicate Stops(pl: Pipeline, pr: Proc, name: string, at: Standing) {
    at.next < |pl| && pl[at.next].name == name && Foreign(pl[at.next], pr.lane)
  }

  // An active worker owns the running row, and no version bump disturbs its call.
  predicate HoldsRow(row: Task, pr: Proc) {
    && row.status == Running && pr.claimed && row.workerId == Some(pr.worker)
    && (pr.call.Some? ==> pr.call.value.snap.version == row.version)
  }

  predicate ProcStands(pl: Pipeline, row: Task, pr: Proc, at: Standing) {
    PlaceOk(pl, row, pr, at) && (Active(pr.pc) ==> HoldsRow(row, pr))
  }

  predicate RowStands(pl: Pipeline, row: Task, at: Standing) {
    && (row.status == Pending || row.status == Running || row.status == Succeeded)
    && (row.status == Pending ==> row.attempts == at.attempts && StartIndex(pl, row.resumeStage) == at.next)
    && (row.status != Pending ==> row.attempts == at.attempts + 1)
    && (row.status == Succeeded ==> Ended(pl, at))
  }

  predicate OneActive(procs: map<nat, Proc>) {
    forall p, q :: p in procs && q in procs && Active(procs[p].pc) && Active(procs[q].pc) ==> p == q
  }

  predicate Stands(pl: Pipeline, s: State, at: Standing) {
    && at.next <= |pl|
    && RowStands(pl, s.record, at)
    && OneActive(s.procs)
    && forall p :: p in s.procs ==> ProcStands(pl, s.record, s.procs[p], at)
  }

  function Advanced(pl: Pipeline, s: State, step: Step, at: Standing): Standing {
    at.(next := at.next + |Gain(s, step)|, short := at.short || CutsShort(pl, s, step))
  }

  // ---- Commits ----

  // The row after a commit, up to the heartbeat.
  lemma CommittedRow(pl: Pipeline, s: State, step: Step)
    requires SnapshotsOk(pl, s) && Commits(pl, s, step)
    ensures var pr, r := s.procs[step.p], Do(pl, s, step).record; var m := RequestOf(pl, pr).value.m;
      && (pr.pc.Claim? ==>
            s.record.status == Pending && r.status == Running && r.attempts == s.record.attempts + 1
            && r.workerId == Some(pr.worker) && r.resumeStage == s.record.resumeStage)
      && (pr.pc.Beat? || pr.pc.Enter? || pr.pc.Report? ==>
            r.status == s.record.status && r.attempts == s.record.attempts && r.workerId == s.record.workerId)
      && (pr.pc.Succeed? ==> r.status == Succeeded && r.attempts == s.record.attempts)
      && (pr.pc.HandOver? ==>
            r.status == Pending && r.attempts == Minus1(pr.seen.attempts) && r.resumeStage == Some(pr.pc.resume))
  {
    var pr := s.procs[step.p];
    assert ProcOk(pl, s.record, pr);
    CommitIsAtomic(pl, s, step);
    CommitEffect(pl, s, step);
  }

  lemma ClaimCommits(pl: Pipeline, s: State, step: Step, at: Standing)
    requires SnapshotsOk(pl, s) && Stands(pl, s, at) && CommitsClaim(pl, s, step)
    ensures Stands(pl, Do(pl, s, step), at)
  {
    CommittedRow(pl, s, step);
    var t := Do(pl, s, step);
    assert t.procs == s.procs[step.p := Returned(s.procs[step.p])];
    hide Do, RequestOf, StartIndex;
    forall q | q in s.procs && q != step.p
      ensures !Active(s.procs[q].pc)
    {
      assert ProcStands(pl, s.record, s.procs[q], at);
    }
  }

  lemma ActiveCommits(pl: Pipeline, s: State, step: Step, at: Standing)
    requires Distinct(pl) && SnapshotsOk(pl, s) && Stands(pl, s, at)
    requires Commits(pl, s, step) && Active(s.procs[step.p].pc)
    ensures Stands(pl, Do(pl, s, step), at)
  {
    CommittedRow(pl, s, step);
    var t, pr := Do(pl, s, step), s.procs[step.p];
    assert t.procs == s.procs[step.p := Returned(pr)];
    assert ProcStands(pl, s.record, pr, at);
    if pr.pc.HandOver? {
      DistinctIndex(pl, at.next);
    }
    hide Do, RequestOf, StartIndex;
    forall q | q in s.procs && q != step.p
      ensures !Active(s.procs[q].pc)
    {
    }
  }

  // ---- Other steps ----

  // A save of an active worker always goes through.
  lemma ActiveSaves(pl: Pipeline, s: State, p: nat, at: Standing)
    requires SnapshotsOk(pl, s) && Stands(pl, s, at) && InCall(pl, s, p) && Active(s.procs[p].pc)
    ensures Commits(pl, s, Save(p))
  {
    assert ProcOk(pl, s.record, s.procs[p]) && ProcStands(pl, s.record, s.procs[p], at);
  }

  lemma LoadStands(pl: Pipeline, row: Task, pr: Proc, now: int, at: Standing)
    requires ProcStands(pl, row, pr, at)
    ensures ProcStands(pl, row, LoadStep(pl, row, pr, now), at)
    ensures Active(LoadStep(pl, row, pr, now).pc) ==> Active(pr.pc)
  {
  }

  // A process's own step, other than a store call.
  lemma LocalStands(pl: Pipeline, s: State, step: Step, at: Standing)
    requires Stands(pl, s, at) && Smooth(step) && !step.Spawn? && !step.Save? && step.p in s.procs
    ensures var pr := Local(pl, s.record, s.procs[step.p], step);
      && ProcStands(pl, s.record, pr, Advanced(pl, s, step, at))
      && (Active(pr.pc) ==> Active(s.procs[step.p].pc))
  {
    var pr := s.procs[step.p];
    assert ProcStands(pl, s.record, pr, at);
    if step.Load? {
      LoadStands(pl, s.record, pr, step.now, at);
    } else {
      hide LoadStep, RequestOf, StartIndex;
    }
  }

  // The standing of the others does not depend on a step of the one that is active.
  lemma OthersStand(pl: Pipeline, row: Task, pr: Proc, at: Standing, next: Standing)
    requires ProcStands(pl, row, pr, at) && (!Active(pr.pc) || next == at)
    ensures ProcStands(pl, row, pr, next)
  {
  }

  lemma GainIsNext(pl: Pipeline, s: State, step: Step, at: Standing)
    requires Stands(pl, s, at)
    ensures Gain(s, step) == [] || (Gain(s, step) == [at.next] && at.next < |pl| && Active(s.procs[step.p].pc))
    ensures CutsShort(pl, s, step) ==> Gain(s, step) != []
  {
    if Gain(s, step) != [] {
      assert ProcStands(pl, s.record, s.procs[step.p], at);
    }
  }

  lemma QuietStands(pl: Pipeline, s: State, step: Step, at: Standing)
    requires Stands(pl, s, at) && Smooth(step) && !step.Spawn? && !step.Save? && step.p in s.procs
    ensures Stands(pl, Do(pl, s, step), Advanced(pl, s, step, at))
  {
    var t, next := Do(pl, s, step), Advanced(pl, s, step, at);
    GainIsNext(pl, s, step, at);
    LocalStands(pl, s, step, at);
    assert t.record == s.record && t.procs == s.procs[step.p := Local(pl, s.record, s.procs[step.p], step)];
    if next != at {
      assert ProcStands(pl, s.record, s.procs[step.p], at);
    }
    hide Do, Local;
    forall q | q in t.procs
      ensures ProcStands(pl, t.record, t.procs[q], next)
    {
      if q != step.p {
        OthersStand(pl, s.record, s.procs[q], at, next);
      }
    }
  }

  // A claim that lost the race gives up.
  lemma LostClaimStands(pl: Pipeline, s: State, p: nat, at: Standing)
    requires SnapshotsOk(pl, s) && Stands(pl, s, at) && InCall(pl, s, p)
    requires !Commits(pl, s, Save(p)) && s.procs[p].pc.Claim?
    ensures Stands(pl, Do(pl, s, Save(p)), at)
  {
    var t := Do(pl, s, Save(p));
    assert t == s.(procs := s.procs[p := Raised(s.procs[p])]);
    hide Do, RequestOf, Commits, StartIndex;
  }

  lemma SpawnStands(pl: Pipeline, s: State, step: Step, at: Standing)
    requires Stands(pl, s, at) && step.Spawn?
    ensures Stands(pl, Do(pl, s, step), at)
  {
    hide StartIndex;
  }

  lemma StepStands(pl: Pipeline, s: State, step: Step, at: Standing)
    requires Distinct(pl) && SnapshotsOk(pl, s) && Stands(pl, s, at) && Smooth(step)
    ensures Stands(pl, Do(pl, s, step), Advanced(pl, s, step, at))
  {
    if step.Spawn? {
      SpawnStands(pl, s, step, at);
    } else if step.Save? {
      SaveStands(pl, s, step, at);
    } else if step.p in s.procs {
      QuietStands(pl, s, step, at);
    } else {
      assert Do(pl, s, step) == s;
    }
  }

  lemma SaveStands(pl: Pipeline, s: State, step: Step, at: Standing)
    requires Distinct(pl) && SnapshotsOk(pl, s) && Stands(pl, s, at) && step.Save?
    ensures Stands(pl, Do(pl, s, step), at)
  {
    if !InCall(pl, s, step.p) {
      assert Do(pl, s, step) == s;
    } else {
      hide Do, Stands;
      if Active(s.procs[step.p].pc) {
        ActiveSaves(pl, s, step.p, at);
        ActiveCommits(pl, s, step, at);
      } else if Commits(pl, s, step) {
        ClaimCommits(pl, s, step, at);
      } else {
        LostClaimStands(pl, s, step.p, at);
      }
    }
  }

  // ---- Whole runs ----

  lemma RunSnapshots(pl: Pipeline, s: State, steps: seq<Step>)
    requires SnapshotsOk(pl, s)
    ensures SnapshotsOk(pl, Run(pl, s, steps))
  {
    if |steps| > 0 {
      RunSnapshots(pl, s, steps[..|steps| - 1]);
      StepKeepsSnapshots(pl, Run(pl, s, steps[..|steps| - 1]), steps[|steps| - 1]);
    }
  }

  function StandingAfter(pl: Pipeline, s: State, steps: seq<Step>, k: nat): Standing {
    Standing(s.record.attempts, k + |Bodies(pl, s, steps)|, CutShort(pl, s, steps))
  }

  lemma {:induction false} RunStands(pl: Pipeline, s: State, steps: seq<Step>, k: nat)
    requires Distinct(pl) && k <= |pl| && Ready(pl, s, k) && AllSmooth(steps)
    ensures Stands(pl, Run(pl, s, steps), StandingAfter(pl, s, steps, k))
  {
    if |steps| > 0 {
      hide Do, Stands, Gain, StandingAfter, Run, CutShort, Advanced;
      var n := |steps| - 1;
      RunStands(pl, s, steps[..n], k);
      RunSnapshots(pl, s, steps[..n]);
      StandingSnoc(pl, s, steps, k);
      StepStands(pl, Run(pl, s, steps[..n]), steps[n], StandingAfter(pl, s, steps[..n], k));
    }
  }

  lemma {:induction false} BodiesInOrder(pl: Pipeline, s: State, steps: seq<Step>, k: nat)
    requires Distinct(pl) && k <= |pl| && Ready(pl, s, k) && AllSmooth(steps)
    ensures Bodies(pl, s, steps) == Range(k, k + |Bodies(pl, s, steps)|)
  {
    if |steps| > 0 {
      hide Do, Stands, Gain, StandingAfter, Run, CutShort, Advanced, Ready;
      var n := |steps| - 1;
      BodiesInOrder(pl, s, steps[..n], k);
      RunStands(pl, s, steps[..n], k);
      StandingSnoc(pl, s, steps, k);
      GainIsNext(pl, Run(pl, s, steps[..n]), steps[n], StandingAfter(pl, s, steps[..n], k));
      hide Bodies;
      RangeSnoc(k, k + |Bodies(pl, s, steps[..n])|);
    } else {
      assert Range(k, k) == [];
    }
  }

  lemma RangeSnoc(a: nat, b: nat)
    requires a <= b
    ensures Range(a, b) + [b] == Range(a, b + 1)
  {
  }

  lemma StandingSnoc(pl: Pipeline, s: State, steps: seq<Step>, k: nat)
    requires |steps| > 0
    ensures var n := |steps| - 1; var t, at := Run(pl, s, steps[..n]), StandingAfter(pl, s, steps[..n], k);
      && Run(pl, s, steps) == Do(pl, t, steps[n])
      && StandingAfter(pl, s, steps, k) == Advanced(pl, t, steps[n], at)
      && Bodies(pl, s, steps) == Bodies(pl, s, steps[..n]) + Gain(t, steps[n])
      && at.next == k + |Bodies(pl, s, steps[..n])|
      && StandingAfter(pl, s, steps, k).next == k + |Bodies(pl, s, steps)|
  {
  }

  // Every smooth run executes consecutive stages, each once and in order, whatever
  // the workers, their lanes and the interleaving; when the task has succeeded all
  // stages are done, unless a body ended the pipeline, and one attempt was spent.
  lemma StagesInOrder(pl: Pipeline, s: State, steps: seq<Step>, k: nat)
    requires Distinct(pl) && k <= |pl| && Ready(pl, s, k) && AllSmooth(steps)
    ensures var t, bodies := Run(pl, s, steps), Bodies(pl, s, steps);
      && k + |bodies| <= |pl| && bodies == Range(k, k + |bodies|)
      && (t.record.status == Succeeded ==>
            t.record.attempts == s.record.attempts + 1 && (k + |bodies| == |pl| || CutShort(pl, s, steps)))
      && (t.record.status == Pending ==>
            t.record.attempts == s.record.attempts && QueuedAt(pl, t, k + |bodies|))
  {
    RunStands(pl, s, steps, k);
    BodiesInOrder(pl, s, steps, k);
  }

  // ---- Hand-overs ----

  // A claim after a hand-over is won by a worker that may run the waiting stage.
  predicate Delivers(pl: Pipeline, s: State, step: Step, h0: nat) {
    CommitsClaim(pl, s, step) && s.handoffs > h0 ==>
      var k := StartIndex(pl, s.record.resumeStage);
      k < |pl| ==> !Foreign(pl[k], s.procs[step.p].lane)
  }

  predicate Delivered(pl: Pipeline, s: State, steps: seq<Step>) {
    |steps| > 0 ==>
      && Delivered(pl, s, steps[..|steps| - 1])
      && Delivers(pl, Run(pl, s, steps[..|steps| - 1]), steps[|steps| - 1], s.handoffs)
  }

  // The worker has run a stage since the last hand-over, or is about to.
  predicate Earns(pl: Pipeline, pr: Proc, at: Standing, k: nat, h: int) {
    h <= at.next - k ||
    (h == at.next - k + 1 && at.next < |pl| && !Foreign(pl[at.next], pr.lane) && !Leaves(pr.pc))
  }

  predicate Leaves(pc: Pc) {
    pc.HandOver? || (pc.Finish? && pc.outcome.Handoff?)
  }

  // There are no more hand-overs than stages done, and one for a wrong start.
  predicate Paid(pl: Pipeline, s: State, at: Standing, k: nat, h0: nat) {
    var h := s.handoffs - h0;
    && 0 <= h <= |pl| - k && k <= at.next
    && (s.record.status == Pending ==> h <= at.next - k + 1 && (h > 0 ==> at.next < |pl|))
    && forall p :: p in s.procs && Active(s.procs[p].pc) ==> Earns(pl, s.procs[p], at, k, h)
  }

  lemma ClaimIsPaid(pl: Pipeline, s: State, step: Step, at: Standing, k: nat, h0: nat)
    requires SnapshotsOk(pl, s) && Stands(pl, s, at) && Paid(pl, s, at, k, h0)
    requires CommitsClaim(pl, s, step) && Delivers(pl, s, step, h0)
    ensures Paid(pl, Do(pl, s, step), at, k, h0)
  {
    CommittedRow(pl, s, step);
    var t := Do(pl, s, step);
    assert t.procs == s.procs[step.p := Returned(s.procs[step.p])] && t.handoffs == s.handoffs;
    hide Do, RequestOf, StartIndex;
    forall q | q in s.procs && q != step.p
      ensures !Active(s.procs[q].pc)
    {
      assert ProcStands(pl, s.record, s.procs[q], at);
    }
  }

  lemma CommitIsPaid(pl: Pipeline, s: State, step: Step, at: Standing, k: nat, h0: nat)
    requires SnapshotsOk(pl, s) && Stands(pl, s, at) && Paid(pl, s, at, k, h0)
    requires Commits(pl, s, step) && Active(s.procs[step.p].pc)
    ensures Paid(pl, Do(pl, s, step), at, k, h0)
  {
    CommittedRow(pl, s, step);
    var t, pr := Do(pl, s, step), s.procs[step.p];
    assert ProcStands(pl, s.record, pr, at) && Earns(pl, pr, at, k, s.handoffs - h0);
    assert t.procs == s.procs[step.p := Returned(pr)];
    assert t.handoffs == if pr.pc.HandOver? then s.handoffs + 1 else s.handoffs;
    hide Do, RequestOf, StartIndex;
    forall q | q in s.procs && q != step.p
      ensures !Active(s.procs[q].pc)
    {
    }
  }

  lemma LocalIsPaid(pl: Pipeline, s: State, step: Step, at: Standing, k: nat, h: int)
    requires Stands(pl, s, at) && Smooth(step) && !step.Spawn? && !step.Save? && step.p in s.procs
    requires Active(s.procs[step.p].pc) ==> Earns(pl, s.procs[step.p], at, k, h)
    ensures var pr := Local(pl, s.record, s.procs[step.p], step);
      Active(pr.pc) ==> Earns(pl, pr, Advanced(pl, s, step, at), k, h)
  {
    var pr := s.procs[step.p];
    assert ProcStands(pl, s.record, pr, at);
    hide RequestOf, StartIndex;
  }

  lemma QuietIsPaid(pl: Pipeline, s: State, step: Step, at: Standing, k: nat, h0: nat)
    requires Stands(pl, s, at) && Smooth(step) && !step.Spawn? && !step.Save? && step.p in s.procs
    requires Paid(pl, s, at, k, h0)
    ensures Paid(pl, Do(pl, s, step), Advanced(pl, s, step, at), k, h0)
  {
    var t, next := Do(pl, s, step), Advanced(pl, s, step, at);
    GainIsNext(pl, s, step, at);
    LocalStands(pl, s, step, at);
    LocalIsPaid(pl, s, step, at, k, s.handoffs - h0);
    assert t.record == s.record && t.handoffs == s.handoffs;
    assert t.procs == s.procs[step.p := Local(pl, s.record, s.procs[step.p], step)];
    if Gain(s, step) != [] {
      assert ProcStands(pl, s.record, s.procs[step.p], at);
    }
    hide Do, Local, StartIndex, Gain;
  }

  lemma StepIsPaid(pl: Pipeline, s: State, step: Step, at: Standing, k: nat, h0: nat)
    requires SnapshotsOk(pl, s) && Stands(pl, s, at) && Smooth(step) && Paid(pl, s, at, k, h0)
    requires Delivers(pl, s, step, h0)
    ensures Paid(pl, Do(pl, s, step), Advanced(pl, s, step, at), k, h0)
  {
    if step.Spawn? {
      hide StartIndex;
    } else if !step.Save? {
      if step.p in s.procs {
        QuietIsPaid(pl, s, step, at, k, h0);
      } else {
        assert Do(pl, s, step) == s;
      }
    } else if !InCall(pl, s, step.p) {
      assert Do(pl, s, step) == s;
    } else {
      SaveIsPaid(pl, s, step, at, k, h0);
    }
  }

  lemma SaveIsPaid(pl: Pipeline, s: State, step: Step, at: Standing, k: nat, h0: nat)
    requires SnapshotsOk(pl, s) && Stands(pl, s, at) && Paid(pl, s, at, k, h0) && Delivers(pl, s, step, h0)
    requires step.Save? && InCall(pl, s, step.p)
    ensures Paid(pl, Do(pl, s, step), at, k, h0)
  {
    if Active(s.procs[step.p].pc) {
      ActiveSaves(pl, s, step.p, at);
      hide Do, Stands, Paid;
      CommitIsPaid(pl, s, step, at, k, h0);
    } else if Commits(pl, s, step) {
      hide Do, Stands, Paid;
      ClaimIsPaid(pl, s, step, at, k, h0);
    } else {
      assert Do(pl, s, step) == s.(procs := s.procs[step.p := Raised(s.procs[step.p])]);
      hide Do, StartIndex, RequestOf;
    }
  }

  lemma {:induction false} RunIsPaid(pl: Pipeline, s: State, steps: seq<Step>, k: nat)
    requires Distinct(pl) && k <= |pl| && Ready(pl, s, k) && AllSmooth(steps) && Delivered(pl, s, steps)
    ensures Paid(pl, Run(pl, s, steps), StandingAfter(pl, s, steps, k), k, s.handoffs)
  {
    if |steps| > 0 {
      hide Do, Stands, Gain, StandingAfter, Run, CutShort, Advanced, Paid, Delivers;
      var n := |steps| - 1;
      RunIsPaid(pl, s, steps[..n], k);
      RunStands(pl, s, steps[..n], k);
      RunSnapshots(pl, s, steps[..n]);
      StandingSnoc(pl, s, steps, k);
      StepIsPaid(pl, Run(pl, s, steps[..n]), steps[n], StandingAfter(pl, s, steps[..n], k), k, s.handoffs);
    }
  }

  // When every hand-over reaches a worker that may run the stage it names, a smooth
  // run of n stages has at most n hand-overs, wherever it stops.
  lemma HandOversBounded(pl: Pipeline, s: State, steps: seq<Step>, k: nat)
    requires Distinct(pl) && k <= |pl| && Ready(pl, s, k) && AllSmooth(steps) && Delivered(pl, s, steps)
    ensures s.handoffs <= Run(pl, s, steps).handoffs <= s.handoffs + |pl| - k
  {
    RunIsPaid(pl, s, steps, k);
  }

  // ---- The unsplit run ----

  predicate Laneless(step: Step) {
    step.Spawn? ==> step.lane.None?
  }

  predicate AllLaneless(procs: map<nat, Proc>) {
    forall p :: p in procs ==> procs[p].lane.None?
  }

  lemma LanelessStep(pl: Pipeline, s: State, step: Step, at: Standing)
    requires Stands(pl, s, at) && Smooth(step) && Laneless(step) && AllLaneless(s.procs)
    ensures AllLaneless(Do(pl, s, step).procs) && Do(pl, s, step).handoffs == s.handoffs
  {
    if step.Save? && InCall(pl, s, step.p) {
      assert ProcStands(pl, s.record, s.procs[step.p], at);
    }
    hide RequestOf, StartIndex;
  }

  // Workers without a lane never hand over.
  lemma {:induction false} LanelessRun(pl: Pipeline, s: State, steps: seq<Step>, k: nat)
    requires Distinct(pl) && k <= |pl| && Ready(pl, s, k) && AllSmooth(steps)
    requires AllLaneless(s.procs) && forall i :: 0 <= i < |steps| ==> Laneless(steps[i])
    ensures AllLaneless(Run(pl, s, steps).procs) && Run(pl, s, steps).handoffs == s.handoffs
  {
    if |steps| > 0 {
      hide Do, Stands, StandingAfter, Laneless;
      var n := |steps| - 1;
      LanelessRun(pl, s, steps[..n], k);
      RunStands(pl, s, steps[..n], k);
      LanelessStep(pl, Run(pl, s, steps[..n]), steps[n], StandingAfter(pl, s, steps[..n], k));
    }
  }

  // Any smooth run that succeeds, over workers of any lanes, executes the stages of
  // any successful run of workers without lanes, each once and in the same order,
  // and costs the same single attempt; the latter needs no hand-over.
  lemma LaneRefinement(pl: Pipeline, s: State, split: seq<Step>, whole: seq<Step>, k: nat)
    requires Distinct(pl) && k <= |pl| && Ready(pl, s, k) && AllSmooth(split) && AllSmooth(whole)
    requires Run(pl, s, split).record.status == Succeeded && Run(pl, s, whole).record.status == Succeeded
    requires !CutShort(pl, s, split) && !CutShort(pl, s, whole)
    requires AllLaneless(s.procs) && forall i :: 0 <= i < |whole| ==> Laneless(whole[i])
    ensures Bodies(pl, s, split) == Bodies(pl, s, whole) == Range(k, |pl|)
    ensures Run(pl, s, split).record.attempts == Run(pl, s, whole).record.attempts == s.record.attempts + 1
    ensures Run(pl, s, whole).handoffs == s.handoffs
  {
    hide Run, Do, Bodies, CutShort, Ready;
    StagesInOrder(pl, s, split, k);
    StagesInOrder(pl, s, whole, k);
    LanelessRun(pl, s, whole, k);
  }
}
