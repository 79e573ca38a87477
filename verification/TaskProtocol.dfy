// The life of one task record under any number of executors, sweepers, cancel
// requests and manual retries, each of which works on private snapshots and
// reaches the record only through load, mutate and save.
//
// A step is one stretch of code between two suspension points. A run is any
// sequence of steps; a step that is not enabled leaves the state unchanged, so
// a statement about all sequences is a statement about every interleaving.
module TaskProtocol {
  import opened Wrappers
  import opened TaskModels
  import opened TaskStore

  // ---- The stage pipeline ----

  datatype Stage = Stage(name: string, lane: Option<string>)

  type Pipeline = seq<Stage>

  predicate HasStage(pl: Pipeline, name: string) {
    exists i :: 0 <= i < |pl| && pl[i].name == name
  }

  // The first position of a name, as `list.index` finds it.
  function IndexOf(pl: Pipeline, name: string): (k: nat)
    requires HasStage(pl, name)
    ensures k < |pl| && pl[k].name == name
    ensures forall j :: 0 <= j < k ==> pl[j].name != name
  {
    if pl[0].name == name then 0 else
      assert HasStage(pl[1..], name) by {
        var i :| 0 <= i < |pl| && pl[i].name == name;
        assert pl[1..][i - 1].name == name;
      }
      var k := IndexOf(pl[1..], name);
      assert forall j :: 1 <= j < k + 1 ==> pl[j] == pl[1..][j - 1];
      k + 1
  }

  function StartIndex(pl: Pipeline, resume: Option<string>): (k: nat)
    ensures k <= |pl|
  {
    if resume.Some? && HasStage(pl, resume.value) then IndexOf(pl, resume.value) else 0
  }

  datatype Outcome = Done(result: string) | Handoff(lane: string, resumeStage: string)

  // ---- Processes ----

  datatype Pc =
    | Idle
    | Claim                               // read PENDING, about to claim
    | Start                               // claimed, the pipeline is about to read its anchor
    | Loop(i: nat)                        // top of the stage loop
    | Beat(i: nat)                        // the checkpoint renews the lease
    | Enter(i: nat)                       // about to record the stage
    | Body(i: nat)                        // running the stage body
    | Report(i: nat, fields: Fields)      // the body writes context, progress or message
    | Finish(outcome: Outcome)            // about to read the fence
    | Succeed(result: string)             // past the fence, about to write
    | HandOver(resume: string)
    | Fail(error: TaskError)              // about to read the fence
    | Requeue(error: TaskError)
    | Die(error: TaskError)
    | MarkCancelled                       // about to read the fence
    | Drop
    | AcceptRunning                       // cancel request on a running task
    | AcceptPending                       // cancel request on a queued task
    | Reclaim                             // a sweeper holds a stale candidate
    | Reopen(reset: bool, scratch: bool)  // a manual retry read FAILED

  // A store call between its load and its save.
  datatype Call = Call(snap: Task, now: int)

  // `seen` is the last copy this process took a decision on.
  datatype Proc = Proc(
    worker: string, lane: Option<string>, claimed: bool, pc: Pc,
    seen: Task, call: Option<Call>, conflicts: nat)

  const CANCELLED_ERROR := TaskError("cancelled", "the task was cancelled", false)
  const CANCEL_LEASE_ERROR := TaskError("cancelled_lease_expired", "the worker vanished while cancelling", false)
  const LEASE_ERROR := TaskError("lease_expired", "the worker's heartbeat timed out", true)
  const UNKNOWN_KIND := TaskError("UnknownKind", "no runner is registered for this kind", false)
  const STORE_ERROR := TaskError("StoreError", "a store call raised", false)

  function Minus1(n: nat): nat {
    if n == 0 then 0 else n - 1
  }

  // The write a process is about to make, with the version it pins, if any.
  datatype Request = Request(m: Mutation, expected: Option<nat>)

  function RequestOf(pl: Pipeline, pr: Proc): Option<Request> {
    match pr.pc
    case Claim =>
      Some(Request(Move(Running, NO_FIELDS.(
        attempts := Some(pr.seen.attempts + 1), workerId := Some(pr.worker),
        error := Some(None), message := Some("running"))), Some(pr.seen.version)))
    case Beat(_) => Some(Request(Heartbeat, None))
    case Enter(i) =>
      if i < |pl| then
        Some(Request(EnterStage(pl[i].name, NO_FIELDS.(progress := Some(i as real / |pl| as real))), None))
      else None
    case Report(_, f) => Some(Request(Update(f), None))
    case Succeed(result) =>
      Some(Request(Move(Succeeded, NO_FIELDS.(
        result := Some(result), resumeStage := Some(None), message := Some("done"))), None))
    case HandOver(resume) =>
      Some(Request(Move(Pending, NO_FIELDS.(
        attempts := Some(Minus1(pr.seen.attempts)), resumeStage := Some(Some(resume)),
        message := Some("handed over"))), None))
    case Requeue(error) =>
      Some(Request(Move(Pending, NO_FIELDS.(
        error := Some(Some(error)), resumeStage := Some(pr.seen.stage), message := Some("will retry"))), None))
    case Die(error) =>
      Some(Request(Move(Failed, NO_FIELDS.(
        error := Some(Some(error)), resumeStage := Some(pr.seen.stage), message := Some("failed"))), None))
    case Drop => Some(Request(Move(Cancelled, NO_FIELDS.(
        error := Some(Some(CANCELLED_ERROR)), message := Some("cancelled"))), None))
    case AcceptRunning => Some(Request(Move(Cancelling, NO_FIELDS.(message := Some("cancelling"))), None))
    case AcceptPending => Some(Request(Move(Cancelled, NO_FIELDS.(
        error := Some(Some(CANCELLED_ERROR)), message := Some("cancelled"))), None))
    case Reclaim =>
      Some(Request(
        if pr.seen.status == Cancelling then
          Move(Cancelled, NO_FIELDS.(error := Some(Some(CANCEL_LEASE_ERROR))))
        else
          Move(if pr.seen.attempts < pr.seen.maxAttempts then Pending else Failed,
               NO_FIELDS.(error := Some(Some(LEASE_ERROR)))), None))
    case Reopen(reset, scratch) =>
      Some(Request(Move(Pending, NO_FIELDS.(
        error := Some(None), message := Some("queued again"),
        attempts := if reset then Some(0) else None,
        resumeStage := if scratch then Some(None) else None)), None))
    case _ => None
  }

  // Where a process goes when its store call returns.
  function Returned(pr: Proc): Proc {
    var next :=
      match pr.pc
      case Claim => Start
      case Beat(i) => Enter(i)
      case Enter(i) => Body(i)
      case Report(i, _) => Body(i)
      case _ => Idle;
    pr.(pc := next, claimed := pr.claimed || pr.pc.Claim?, call := None, conflicts := 0)
  }

  // Where a process goes when its store call raises: the stage loop and the
  // success path are inside the executor's try block, the handlers are not.
  function Raised(pr: Proc): Proc {
    var next := if InTry(pr.pc) && !pr.pc.Claim? then Fail(STORE_ERROR) else Idle;
    pr.(pc := next, call := None, conflicts := 0)
  }

  predicate InRunner(pc: Pc) {
    pc.Start? || pc.Loop? || pc.Beat? || pc.Enter? || pc.Body? || pc.Report?
  }

  predicate InTry(pc: Pc) {
    pc.Claim? || InRunner(pc) || pc.Finish? || pc.Succeed? || pc.HandOver?
  }

  predicate BodyFields(f: Fields) {
    f == NO_FIELDS.(context := f.context, progress := f.progress, message := f.message)
  }

  predicate StillMine(pr: Proc, row: Task) {
    pr.claimed ==> row.workerId == Some(pr.worker)
  }

  // ---- Steps ----

  datatype Step =
    | Spawn(p: nat, worker: string, lane: Option<string>)
    | Crash(p: nat)
    | Fetch(p: nat, known: bool)
    | Load(p: nat, now: int)
    | Save(p: nat)
    | ReadAnchor(p: nat)
    | Advance(p: nat, beat: bool, result: string)
    | BodyReturns(p: nat, done: Option<string>)
    | BodyReports(p: nat, fields: Fields)
    | RunnerRaises(p: nat, error: TaskError)
    | Interrupt(p: nat, lostAck: bool)
    | Fence(p: nat)
    | AskCancel(p: nat)
    | MarkStray(p: nat)
    | Suspect(p: nat)
    | AskRetry(p: nat, reset: bool, scratch: bool)

  // The part of a step that only concerns the process taking it.
  function Local(pl: Pipeline, row: Task, pr: Proc, step: Step): Proc {
    match step
    case Fetch(_, known) =>
      if pr.pc.Idle? && row.status == Pending then
        pr.(pc := if known then Claim else Fail(UNKNOWN_KIND), claimed := false, seen := row)
      else pr
    case Load(_, now) => LoadStep(pl, row, pr, now)
    case ReadAnchor(_) =>
      if pr.pc.Start? then pr.(pc := Loop(StartIndex(pl, row.resumeStage)), seen := row) else pr
    case Advance(_, beat, result) =>
      if pr.pc.Loop? then AdvanceStep(pl, row, pr, beat, result) else pr
    case BodyReturns(_, done) =>
      if pr.pc.Body? then
        pr.(pc := if done.Some? then Finish(Done(done.value)) else Loop(pr.pc.i + 1))
      else pr
    case BodyReports(_, f) =>
      if pr.pc.Body? && BodyFields(f) then pr.(pc := Report(pr.pc.i, f)) else pr
    case RunnerRaises(_, error) =>
      if InRunner(pr.pc) then pr.(pc := Fail(error), call := None, conflicts := 0) else pr
    case Interrupt(_, lostAck) =>
      if InTry(pr.pc) then
        pr.(pc := MarkCancelled, call := None, conflicts := 0,
            claimed := pr.claimed && !(pr.pc.Start? && lostAck))
      else pr
    case Fence(_) => FenceStep(row, pr)
    case AskCancel(_) =>
      if pr.pc.Idle? && row.status == Running then pr.(pc := AcceptRunning, seen := row)
      else if pr.pc.Idle? && row.status == Pending then pr.(pc := AcceptPending, seen := row)
      else pr
    case MarkStray(_) => if pr.pc.Idle? then pr.(pc := MarkCancelled, claimed := true) else pr
    case Suspect(_) =>
      if pr.pc.Idle? && row.status.IsActive() then pr.(pc := Reclaim, seen := row) else pr
    case AskRetry(_, reset, scratch) =>
      if pr.pc.Idle? && row.status == Failed then pr.(pc := Reopen(reset, scratch), seen := row) else pr
    case _ => pr
  }

  function LoadStep(pl: Pipeline, row: Task, pr: Proc, now: int): Proc {
    var q := RequestOf(pl, pr);
    if q.None? || pr.call.Some? then pr
    else if q.value.expected.Some? && q.value.expected.value != row.version then Raised(pr)
    else if Mutate(row, q.value.m, now).Err? then Raised(pr)
    else pr.(call := Some(Call(row, now)))
  }

  // The lane test comes before the checkpoint, the checkpoint before the stage record.
  function AdvanceStep(pl: Pipeline, row: Task, pr: Proc, beat: bool, result: string): Proc
    requires pr.pc.Loop?
  {
    var i := pr.pc.i;
    if i >= |pl| then pr.(pc := Finish(Done(result)))
    else if pl[i].lane.Some? && pr.lane.Some? && pl[i].lane != pr.lane then
      pr.(pc := Finish(Handoff(pl[i].lane.value, pl[i].name)))
    else if row.status == Cancelling then pr.(pc := MarkCancelled)
    else pr.(pc := if beat then Beat(i) else Enter(i))
  }

  function FenceStep(row: Task, pr: Proc): Proc {
    var next :=
      match pr.pc
      case Finish(Done(result)) => if StillMine(pr, row) then Succeed(result) else Idle
      case Finish(Handoff(_, resume)) =>
        if StillMine(pr, row) && row.status == Running then HandOver(resume) else Idle
      case Fail(error) =>
        if !StillMine(pr, row) || row.status.IsTerminal() then Idle
        else if error.retriable && row.attempts < row.maxAttempts then Requeue(error)
        else Die(error)
      case MarkCancelled => if !StillMine(pr, row) || row.status.IsTerminal() then Idle else Drop
      case _ => pr.pc;
    if next == pr.pc then pr else pr.(pc := next, seen := row)
  }

  // ---- The whole system ----

  // `log`, `completed`, `claims` and `handoffs` are history: the version-bumping
  // commits so far, the stages whose body has returned at least once, and the
  // claims and hand-overs committed since the last retry that reset the attempts.
  datatype State = State(
    record: Task, procs: map<nat, Proc>, log: seq<(Mutation, int)>,
    completed: set<nat>, claims: nat, handoffs: nat)

  predicate InCall(pl: Pipeline, s: State, p: nat) {
    p in s.procs && s.procs[p].call.Some? && RequestOf(pl, s.procs[p]).Some?
  }

  // The save that `step` makes goes through.
  predicate Commits(pl: Pipeline, s: State, step: Step) {
    && step.Save? && InCall(pl, s, step.p)
    && s.procs[step.p].call.value.snap.version == s.record.version
    && Mutate(s.procs[step.p].call.value.snap, RequestOf(pl, s.procs[step.p]).value.m,
              s.procs[step.p].call.value.now).Ok?
  }

  function DoSave(pl: Pipeline, s: State, p: nat): State
    requires InCall(pl, s, p)
  {
    var pr := s.procs[p];
    var q := RequestOf(pl, pr).value;
    if Commits(pl, s, Save(p)) then
      State(
        Committed(pr.call.value.snap, q.m, pr.call.value.now),
        s.procs[p := Returned(pr)],
        if Bumps(q.m) then s.log + [(q.m, pr.call.value.now)] else s.log,
        s.completed,
        if pr.pc.Claim? then s.claims + 1 else if pr.pc.Reopen? && pr.pc.reset then 0 else s.claims,
        if pr.pc.HandOver? then s.handoffs + 1 else if pr.pc.Reopen? && pr.pc.reset then 0 else s.handoffs)
    else if q.expected.Some? || pr.conflicts + 1 >= CAS_RETRIES then
      s.(procs := s.procs[p := Raised(pr)])
    else
      s.(procs := s.procs[p := pr.(call := None, conflicts := pr.conflicts + 1)])
  }

  function Do(pl: Pipeline, s: State, step: Step): State {
    match step
    case Spawn(p, worker, lane) =>
      if p in s.procs then s
      else s.(procs := s.procs[p := Proc(worker, lane, false, Idle, s.record, None, 0)])
    case Crash(p) => s.(procs := s.procs - {p})
    case Save(p) => if InCall(pl, s, p) then DoSave(pl, s, p) else s
    case _ =>
      if step.p !in s.procs then s
      else
        var pr := s.procs[step.p];
        s.(procs := s.procs[step.p := Local(pl, s.record, pr, step)],
           completed := if step.BodyReturns? && pr.pc.Body? then s.completed + {pr.pc.i} else s.completed)
  }

  function Run(pl: Pipeline, s: State, steps: seq<Step>): State {
    if |steps| == 0 then s
    else Do(pl, Run(pl, s, steps[..|steps| - 1]), steps[|steps| - 1])
  }

  // A freshly created row that nobody has touched.
  predicate Initial(s: State) {
    && s.record.status == Pending && s.record.attempts == 0
    && s.record.stage.None? && s.record.resumeStage.None? && s.record.history == []
    && s.record.workerId.None? && s.record.finishedAt.None?
    && s.procs == map[] && s.log == [] && s.completed == {} && s.claims == 0 && s.handoffs == 0
  }

  // ---- Inductive invariant ----

  // A held copy is either older than the row or agrees with it on all but the heartbeat.
  predicate ProcOk(pl: Pipeline, row: Task, pr: Proc) {
    && RowLater(pr.seen, row)
    && (pr.call.Some? ==>
          && RowLater(pr.call.value.snap, row)
          && RequestOf(pl, pr).Some?
          && Mutate(pr.call.value.snap, RequestOf(pl, pr).value.m, pr.call.value.now).Ok?
          && (RequestOf(pl, pr).value.expected.Some? ==>
                RequestOf(pl, pr).value.expected.value == pr.call.value.snap.version))
    && (pr.pc.Claim? ==> pr.seen.status == Pending)
    && (pr.pc.Report? ==> BodyFields(pr.pc.fields))
  }

  predicate SnapshotsOk(pl: Pipeline, s: State) {
    forall p :: p in s.procs ==> ProcOk(pl, s.record, s.procs[p])
  }

  lemma LocalKeepsProcOk(pl: Pipeline, row: Task, pr: Proc, step: Step)
    requires ProcOk(pl, row, pr)
    ensures ProcOk(pl, row, Local(pl, row, pr, step))
  {
    match step
    case Load(_, now) =>
    case Advance(_, beat, result) =>
    case Fence(_) =>
    case _ =>
  }

  lemma ProcOkLater(pl: Pipeline, row: Task, next: Task, pr: Proc)
    requires ProcOk(pl, row, pr) && RowLater(row, next)
    ensures ProcOk(pl, next, pr)
  {
  }

  lemma CommitIsLater(pl: Pipeline, s: State, step: Step)
    requires SnapshotsOk(pl, s) && Commits(pl, s, step)
    ensures RowLater(s.record, Do(pl, s, step).record)
  {
    CommitIsAtomic(pl, s, step);
  }

  lemma StepKeepsSnapshots(pl: Pipeline, s: State, step: Step)
    requires SnapshotsOk(pl, s)
    ensures SnapshotsOk(pl, Do(pl, s, step))
  {
    var t := Do(pl, s, step);
    if Commits(pl, s, step) {
      CommitIsLater(pl, s, step);
      forall p | p in t.procs
        ensures ProcOk(pl, t.record, t.procs[p])
      {
        ProcOkLater(pl, s.record, t.record, s.procs[p]);
      }
    } else {
      forall p | p in t.procs
        ensures ProcOk(pl, t.record, t.procs[p])
      {
        if p in s.procs {
          LocalKeepsProcOk(pl, s.record, s.procs[p], step);
        }
      }
    }
  }

  // A committed save has the effect of the mutation on the row as it is at that moment.
  lemma CommitIsAtomic(pl: Pipeline, s: State, step: Step)
    requires SnapshotsOk(pl, s) && Commits(pl, s, step)
    ensures var m, now := RequestOf(pl, s.procs[step.p]).value.m, s.procs[step.p].call.value.now;
      && Mutate(s.record, m, now).Ok?
      && SameButHeartbeat(Do(pl, s, step).record, Committed(s.record, m, now))
  {
    var pr := s.procs[step.p];
    assert ProcOk(pl, s.record, pr);
    MutateIgnoresHeartbeat(pr.call.value.snap, s.record, RequestOf(pl, pr).value.m, pr.call.value.now);
  }
}
