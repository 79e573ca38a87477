// The task record, the transition table and the in-memory mutations that the
// store applies to a loaded copy of the record.
//
// The store only ever hands out deep copies and stores deep copies, so a
// record is a value here: a snapshot that a process holds never aliases the row.
module TaskModels {
  import opened Wrappers

  datatype Status = Pending | Running | Cancelling | Succeeded | Failed | Cancelled {
    predicate IsTerminal() {
      this == Succeeded || this == Failed || this == Cancelled
    }

    predicate IsActive() {
      this == Running || this == Cancelling
    }
  }

  // The transition table; `from` to itself is always allowed.
  function Allowed(from: Status): set<Status> {
    match from
    case Pending => {Running, Cancelled, Failed}
    case Running => {Succeeded, Failed, Cancelling, Pending}
    case Cancelling => {Cancelled, Succeeded, Failed}
    case Failed => {Pending}
    case Succeeded => {}
    case Cancelled => {}
  }

  predicate CanTransition(from: Status, to: Status) {
    from == to || to in Allowed(from)
  }

  datatype TaskError = TaskError(code: string, message: string, retriable: bool)

  datatype StageStatus = StageRunning | StageSucceeded | StageFailed | StageCancelled

  datatype StageRecord = StageRecord(
    stage: string, startedAt: int, finishedAt: Option<int>, status: StageStatus)

  datatype Task = Task(
    taskId: string,
    kind: string,
    idempotencyKey: Option<string>,
    status: Status,
    stage: Option<string>,
    history: seq<StageRecord>,
    context: string,
    result: Option<string>,
    resumeStage: Option<string>,
    error: Option<TaskError>,
    attempts: nat,
    maxAttempts: nat,
    progress: real,
    message: string,
    version: nat,
    workerId: Option<string>,
    updatedAt: int,
    startedAt: Option<int>,
    finishedAt: Option<int>,
    heartbeatAt: Option<int>)

  // The keyword arguments of `transition`, `enter_stage` and `update`: the
  // outer option says whether the caller passed the field at all.
  datatype Fields = Fields(
    attempts: Option<nat>,
    workerId: Option<string>,
    error: Option<Option<TaskError>>,
    resumeStage: Option<Option<string>>,
    result: Option<string>,
    context: Option<string>,
    progress: Option<real>,
    message: Option<string>)

  const NO_FIELDS := Fields(None, None, None, None, None, None, None, None)

  function OrElse<T>(given: Option<T>, current: T): T {
    match given
    case Some(v) => v
    case None => current
  }

  function Assign(t: Task, f: Fields): Task {
    t.(attempts := OrElse(f.attempts, t.attempts),
       workerId := if f.workerId.Some? then f.workerId else t.workerId,
       error := OrElse(f.error, t.error),
       resumeStage := OrElse(f.resumeStage, t.resumeStage),
       result := if f.result.Some? then f.result else t.result,
       context := OrElse(f.context, t.context),
       progress := OrElse(f.progress, t.progress),
       message := OrElse(f.message, t.message))
  }

  // Close the newest stage record if it is still open.
  function CloseStage(history: seq<StageRecord>, status: StageStatus, now: int): seq<StageRecord> {
    if |history| > 0 && history[|history| - 1].finishedAt.None? then
      var last := history[|history| - 1];
      history[|history| - 1 := last.(finishedAt := Some(now), status := status)]
    else
      history
  }

  // The resume anchor is filled in only when the caller did not pass one and none is stored.
  function AnchorIfMissing(t: Task, f: Fields): Option<string> {
    if f.resumeStage.None? && t.resumeStage.None? then t.stage else t.resumeStage
  }

  // What `transition` does to its loaded copy once the table allows the move.
  function Moved(t: Task, to: Status, f: Fields, now: int): Task {
    var a := Assign(t, f).(status := to, updatedAt := now);
    match to
    case Running =>
      a.(startedAt := if a.startedAt.Some? then a.startedAt else Some(now),
         finishedAt := None,
         heartbeatAt := Some(now))
    case Pending =>
      a.(finishedAt := None,
         heartbeatAt := None,
         workerId := None,
         history := if a.error.Some? then CloseStage(a.history, StageFailed, now) else a.history,
         resumeStage := AnchorIfMissing(a, f))
    case Cancelling => a
    case Succeeded =>
      a.(finishedAt := Some(now), heartbeatAt := None, progress := 1.0,
         history := CloseStage(a.history, StageSucceeded, now))
    case Failed =>
      a.(finishedAt := Some(now), heartbeatAt := None,
         history := CloseStage(a.history, StageFailed, now),
         resumeStage := AnchorIfMissing(a, f))
    case Cancelled =>
      a.(finishedAt := Some(now), heartbeatAt := None,
         history := CloseStage(a.history, StageCancelled, now))
  }

  // The mutations that reach the compare-and-swap.
  datatype Mutation =
    | Move(to: Status, fields: Fields)
    | EnterStage(name: string, fields: Fields)
    | Update(fields: Fields)
    | Heartbeat

  datatype StoreError = InvalidTransition | VersionConflict | TaskNotFound

  predicate Bumps(m: Mutation) {
    !m.Heartbeat?
  }

  function Mutate(t: Task, m: Mutation, now: int): (r: Result<Task, StoreError>)
    ensures r.Ok? ==> r.value.version == t.version && r.value.taskId == t.taskId
    ensures r.Err? ==> r.error == InvalidTransition
  {
    match m
    case Move(to, f) =>
      if CanTransition(t.status, to) then Ok(Moved(t, to, f, now)) else Err(InvalidTransition)
    case EnterStage(name, f) =>
      var entry := StageRecord(name, now, None, StageRunning);
      Ok(Assign(t.(history := CloseStage(t.history, StageSucceeded, now) + [entry],
                   stage := Some(name)),
                f).(updatedAt := now))
    case Update(f) => Ok(Assign(t, f).(updatedAt := now))
    case Heartbeat => Ok(t.(heartbeatAt := Some(now)))
  }

  // The row after an atomic commit of `m`.
  function Committed(t: Task, m: Mutation, now: int): Task
    requires Mutate(t, m, now).Ok?
  {
    Mutate(t, m, now).value.(version := if Bumps(m) then t.version + 1 else t.version)
  }

  // Equality of two records on every field but the lease heartbeat, the only
  // field that is written without a new version.
  predicate SameButHeartbeat(a: Task, b: Task) {
    a.(heartbeatAt := None) == b.(heartbeatAt := None)
  }

  // No mutation reads the heartbeat, so records that differ only there stay so.
  lemma MutateIgnoresHeartbeat(a: Task, b: Task, m: Mutation, now: int)
    requires SameButHeartbeat(a, b)
    ensures Mutate(a, m, now).Ok? == Mutate(b, m, now).Ok?
    ensures Mutate(a, m, now).Ok? ==> SameButHeartbeat(Mutate(a, m, now).value, Mutate(b, m, now).value)
  {
    assert b == a.(heartbeatAt := b.heartbeatAt);
  }

  // ---- What every mutation keeps about the record ----

  // Every stage record but the newest is closed.
  predicate OnlyLastOpen(history: seq<StageRecord>) {
    forall i :: 0 <= i < |history| - 1 ==> history[i].finishedAt.Some?
  }

  predicate RecordOk(t: Task) {
    && (t.status.IsTerminal() <==> t.finishedAt.Some?)
    && (t.status == Pending ==> t.workerId.None?)
    && OnlyLastOpen(t.history)
  }

  // `after` extends `before`, and the records closed in `before` are untouched.
  predicate ClosedKept(before: seq<StageRecord>, after: seq<StageRecord>) {
    && |before| <= |after|
    && forall i :: 0 <= i < |before| && before[i].finishedAt.Some? ==> after[i] == before[i]
  }

  // The mutations that the program issues never hand a worker to a move into the queue.
  lemma MutateKeepsRecordOk(t: Task, m: Mutation, now: int)
    requires RecordOk(t)
    requires Mutate(t, m, now).Ok?
    requires (m.Update? || m.EnterStage?) ==> m.fields.workerId.None?
    ensures RecordOk(Mutate(t, m, now).value)
    ensures CanTransition(t.status, Mutate(t, m, now).value.status)
    ensures ClosedKept(t.history, Mutate(t, m, now).value.history)
    ensures t.status != Mutate(t, m, now).value.status ==> m.Move?
  {
  }
}
