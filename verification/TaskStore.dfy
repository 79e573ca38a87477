// The in-memory task store and the compare-and-swap loop on top of it.
module TaskStore {
  import opened Wrappers
  import opened TaskModels

  const CAS_RETRIES: nat := 5

  type Table = map<string, Task>

  // What other processes can do to the table while this one awaits: rows are
  // added, removed or replaced, and a replaced row has a newer version unless
  // the write was a heartbeat.
  predicate RowLater(a: Task, b: Task) {
    && a.version <= b.version
    && (a.version == b.version ==> SameButHeartbeat(a, b))
  }

  lemma RowLaterTransitive(a: Task, b: Task, c: Task)
    requires RowLater(a, b) && RowLater(b, c)
    ensures RowLater(a, c)
  {
  }

  lemma AfterLater(a: Task, b: Task, c: Option<Task>, d: Option<Task>)
    requires RowLater(a, b)
    ensures c.Some? && RowLater(b, c.value) ==> RowLater(a, c.value)
    ensures d.Some? && RowLater(b, d.value) ==> RowLater(a, d.value)
  {
  }

  predicate Evolves(before: Table, after: Table) {
    forall id :: id in after && id in before ==> RowLater(before[id], after[id])
  }

  lemma RowEvolves(before: Table, after: Table, id: string)
    requires Evolves(before, after) && id in before && id in after
    ensures RowLater(before[id], after[id]) && before[id].version <= after[id].version
  {
  }

  // A copy of the row's own version differs in the heartbeat only, so saving its mutation commits it on the row.
  lemma SaveIsCommit(copy: Task, row: Task, m: Mutation, now: int)
    requires RowLater(copy, row) && Mutate(copy, m, now).Ok?
    ensures copy.version == row.version ==>
      var v := copy.version;
      && Mutate(row, m, now).Ok?
      && SameButHeartbeat(Mutate(copy, m, now).value.(version := if Bumps(m) then v + 1 else v), Committed(row, m, now))
  {
    if copy.version == row.version {
      MutateIgnoresHeartbeat(copy, row, m, now);
    }
  }

  predicate Keyed(table: Table) {
    forall id :: id in table ==> table[id].taskId == id
  }

  // A non-empty idempotency key names at most one task of a kind.
  predicate KeysUnique(table: Table) {
    forall a, b | a in table && b in table && a != b && HasKey(table[a]) :: !Clashes(table[a], table[b])
  }

  predicate HasKey(t: Task) {
    t.idempotencyKey.Some? && t.idempotencyKey.value != ""
  }

  predicate Clashes(t: Task, row: Task) {
    row.kind == t.kind && row.idempotencyKey == t.idempotencyKey
  }

  class InMemoryTaskStore {
    var tasks: Table
    // How many saves this process has committed.
    ghost var saves: nat

    constructor ()
      ensures tasks == map[] && saves == 0
    {
      tasks := map[];
      saves := 0;
    }

    // Atomic insert. With an idempotency key one writer wins and later ones get the winner.
    method Insert(task: Task) returns (stored: Task, created: bool)
      requires KeysUnique(tasks)
      modifies this`tasks
      ensures KeysUnique(tasks)
      ensures created ==> stored == task && tasks == old(tasks)[task.taskId := task]
      ensures !created ==>
        && tasks == old(tasks) && stored in old(tasks).Values
        && stored.kind == task.kind && stored.idempotencyKey == task.idempotencyKey
      // It is created unless it has a key that is not empty and a row of its kind has the same one.
      ensures created <==>
        || task.idempotencyKey.None? || task.idempotencyKey.value == ""
        || forall id :: id in old(tasks) ==>
             old(tasks)[id].kind != task.kind || old(tasks)[id].idempotencyKey != task.idempotencyKey
    {
      if HasKey(task) {
        var ids := tasks.Keys;
        while ids != {}
          invariant ids <= tasks.Keys
          invariant forall id :: id in tasks && id !in ids ==> !Clashes(task, tasks[id])
          decreases ids
        {
          var id :| id in ids;
          if Clashes(task, tasks[id]) {
            return tasks[id], false;
          }
          ids := ids - {id};
        }
      }
      tasks := tasks[task.taskId := task];
      return task, true;
    }

    method Load(id: string) returns (task: Option<Task>)
      ensures task == if id in tasks then Some(tasks[id]) else None
    {
      task := if id in tasks then Some(tasks[id]) else None;
    }

    // The compare-and-swap primitive: the row is replaced only if it still has the expected version.
    method Save(task: Task, expectedVersion: nat, bump: bool) returns (r: Result<Task, StoreError>)
      modifies this
      ensures r.Err? ==> tasks == old(tasks) && saves == old(saves)
      ensures r.Err? ==> r.error == if task.taskId in old(tasks) then VersionConflict else TaskNotFound
      ensures r.Ok? <==> task.taskId in old(tasks) && old(tasks)[task.taskId].version == expectedVersion
      ensures r.Ok? ==>
        && r.value == task.(version := if bump then expectedVersion + 1 else expectedVersion)
        && tasks == old(tasks)[task.taskId := r.value]
        && saves == old(saves) + 1
    {
      if task.taskId !in tasks {
        return Err(TaskNotFound);
      }
      if tasks[task.taskId].version != expectedVersion {
        return Err(VersionConflict);
      }
      var saved := task.(version := if bump then expectedVersion + 1 else expectedVersion);
      tasks := tasks[task.taskId := saved];
      saves := saves + 1;
      return Ok(saved);
    }

    // A suspension point: any number of other processes' writes land here.
    method Interfere()
      requires Keyed(tasks)
      modifies this`tasks
      ensures Evolves(old(tasks), tasks) && Keyed(tasks)
    {
      var next: Table := *;
      if Evolves(tasks, next) && Keyed(next) {
        tasks := next;
      }
    }

    // One round of the loop: read, mutate the copy, save. `row` is the row that the save met,
    // `seen` the version of the copy.
    method Attempt(id: string, expected: Option<nat>, m: Mutation, now: int)
      returns (r: Result<Task, StoreError>, ghost row: Option<Task>, ghost seen: nat)
      requires Keyed(tasks)
      modifies this
      ensures Keyed(tasks)
      ensures r.Ok? ==>
        && saves == old(saves) + 1 && id in tasks && tasks[id] == r.value
        && row.Some? && Mutate(row.value, m, now).Ok? && SameButHeartbeat(r.value, Committed(row.value, m, now))
        && (expected.Some? ==> row.value.version == expected.value)
        && (id in old(tasks) ==> RowLater(old(tasks)[id], row.value))
      ensures r.Err? ==> saves == old(saves)
      ensures r == Err(TaskNotFound) ==> id !in tasks
      ensures r == Err(InvalidTransition) ==> id in tasks && Mutate(tasks[id], m, now) == Err(InvalidTransition)
      ensures r == Err(VersionConflict) ==>
        && id in tasks && (expected.Some? ==> tasks[id].version != expected.value)
        && (expected.None? ==> tasks[id].version > seen)
        && (id in old(tasks) ==> old(tasks)[id].version <= seen && RowLater(old(tasks)[id], tasks[id]))
    {
      hide Mutate, Committed, SameButHeartbeat, RowLater, Evolves;
      row, seen := None, 0;
      Interfere();
      var loaded := Load(id);
      if loaded.None? {
        return Err(TaskNotFound), row, seen;
      }
      var task := loaded.value;
      seen := task.version;
      if id in old(tasks) {
        RowEvolves(old(tasks), tasks, id);
      }
      if expected.Some? && expected.value != task.version {
        return Err(VersionConflict), row, seen;
      }
      var mutated := Mutate(task, m, now);
      if mutated.Err? {
        return Err(mutated.error), row, seen;
      }
      ghost var before := tasks;
      Interfere();
      if id in tasks {
        row := Some(tasks[id]);
        RowEvolves(before, tasks, id);
        SaveIsCommit(task, tasks[id], m, now);
        if id in old(tasks) {
          RowLaterTransitive(old(tasks)[id], task, tasks[id]);
        }
      }
      r := Save(mutated.value, task.version, Bumps(m));
    }

    // Reload and try again on a conflict unless the caller pinned the version. `row` is the row
    // that the successful save met, `first` the version of the first copy.
    method Cas(id: string, expected: Option<nat>, m: Mutation, clock: nat -> int)
      returns (r: Result<Task, StoreError>, ghost row: Option<Task>, ghost first: nat, ghost now: int)
      requires Keyed(tasks)
      modifies this
      ensures Keyed(tasks)
      // A committed call acts on the row as it is at the moment of the commit.
      ensures r.Ok? ==>
        && saves == old(saves) + 1
        && row.Some? && Mutate(row.value, m, now).Ok?
        && SameButHeartbeat(r.value, Committed(row.value, m, now))
        && id in tasks && tasks[id] == r.value
        && (expected.Some? ==> row.value.version == expected.value)
        && (id in old(tasks) ==> RowLater(old(tasks)[id], row.value))
      // A call that raises has written nothing.
      ensures r.Err? ==> saves == old(saves)
      // Without a pinned version a conflict means that others bumped the row that many times.
      ensures r == Err(VersionConflict) && expected.None? ==>
        && id in tasks && tasks[id].version >= first + CAS_RETRIES
        && (id in old(tasks) ==> first >= old(tasks)[id].version)
      // With one, the row has another version; an illegal mutation is illegal on the row; a row not found is gone.
      ensures r == Err(VersionConflict) && expected.Some? ==> id in tasks && tasks[id].version != expected.value
      ensures r == Err(InvalidTransition) ==> id in tasks && Mutate(tasks[id], m, now) == Err(InvalidTransition)
      ensures r == Err(TaskNotFound) ==> id !in tasks
    {
      hide Mutate, Committed, SameButHeartbeat, RowLater;
      now := clock(0);
      first, row := 0, None;
      for attempt := 0 to CAS_RETRIES
        invariant Keyed(tasks) && saves == old(saves)
        invariant attempt == 0 ==> tasks == old(tasks)
        invariant attempt > 0 ==> expected.None? && id in tasks && tasks[id].version >= first + attempt
        invariant attempt > 0 && id in old(tasks) ==>
          first >= old(tasks)[id].version && RowLater(old(tasks)[id], tasks[id])
      {
        ghost var before := tasks;
        ghost var seen;
        now := clock(attempt);
        r, row, seen := Attempt(id, expected, m, clock(attempt));
        if attempt == 0 {
          first := seen;
        } else if id in old(tasks) {
          AfterLater(old(tasks)[id], before[id], row, if id in tasks then Some(tasks[id]) else None);
        }
        if r.Ok? || r.error != VersionConflict || expected.Some? {
          return;
        }
        if attempt > 0 {
          assert seen >= before[id].version;
        }
      }
      return Err(VersionConflict), row, first, now;
    }
  }
}
