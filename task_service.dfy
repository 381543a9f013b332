/**
 * The task service: a table of tasks keyed by id, edited in place. Every
 * lookup either finds the id or raises "entity not found" and leaves the table
 * as it was. The table transitions are given as functions first; the
 * service's methods are proved to perform exactly those transitions.
 */
module TaskService {
  import opened Wrappers
  import opened Domain

  type Table = map<int, Task>

  /** EntityNotFoundException('Task not found with ID: ' . id). */
  datatype NotFound = EntityNotFound(taskId: int)

  /** Every stored task sits under its own id. */
  ghost predicate Keyed(m: Table) {
    forall id :: id in m ==> m[id].id == id
  }

  /** Two tables agree on every id other than `id`. */
  ghost predicate OthersUnchanged(m: Table, m': Table, id: int) {
    && (forall k :: k != id ==> (k in m <==> k in m'))
    && (forall k :: k != id && k in m ==> m'[k] == m[k])
  }

  // ---------------------------------------------------------------------------
  // Table transitions

  function UpdatedTable(m: Table, id: int, dto: TaskDto): (r: Result<Table, NotFound>)
    ensures r.Failure? <==> id !in m
    ensures r.Failure? ==> r.error == EntityNotFound(id)
    ensures r.Success? ==> id in r.value && OthersUnchanged(m, r.value, id)
    ensures r.Success? ==>
      var (before, after) := (m[id], r.value[id]);
      && after.name == dto.name && after.description == dto.description && after.deadline == dto.deadline
      && after.isDone == before.isDone && after.isDeleted == before.isDeleted
      && after.id == before.id && after.createdAt == before.createdAt
  {
    if id !in m then Failure(EntityNotFound(id))
    else Success(m[id := m[id].(name := dto.name, description := dto.description, deadline := dto.deadline)])
  }

  function FlippedTable(m: Table, id: int): (r: Result<Table, NotFound>)
    ensures r.Failure? <==> id !in m
    ensures r.Failure? ==> r.error == EntityNotFound(id)
    ensures r.Success? ==> id in r.value && OthersUnchanged(m, r.value, id)
    ensures r.Success? ==> r.value[id] == m[id].(isDone := !m[id].isDone)
  {
    if id !in m then Failure(EntityNotFound(id))
    else Success(m[id := m[id].(isDone := !m[id].isDone)])
  }

  function RemovedTable(m: Table, id: int): (r: Result<Table, NotFound>)
    ensures r.Failure? <==> id !in m
    ensures r.Failure? ==> r.error == EntityNotFound(id)
    ensures r.Success? ==> r.value.Keys == m.Keys - {id} && OthersUnchanged(m, r.value, id)
  {
    if id !in m then Failure(EntityNotFound(id))
    else Success(m - {id})
  }

  function FlaggedTable(m: Table, id: int, deleteFlag: bool): (r: Result<Table, NotFound>)
    ensures r.Failure? <==> id !in m
    ensures r.Failure? ==> r.error == EntityNotFound(id)
    ensures r.Success? ==> id in r.value && OthersUnchanged(m, r.value, id)
    ensures r.Success? ==> r.value[id] == m[id].(isDeleted := deleteFlag)
  {
    if id !in m then Failure(EntityNotFound(id))
    else Success(m[id := m[id].(isDeleted := deleteFlag)])
  }

  // ---------------------------------------------------------------------------
  // Laws of the transitions

  /** Flipping twice restores the table. */
  lemma FlipTwiceRestores(m: Table, id: int)
    requires id in m
    ensures FlippedTable(FlippedTable(m, id).value, id) == Success(m)
  {
    var once := FlippedTable(m, id).value;
    assert once[id := once[id].(isDone := !once[id].isDone)] == m;
  }

  /** Flipping does not look at the deleted flag: a deleted task is flipped too. */
  lemma FlipIgnoresDeletedFlag(m: Table, id: int)
    requires id in m && m[id].isDeleted
    ensures FlippedTable(m, id).Success? && FlippedTable(m, id).value[id].isDeleted
  {
  }

  /** Setting the deleted flag twice is the same as setting it once. */
  lemma SetDeletedIdempotent(m: Table, id: int, deleteFlag: bool)
    requires id in m
    ensures FlaggedTable(FlaggedTable(m, id, deleteFlag).value, id, deleteFlag) == FlaggedTable(m, id, deleteFlag)
  {
    var once := FlaggedTable(m, id, deleteFlag).value;
    assert once[id := once[id].(isDeleted := deleteFlag)] == once;
  }

  /** Soft-deleting a task that was not deleted and then restoring it gives back the same table. */
  lemma DeleteThenRestoreRoundTrip(m: Table, id: int)
    requires id in m && !m[id].isDeleted
    ensures FlaggedTable(FlaggedTable(m, id, true).value, id, false) == Success(m)
  {
    var deleted := FlaggedTable(m, id, true).value;
    assert deleted[id := deleted[id].(isDeleted := false)] == m;
  }

  /** Updating with the fields a task already has changes nothing. */
  lemma UpdateWithOwnFieldsIsIdentity(m: Table, id: int)
    requires id in m
    ensures UpdatedTable(m, id, TaskDto(m[id].name, m[id].description, m[id].deadline)) == Success(m)
  {
    assert m[id := m[id].(name := m[id].name, description := m[id].description, deadline := m[id].deadline)] == m;
  }

  /** Every transition keeps each task under its own id. */
  lemma TransitionsKeepKeyed(m: Table, id: int, dto: TaskDto, deleteFlag: bool)
    requires Keyed(m) && id in m
    ensures Keyed(UpdatedTable(m, id, dto).value)
    ensures Keyed(FlippedTable(m, id).value)
    ensures Keyed(RemovedTable(m, id).value)
    ensures Keyed(FlaggedTable(m, id, deleteFlag).value)
  {
  }

  // ---------------------------------------------------------------------------
  // The service

  class TaskService {
    /** The stored tasks, standing in for the entity manager and the repository's find. */
    var tasks: Table
    /** The id the database assigns to the next persisted task. */
    var nextId: int

    ghost predicate Valid()
      reads this
    {
      Keyed(tasks) && forall id :: id in tasks ==> id < nextId
    }

    constructor ()
      ensures Valid() && tasks == map[] && nextId == 1
    {
      tasks := map[];
      nextId := 1;
    }

    /**
     * Persists a new task carrying the form's name, description and deadline.
     * `now` is the creation timestamp the entity records.
     */
    method CreateTask(dto: TaskDto, now: int) returns (task: Task)
      requires Valid()
      modifies this
      ensures Valid()
      ensures task.name == dto.name && task.description == dto.description && task.deadline == dto.deadline
      ensures !task.isDone && !task.isDeleted && task.createdAt == now
      ensures task.id == old(nextId) && task.id !in old(tasks)
      ensures tasks == old(tasks)[task.id := task]
    {
      task := Task(nextId, dto.name, dto.description, dto.deadline, false, false, now);
      tasks := tasks[task.id := task];
      nextId := nextId + 1;
    }

    method UpdateTask(taskId: int, dto: TaskDto) returns (r: Outcome<NotFound>)
      requires Valid()
      modifies this
      ensures Valid() && nextId == old(nextId)
      ensures taskId !in old(tasks) ==> r == Fail(EntityNotFound(taskId)) && tasks == old(tasks)
      ensures taskId in old(tasks) ==> r == Pass && tasks == UpdatedTable(old(tasks), taskId, dto).value
    {
      if taskId !in tasks {
        return Fail(EntityNotFound(taskId));
      }
      var task := tasks[taskId];
      task := task.(name := dto.name, description := dto.description, deadline := dto.deadline);
      tasks := tasks[taskId := task];
      r := Pass;
    }

    method FlipDone(taskId: int) returns (r: Result<Task, NotFound>)
      requires Valid()
      modifies this
      ensures Valid() && nextId == old(nextId)
      ensures taskId !in old(tasks) ==> r == Failure(EntityNotFound(taskId)) && tasks == old(tasks)
      ensures taskId in old(tasks) ==>
        && tasks == FlippedTable(old(tasks), taskId).value
        && r == Success(tasks[taskId])
        && r.value.isDone == !old(tasks)[taskId].isDone
    {
      if taskId !in tasks {
        return Failure(EntityNotFound(taskId));
      }
      var task := tasks[taskId];
      task := task.(isDone := !task.isDone);
      tasks := tasks[taskId := task];
      r := Success(task);
    }

    method FullDeleteTask(taskId: int) returns (r: Outcome<NotFound>)
      requires Valid()
      modifies this
      ensures Valid() && nextId == old(nextId)
      ensures taskId !in old(tasks) ==> r == Fail(EntityNotFound(taskId)) && tasks == old(tasks)
      ensures taskId in old(tasks) ==> r == Pass && tasks == RemovedTable(old(tasks), taskId).value
    {
      if taskId !in tasks {
        return Fail(EntityNotFound(taskId));
      }
      tasks := tasks - {taskId};
      r := Pass;
    }

    method DeleteOrRestoreTask(taskId: int, deleteFlag: bool) returns (r: Outcome<NotFound>)
      requires Valid()
      modifies this
      ensures Valid() && nextId == old(nextId)
      ensures taskId !in old(tasks) ==> r == Fail(EntityNotFound(taskId)) && tasks == old(tasks)
      ensures taskId in old(tasks) ==> r == Pass && tasks == FlaggedTable(old(tasks), taskId, deleteFlag).value
    {
      if taskId !in tasks {
        return Fail(EntityNotFound(taskId));
      }
      var task := tasks[taskId];
      task := task.(isDeleted := deleteFlag);
      tasks := tasks[taskId := task];
      r := Pass;
    }
  }
}
