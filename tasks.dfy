/**
 * The task operations of `useTasks` (src/hooks/dexie/useTasks.ts): create a task under a
 * clock-derived id, patch it, complete and uncomplete it, delete it.
 */
module UseTasks {
  import opened Wrappers
  import opened JsText
  import opened DexieStore

  /** `task--{stageId}--{Date.now()}`. */
  function TaskIdFor(stageId: string, clock: nat): (r: string)
    ensures |r| >= 8 && r[..6] == "task--"
  {
    "task--" + stageId + "--" + NatToString(clock)
  }

  /** Two creations in the same stage at different milliseconds get different ids. */
  lemma {:induction false} TaskIdsDifferInTime(stageId: string, c1: nat, c2: nat)
    requires c1 != c2
    ensures TaskIdFor(stageId, c1) != TaskIdFor(stageId, c2)
  {
    var prefix := "task--" + stageId + "--";
    var a, b := TaskIdFor(stageId, c1), TaskIdFor(stageId, c2);
    if a == b {
      assert a == prefix + NatToString(c1);
      assert b == prefix + NatToString(c2);
      assert a[|prefix|..] == NatToString(c1);
      assert b[|prefix|..] == NatToString(c2);
      NatToStringInjective(c1, c2);
      assert false;
    }
  }

  /** The record `createTask` adds. */
  function NewTask(data: Task, clock: nat): (r: Task)
    ensures r.id == TaskIdFor(data.stageId, clock)
    ensures r.createdAt == r.updatedAt == clock
    ensures r.(id := data.id, createdAt := data.createdAt, updatedAt := data.updatedAt) == data
  {
    data.(id := TaskIdFor(data.stageId, clock), createdAt := clock, updatedAt := clock)
  }

  /**
   * `createTask(data)`: the id suffix (`Date.now()`) and the timestamps (`new Date()`) are two
   * clock readings, which the model merges into one;
   * `add` rejects, changing nothing, when a task with that id exists.
   */
  method CreateTask(db: HeroTaskDatabase, data: Task, clock: nat) returns (r: Result<string>)
    modifies db`tasks
    ensures var t := NewTask(data, clock);
      && (r.Ok? <==> t.id !in old(db.tasks))
      && (r.Ok? ==> r.value == t.id && db.tasks == old(db.tasks)[t.id := t])
      && (r.Err? ==> db.tasks == old(db.tasks))
    ensures old(db.Valid()) ==> db.Valid()
  {
    var t := NewTask(data, clock);
    if t.id in db.tasks {
      return Err("ConstraintError: key already exists");
    }
    db.tasks := db.tasks[t.id := t];
    return Ok(t.id);
  }

  /** A `Partial<Task>` without the primary key; `None` leaves a field as it is. */
  datatype TaskPatch = TaskPatch(
    stageId: Option<string>,
    journeyId: Option<string>,
    title: Option<string>,
    description: Option<Option<string>>,
    completed: Option<bool>,
    completedAt: Option<Option<Timestamp>>,
    priority: Option<int>,
    estimatedMinutes: Option<int>,
    actualMinutes: Option<int>,
    startDate: Option<Option<Timestamp>>,
    dueDate: Option<Option<Timestamp>>,
    createdAt: Option<Timestamp>)

  const NoTaskChanges := TaskPatch(None, None, None, None, None, None, None, None, None, None, None, None)

  /** `{...task, ...updates, updatedAt}`. */
  function PatchedTask(t: Task, p: TaskPatch, now: Timestamp): (r: Task)
    ensures r.id == t.id && r.updatedAt == now
    ensures p == NoTaskChanges ==> r == t.(updatedAt := now)
    ensures p.completed.Some? ==> r.completed == p.completed.value
    ensures p.completedAt.Some? ==> r.completedAt == p.completedAt.value
    ensures p.actualMinutes.Some? ==> r.actualMinutes == p.actualMinutes.value
    ensures p.actualMinutes.None? ==> r.actualMinutes == t.actualMinutes
  {
    Task(t.id, p.stageId.GetOr(t.stageId), p.journeyId.GetOr(t.journeyId), p.title.GetOr(t.title),
         p.description.GetOr(t.description), p.completed.GetOr(t.completed),
         p.completedAt.GetOr(t.completedAt), p.priority.GetOr(t.priority),
         p.estimatedMinutes.GetOr(t.estimatedMinutes), p.actualMinutes.GetOr(t.actualMinutes),
         p.startDate.GetOr(t.startDate), p.dueDate.GetOr(t.dueDate), p.createdAt.GetOr(t.createdAt), now)
  }

  /** `update(id, …)`: patches the stored task; a missing id is left missing. */
  function TasksUpdated(tasks: map<string, Task>, id: string, p: TaskPatch, now: Timestamp): (r: map<string, Task>)
    ensures r.Keys == tasks.Keys
    ensures id in tasks ==> r[id] == PatchedTask(tasks[id], p, now)
    ensures forall k :: k in tasks && k != id ==> r[k] == tasks[k]
  {
    if id in tasks then tasks[id := PatchedTask(tasks[id], p, now)] else tasks
  }

  /** `updateTask(id, updates)`. */
  method UpdateTask(db: HeroTaskDatabase, id: string, p: TaskPatch, now: Timestamp)
    modifies db`tasks
    ensures db.tasks == TasksUpdated(old(db.tasks), id, p, now)
    ensures old(db.Valid()) ==> db.Valid()
  {
    if id in db.tasks {
      db.tasks := db.tasks[id := PatchedTask(db.tasks[id], p, now)];
    }
  }

  /** Updating twice with the same patch is updating once. */
  lemma UpdateIsIdempotent(tasks: map<string, Task>, id: string, p: TaskPatch, now: Timestamp)
    ensures TasksUpdated(TasksUpdated(tasks, id, p, now), id, p, now) == TasksUpdated(tasks, id, p, now)
  {
  }

  /** The patch `completeTask` writes: `actualMinutes || 0`. */
  function CompletionPatch(actualMinutes: Option<int>, now: Timestamp): TaskPatch
  {
    NoTaskChanges.(completed := Some(true), completedAt := Some(Some(now)), actualMinutes := Some(actualMinutes.GetOr(0)))
  }

  /** `completeTask` writes the same record as the persistence layer's `completeTask`. */
  lemma CompleteMatchesPersistence(t: Task, actualMinutes: Option<int>, now: Timestamp)
    ensures PatchedTask(t, CompletionPatch(actualMinutes, now), now) == CompletedTask(t, actualMinutes, now)
  {
  }

  /** `completeTask(id, actualMinutes)`. */
  method CompleteTask(db: HeroTaskDatabase, id: string, actualMinutes: Option<int>, now: Timestamp)
    modifies db`tasks
    ensures db.tasks.Keys == old(db.tasks.Keys)
    ensures id in db.tasks ==> db.tasks[id] == CompletedTask(old(db.tasks[id]), actualMinutes, now)
    ensures forall k :: k in db.tasks && k != id ==> db.tasks[k] == old(db.tasks[k])
    ensures old(db.Valid()) ==> db.Valid()
  {
    if id in db.tasks {
      CompleteMatchesPersistence(db.tasks[id], actualMinutes, now);
    }
    UpdateTask(db, id, CompletionPatch(actualMinutes, now), now);
  }

  /** The patch `uncompleteTask` writes: `completedAt: undefined` removes the field. */
  const UncompletePatch := NoTaskChanges.(completed := Some(false), completedAt := Some(None))

  /** The record `uncompleteTask` leaves: not completed, no completion time, minutes kept. */
  function UncompletedTask(t: Task, now: Timestamp): (r: Task)
    ensures !r.completed && r.completedAt.None? && r.updatedAt == now
    ensures r.actualMinutes == t.actualMinutes
    ensures r.(completed := t.completed, completedAt := t.completedAt, updatedAt := t.updatedAt) == t
  {
    PatchedTask(t, UncompletePatch, now)
  }

  /** `uncompleteTask(id)`. */
  method UncompleteTask(db: HeroTaskDatabase, id: string, now: Timestamp)
    modifies db`tasks
    ensures db.tasks == TasksUpdated(old(db.tasks), id, UncompletePatch, now)
    ensures id in db.tasks ==> db.tasks[id] == UncompletedTask(old(db.tasks[id]), now)
    ensures old(db.Valid()) ==> db.Valid()
  {
    UpdateTask(db, id, UncompletePatch, now);
  }

  /**
   * Uncompleting a completed task restores every field but the minutes, which keep the
   * recorded value, and the update time.
   */
  lemma UncompleteUndoesComplete(t: Task, actualMinutes: Option<int>, now: Timestamp, later: Timestamp)
    requires !t.completed && t.completedAt.None?
    ensures UncompletedTask(CompletedTask(t, actualMinutes, now), later)
      == t.(actualMinutes := actualMinutes.GetOr(0), updatedAt := later)
  {
  }

  /** `deleteTask(id)`: removes exactly that task. */
  method DeleteTask(db: HeroTaskDatabase, id: string)
    modifies db`tasks
    ensures db.tasks == old(db.tasks) - {id}
    ensures old(db.Valid()) ==> db.Valid()
  {
    db.tasks := db.tasks - {id};
  }
}
