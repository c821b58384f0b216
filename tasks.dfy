/** The task routes: list a project's tasks, create a task at the end of
    its board, partially update a task, delete a task. Access is the plain
    "owner or member of any role" test, not the permission gate. */
module Tasks {
  import opened Wrappers
  import opened Store
  import Permissions
  import Rows

  /** The board exists and the user owns or is a member of its project. */
  predicate CanAccessBoard(db: Database, boardId: Id, userId: Id)
    reads db
  {
    boardId in db.boards && db.IsParty(db.boards[boardId].project, userId)
  }

  /** The task exists and the user may access its board. */
  predicate CanAccessTask(db: Database, taskId: Id, userId: Id)
    reads db
  {
    taskId in db.tasks && CanAccessBoard(db, db.tasks[taskId].board, userId)
  }

  // ---- List ----

  /** The join of tasks with boards, restricted to one project. */
  function TaskOnProject(bs: map<Id, Board>, pid: Id): Task -> bool
  {
    (t: Task) => t.board in bs && bs[t.board].project == pid
  }

  function TaskPosition(t: Task): int
  {
    t.position
  }

  /** `GET /tasks/project/:projectId`: the tasks on the project's boards by position. */
  method ListTasks(db: Database, userId: Id, projectId: Id) returns (r: Result<seq<(Id, Task)>, Failure>)
    ensures !db.IsParty(projectId, userId) ==> r == Failure(ProjectForbidden)
    ensures db.IsParty(projectId, userId) ==>
      r.Success? && Rows.IsListing(r.value, db.tasks, TaskOnProject(db.boards, projectId), TaskPosition)
  {
    if !db.IsParty(projectId, userId) {
      return Failure(ProjectForbidden);
    }
    return Success(Rows.Listing(db.tasks, TaskOnProject(db.boards, projectId), TaskPosition));
  }

  // ---- Create ----

  /** `createTaskSchema` after parsing. */
  datatype CreateTaskInput = CreateTaskInput(
    title: string,
    description: Option<string>,
    boardId: Id,
    priority: Option<Priority>,
    dueDate: Option<string>)

  /** The positions already taken on a board. */
  function PositionsOn(ts: map<Id, Task>, boardId: Id): set<nat>
  {
    set k | k in ts && ts[k].board == boardId :: ts[k].position
  }

  /** The row `INSERT INTO tasks` writes: status `todo`, priority `medium`
      unless given, empty strings stored as null, created by the caller. */
  function NewTask(input: CreateTaskInput, position: nat, userId: Id): (t: Task)
    ensures t.status == Todo && t.createdBy == userId && t.board == input.boardId
    ensures t.priority == if input.priority.Some? then input.priority.value else Medium
  {
    Task(input.title, OrNull(input.description), input.boardId, input.priority.GetOr(Medium), Todo,
      OrNull(input.dueDate), position, userId)
  }

  const BoardForbidden := Http(403, "Not authorized to access this board")

  /** `POST /tasks`: the schema is checked first, then board access; the new
      task goes one past the largest position on its board. */
  method CreateTask(db: Database, userId: Id, input: CreateTaskInput) returns (r: Result<Id, Failure>)
    requires db.Valid()
    modifies db`tasks, db`nextId
    ensures db.Valid()
    ensures |input.title| == 0 ==> r == Failure(Invalid)
    ensures |input.title| > 0 && !old(CanAccessBoard(db, input.boardId, userId)) ==> r == Failure(BoardForbidden)
    ensures r.Success? <==> |input.title| > 0 && old(CanAccessBoard(db, input.boardId, userId))
    ensures r.Success? ==>
      r.value == old(db.nextId) && r.value !in old(db.tasks) && db.nextId == old(db.nextId) + 1 &&
      db.tasks == old(db.tasks)[r.value := NewTask(input, Rows.NextAfter(PositionsOn(old(db.tasks), input.boardId)), userId)]
    ensures r.Failure? ==> db.tasks == old(db.tasks) && db.nextId == old(db.nextId)
  {
    if |input.title| == 0 {
      return Failure(Invalid);
    }
    if !CanAccessBoard(db, input.boardId, userId) {
      return Failure(BoardForbidden);
    }
    var position := Rows.NextAfter(PositionsOn(db.tasks, input.boardId));
    var id := db.nextId;
    db.tasks := db.tasks[id := NewTask(input, position, userId)];
    db.nextId := id + 1;
    return Success(id);
  }

  /** A created task lies strictly after every task already on its board,
      directly after the last one, and at 0 on an empty board. */
  lemma CreatedTaskGoesLast(ts: map<Id, Task>, input: CreateTaskInput, userId: Id, k: Id)
    requires k in ts && ts[k].board == input.boardId
    ensures ts[k].position < NewTask(input, Rows.NextAfter(PositionsOn(ts, input.boardId)), userId).position
    ensures exists j ::
      && j in ts && ts[j].board == input.boardId
      && ts[j].position + 1 == NewTask(input, Rows.NextAfter(PositionsOn(ts, input.boardId)), userId).position
  {
    assert ts[k].position in PositionsOn(ts, input.boardId);
    var last := Rows.NextAfter(PositionsOn(ts, input.boardId)) - 1;
    assert last in PositionsOn(ts, input.boardId);
    var j :| j in ts && ts[j].board == input.boardId && ts[j].position == last;
  }

  lemma FirstTaskAtZero(ts: map<Id, Task>, input: CreateTaskInput, userId: Id)
    requires forall k :: k in ts ==> ts[k].board != input.boardId
    ensures NewTask(input, Rows.NextAfter(PositionsOn(ts, input.boardId)), userId).position == 0
  {
    assert PositionsOn(ts, input.boardId) == {};
  }

  // ---- Update ----

  /** `updateTaskSchema` after parsing; `Some(None)` is an explicit null. */
  datatype TaskPatch = TaskPatch(
    title: Option<string>,
    description: Option<Option<string>>,
    priority: Option<Priority>,
    status: Option<TaskStatus>,
    dueDate: Option<Option<string>>,
    boardId: Option<Id>,
    position: Option<nat>)
  {
    predicate IsEmpty()
    {
      title.None? && description.None? && priority.None? && status.None? && dueDate.None?
      && boardId.None? && position.None?
    }

    predicate IsValid()
    {
      title.Some? ==> |title.value| > 0
    }
  }

  const NoTaskChange := TaskPatch(None, None, None, None, None, None, None)

  /** The task with every field the patch supplies replaced. */
  function PatchTask(t: Task, p: TaskPatch): Task
  {
    t.(title := p.title.GetOr(t.title),
       description := p.description.GetOr(t.description),
       priority := p.priority.GetOr(t.priority),
       status := p.status.GetOr(t.status),
       dueDate := p.dueDate.GetOr(t.dueDate),
       board := p.boardId.GetOr(t.board),
       position := p.position.GetOr(t.position))
  }

  /** One item of the `UPDATE tasks SET ...` list. */
  datatype TaskColumn =
    | TaskTitle(title: string)
    | TaskDescription(description: Option<string>)
    | TaskPriority(priority: Priority)
    | TaskStatusColumn(status: TaskStatus)
    | TaskDueDate(dueDate: Option<string>)
    | TaskBoard(board: Id)
    | TaskPositionColumn(position: nat)

  function SetTaskColumn(t: Task, c: TaskColumn): Task
  {
    match c
    case TaskTitle(x) => t.(title := x)
    case TaskDescription(x) => t.(description := x)
    case TaskPriority(x) => t.(priority := x)
    case TaskStatusColumn(x) => t.(status := x)
    case TaskDueDate(x) => t.(dueDate := x)
    case TaskBoard(x) => t.(board := x)
    case TaskPositionColumn(x) => t.(position := x)
  }

  /** The effect of `SET c1, c2, ...` on one row. */
  function SetTaskColumns(t: Task, cs: seq<TaskColumn>): Task
  {
    if cs == [] then t else SetTaskColumn(SetTaskColumns(t, cs[..|cs| - 1]), cs[|cs| - 1])
  }

  function ExtendTaskPatch(q: TaskPatch, c: TaskColumn): TaskPatch
  {
    match c
    case TaskTitle(x) => q.(title := Some(x))
    case TaskDescription(x) => q.(description := Some(x))
    case TaskPriority(x) => q.(priority := Some(x))
    case TaskStatusColumn(x) => q.(status := Some(x))
    case TaskDueDate(x) => q.(dueDate := Some(x))
    case TaskBoard(x) => q.(boardId := Some(x))
    case TaskPositionColumn(x) => q.(position := Some(x))
  }

  /** The patch a SET list amounts to. */
  function PatchOfTaskColumns(cs: seq<TaskColumn>): TaskPatch
  {
    if cs == [] then NoTaskChange else ExtendTaskPatch(PatchOfTaskColumns(cs[..|cs| - 1]), cs[|cs| - 1])
  }

  lemma PatchOfTaskColumnsSnoc(cs: seq<TaskColumn>, c: TaskColumn)
    ensures PatchOfTaskColumns(cs + [c]) == ExtendTaskPatch(PatchOfTaskColumns(cs), c)
  {
    assert (cs + [c])[..|cs|] == cs;
  }

  lemma PatchOfTaskColumnsEmpty(cs: seq<TaskColumn>)
    ensures cs == [] <==> PatchOfTaskColumns(cs).IsEmpty()
  {
  }

  /** Applying a SET list to a row is applying the patch it amounts to. */
  lemma {:induction false} SetTaskColumnsIsPatch(t: Task, cs: seq<TaskColumn>)
    ensures SetTaskColumns(t, cs) == PatchTask(t, PatchOfTaskColumns(cs))
    decreases |cs|
  {
    if cs != [] {
      var init, c := cs[..|cs| - 1], cs[|cs| - 1];
      SetTaskColumnsIsPatch(t, init);
      assert SetTaskColumn(PatchTask(t, PatchOfTaskColumns(init)), c)
        == PatchTask(t, ExtendTaskPatch(PatchOfTaskColumns(init), c));
    } else {
      assert PatchTask(t, NoTaskChange) == t;
    }
  }

  /** The last four items of the SET list (status, due date, board, position). */
  method PushTaskPlacementColumns(p: TaskPatch, updates0: seq<TaskColumn>) returns (updates: seq<TaskColumn>)
    requires PatchOfTaskColumns(updates0) == p.(status := None, dueDate := None, boardId := None, position := None)
    ensures PatchOfTaskColumns(updates) == p
  {
    updates := updates0;
    ghost var q := PatchOfTaskColumns(updates0);
    if p.status.Some? {
      PatchOfTaskColumnsSnoc(updates, TaskStatusColumn(p.status.value));
      updates := updates + [TaskStatusColumn(p.status.value)];
    }
    q := TaskPatch(p.title, p.description, p.priority, p.status, None, None, None);
    assert PatchOfTaskColumns(updates) == q;
    if p.dueDate.Some? {
      PatchOfTaskColumnsSnoc(updates, TaskDueDate(p.dueDate.value));
      updates := updates + [TaskDueDate(p.dueDate.value)];
    }
    q := TaskPatch(p.title, p.description, p.priority, p.status, p.dueDate, None, None);
    assert PatchOfTaskColumns(updates) == q;
    if p.boardId.Some? {
      PatchOfTaskColumnsSnoc(updates, TaskBoard(p.boardId.value));
      updates := updates + [TaskBoard(p.boardId.value)];
    }
    q := TaskPatch(p.title, p.description, p.priority, p.status, p.dueDate, p.boardId, None);
    assert PatchOfTaskColumns(updates) == q;
    if p.position.Some? {
      PatchOfTaskColumnsSnoc(updates, TaskPositionColumn(p.position.value));
      updates := updates + [TaskPositionColumn(p.position.value)];
    }
    q := TaskPatch(p.title, p.description, p.priority, p.status, p.dueDate, p.boardId, p.position);
    assert PatchOfTaskColumns(updates) == q;
  }

  /** Builds the SET list the way the handler does: one item per supplied
      field, in schema order. It applies as the field-wise patch and is
      empty exactly for the empty patch. */
  method TaskUpdates(p: TaskPatch) returns (updates: seq<TaskColumn>)
    ensures updates == [] <==> p.IsEmpty()
    ensures forall t :: SetTaskColumns(t, updates) == PatchTask(t, p)
  {
    ghost var q := NoTaskChange;
    updates := [];
    if p.title.Some? {
      PatchOfTaskColumnsSnoc(updates, TaskTitle(p.title.value));
      updates := updates + [TaskTitle(p.title.value)];
    }
    q := TaskPatch(p.title, None, None, None, None, None, None);
    assert PatchOfTaskColumns(updates) == q;
    if p.description.Some? {
      PatchOfTaskColumnsSnoc(updates, TaskDescription(p.description.value));
      updates := updates + [TaskDescription(p.description.value)];
    }
    q := TaskPatch(p.title, p.description, None, None, None, None, None);
    assert PatchOfTaskColumns(updates) == q;
    if p.priority.Some? {
      PatchOfTaskColumnsSnoc(updates, TaskPriority(p.priority.value));
      updates := updates + [TaskPriority(p.priority.value)];
    }
    q := TaskPatch(p.title, p.description, p.priority, None, None, None, None);
    assert PatchOfTaskColumns(updates) == q;
    updates := PushTaskPlacementColumns(p, updates);
    PatchOfTaskColumnsEmpty(updates);
    forall t ensures SetTaskColumns(t, updates) == PatchTask(t, p) {
      SetTaskColumnsIsPatch(t, updates);
    }
  }

  /** A patch keeps the task's author, supplying it twice changes nothing
      more, and the empty patch changes nothing. */
  lemma PatchTaskFacts(t: Task, p: TaskPatch)
    ensures PatchTask(t, p).createdBy == t.createdBy
    ensures PatchTask(PatchTask(t, p), p) == PatchTask(t, p)
    ensures p.IsEmpty() ==> PatchTask(t, p) == t
  {
  }

  const UpdateForbidden := Http(403, "Not authorized to update this task")
  const DeleteForbidden := Http(403, "Not authorized to delete this task")

  /** `PUT /tasks/:id`: the schema first, then task access (a missing task
      is also a 403), then the empty-patch check. A new board id is written
      without any access check of its own. */
  method UpdateTask(db: Database, userId: Id, taskId: Id, p: TaskPatch) returns (r: Result<Task, Failure>)
    requires db.Valid()
    modifies db`tasks
    ensures db.Valid()
    ensures
      if !p.IsValid() then r == Failure(Invalid)
      else if !old(CanAccessTask(db, taskId, userId)) then r == Failure(UpdateForbidden)
      else if p.IsEmpty() then r == Failure(NoFieldsToUpdate)
      else r == Success(PatchTask(old(db.tasks)[taskId], p)) && db.tasks == old(db.tasks)[taskId := r.value]
    ensures r.Failure? ==> db.tasks == old(db.tasks)
  {
    if !p.IsValid() {
      return Failure(Invalid);
    }
    if !CanAccessTask(db, taskId, userId) {
      return Failure(UpdateForbidden);
    }
    var updates := TaskUpdates(p);
    if updates == [] {
      return Failure(NoFieldsToUpdate);
    }
    var updated := SetTaskColumns(db.tasks[taskId], updates);
    db.tasks := db.tasks[taskId := updated];
    return Success(updated);
  }

  // ---- Delete ----

  /** `DELETE /tasks/:id`: one conditional delete; a missing task and one the
      caller may not access give the same 403. */
  method DeleteTask(db: Database, userId: Id, taskId: Id) returns (r: Result<string, Failure>)
    requires db.Valid()
    modifies db`tasks
    ensures db.Valid()
    ensures old(CanAccessTask(db, taskId, userId)) ==>
      r == Success("Task deleted successfully") && db.tasks == old(db.tasks) - {taskId}
    ensures !old(CanAccessTask(db, taskId, userId)) ==> r == Failure(DeleteForbidden) && db.tasks == old(db.tasks)
  {
    if !CanAccessTask(db, taskId, userId) {
      return Failure(DeleteForbidden);
    }
    db.tasks := db.tasks - {taskId};
    return Success("Task deleted successfully");
  }

  /** The task routes do not consult the permission gate: a viewer without a
      custom role, whom the gate refuses both editing and task deletion, may
      still update and delete every task of the project. */
  lemma ViewerMayWriteTasks(db: Database, k: Id, taskId: Id)
    requires db.Valid() && k in db.members && db.members[k].projectRole.None? && db.members[k].role == Viewer
    requires taskId in db.tasks && db.tasks[taskId].board in db.boards
    requires db.boards[db.tasks[taskId].board].project == db.members[k].project
    requires db.members[k].project in db.projects
    ensures CanAccessTask(db, taskId, db.members[k].user)
    ensures Permissions.Authorize(db, db.members[k].user, db.members[k].project, Permissions.CanEdit)
      == Fail(Http(403, "Viewers cannot edit"))
    ensures Permissions.Authorize(db, db.members[k].user, db.members[k].project, Permissions.CanDeleteTasks)
      == Fail(Http(403, "Insufficient permissions"))
  {
    Permissions.MemberPermissions(db, db.members[k].project, k);
  }
}
