/**
 * The task procedures: `create`, `update` and `delete`. Each runs a guard
 * (team membership, permission, assignee checks) and then at most one write
 * to the task table.
 */
module TaskRouter {
  import opened Common
  import opened Domain
  import opened Store

  /** The input of `create`; an omitted priority defaults to MEDIUM. */
  datatype CreateInput = CreateInput(
    title: string,
    description: Option<string>,
    projectId: ProjectId,
    assigneeId: Option<UserId>,
    priority: Option<Priority>,
    dueDate: Option<int>)

  /** The input of `update`: the task id and the fields to change. */
  datatype UpdateInput = UpdateInput(
    id: TaskId,
    title: Option<string>,
    description: Option<string>,
    status: Option<TaskStatus>,
    priority: Option<Priority>,
    assigneeId: Option<UserId>,
    dueDate: Option<int>)

  /** What `delete` returns (it never throws): one of its two error values, or nothing. */
  datatype DeleteReturn = TaskNotFoundError | NotAllowedError | Nothing

  /** The assignee, when one is given (non-empty), is the project's creator or a member. */
  predicate AssigneeAllowed(projects: map<ProjectId, Project>, memberships: Memberships, pid: ProjectId, assignee: Option<UserId>)
    requires pid in projects
  {
    Truthy(assignee) ==> InTeam(projects, memberships, pid, assignee.value)
  }

  /** The task's creator, its assignee and the project's creator may update it. */
  predicate MayUpdate(t: Task, p: Project, caller: UserId)
  {
    t.creatorId == caller || t.assigneeId == Some(caller) || p.creatorId == caller
  }

  /** The record `update` writes: every supplied field replaced, the others kept. */
  function Updated(t: Task, input: UpdateInput): (r: Task)
    ensures r.id == t.id && r.creatorId == t.creatorId && r.projectId == t.projectId
    ensures r.title == (if input.title.Some? then input.title.value else t.title)
    ensures r.description == (if input.description.Some? then input.description else t.description)
    ensures r.status == (if input.status.Some? then input.status.value else t.status)
    ensures r.priority == (if input.priority.Some? then input.priority.value else t.priority)
    ensures r.assigneeId == (if input.assigneeId.Some? then input.assigneeId else t.assigneeId)
    ensures r.dueDate == (if input.dueDate.Some? then input.dueDate else t.dueDate)
  {
    t.(title := if input.title.Some? then input.title.value else t.title,
       description := if input.description.Some? then input.description else t.description,
       status := if input.status.Some? then input.status.value else t.status,
       priority := if input.priority.Some? then input.priority.value else t.priority,
       assigneeId := if input.assigneeId.Some? then input.assigneeId else t.assigneeId,
       dueDate := if input.dueDate.Some? then input.dueDate else t.dueDate)
  }

  /** `create`: a team member adds a task, owned by the caller and starting in TODO. */
  method Create(db: Database, caller: UserId, input: CreateInput, newId: TaskId) returns (r: Result<Task>)
    requires db.Valid()
    requires newId !in db.tasks  // the database generates a fresh id
    modifies db`tasks
    ensures db.Valid()
    ensures input.title == [] ==> r == Err(BAD_REQUEST)
    ensures (input.title != [] && (input.projectId !in db.projects
               || !InTeam(db.projects, db.memberships, input.projectId, caller)))
            ==> r == Err(FORBIDDEN)
    ensures r.Ok? <==>
              && input.title != []
              && input.projectId in db.projects
              && InTeam(db.projects, db.memberships, input.projectId, caller)
              && AssigneeAllowed(db.projects, db.memberships, input.projectId, input.assigneeId)
    ensures (&& input.title != [] && input.projectId in db.projects
             && InTeam(db.projects, db.memberships, input.projectId, caller)
             && !AssigneeAllowed(db.projects, db.memberships, input.projectId, input.assigneeId))
            ==> r == Err(BAD_REQUEST)
    ensures r.Ok? ==>
              && r.value == Task(newId, input.title, input.description, TODO,
                                 if input.priority.Some? then input.priority.value else MEDIUM,
                                 input.assigneeId, caller, input.projectId, input.dueDate)
              && db.tasks == old(db.tasks)[newId := r.value]
    ensures r.Err? ==> db.tasks == old(db.tasks)
  {
    if input.title == [] {
      return Err(BAD_REQUEST);
    }
    if input.projectId !in db.projects || !InTeam(db.projects, db.memberships, input.projectId, caller) {
      return Err(FORBIDDEN);
    }
    if Truthy(input.assigneeId) && !InTeam(db.projects, db.memberships, input.projectId, input.assigneeId.value) {
      return Err(BAD_REQUEST);
    }
    var priority := if input.priority.Some? then input.priority.value else MEDIUM;
    var task := Task(newId, input.title, input.description, TODO, priority,
                     input.assigneeId, caller, input.projectId, input.dueDate);
    db.tasks := db.tasks[newId := task];
    r := Ok(task);
  }

  /** `update`: the task's creator, assignee or project creator changes the supplied fields. */
  method Update(db: Database, caller: UserId, input: UpdateInput) returns (r: Result<Task>)
    requires db.Valid()
    modifies db`tasks
    ensures db.Valid()
    ensures input.id !in old(db.tasks) ==> r == Err(NOT_FOUND)
    ensures (input.id in old(db.tasks)
             && !MayUpdate(old(db.tasks)[input.id], db.projects[old(db.tasks)[input.id].projectId], caller))
            ==> r == Err(FORBIDDEN)
    ensures (&& input.id in old(db.tasks)
             && MayUpdate(old(db.tasks)[input.id], db.projects[old(db.tasks)[input.id].projectId], caller)
             && !AssigneeAllowed(db.projects, db.memberships, old(db.tasks)[input.id].projectId, input.assigneeId))
            ==> r == Err(BAD_REQUEST)
    ensures r.Ok? <==>
              && input.id in old(db.tasks)
              && MayUpdate(old(db.tasks)[input.id], db.projects[old(db.tasks)[input.id].projectId], caller)
              && AssigneeAllowed(db.projects, db.memberships, old(db.tasks)[input.id].projectId, input.assigneeId)
    ensures r.Ok? ==>
              && r.value == Updated(old(db.tasks)[input.id], input)
              && db.tasks == old(db.tasks)[input.id := r.value]
    ensures r.Err? ==> db.tasks == old(db.tasks)
  {
    if input.id !in db.tasks {
      return Err(NOT_FOUND);
    }
    var task := db.tasks[input.id];
    var project := db.projects[task.projectId];
    if !MayUpdate(task, project, caller) {
      return Err(FORBIDDEN);
    }
    if Truthy(input.assigneeId) && !InTeam(db.projects, db.memberships, task.projectId, input.assigneeId.value) {
      return Err(BAD_REQUEST);
    }
    var updated := Updated(task, input);
    db.tasks := db.tasks[input.id := updated];
    r := Ok(updated);
  }

  /** `delete`: looks the task up by id and creator and returns, but never removes it. */
  method Delete(db: Database, caller: UserId, id: TaskId) returns (r: DeleteReturn)
    ensures r != NotAllowedError
    ensures r == TaskNotFoundError <==> !(id in db.tasks && db.tasks[id].creatorId == caller)
  {
    // the lookup filters on both the id and the creator
    var found: Option<UserId> := if id in db.tasks && db.tasks[id].creatorId == caller
                                 then Some(db.tasks[id].creatorId) else None;
    if found.None? {
      return TaskNotFoundError;
    }
    if found.value != caller {
      assert false;
    }
    r := Nothing;
  }
}
