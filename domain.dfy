/**
 * The entities of the application's relational schema, as plain values:
 * users, projects and tasks, with the status, priority and role enumerations.
 */
module Domain {
  import opened Common

  type UserId = string
  type ProjectId = string
  type TaskId = string

  /** The four lifecycle states of a task, one board column each. */
  datatype TaskStatus = TODO | IN_PROGRESS | REVIEW | DONE

  datatype Priority = LOW | MEDIUM | HIGH | URGENT

  /** The role a user holds in a project. */
  datatype Role = OWNER | MEMBER

  /** The enum value's name, which is also the id of its board column. */
  function StatusName(s: TaskStatus): string
  {
    match s
    case TODO => "TODO"
    case IN_PROGRESS => "IN_PROGRESS"
    case REVIEW => "REVIEW"
    case DONE => "DONE"
  }

  /**
   * `Object.values(TaskStatus).includes(id)`, returning the status it names:
   * exactly the four enum names are accepted.
   */
  function ParseStatus(id: string): (r: Option<TaskStatus>)
    ensures r.Some? ==> StatusName(r.value) == id
    ensures r.None? ==> forall s: TaskStatus :: StatusName(s) != id
  {
    if id == "TODO" then Some(TODO)
    else if id == "IN_PROGRESS" then Some(IN_PROGRESS)
    else if id == "REVIEW" then Some(REVIEW)
    else if id == "DONE" then Some(DONE)
    else None
  }

  /** Every status's name parses back to that status. */
  lemma ParseStatusName(s: TaskStatus)
    ensures ParseStatus(StatusName(s)) == Some(s)
  {
  }

  /** A task record. `None` stands for a null column. Times are milliseconds. */
  datatype Task = Task(
    id: TaskId,
    title: string,
    description: Option<string>,
    status: TaskStatus,
    priority: Priority,
    assigneeId: Option<UserId>,
    creatorId: UserId,
    projectId: ProjectId,
    dueDate: Option<int>)

  /** A project record. */
  datatype Project = Project(
    id: ProjectId,
    name: string,
    description: Option<string>,
    color: Option<string>,
    creatorId: UserId)

  /** A user record; `password` holds a password hash, when there is one. */
  datatype User = User(
    id: UserId,
    name: Option<string>,
    email: Option<string>,
    password: Option<string>,
    bio: Option<string>,
    image: Option<string>)
}
