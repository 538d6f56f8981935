/**
 * The database behind the procedures, held in memory: users, projects,
 * project memberships and tasks, keyed by id, with the integrity rules the
 * procedures keep.
 */
module Store {
  import opened Common
  import opened Domain

  type Memberships = map<(ProjectId, UserId), Role>

  /** The project's team: its creator and its members. */
  predicate InTeam(projects: map<ProjectId, Project>, memberships: Memberships, pid: ProjectId, u: UserId)
    requires pid in projects
  {
    u == projects[pid].creatorId || (pid, u) in memberships
  }

  /** Some user other than `caller` has this email (`user.email` is unique). */
  predicate EmailTakenByOther(users: map<UserId, User>, email: string, caller: UserId)
  {
    exists u :: u in users && users[u].email == Some(email) && u != caller
  }

  /**
   * `findUnique({ where: { email } })`: the user holding the email, if any.
   * Emails are unique, so there is at most one.
   */
  function FindByEmail(users: map<UserId, User>, email: string): (r: Option<UserId>)
    requires EmailsUnique(users)
    ensures r.Some? ==> r.value in users && users[r.value].email == Some(email)
    ensures r.None? <==> forall id :: id in users ==> users[id].email != Some(email)
  {
    if exists id :: id in users && users[id].email == Some(email) then
      var id :| id in users && users[id].email == Some(email);
      Some(id)
    else
      None
  }

  /** Every user record is stored under its own id. */
  ghost predicate UserKeysMatch(users: map<UserId, User>)
  {
    forall id :: id in users ==> users[id].id == id
  }

  /** Every record is stored under its own id. */
  ghost predicate KeysMatch(users: map<UserId, User>, projects: map<ProjectId, Project>, tasks: map<TaskId, Task>)
  {
    && UserKeysMatch(users)
    && (forall id :: id in projects ==> projects[id].id == id)
    && (forall id :: id in tasks ==> tasks[id].id == id)
  }

  /** No two users share an email address. */
  ghost predicate EmailsUnique(users: map<UserId, User>)
  {
    forall a, b :: a in users && b in users && users[a].email.Some? && users[a].email == users[b].email ==> a == b
  }

  /** A task belongs to an existing project, and its creator and (non-empty) assignee are on that project's team. */
  ghost predicate TaskBelongs(projects: map<ProjectId, Project>, memberships: Memberships, t: Task)
  {
    && t.projectId in projects
    && InTeam(projects, memberships, t.projectId, t.creatorId)
    && (Truthy(t.assigneeId) ==> InTeam(projects, memberships, t.projectId, t.assigneeId.value))
  }

  /** The integrity of the whole store. */
  ghost predicate Consistent(users: map<UserId, User>, projects: map<ProjectId, Project>,
                             memberships: Memberships, tasks: map<TaskId, Task>)
  {
    && KeysMatch(users, projects, tasks)
    && EmailsUnique(users)
    && (forall k :: k in memberships ==> k.0 in projects)
    && (forall id :: id in tasks ==> TaskBelongs(projects, memberships, tasks[id]))
  }

  class Database {
    var users: map<UserId, User>
    var projects: map<ProjectId, Project>
    var memberships: Memberships
    var tasks: map<TaskId, Task>

    ghost predicate Valid()
      reads this
    {
      Consistent(users, projects, memberships, tasks)
    }

    /** An empty database. */
    constructor ()
      ensures Valid()
      ensures users == map[] && projects == map[] && memberships == map[] && tasks == map[]
    {
      users, projects, memberships, tasks := map[], map[], map[], map[];
    }
  }
}
