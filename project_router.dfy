/**
 * The project procedures: project `create`, `update`, `delete`, the two
 * read-only queries `getAll` and `getMembers`, and the member management
 * procedures `addMember` and `removeMember`. Every write is guarded by the
 * rule that only the project's creator may change it.
 */
module ProjectRouter {
  import opened Common
  import opened Domain
  import opened Store

  /** The input of `create`. */
  datatype CreateInput = CreateInput(name: string, description: Option<string>)

  /** The input of `update`: the project id and the fields to change. */
  datatype UpdateInput = UpdateInput(id: ProjectId, name: Option<string>, description: Option<string>)

  /** The guard shared by every write: the project exists and the caller created it. */
  predicate IsCreator(projects: map<ProjectId, Project>, pid: ProjectId, caller: UserId)
  {
    pid in projects && projects[pid].creatorId == caller
  }

  /** Some task of the project was created by, or is assigned to, `u`. */
  predicate HasTasks(tasks: map<TaskId, Task>, pid: ProjectId, u: UserId)
  {
    exists id :: id in tasks && tasks[id].projectId == pid
                 && (tasks[id].creatorId == u || tasks[id].assigneeId == Some(u))
  }

  /** The members of a project, with their roles. */
  function MembersOf(memberships: Memberships, pid: ProjectId): (m: map<UserId, Role>)
    ensures forall u :: u in m <==> (pid, u) in memberships
    ensures forall u :: u in m ==> m[u] == memberships[(pid, u)]
  {
    map k | k in memberships && k.0 == pid :: k.1 := memberships[k]
  }

  /** `create`: a project owned by the caller, whose one member is the caller, as OWNER. */
  method Create(db: Database, caller: UserId, input: CreateInput, newId: ProjectId) returns (r: Result<Project>)
    requires db.Valid()
    requires newId !in db.projects  // the database generates a fresh id
    modifies db`projects, db`memberships
    ensures db.Valid()
    ensures r.Err? <==> input.name == []
    ensures r.Err? ==> r.error == BAD_REQUEST && db.projects == old(db.projects) && db.memberships == old(db.memberships)
    ensures r.Ok? ==>
              && r.value == Project(newId, input.name, input.description, None, caller)
              && db.projects == old(db.projects)[newId := r.value]
              && db.memberships == old(db.memberships)[(newId, caller) := OWNER]
              && MembersOf(db.memberships, newId) == map[caller := OWNER]
  {
    if input.name == [] {
      return Err(BAD_REQUEST);
    }
    var project := Project(newId, input.name, input.description, None, caller);
    db.projects := db.projects[newId := project];
    db.memberships := db.memberships[(newId, caller) := OWNER];
    r := Ok(project);
    assert forall u :: (newId, u) in db.memberships ==> u == caller;
  }

  /** `update`: the creator renames the project or changes its description. */
  method Update(db: Database, caller: UserId, input: UpdateInput) returns (r: Result<Project>)
    requires db.Valid()
    modifies db`projects
    ensures db.Valid()
    ensures r.Err? <==> !IsCreator(old(db.projects), input.id, caller)
    ensures r.Err? ==> r.error == UNAUTHORIZED && db.projects == old(db.projects)
    ensures r.Ok? ==>
              var p := old(db.projects)[input.id];
              && r.value == p.(name := if input.name.Some? then input.name.value else p.name,
                               description := if input.description.Some? then input.description else p.description)
              && db.projects == old(db.projects)[input.id := r.value]
  {
    if !IsCreator(db.projects, input.id, caller) {
      return Err(UNAUTHORIZED);
    }
    var p := db.projects[input.id];
    var updated := p.(name := if input.name.Some? then input.name.value else p.name,
                      description := if input.description.Some? then input.description else p.description);
    db.projects := db.projects[input.id := updated];
    r := Ok(updated);
  }

  /** `delete`: the creator removes the project, and with it its memberships and tasks. */
  method Delete(db: Database, caller: UserId, id: ProjectId) returns (r: Result<Project>)
    requires db.Valid()
    modifies db`projects, db`memberships, db`tasks
    ensures db.Valid()
    ensures r.Err? <==> !IsCreator(old(db.projects), id, caller)
    ensures r.Err? ==>
              && r.error == UNAUTHORIZED
              && db.projects == old(db.projects) && db.memberships == old(db.memberships) && db.tasks == old(db.tasks)
    ensures r.Ok? ==>
              && r.value == old(db.projects)[id]
              && db.projects == old(db.projects) - {id}
              && db.memberships == (map k | k in old(db.memberships) && k.0 != id :: old(db.memberships)[k])
              && db.tasks == (map t | t in old(db.tasks) && old(db.tasks)[t].projectId != id :: old(db.tasks)[t])
  {
    if !IsCreator(db.projects, id, caller) {
      return Err(UNAUTHORIZED);
    }
    r := Ok(db.projects[id]);
    db.tasks := map t | t in db.tasks && db.tasks[t].projectId != id :: db.tasks[t];
    db.memberships := map k | k in db.memberships && k.0 != id :: db.memberships[k];
    db.projects := db.projects - {id};
  }

  /** `getAll`: the projects the caller is a member of. */
  function GetAll(db: Database, caller: UserId): (r: map<ProjectId, Project>)
    reads db
    ensures forall pid :: pid in r <==> pid in db.projects && (pid, caller) in db.memberships
    ensures forall pid :: pid in r ==> r[pid] == db.projects[pid]
  {
    map pid | pid in db.projects && (pid, caller) in db.memberships :: db.projects[pid]
  }

  /** `getMembers`: a project's members, visible only to its members. */
  function GetMembers(db: Database, caller: UserId, pid: ProjectId): (r: Result<map<UserId, Role>>)
    reads db
    ensures r.Err? <==> !(pid in db.projects && (pid, caller) in db.memberships)
    ensures r.Err? ==> r.error == NOT_FOUND
    ensures r.Ok? ==> caller in r.value && r.value == MembersOf(db.memberships, pid)
  {
    if pid in db.projects && (pid, caller) in db.memberships then Ok(MembersOf(db.memberships, pid))
    else Err(NOT_FOUND)
  }

  /** `addMember`: the creator adds a user to the project, with the default role MEMBER. */
  method AddMember(db: Database, caller: UserId, pid: ProjectId, u: UserId) returns (r: Result<Role>)
    requires db.Valid()
    modifies db`memberships
    ensures db.Valid()
    ensures !IsCreator(old(db.projects), pid, caller) ==> r == Err(UNAUTHORIZED)
    ensures IsCreator(old(db.projects), pid, caller) && (pid, u) in old(db.memberships) ==> r == Err(CONFLICT)
    ensures r.Ok? <==> IsCreator(old(db.projects), pid, caller) && (pid, u) !in old(db.memberships)
    ensures r.Ok? ==> r.value == MEMBER && db.memberships == old(db.memberships)[(pid, u) := MEMBER]
    ensures r.Err? ==> db.memberships == old(db.memberships)
  {
    if !IsCreator(db.projects, pid, caller) {
      return Err(UNAUTHORIZED);
    }
    if (pid, u) in db.memberships {
      return Err(CONFLICT);
    }
    db.memberships := db.memberships[(pid, u) := MEMBER];
    r := Ok(MEMBER);
  }

  /**
   * `removeMember`: the creator removes a member who neither created nor is
   * assigned any task of the project. Deleting a membership that does not
   * exist makes the database call fail.
   */
  method RemoveMember(db: Database, caller: UserId, pid: ProjectId, u: UserId) returns (r: Result<Role>)
    requires db.Valid()
    modifies db`memberships
    ensures db.Valid()
    ensures !IsCreator(old(db.projects), pid, caller) ==> r == Err(UNAUTHORIZED)
    ensures IsCreator(old(db.projects), pid, caller) && HasTasks(db.tasks, pid, u) ==> r == Err(CONFLICT)
    ensures r.Ok? <==> IsCreator(old(db.projects), pid, caller) && !HasTasks(db.tasks, pid, u)
                       && (pid, u) in old(db.memberships)
    ensures r.Ok? ==> r.value == old(db.memberships)[(pid, u)] && db.memberships == old(db.memberships) - {(pid, u)}
    ensures r.Err? ==> db.memberships == old(db.memberships)
  {
    if !IsCreator(db.projects, pid, caller) {
      return Err(UNAUTHORIZED);
    }
    if HasTasks(db.tasks, pid, u) {
      return Err(CONFLICT);
    }
    if (pid, u) !in db.memberships {
      return Err(INTERNAL_SERVER_ERROR);
    }
    r := Ok(db.memberships[(pid, u)]);
    db.memberships := db.memberships - {(pid, u)};
  }
}
