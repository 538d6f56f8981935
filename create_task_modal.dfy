/**
 * The task dialog: its form schema, the reset when it opens, and the submit
 * step that sends either an update (when editing) or a create request.
 * The schema's earliest due date is the instant the schema was built, when
 * the module was loaded, not the instant of submission.
 */
module TaskModal {
  import opened Common
  import opened Domain
  import opened Store
  import TaskRouter
  import TaskCard

  /** The form's values; an unset due date is `None`. */
  datatype TaskForm = TaskForm(
    title: string,
    description: Option<string>,
    priority: Priority,
    assigneeId: string,
    dueDate: Option<int>)

  /** The form schema: title 1..100, description at most 500, some assignee, a due date no earlier than `schemaBuiltAt`. */
  predicate TaskSchemaValid(f: TaskForm, schemaBuiltAt: int)
  {
    && 1 <= |f.title| <= 100
    && (f.description.Some? ==> |f.description.value| <= 500)
    && |f.assigneeId| >= 1
    && f.dueDate.Some? && f.dueDate.value >= schemaBuiltAt
  }

  /** The value of the "Unassigned" option of the assignee select. */
  const Unassigned: string := "unassigned"

  /** The form's default values: blank, MEDIUM priority, no due date. */
  const Defaults: TaskForm := TaskForm("", Some(""), MEDIUM, "", None)

  /** The form's values for editing a task: its own, with an absent description shown empty. */
  function EditValues(task: TaskCard.TaskInfo): (f: TaskForm)
    ensures f.title == task.title && f.priority == task.priority
    ensures f.assigneeId == task.assigneeId && f.dueDate == Some(task.dueDate)
    ensures f.description == Some(if task.description.Some? then task.description.value else "")
  {
    TaskForm(task.title, Some(if task.description.Some? then task.description.value else ""),
             task.priority, task.assigneeId, Some(task.dueDate))
  }

  /** A request the dialog sends. */
  datatype TaskRequest =
    | CreateRequest(create: TaskRouter.CreateInput)
    | UpdateRequest(update: TaskRouter.UpdateInput)

  /** `{ ...data, projectId }`. */
  function CreateFrom(f: TaskForm, projectId: ProjectId): (c: TaskRouter.CreateInput)
    ensures c.projectId == projectId && c.title == f.title && c.assigneeId == Some(f.assigneeId)
  {
    TaskRouter.CreateInput(f.title, f.description, projectId, Some(f.assigneeId), Some(f.priority), f.dueDate)
  }

  /** `{ ...data, id: taskInfo.id }`. */
  function UpdateFrom(f: TaskForm, id: TaskId): (u: TaskRouter.UpdateInput)
    ensures u.id == id && u.title == Some(f.title) && u.assigneeId == Some(f.assigneeId)
  {
    TaskRouter.UpdateInput(id, Some(f.title), f.description, None, Some(f.priority), Some(f.assigneeId), f.dueDate)
  }

  /**
   * "Unassigned" passes the schema's assignee check, yet when no user with
   * that id is on the project's team the server rejects the task.
   */
  lemma UnassignedPassesSchemaOnly(f: TaskForm, schemaBuiltAt: int,
                                   projects: map<ProjectId, Project>, memberships: Memberships, pid: ProjectId)
    requires f.assigneeId == Unassigned
    requires 1 <= |f.title| <= 100 && (f.description.Some? ==> |f.description.value| <= 500)
    requires f.dueDate.Some? && f.dueDate.value >= schemaBuiltAt
    requires pid in projects && !InTeam(projects, memberships, pid, Unassigned)
    ensures TaskSchemaValid(f, schemaBuiltAt)
    ensures !TaskRouter.AssigneeAllowed(projects, memberships, pid, CreateFrom(f, pid).assigneeId)
  {
  }

  /** A due date between the schema's build time and the submission time passes, although it is already past. */
  lemma StaleLowerBound(f: TaskForm, schemaBuiltAt: int, now: int)
    requires TaskSchemaValid(f, schemaBuiltAt) && f.dueDate.value < now
    ensures TaskCard.TimeLeft(f.dueDate.value, now) == "Expired"
  {
    TaskCard.ExpiredIff(f.dueDate.value, now);
  }

  /** A request built from a form that passed the schema carries a title, so the server's title check passes. */
  lemma ValidFormHasTitle(f: TaskForm, schemaBuiltAt: int, projectId: ProjectId)
    requires TaskSchemaValid(f, schemaBuiltAt)
    ensures CreateFrom(f, projectId).title != []
  {
  }

  class TaskDialog {
    var form: TaskForm
    /** The values a bare `form.reset()` restores: the last values the form was reset to. */
    var resetValues: TaskForm
    var isLoading: bool
    /** The instant the schema was built. */
    const schemaBuiltAt: int

    constructor (schemaBuiltAt: int)
      ensures this.schemaBuiltAt == schemaBuiltAt && form == Defaults && resetValues == Defaults && !isLoading
    {
      this.schemaBuiltAt := schemaBuiltAt;
      form, resetValues, isLoading := Defaults, Defaults, false;
    }

    /**
     * The open effect: on opening, the form is reset to the edited task's
     * values, or to the defaults; those values also become what a later bare
     * reset restores.
     */
    method OnOpen(open: bool, taskInfo: Option<TaskCard.TaskInfo>)
      modifies this`form, this`resetValues
      ensures open && taskInfo.Some? ==> form == EditValues(taskInfo.value)
      ensures open && taskInfo.None? ==> form == Defaults
      ensures open ==> resetValues == form
      ensures !open ==> form == old(form) && resetValues == old(resetValues)
    {
      if open {
        if taskInfo.Some? {
          form := EditValues(taskInfo.value);
        } else {
          form := Defaults;
        }
        resetValues := form;
      }
    }

    /**
     * Submitting: nothing is sent unless the form passes the schema. Otherwise
     * an update carrying the task's id (when editing) or a create carrying
     * the project id is sent; on success the dialog closes and the form
     * returns to the values it was last reset to (the edited task's, when
     * editing); either way the loading flag ends cleared.
     */
    method Submit(projectId: ProjectId, taskInfo: Option<TaskCard.TaskInfo>, succeeded: bool)
      returns (request: Option<TaskRequest>, closed: bool)
      modifies this`form, this`isLoading
      ensures request.Some? <==> TaskSchemaValid(old(form), schemaBuiltAt)
      ensures request.Some? && taskInfo.Some? ==> request.value == UpdateRequest(UpdateFrom(old(form), taskInfo.value.id))
      ensures request.Some? && taskInfo.None? ==> request.value == CreateRequest(CreateFrom(old(form), projectId))
      ensures request.Some? ==> !isLoading
      ensures request.None? ==> isLoading == old(isLoading)
      ensures closed <==> request.Some? && succeeded
      ensures form == (if closed then resetValues else old(form))
    {
      if !TaskSchemaValid(form, schemaBuiltAt) {
        return None, false;
      }
      isLoading := true;
      if taskInfo.Some? {
        request := Some(UpdateRequest(UpdateFrom(form, taskInfo.value.id)));
      } else {
        request := Some(CreateRequest(CreateFrom(form, projectId)));
      }
      closed := false;
      if succeeded {
        closed := true;
        form := resetValues;
      }
      isLoading := false;
    }
  }

  /**
   * Editing a task and saving successfully leaves the form showing that
   * task's values again, not the blank defaults.
   */
  method EditThenSave(task: TaskCard.TaskInfo, projectId: ProjectId, schemaBuiltAt: int)
    returns (request: Option<TaskRequest>, after: TaskForm)
    requires 1 <= |task.title| <= 100 && |task.assigneeId| >= 1 && task.dueDate >= schemaBuiltAt
    requires task.description.Some? ==> |task.description.value| <= 500
    ensures request == Some(UpdateRequest(UpdateFrom(EditValues(task), task.id)))
    ensures after == EditValues(task) && after != Defaults
  {
    var dialog := new TaskDialog(schemaBuiltAt);
    dialog.OnOpen(true, Some(task));
    var closed;
    request, closed := dialog.Submit(projectId, Some(task), true);
    after := dialog.form;
  }
}
