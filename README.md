# Collabry core, modelled in Dafny

Collabry is a small project-management application. Users sign up and sign
in with email and password. They create projects, invite team members, and
track tasks on a kanban board with four columns: To do, In progress, Review
and Done. This project models the parts of Collabry that decide things and
proves what they guarantee:

- **The kanban board** (`TaskBoard`, a `Board` class). Its state is four
  ordered columns. `organizeTasksByStatus` partitions the project's task
  list into them. `onDragEnd` moves a card optimistically and issues one
  status update. The update's completion either rolls the board back or
  refetches it. While an update is pending, every column refuses drops.
  - A same-column reorder is reproduced as written. The destination column
    is copied before the source filter runs, so the card ends up in that
    column twice. `TaskBoard.SameColumnDragDuplicates` states this.
- **The server procedures**:
  - task `create`/`update`/`delete` (`TaskRouter`);
  - project `create`/`update`/`delete`/`getAll`/`getMembers`/`addMember`/`removeMember` (`ProjectRouter`);
  - `updateProfile`/`changePassword` (`ProfileRouter`);
  - `signup` (`SignupRouter`);
  - the credentials `authorize` callback and the `jwt`/`session` callbacks (`Auth`).

  Each procedure runs ordered guards, then makes at most one change to an
  in-memory database (`Store.Database`). The database has maps of users,
  projects, memberships and tasks, and an integrity invariant that every
  procedure keeps: keys match ids, emails are unique, and tasks belong to
  their project's team.
- **The client-side rules**:
  - the invite list of the project dialog (`ProjectModal`);
  - the task card's "time left" label, its overdue/due-soon styling and its
    menu visibility (`TaskCard`);
  - the task dialog's schema and its create-versus-update submit (`TaskModal`);
  - the settings page's schema with its password rules, and its "what to
    submit" decision (`SettingsPage`).

Foreign functions are parameters of the operations that use them:

- bcrypt's `hash` and `compare`;
- zod's email and URL format checks;
- the database's fresh ids;
- the current time;
- the outcome of a request the client sends.

Times are integer milliseconds. JavaScript's truthiness of a
possibly-undefined string is `Common.Truthy`. `String.prototype.trim` is
`Common.Trim`, over the ECMAScript whitespace set.

The task procedures accept any due date (`src/server/api/routers/project/task.ts:60`,
`:112`); only the task dialog's schema rejects one before the instant the
schema was built.

## Model

| member | source | states |
|---|---|---|
| Common.TrimSpec | src/components/create-project-modal.tsx:140 | `trim` returns a contiguous slice of its input, cuts only whitespace on each side, and leaves no whitespace at either end |
| Common.TrimIdempotent | src/components/create-project-modal.tsx:140 | trimming an already trimmed address changes nothing |
| Domain.ParseStatus | src/components/task-board.tsx:146-156 | a column id is accepted exactly when it is the name of one of the four statuses, and then names that status |
| Domain.ParseStatusName | src/components/task-board.tsx:146-156 | every status's column id is accepted and parses back to that status |
| TaskBoard.Columns.With | src/components/task-board.tsx:177-181 | writing one column sets that column and leaves the other three as they were |
| TaskBoard.Partition | src/components/task-board.tsx:109-124 | each column of the partition is the input's tasks of that status, in input order |
| TaskBoard.PartitionPlacement | src/components/task-board.tsx:110-121 | a task is in column s of the partition exactly when it is in the input and its status is s |
| TaskBoard.PartitionConsistent | src/components/task-board.tsx:110-121 | after partitioning, every task sits in the column of its own status |
| TaskBoard.BucketConcat | src/components/task-board.tsx:117-121 | partitioning a concatenation concatenates the partitions, so relative order is kept |
| TaskBoard.BucketIsSubsequence | src/components/task-board.tsx:117-121 | each column keeps the input's relative order: it is a subsequence of the input |
| TaskBoard.PartitionCovers | src/components/task-board.tsx:117-121 | the four columns hold exactly the input's tasks as a multiset, and their sizes sum to the input length |
| TaskBoard.BucketOfBucket | src/components/task-board.tsx:117-121 | filtering a column by its own status keeps all of it; by another status, keeps nothing |
| TaskBoard.PartitionIdempotent | src/components/task-board.tsx:109-124 | re-partitioning the board read column by column gives the same board |
| TaskBoard.FindById | src/components/task-board.tsx:159-163 | the task found is in the column and has that id; finding none means no task in the column has it |
| TaskBoard.WithoutId | src/components/task-board.tsx:166-168 | the filtered column holds the tasks of the column with another id, and only those, in their order |
| TaskBoard.FindByIdFirst | src/components/task-board.tsx:159-163 | `find` returns the first task with the id: every task before it has another id |
| TaskBoard.WithoutIdCounts | src/components/task-board.tsx:166-168 | the filter keeps every copy of every task with another id and no task with that id |
| TaskBoard.SpliceStart | src/components/task-board.tsx:170-175 | `splice`'s start index is clamped into 0..length: an in-range index is kept, a larger one becomes the length |
| TaskBoard.Splice | src/components/task-board.tsx:170-175 | the copy gains one element: the task at the clamped index, earlier elements kept, later ones shifted right |
| TaskBoard.Delivered | src/components/task-board.tsx:225 | while the columns are disabled the drop reaches the handler without a destination; otherwise as made |
| TaskBoard.DisabledDropIgnored | src/components/task-board.tsx:133-136 | a drop onto disabled columns leaves the board unchanged and issues no request |
| TaskBoard.DragMovesOnlyWhenValid | src/components/task-board.tsx:136-163 | a drag moves a card exactly when it has a destination other than its own position, both ids name statuses, and the source column holds the card; otherwise the board is unchanged and no request is issued |
| TaskBoard.CrossColumnDrag | src/components/task-board.tsx:166-187 | a cross-column move removes every card with that id from the source, inserts the re-statused copy at the drop index in the destination, leaves the other two columns alone, and requests `{id, status: destination}` |
| TaskBoard.SameColumnDragDuplicates | src/components/task-board.tsx:159-181 | a same-column reorder keeps the card at its old position and adds the inserted copy, so the column holds that id at least twice |
| TaskBoard.DragKeepsColumnsConsistent | src/components/task-board.tsx:146-181 | every drag keeps each card in the column of its own status |
| TaskBoard.Board.constructor | src/components/task-board.tsx:78-83 | the board starts with four empty columns and no pending request |
| TaskBoard.Board.Organize | src/components/task-board.tsx:109-124 | the loop leaves the board equal to the partition of the list, so each card is in its own status's column |
| TaskBoard.Board.OnProjectChange | src/components/task-board.tsx:127-131 | a newly arrived task list replaces the whole board with its partition and becomes the authoritative list |
| TaskBoard.Board.AcceptsDrops | src/components/task-board.tsx:225 | while the update is pending no column accepts a drop, whichever column it is |
| TaskBoard.Board.OnDragEnd | src/components/task-board.tsx:133-188 | the board and outcome are those of the drag-end transition on the drop as the library reports it; the request becomes pending exactly when a card moved; while a request is pending, a drop moves nothing and issues nothing |
| TaskBoard.Board.OnUpdateError | src/components/task-board.tsx:98-105 | on failure the pending flag clears and the board is rebuilt from the last authoritative list, undoing the optimistic move |
| TaskBoard.Board.OnUpdateSuccess | src/components/task-board.tsx:94-97 | on success the pending flag clears, the board is kept, and a refetch is asked for |
| TaskBoard.DragThenRollback | src/components/task-board.tsx:93-188 | dragging card A from To do to In progress issues exactly the request `{A, IN_PROGRESS}`, a second drag while it is pending moves nothing, and a failed request restores the original columns |
| Store.FindByEmail | src/server/api/routers/auth/signup.ts:19-23 | the lookup by the unique email finds the one user holding it, or reports that no user does |
| TaskRouter.Updated | src/server/api/routers/project/task.ts:162-165 | every supplied field is replaced, every omitted one kept; id, creator and project never change |
| TaskRouter.Create | src/server/api/routers/project/task.ts:52-101 | empty title gives BAD_REQUEST; a caller outside the team gives FORBIDDEN; a non-empty assignee outside the team gives BAD_REQUEST; otherwise exactly one task is added, created by the caller, in TODO, priority defaulting to MEDIUM |
| TaskRouter.Update | src/server/api/routers/project/task.ts:103-166 | a missing task gives NOT_FOUND; a caller who is neither task creator, assignee nor project creator gives FORBIDDEN; a non-empty assignee outside the team gives BAD_REQUEST; otherwise only the supplied fields change; failures change nothing |
| TaskRouter.Delete | src/server/api/routers/project/task.ts:168-197 | nothing is removed; "not found" is returned exactly when the caller did not create the task, and "not allowed" is never returned |
| ProjectRouter.MembersOf | src/server/api/routers/project/index.ts:87-98 | a project's members are exactly the users holding a membership in it, with those roles |
| ProjectRouter.Create | src/server/api/routers/project/index.ts:7-27 | an empty name gives BAD_REQUEST; otherwise a project created by the caller is added, and its only member is the caller, as OWNER |
| ProjectRouter.Update | src/server/api/routers/project/index.ts:29-51 | UNAUTHORIZED exactly when the project is missing or the caller did not create it, with nothing changed; otherwise only name and description change, where supplied |
| ProjectRouter.Delete | src/server/api/routers/project/index.ts:53-66 | UNAUTHORIZED exactly when the caller is not the creator, with nothing changed; otherwise the project goes, with its memberships and tasks |
| ProjectRouter.GetAll | src/server/api/routers/project/index.ts:68-81 | exactly the projects in which the caller holds a membership |
| ProjectRouter.GetMembers | src/server/api/routers/project/index.ts:84-99 | NOT_FOUND exactly when the caller is not a member; otherwise all members of the project, the caller among them |
| ProjectRouter.AddMember | src/server/api/routers/project/index.ts:101-139 | UNAUTHORIZED for a non-creator, CONFLICT for an existing member, otherwise exactly one MEMBER membership added; failures change nothing |
| ProjectRouter.RemoveMember | src/server/api/routers/project/index.ts:141-174 | UNAUTHORIZED for a non-creator, CONFLICT when the user created or is assigned a task of the project, otherwise exactly that membership removed (a missing one makes the delete fail) |
| ProfileRouter.Applied | src/server/api/routers/auth/profile.ts:122-136 | the record gets every supplied field and keeps the rest; id and password never change |
| ProfileRouter.AppliedIdempotent | src/server/api/routers/auth/profile.ts:122-136 | applying the same update twice is applying it once |
| ProfileRouter.UpdateProfile | src/server/api/routers/auth/profile.ts:76-149 | invalid input or no supplied field gives BAD_REQUEST; an email another user holds gives CONFLICT, the caller's own is allowed; success writes exactly the supplied fields of the caller's record |
| ProfileRouter.ChangePassword | src/server/api/routers/auth/profile.ts:151-254 | mismatched or short new passwords give BAD_REQUEST; an account with no stored password gives BAD_REQUEST, so NOT_FOUND never occurs; a wrong current password gives UNAUTHORIZED; an unchanged one BAD_REQUEST; success stores hash(new) |
| SignupRouter.Rewrap | src/server/api/routers/auth/signup.ts:40-46 | the catch lets a success through and turns every error into INTERNAL_SERVER_ERROR |
| SignupRouter.Signup | src/server/api/routers/auth/signup.ts:7-47 | a taken email fails with INTERNAL_SERVER_ERROR, never CONFLICT, and adds nothing; otherwise exactly one user is added, with the given name and email and the password hashed |
| Auth.Authorize | src/server/auth.ts:88-119 | null when email or password is missing or empty; otherwise a user is returned exactly when one has that email and their stored password, if any, matches; the result is that user's id, email and name |
| Auth.NoStoredPasswordAcceptsAny | src/server/auth.ts:103-118 | a user without a stored password signs in with any non-empty password |
| Auth.SignupThenAuthorize | src/server/auth.ts:88-119 | after `signup`, the new account signs in with its own password and the store stays email-unique |
| Auth.ChangePasswordThenAuthorize | src/server/auth.ts:103-118 | after the password is changed to p, the account signs in with p |
| Auth.Jwt | src/server/auth.ts:47-55 | on login the token gets the user's id, email and name; without a user it is returned unchanged |
| Auth.SessionCallback | src/server/auth.ts:57-65 | the session's user gets the token's id, email and name and keeps its image |
| Auth.SignIn | src/server/auth.ts:47-119 | a successful sign-in leaves the session naming the account whose email was submitted |
| ProjectModal.Added | src/components/create-project-modal.tsx:139-149 | the trimmed input is appended at the end exactly when it is non-empty, not listed yet and a valid email; otherwise the list is unchanged |
| ProjectModal.Removed | src/components/create-project-modal.tsx:151-155 | exactly the entries other than the removed address remain |
| ProjectModal.AddedNoDuplicates | src/components/create-project-modal.tsx:141-144 | adding keeps a duplicate-free list duplicate-free |
| ProjectModal.RemovedIsSubsequence | src/components/create-project-modal.tsx:152 | removing keeps the other entries in their order |
| ProjectModal.RemovedNoDuplicates | src/components/create-project-modal.tsx:152 | removing keeps a duplicate-free list duplicate-free |
| ProjectModal.RemovedAbsent | src/components/create-project-modal.tsx:152 | removing an address that is not listed changes nothing |
| ProjectModal.RemovedConcat | src/components/create-project-modal.tsx:152 | removing from a concatenation removes from each part |
| ProjectModal.AddThenRemove | src/components/create-project-modal.tsx:139-155 | removing the address just added restores the list |
| ProjectModal.EditForm | src/components/create-project-modal.tsx:98-103 | editing shows the project's name and its member list, or none when absent |
| ProjectModal.ProjectDialog.constructor | src/components/create-project-modal.tsx:76-90 | the dialog starts with an empty list, an empty input and the default form |
| ProjectModal.ProjectDialog.AddMember | src/components/create-project-modal.tsx:139-149 | the list becomes the added list, the input is cleared only when an address was added, the form's copy matches the list, and no duplicate appears |
| ProjectModal.ProjectDialog.RemoveMember | src/components/create-project-modal.tsx:151-155 | the address is dropped from the list and the form's copy, order kept, input untouched |
| ProjectModal.ProjectDialog.OnOpen | src/components/create-project-modal.tsx:93-117 | on opening, edit mode loads the project's members (or none) and create mode starts empty; the input is cleared and the form matches the list |
| TaskCard.Digits | src/components/task-card.tsx:79-81 | the count is printed as decimal digits without a leading zero; zero is the single digit "0" |
| TaskCard.DigitsRoundTrip | src/components/task-card.tsx:79-81 | the printed digits denote the count |
| TaskCard.MinutesSplit | src/components/task-card.tsx:74-76 | whole hours are whole minutes over 60, whole days are whole hours over 24 |
| TaskCard.Breakdown | src/components/task-card.tsx:74-76 | hours are 0..23, minutes 0..59, and days, hours and minutes add up to the whole minutes left |
| TaskCard.Parts | src/components/task-card.tsx:78-81 | the day part appears only when days are non-zero, the hour part only when hours are, the minute part when minutes are or both others are zero; at least one part, in day-hour-minute order |
| TaskCard.ExpiredIff | src/components/task-card.tsx:72 | the label reads "Expired" exactly when the deadline is strictly before now |
| TaskCard.TimeLeftShape | src/components/task-card.tsx:72-83 | a label that is not "Expired" starts with a digit and ends with " left" |
| TaskCard.DeadlineNow | src/components/task-card.tsx:72-83 | at the deadline itself the label reads "0m left" |
| TaskCard.OverdueIsDueSoon | src/components/task-card.tsx:92-96 | read at one instant, an overdue task is also due soon, and a finished task is neither |
| TaskCard.Style | src/components/task-card.tsx:241-247 | the overdue style wins over the due-soon style; a finished task is plain |
| TaskCard.DeleteOnlyForCreator | src/components/task-card.tsx:163-175 | "Delete Task" is offered exactly to the task's creator, and only together with "Edit Task" |
| TaskCard.CardAssignee | src/components/task-board.tsx:272-287 | a card gets the task's assignee id, or the placeholder "Admin" when nobody is assigned |
| TaskCard.EditOfferedImpliesAllowed | src/components/task-card.tsx:163-167 | whoever is offered "Edit Task" may update the task on the server, except a user whose id is "Admin" on an unassigned task |
| TaskCard.ProjectCreatorNotOffered | src/components/task-card.tsx:163-167 | the project's creator may update any task, yet is not offered "Edit Task" on a task they neither created nor are assigned |
| TaskModal.EditValues | src/components/create-task-modal.tsx:101-107 | edit mode copies the task's title, priority, assignee and due date, with an absent description shown empty |
| TaskModal.CreateFrom | src/components/create-task-modal.tsx:157 | the create request carries the form's title and assignee and the project id |
| TaskModal.UpdateFrom | src/components/create-task-modal.tsx:154 | the update request carries the task's id and the form's title and assignee |
| TaskModal.UnassignedPassesSchemaOnly | src/components/create-task-modal.tsx:56 | the "unassigned" option passes the schema, yet the server rejects it as assignee when no team member has that id |
| TaskModal.StaleLowerBound | src/components/create-task-modal.tsx:57 | a due date after the schema's build time but before submission passes, although the card shows it as expired |
| TaskModal.ValidFormHasTitle | src/components/create-task-modal.tsx:47-50 | a form that passes the schema yields a request with a non-empty title |
| TaskModal.TaskDialog.constructor | src/components/create-task-modal.tsx:82-92 | the dialog starts with the default values, which are also what a reset restores, and not loading |
| TaskModal.TaskDialog.OnOpen | src/components/create-task-modal.tsx:96-118 | opening in edit mode copies the task's values, in create mode resets to the defaults; either becomes what a later reset restores |
| TaskModal.TaskDialog.Submit | src/components/create-task-modal.tsx:147-169 | a request is sent exactly when the form passes the schema: an update with the task's id when editing, a create with the project id otherwise; success closes and resets the form to the values it was last opened with; loading ends cleared |
| TaskModal.EditThenSave | src/components/create-task-modal.tsx:96-169 | editing a task and saving sends the update with the task's id and leaves the form showing the task's values, not the blank defaults |
| SettingsPage.FromOptional | src/pages/setting/index.tsx:172-173 | a form field is a string or undefined, never null |
| SettingsPage.ConfirmWithoutNewRejected | src/pages/setting/index.tsx:68-79 | a confirmation typed without a new password is rejected |
| SettingsPage.PasswordChangeAcceptedByServer | src/pages/setting/index.tsx:156-166 | a password change the schema accepts also passes the server's password input check |
| SettingsPage.ProfileRequestAcceptedByServer | src/pages/setting/index.tsx:169-174 | a profile request from a valid form passes the server's input check and has fields |
| SettingsPage.NoChangesIff | src/pages/setting/index.tsx:177-181 | the form shows no change exactly when a profile is loaded, none of its four columns is null, and the four values are equal |
| SettingsPage.NullColumnAlwaysChanged | src/pages/setting/index.tsx:177-181 | while nothing is loaded, or when bio or image is null, every submit counts as a profile change |
| SettingsPage.LoadedInto | src/pages/setting/index.tsx:143-151 | loading copies name, email and bio with null shown empty, and the image only when non-empty; password fields untouched |
| SettingsPage.LoadedFormUnchanged | src/pages/setting/index.tsx:143-151 | right after a full load the untouched form shows no change; with a null bio it shows one |
| SettingsPage.SettingsForm.constructor | src/pages/setting/index.tsx:124-134 | the form starts blank with no image |
| SettingsPage.SettingsForm.OnProfileLoaded | src/pages/setting/index.tsx:143-151 | a loaded profile is copied into the form as the load effect prescribes |
| SettingsPage.SettingsForm.OnSubmit | src/pages/setting/index.tsx:153-194 | a valid form sends a password change exactly when all three password fields are filled; the profile update when something changed and the password step did not fail; "No changes to save" exactly when neither; each success clears the password fields |

## Left out

- Rendering, toasts, console output and routing are not modelled. This covers the board's columns and cards, the dialogs' markup, and the sign-in redirect.
- The board's `updateStatus` and `getById` endpoints are not part of this model. The request's outcome is a parameter, and a refetch is modelled as a new authoritative list arriving (`Board.OnProjectChange`).
- The drag-and-drop library is not part of this model. Only its report of a drop onto disabled columns is modelled, as a drop without a destination (`TaskBoard.Delivered`).
- Asynchrony is not modelled. Each mutation completes within the call that issues it, and `isPending`/`isLoading` are plain boolean fields.
- Each operation takes the current time as one `now` parameter. The card reads the clock twice (`isOverdue` and `isDueSoon`), and the model uses one instant for both.
- TaskCard.Breakdown: `differenceInDays` counts calendar days in local time. The model uses whole 24-hour spans, so daylight-saving shifts are not captured.
- A card's due date is always present (`TaskCard.TaskInfo`); a null due date is not modelled.
- Foreign functions are parameters: bcrypt `hash`/`compare`, zod's email and URL checks, date-fns' `format`. The database's fresh ids are parameters too, with a freshness precondition.
- Length checks count characters. JavaScript counts UTF-16 code units, so surrogate pairs are counted differently.
- ProjectRouter.AddMember: the membership is created without a role, so its role is the schema's column default; the schema is not part of this model and the default is assumed to be MEMBER.
- The schema's referential actions are not part of this model. `ProjectRouter.Delete` assumes memberships and tasks cascade with their project.
- Memberships and tasks are not required to refer to existing users.
- `updatedAt`/`createdAt` timestamps and the `getProfile` query are left out.
- `getAllTasks` is left out: its query result is never returned.
- Database failures other than those modelled are left out. The modelled ones are a missing membership in `removeMember`, and a missing caller or a taken email in the `updateProfile` write.
- The project dialog's submit is left out. So are the task dialog's date-picker time-of-day edits and the settings page's image upload, which are local time and file I/O.
- The settings page's delete-account button is left out.
- The members dialog, project card, task details dialog, header and pages are left out. They are presentational.
