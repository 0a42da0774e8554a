# Project and task lifecycle of the TMS academic task manager

This project models the core of a task-management web application for
academic work. Lecturers create projects and assign them to students. Students
break projects into tasks and subtasks. An assistant suggests task titles and
drafts grading feedback.

The model has two parts:

- **The server actions** (`src/lib/actions.ts`). They run over a document store
  with two collections, modelled as the two map fields of `Actions.Store`:
  `projects` and `tasks`, each keyed by document id. `createProject` inserts a
  Pending project. `createTask` fails on a missing project. Otherwise it adds
  one task and, in the same write batch, promotes a Pending project to In
  Progress. `deleteProject` collects every task of the project into one batch
  with the project and commits it. The two status updates overwrite one field.
  Each method states its whole new state. Each one preserves referential
  integrity (`NoOrphans`: every task's project exists).
- **The logic inside the dashboard components**:
  - the form schemas of the create-project, grading and suggestion dialogs;
  - the student-selection toggle and the suggestion checkboxes;
  - the task snapshot sent to the feedback assistant;
  - the deadline urgency, grade badge, assignee names and menu of the project card;
  - the suggestion commit loop, which calls `createTask` once per selected title
    and counts the successes.

Files: `entities.dfy` (shared value types), `seqs.dfy` (`filter` on sequences
and its laws), `actions.dfy`, `create_project_dialog.dfy`, `project_card.dfy`,
`grade_project_dialog.dfy`, `ai_task_suggester.dfy`, and `assignee_shapes.dfy`
(the finding below).

Modelling choices:

- The store assigns new document ids itself. The model picks one
  nondeterministically, among ids not yet in use. `Actions.UnusedIdExists`
  proves that such an id always exists.
- The store rejects an update of a missing document. So `UpdateProjectStatus`
  and `UpdateTaskStatus` fail and change nothing when the id is absent.
  Deleting a missing document is not an error, and `deleteProject` makes no
  existence check.
- The signed-in user, the current day count and the assistants' answers are
  parameters.
- String lengths in the form schemas are JavaScript `.length` values: UTF-16
  code units (`Entities.Utf16Length`). A character beyond U+FFFF, such as an
  emoji, counts twice.
- In the create-project dialog, `onSelect` copies the selection before it edits
  it with `splice`/`push`. The edit therefore cannot be observed, and the toggle
  is a function from the old selection to the new one.

What the code enforces, and what it does not:

- Any status can be set from any status: `updateProjectStatus` makes no
  transition check, so a project can go back to Pending.
- Nothing limits task nesting: `createTask` never looks at `parentId`. Tasks
  nested deeper than one level are simply missing from the grading snapshot
  (`GrandchildOmitted`).
- The grading action `gradeProject` is imported by the grading dialog but is
  not defined in `src/lib/actions.ts`. The model stops at the request the
  dialog sends (`SubmitGrade`).
- The feedback assistant's output schema bounds the grade to [0, 100] but puts
  no bound on the feedback text. Whether the form then accepts depends on the
  feedback's length alone (`GeneratedFormValidity`).

## Model

| member | source | states |
|---|---|---|
| Actions.Store.CreateProject | src/lib/actions.ts:31-51 | always succeeds; adds exactly one project under an id not in use before, holding the input fields with status Pending and no grade or feedback; tasks unchanged; referential integrity kept |
| Actions.Store.DeleteProject | src/lib/actions.ts:53-80 | always succeeds, even for a missing project; afterwards the project is gone and the task map is `TasksOutside(old tasks, pid)`; other projects unchanged; referential integrity kept; loop invariant: the batch holds exactly the visited tasks of the project |
| Actions.TasksOutside | src/lib/actions.ts:60-71 | after the cascade no task has the deleted project's id; every task of another project survives unchanged; no task is added |
| Actions.Store.UpdateProjectStatus | src/lib/actions.ts:82-101 | succeeds iff the project exists and then sets exactly its status to the given value, from any status; on failure nothing changes; tasks never change; `userId` plays no part |
| Actions.Store.CreateTask | src/lib/actions.ts:103-143 | result is `CreateTaskOutcome`; on a missing project both maps are unchanged; otherwise exactly one task with the input fields is added under a new id, no existing task changes, and the projects become `PromoteOnTask` of the old ones |
| Actions.CreateTaskOutcome | src/lib/actions.ts:107-141 | fails with "Project not found." iff the project is missing; on success `updatedProjectStatus` is true iff the project was Pending before the call |
| Actions.PromoteOnTask | src/lib/actions.ts:127-133 | after `createTask` the project is not Pending; a Pending project becomes In Progress; it changed iff it was Pending, and then only its status changed; every other project is unchanged |
| Actions.NewProject | src/lib/actions.ts:38-44 | the project document holds the input's title, description, deadline, assignees and creator, with status Pending and no grade or feedback |
| Actions.NewTask | src/lib/actions.ts:120-125 | the task document holds exactly the input's project, title, status, parent and creator |
| Actions.PromotesAtMostOnce | src/lib/actions.ts:128-139 | a second `createTask` on the same project changes no project and reports no status change |
| Actions.Store.UpdateTaskStatus | src/lib/actions.ts:145-164 | succeeds iff the task exists and then sets exactly its status, from any status; projects and other tasks unchanged; on failure nothing changes |
| Actions.UnusedIdExists | src/lib/actions.ts:120 | a new document id not yet in use always exists (via `LengthBound`, proved by induction over the set of ids in use) |
| Entities.Utf16Length | src/components/dashboard/create-project-dialog.tsx:45-46 | the `.length` the schemas bound: at least the character count and at most twice it |
| Entities.Utf16LengthBmp | src/components/dashboard/create-project-dialog.tsx:45-46 | on text without characters beyond U+FFFF, `.length` equals the character count |
| Entities.Utf16LengthOfEmoji | src/components/dashboard/grade-project-dialog.tsx:40-43 | two emoji are two characters but four code units |
| CreateProjectDialog.ProjectFormValid | src/components/dashboard/create-project-dialog.tsx:44-52 | the title and description are measured in UTF-16 code units; an accepted form has a deadline, at least one assignee, a title of at least 2 characters and a description of at least 5; any form with a title of at least 3 characters, a description of at least 10, a deadline and an assignee is accepted |
| CreateProjectDialog.TwoEmojiTitleAccepted | src/components/dashboard/create-project-dialog.tsx:45 | a title of two emoji passes the three-unit minimum |
| CreateProjectDialog.InitialForm | src/components/dashboard/create-project-dialog.tsx:64-71 | the form opens with an empty title and description, no deadline and no assignees, so the schema rejects it |
| CreateProjectDialog.FindIndex | src/components/dashboard/create-project-dialog.tsx:193 | returns -1 iff no entry has the id, and otherwise the first index holding it |
| CreateProjectDialog.ToggleStudent | src/components/dashboard/create-project-dialog.tsx:191-199 | toggling an unselected student adds one entry, which is the first with that id; toggling a selected one removes one entry; no entry other than the student's `{id, name}` appears |
| CreateProjectDialog.ToggleEffect | src/components/dashboard/create-project-dialog.tsx:191-199 | toggling a selected student removes exactly its first entry and keeps the rest in order; toggling an unselected one appends `{id, name}` at the end |
| CreateProjectDialog.ToggleKeepsDistinct | src/components/dashboard/create-project-dialog.tsx:192-199 | on a selection without repeated ids, the toggled selection still has none |
| CreateProjectDialog.ToggleTwiceRestores | src/components/dashboard/create-project-dialog.tsx:192-199 | selecting an unselected student and toggling it again gives back the original selection |
| CreateProjectDialog.ToggleTwiceMovesToEnd | src/components/dashboard/create-project-dialog.tsx:192-199 | deselecting and reselecting a selected student keeps the others in order and moves that student to the end |
| CreateProjectDialog.ProjectInputOf | src/components/dashboard/create-project-dialog.tsx:73-79 | (corrected payload) carries the form's title, description and deadline, the creating lecturer, and one uid per selected student, in order, at least one |
| CreateProjectDialog.SubmittedAssigneesResolve | src/components/dashboard/create-project-dialog.tsx:73-81 | with uids stored, the card shows each selected student's name whenever the student list knows that uid |
| CreateProjectDialog.SubmitProjectForm | src/components/dashboard/create-project-dialog.tsx:73-97 | (corrected payload) creates a project iff the schema accepts the form; the new project is Pending and assigned to the selected uids; a rejected form changes nothing |
| ProjectCard.DeadlineStyle | src/components/dashboard/project-card.tsx:97-111 | Completed keeps the default styling at any day count; otherwise a negative count gives "Overdue by -days" in destructive styling, 0 to 3 gives "Due in days" in primary styling, more gives the default; the alert icon, border and text colour always agree |
| ProjectCard.GradeBadge | src/components/dashboard/project-card.tsx:189-193 | the badge shows iff a grade is present, 0 included; it is destructive iff the grade is below 50 |
| ProjectCard.FindStudent | src/components/dashboard/project-card.tsx:118 | finds nothing iff no student has the uid; otherwise returns the first student with it |
| ProjectCard.StudentName | src/components/dashboard/project-card.tsx:117-120 | "Unknown" when no student has the uid, otherwise the name of a student with that uid |
| ProjectCard.AssignedToNames | src/components/dashboard/project-card.tsx:115-122 | "No students assigned" iff the field is not an array; otherwise one name per assigned id, in order, "Unknown" exactly for the ids no student has |
| ProjectCard.MenuEntries | src/components/dashboard/project-card.tsx:137-168 | students get no menu; lecturers always get View Progress and Delete; Grade Project appears iff the viewer is a lecturer and the project is Completed |
| GradeProjectDialog.GradeFormValid | src/components/dashboard/grade-project-dialog.tsx:35-44 | feedback is measured in UTF-16 code units; an accepted form has a grade in [0,100] and feedback of 5 to 2000 characters; a grade in range with 10 to 1000 characters of feedback is always accepted |
| GradeProjectDialog.DefaultForm | src/components/dashboard/grade-project-dialog.tsx:65-71 | a project with no grade or no feedback opens the dialog invalid |
| GradeProjectDialog.DefaultFormValidity | src/components/dashboard/grade-project-dialog.tsx:65-71 | the form starts from the project's grade, and from its feedback when present or `''` otherwise; it opens valid iff the project already has a grade in [0,100] and feedback of 10 to 2000 UTF-16 code units |
| GradeProjectDialog.Snapshot | src/components/dashboard/grade-project-dialog.tsx:92-97 | one entry per top-level task, in input order, with its title and status; each entry's subtasks are the tasks whose `parentId` is that task's id, in input order, reduced to title and status |
| GradeProjectDialog.Detail | src/components/dashboard/grade-project-dialog.tsx:93-96 | an entry keeps the task's title and status; its subtasks are exactly the listed tasks whose parent id is that task's id, in list order, reduced to title and status |
| GradeProjectDialog.SnapshotCovers | src/components/dashboard/grade-project-dialog.tsx:92-96 | every top-level task is an entry, and every child of a listed top-level task is among that entry's subtasks |
| GradeProjectDialog.UnattachedTaskOmitted | src/components/dashboard/grade-project-dialog.tsx:92-96 | a task whose `parentId` names no top-level task of the list appears nowhere in the snapshot |
| GradeProjectDialog.GrandchildOmitted | src/components/dashboard/grade-project-dialog.tsx:92-96 | with unique ids, a task whose parent is itself a subtask appears nowhere in the snapshot |
| GradeProjectDialog.ParentOrder | src/components/dashboard/grade-project-dialog.tsx:92 | the top-level tasks keep the order of the fetched list |
| GradeProjectDialog.TwoTaskSnapshot | src/components/dashboard/grade-project-dialog.tsx:92-97 | two top-level tasks, one with a completed subtask, yield both entries with exactly that subtask |
| GradeProjectDialog.AfterGenerate | src/components/dashboard/grade-project-dialog.tsx:89-122 | a generated answer overwrites both grade and feedback in the form; a failed one leaves the form as it was |
| GradeProjectDialog.GeneratedFormValidity | src/components/dashboard/grade-project-dialog.tsx:105-106 | with a suggested grade in [0,100] the form is valid iff the feedback has 10 to 2000 UTF-16 code units |
| GradeProjectDialog.NamesOf | src/components/dashboard/grade-project-dialog.tsx:152 | one name per student, in order; a name appears iff some student in the list has it |
| GradeProjectDialog.AssignedStudentNames | src/components/dashboard/grade-project-dialog.tsx:150-153 | a name appears iff some listed student has it and that student's uid is assigned |
| GradeProjectDialog.AssignedStudentNamesOrder | src/components/dashboard/grade-project-dialog.tsx:150-153 | the names follow the order of the student list |
| GradeProjectDialog.SubmitGrade | src/components/dashboard/grade-project-dialog.tsx:125-133 | a grading request is sent iff the schema accepts the form and a user is signed in; it carries this project's id, the user's uid, and a grade in [0,100] with 10 to 2000 UTF-16 code units of feedback |
| AiTaskSuggester.SuggestionsValid | src/components/dashboard/ai-task-suggester.tsx:31-33 | the schema accepts iff at least one title is selected |
| AiTaskSuggester.AfterGenerate | src/components/dashboard/ai-task-suggester.tsx:50-81 | a non-empty answer pre-selects every suggestion and opens the dialog; an empty answer or an error clears suggestions and selection and leaves the dialog as it was; the selection is valid iff the answer was non-empty |
| AiTaskSuggester.CheckboxChange | src/components/dashboard/ai-task-suggester.tsx:161-169 | checking appends the title at the end; unchecking removes every occurrence of it and keeps every other title |
| AiTaskSuggester.UncheckKeepsOrder | src/components/dashboard/ai-task-suggester.tsx:164-168 | unchecking keeps the remaining titles in order |
| AiTaskSuggester.CheckThenUncheck | src/components/dashboard/ai-task-suggester.tsx:161-169 | checking an unselected title and unchecking it again restores the selection |
| AiTaskSuggester.SubmitSuggestions | src/components/dashboard/ai-task-suggester.tsx:83-113 | the report is `Added` iff the selection is non-empty and a user is signed in; nothing is sent for an empty selection or without a signed-in user; otherwise one `createTask` per title, in order, each Pending under this project; the count equals the number of tasks added; every earlier task stays; when the project exists, the projects become `PromoteOnTask` of the old ones, so a Pending project ends In Progress |
| AssigneeShapes.StoredAsWritten | src/components/dashboard/create-project-dialog.tsx:75-79 | (as written) the stored `assignedTo` array holds one `{id, name}` object per selected student |
| AssigneeShapes.CardName | src/components/dashboard/project-card.tsx:117-120 | the card's strict-equality lookup never matches a stored object, so it shows "Unknown" |
| AssigneeShapes.HeadingNames | src/components/dashboard/grade-project-dialog.tsx:150-153 | the grading heading's `includes` never matches when the stored array holds only objects |
| AssigneeShapes.AsWrittenNamesNobody | src/components/dashboard/create-project-dialog.tsx:73-81 | for every form the schema accepts, the card shows "Unknown" for each assignee and the grading heading lists nobody |
| AssigneeShapes.AsWrittenCounterexample | src/components/dashboard/create-project-dialog.tsx:75-79 | a concrete form assigning one known student: the card shows "Unknown" and the heading is empty |
| AssigneeShapes.CorrectedCardNames | src/components/dashboard/project-card.tsx:115-122 | with uids stored, the card's lookup on the stored array equals `ProjectCard.AssignedToNames` |
| AssigneeShapes.CorrectedHeadingNames | src/components/dashboard/grade-project-dialog.tsx:150-153 | with uids stored, the grading heading equals `GradeProjectDialog.AssignedStudentNames` |

## Left out

- The document store's I/O: `addDoc`, `getDoc`, `getDocs`, `updateDoc` and `writeBatch` become map operations, and each committed batch is one assignment. Server timestamps (`createdAt`, `updatedAt`) and `revalidatePath` are dropped.
- Reads whose results are never used: the project title in `deleteProject` and the snapshots after the two status updates.
- Transport and store failures: each action's `catch` branch, which returns `{ success: false, error }`, is not modelled. The model's only failures are a missing project in `createTask` and an update of a missing document.
- Actions.Store.CreateTask: calls are sequential. The race in which two concurrent calls both read Pending is not modelled.
- AiTaskSuggester.SubmitSuggestions: without store failures, each `createTask` either succeeds for every title or fails for every title. A partial count from failures in the middle of the loop cannot arise in the model. The count is still stated as the number of calls that succeeded.
- The two assistants (the breakdown and feedback prompt flows) are calls into a language model. Their answers are inputs: `BreakdownResult` and `FeedbackResult`. De-duplication against existing task titles is left to that model and is not stated.
- `gradeProject` is not part of this model: the grading dialog imports it from `src/lib/actions.ts`, which does not define it.
- `fetchTasks` in the grading dialog (a query by project id) is not modelled. The snapshot takes the fetched list as input.
- Dates: deadline parsing, `Timestamp` conversion, `getDeadlineDate`, `differenceInDays`, `format` and the calendar rule that disables past dates. The deadline is an opaque integer and the day count an integer input. The default caption keeps the deadline rather than its formatted text.
- Grades are integers. A fractional or NaN grade from `z.coerce.number` is not modelled, except that an undefined grade is `None` and fails the schema.
- ProjectCard.AssignedToNames: returns the list of names, not the string joined with `', '`. The same holds for `GradeProjectDialog.AssignedStudentNames`.
- React state, toasts, dialog open/close (other than the suggestion dialog's opening), loading flags, the status icon and colour table, and the student's "Manage Tasks" button.
- The authentication context: the signed-in user is an `Option` parameter, and the viewer's role is a parameter of the card.

## Findings

| source | as written | input that shows it | evidently intended | confidence | as-written member | corrected member |
|---|---|---|---|---|---|---|
| src/components/dashboard/create-project-dialog.tsx:75-79 | `onSubmit` spreads the form values into the `createProject` payload, so `assignedTo` is stored as `{id, name}` objects. The project card (`students.find(s => s.uid === studentId)`) and the grading dialog (`assignedTo.includes(s.uid)`) compare those entries with uid strings. | a form assigning student `s1` ("Ann"), with `s1` in the card's student list: the card shows "Unknown" and the grading heading names nobody | the payload carries the selected students' uids (`assignedTo.map(s => s.id)`), as `createProject`'s input type says | medium; not executed | AssigneeShapes.AsWrittenCounterexample | CreateProjectDialog.ProjectInputOf |
