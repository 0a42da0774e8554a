/** The AI task suggester: staging the assistant's suggestions for selection,
    the checkbox edits of the selection, and the commit loop that creates one
    task per selected title through `createTask`. */
module AiTaskSuggester {
  import opened Entities
  import opened Seqs
  import Actions

  /** `suggestionsSchema`: at least one title selected. */
  predicate SuggestionsValid(selected: seq<string>): (ok: bool)
    ensures ok <==> selected != []
  {
    |selected| >= 1
  }

  /** The component's staging state: the suggestions on offer, the titles
      currently selected, and whether the selection dialog is open. */
  datatype Staging = Staging(suggested: seq<string>, selected: seq<string>, dialogOpen: bool)

  /** The task-breakdown assistant's answer: a list of titles, or an error. */
  datatype BreakdownResult = Suggested(tasks: seq<string>) | BreakdownFailed

  /** `handleGenerateTasks`: clear the suggestions and the form, ask the
      assistant, and on a non-empty answer pre-select every suggestion and open
      the dialog. An empty answer or an error leaves the dialog as it was. */
  function AfterGenerate(s: Staging, result: BreakdownResult): (t: Staging)
    ensures result.Suggested? && result.tasks != [] ==>
      t.suggested == result.tasks && t.selected == result.tasks && t.dialogOpen
    ensures !(result.Suggested? && result.tasks != []) ==>
      t.suggested == [] && t.selected == [] && t.dialogOpen == s.dialogOpen
    ensures SuggestionsValid(t.selected) <==> result.Suggested? && result.tasks != []
  {
    if result.Suggested? && |result.tasks| > 0 then Staging(result.tasks, result.tasks, true)
    else Staging([], [], s.dialogOpen)
  }

  /** One checkbox's `onCheckedChange`: checking appends the title, unchecking
      drops every occurrence of it. */
  function CheckboxChange(selected: seq<string>, title: string, checked: bool): (r: seq<string>)
    ensures checked ==> |r| == |selected| + 1 && r[..|selected|] == selected && r[|selected|] == title
    ensures !checked ==> title !in r && |r| <= |selected|
    ensures !checked ==> forall v :: v != title ==> (v in r <==> v in selected)
  {
    if checked then selected + [title]
    else Filter(selected, v => v != title)
  }

  /** Unchecking keeps the other titles in their order. */
  lemma UncheckKeepsOrder(a: seq<string>, b: seq<string>, title: string)
    ensures CheckboxChange(a + b, title, false) ==
      CheckboxChange(a, title, false) + CheckboxChange(b, title, false)
  {
    FilterAppend(a, b, v => v != title);
  }

  /** Checking a title that was not selected and unchecking it again restores
      the selection. */
  lemma CheckThenUncheck(selected: seq<string>, title: string)
    requires title !in selected
    ensures CheckboxChange(CheckboxChange(selected, title, true), title, false) == selected
  {
    var notTitle := (v: string) => v != title;
    FilterAppend(selected, [title], notTitle);
    FilterAll(selected, notTitle);
    assert Filter([title], notTitle) == [];
  }

  /** What a submission reports: rejected by the schema, dropped for want of a
      signed-in user, or the number of tasks added. */
  datatype SubmitReport = Invalid | NoUser | Added(count: nat)

  /** The task `onSubmit` asks `createTask` to add for one selected title. */
  function SuggestedTask(projectId: Id, title: string, uid: Id): Actions.TaskInput {
    Actions.TaskInput(projectId, title, Pending, None, uid)
  }

  /** The task map `tasks` is `tasks0` plus one new document per entry of
      `added`, under the distinct fresh ids `ids`; no earlier task changed. */
  ghost predicate Extends(tasks0: map<Id, Task>, tasks: map<Id, Task>, ids: seq<Id>, added: seq<Task>) {
    |ids| == |added| && Distinct(ids) &&
    (forall k :: 0 <= k < |ids| ==> ids[k] !in tasks0 && ids[k] in tasks && tasks[ids[k]] == added[k]) &&
    (forall t :: t in tasks0 ==> t in tasks && tasks[t] == tasks0[t]) &&
    (forall t :: t in tasks ==> t in tasks0 || t in ids)
  }

  /** Adding one more document under an unused id keeps the extension. */
  lemma ExtendsStep(tasks0: map<Id, Task>, tasks: map<Id, Task>, ids: seq<Id>, added: seq<Task>,
                    id: Id, task: Task)
    requires Extends(tasks0, tasks, ids, added)
    requires id !in tasks
    ensures Extends(tasks0, tasks[id := task], ids + [id], added + [task])
  {
    var ids', added' := ids + [id], added + [task];
    assert forall k :: 0 <= k < |ids| ==> ids'[k] == ids[k] && added'[k] == added[k];
    assert ids'[|ids|] == id && added'[|ids|] == task;
    assert forall k :: 0 <= k < |ids| ==> ids[k] in tasks;
  }

  /** Submitting the selection: after the schema check and the signed-in check,
      one `createTask` call per selected title, in order, counting the calls that
      succeed. Earlier creations stay when a later one fails. */
  method SubmitSuggestions(store: Actions.Store, user: Option<Id>, projectId: Id, selected: seq<string>)
    returns (report: SubmitReport, ghost ids: seq<Id>, ghost added: seq<Task>)
    modifies store
    ensures !SuggestionsValid(selected) ==> report == Invalid
    ensures SuggestionsValid(selected) && user.None? ==> report == NoUser
    ensures report.Added? <==> SuggestionsValid(selected) && user.Some?
    ensures !report.Added? ==> store.projects == old(store.projects) && store.tasks == old(store.tasks)
    ensures report.Added? ==> report.count == |ids| <= |selected|
    ensures report.Added? ==>
      report.count == (if projectId in old(store.projects) then |selected| else 0)
    ensures report.Added? && projectId in old(store.projects) ==>
      store.projects == Actions.PromoteOnTask(old(store.projects), projectId)
    ensures (report.Added? && projectId in old(store.projects) &&
             old(store.projects)[projectId].status == Pending) ==>
      store.projects[projectId].status == InProgress
    ensures report.Added? && projectId !in old(store.projects) ==>
      store.projects == old(store.projects) && store.tasks == old(store.tasks)
    ensures report.Added? ==> Extends(old(store.tasks), store.tasks, ids, added)
    ensures report.Added? ==> forall k :: 0 <= k < |added| ==>
      added[k] == Actions.NewTask(SuggestedTask(projectId, selected[k], user.value))
  {
    ids, added := [], [];
    if !SuggestionsValid(selected) {
      return Invalid, ids, added;
    }
    if user.None? {
      return NoUser, ids, added;
    }
    var uid := user.value;
    ghost var projects0, tasks0 := store.projects, store.tasks;
    var tasksAddedCount := 0;
    var i := 0;
    while i < |selected|
      invariant 0 <= i <= |selected|
      invariant tasksAddedCount == |ids|
      invariant tasksAddedCount == (if projectId in projects0 then i else 0)
      invariant store.projects ==
        if i > 0 && projectId in projects0 then Actions.PromoteOnTask(projects0, projectId) else projects0
      invariant Extends(tasks0, store.tasks, ids, added)
      invariant forall k :: 0 <= k < |added| ==>
        added[k] == Actions.NewTask(SuggestedTask(projectId, selected[k], uid))
    {
      ghost var before := store.tasks;
      var input := SuggestedTask(projectId, selected[i], uid);
      var result := store.CreateTask(input);
      if result.TaskCreated? {
        tasksAddedCount := tasksAddedCount + 1;
        ghost var id :| id !in before && store.tasks == before[id := Actions.NewTask(input)];
        ExtendsStep(tasks0, before, ids, added, id, Actions.NewTask(input));
        ids, added := ids + [id], added + [Actions.NewTask(input)];
        if i > 0 {
          Actions.PromotesAtMostOnce(projects0, input);
        }
      }
      i := i + 1;
    }
    report := Added(tasksAddedCount);
  }
}
