/** The pure logic of the grading dialog: the grade form's schema and defaults,
    the task snapshot sent to the feedback assistant, the assistant's result
    written into the form, the names in the dialog's heading and the request a
    submission sends. */
module GradeProjectDialog {
  import opened Entities
  import opened Seqs

  /** The form's values. `grade` is None while the field is `undefined`, which
      coerces to NaN and fails both bounds. */
  datatype GradeForm = GradeForm(grade: Option<int>, feedback: string)

  const MinGrade := 0
  const MaxGrade := 100
  const MinFeedback := 10
  const MaxFeedback := 2000

  /** `gradeSchema`: a grade in [0, 100] and feedback of 10 to 2000 UTF-16 code units. */
  predicate GradeFormValid(f: GradeForm): (ok: bool)
    ensures ok ==> f.grade.Some? && 0 <= f.grade.value <= 100
    ensures ok ==> 5 <= |f.feedback| <= 2000
    ensures (f.grade.Some? && 0 <= f.grade.value <= 100 && 10 <= |f.feedback| <= 1000) ==> ok
  {
    f.grade.Some? && MinGrade <= f.grade.value <= MaxGrade &&
    MinFeedback <= Utf16Length(f.feedback) <= MaxFeedback
  }

  /** The form's default values, taken from the project being graded. */
  function DefaultForm(p: Project): (f: GradeForm)
    ensures p.grade.None? ==> !GradeFormValid(f)
    ensures p.feedback.None? ==> !GradeFormValid(f)
  {
    GradeForm(p.grade, p.feedback.GetOr(""))
  }

  /** The dialog opens valid exactly when the project already carries a grade in
      range and feedback of acceptable length; an ungraded project opens invalid. */
  lemma DefaultFormValidity(p: Project)
    ensures DefaultForm(p).grade == p.grade
    ensures p.feedback.Some? ==> DefaultForm(p).feedback == p.feedback.value
    ensures p.feedback.None? ==> DefaultForm(p).feedback == ""
    ensures GradeFormValid(DefaultForm(p)) <==>
      p.grade.Some? && 0 <= p.grade.value <= 100 &&
      p.feedback.Some? && 10 <= Utf16Length(p.feedback.value) <= 2000
  {
  }

  // ---- The snapshot handed to the feedback assistant ----

  datatype SubtaskDetail = SubtaskDetail(title: string, status: Status)
  datatype TaskDetail = TaskDetail(title: string, status: Status, subtasks: seq<SubtaskDetail>)

  /** `!t.parentId`: no parent, or an empty parent id. */
  predicate IsTopLevel(t: FetchedTask) {
    t.data.parentId.None? || t.data.parentId.value == ""
  }

  /** `st.parentId === pid`. */
  predicate IsChildOf(t: FetchedTask, pid: Id) {
    t.data.parentId == Some(pid)
  }

  function ParentTasks(tasks: seq<FetchedTask>): seq<FetchedTask> {
    Filter(tasks, IsTopLevel)
  }

  function SubtasksOf(tasks: seq<FetchedTask>, pid: Id): seq<FetchedTask> {
    Filter(tasks, t => IsChildOf(t, pid))
  }

  /** A subtask as the snapshot carries it: title and status only. */
  function Brief(t: FetchedTask): SubtaskDetail {
    SubtaskDetail(t.data.title, t.data.status)
  }

  /** One entry of `taskDetails`: the task's title and status, and its children
      reduced to title and status, in list order. */
  function Detail(tasks: seq<FetchedTask>, parent: FetchedTask): (d: TaskDetail)
    ensures d.title == parent.data.title && d.status == parent.data.status
    ensures |d.subtasks| == |SubtasksOf(tasks, parent.id)|
    ensures forall j :: 0 <= j < |d.subtasks| ==>
      d.subtasks[j] == Brief(SubtasksOf(tasks, parent.id)[j]) &&
      SubtasksOf(tasks, parent.id)[j] in tasks &&
      IsChildOf(SubtasksOf(tasks, parent.id)[j], parent.id)
  {
    var subs := SubtasksOf(tasks, parent.id);
    TaskDetail(parent.data.title, parent.data.status,
               seq(|subs|, j requires 0 <= j < |subs| => Brief(subs[j])))
  }

  /** `taskDetails` in `handleGenerateFeedback`: one entry per top-level task, each
      with the tasks whose parent id is that task's id. */
  function Snapshot(tasks: seq<FetchedTask>): (r: seq<TaskDetail>)
    ensures |r| == Count(tasks, IsTopLevel)
    ensures forall i :: 0 <= i < |r| ==>
      var parent := ParentTasks(tasks)[i];
      IsTopLevel(parent) && parent in tasks &&
      r[i].title == parent.data.title && r[i].status == parent.data.status &&
      |r[i].subtasks| == |SubtasksOf(tasks, parent.id)| &&
      forall j :: 0 <= j < |r[i].subtasks| ==>
        r[i].subtasks[j] == Brief(SubtasksOf(tasks, parent.id)[j]) &&
        SubtasksOf(tasks, parent.id)[j] in tasks &&
        IsChildOf(SubtasksOf(tasks, parent.id)[j], parent.id)
  {
    var parents := ParentTasks(tasks);
    seq(|parents|, i requires 0 <= i < |parents| => Detail(tasks, parents[i]))
  }

  /** A task whose parent id names no top-level task of the list (a grandchild,
      or a dangling reference) appears neither as an entry nor as a subtask. */
  lemma UnattachedTaskOmitted(tasks: seq<FetchedTask>, t: FetchedTask)
    requires t.data.parentId.Some? && t.data.parentId.value != ""
    requires forall p :: p in tasks && IsTopLevel(p) ==> p.id != t.data.parentId.value
    ensures t !in ParentTasks(tasks)
    ensures forall p :: p in ParentTasks(tasks) ==> t !in SubtasksOf(tasks, p.id)
  {
  }

  /** Every top-level task of the list has an entry, and every task whose parent
      is a top-level task of the list is among that entry's subtasks. */
  lemma SnapshotCovers(tasks: seq<FetchedTask>, t: FetchedTask)
    requires t in tasks
    ensures IsTopLevel(t) ==> t in ParentTasks(tasks)
    ensures forall p :: p in tasks && IsTopLevel(p) && IsChildOf(t, p.id) ==>
      p in ParentTasks(tasks) && t in SubtasksOf(tasks, p.id)
  {
  }

  /** Two top-level tasks, the first Completed with one Completed subtask, the
      second Pending with none: both reach the assistant, with their subtasks. */
  lemma TwoTaskSnapshot()
    ensures var outline := FetchedTask("t1", Task("p1", "Outline", Completed, None, "s1"));
      var sources := FetchedTask("t2", Task("p1", "Find sources", Completed, Some("t1"), "s1"));
      var draft := FetchedTask("t3", Task("p1", "Draft", Pending, None, "s1"));
      Snapshot([outline, sources, draft]) ==
        [TaskDetail("Outline", Completed, [SubtaskDetail("Find sources", Completed)]),
         TaskDetail("Draft", Pending, [])]
  {
    var outline := FetchedTask("t1", Task("p1", "Outline", Completed, None, "s1"));
    var sources := FetchedTask("t2", Task("p1", "Find sources", Completed, Some("t1"), "s1"));
    var draft := FetchedTask("t3", Task("p1", "Draft", Pending, None, "s1"));
    var tasks := [outline, sources, draft];
    TwoTaskFilters(outline, sources, draft);
    var r := Snapshot(tasks);
    assert |r| == 2;
    assert |r[0].subtasks| == 1 && r[0].subtasks[0] == Brief(sources);
    assert r[0] == TaskDetail("Outline", Completed, [SubtaskDetail("Find sources", Completed)]);
    assert r[1] == TaskDetail("Draft", Pending, []);
  }

  lemma TwoTaskFilters(outline: FetchedTask, sources: FetchedTask, draft: FetchedTask)
    requires outline == FetchedTask("t1", Task("p1", "Outline", Completed, None, "s1"))
    requires sources == FetchedTask("t2", Task("p1", "Find sources", Completed, Some("t1"), "s1"))
    requires draft == FetchedTask("t3", Task("p1", "Draft", Pending, None, "s1"))
    ensures ParentTasks([outline, sources, draft]) == [outline, draft]
    ensures SubtasksOf([outline, sources, draft], "t1") == [sources]
    ensures SubtasksOf([outline, sources, draft], "t3") == []
  {
    var tasks := [outline, sources, draft];
    assert tasks[1..] == [sources, draft] && [sources, draft][1..] == [draft] && [draft][1..] == [];
    assert Filter([sources, draft], IsTopLevel) == [draft];
    var childOfOutline := (t: FetchedTask) => IsChildOf(t, "t1");
    var childOfDraft := (t: FetchedTask) => IsChildOf(t, "t3");
    assert Filter([sources, draft], childOfOutline) == [sources];
    assert Filter([sources, draft], childOfDraft) == [];
  }

  /** Task ids in a fetched list are unique (they are document ids). */
  predicate UniqueIds(tasks: seq<FetchedTask>) {
    Distinct(TaskIds(tasks))
  }

  /** The document ids of a fetched list, in order. */
  function TaskIds(tasks: seq<FetchedTask>): (ids: seq<Id>)
    ensures |ids| == |tasks|
    ensures forall k :: 0 <= k < |tasks| ==> ids[k] == tasks[k].id
  {
    seq(|tasks|, k requires 0 <= k < |tasks| => tasks[k].id)
  }

  /** A sub-subtask is dropped from the snapshot: nesting beyond one level is
      not reported to the assistant. */
  lemma GrandchildOmitted(tasks: seq<FetchedTask>, sub: FetchedTask, t: FetchedTask)
    requires UniqueIds(tasks)
    requires sub in tasks && !IsTopLevel(sub)
    requires t.data.parentId == Some(sub.id) && sub.id != ""
    ensures t !in ParentTasks(tasks)
    ensures forall p :: p in ParentTasks(tasks) ==> t !in SubtasksOf(tasks, p.id)
  {
    forall p | p in tasks && IsTopLevel(p) ensures p.id != sub.id {
      var a :| 0 <= a < |tasks| && tasks[a] == p;
      var b :| 0 <= b < |tasks| && tasks[b] == sub;
      assert a != b;
    }
    UnattachedTaskOmitted(tasks, t);
  }

  /** Entries follow the order of the fetched list: the top-level tasks of a
      prefix come first. */
  lemma ParentOrder(a: seq<FetchedTask>, b: seq<FetchedTask>)
    ensures ParentTasks(a + b) == ParentTasks(a) + ParentTasks(b)
  {
    FilterAppend(a, b, IsTopLevel);
  }

  // ---- The assistant's result, written into the form ----

  /** The feedback assistant's answer: feedback text and a suggested grade, or an error. */
  datatype FeedbackResult = Generated(feedback: string, suggestedGrade: int) | GenerationFailed

  /** `form.setValue('feedback', …)` and `form.setValue('grade', …)` on success;
      on failure the form is left as it was. */
  function AfterGenerate(f: GradeForm, result: FeedbackResult): (g: GradeForm)
    ensures result.GenerationFailed? ==> g == f
    ensures result.Generated? ==> g.grade == Some(result.suggestedGrade) && g.feedback == result.feedback
  {
    match result
    case GenerationFailed => f
    case Generated(feedback, grade) => GradeForm(Some(grade), feedback)
  }

  /** A grade within the assistant's output bound always passes the form's grade
      check; whether the form is then valid depends only on the feedback length,
      which the assistant's output schema does not bound. */
  lemma GeneratedFormValidity(f: GradeForm, feedback: string, grade: int)
    requires 0 <= grade <= 100
    ensures GradeFormValid(AfterGenerate(f, Generated(feedback, grade))) <==>
      10 <= Utf16Length(feedback) <= 2000
  {
  }

  // ---- The heading and the submission ----

  /** `.map(s => s.name)`: the students' names, in order. */
  function NamesOf(users: seq<User>): (names: seq<string>)
    ensures |names| == |users|
    ensures forall k :: 0 <= k < |users| ==> names[k] == users[k].name
    ensures forall n :: n in names <==> exists s :: s in users && s.name == n
  {
    var names := seq(|users|, k requires 0 <= k < |users| => users[k].name);
    assert forall n :: n in names ==> exists k :: 0 <= k < |users| && users[k].name == n;
    forall s | s in users ensures s.name in names {
      var k :| 0 <= k < |users| && users[k] == s;
      assert names[k] == s.name;
    }
    names
  }

  lemma NamesOfAppend(a: seq<User>, b: seq<User>)
    ensures NamesOf(a + b) == NamesOf(a) + NamesOf(b)
  {
    var ab := a + b;
    assert forall k :: 0 <= k < |a| ==> ab[k] == a[k];
    assert forall k :: |a| <= k < |ab| ==> ab[k] == b[k - |a|];
  }

  /** `assignedStudentNames` before joining: the names of the listed students
      whose uid is among the project's assignees, in the order of `students`. */
  function AssignedStudentNames(p: Project, students: seq<User>): (names: seq<string>)
    ensures |names| <= |students|
    ensures forall n :: n in names <==>
      exists s :: s in students && s.uid in p.assignedTo && s.name == n
  {
    NamesOf(Filter(students, (s: User) => s.uid in p.assignedTo))
  }

  /** The names follow the order of `students`. */
  lemma AssignedStudentNamesOrder(p: Project, a: seq<User>, b: seq<User>)
    ensures AssignedStudentNames(p, a + b) == AssignedStudentNames(p, a) + AssignedStudentNames(p, b)
  {
    var isAssigned := (s: User) => s.uid in p.assignedTo;
    FilterAppend(a, b, isAssigned);
    NamesOfAppend(Filter(a, isAssigned), Filter(b, isAssigned));
  }

  /** What `onSubmit` hands to the grading action. */
  datatype GradeRequest = GradeRequest(projectId: Id, grade: int, feedback: string, userId: Id)

  /** Submitting the form: the schema is checked first, and nothing is sent
      without a signed-in user. */
  function SubmitGrade(f: GradeForm, user: Option<Id>, projectId: Id): (r: Option<GradeRequest>)
    ensures r.Some? <==> GradeFormValid(f) && user.Some?
    ensures r.Some? ==>
      r.value.projectId == projectId && r.value.userId == user.value &&
      0 <= r.value.grade <= 100 && 10 <= Utf16Length(r.value.feedback) <= 2000 &&
      r.value.grade == f.grade.value && r.value.feedback == f.feedback
  {
    if !GradeFormValid(f) then None
    else match user
      case None => None
      case Some(uid) => Some(GradeRequest(projectId, f.grade.value, f.feedback, uid))
  }
}
