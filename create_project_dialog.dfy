/** The pure logic of the create-project dialog: the form schema, its initial
    values, and the student multi-select toggle. */
module CreateProjectDialog {
  import opened Entities
  import opened Seqs
  import Actions
  import ProjectCard

  /** One chosen student as the form keeps it: `{ id, name }`. */
  datatype Selection = Selection(id: Id, name: string)

  /** The form's values; the deadline is absent until a date is picked. */
  datatype ProjectForm = ProjectForm(
    title: string,
    description: string,
    deadline: Option<int>,
    assignedTo: seq<Selection>)

  const MinTitle := 3
  const MinDescription := 10

  /** `projectSchema`: a title of at least 3 and a description of at least 10
      UTF-16 code units, a picked deadline and at least one assigned student. */
  predicate ProjectFormValid(f: ProjectForm): (ok: bool)
    ensures ok ==> f.deadline.Some? && f.assignedTo != []
    ensures ok ==> 2 * |f.title| >= MinTitle && 2 * |f.description| >= MinDescription
    ensures (|f.title| >= MinTitle && |f.description| >= MinDescription &&
             f.deadline.Some? && f.assignedTo != []) ==> ok
  {
    Utf16Length(f.title) >= MinTitle && Utf16Length(f.description) >= MinDescription &&
    f.deadline.Some? && |f.assignedTo| >= 1
  }

  /** The schema counts code units, not characters: a title of two emoji is
      four units long and passes the three-unit minimum. */
  lemma TwoEmojiTitleAccepted()
    ensures ProjectFormValid(ProjectForm("\U{1F600}\U{1F600}", "Write a 2000-word essay", Some(7),
                                         [Selection("s1", "Ann")]))
  {
    Utf16LengthOfEmoji();
  }

  /** The values the dialog opens with (and returns to after a successful submit). */
  function InitialForm(): (f: ProjectForm)
    ensures !ProjectFormValid(f)
    ensures f.title == "" && f.description == ""
    ensures f.assignedTo == [] && f.deadline.None?
  {
    ProjectForm("", "", None, [])
  }

  /** `findIndex(s => s.id === uid)`: the first position holding `uid`, or -1. */
  function FindIndex(selected: seq<Selection>, uid: Id): (i: int)
    ensures -1 <= i < |selected|
    ensures i == -1 <==> forall k :: 0 <= k < |selected| ==> selected[k].id != uid
    ensures i >= 0 ==> selected[i].id == uid && forall k :: 0 <= k < i ==> selected[k].id != uid
  {
    if selected == [] then -1
    else if selected[0].id == uid then 0
    else
      var j := FindIndex(selected[1..], uid);
      if j == -1 then -1 else j + 1
  }

  /** The `onSelect` handler of one student's entry: on a copy of the selection,
      splice out the first entry with the student's id, or push a new entry. */
  function ToggleStudent(selected: seq<Selection>, student: User): (r: seq<Selection>)
    ensures FindIndex(selected, student.uid) == -1 ==>
      |r| == |selected| + 1 && FindIndex(r, student.uid) == |selected|
    ensures FindIndex(selected, student.uid) > -1 ==> |r| == |selected| - 1
    ensures forall e :: e in r ==> e in selected || e == Selection(student.uid, student.name)
  {
    var index := FindIndex(selected, student.uid);
    if index > -1 then selected[..index] + selected[index + 1..]
    else
      var r := selected + [Selection(student.uid, student.name)];
      assert forall k :: 0 <= k < |selected| ==> r[k] == selected[k];
      assert r[|selected|].id == student.uid;
      r
  }

  /** The ids of a selection, in order. */
  function Ids(selected: seq<Selection>): (ids: seq<Id>)
    ensures |ids| == |selected|
    ensures forall k :: 0 <= k < |selected| ==> ids[k] == selected[k].id
  {
    seq(|selected|, k requires 0 <= k < |selected| => selected[k].id)
  }

  /** Toggling a selected student removes exactly its first entry; toggling an
      unselected one appends `{ id, name }` at the end. */
  lemma ToggleEffect(selected: seq<Selection>, student: User)
    ensures (exists k :: 0 <= k < |selected| && selected[k].id == student.uid) ==>
      var i := FindIndex(selected, student.uid);
      |ToggleStudent(selected, student)| == |selected| - 1 &&
      selected[i].id == student.uid &&
      ToggleStudent(selected, student) == selected[..i] + selected[i + 1..]
    ensures (forall k :: 0 <= k < |selected| ==> selected[k].id != student.uid) ==>
      ToggleStudent(selected, student) == selected + [Selection(student.uid, student.name)]
  {
    var i := FindIndex(selected, student.uid);
    if i > -1 {
      assert ToggleStudent(selected, student) == selected[..i] + selected[i + 1..];
    } else {
      assert ToggleStudent(selected, student) == selected + [Selection(student.uid, student.name)];
    }
  }

  /** No student is selected twice. */
  predicate DistinctIds(selected: seq<Selection>) {
    Distinct(Ids(selected))
  }

  /** On a selection without repeated ids, toggling keeps the ids distinct. */
  lemma ToggleKeepsDistinct(selected: seq<Selection>, student: User)
    requires DistinctIds(selected)
    ensures DistinctIds(ToggleStudent(selected, student))
  {
    var i := FindIndex(selected, student.uid);
    if i > -1 {
      RemovalKeepsDistinct(selected, i);
    } else {
      AppendKeepsDistinct(selected, Selection(student.uid, student.name));
    }
  }

  lemma RemovalKeepsDistinct(selected: seq<Selection>, i: nat)
    requires DistinctIds(selected) && i < |selected|
    ensures DistinctIds(selected[..i] + selected[i + 1..])
  {
    var r := selected[..i] + selected[i + 1..];
    assert |r| == |selected| - 1;
    assert forall k :: 0 <= k < i ==> r[k] == selected[k];
    assert forall k :: i <= k < |r| ==> r[k] == selected[k + 1];
  }

  lemma AppendKeepsDistinct(selected: seq<Selection>, e: Selection)
    requires DistinctIds(selected)
    requires forall k :: 0 <= k < |selected| ==> selected[k].id != e.id
    ensures DistinctIds(selected + [e])
  {
    var r := selected + [e];
    assert forall k :: 0 <= k < |selected| ==> r[k] == selected[k];
    assert r[|selected|] == e;
  }

  /** Selecting a student that was not selected and then toggling it again
      restores the original selection exactly. */
  lemma ToggleTwiceRestores(selected: seq<Selection>, student: User)
    requires forall k :: 0 <= k < |selected| ==> selected[k].id != student.uid
    ensures ToggleStudent(ToggleStudent(selected, student), student) == selected
  {
    var n := |selected|;
    var once := ToggleStudent(selected, student);
    assert once == selected + [Selection(student.uid, student.name)];
    assert once[n].id == student.uid;
    assert FindIndex(once, student.uid) == n;
    assert once[..n] == selected;
  }

  /** Deselecting a selected student and selecting it again keeps the other
      entries in order but moves the student to the end: the selection comes back
      unchanged only when that entry was already last. */
  lemma ToggleTwiceMovesToEnd(selected: seq<Selection>, student: User)
    requires DistinctIds(selected)
    requires FindIndex(selected, student.uid) > -1
    ensures var i := FindIndex(selected, student.uid);
      ToggleStudent(ToggleStudent(selected, student), student) ==
        selected[..i] + selected[i + 1..] + [Selection(student.uid, student.name)]
  {
    var i := FindIndex(selected, student.uid);
    var once := ToggleStudent(selected, student);
    assert once == selected[..i] + selected[i + 1..];
    forall k | 0 <= k < |once| ensures once[k].id != student.uid {
      var k' := if k < i then k else k + 1;
      assert once[k] == selected[k'];
    }
    assert FindIndex(once, student.uid) == -1;
  }

  /** The payload `onSubmit` should hand to `createProject`: the form's fields,
      the assignees reduced to their ids (the action stores an array of student
      uids), and the creating lecturer. Only called on a form the schema accepted. */
  function ProjectInputOf(f: ProjectForm, lecturerId: Id): (input: Actions.ProjectInput)
    requires ProjectFormValid(f)
    ensures |input.assignedTo| == |f.assignedTo| >= 1
    ensures forall k :: 0 <= k < |f.assignedTo| ==> input.assignedTo[k] == f.assignedTo[k].id
    ensures input.title == f.title && input.description == f.description
    ensures input.deadline == f.deadline.value && input.createdBy == lecturerId
  {
    Actions.ProjectInput(f.title, f.description, f.deadline.value, Ids(f.assignedTo), lecturerId)
  }

  /** With the assignees stored as uids, the project card names every selected
      student that the card's student list knows, in the order of selection. */
  lemma SubmittedAssigneesResolve(f: ProjectForm, lecturerId: Id, students: seq<User>)
    requires ProjectFormValid(f)
    requires forall k :: 0 <= k < |f.assignedTo| ==>
      exists j :: 0 <= j < |students| && students[j].uid == f.assignedTo[k].id
    ensures var caption := ProjectCard.AssignedToNames(Some(ProjectInputOf(f, lecturerId).assignedTo), students);
      caption.Names? && |caption.names| == |f.assignedTo| &&
      forall k :: 0 <= k < |f.assignedTo| ==>
        ProjectCard.NameOf(students, f.assignedTo[k].id, caption.names[k])
  {
    var ids := ProjectInputOf(f, lecturerId).assignedTo;
    var caption := ProjectCard.AssignedToNames(Some(ids), students);
    forall k | 0 <= k < |f.assignedTo|
      ensures ProjectCard.NameOf(students, f.assignedTo[k].id, caption.names[k])
    {
      assert ids[k] == f.assignedTo[k].id;
      var j :| 0 <= j < |students| && students[j].uid == f.assignedTo[k].id;
      assert ProjectCard.Known(students, ids[k]);
    }
  }

  /** `onSubmit` after the schema check: create the project from the form. A
      form the schema rejects sends nothing. */
  method SubmitProjectForm(store: Actions.Store, f: ProjectForm, lecturerId: Id) returns (created: bool)
    modifies store
    ensures created <==> ProjectFormValid(f)
    ensures !created ==> store.projects == old(store.projects)
    ensures created ==> exists id :: (id !in old(store.projects) &&
      store.projects == old(store.projects)[id := Actions.NewProject(ProjectInputOf(f, lecturerId))])
    ensures created ==> exists id :: (id in store.projects && store.projects[id].status == Pending &&
      store.projects[id].assignedTo == Ids(f.assignedTo) && |store.projects[id].assignedTo| >= 1)
    ensures store.tasks == old(store.tasks)
  {
    if !ProjectFormValid(f) {
      return false;
    }
    var input := ProjectInputOf(f, lecturerId);
    ghost var projects0 := store.projects;
    var result := store.CreateProject(input);
    ghost var id :| id !in projects0 && store.projects == projects0[id := Actions.NewProject(input)];
    assert store.projects[id] == Actions.NewProject(input);
    created := true;
  }
}
