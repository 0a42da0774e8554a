/** The elements of a project's stored `assignedTo` array, as dynamic values.
    The create-project dialog spreads its form values into the `createProject`
    payload, so the array it writes holds `{ id, name }` objects; the project
    card and the grading dialog compare its elements with student uid strings.
    This module models both readers on the values actually stored. */
module AssigneeShapes {
  import opened Entities
  import opened Seqs
  import CreateProjectDialog
  import ProjectCard
  import GradeProjectDialog

  /** One element of the stored array: a uid string or a selection object. */
  datatype StoredAssignee = UidEntry(uid: Id) | SelectionEntry(id: Id, name: string)

  /** What the dialog's `onSubmit` stores today: `...values` keeps the selection objects. */
  function StoredAsWritten(f: CreateProjectDialog.ProjectForm): (stored: seq<StoredAssignee>)
    ensures |stored| == |f.assignedTo|
    ensures forall k :: 0 <= k < |stored| ==> stored[k].SelectionEntry?
  {
    seq(|f.assignedTo|, k requires 0 <= k < |f.assignedTo| =>
      SelectionEntry(f.assignedTo[k].id, f.assignedTo[k].name))
  }

  /** What a payload of uids stores. */
  function StoredUids(ids: seq<Id>): (stored: seq<StoredAssignee>)
    ensures |stored| == |ids|
    ensures forall k :: 0 <= k < |ids| ==> stored[k] == UidEntry(ids[k])
  {
    seq(|ids|, k requires 0 <= k < |ids| => UidEntry(ids[k]))
  }

  /** The card's `students.find(s => s.uid === studentId)` on a stored element:
      strict equality never holds between a string and an object. */
  function CardName(students: seq<User>, e: StoredAssignee): (name: string)
    ensures e.SelectionEntry? ==> name == ProjectCard.UnknownStudent
  {
    match e
    case UidEntry(uid) => ProjectCard.StudentName(students, uid)
    case SelectionEntry(_, _) => ProjectCard.UnknownStudent
  }

  function CardNames(stored: seq<StoredAssignee>, students: seq<User>): (names: seq<string>)
    ensures |names| == |stored|
    ensures forall k :: 0 <= k < |stored| ==> names[k] == CardName(students, stored[k])
  {
    seq(|stored|, k requires 0 <= k < |stored| => CardName(students, stored[k]))
  }

  /** The grading dialog's `project.assignedTo.includes(s.uid)` on the stored array. */
  function HeadingNames(stored: seq<StoredAssignee>, students: seq<User>): (names: seq<string>)
    ensures (forall k :: 0 <= k < |stored| ==> stored[k].SelectionEntry?) ==> names == []
  {
    GradeProjectDialog.NamesOf(Filter(students, (s: User) => UidEntry(s.uid) in stored))
  }

  /** As written, every assignee of a project created through the dialog shows as
      "Unknown" on the card and the grading dialog names nobody, whatever the
      student list holds. */
  lemma AsWrittenNamesNobody(f: CreateProjectDialog.ProjectForm, students: seq<User>)
    requires CreateProjectDialog.ProjectFormValid(f)
    ensures |CardNames(StoredAsWritten(f), students)| >= 1
    ensures forall k :: 0 <= k < |f.assignedTo| ==>
      CardNames(StoredAsWritten(f), students)[k] == ProjectCard.UnknownStudent
    ensures HeadingNames(StoredAsWritten(f), students) == []
  {
  }

  /** A concrete case: the one assigned student is in the list, yet the card
      shows "Unknown" instead of the student's name and the heading is empty. */
  lemma AsWrittenCounterexample()
    ensures var ann := User("s1", "Ann", "ann@example.edu", Student);
      var f := CreateProjectDialog.ProjectForm("Essay", "Write a 2000-word essay", Some(7),
                                               [CreateProjectDialog.Selection("s1", "Ann")]);
      CreateProjectDialog.ProjectFormValid(f) &&
      ProjectCard.StudentName([ann], "s1") == "Ann" &&
      CardNames(StoredAsWritten(f), [ann]) == ["Unknown"] &&
      HeadingNames(StoredAsWritten(f), [ann]) == []
  {
    var ann := User("s1", "Ann", "ann@example.edu", Student);
    assert ProjectCard.FindStudent([ann], "s1") == Some(ann);
  }

  /** With the corrected payload (uids), the card's reading of the stored array
      is exactly the typed caption `ProjectCard.AssignedToNames`. */
  lemma CorrectedCardNames(f: CreateProjectDialog.ProjectForm, lecturerId: Id, students: seq<User>)
    requires CreateProjectDialog.ProjectFormValid(f)
    ensures var ids := CreateProjectDialog.ProjectInputOf(f, lecturerId).assignedTo;
      CardNames(StoredUids(ids), students) == ProjectCard.AssignedToNames(Some(ids), students).names
  {
  }

  /** With the corrected payload, the grading heading lists exactly the students
      whose uid was selected. */
  lemma CorrectedHeadingNames(f: CreateProjectDialog.ProjectForm, lecturerId: Id, p: Project, students: seq<User>)
    requires CreateProjectDialog.ProjectFormValid(f)
    requires p.assignedTo == CreateProjectDialog.ProjectInputOf(f, lecturerId).assignedTo
    ensures HeadingNames(StoredUids(p.assignedTo), students) ==
      GradeProjectDialog.AssignedStudentNames(p, students)
  {
    var stored := StoredUids(p.assignedTo);
    var inStored := (s: User) => UidEntry(s.uid) in stored;
    var inIds := (s: User) => s.uid in p.assignedTo;
    forall s | s in students ensures inStored(s) == inIds(s) {
      if s.uid in p.assignedTo {
        var k :| 0 <= k < |p.assignedTo| && p.assignedTo[k] == s.uid;
        assert stored[k] == UidEntry(s.uid);
      }
    }
    FilterCongruent(students, inStored, inIds);
  }
}
