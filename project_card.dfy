/** The decisions the project card makes from a project: deadline urgency,
    the grade badge, the assignee names and the lecturer's menu. */
module ProjectCard {
  import opened Entities

  /** Colour of the deadline line. */
  datatype Tone = Muted | DestructiveTone | PrimaryTone
  /** Colour of the card's border. */
  datatype Border = DefaultBorder | DestructiveBorder | PrimaryBorder
  /** The deadline caption: the formatted date, or a day count. */
  datatype DeadlineText = DueOn(deadline: int) | OverdueBy(days: nat) | DueIn(days: nat)
  datatype DeadlineIcon = ClockIcon | AlertIcon

  datatype DeadlineView = DeadlineView(color: Tone, text: DeadlineText, border: Border, icon: DeadlineIcon)

  /** Deadline urgency. `days` is the whole number of days from now to the
      deadline (negative once it has passed). A Completed project keeps the
      default styling; otherwise a past deadline is destructive and one at most
      three days away is primary. */
  method DeadlineStyle(status: Status, deadline: int, days: int) returns (v: DeadlineView)
    ensures status == Completed ==> v == DeadlineView(Muted, DueOn(deadline), DefaultBorder, ClockIcon)
    ensures status != Completed && days < 0 ==>
      v.color == DestructiveTone && v.border == DestructiveBorder && v.text == OverdueBy(-days)
    ensures status != Completed && 0 <= days <= 3 ==>
      v.color == PrimaryTone && v.border == PrimaryBorder && v.text == DueIn(days)
    ensures days > 3 ==> v == DeadlineView(Muted, DueOn(deadline), DefaultBorder, ClockIcon)
    ensures v.icon == AlertIcon <==> v.color == DestructiveTone
    ensures v.border == DestructiveBorder <==> v.color == DestructiveTone
    ensures v.border == PrimaryBorder <==> v.color == PrimaryTone
  {
    var color := Muted;
    var text := DueOn(deadline);
    var border := DefaultBorder;
    if status != Completed {
      if days < 0 {
        color := DestructiveTone;
        text := OverdueBy(-days);
        border := DestructiveBorder;
      } else if days <= 3 {
        color := PrimaryTone;
        text := DueIn(days);
        border := PrimaryBorder;
      }
    }
    var icon := if days < 0 && status != Completed then AlertIcon else ClockIcon;
    v := DeadlineView(color, text, border, icon);
  }

  datatype BadgeVariant = DestructiveBadge | SecondaryBadge

  /** The grade badge: shown whenever a grade is recorded, a grade of 0
      included; destructive below 50. */
  function GradeBadge(grade: Option<int>): (b: Option<BadgeVariant>)
    ensures b.Some? <==> grade.Some?
    ensures b == Some(DestructiveBadge) <==> grade.Some? && grade.value < 50
    ensures b == Some(SecondaryBadge) <==> grade.Some? && grade.value >= 50
  {
    match grade
    case None => None
    case Some(g) => Some(if g < 50 then DestructiveBadge else SecondaryBadge)
  }

  /** `students.find(s => s.uid === uid)`: the first student with that uid. */
  function FindStudent(students: seq<User>, uid: Id): (r: Option<User>)
    ensures r.None? <==> forall k :: 0 <= k < |students| ==> students[k].uid != uid
    ensures r.Some? ==> r.value in students && r.value.uid == uid
    ensures r.Some? ==> exists i :: (0 <= i < |students| && students[i] == r.value &&
      forall k :: 0 <= k < i ==> students[k].uid != uid)
  {
    if students == [] then None
    else if students[0].uid == uid then Some(students[0])
    else
      var r := FindStudent(students[1..], uid);
      r
  }

  const UnknownStudent := "Unknown"

  /** Some student in the list has this uid. */
  predicate Known(students: seq<User>, uid: Id) {
    exists k :: 0 <= k < |students| && students[k].uid == uid
  }

  /** `name` belongs to a student with this uid. */
  predicate NameOf(students: seq<User>, uid: Id, name: string) {
    exists k :: 0 <= k < |students| && students[k].uid == uid && students[k].name == name
  }

  /** One student's display name, or "Unknown" when no student has that uid. */
  function StudentName(students: seq<User>, uid: Id): (name: string)
    ensures !Known(students, uid) ==> name == UnknownStudent
    ensures Known(students, uid) ==> NameOf(students, uid, name)
  {
    match FindStudent(students, uid)
    case Some(s) => s.name
    case None => UnknownStudent
  }

  /** The assignee caption before joining: one name per assigned id, or the
      fixed caption when the stored field is not an array. */
  datatype AssigneeCaption = Names(names: seq<string>) | NoStudentsAssigned

  /** `assignedToNames`; `assignedTo` is None when the stored field is not an array. */
  function AssignedToNames(assignedTo: Option<seq<Id>>, students: seq<User>): (c: AssigneeCaption)
    ensures assignedTo.None? <==> c == NoStudentsAssigned
    ensures assignedTo.Some? ==> |c.names| == |assignedTo.value|
    ensures assignedTo.Some? ==> forall k :: 0 <= k < |assignedTo.value| ==>
      (!Known(students, assignedTo.value[k]) ==> c.names[k] == UnknownStudent) &&
      (Known(students, assignedTo.value[k]) ==> NameOf(students, assignedTo.value[k], c.names[k]))
  {
    match assignedTo
    case None => NoStudentsAssigned
    case Some(ids) => Names(seq(|ids|, k requires 0 <= k < |ids| => StudentName(students, ids[k])))
  }

  datatype MenuItem = ViewProgress | GradeProject | DeleteProject

  /** The card's dropdown menu: lecturers only; the grading entry only once the
      project is Completed. */
  function MenuEntries(role: Role, status: Status): (items: seq<MenuItem>)
    ensures role == Student ==> items == []
    ensures GradeProject in items <==> role == Lecturer && status == Completed
    ensures DeleteProject in items <==> role == Lecturer
    ensures ViewProgress in items <==> role == Lecturer
  {
    if role == Lecturer then
      [ViewProgress] + (if status == Completed then [GradeProject] else []) + [DeleteProject]
    else []
  }
}
