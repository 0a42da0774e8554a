/** The value shapes shared by the server actions and the dashboard components:
    users, projects, tasks and the status and role enumerations they carry. */
module Entities {

  datatype Option<+T> = None | Some(value: T) {
    function GetOr(default: T): T {
      match this
      case Some(v) => v
      case None => default
    }
  }

  /** JavaScript's `.length` of a string: UTF-16 code units, so a character
      beyond U+FFFF (an emoji, say) counts twice. Form schemas bound this. */
  function Utf16Length(s: string): (n: nat)
    ensures |s| <= n <= 2 * |s|
  {
    if s == [] then 0
    else (if s[0] as int >= 0x1_0000 then 2 else 1) + Utf16Length(s[1..])
  }

  /** On text within the Basic Multilingual Plane the two lengths agree. */
  lemma {:induction false} Utf16LengthBmp(s: string)
    requires forall k :: 0 <= k < |s| ==> (s[k] as int) < 0x1_0000
    ensures Utf16Length(s) == |s|
  {
    if s != [] {
      Utf16LengthBmp(s[1..]);
    }
  }

  /** Two emoji: two characters, four code units. */
  lemma Utf16LengthOfEmoji()
    ensures |"\U{1F600}\U{1F600}"| == 2 && Utf16Length("\U{1F600}\U{1F600}") == 4
  {
    var s := "\U{1F600}\U{1F600}";
    assert s[1..][1..] == [];
  }

  /** Opaque document and user identifiers. */
  type Id = string

  /** Projects and tasks draw their status from the same three values. */
  datatype Status = Pending | InProgress | Completed

  datatype Role = Lecturer | Student

  datatype User = User(uid: Id, name: string, email: string, role: Role)

  /** A project document as stored in the `projects` collection (timestamps dropped).
      The deadline is an opaque instant; `grade` and `feedback` are absent until graded. */
  datatype Project = Project(
    title: string,
    description: string,
    deadline: int,
    assignedTo: seq<Id>,
    createdBy: Id,
    status: Status,
    grade: Option<int>,
    feedback: Option<string>)

  /** A task document as stored in the `tasks` collection; its document id is the map key. */
  datatype Task = Task(
    projectId: Id,
    title: string,
    status: Status,
    parentId: Option<Id>,
    createdBy: Id)

  /** A task as the dashboard fetches it: the document id joined to its fields. */
  datatype FetchedTask = FetchedTask(id: Id, data: Task)
}
