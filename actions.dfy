/** The server actions of src/lib/actions.ts over an abstract document store:
    two collections, `projects` and `tasks`, each a map from document id to
    document. A write batch that the source commits is one assignment here. */
module Actions {
  import opened Entities

  /** The fields a lecturer submits to create a project. */
  datatype ProjectInput = ProjectInput(
    title: string,
    description: string,
    deadline: int,
    assignedTo: seq<Id>,
    createdBy: Id)

  /** The fields of a new task: everything but its id and timestamps. */
  datatype TaskInput = TaskInput(
    projectId: Id,
    title: string,
    status: Status,
    parentId: Option<Id>,
    createdBy: Id)

  /** `{ success: true }` or `{ success: false, error }`. */
  datatype ActionResult = Success | Failure(error: string)

  /** `{ success: true, updatedProjectStatus }` or `{ success: false, error }`. */
  datatype CreateTaskResult = TaskCreated(updatedProjectStatus: bool) | TaskFailed(error: string)

  const ProjectNotFound := "Project not found."
  /** Stands in for the store's not-found error on an update of a missing
      document (the store's own message also names the document path). */
  const NoDocumentToUpdate := "No document to update."

  /** The document `createProject` writes: the input fields, status Pending, no grade yet. */
  function NewProject(input: ProjectInput): (p: Project)
    ensures p.status == Pending && p.grade.None? && p.feedback.None?
    ensures p.title == input.title && p.description == input.description &&
      p.deadline == input.deadline && p.assignedTo == input.assignedTo && p.createdBy == input.createdBy
  {
    Project(input.title, input.description, input.deadline, input.assignedTo,
            input.createdBy, Pending, None, None)
  }

  /** The document `createTask` writes: exactly the input fields. */
  function NewTask(input: TaskInput): (t: Task)
    ensures t.projectId == input.projectId && t.title == input.title && t.status == input.status &&
      t.parentId == input.parentId && t.createdBy == input.createdBy
  {
    Task(input.projectId, input.title, input.status, input.parentId, input.createdBy)
  }

  /** Referential integrity: every task belongs to a project that exists. */
  ghost predicate NoOrphans(projects: map<Id, Project>, tasks: map<Id, Task>) {
    forall t :: t in tasks ==> tasks[t].projectId in projects
  }

  /** The tasks that survive the cascade of `deleteProject(pid)`. */
  function TasksOutside(tasks: map<Id, Task>, pid: Id): (r: map<Id, Task>)
    ensures forall t :: t in r ==> t in tasks && r[t] == tasks[t] && r[t].projectId != pid
    ensures forall t :: t in tasks && tasks[t].projectId != pid ==> t in r
  {
    map t | t in tasks && tasks[t].projectId != pid :: tasks[t]
  }

  /** The project map after `createTask` on project `pid`: a Pending project is
      promoted to In Progress, any other project is left as it was. */
  function PromoteOnTask(projects: map<Id, Project>, pid: Id): (r: map<Id, Project>)
    requires pid in projects
    ensures r.Keys == projects.Keys
    ensures forall q :: q in projects && q != pid ==> r[q] == projects[q]
    ensures r[pid].status != Pending
    ensures projects[pid].status == Pending ==> r[pid].status == InProgress
    ensures r[pid] == projects[pid] <==> projects[pid].status != Pending
    ensures r[pid] == projects[pid].(status := r[pid].status)
  {
    if projects[pid].status == Pending
    then projects[pid := projects[pid].(status := InProgress)]
    else projects
  }

  /** What `createTask` reports, given the project map it reads. */
  function CreateTaskOutcome(projects: map<Id, Project>, input: TaskInput): (r: CreateTaskResult)
    ensures r.TaskFailed? <==> input.projectId !in projects
    ensures r.TaskFailed? ==> r.error == ProjectNotFound
    ensures r.TaskCreated? ==> (r.updatedProjectStatus <==> projects[input.projectId].status == Pending)
  {
    if input.projectId !in projects then TaskFailed(ProjectNotFound)
    else TaskCreated(projects[input.projectId].status == Pending)
  }

  /** Promotion happens at most once: on the promoted map a second `createTask`
      changes no project and reports no status change. */
  lemma PromotesAtMostOnce(projects: map<Id, Project>, input: TaskInput)
    requires input.projectId in projects
    ensures var promoted := PromoteOnTask(projects, input.projectId);
      PromoteOnTask(promoted, input.projectId) == promoted &&
      CreateTaskOutcome(promoted, input) == TaskCreated(false)
  {
  }

  /** Only finitely many ids are in use, so the store can always hand out a new one. */
  lemma {:induction false} LengthBound(used: set<Id>) returns (n: nat)
    ensures forall s :: s in used ==> |s| < n
    decreases used
  {
    if used == {} {
      n := 0;
    } else {
      var x :| x in used;
      var m := LengthBound(used - {x});
      n := if |x| < m then m else |x| + 1;
    }
  }

  lemma UnusedIdExists(used: set<Id>) returns (id: Id)
    ensures id !in used
  {
    var n := LengthBound(used);
    id := seq(n, _ => 'x');
  }

  class Store {
    var projects: map<Id, Project>
    var tasks: map<Id, Task>

    constructor ()
      ensures projects == map[] && tasks == map[]
    {
      projects := map[];
      tasks := map[];
    }

    /** `createProject`: adds one project under a new id, status Pending. */
    method CreateProject(input: ProjectInput) returns (r: ActionResult)
      modifies this
      ensures r == Success
      ensures exists id :: id !in old(projects) && projects == old(projects)[id := NewProject(input)]
      ensures tasks == old(tasks)
      ensures old(NoOrphans(projects, tasks)) ==> NoOrphans(projects, tasks)
    {
      ghost var unused := UnusedIdExists(projects.Keys);
      var id :| id !in projects;
      projects := projects[id := NewProject(input)];
      r := Success;
    }

    /** `deleteProject`: gathers every task of the project into one batch, adds
        the project itself, and commits. There is no existence check: a missing
        project still has its (orphaned) tasks removed. `userId` is not consulted. */
    method DeleteProject(pid: Id, userId: Id) returns (r: ActionResult)
      modifies this
      ensures r == Success
      ensures projects == old(projects) - {pid}
      ensures tasks == TasksOutside(old(tasks), pid)
      ensures old(NoOrphans(projects, tasks)) ==> NoOrphans(projects, tasks)
    {
      var batch: set<Id> := {};
      var unvisited := tasks.Keys;
      while unvisited != {}
        invariant unvisited <= tasks.Keys
        invariant forall t :: t in batch <==> t in tasks && t !in unvisited && tasks[t].projectId == pid
        decreases unvisited
      {
        var t :| t in unvisited;
        if tasks[t].projectId == pid {
          batch := batch + {t};
        }
        unvisited := unvisited - {t};
      }
      // batch.commit(): the task deletions and the project deletion at once
      tasks := map t | t in tasks && t !in batch :: tasks[t];
      projects := projects - {pid};
      r := Success;
    }

    /** `updateProjectStatus`: overwrites the status, whatever it was; fails only
        when the project does not exist. `userId` is not consulted. */
    method UpdateProjectStatus(pid: Id, status: Status, userId: Id) returns (r: ActionResult)
      modifies this
      ensures r == Success <==> pid in old(projects)
      ensures r.Failure? ==> r.error == NoDocumentToUpdate && projects == old(projects)
      ensures r == Success ==> projects == old(projects)[pid := old(projects)[pid].(status := status)]
      ensures tasks == old(tasks)
      ensures old(NoOrphans(projects, tasks)) ==> NoOrphans(projects, tasks)
    {
      if pid !in projects {
        return Failure(NoDocumentToUpdate);
      }
      projects := projects[pid := projects[pid].(status := status)];
      r := Success;
    }

    /** `createTask`: fails when the project is missing; otherwise adds the task
        and, in the same batch, promotes a Pending project to In Progress. */
    method CreateTask(input: TaskInput) returns (r: CreateTaskResult)
      modifies this
      ensures r == CreateTaskOutcome(old(projects), input)
      ensures r.TaskFailed? ==> projects == old(projects) && tasks == old(tasks)
      ensures r.TaskCreated? ==> projects == PromoteOnTask(old(projects), input.projectId)
      ensures r.TaskCreated? ==>
        exists id :: id !in old(tasks) && tasks == old(tasks)[id := NewTask(input)]
      ensures old(NoOrphans(projects, tasks)) ==> NoOrphans(projects, tasks)
    {
      if input.projectId !in projects {
        return TaskFailed(ProjectNotFound);
      }
      var project := projects[input.projectId];
      ghost var unused := UnusedIdExists(tasks.Keys);
      var id :| id !in tasks;
      var newTasks := tasks[id := NewTask(input)];
      var newProjects := projects;
      if project.status == Pending {
        newProjects := projects[input.projectId := project.(status := InProgress)];
      }
      // batch.commit()
      tasks, projects := newTasks, newProjects;
      r := TaskCreated(project.status == Pending);
    }

    /** `updateTaskStatus`: overwrites one task's status, with no transition
        check and no effect on its project or on other tasks. */
    method UpdateTaskStatus(tid: Id, status: Status, userId: Id) returns (r: ActionResult)
      modifies this
      ensures r == Success <==> tid in old(tasks)
      ensures r.Failure? ==> r.error == NoDocumentToUpdate && tasks == old(tasks)
      ensures r == Success ==> tasks == old(tasks)[tid := old(tasks)[tid].(status := status)]
      ensures projects == old(projects)
      ensures old(NoOrphans(projects, tasks)) ==> NoOrphans(projects, tasks)
    {
      if tid !in tasks {
        return Failure(NoDocumentToUpdate);
      }
      tasks := tasks[tid := tasks[tid].(status := status)];
      r := Success;
    }
  }
}
