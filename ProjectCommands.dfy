/** The commands of the Project aggregate. Each one reads the current state
    (a `Project` value: commands never change it) and either yields exactly
    one event or fails. Commands that cannot fail return the event itself.

    Several commands of the source also take a `projectId` that they either
    copy into the event or drop; events that declare no such field lose it.
    Ids that the source draws from `UUID.randomUUID()` are parameters named
    `new…Id`. */
module ProjectCommands {
  import opened Common
  import opened ProjectAggregate

  /** `createProject`: the creator's person id is accepted and ignored. */
  function CreateProject(p: Project, title: string, personId: Uuid, newProjectId: Uuid): (e: ProjectEvent)
    ensures e.ProjectCreated? && e.projectId == newProjectId && e.title == title
  {
    ProjectCreated(newProjectId, title)
  }

  /** `createTask`: neither the status nor the assignees are checked. */
  function CreateTask(p: Project, projectId: Uuid, title: string, statusId: Uuid, assignees: seq<Uuid>,
                      newTaskId: Uuid): (e: ProjectEvent)
    ensures e.TaskCreated? && e.taskId == newTaskId && e.projectId == projectId
    ensures e.title == title && e.statusId == statusId && e.assignees == assignees
  {
    TaskCreated(newTaskId, projectId, title, statusId, assignees)
  }

  /** `assignPersonToTask`: the person must be a member, the task must exist,
      and the person must not already be among the task's assignees; the
      checks run in that order. */
  function AssignPersonToTask(p: Project, taskId: Uuid, personId: Uuid, projectId: Uuid): (r: Result<ProjectEvent>)
    ensures r.Ok? <==> personId in MemberIds(p.members) && FindTask(p.tasks, taskId).Some?
                       && personId !in FindTask(p.tasks, taskId).value.assignees
    ensures personId !in MemberIds(p.members) ==> r == Err(MemberNotFound)
    ensures personId in MemberIds(p.members) && FindTask(p.tasks, taskId).None? ==> r == Err(NoSuchTask)
    ensures (personId in MemberIds(p.members) && FindTask(p.tasks, taskId).Some?
             && personId in FindTask(p.tasks, taskId).value.assignees) ==> r == Err(AlreadyAssigned)
    ensures r.Ok? ==> r.value == MemberAssigned(personId, taskId)
  {
    if personId !in MemberIds(p.members) then Err(MemberNotFound)
    else
      match FindTask(p.tasks, taskId)
      case None => Err(NoSuchTask)
      case Some(task) =>
        if personId in task.assignees then Err(AlreadyAssigned)
        else Ok(MemberAssigned(personId, taskId))
  }

  /** `updateTaskName`: the task's existence is not checked here. */
  function UpdateTaskName(p: Project, taskId: Uuid, title: string, projectId: Uuid): (e: ProjectEvent)
    ensures e.TaskRenamed? && e.taskId == taskId && e.title == title
  {
    TaskRenamed(taskId, title)
  }

  /** `updateTaskStatus`: the target status must be one of the project's. */
  function UpdateTaskStatus(p: Project, taskId: Uuid, projectId: Uuid, statusId: Uuid): (r: Result<ProjectEvent>)
    ensures r.Ok? <==> statusId in StatusIds(p.statuses)
    ensures r.Err? ==> r.error == StatusNotFound
    ensures r.Ok? ==> r.value == TaskStatusUpdated(taskId, statusId)
  {
    if statusId in StatusIds(p.statuses) then Ok(TaskStatusUpdated(taskId, statusId))
    else Err(StatusNotFound)
  }

  /** `createStatus`: stamps the state's own project id, so it throws while
      that `lateinit` field is unset. Name and color default to
      `DefaultStatusName` and `DefaultStatusColor`. */
  function CreateStatus(p: Project, newStatusId: Uuid, name: string := DefaultStatusName,
                        color: string := DefaultStatusColor): (r: Result<ProjectEvent>)
    ensures r.Ok? <==> p.header.Active?
    ensures r.Err? ==> r.error == UninitializedProperty
    ensures r.Ok? ==> r.value == StatusCreated(newStatusId, p.header.projectId, color, name)
  {
    match p.header
    case Uninitialized => Err(UninitializedProperty)
    case Active(projectId, _) => Ok(StatusCreated(newStatusId, projectId, color, name))
  }

  /** `updateStatusOrder`: the list is passed through unchecked. */
  function UpdateStatusOrder(p: Project, orderedStatuses: seq<Uuid>, projectId: Uuid): (e: ProjectEvent)
    ensures e.StatusesUpdated? && e.statuses == orderedStatuses
  {
    StatusesUpdated(orderedStatuses)
  }

  /** `deleteStatus`: refused while any task has that status. Whether the
      status exists is not checked. */
  function DeleteStatus(p: Project, statusId: Uuid, projectId: Uuid): (r: Result<ProjectEvent>)
    ensures r.Ok? <==> forall t :: t in p.tasks ==> t.statusId != statusId
    ensures r.Err? ==> r.error == StatusInUse
    ensures r.Ok? ==> r.value == StatusDeleted(statusId)
  {
    if exists t :: t in p.tasks && t.statusId == statusId then Err(StatusInUse)
    else Ok(StatusDeleted(statusId))
  }

  /** `addPerson`: first refuses a person who is already a member (a null id
      matches no member), then requires every profile field to be present,
      checking them in declaration order. */
  function AddPerson(p: Project, projectId: Uuid, personId: Option<Uuid>, username: Option<string>,
                     firstName: Option<string>, middleName: Option<string>, lastName: Option<string>)
    : (r: Result<ProjectEvent>)
    ensures personId.Some? && personId.value in MemberIds(p.members) ==> r == Err(AlreadyMember)
    ensures r.Ok? <==> personId.Some? && personId.value !in MemberIds(p.members)
                       && username.Some? && firstName.Some? && middleName.Some? && lastName.Some?
    ensures personId.None? ==> r == Err(PersonNotFound)
    ensures personId.Some? && personId.value !in MemberIds(p.members) ==>
              (username.None? ==> r == Err(UsernameRequired))
              && (username.Some? && firstName.None? ==> r == Err(FirstNameRequired))
              && (username.Some? && firstName.Some? && middleName.None? ==> r == Err(MiddleNameRequired))
              && (username.Some? && firstName.Some? && middleName.Some? && lastName.None? ==>
                    r == Err(LastNameRequired))
    ensures r.Ok? ==> r.value == MemberCreated(username.value, firstName.value, middleName.value, lastName.value,
                                               projectId, personId.value)
  {
    if personId.Some? && personId.value in MemberIds(p.members) then Err(AlreadyMember)
    else if personId.None? then Err(PersonNotFound)
    else if username.None? then Err(UsernameRequired)
    else if firstName.None? then Err(FirstNameRequired)
    else if middleName.None? then Err(MiddleNameRequired)
    else if lastName.None? then Err(LastNameRequired)
    else Ok(MemberCreated(username.value, firstName.value, middleName.value, lastName.value,
                          projectId, personId.value))
  }

  // ---------------------------------------------------------------------
  // Commands composed with the fold

  /** Folding `createProject`'s event names the project and touches nothing else. */
  lemma CreateProjectRoundTrip(p: Project, title: string, personId: Uuid, newProjectId: Uuid)
    ensures Evolve(p, CreateProject(p, title, personId, newProjectId))
         == Ok(p.(header := Active(newProjectId, title)))
  {
  }

  /** A second identical assignment is refused: after folding the first
      assignment's event, the member is already among the task's assignees,
      so this command never puts a duplicate into `assignees`. */
  lemma AssignTwiceRejected(p: Project, taskId: Uuid, personId: Uuid, projectId: Uuid)
    requires AssignPersonToTask(p, taskId, personId, projectId).Ok?
    ensures Evolve(p, AssignPersonToTask(p, taskId, personId, projectId).value).Ok?
    ensures AssignPersonToTask(Evolve(p, AssignPersonToTask(p, taskId, personId, projectId).value).value,
                               taskId, personId, projectId) == Err(AlreadyAssigned)
  {
    FindAfterUpdate(p.tasks, taskId, NewAssignee(personId));
    assert TaskIds(UpdateTask(p.tasks, taskId, NewAssignee(personId)).value) == TaskIds(p.tasks);
  }

  /** Folding an accepted assignment adds the member to the task exactly once. */
  lemma AssignAddsOnce(p: Project, taskId: Uuid, personId: Uuid, projectId: Uuid)
    requires AssignPersonToTask(p, taskId, personId, projectId).Ok?
    ensures Evolve(p, AssignPersonToTask(p, taskId, personId, projectId).value).Ok?
    ensures var q := Evolve(p, AssignPersonToTask(p, taskId, personId, projectId).value).value;
            FindTask(q.tasks, taskId).Some?
            && FindTask(q.tasks, taskId).value.assignees == FindTask(p.tasks, taskId).value.assignees + [personId]
  {
    FindAfterUpdate(p.tasks, taskId, NewAssignee(personId));
  }

  /** An accepted status change, folded, gives the task that status. */
  lemma UpdateTaskStatusRoundTrip(p: Project, taskId: Uuid, projectId: Uuid, statusId: Uuid)
    requires UpdateTaskStatus(p, taskId, projectId, statusId).Ok?
    requires taskId in TaskIds(p.tasks)
    ensures Evolve(p, UpdateTaskStatus(p, taskId, projectId, statusId).value).Ok?
    ensures var q := Evolve(p, UpdateTaskStatus(p, taskId, projectId, statusId).value).value;
            FindTask(q.tasks, taskId).Some? && FindTask(q.tasks, taskId).value.statusId == statusId
  {
    FindAfterUpdate(p.tasks, taskId, NewStatus(statusId));
  }

  /** Deletion guard: with task ids unique, once the only task holding
      status `s` has been moved to another status, `s` can be deleted. */
  lemma DeleteAfterReassign(p: Project, taskId: Uuid, s: Uuid, other: Uuid, projectId: Uuid)
    requires forall i, j :: 0 <= i < j < |p.tasks| ==> p.tasks[i].id != p.tasks[j].id
    requires taskId in TaskIds(p.tasks)
    requires forall t :: t in p.tasks && t.statusId == s ==> t.id == taskId
    requires other != s
    ensures DeleteStatus(Evolve(p, TaskStatusUpdated(taskId, other)).value, s, projectId) == Ok(StatusDeleted(s))
  {
    var ts := UpdateTask(p.tasks, taskId, NewStatus(other)).value;
    forall i | 0 <= i < |p.tasks| && p.tasks[i].id == taskId ensures taskId !in TaskIds(p.tasks[..i]) {
      forall j | 0 <= j < i ensures TaskIds(p.tasks[..i])[j] != taskId {
        assert TaskIds(p.tasks[..i])[j] == p.tasks[j].id;
      }
    }
    forall t | t in ts ensures t.statusId != s {
      var i :| 0 <= i < |ts| && ts[i] == t;
      if p.tasks[i].id == taskId {
        assert t.statusId == other;
      } else {
        assert t == p.tasks[i];
      }
    }
  }

  /** Creating a task whose status is unknown is accepted, and folding it
      stores the dangling status reference. */
  lemma CreateTaskUnchecked(p: Project, projectId: Uuid, title: string, statusId: Uuid, newTaskId: Uuid)
    requires statusId !in StatusIds(p.statuses)
    ensures var q := Evolve(p, CreateTask(p, projectId, title, statusId, [], newTaskId)).value;
            TaskDto(newTaskId, projectId, title, statusId, []) in q.tasks && statusId !in StatusIds(q.statuses)
  {
  }
}
