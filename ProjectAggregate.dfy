/** The Project aggregate: its events, the records it holds, the state
    transition functions that fold events into state, and the facts about
    that fold the commands and the controller rely on.

    The fold exists twice, as it should: `Evolve` is the pure reference
    definition over `Project` values, and `ProjectAggregateState` is the
    mutable state object whose `*Apply` methods update its fields in place
    and are proved to agree with `Evolve`. */
module ProjectAggregate {
  import opened Common

  const DefaultStatusName: string := "CREATED"
  const DefaultStatusColor: string := "#000000"

  datatype TaskDto = TaskDto(id: Uuid, projectId: Uuid, title: string, statusId: Uuid, assignees: seq<Uuid>)
  datatype StatusDto = StatusDto(id: Uuid, projectId: Uuid, name: string, color: string)
  datatype MemberDto = MemberDto(id: Uuid, username: string, firstName: string, middleName: string, lastName: string)

  /** The nine events of the aggregate. `MemberAssigned` is also what
      `assignPersonToTask` emits and `MemberCreated` what `addPerson` emits
      (the person's id becomes the member id). */
  datatype ProjectEvent =
    | ProjectCreated(projectId: Uuid, title: string)
    | StatusesUpdated(statuses: seq<Uuid>)
    | StatusCreated(statusId: Uuid, projectId: Uuid, color: string, statusName: string)
    | StatusDeleted(statusId: Uuid)
    | TaskCreated(taskId: Uuid, projectId: Uuid, title: string, statusId: Uuid, assignees: seq<Uuid>)
    | TaskStatusUpdated(taskId: Uuid, statusId: Uuid)
    | TaskRenamed(taskId: Uuid, title: string)
    | MemberAssigned(memberId: Uuid, taskId: Uuid)
    | MemberCreated(username: string, firstName: string, middleName: string, lastName: string,
                    projectId: Uuid, memberId: Uuid)

  /** The two `lateinit` fields: unset until `ProjectCreated` has been applied. */
  datatype Header = Uninitialized | Active(projectId: Uuid, title: string)

  /** The whole aggregate state as a value. `tasks` is a hash set in the
      source; it is kept here in insertion order, which is the order its
      `.first { }` searches. */
  datatype Project = Project(header: Header, members: seq<MemberDto>, tasks: seq<TaskDto>, statuses: seq<StatusDto>)

  /** The state of an aggregate before any event. */
  const Empty: Project := Project(Uninitialized, [], [], [])

  function StatusIds(ss: seq<StatusDto>): seq<Uuid> {
    seq(|ss|, i requires 0 <= i < |ss| => ss[i].id)
  }

  function TaskIds(ts: seq<TaskDto>): seq<Uuid> {
    seq(|ts|, i requires 0 <= i < |ts| => ts[i].id)
  }

  function MemberIds(ms: seq<MemberDto>): seq<Uuid> {
    seq(|ms|, i requires 0 <= i < |ms| => ms[i].id)
  }

  /** Two statuses with the same id are the same status. Every reachable
      state has this property as long as status ids are fresh; `Reorder`
      only behaves as a permutation under it. */
  ghost predicate SameIdSameStatus(ss: seq<StatusDto>) {
    forall i, j :: 0 <= i < |ss| && 0 <= j < |ss| && ss[i].id == ss[j].id ==> ss[i] == ss[j]
  }

  // ---------------------------------------------------------------------
  // Statuses

  /** `order.map { id -> statuses.first { it.id == id } }`: fails on the first
      id no status carries; otherwise entry `i` of the result is the first
      status whose id is `order[i]`. */
  function Reorder(ss: seq<StatusDto>, order: seq<Uuid>): (r: Option<seq<StatusDto>>)
    ensures r.Some? <==> forall i :: 0 <= i < |order| ==> order[i] in StatusIds(ss)
    ensures r.Some? ==> StatusIds(r.value) == order
    ensures r.Some? ==> forall i :: 0 <= i < |order| ==> r.value[i] == ss[FirstIndex(StatusIds(ss), order[i]).value]
    ensures r.Some? ==> forall x :: x in r.value ==> x in ss
  {
    if order == [] then Some([])
    else
      match FirstIndex(StatusIds(ss), order[0])
      case None => None
      case Some(k) =>
        match Reorder(ss, order[1..])
        case None =>
          assert exists i :: 0 <= i < |order[1..]| && order[1..][i] !in StatusIds(ss);
          None
        case Some(rest) => Some([ss[k]] + rest)
  }

  /** `statuses.removeIf { it.id == id }`: exactly the statuses with another id survive. */
  function RemoveStatus(ss: seq<StatusDto>, id: Uuid): (r: seq<StatusDto>)
    ensures forall x :: x in r <==> x in ss && x.id != id
    ensures id !in StatusIds(r)
    ensures |r| <= |ss|
  {
    if ss == [] then []
    else (if ss[0].id == id then [] else [ss[0]]) + RemoveStatus(ss[1..], id)
  }

  /** Removal works piecewise, so the survivors keep their relative order. */
  lemma {:induction false} RemoveStatusAppend(a: seq<StatusDto>, b: seq<StatusDto>, id: Uuid)
    ensures RemoveStatus(a + b, id) == RemoveStatus(a, id) + RemoveStatus(b, id)
  {
    if a != [] {
      var head := if a[0].id == id then [] else [a[0]];
      assert (a + b)[0] == a[0];
      assert (a + b)[1..] == a[1..] + b;
      RemoveStatusAppend(a[1..], b, id);
      assert RemoveStatus(a + b, id) == head + RemoveStatus(a[1..] + b, id);
      assert RemoveStatus(a, id) == head + RemoveStatus(a[1..], id);
    } else {
      assert a + b == b;
    }
  }

  /** Removing an id that no status carries changes nothing. */
  lemma {:induction false} RemoveStatusAbsent(ss: seq<StatusDto>, id: Uuid)
    requires id !in StatusIds(ss)
    ensures RemoveStatus(ss, id) == ss
  {
    if ss != [] {
      assert StatusIds(ss) == [ss[0].id] + StatusIds(ss[1..]);
      RemoveStatusAbsent(ss[1..], id);
    }
  }

  /** The order the controller computes as `statuses.map { it.id }.filter { it != id }`
      is exactly the ids of the statuses `removeIf` keeps. */
  lemma {:induction false} IdsWithoutStatusIds(ss: seq<StatusDto>, id: Uuid)
    ensures IdsWithout(StatusIds(ss), id) == StatusIds(RemoveStatus(ss, id))
  {
    if ss != [] {
      assert StatusIds(ss)[1..] == StatusIds(ss[1..]);
      IdsWithoutStatusIds(ss[1..], id);
      assert StatusIds((if ss[0].id == id then [] else [ss[0]]) + RemoveStatus(ss[1..], id))
          == (if ss[0].id == id then [] else [ss[0].id]) + StatusIds(RemoveStatus(ss[1..], id));
    }
  }

  /** Under `SameIdSameStatus`, the first status with a given id is every
      status with that id. */
  lemma FirstStatusIsTheStatus(ss: seq<StatusDto>, x: StatusDto)
    requires SameIdSameStatus(ss) && x in ss
    ensures x.id in StatusIds(ss) && ss[FirstIndex(StatusIds(ss), x.id).value] == x
  {
    var j :| 0 <= j < |ss| && ss[j] == x;
    assert StatusIds(ss)[j] == x.id;
  }

  /** Ordering the statuses by the ids of any list `xs` drawn from them
      gives back `xs` itself. */
  lemma {:induction false} ReorderByOwnIds(ss: seq<StatusDto>, xs: seq<StatusDto>)
    requires SameIdSameStatus(ss)
    requires forall x :: x in xs ==> x in ss
    ensures Reorder(ss, StatusIds(xs)) == Some(xs)
  {
    var r := Reorder(ss, StatusIds(xs));
    forall i | 0 <= i < |xs| ensures StatusIds(xs)[i] in StatusIds(ss) {
      FirstStatusIsTheStatus(ss, xs[i]);
    }
    assert r.Some?;
    assert |r.value| == |xs|;
    forall i | 0 <= i < |xs| ensures r.value[i] == xs[i] {
      FirstStatusIsTheStatus(ss, xs[i]);
    }
    assert r.value == xs;
  }

  /** A new order that names exactly the current ids keeps the same set of
      statuses: nothing is lost and nothing is invented. */
  lemma ReorderPermutation(ss: seq<StatusDto>, order: seq<Uuid>)
    requires SameIdSameStatus(ss)
    requires forall id :: id in order <==> id in StatusIds(ss)
    ensures Reorder(ss, order).Some?
    ensures |Reorder(ss, order).value| == |order|
    ensures forall x :: x in Reorder(ss, order).value <==> x in ss
  {
    assert forall i :: 0 <= i < |order| ==> order[i] in StatusIds(ss);
    var r := Reorder(ss, order).value;
    forall x | x in ss ensures x in r {
      FirstStatusIsTheStatus(ss, x);
      var i :| 0 <= i < |order| && order[i] == x.id;
      assert r[i] == x;
    }
  }

  // ---------------------------------------------------------------------
  // Tasks

  /** `tasks.add(t)` on a set of data classes: an equal task is not added twice. */
  function AddTask(ts: seq<TaskDto>, t: TaskDto): (r: seq<TaskDto>)
    ensures forall x :: x in r <==> x in ts || x == t
    ensures |ts| <= |r| <= |ts| + 1 && r[..|ts|] == ts
    ensures t in ts ==> r == ts
  {
    if t in ts then ts else ts + [t]
  }

  /** The three in-place edits a fold makes to a task. */
  datatype TaskChange = NewStatus(statusId: Uuid) | NewTitle(title: string) | NewAssignee(memberId: Uuid)

  /** The task after one edit; adding an assignee appends without checking
      for a duplicate. */
  function Changed(t: TaskDto, c: TaskChange): (u: TaskDto)
    ensures u.id == t.id && u.projectId == t.projectId
    ensures c.NewStatus? ==> u.statusId == c.statusId && u.title == t.title && u.assignees == t.assignees
    ensures c.NewTitle? ==> u.title == c.title && u.statusId == t.statusId && u.assignees == t.assignees
    ensures c.NewAssignee? ==>
              u.assignees == t.assignees + [c.memberId] && u.title == t.title && u.statusId == t.statusId
  {
    match c
    case NewStatus(s) => t.(statusId := s)
    case NewTitle(n) => t.(title := n)
    case NewAssignee(m) => t.(assignees := t.assignees + [m])
  }

  /** The first task with id `id`: what `tasks.first { it.id == id }` returns. */
  function FindTask(ts: seq<TaskDto>, id: Uuid): (r: Option<TaskDto>)
    ensures r.Some? <==> id in TaskIds(ts)
    ensures r.Some? ==> r.value in ts && r.value.id == id
    ensures r.Some? ==> r.value == ts[FirstIndex(TaskIds(ts), id).value]
  {
    match FirstIndex(TaskIds(ts), id)
    case None => None
    case Some(k) => Some(ts[k])
  }

  /** `tasks.first { it.id == id }.<field> = …`: fails when no task has the id;
      otherwise the first task with that id, and only that one, is edited. */
  function UpdateTask(ts: seq<TaskDto>, id: Uuid, c: TaskChange): (r: Option<seq<TaskDto>>)
    ensures r.Some? <==> id in TaskIds(ts)
    ensures r.Some? ==> |r.value| == |ts|
    ensures r.Some? ==> forall i :: 0 <= i < |ts| ==>
              r.value[i] == if ts[i].id == id && id !in TaskIds(ts[..i]) then Changed(ts[i], c) else ts[i]
  {
    match FirstIndex(TaskIds(ts), id)
    case None => None
    case Some(k) =>
      var r := ts[k := Changed(ts[k], c)];
      assert forall i :: 0 <= i < |ts| ==> (ts[i].id == id && id !in TaskIds(ts[..i]) <==> i == k) by {
        forall i | 0 <= i < |ts| ensures (ts[i].id == id && id !in TaskIds(ts[..i]) <==> i == k) {
          assert TaskIds(ts[..i]) == TaskIds(ts)[..i];
          if i < k {
            assert TaskIds(ts)[i] == ts[i].id;
          } else if i > k {
            assert TaskIds(ts[..i])[k] == id;
          }
        }
      }
      Some(r)
  }

  /** After an edit, searching for the task finds the edited task. */
  lemma FindAfterUpdate(ts: seq<TaskDto>, id: Uuid, c: TaskChange)
    requires id in TaskIds(ts)
    ensures FindTask(UpdateTask(ts, id, c).value, id) == Some(Changed(FindTask(ts, id).value, c))
  {
    var k := FirstIndex(TaskIds(ts), id).value;
    var us := UpdateTask(ts, id, c).value;
    assert us == ts[k := Changed(ts[k], c)];
    assert TaskIds(us) == TaskIds(ts);
  }

  // ---------------------------------------------------------------------
  // The fold

  /** One `@StateTransitionFunc` per event, as a pure function. Transitions
      that search with `.first { }` fail when nothing matches; the others
      cannot fail. */
  function Evolve(p: Project, e: ProjectEvent): (r: Result<Project>)
    ensures r.Err? <==>
              (e.StatusesUpdated? && !(forall i :: 0 <= i < |e.statuses| ==> e.statuses[i] in StatusIds(p.statuses)))
              || ((e.TaskStatusUpdated? || e.TaskRenamed? || e.MemberAssigned?) && e.taskId !in TaskIds(p.tasks))
    ensures r.Err? ==> r.error == (if e.StatusesUpdated? then NoSuchStatus else NoSuchTask)
  {
    match e
    case ProjectCreated(projectId, title) =>
      Ok(p.(header := Active(projectId, title)))
    case StatusesUpdated(order) =>
      (match Reorder(p.statuses, order)
       case None => Err(NoSuchStatus)
       case Some(ss) => Ok(p.(statuses := ss)))
    case StatusCreated(statusId, projectId, color, name) =>
      Ok(p.(statuses := p.statuses + [StatusDto(statusId, projectId, name, color)]))
    case StatusDeleted(statusId) =>
      Ok(p.(statuses := RemoveStatus(p.statuses, statusId)))
    case TaskCreated(taskId, projectId, title, statusId, assignees) =>
      Ok(p.(tasks := AddTask(p.tasks, TaskDto(taskId, projectId, title, statusId, assignees))))
    case TaskStatusUpdated(taskId, statusId) => EditTask(p, taskId, NewStatus(statusId))
    case TaskRenamed(taskId, title) => EditTask(p, taskId, NewTitle(title))
    case MemberAssigned(memberId, taskId) => EditTask(p, taskId, NewAssignee(memberId))
    case MemberCreated(username, firstName, middleName, lastName, _, memberId) =>
      Ok(p.(members := p.members + [MemberDto(memberId, username, firstName, middleName, lastName)]))
  }

  function EditTask(p: Project, taskId: Uuid, c: TaskChange): (r: Result<Project>)
    ensures r.Err? <==> taskId !in TaskIds(p.tasks)
    ensures r.Err? ==> r.error == NoSuchTask
    ensures r.Ok? ==> r.value == p.(tasks := UpdateTask(p.tasks, taskId, c).value)
  {
    match UpdateTask(p.tasks, taskId, c)
    case None => Err(NoSuchTask)
    case Some(ts) => Ok(p.(tasks := ts))
  }

  /** What a successful transition changes: each event touches only its own
      field of the state. */
  lemma EvolveTouchesOnlyItsField(p: Project, e: ProjectEvent)
    requires Evolve(p, e).Ok?
    ensures Evolve(p, e).value.header == (if e.ProjectCreated? then Active(e.projectId, e.title) else p.header)
    ensures !e.MemberCreated? ==> Evolve(p, e).value.members == p.members
    ensures e.MemberCreated? ==>
              Evolve(p, e).value.members
              == p.members + [MemberDto(e.memberId, e.username, e.firstName, e.middleName, e.lastName)]
    ensures !(e.StatusesUpdated? || e.StatusCreated? || e.StatusDeleted?) ==>
              Evolve(p, e).value.statuses == p.statuses
    ensures e.StatusesUpdated? ==> StatusIds(Evolve(p, e).value.statuses) == e.statuses
    ensures e.StatusCreated? ==>
              Evolve(p, e).value.statuses == p.statuses + [StatusDto(e.statusId, e.projectId, e.statusName, e.color)]
    ensures e.StatusDeleted? ==> e.statusId !in StatusIds(Evolve(p, e).value.statuses)
    ensures !(e.TaskCreated? || e.TaskStatusUpdated? || e.TaskRenamed? || e.MemberAssigned?) ==>
              Evolve(p, e).value.tasks == p.tasks
    ensures e.TaskCreated? ==>
              TaskDto(e.taskId, e.projectId, e.title, e.statusId, e.assignees) in Evolve(p, e).value.tasks
    ensures (e.TaskStatusUpdated? || e.TaskRenamed? || e.MemberAssigned?) ==>
              |Evolve(p, e).value.tasks| == |p.tasks| && TaskIds(Evolve(p, e).value.tasks) == TaskIds(p.tasks)
  {
  }

  /** Replaying a log: fold every event in order, stopping at the first
      transition that throws. */
  function Replay(p: Project, log: seq<ProjectEvent>): Result<Project>
    decreases |log|
  {
    if log == [] then Ok(p)
    else
      match Evolve(p, log[0])
      case Err(err) => Err(err)
      case Ok(q) => Replay(q, log[1..])
  }

  /** Replaying a longer log is replaying the shorter one and folding the
      extra event into the result: appending to the log is applying the event. */
  lemma {:induction false} ReplaySnoc(p: Project, log: seq<ProjectEvent>, e: ProjectEvent)
    requires Replay(p, log).Ok?
    ensures Replay(p, log + [e]) == Evolve(Replay(p, log).value, e)
    decreases |log|
  {
    if log == [] {
      assert [e][1..] == [];
    } else {
      assert (log + [e])[1..] == log[1..] + [e];
      ReplaySnoc(Evolve(p, log[0]).value, log[1..], e);
    }
  }

  /** With fresh status ids, no transition ever makes two different
      statuses share an id. */
  lemma EvolvePreservesSameIdSameStatus(p: Project, e: ProjectEvent)
    requires SameIdSameStatus(p.statuses)
    requires e.StatusCreated? ==> e.statusId !in StatusIds(p.statuses)
    requires Evolve(p, e).Ok?
    ensures SameIdSameStatus(Evolve(p, e).value.statuses)
  {
    var ss := Evolve(p, e).value.statuses;
    if e.StatusCreated? {
      forall i | 0 <= i < |p.statuses| ensures p.statuses[i].id != e.statusId {
        assert StatusIds(p.statuses)[i] == p.statuses[i].id;
      }
    } else if e.StatusesUpdated? || e.StatusDeleted? {
      assert forall x :: x in ss ==> x in p.statuses;
      forall i, j | 0 <= i < |ss| && 0 <= j < |ss| && ss[i].id == ss[j].id ensures ss[i] == ss[j] {
        assert ss[i] in p.statuses && ss[j] in p.statuses;
      }
    }
  }

  // ---------------------------------------------------------------------
  // The state object

  /** `ProjectAggregateState`: the fold's in-place form. */
  class ProjectAggregateState {
    var header: Header
    var members: seq<MemberDto>
    var tasks: seq<TaskDto>
    var statuses: seq<StatusDto>

    constructor ()
      ensures Snapshot() == Empty
    {
      header := Uninitialized;
      members := [];
      tasks := [];
      statuses := [];
    }

    function Snapshot(): Project
      reads this
    {
      Project(header, members, tasks, statuses)
    }

    /** `getId()`: reading `projectId` before creation throws. */
    function GetId(): (r: Result<Uuid>)
      reads this
      ensures r.Ok? <==> header.Active?
      ensures r.Ok? ==> r.value == header.projectId
      ensures r.Err? ==> r.error == UninitializedProperty
    {
      match header
      case Uninitialized => Err(UninitializedProperty)
      case Active(projectId, _) => Ok(projectId)
    }

    method ProjectCreatedApply(e: ProjectEvent)
      requires e.ProjectCreated?
      modifies this
      ensures header == Active(e.projectId, e.title)
      ensures members == old(members) && tasks == old(tasks) && statuses == old(statuses)
    {
      header := Active(e.projectId, e.title);
    }

    method StatusesUpdatedApply(e: ProjectEvent) returns (ok: bool)
      requires e.StatusesUpdated?
      modifies this
      ensures ok <==> forall i :: 0 <= i < |e.statuses| ==> e.statuses[i] in StatusIds(old(statuses))
      ensures ok ==> |statuses| == |e.statuses| && StatusIds(statuses) == e.statuses
      ensures ok ==> statuses == Reorder(old(statuses), e.statuses).value
      ensures !ok ==> statuses == old(statuses)
      ensures header == old(header) && members == old(members) && tasks == old(tasks)
    {
      var r := Reorder(statuses, e.statuses);
      ok := r.Some?;
      if ok {
        statuses := r.value;
      }
    }

    method TaskCreatedApply(e: ProjectEvent)
      requires e.TaskCreated?
      modifies this
      ensures tasks == AddTask(old(tasks), TaskDto(e.taskId, e.projectId, e.title, e.statusId, e.assignees))
      ensures TaskDto(e.taskId, e.projectId, e.title, e.statusId, e.assignees) in tasks
      ensures header == old(header) && members == old(members) && statuses == old(statuses)
    {
      tasks := AddTask(tasks, TaskDto(e.taskId, e.projectId, e.title, e.statusId, e.assignees));
    }

    /** Shared body of the three transitions that edit one task in place. */
    method EditTaskApply(taskId: Uuid, c: TaskChange) returns (ok: bool)
      modifies this
      ensures ok <==> taskId in TaskIds(old(tasks))
      ensures ok ==> tasks == UpdateTask(old(tasks), taskId, c).value
      ensures !ok ==> tasks == old(tasks)
      ensures header == old(header) && members == old(members) && statuses == old(statuses)
    {
      var k := FirstIndex(TaskIds(tasks), taskId);
      ok := k.Some?;
      if ok {
        tasks := tasks[k.value := Changed(tasks[k.value], c)];
      }
    }

    method MemberAssignedToTaskApply(e: ProjectEvent) returns (ok: bool)
      requires e.MemberAssigned?
      modifies this
      ensures ok <==> e.taskId in TaskIds(old(tasks))
      ensures ok ==> tasks == UpdateTask(old(tasks), e.taskId, NewAssignee(e.memberId)).value
      ensures !ok ==> tasks == old(tasks)
      ensures header == old(header) && members == old(members) && statuses == old(statuses)
    {
      ok := EditTaskApply(e.taskId, NewAssignee(e.memberId));
    }

    method TaskStatusUpdatedApply(e: ProjectEvent) returns (ok: bool)
      requires e.TaskStatusUpdated?
      modifies this
      ensures ok <==> e.taskId in TaskIds(old(tasks))
      ensures ok ==> tasks == UpdateTask(old(tasks), e.taskId, NewStatus(e.statusId)).value
      ensures !ok ==> tasks == old(tasks)
      ensures header == old(header) && members == old(members) && statuses == old(statuses)
    {
      ok := EditTaskApply(e.taskId, NewStatus(e.statusId));
    }

    method TaskRenamedApply(e: ProjectEvent) returns (ok: bool)
      requires e.TaskRenamed?
      modifies this
      ensures ok <==> e.taskId in TaskIds(old(tasks))
      ensures ok ==> tasks == UpdateTask(old(tasks), e.taskId, NewTitle(e.title)).value
      ensures !ok ==> tasks == old(tasks)
      ensures header == old(header) && members == old(members) && statuses == old(statuses)
    {
      ok := EditTaskApply(e.taskId, NewTitle(e.title));
    }

    method StatusCreatedApply(e: ProjectEvent)
      requires e.StatusCreated?
      modifies this
      ensures statuses == old(statuses) + [StatusDto(e.statusId, e.projectId, e.statusName, e.color)]
      ensures header == old(header) && members == old(members) && tasks == old(tasks)
    {
      statuses := statuses + [StatusDto(e.statusId, e.projectId, e.statusName, e.color)];
    }

    method MemberCreatedApply(e: ProjectEvent)
      requires e.MemberCreated?
      modifies this
      ensures members == old(members) + [MemberDto(e.memberId, e.username, e.firstName, e.middleName, e.lastName)]
      ensures header == old(header) && tasks == old(tasks) && statuses == old(statuses)
    {
      members := members + [MemberDto(e.memberId, e.username, e.firstName, e.middleName, e.lastName)];
    }

    method StatusDeletedApply(e: ProjectEvent)
      requires e.StatusDeleted?
      modifies this
      ensures statuses == RemoveStatus(old(statuses), e.statusId)
      ensures e.statusId !in StatusIds(statuses)
      ensures header == old(header) && members == old(members) && tasks == old(tasks)
    {
      statuses := RemoveStatus(statuses, e.statusId);
    }

    /** The framework's dispatch of an event to its transition function. A
        transition that throws leaves the state as it was. */
    method ApplyEvent(e: ProjectEvent) returns (ok: bool)
      modifies this
      ensures ok <==> Evolve(old(Snapshot()), e).Ok?
      ensures ok ==> Snapshot() == Evolve(old(Snapshot()), e).value
      ensures !ok ==> Snapshot() == old(Snapshot())
    {
      match e
      case ProjectCreated(_, _) => ProjectCreatedApply(e); ok := true;
      case StatusesUpdated(_) => ok := StatusesUpdatedApply(e);
      case StatusCreated(_, _, _, _) => StatusCreatedApply(e); ok := true;
      case StatusDeleted(_) => StatusDeletedApply(e); ok := true;
      case TaskCreated(_, _, _, _, _) => TaskCreatedApply(e); ok := true;
      case TaskStatusUpdated(_, _) => ok := TaskStatusUpdatedApply(e);
      case TaskRenamed(_, _) => ok := TaskRenamedApply(e);
      case MemberAssigned(_, _) => ok := MemberAssignedToTaskApply(e);
      case MemberCreated(_, _, _, _, _, _) => MemberCreatedApply(e); ok := true;
    }
  }
}
