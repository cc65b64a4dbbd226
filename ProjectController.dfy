/** The command sequencing of the project controller's write handlers, with
    the HTTP mapping left out. Every handler calls `projectService.update`
    one or more times; each call runs one command against the state built so
    far and, if the command and the transition of its event both succeed,
    appends the event. Nothing groups the calls of one handler: a failing
    call leaves the effects of the earlier ones in place. */
module ProjectController {
  import opened Common
  import opened ProjectAggregate
  import ProjectCommands
  import PersonAggregate

  /** How a handler ended: all its steps succeeded, or one of them threw. */
  datatype Outcome = Done | Failed(error: Error)

  /** What the handlers read from a person: `person?.personId`,
      `person?.username` and so on, every field null when there is no person. */
  datatype Profile = Profile(personId: Option<Uuid>, username: Option<string>, firstName: Option<string>,
                             middleName: Option<string>, lastName: Option<string>)

  /** Safe-call reads of the state `personService.getState` returned (null for
      an unknown person). Reading a `lateinit` field of a state that has not
      seen its creation event throws. */
  function ProfileOf(person: PersonAggregate.PersonAggregateState?): (r: Result<Profile>)
    reads person
    ensures person == null ==> r == Ok(Profile(None, None, None, None, None))
    ensures person != null && !person.initialized ==> r == Err(UninitializedProperty)
    ensures person != null && person.initialized ==>
              r == Ok(Profile(Some(person.personId), Some(person.username), Some(person.firstName),
                              Some(person.middleName), Some(person.lastName)))
  {
    if person == null then Ok(Profile(None, None, None, None, None))
    else if !person.initialized then Err(UninitializedProperty)
    else Ok(Profile(Some(person.personId), Some(person.username), Some(person.firstName),
                    Some(person.middleName), Some(person.lastName)))
  }

  /** `projectService.update(id) { command }`: run the command on the current
      state; on success fold its event into the state and append it to the
      log. A command that throws, or an event whose transition throws,
      appends nothing and leaves the state as it was. `origin` is the state
      the log `log` started from. */
  method Update(st: ProjectAggregateState, command: Project -> Result<ProjectEvent>,
                ghost origin: Project, log: seq<ProjectEvent>)
    returns (outcome: Outcome, log': seq<ProjectEvent>)
    requires Replay(origin, log) == Ok(st.Snapshot())
    modifies st
    ensures Replay(origin, log') == Ok(st.Snapshot())
    ensures command(old(st.Snapshot())).Err? ==>
              outcome == Failed(command(old(st.Snapshot())).error)
              && log' == log && st.Snapshot() == old(st.Snapshot())
    ensures command(old(st.Snapshot())).Ok?
            && Evolve(old(st.Snapshot()), command(old(st.Snapshot())).value).Err? ==>
              outcome == Failed(Evolve(old(st.Snapshot()), command(old(st.Snapshot())).value).error)
              && log' == log && st.Snapshot() == old(st.Snapshot())
    ensures command(old(st.Snapshot())).Ok?
            && Evolve(old(st.Snapshot()), command(old(st.Snapshot())).value).Ok? ==>
              outcome == Done && log' == log + [command(old(st.Snapshot())).value]
              && st.Snapshot() == Evolve(old(st.Snapshot()), command(old(st.Snapshot())).value).value
  {
    var r := command(st.Snapshot());
    if r.Err? {
      return Failed(r.error), log;
    }
    var before := st.Snapshot();
    var ok := st.ApplyEvent(r.value);
    if !ok {
      return Failed(Evolve(before, r.value).error), log;
    }
    ReplaySnoc(origin, log, r.value);
    outcome, log' := Done, log + [r.value];
  }

  // ---------------------------------------------------------------------
  // Accepted commands whose transition throws

  /** `Update` drops an event whose transition throws. A runtime that appends
      every accepted event before folding it would instead leave a log that
      no longer replays: the next load of the aggregate throws the same
      error. */
  lemma AppendedFailingEventBlocksReplay(origin: Project, log: seq<ProjectEvent>, e: ProjectEvent)
    requires Replay(origin, log).Ok?
    requires Evolve(Replay(origin, log).value, e).Err?
    ensures Replay(origin, log + [e]) == Err(Evolve(Replay(origin, log).value, e).error)
  {
    ReplaySnoc(origin, log, e);
  }

  /** `updateTaskName` on an absent task is accepted, and its event cannot
      be folded. */
  lemma RenameAbsentTaskBlocksReplay(origin: Project, log: seq<ProjectEvent>, taskId: Uuid, title: string,
                                     projectId: Uuid)
    requires Replay(origin, log).Ok?
    requires taskId !in TaskIds(Replay(origin, log).value.tasks)
    ensures var e := ProjectCommands.UpdateTaskName(Replay(origin, log).value, taskId, title, projectId);
            Replay(origin, log + [e]) == Err(NoSuchTask)
  {
    AppendedFailingEventBlocksReplay(origin, log, TaskRenamed(taskId, title));
  }

  /** `updateTaskStatus` to a current status on an absent task is accepted,
      and its event cannot be folded. */
  lemma RestatusAbsentTaskBlocksReplay(origin: Project, log: seq<ProjectEvent>, taskId: Uuid, statusId: Uuid,
                                       projectId: Uuid)
    requires Replay(origin, log).Ok?
    requires statusId in StatusIds(Replay(origin, log).value.statuses)
    requires taskId !in TaskIds(Replay(origin, log).value.tasks)
    ensures var r := ProjectCommands.UpdateTaskStatus(Replay(origin, log).value, taskId, projectId, statusId);
            r.Ok? && Replay(origin, log + [r.value]) == Err(NoSuchTask)
  {
    AppendedFailingEventBlocksReplay(origin, log, TaskStatusUpdated(taskId, statusId));
  }

  /** `updateStatusOrder` naming an unknown status id is accepted, and its
      event cannot be folded. */
  lemma UnknownOrderBlocksReplay(origin: Project, log: seq<ProjectEvent>, orderedStatuses: seq<Uuid>,
                                 projectId: Uuid)
    requires Replay(origin, log).Ok?
    requires exists i :: 0 <= i < |orderedStatuses|
                         && orderedStatuses[i] !in StatusIds(Replay(origin, log).value.statuses)
    ensures var e := ProjectCommands.UpdateStatusOrder(Replay(origin, log).value, orderedStatuses, projectId);
            Replay(origin, log + [e]) == Err(NoSuchStatus)
  {
    AppendedFailingEventBlocksReplay(origin, log, StatusesUpdated(orderedStatuses));
  }

  /** `createProject`: create the project, then its default status, then add
      the creator as a member — three separate appends. When the creator's
      person is unknown the last step throws, and the project and its status
      stay behind: nothing is rolled back. */
  method CreateProject(title: string, personCreatorId: Uuid, person: PersonAggregate.PersonAggregateState?,
                       newProjectId: Uuid, newStatusId: Uuid)
    returns (st: ProjectAggregateState, log: seq<ProjectEvent>, outcome: Outcome)
    ensures fresh(st)
    ensures Replay(Empty, log) == Ok(st.Snapshot())
    ensures st.header == Active(newProjectId, title) && st.tasks == []
    ensures st.statuses == [StatusDto(newStatusId, newProjectId, DefaultStatusName, DefaultStatusColor)]
    ensures outcome.Done? <==> person != null && person.initialized
    ensures person == null ==> outcome == Failed(PersonNotFound)
    ensures outcome.Done? ==>
              st.members
              == [MemberDto(person.personId, person.username, person.firstName, person.middleName, person.lastName)]
              && |log| == 3
    ensures outcome.Failed? ==>
              st.members == []
              && log == [ProjectCreated(newProjectId, title),
                         StatusCreated(newStatusId, newProjectId, DefaultStatusColor, DefaultStatusName)]
  {
    st := new ProjectAggregateState();
    var o1, o2, o3;
    o1, log := Update(st, (p: Project) => Ok(ProjectCommands.CreateProject(p, title, personCreatorId, newProjectId)),
                      Empty, []);
    o2, log := Update(st, (p: Project) => ProjectCommands.CreateStatus(p, newStatusId),
                      Empty, log);
    var profile := ProfileOf(person);
    o3, log := Update(st, (p: Project) => if profile.Err? then Err(profile.error)
                               else ProjectCommands.AddPerson(p, newProjectId, profile.value.personId,
                                                              profile.value.username, profile.value.firstName,
                                                              profile.value.middleName, profile.value.lastName),
                      Empty, log);
    outcome := o3;
  }

  /** `addMemberToProject`: one `addPerson` step; an unknown person arrives as
      all-null fields and is refused. */
  method AddMemberToProject(st: ProjectAggregateState, projectId: Uuid, person: PersonAggregate.PersonAggregateState?)
    returns (log: seq<ProjectEvent>, outcome: Outcome)
    modifies st
    ensures Replay(old(st.Snapshot()), log) == Ok(st.Snapshot())
    ensures person == null ==> outcome == Failed(PersonNotFound)
    ensures person != null && !person.initialized ==> outcome == Failed(UninitializedProperty)
    ensures person != null && person.initialized && person.personId in MemberIds(old(st.members)) ==>
              outcome == Failed(AlreadyMember)
    ensures outcome.Done? <==> person != null && person.initialized && person.personId !in MemberIds(old(st.members))
    ensures outcome.Failed? ==> log == [] && st.Snapshot() == old(st.Snapshot())
    ensures outcome.Done? ==>
              log == [MemberCreated(person.username, person.firstName, person.middleName, person.lastName,
                                    projectId, person.personId)]
              && st.members == old(st.members)
                               + [MemberDto(person.personId, person.username, person.firstName,
                                            person.middleName, person.lastName)]
              && st.header == old(st.header) && st.tasks == old(st.tasks) && st.statuses == old(st.statuses)
  {
    var profile := ProfileOf(person);
    outcome, log := Update(st, (p: Project) => if profile.Err? then Err(profile.error)
                                    else ProjectCommands.AddPerson(p, projectId, profile.value.personId,
                                                                   profile.value.username, profile.value.firstName,
                                                                   profile.value.middleName, profile.value.lastName),
                           st.Snapshot(), []);
  }

  /** `createStatus` as written: the second step reads a state that already
      holds the new status and still appends the new id to its ids, so the
      order event names the new status twice and the fold stores it twice.
      The statuses that were there before keep their place and order. */
  method CreateStatus(st: ProjectAggregateState, projectId: Uuid, name: string, color: string, newStatusId: Uuid)
    returns (log: seq<ProjectEvent>, outcome: Outcome)
    modifies st
    ensures Replay(old(st.Snapshot()), log) == Ok(st.Snapshot())
    ensures st.header == old(st.header) && st.members == old(st.members) && st.tasks == old(st.tasks)
    ensures old(st.header).Uninitialized? ==>
              outcome == Failed(UninitializedProperty) && log == [] && st.statuses == old(st.statuses)
    ensures old(st.header).Active? ==>
              outcome == Done
              && log == [StatusCreated(newStatusId, old(st.header).projectId, color, name),
                         StatusesUpdated(StatusIds(old(st.statuses)) + [newStatusId, newStatusId])]
              && StatusIds(st.statuses) == StatusIds(old(st.statuses)) + [newStatusId, newStatusId]
    ensures old(st.header).Active? && SameIdSameStatus(old(st.statuses))
            && newStatusId !in StatusIds(old(st.statuses)) ==>
              var s := StatusDto(newStatusId, old(st.header).projectId, name, color);
              st.statuses == old(st.statuses) + [s, s]
  {
    ghost var origin := st.Snapshot();
    var o1;
    o1, log := Update(st, (p: Project) => ProjectCommands.CreateStatus(p, newStatusId, name, color), origin, []);
    if o1.Failed? {
      return log, o1;
    }
    ghost var created := st.Snapshot();
    ghost var first := log;
    ReorderWithNewIdTwice(origin, name, color, newStatusId);
    assert created
           == origin.(statuses := origin.statuses + [StatusDto(newStatusId, origin.header.projectId, name, color)]);
    outcome, log := Update(st, (p: Project) =>
                             Ok(ProjectCommands.UpdateStatusOrder(p, StatusIds(p.statuses) + [newStatusId],
                                                                  projectId)),
                           origin, log);
    assert outcome.Done? && log == first + [StatusesUpdated(StatusIds(created.statuses) + [newStatusId])];
  }

  /** The two steps of `createStatus` as written, on values: the status is
      appended, then the order names it a second time, so the reorder stores
      it twice. */
  lemma ReorderWithNewIdTwice(p: Project, name: string, color: string, newStatusId: Uuid)
    requires p.header.Active?
    ensures var s := StatusDto(newStatusId, p.header.projectId, name, color);
            var created := p.(statuses := p.statuses + [s]);
            var q := Evolve(created, StatusesUpdated(StatusIds(created.statuses) + [newStatusId]));
            Evolve(p, StatusCreated(newStatusId, p.header.projectId, color, name)) == Ok(created)
            && StatusIds(created.statuses) + [newStatusId] == StatusIds(p.statuses) + [newStatusId, newStatusId]
            && q.Ok? && q.value == created.(statuses := q.value.statuses)
            && StatusIds(q.value.statuses) == StatusIds(p.statuses) + [newStatusId, newStatusId]
            && (SameIdSameStatus(p.statuses) && newStatusId !in StatusIds(p.statuses) ==>
                  q.value.statuses == p.statuses + [s, s])
  {
    var s := StatusDto(newStatusId, p.header.projectId, name, color);
    var created := p.(statuses := p.statuses + [s]);
    assert StatusIds(created.statuses)[|p.statuses|] == newStatusId;
    assert StatusIds(created.statuses) + [newStatusId] == StatusIds(p.statuses) + [newStatusId, newStatusId];
    if SameIdSameStatus(p.statuses) && newStatusId !in StatusIds(p.statuses) {
      EvolvePreservesSameIdSameStatus(p, StatusCreated(newStatusId, p.header.projectId, color, name));
      assert StatusIds(p.statuses + [s, s]) == StatusIds(p.statuses) + [newStatusId, newStatusId];
      ReorderByOwnIds(created.statuses, p.statuses + [s, s]);
    }
  }

  /** `createStatus` with the order step computed from the state it reads
      (which already holds the new status): the new status is stored once,
      at the end. */
  method CreateStatusOnce(st: ProjectAggregateState, projectId: Uuid, name: string, color: string, newStatusId: Uuid)
    returns (log: seq<ProjectEvent>, outcome: Outcome)
    modifies st
    ensures Replay(old(st.Snapshot()), log) == Ok(st.Snapshot())
    ensures st.header == old(st.header) && st.members == old(st.members) && st.tasks == old(st.tasks)
    ensures old(st.header).Uninitialized? ==>
              outcome == Failed(UninitializedProperty) && log == [] && st.statuses == old(st.statuses)
    ensures old(st.header).Active? ==>
              outcome == Done && StatusIds(st.statuses) == StatusIds(old(st.statuses)) + [newStatusId]
    ensures old(st.header).Active? && SameIdSameStatus(old(st.statuses))
            && newStatusId !in StatusIds(old(st.statuses)) ==>
              st.statuses == old(st.statuses) + [StatusDto(newStatusId, old(st.header).projectId, name, color)]
              && SameIdSameStatus(st.statuses)
  {
    ghost var origin := st.Snapshot();
    var o1;
    o1, log := Update(st, (p: Project) => ProjectCommands.CreateStatus(p, newStatusId, name, color), origin, []);
    if o1.Failed? {
      return log, o1;
    }
    ghost var created := st.Snapshot();
    ReorderWithNewIdOnce(origin, name, color, newStatusId);
    assert created
           == origin.(statuses := origin.statuses + [StatusDto(newStatusId, origin.header.projectId, name, color)]);
    outcome, log := Update(st, (p: Project) =>
                             Ok(ProjectCommands.UpdateStatusOrder(p, StatusIds(p.statuses), projectId)),
                           origin, log);
    assert outcome.Done?;
  }

  /** The two steps of the corrected `createStatus`, on values: ordering by
      the ids the state already holds keeps the appended status once. */
  lemma ReorderWithNewIdOnce(p: Project, name: string, color: string, newStatusId: Uuid)
    requires p.header.Active?
    ensures var s := StatusDto(newStatusId, p.header.projectId, name, color);
            var created := p.(statuses := p.statuses + [s]);
            var q := Evolve(created, StatusesUpdated(StatusIds(created.statuses)));
            Evolve(p, StatusCreated(newStatusId, p.header.projectId, color, name)) == Ok(created)
            && q.Ok? && q.value == created.(statuses := q.value.statuses)
            && StatusIds(q.value.statuses) == StatusIds(p.statuses) + [newStatusId]
            && (SameIdSameStatus(p.statuses) && newStatusId !in StatusIds(p.statuses) ==>
                  q.value.statuses == p.statuses + [s] && SameIdSameStatus(q.value.statuses))
  {
    var s := StatusDto(newStatusId, p.header.projectId, name, color);
    var created := p.(statuses := p.statuses + [s]);
    assert StatusIds(created.statuses) == StatusIds(p.statuses) + [newStatusId];
    if SameIdSameStatus(p.statuses) && newStatusId !in StatusIds(p.statuses) {
      EvolvePreservesSameIdSameStatus(p, StatusCreated(newStatusId, p.header.projectId, color, name));
      ReorderByOwnIds(created.statuses, created.statuses);
    }
  }

  /** `updateStatusOrder`: the client's list reaches the event unchecked; the
      transition then throws if the list names an id no status has. */
  method UpdateStatusOrder(st: ProjectAggregateState, projectId: Uuid, orderedStatuses: seq<Uuid>)
    returns (log: seq<ProjectEvent>, outcome: Outcome)
    modifies st
    ensures Replay(old(st.Snapshot()), log) == Ok(st.Snapshot())
    ensures st.header == old(st.header) && st.members == old(st.members) && st.tasks == old(st.tasks)
    ensures outcome.Done? <==>
              forall i :: 0 <= i < |orderedStatuses| ==> orderedStatuses[i] in StatusIds(old(st.statuses))
    ensures outcome.Failed? ==> outcome.error == NoSuchStatus && log == [] && st.statuses == old(st.statuses)
    ensures outcome.Done? ==> log == [StatusesUpdated(orderedStatuses)] && StatusIds(st.statuses) == orderedStatuses
    ensures SameIdSameStatus(old(st.statuses))
            && (forall id :: id in orderedStatuses <==> id in StatusIds(old(st.statuses))) ==>
              outcome.Done? && (forall x :: x in st.statuses <==> x in old(st.statuses))
  {
    ghost var origin := st.Snapshot();
    outcome, log := Update(st, (p: Project) => Ok(ProjectCommands.UpdateStatusOrder(p, orderedStatuses, projectId)),
                           origin, []);
    if SameIdSameStatus(origin.statuses)
       && (forall id :: id in orderedStatuses <==> id in StatusIds(origin.statuses)) {
      ReorderPermutation(origin.statuses, orderedStatuses);
    }
  }

  /** `deleteStatus` as written: the order update that drops the status runs
      before the in-use check. The order update cannot fail, so the status
      always leaves `statuses`; when the check then refuses, a task still
      refers to a status the project no longer lists. */
  method DeleteStatus(st: ProjectAggregateState, projectId: Uuid, statusId: Uuid)
    returns (log: seq<ProjectEvent>, outcome: Outcome)
    modifies st
    ensures Replay(old(st.Snapshot()), log) == Ok(st.Snapshot())
    ensures st.header == old(st.header) && st.members == old(st.members) && st.tasks == old(st.tasks)
    ensures StatusIds(st.statuses) == IdsWithout(StatusIds(old(st.statuses)), statusId)
    ensures statusId !in StatusIds(st.statuses)
    ensures outcome.Done? <==> forall t :: t in old(st.tasks) ==> t.statusId != statusId
    ensures outcome.Failed? ==>
              outcome.error == StatusInUse
              && log == [StatusesUpdated(IdsWithout(StatusIds(old(st.statuses)), statusId))]
              && exists t :: t in st.tasks && t.statusId == statusId
    ensures outcome.Done? ==>
              log == [StatusesUpdated(IdsWithout(StatusIds(old(st.statuses)), statusId)), StatusDeleted(statusId)]
    ensures SameIdSameStatus(old(st.statuses)) ==> st.statuses == RemoveStatus(old(st.statuses), statusId)
  {
    ghost var origin := st.Snapshot();
    ghost var order := IdsWithout(StatusIds(origin.statuses), statusId);
    DropFromOrder(origin, statusId);
    var o1;
    o1, log := Update(st, (p: Project) =>
                        Ok(ProjectCommands.UpdateStatusOrder(p, IdsWithout(StatusIds(p.statuses), statusId),
                                                             projectId)),
                      origin, []);
    assert o1.Done? && st.Snapshot() == Evolve(origin, StatusesUpdated(order)).value;
    assert log == [StatusesUpdated(order)];
    ghost var reordered := st.Snapshot();
    ghost var first := log;
    outcome, log := Update(st, (p: Project) => ProjectCommands.DeleteStatus(p, statusId, projectId), origin, log);
    assert st.Snapshot() == reordered;
    if outcome.Done? {
      assert log == first + [StatusDeleted(statusId)];
    } else {
      assert outcome.error == StatusInUse;
    }
  }

  /** The order step of `deleteStatus`: dropping an id from the current ids
      always succeeds, removes every status with that id, and — when ids
      determine statuses — keeps the others in their order. */
  lemma DropFromOrder(p: Project, statusId: Uuid)
    ensures var q := Evolve(p, StatusesUpdated(IdsWithout(StatusIds(p.statuses), statusId)));
            q.Ok? && q.value == p.(statuses := q.value.statuses)
            && StatusIds(q.value.statuses) == IdsWithout(StatusIds(p.statuses), statusId)
            && Evolve(q.value, StatusDeleted(statusId)) == Ok(q.value)
            && (SameIdSameStatus(p.statuses) ==> q.value.statuses == RemoveStatus(p.statuses, statusId))
  {
    var order := IdsWithout(StatusIds(p.statuses), statusId);
    ReorderDropped(p.statuses, statusId);
    var q := p.(statuses := Reorder(p.statuses, order).value);
    assert Evolve(p, StatusesUpdated(order)) == Ok(q);
    assert Evolve(q, StatusDeleted(statusId)) == Ok(q.(statuses := RemoveStatus(q.statuses, statusId)));
  }

  /** `DropFromOrder` on the status list alone. */
  lemma ReorderDropped(ss: seq<StatusDto>, statusId: Uuid)
    ensures var r := Reorder(ss, IdsWithout(StatusIds(ss), statusId));
            r.Some? && StatusIds(r.value) == IdsWithout(StatusIds(ss), statusId)
            && RemoveStatus(r.value, statusId) == r.value
            && (SameIdSameStatus(ss) ==> r.value == RemoveStatus(ss, statusId))
  {
    var order := IdsWithout(StatusIds(ss), statusId);
    assert forall i :: 0 <= i < |order| ==> order[i] in StatusIds(ss) by {
      assert forall x :: x in order ==> x in StatusIds(ss);
    }
    var r := Reorder(ss, order).value;
    RemoveStatusAbsent(r, statusId);
    if SameIdSameStatus(ss) {
      IdsWithoutStatusIds(ss, statusId);
      ReorderByOwnIds(ss, RemoveStatus(ss, statusId));
    }
  }

  /** `deleteStatus` with the in-use check first: a refused deletion changes
      nothing, and an accepted one removes the status and keeps the others
      in their order. */
  method DeleteStatusChecked(st: ProjectAggregateState, projectId: Uuid, statusId: Uuid)
    returns (log: seq<ProjectEvent>, outcome: Outcome)
    modifies st
    ensures Replay(old(st.Snapshot()), log) == Ok(st.Snapshot())
    ensures outcome.Done? <==> forall t :: t in old(st.tasks) ==> t.statusId != statusId
    ensures outcome.Failed? ==> outcome.error == StatusInUse && log == [] && st.Snapshot() == old(st.Snapshot())
    ensures outcome.Done? ==>
              st.header == old(st.header) && st.members == old(st.members) && st.tasks == old(st.tasks)
              && StatusIds(st.statuses) == IdsWithout(StatusIds(old(st.statuses)), statusId)
              && (SameIdSameStatus(old(st.statuses)) ==> st.statuses == RemoveStatus(old(st.statuses), statusId))
  {
    ghost var origin := st.Snapshot();
    outcome, log := Update(st, (p: Project) => ProjectCommands.DeleteStatus(p, statusId, projectId), origin, []);
    if outcome.Failed? {
      return;
    }
    ghost var deleted := st.Snapshot();
    var o2;
    o2, log := Update(st, (p: Project) => Ok(ProjectCommands.UpdateStatusOrder(p, StatusIds(p.statuses), projectId)),
                      origin, log);
    IdsWithoutStatusIds(origin.statuses, statusId);
    if SameIdSameStatus(origin.statuses) {
      EvolvePreservesSameIdSameStatus(origin, StatusDeleted(statusId));
      ReorderByOwnIds(deleted.statuses, deleted.statuses);
    }
  }

  // ---------------------------------------------------------------------
  // The two defects on concrete inputs

  /** A project with no statuses gets status 7 through `createStatus`: the
      order step emits `[7, 7]` and the project then lists status 7 twice. */
  lemma CreateStatusTwiceExample()
    ensures var p := Project(Active(1, "P1"), [], [], []);
            var created := Evolve(p, ProjectCommands.CreateStatus(p, 7, "New Status", "#295233").value).value;
            var order := ProjectCommands.UpdateStatusOrder(created, StatusIds(created.statuses) + [7], 1);
            order.statuses == [7, 7]
            && Evolve(created, order).value.statuses
               == [StatusDto(7, 1, "New Status", "#295233"), StatusDto(7, 1, "New Status", "#295233")]
  {
    var p := Project(Active(1, "P1"), [], [], []);
    var created := Evolve(p, ProjectCommands.CreateStatus(p, 7, "New Status", "#295233").value).value;
    assert StatusIds(created.statuses) == [7];
  }

  /** A project whose only status 5 is held by task 9: `deleteStatus(5)`
      drops 5 from the order, then the in-use check refuses, and the project
      is left with no status while task 9 still has status 5. */
  lemma DeleteStatusInUseExample()
    ensures var t := TaskDto(9, 1, "T", 5, []);
            var p := Project(Active(1, "P1"), [], [t], [StatusDto(5, 1, "CREATED", "#000000")]);
            var order := ProjectCommands.UpdateStatusOrder(p, IdsWithout(StatusIds(p.statuses), 5), 1);
            var reordered := Evolve(p, order).value;
            ProjectCommands.DeleteStatus(reordered, 5, 1) == Err(StatusInUse)
            && reordered.statuses == [] && reordered.tasks == [t]
  {
    var p := Project(Active(1, "P1"), [], [TaskDto(9, 1, "T", 5, [])], [StatusDto(5, 1, "CREATED", "#000000")]);
    assert StatusIds(p.statuses) == [5];
    assert IdsWithout([5], 5) == [];
  }
}
